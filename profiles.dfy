/** The Profile aggregate and what the handlers of routes/api/profile.js do to
    it: building `profileFields` from the request body, the create-or-update
    merge, and the embedded `experience` and `education` lists. */
module Profiles {
  import opened Js
  import opened Http
  import opened Text

  /** The five optional social links. */
  datatype Social = Social(youtube: Option<string>, twitter: Option<string>, facebook: Option<string>,
                           linkedin: Option<string>, instagram: Option<string>)

  /** An `experience` entry: its generated id and the fields copied from the request body. */
  datatype Experience = Experience(id: ItemId, title: Option<string>, company: Option<string>,
                                   location: Option<string>, from: Option<string>, to: Option<string>,
                                   current: Option<bool>, description: Option<string>)

  /** An `education` entry: its generated id and the fields copied from the request body. */
  datatype Education = Education(id: ItemId, school: Option<string>, degree: Option<string>,
                                 fieldOfStudy: Option<string>, from: Option<string>, to: Option<string>,
                                 current: Option<bool>, description: Option<string>)

  /** A stored profile; a scalar that was never set is `None`, `skills` and the
      two lists default to empty. */
  datatype Profile = Profile(user: UserId, handle: Option<string>, company: Option<string>,
                             website: Option<string>, location: Option<string>, bio: Option<string>,
                             status: Option<string>, githubusername: Option<string>,
                             skills: seq<string>, social: Social,
                             experience: seq<Experience>, education: seq<Education>)

  /** The fields of the create-or-update request body. */
  datatype ProfileForm = ProfileForm(handle: Option<string>, company: Option<string>, website: Option<string>,
                                     location: Option<string>, bio: Option<string>, status: Option<string>,
                                     githubusername: Option<string>, skills: Option<string>,
                                     youtube: Option<string>, facebook: Option<string>, twitter: Option<string>,
                                     instagram: Option<string>, linkedin: Option<string>)

  /** The `profileFields` object: a key is `Some` exactly when the handler sets it. */
  datatype ProfileFields = ProfileFields(user: UserId, handle: Option<string>, company: Option<string>,
                                         website: Option<string>, location: Option<string>, bio: Option<string>,
                                         status: Option<string>, githubusername: Option<string>,
                                         skills: Option<seq<string>>, social: Social)

  /** The bodies of the add-experience and add-education requests. */
  datatype ExperienceForm = ExperienceForm(title: Option<string>, company: Option<string>, location: Option<string>,
                                           from: Option<string>, to: Option<string>, current: Option<bool>,
                                           description: Option<string>)
  datatype EducationForm = EducationForm(school: Option<string>, degree: Option<string>, fieldOfStudy: Option<string>,
                                         from: Option<string>, to: Option<string>, current: Option<bool>,
                                         description: Option<string>)

  function OwnerOf(p: Profile): UserId { p.user }
  function ExperienceIdOf(e: Experience): ItemId { e.id }
  function EducationIdOf(e: Education): ItemId { e.id }

  /** `out` is what `if (v) fields.key = v` leaves under `key`: the input
      itself when it is truthy, and no key otherwise. */
  predicate CopiedIfTruthy(out: Option<string>, v: Option<string>) {
    (out.Some? <==> Truthy(v)) && (out.Some? ==> out == v)
  }

  function IfTruthy(v: Option<string>): (r: Option<string>)
    ensures CopiedIfTruthy(r, v)
  {
    if Truthy(v) then v else None
  }

  /** `skills.split(',').map(skill => skill.trim())`: one entry per comma plus
      one, entry `i` being the `i`-th comma-separated piece with its surrounding
      whitespace trimmed, so that none contains a comma or starts or ends with
      whitespace. */
  function Skills(input: string): (r: seq<string>)
    ensures |r| == Count(input, ',') + 1
    ensures forall i :: 0 <= i < |r| ==> r[i] == Trim(Split(input, ',')[i])
    ensures forall i :: 0 <= i < |r| ==> Unpadded(r[i]) && ',' !in r[i]
  {
    var parts := Split(input, ',');
    seq(|parts|, i requires 0 <= i < |parts| => Trim(parts[i]))
  }

  /** When no comma-separated piece has surrounding whitespace, joining the
      skills with commas gives back the input. */
  lemma {:induction false} SkillsJoinBack(input: string)
    requires forall i :: 0 <= i < |Split(input, ',')| ==> Unpadded(Split(input, ',')[i])
    ensures Join(Skills(input), ',') == input
  {
    var parts := Split(input, ',');
    forall i | 0 <= i < |parts| ensures Skills(input)[i] == parts[i] {
      TrimUnpadded(parts[i]);
    }
    assert Skills(input) == parts;
    JoinSplit(input, ',');
  }

  /** The `profileFields` object built from the request body: `user` is always
      the requester, each scalar and each social link is present exactly when
      its input is truthy, `skills` is the split-and-trimmed input when that is
      truthy, and `social` is always present. */
  function BuildProfileFields(requester: UserId, form: ProfileForm): (f: ProfileFields)
    ensures f.user == requester
    ensures CopiedIfTruthy(f.handle, form.handle) && CopiedIfTruthy(f.company, form.company)
    ensures CopiedIfTruthy(f.website, form.website) && CopiedIfTruthy(f.location, form.location)
    ensures CopiedIfTruthy(f.bio, form.bio) && CopiedIfTruthy(f.status, form.status)
    ensures CopiedIfTruthy(f.githubusername, form.githubusername)
    ensures f.skills.Some? <==> Truthy(form.skills)
    ensures f.skills.Some? ==> f.skills.value == Skills(form.skills.value)
    ensures CopiedIfTruthy(f.social.youtube, form.youtube) && CopiedIfTruthy(f.social.twitter, form.twitter)
    ensures CopiedIfTruthy(f.social.facebook, form.facebook) && CopiedIfTruthy(f.social.linkedin, form.linkedin)
    ensures CopiedIfTruthy(f.social.instagram, form.instagram)
  {
    ProfileFields(
      requester,
      IfTruthy(form.handle), IfTruthy(form.company), IfTruthy(form.website), IfTruthy(form.location),
      IfTruthy(form.bio), IfTruthy(form.status), IfTruthy(form.githubusername),
      if Truthy(form.skills) then Some(Skills(form.skills.value)) else None,
      Social(IfTruthy(form.youtube), IfTruthy(form.twitter), IfTruthy(form.facebook),
             IfTruthy(form.linkedin), IfTruthy(form.instagram)))
  }

  /** The value a key holds after `$set`: the set value when the key is present. */
  function SetOr(current: Option<string>, given: Option<string>): Option<string> {
    if given.Some? then given else current
  }

  /** `$set: profileFields` applied to a stored profile: every key present in
      the fields overwrites, every absent scalar keeps its old value, `social`
      (always present) is replaced whole, and the two lists are untouched. */
  function ApplyFields(p: Profile, f: ProfileFields): (r: Profile)
    ensures r.user == f.user && r.social == f.social
    ensures r.experience == p.experience && r.education == p.education
    ensures f.handle.None? ==> r.handle == p.handle
    ensures f.handle.Some? ==> r.handle == f.handle
    ensures f.company.None? ==> r.company == p.company
    ensures f.company.Some? ==> r.company == f.company
    ensures f.website.None? ==> r.website == p.website
    ensures f.website.Some? ==> r.website == f.website
    ensures f.location.None? ==> r.location == p.location
    ensures f.location.Some? ==> r.location == f.location
    ensures f.bio.None? ==> r.bio == p.bio
    ensures f.bio.Some? ==> r.bio == f.bio
    ensures f.status.None? ==> r.status == p.status
    ensures f.status.Some? ==> r.status == f.status
    ensures f.githubusername.None? ==> r.githubusername == p.githubusername
    ensures f.githubusername.Some? ==> r.githubusername == f.githubusername
    ensures f.skills.None? ==> r.skills == p.skills
    ensures f.skills.Some? ==> r.skills == f.skills.value
  {
    p.(user := f.user,
       handle := SetOr(p.handle, f.handle), company := SetOr(p.company, f.company),
       website := SetOr(p.website, f.website), location := SetOr(p.location, f.location),
       bio := SetOr(p.bio, f.bio), status := SetOr(p.status, f.status),
       githubusername := SetOr(p.githubusername, f.githubusername),
       skills := if f.skills.Some? then f.skills.value else p.skills,
       social := f.social)
  }

  /** Applying the same fields twice is the same as applying them once, so a
      repeated create-or-update request changes nothing more. */
  lemma ApplyFieldsIdempotent(p: Profile, f: ProfileFields)
    ensures ApplyFields(ApplyFields(p, f), f) == ApplyFields(p, f)
  {
  }

  /** The profile of `u` before any key is set. */
  function Blank(u: UserId): Profile {
    Profile(u, None, None, None, None, None, None, None, [], Social(None, None, None, None, None), [], [])
  }

  /** `new Profile(profileFields)`: the keys of the fields and defaults for the
      rest, which is the same as setting the fields on a blank profile. */
  function NewProfile(f: ProfileFields): (p: Profile)
    ensures p == ApplyFields(Blank(f.user), f)
    ensures p.experience == [] && p.education == []
  {
    Profile(f.user, f.handle, f.company, f.website, f.location, f.bio, f.status, f.githubusername,
            if f.skills.Some? then f.skills.value else [], f.social, [], [])
  }

  /** How many stored profiles belong to `u`. */
  function ProfileCount(profiles: seq<Profile>, u: UserId): nat {
    |FilterBy(profiles, OwnerOf, u)|
  }

  /** Create or update by owner: `Profile.findOne({ user })` picks the first
      profile of the requester in store order; when there is one, `$set`
      merges the fields into it in place, otherwise a new profile is added.
      Gives the new store contents and the profile sent back. */
  function Upsert(profiles: seq<Profile>, f: ProfileFields): (r: (seq<Profile>, Profile))
    ensures r.1.user == f.user
    ensures var k := IndexOf(Project(r.0, OwnerOf), f.user); 0 <= k && r.0[k] == r.1
    ensures f.user in Project(profiles, OwnerOf) ==>
      r.1 == ApplyFields(profiles[IndexOf(Project(profiles, OwnerOf), f.user)], f)
    ensures f.user !in Project(profiles, OwnerOf) ==> r.1 == NewProfile(f)
    ensures f.user in Project(profiles, OwnerOf) ==>
      r.0 == profiles[IndexOf(Project(profiles, OwnerOf), f.user) := r.1]
    ensures f.user !in Project(profiles, OwnerOf) ==> r.0 == profiles + [r.1]
  {
    var k := IndexOf(Project(profiles, OwnerOf), f.user);
    if k >= 0 then
      var p := ApplyFields(profiles[k], f);
      ProjectUpdate(profiles, k, p, OwnerOf);
      (profiles[k := p], p)
    else
      var p := NewProfile(f);
      assert Project(profiles + [p], OwnerOf) == Project(profiles, OwnerOf) + [f.user];
      (profiles + [p], p)
  }

  /** Create or update keeps owners apart: the requester ends with exactly one
      profile when they had at most one, and no other user's profiles change. */
  lemma {:induction false} UpsertKeepsOneProfilePerOwner(profiles: seq<Profile>, f: ProfileFields, v: UserId)
    ensures ProfileCount(profiles, f.user) <= 1 ==> ProfileCount(Upsert(profiles, f).0, f.user) == 1
    ensures v != f.user ==> FilterBy(Upsert(profiles, f).0, OwnerOf, v) == FilterBy(profiles, OwnerOf, v)
  {
    var k := IndexOf(Project(profiles, OwnerOf), f.user);
    if k >= 0 {
      var p := ApplyFields(profiles[k], f);
      assert Upsert(profiles, f).0 == profiles[k := p];
      assert OwnerOf(profiles[k]) == f.user by {
        assert Project(profiles, OwnerOf)[k] == f.user;
      }
      ReplaceKeepsCounts(profiles, k, p, v);
    } else {
      var p := NewProfile(f);
      assert Upsert(profiles, f).0 == profiles + [p];
      AppendCounts(profiles, p, v);
    }
  }

  /** Replacing a profile by one of the same owner keeps that owner's count,
      at least one, and every other owner's profiles. */
  lemma ReplaceKeepsCounts(profiles: seq<Profile>, k: nat, p: Profile, v: UserId)
    requires k < |profiles| && OwnerOf(p) == OwnerOf(profiles[k])
    ensures ProfileCount(profiles[k := p], p.user) == ProfileCount(profiles, p.user) >= 1
    ensures v != p.user ==> FilterBy(profiles[k := p], OwnerOf, v) == FilterBy(profiles, OwnerOf, v)
  {
    FilterByReplace(profiles, k, p, OwnerOf, p.user);
    FilterByReplace(profiles, k, p, OwnerOf, v);
    FilterByHas(profiles, OwnerOf, p.user, k);
  }

  /** Appending a profile for an owner who has none gives that owner one
      profile and keeps every other owner's profiles. */
  lemma AppendCounts(profiles: seq<Profile>, p: Profile, v: UserId)
    requires p.user !in Project(profiles, OwnerOf)
    ensures ProfileCount(profiles + [p], p.user) == 1
    ensures v != p.user ==> FilterBy(profiles + [p], OwnerOf, v) == FilterBy(profiles, OwnerOf, v)
  {
    FilterByAppend(profiles, [p], OwnerOf, p.user);
    FilterByAppend(profiles, [p], OwnerOf, v);
    assert FilterBy([p], OwnerOf, p.user) == [p];
    assert ProfileCount(profiles, p.user) == 0 by {
      forall i | 0 <= i < |profiles| ensures OwnerOf(profiles[i]) != p.user {
        assert Project(profiles, OwnerOf)[i] != p.user;
      }
    }
  }

  /** Removal by id AS WRITTEN: `entries.splice(entries.map(item => item.id).indexOf(id), 1)`.
      A present id takes out its first entry; an absent id makes `indexOf`
      give -1, and `splice(-1, 1)` then takes out the LAST entry of a non-empty
      list (an empty list is left as it is). */
  function SpliceOutById<T>(entries: seq<T>, key: T -> ItemId, id: ItemId): (r: seq<T>)
    ensures id in Project(entries, key) ==> r == RemoveFirstBy(entries, key, id)
    ensures id !in Project(entries, key) && |entries| > 0 ==> r == entries[..|entries| - 1]
    ensures id !in Project(entries, key) && |entries| == 0 ==> r == []
  {
    if id in Project(entries, key) then
      SpliceAtIndexOfPresent(entries, key, id);
      Splice1(entries, IndexOf(Project(entries, key), id))
    else
      SpliceAtIndexOfAbsent(entries, key, id);
      Splice1(entries, IndexOf(Project(entries, key), id))
  }

  /** Removal by id, CORRECTED: an absent id is reported as not found and
      changes nothing; a present id takes out its entry, one entry in all. */
  function RemoveById<T>(entries: seq<T>, key: T -> ItemId, id: ItemId): (r: Result<seq<T>>)
    ensures r.Err? <==> id !in Project(entries, key)
    ensures r.Err? ==> r.failure == NotFound(EntryMissing)
    ensures r.Ok? ==> |r.value| == |entries| - 1 && multiset(r.value) <= multiset(entries)
  {
    if id in Project(entries, key) then
      RemoveFirstByShrinks(entries, key, id);
      Ok(RemoveFirstBy(entries, key, id))
    else Err(NotFound(EntryMissing))
  }

  /** With distinct entry ids, the corrected removal takes out exactly the
      entry with the id: no entry with that id is left, and every other id is
      still there. */
  lemma {:induction false} RemoveByIdRemovesOnlyTarget<T>(entries: seq<T>, key: T -> ItemId, id: ItemId, other: ItemId)
    requires DistinctKeys(entries, key)
    requires RemoveById(entries, key, id).Ok?
    ensures id !in Project(RemoveById(entries, key, id).value, key)
    ensures other != id ==> (other in Project(RemoveById(entries, key, id).value, key) <==> other in Project(entries, key))
  {
    var ids := Project(entries, key);
    var t := IndexOf(ids, id);
    assert key(entries[t]) == id by { assert ids[t] == id; }
    forall j | 0 <= j < t ensures key(entries[j]) != id {
      assert ids[j] != id;
    }
    RemoveFirstByAt(entries, key, id, t);
    CutKeys(entries, key, t);
    if other != id {
      CutKeepsOtherKeys(entries, key, t, other);
    }
  }

  /** Removal as written never gives two entries the same id: it cuts out
      one entry, the one with the id or else the last one. */
  lemma {:induction false} SpliceOutByIdKeepsKeysDistinct<T>(entries: seq<T>, key: T -> ItemId, id: ItemId)
    requires DistinctKeys(entries, key)
    ensures DistinctKeys(SpliceOutById(entries, key, id), key)
  {
    if id in Project(entries, key) {
      RemoveFirstByKeepsKeysDistinct(entries, key, id);
    } else if |entries| > 0 {
      var r := entries[..|entries| - 1];
      forall i, j | 0 <= i < j < |r| ensures key(r[i]) != key(r[j]) {
        assert r[i] == entries[i] && r[j] == entries[j];
      }
    }
  }

  /** The corrected removal never gives two entries the same id. */
  lemma {:induction false} RemoveByIdKeepsKeysDistinct<T>(entries: seq<T>, key: T -> ItemId, id: ItemId)
    requires DistinctKeys(entries, key)
    requires RemoveById(entries, key, id).Ok?
    ensures DistinctKeys(RemoveById(entries, key, id).value, key)
  {
    RemoveFirstByKeepsKeysDistinct(entries, key, id);
  }

  /** The two removals agree on a present id; on an absent id the one as
      written drops the last entry, where the corrected one keeps the list. */
  lemma RemovalsAgreeOnlyOnPresentIds<T>(entries: seq<T>, key: T -> ItemId, id: ItemId)
    requires |entries| > 0
    ensures RemoveById(entries, key, id).Ok? ==> SpliceOutById(entries, key, id) == RemoveById(entries, key, id).value
    ensures RemoveById(entries, key, id).Err? ==> |SpliceOutById(entries, key, id)| == |entries| - 1
  {
  }

  /** A profile with two experience entries: deleting an id that is on
      neither of them takes out the second entry. */
  lemma SpliceOutByIdDropsLast()
    ensures var e1 := Experience("e1", Some("Engineer"), Some("Acme"), None, Some("2019"), None, Some(true), None);
            var e2 := Experience("e2", Some("Intern"), Some("Initech"), None, Some("2017"), Some("2018"), Some(false), None);
            SpliceOutById([e1, e2], ExperienceIdOf, "e3") == [e1]
  {
    var e1 := Experience("e1", Some("Engineer"), Some("Acme"), None, Some("2019"), None, Some(true), None);
    var e2 := Experience("e2", Some("Intern"), Some("Initech"), None, Some("2017"), Some("2018"), Some(false), None);
    assert Project([e1, e2], ExperienceIdOf) == ["e1", "e2"];
  }

  /** The `newExp` entry of the add-experience handler, with its generated id. */
  function NewExperience(id: ItemId, form: ExperienceForm): Experience {
    Experience(id, form.title, form.company, form.location, form.from, form.to, form.current, form.description)
  }

  /** The `newEdu` entry of the add-education handler, with its generated id. */
  function NewEducation(id: ItemId, form: EducationForm): Education {
    Education(id, form.school, form.degree, form.fieldOfStudy, form.from, form.to, form.current, form.description)
  }

  /** Account deletion, step two: `Profile.findOneAndRemove({ user: u })` takes
      out the first profile of `u`. No other user's profiles change, and a
      user who had at most one profile has none left. */
  lemma AccountDeleteRemovesOnlyOwnersProfile(profiles: seq<Profile>, u: UserId, v: UserId)
    ensures v != u ==> FilterBy(RemoveFirstBy(profiles, OwnerOf, u), OwnerOf, v) == FilterBy(profiles, OwnerOf, v)
    ensures ProfileCount(profiles, u) <= 1 ==> ProfileCount(RemoveFirstBy(profiles, OwnerOf, u), u) == 0
  {
    FilterByRemoveFirstBy(profiles, OwnerOf, u, v);
    FilterByRemoveFirstBy(profiles, OwnerOf, u, u);
    if u !in Project(profiles, OwnerOf) {
      forall i | 0 <= i < |profiles| ensures OwnerOf(profiles[i]) != u {
        assert Project(profiles, OwnerOf)[i] != u;
      }
    } else {
      var i :| 0 <= i < |profiles| && Project(profiles, OwnerOf)[i] == u;
      assert OwnerOf(profiles[i]) == u;
    }
  }
}
