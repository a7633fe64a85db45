/** The handlers of routes/api/profile.js that change stored documents. Each
    finds the requester's profile with `Profile.findOne({ user })`, the first
    one in store order; when there is none the handler dereferences null,
    which throws, and the catch answers 500. */
module ProfileRoutes {
  import opened Js
  import opened Http
  import opened Posts
  import opened Profiles
  import opened Store

  /** POST api/profile: builds `profileFields` from the body, then updates the
      requester's profile with `$set` or creates one; answers with the profile. */
  method CreateOrUpdateProfile(db: Database, requester: UserId, form: ProfileForm) returns (r: Result<Profile>)
    modifies db
    ensures var f := BuildProfileFields(requester, form);
      db.profiles == Upsert(old(db.profiles), f).0 && r == Ok(Upsert(old(db.profiles), f).1)
    ensures OneProfileEach(old(db.profiles)) ==> OneProfileEach(db.profiles)
    ensures db.users == old(db.users)
    ensures db.posts == old(db.posts)
  {
    var profileFields := BuildProfileFields(requester, form);
    var profiles := db.profiles;
    assert OneProfileEach(profiles) ==> OneProfileEach(Upsert(profiles, profileFields).0) by {
      if OneProfileEach(profiles) {
        UpsertKeepsOneProfileEach(profiles, profileFields);
      }
    }
    var k := IndexOf(Project(profiles, OwnerOf), requester);
    var profile;
    if k >= 0 {
      profile := ApplyFields(profiles[k], profileFields);
      profiles := profiles[k := profile];
    } else {
      profile := NewProfile(profileFields);
      profiles := profiles + [profile];
    }
    db.profiles := profiles;
    r := Ok(profile);
  }

  /** DELETE api/profile: the requester's posts, then their first profile,
      then their user record go; answers with the confirmation message.
      One profile per user stays one profile per user, and none is left for
      the requester. */
  method DeleteAccount(db: Database, requester: UserId) returns (r: Result<string>)
    modifies db
    ensures db.posts == WithoutPostsBy(old(db.posts), requester)
    ensures db.profiles == RemoveFirstBy(old(db.profiles), OwnerOf, requester)
    ensures db.users == old(db.users) - {requester}
    ensures r == Ok(UserDeleted)
    ensures OneProfileEach(old(db.profiles)) ==>
      OneProfileEach(db.profiles) && ProfileCount(db.profiles, requester) == 0
  {
    var posts := WithoutPostsBy(db.posts, requester);
    var profiles := RemoveFirstBy(db.profiles, OwnerOf, requester);
    assert OneProfileEach(db.profiles) ==>
      OneProfileEach(profiles) && ProfileCount(profiles, requester) == 0 by {
      if OneProfileEach(db.profiles) {
        RemoveProfileKeepsOneProfileEach(db.profiles, requester);
      }
    }
    var users := db.users - {requester};
    db.posts, db.profiles, db.users := posts, profiles, users;
    r := Ok(UserDeleted);
  }

  /** PUT api/profile/experience: the new entry, with a freshly generated id,
      goes in front of the requester's experience list. */
  method AddExperience(db: Database, requester: UserId, form: ExperienceForm, entryId: ItemId)
    returns (r: Result<Profile>)
    requires var k := IndexOf(Project(db.profiles, OwnerOf), requester);
      0 <= k ==> entryId !in Project(db.profiles[k].experience, ExperienceIdOf)
    modifies db
    ensures var k := IndexOf(Project(old(db.profiles), OwnerOf), requester);
      (k < 0 ==> r == Err(ServerError) && db.profiles == old(db.profiles)) &&
      (0 <= k ==>
        var p := old(db.profiles)[k];
        var q := p.(experience := [NewExperience(entryId, form)] + p.experience);
        r == Ok(q) && db.profiles == old(db.profiles)[k := q] &&
        (DistinctKeys(p.experience, ExperienceIdOf) ==> DistinctKeys(q.experience, ExperienceIdOf)))
    ensures Project(db.profiles, OwnerOf) == Project(old(db.profiles), OwnerOf)
    ensures db.users == old(db.users)
    ensures db.posts == old(db.posts)
  {
    var k := IndexOf(Project(db.profiles, OwnerOf), requester);
    if k < 0 {
      return Err(ServerError);
    }
    var profile := db.profiles[k];
    ghost var ids := Project(profile.experience, ExperienceIdOf);
    assert forall i :: 0 <= i < |profile.experience| ==> ids[i] != entryId;
    profile := profile.(experience := [NewExperience(entryId, form)] + profile.experience);
    assert profile.experience[1..] == db.profiles[k].experience;
    ProjectUpdate(db.profiles, k, profile, OwnerOf);
    db.profiles := db.profiles[k := profile];
    r := Ok(profile);
  }

  /** DELETE api/profile/experience/:exp_id, as written: the position of the id
      is looked up and one entry is spliced out there. */
  method DeleteExperience(db: Database, requester: UserId, entryId: ItemId) returns (r: Result<Profile>)
    modifies db
    ensures var k := IndexOf(Project(old(db.profiles), OwnerOf), requester);
      (k < 0 ==> r == Err(ServerError) && db.profiles == old(db.profiles)) &&
      (0 <= k ==>
        var p := old(db.profiles)[k];
        var q := p.(experience := SpliceOutById(p.experience, ExperienceIdOf, entryId));
        r == Ok(q) && db.profiles == old(db.profiles)[k := q] &&
        (DistinctKeys(p.experience, ExperienceIdOf) ==> DistinctKeys(q.experience, ExperienceIdOf)))
    ensures Project(db.profiles, OwnerOf) == Project(old(db.profiles), OwnerOf)
    ensures db.users == old(db.users)
    ensures db.posts == old(db.posts)
  {
    var k := IndexOf(Project(db.profiles, OwnerOf), requester);
    if k < 0 {
      return Err(ServerError);
    }
    var profile := db.profiles[k];
    if DistinctKeys(profile.experience, ExperienceIdOf) {
      SpliceOutByIdKeepsKeysDistinct(profile.experience, ExperienceIdOf, entryId);
    }
    profile := profile.(experience := SpliceOutById(profile.experience, ExperienceIdOf, entryId));
    ProjectUpdate(db.profiles, k, profile, OwnerOf);
    db.profiles := db.profiles[k := profile];
    r := Ok(profile);
  }

  /** PUT api/profile/education: the new entry, with a freshly generated id,
      goes in front of the requester's education list. */
  method AddEducation(db: Database, requester: UserId, form: EducationForm, entryId: ItemId)
    returns (r: Result<Profile>)
    requires var k := IndexOf(Project(db.profiles, OwnerOf), requester);
      0 <= k ==> entryId !in Project(db.profiles[k].education, EducationIdOf)
    modifies db
    ensures var k := IndexOf(Project(old(db.profiles), OwnerOf), requester);
      (k < 0 ==> r == Err(ServerError) && db.profiles == old(db.profiles)) &&
      (0 <= k ==>
        var p := old(db.profiles)[k];
        var q := p.(education := [NewEducation(entryId, form)] + p.education);
        r == Ok(q) && db.profiles == old(db.profiles)[k := q] &&
        (DistinctKeys(p.education, EducationIdOf) ==> DistinctKeys(q.education, EducationIdOf)))
    ensures Project(db.profiles, OwnerOf) == Project(old(db.profiles), OwnerOf)
    ensures db.users == old(db.users)
    ensures db.posts == old(db.posts)
  {
    var k := IndexOf(Project(db.profiles, OwnerOf), requester);
    if k < 0 {
      return Err(ServerError);
    }
    var profile := db.profiles[k];
    ghost var ids := Project(profile.education, EducationIdOf);
    assert forall i :: 0 <= i < |profile.education| ==> ids[i] != entryId;
    profile := profile.(education := [NewEducation(entryId, form)] + profile.education);
    assert profile.education[1..] == db.profiles[k].education;
    ProjectUpdate(db.profiles, k, profile, OwnerOf);
    db.profiles := db.profiles[k := profile];
    r := Ok(profile);
  }

  /** DELETE api/profile/education/:edu_id, as written: the position of the id
      is looked up and one entry is spliced out there. */
  method DeleteEducation(db: Database, requester: UserId, entryId: ItemId) returns (r: Result<Profile>)
    modifies db
    ensures var k := IndexOf(Project(old(db.profiles), OwnerOf), requester);
      (k < 0 ==> r == Err(ServerError) && db.profiles == old(db.profiles)) &&
      (0 <= k ==>
        var p := old(db.profiles)[k];
        var q := p.(education := SpliceOutById(p.education, EducationIdOf, entryId));
        r == Ok(q) && db.profiles == old(db.profiles)[k := q] &&
        (DistinctKeys(p.education, EducationIdOf) ==> DistinctKeys(q.education, EducationIdOf)))
    ensures Project(db.profiles, OwnerOf) == Project(old(db.profiles), OwnerOf)
    ensures db.users == old(db.users)
    ensures db.posts == old(db.posts)
  {
    var k := IndexOf(Project(db.profiles, OwnerOf), requester);
    if k < 0 {
      return Err(ServerError);
    }
    var profile := db.profiles[k];
    if DistinctKeys(profile.education, EducationIdOf) {
      SpliceOutByIdKeepsKeysDistinct(profile.education, EducationIdOf, entryId);
    }
    profile := profile.(education := SpliceOutById(profile.education, EducationIdOf, entryId));
    ProjectUpdate(db.profiles, k, profile, OwnerOf);
    db.profiles := db.profiles[k := profile];
    r := Ok(profile);
  }

  /** The experience route with the corrected removal: an absent id is
      reported and changes nothing. */
  method DeleteExperienceById(db: Database, requester: UserId, entryId: ItemId) returns (r: Result<Profile>)
    modifies db
    ensures var k := IndexOf(Project(old(db.profiles), OwnerOf), requester);
      (k < 0 ==> r == Err(ServerError) && db.profiles == old(db.profiles)) &&
      (0 <= k ==>
        var p := old(db.profiles)[k];
        var removal := RemoveById(p.experience, ExperienceIdOf, entryId);
        (removal.Err? ==> r == Err(removal.failure) && db.profiles == old(db.profiles)) &&
        (removal.Ok? ==> var q := p.(experience := removal.value);
          r == Ok(q) && db.profiles == old(db.profiles)[k := q] &&
          (DistinctKeys(p.experience, ExperienceIdOf) ==> DistinctKeys(q.experience, ExperienceIdOf))))
    ensures Project(db.profiles, OwnerOf) == Project(old(db.profiles), OwnerOf)
    ensures db.users == old(db.users)
    ensures db.posts == old(db.posts)
  {
    var k := IndexOf(Project(db.profiles, OwnerOf), requester);
    if k < 0 {
      return Err(ServerError);
    }
    var profile := db.profiles[k];
    var removal := RemoveById(profile.experience, ExperienceIdOf, entryId);
    if removal.Err? {
      return Err(removal.failure);
    }
    if DistinctKeys(profile.experience, ExperienceIdOf) {
      RemoveByIdKeepsKeysDistinct(profile.experience, ExperienceIdOf, entryId);
    }
    profile := profile.(experience := removal.value);
    ProjectUpdate(db.profiles, k, profile, OwnerOf);
    db.profiles := db.profiles[k := profile];
    r := Ok(profile);
  }

  /** The education route with the corrected removal: an absent id is
      reported and changes nothing. */
  method DeleteEducationById(db: Database, requester: UserId, entryId: ItemId) returns (r: Result<Profile>)
    modifies db
    ensures var k := IndexOf(Project(old(db.profiles), OwnerOf), requester);
      (k < 0 ==> r == Err(ServerError) && db.profiles == old(db.profiles)) &&
      (0 <= k ==>
        var p := old(db.profiles)[k];
        var removal := RemoveById(p.education, EducationIdOf, entryId);
        (removal.Err? ==> r == Err(removal.failure) && db.profiles == old(db.profiles)) &&
        (removal.Ok? ==> var q := p.(education := removal.value);
          r == Ok(q) && db.profiles == old(db.profiles)[k := q] &&
          (DistinctKeys(p.education, EducationIdOf) ==> DistinctKeys(q.education, EducationIdOf))))
    ensures Project(db.profiles, OwnerOf) == Project(old(db.profiles), OwnerOf)
    ensures db.users == old(db.users)
    ensures db.posts == old(db.posts)
  {
    var k := IndexOf(Project(db.profiles, OwnerOf), requester);
    if k < 0 {
      return Err(ServerError);
    }
    var profile := db.profiles[k];
    var removal := RemoveById(profile.education, EducationIdOf, entryId);
    if removal.Err? {
      return Err(removal.failure);
    }
    if DistinctKeys(profile.education, EducationIdOf) {
      RemoveByIdKeepsKeysDistinct(profile.education, EducationIdOf, entryId);
    }
    profile := profile.(education := removal.value);
    ProjectUpdate(db.profiles, k, profile, OwnerOf);
    db.profiles := db.profiles[k := profile];
    r := Ok(profile);
  }
}
