/** The document store the handlers load from and save to, one request at a time. */
module Store {
  import opened Js
  import opened Http
  import opened Posts
  import opened Profiles

  /** A registered user; the password hash is not modelled. */
  datatype User = User(name: string, email: string, avatar: string)

  /** Users and posts by id; profiles in store order, since `findOne` and
      `findOneAndRemove` act on the first profile that matches. */
  class Database {
    var users: map<UserId, User>
    var profiles: seq<Profile>
    var posts: map<PostId, Post>

    constructor ()
      ensures users == map[] && profiles == [] && posts == map[]
    {
      users, profiles, posts := map[], [], map[];
    }
  }

  /** Every post has at most one like per user. */
  ghost predicate LikersDistinct(posts: map<PostId, Post>) {
    forall id :: id in posts ==> DistinctKeys(posts[id].likes, LikerOf)
  }

  /** Every post's comments have distinct ids. */
  ghost predicate CommentIdsDistinct(posts: map<PostId, Post>) {
    forall id :: id in posts ==> DistinctKeys(posts[id].comments, IdOf)
  }

  /** Saving a post whose likes are distinct keeps every post's likes distinct. */
  lemma SaveKeepsLikersDistinct(posts: map<PostId, Post>, id: PostId, p: Post)
    requires LikersDistinct(posts) && DistinctKeys(p.likes, LikerOf)
    ensures LikersDistinct(posts[id := p])
  {
  }

  /** Saving a post whose comment ids are distinct keeps every post's comment
      ids distinct. */
  lemma SaveKeepsCommentIdsDistinct(posts: map<PostId, Post>, id: PostId, p: Post)
    requires CommentIdsDistinct(posts) && DistinctKeys(p.comments, IdOf)
    ensures CommentIdsDistinct(posts[id := p])
  {
  }

  /** Every user has at most one profile. */
  ghost predicate OneProfileEach(profiles: seq<Profile>) {
    forall u :: ProfileCount(profiles, u) <= 1
  }

  /** Create-or-update keeps every user to at most one profile. */
  lemma {:induction false} UpsertKeepsOneProfileEach(profiles: seq<Profile>, f: ProfileFields)
    requires OneProfileEach(profiles)
    ensures OneProfileEach(Upsert(profiles, f).0)
  {
    var after := Upsert(profiles, f).0;
    forall v ensures ProfileCount(after, v) <= 1 {
      UpsertKeepsOneProfilePerOwner(profiles, f, v);
      assert ProfileCount(profiles, v) <= 1;
      if v != f.user {
        assert FilterBy(after, OwnerOf, v) == FilterBy(profiles, OwnerOf, v);
      }
    }
  }

  /** Removing a user's first profile keeps every user to at most one profile
      and leaves that user with none. */
  lemma {:induction false} RemoveProfileKeepsOneProfileEach(profiles: seq<Profile>, u: UserId)
    requires OneProfileEach(profiles)
    ensures ProfileCount(RemoveFirstBy(profiles, OwnerOf, u), u) == 0
    ensures OneProfileEach(RemoveFirstBy(profiles, OwnerOf, u))
  {
    var after := RemoveFirstBy(profiles, OwnerOf, u);
    assert ProfileCount(profiles, u) <= 1;
    AccountDeleteRemovesOnlyOwnersProfile(profiles, u, u);
    forall v ensures ProfileCount(after, v) <= 1 {
      AccountDeleteRemovesOnlyOwnersProfile(profiles, u, v);
      assert ProfileCount(profiles, v) <= 1;
    }
  }
}
