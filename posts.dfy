/** The Post aggregate and what the handlers of routes/api/posts.js do to its
    embedded `likes` and `comments` lists once the post is loaded. */
module Posts {
  import opened Js
  import opened Http

  /** An entry of `post.likes`. */
  datatype Like = Like(user: UserId)

  /** An entry of `post.comments`: its generated id, the author, the text, and
      the author's name and avatar as they were when the comment was written. */
  datatype Comment = Comment(id: CommentId, user: UserId, text: string, name: string, avatar: string)

  /** A post with its author, a snapshot of the author's name and avatar, and
      its two embedded lists, newest entry first. */
  datatype Post = Post(user: UserId, text: string, name: string, avatar: string,
                       likes: seq<Like>, comments: seq<Comment>)

  function LikerOf(l: Like): UserId { l.user }
  function IdOf(c: Comment): CommentId { c.id }
  function AuthorOf(c: Comment): UserId { c.user }

  /** Some entry of `likes` is by `u`. */
  predicate HasLiked(likes: seq<Like>, u: UserId) {
    exists i :: 0 <= i < |likes| && likes[i].user == u
  }

  /** The likes list after `u` likes the post: refused with 400 when an entry
      by `u` exists, otherwise `{user: u}` goes in front of the old entries. */
  function AddLike(likes: seq<Like>, u: UserId): (r: Result<seq<Like>>)
    ensures r.Err? <==> HasLiked(likes, u)
    ensures r.Err? ==> r.failure == BadRequest(PostAlreadyLiked)
    ensures r.Ok? ==> |r.value| == |likes| + 1 && r.value[0] == Like(u) && r.value[1..] == likes
  {
    if |FilterBy(likes, LikerOf, u)| > 0 then Err(BadRequest(PostAlreadyLiked))
    else Ok([Like(u)] + likes)
  }

  /** A successful like leaves exactly one entry by the liker, so it keeps
      every user to at most one entry. */
  lemma AddLikeKeepsLikersDistinct(likes: seq<Like>, u: UserId)
    requires AddLike(likes, u).Ok?
    ensures |FilterBy(AddLike(likes, u).value, LikerOf, u)| == 1
    ensures DistinctKeys(likes, LikerOf) ==> DistinctKeys(AddLike(likes, u).value, LikerOf)
  {
    var s := AddLike(likes, u).value;
    assert s[1..] == likes;
    assert |FilterBy(likes, LikerOf, u)| == 0;
  }

  /** The likes list after `u` unlikes the post: refused with 400 when no entry
      is by `u`; otherwise the guard guarantees `indexOf` finds a position, and
      the first entry by `u`, and only it, is taken out. */
  function RemoveLike(likes: seq<Like>, u: UserId): (r: Result<seq<Like>>)
    ensures r.Err? <==> !HasLiked(likes, u)
    ensures r.Err? ==> r.failure == BadRequest(PostNotYetLiked)
    ensures r.Ok? ==> 0 <= IndexOf(Project(likes, LikerOf), u)
    ensures r.Ok? ==> r.value == RemoveFirstBy(likes, LikerOf, u)
  {
    if |FilterBy(likes, LikerOf, u)| == 0 then Err(BadRequest(PostNotYetLiked))
    else
      assert u in Project(likes, LikerOf) by {
        var i :| 0 <= i < |likes| && likes[i].user == u;
        assert Project(likes, LikerOf)[i] == u;
      }
      SpliceAtIndexOfPresent(likes, LikerOf, u);
      Ok(Splice1(likes, IndexOf(Project(likes, LikerOf), u)))
  }

  /** On a likes list with distinct likers, a successful unlike leaves no entry
      by the user, keeps the likers distinct, and keeps the other entries in
      their order. */
  lemma {:induction false} RemoveLikeUndoesLike(likes: seq<Like>, u: UserId)
    requires DistinctKeys(likes, LikerOf)
    requires RemoveLike(likes, u).Ok?
    ensures var k := IndexOf(Project(likes, LikerOf), u);
      RemoveLike(likes, u).value == likes[..k] + likes[k + 1..]
    ensures !HasLiked(RemoveLike(likes, u).value, u)
    ensures DistinctKeys(RemoveLike(likes, u).value, LikerOf)
  {
    var k := IndexOf(Project(likes, LikerOf), u);
    RemoveFirstByIndexOf(likes, LikerOf, u);
    CutKeys(likes, LikerOf, k);
    NotLikedOffList(likes[..k] + likes[k + 1..], u);
  }

  /** A user missing from the likers list has not liked. */
  lemma NotLikedOffList(likes: seq<Like>, u: UserId)
    requires u !in Project(likes, LikerOf)
    ensures !HasLiked(likes, u)
  {
    forall i | 0 <= i < |likes| ensures likes[i].user != u {
      assert Project(likes, LikerOf)[i] == likes[i].user;
    }
  }

  /** A like followed by an unlike by the same user, on a post that user had
      not liked, gives back the original likes list exactly. */
  lemma LikeThenUnlikeRestores(likes: seq<Like>, u: UserId)
    requires !HasLiked(likes, u)
    ensures AddLike(likes, u).Ok?
    ensures RemoveLike(AddLike(likes, u).value, u) == Ok(likes)
  {
    var s := AddLike(likes, u).value;
    assert s[0] == Like(u);
    assert HasLiked(s, u);
    assert s[1..] == likes;
  }

  /** Delete a comment, AS WRITTEN: 404 when no comment has `commentId`, 401
      when the first comment with that id is not by `u`; otherwise the removal
      position is looked up by author, so the requester's FIRST comment is
      taken out, whichever comment was targeted. */
  function RemoveComment(comments: seq<Comment>, commentId: CommentId, u: UserId): (r: Result<seq<Comment>>)
    ensures r == Err(NotFound(CommentMissing)) <==> commentId !in Project(comments, IdOf)
    ensures r == Err(Unauthorized(UserNotAuthorized)) <==>
      commentId in Project(comments, IdOf) && comments[IndexOf(Project(comments, IdOf), commentId)].user != u
    ensures r.Ok? <==>
      commentId in Project(comments, IdOf) && comments[IndexOf(Project(comments, IdOf), commentId)].user == u
    ensures r.Ok? ==> u in Project(comments, AuthorOf) && r.value == RemoveFirstBy(comments, AuthorOf, u)
  {
    match FindBy(comments, IdOf, commentId)
    case None => Err(NotFound(CommentMissing))
    case Some(c) =>
      if c.user != u then Err(Unauthorized(UserNotAuthorized))
      else
        assert u in Project(comments, AuthorOf) by {
          assert Project(comments, AuthorOf)[IndexOf(Project(comments, IdOf), commentId)] == u;
        }
        SpliceAtIndexOfPresent(comments, AuthorOf, u);
        Ok(Splice1(comments, IndexOf(Project(comments, AuthorOf), u)))
  }

  /** Delete a comment, CORRECTED: the same 404 and 401 answers, then the
      matched comment itself is taken out, by its own id. */
  function RemoveCommentById(comments: seq<Comment>, commentId: CommentId, u: UserId): (r: Result<seq<Comment>>)
    ensures r.Err? ==> r == RemoveComment(comments, commentId, u)
    ensures r.Err? <==> RemoveComment(comments, commentId, u).Err?
    ensures r.Ok? <==>
      commentId in Project(comments, IdOf) && comments[IndexOf(Project(comments, IdOf), commentId)].user == u
    ensures r.Ok? ==> |r.value| == |comments| - 1 && multiset(r.value) <= multiset(comments)
  {
    match FindBy(comments, IdOf, commentId)
    case None => Err(NotFound(CommentMissing))
    case Some(c) =>
      if c.user != u then Err(Unauthorized(UserNotAuthorized))
      else
        RemoveFirstByShrinks(comments, IdOf, commentId);
        Ok(RemoveFirstBy(comments, IdOf, commentId))
  }

  /** The corrected deletion, on comments with distinct ids, removes exactly
      the targeted comment: the others stay, in order, and no comment with the
      targeted id is left. */
  lemma {:induction false} RemoveCommentByIdRemovesTarget(comments: seq<Comment>, commentId: CommentId, u: UserId)
    requires DistinctKeys(comments, IdOf)
    requires RemoveCommentById(comments, commentId, u).Ok?
    ensures var t := IndexOf(Project(comments, IdOf), commentId);
      RemoveCommentById(comments, commentId, u).value == comments[..t] + comments[t + 1..]
    ensures commentId !in Project(RemoveCommentById(comments, commentId, u).value, IdOf)
    ensures DistinctKeys(RemoveCommentById(comments, commentId, u).value, IdOf)
  {
    RemoveCommentByIdCuts(comments, commentId, u);
    CutKeys(comments, IdOf, IndexOf(Project(comments, IdOf), commentId));
  }

  /** The corrected deletion cuts the comments at the first position holding the targeted id. */
  lemma {:induction false} RemoveCommentByIdCuts(comments: seq<Comment>, commentId: CommentId, u: UserId)
    requires RemoveCommentById(comments, commentId, u).Ok?
    ensures var t := IndexOf(Project(comments, IdOf), commentId);
      0 <= t && RemoveCommentById(comments, commentId, u).value == comments[..t] + comments[t + 1..]
  {
    assert commentId in Project(comments, IdOf) && RemoveCommentById(comments, commentId, u).value == RemoveFirstBy(comments, IdOf, commentId) by {
      assert FindBy(comments, IdOf, commentId).Some?;
    }
    RemoveFirstByIndexOf(comments, IdOf, commentId);
  }

  /** The deletion as written keeps the comment ids of a post distinct. */
  lemma RemoveCommentKeepsIdsDistinct(comments: seq<Comment>, commentId: CommentId, u: UserId)
    requires DistinctKeys(comments, IdOf)
    requires RemoveComment(comments, commentId, u).Ok?
    ensures DistinctKeys(RemoveComment(comments, commentId, u).value, IdOf)
  {
    RemoveFirstByIndexOf(comments, AuthorOf, u);
    CutKeys(comments, IdOf, IndexOf(Project(comments, AuthorOf), u));
  }

  /** The corrected deletion keeps the comment ids of a post distinct. */
  lemma RemoveCommentByIdKeepsIdsDistinct(comments: seq<Comment>, commentId: CommentId, u: UserId)
    requires DistinctKeys(comments, IdOf)
    requires RemoveCommentById(comments, commentId, u).Ok?
    ensures DistinctKeys(RemoveCommentById(comments, commentId, u).value, IdOf)
  {
    RemoveCommentByIdRemovesTarget(comments, commentId, u);
  }

  /** The defect, stated both ways: on comments with distinct ids, the deletion
      as written agrees with the corrected one exactly when the targeted
      comment is the requester's first comment on the post. */
  lemma {:induction false} RemoveCommentAgreesOnlyOnFirst(comments: seq<Comment>, commentId: CommentId, u: UserId)
    requires DistinctKeys(comments, IdOf)
    requires RemoveComment(comments, commentId, u).Ok?
    ensures RemoveComment(comments, commentId, u) == RemoveCommentById(comments, commentId, u) <==>
      IndexOf(Project(comments, AuthorOf), u) == IndexOf(Project(comments, IdOf), commentId)
  {
    var a := IndexOf(Project(comments, AuthorOf), u);
    var t := IndexOf(Project(comments, IdOf), commentId);
    AsWrittenCut(comments, commentId, u, a, t);
    CorrectedCut(comments, commentId, u, t);
    CutsAgreeOnlyAtSamePlace(comments, a, t);
  }

  /** When the deletion as written succeeds it is the cut at the requester's
      first comment, which comes no later than the targeted comment. */
  lemma AsWrittenCut(comments: seq<Comment>, commentId: CommentId, u: UserId, a: int, t: int)
    requires RemoveComment(comments, commentId, u).Ok?
    requires a == IndexOf(Project(comments, AuthorOf), u) && t == IndexOf(Project(comments, IdOf), commentId)
    ensures 0 <= a <= t < |comments|
    ensures RemoveComment(comments, commentId, u) == Ok(comments[..a] + comments[a + 1..])
  {
    var r := RemoveComment(comments, commentId, u);
    assert 0 <= t && comments[t].user == u && r.value == RemoveFirstBy(comments, AuthorOf, u);
    assert a <= t by {
      assert Project(comments, AuthorOf)[t] == u;
    }
    RemoveFirstByCut(comments, AuthorOf, u, a);
  }

  /** When the deletion as written succeeds, the corrected one succeeds too
      and is the cut at the targeted comment. */
  lemma CorrectedCut(comments: seq<Comment>, commentId: CommentId, u: UserId, t: int)
    requires RemoveComment(comments, commentId, u).Ok?
    requires t == IndexOf(Project(comments, IdOf), commentId)
    ensures 0 <= t < |comments|
    ensures RemoveCommentById(comments, commentId, u) == Ok(comments[..t] + comments[t + 1..])
  {
    assert RemoveCommentById(comments, commentId, u).Ok? by {
      assert !RemoveComment(comments, commentId, u).Err?;
    }
    RemoveCommentByIdCuts(comments, commentId, u);
  }

  /** Two cuts of comments with distinct ids give the same list only when
      they cut at the same place. */
  lemma CutsAgreeOnlyAtSamePlace(comments: seq<Comment>, a: nat, t: nat)
    requires DistinctKeys(comments, IdOf) && a <= t < |comments|
    ensures comments[..a] + comments[a + 1..] == comments[..t] + comments[t + 1..] <==> a == t
  {
    if a < t {
      assert (comments[..a] + comments[a + 1..])[t - 1] == comments[t];
      assert (comments[..t] + comments[t + 1..])[t - 1] == comments[t - 1];
      assert IdOf(comments[t - 1]) != IdOf(comments[t]);
    }
  }

  /** A post carrying two comments by the same user: deleting the older one
      (`c2`) removes the newer one (`c1`) and leaves the targeted comment in place. */
  lemma RemoveCommentWrongTarget()
    ensures var c1 := Comment("c1", "alice", "second thought", "Alice", "a.png");
            var c2 := Comment("c2", "alice", "first thought", "Alice", "a.png");
            RemoveComment([c1, c2], "c2", "alice") == Ok([c2])
  {
    var c1 := Comment("c1", "alice", "second thought", "Alice", "a.png");
    var c2 := Comment("c2", "alice", "first thought", "Alice", "a.png");
    assert Project([c1, c2], IdOf) == ["c1", "c2"];
    assert Project([c1, c2], AuthorOf) == ["alice", "alice"];
  }

  /** The posts left by `Post.deleteMany({ user: u })`: none by `u`, and every
      other post exactly as it was. */
  function WithoutPostsBy(posts: map<PostId, Post>, u: UserId): (r: map<PostId, Post>)
    ensures r.Keys <= posts.Keys
    ensures forall id :: id in r ==> r[id].user != u
    ensures forall id :: id in posts && posts[id].user != u ==> id in r && r[id] == posts[id]
    ensures forall id :: id in r ==> r[id] == posts[id]
  {
    map id | id in posts && posts[id].user != u :: posts[id]
  }
}
