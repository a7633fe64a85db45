/** The handlers of routes/api/posts.js that change a post: each loads the
    post by id, applies one change to it and saves it back. `findById` giving
    null is a missing key; dereferencing it throws, and the catch answers 500. */
module PostRoutes {
  import opened Js
  import opened Http
  import opened Posts
  import opened Store

  /** DELETE api/posts/:id — only the author may delete, and only that post goes. */
  method DeletePost(db: Database, id: PostId, requester: UserId) returns (r: Result<string>)
    modifies db
    ensures id !in old(db.posts) ==> r == Err(NotFound(PostNotFound)) && db.posts == old(db.posts)
    ensures id in old(db.posts) && old(db.posts)[id].user != requester ==>
      r == Err(Unauthorized(UserNotAuthorized)) && db.posts == old(db.posts)
    ensures id in old(db.posts) && old(db.posts)[id].user == requester ==>
      r == Ok(PostRemoved) && db.posts == old(db.posts) - {id}
    ensures db.users == old(db.users)
    ensures db.profiles == old(db.profiles)
  {
    if id !in db.posts {
      return Err(NotFound(PostNotFound));
    }
    var post := db.posts[id];
    if post.user != requester {
      return Err(Unauthorized(UserNotAuthorized));
    }
    db.posts := db.posts - {id};
    r := Ok(PostRemoved);
  }

  /** PUT api/posts/like/:id — answers with the new likes list. */
  method LikePost(db: Database, id: PostId, requester: UserId) returns (r: Result<seq<Like>>)
    modifies db
    ensures id !in old(db.posts) ==> r == Err(ServerError)
    ensures id in old(db.posts) ==> r == AddLike(old(db.posts)[id].likes, requester)
    ensures r.Ok? ==> db.posts == old(db.posts)[id := old(db.posts)[id].(likes := r.value)]
    ensures r.Err? ==> db.posts == old(db.posts)
    ensures LikersDistinct(old(db.posts)) ==> LikersDistinct(db.posts)
    ensures db.users == old(db.users)
    ensures db.profiles == old(db.profiles)
  {
    if id !in db.posts {
      return Err(ServerError);
    }
    var post := db.posts[id];
    if |FilterBy(post.likes, LikerOf, requester)| > 0 {
      return Err(BadRequest(PostAlreadyLiked));
    }
    ghost var before := db.posts;
    post := post.(likes := [Like(requester)] + post.likes);
    db.posts := db.posts[id := post];
    r := Ok(post.likes);
    AddLikeKeepsLikersDistinct(before[id].likes, requester);
  }

  /** PUT api/posts/unlike/:id — answers with the new likes list. */
  method UnlikePost(db: Database, id: PostId, requester: UserId) returns (r: Result<seq<Like>>)
    modifies db
    ensures id !in old(db.posts) ==> r == Err(ServerError)
    ensures id in old(db.posts) ==> r == RemoveLike(old(db.posts)[id].likes, requester)
    ensures r.Ok? ==> db.posts == old(db.posts)[id := old(db.posts)[id].(likes := r.value)]
    ensures r.Err? ==> db.posts == old(db.posts)
    ensures LikersDistinct(old(db.posts)) ==> LikersDistinct(db.posts)
    ensures db.users == old(db.users)
    ensures db.profiles == old(db.profiles)
  {
    if id !in db.posts {
      return Err(ServerError);
    }
    var post := db.posts[id];
    var outcome := RemoveLike(post.likes, requester);
    if outcome.Err? {
      return outcome;
    }
    assert LikersDistinct(db.posts) ==> LikersDistinct(db.posts[id := post.(likes := outcome.value)]) by {
      if LikersDistinct(db.posts) {
        RemoveLikeUndoesLike(post.likes, requester);
        SaveKeepsLikersDistinct(db.posts, id, post.(likes := outcome.value));
      }
    }
    db.posts := db.posts[id := post.(likes := outcome.value)];
    r := outcome;
  }

  /** POST api/posts/comment/:id — the new comment, with a snapshot of the
      requester's name and avatar and a freshly generated id, goes in front;
      answers with the new comments list. */
  method CommentOnPost(db: Database, id: PostId, requester: UserId, text: string, commentId: CommentId)
    returns (r: Result<seq<Comment>>)
    requires id in db.posts ==> commentId !in Project(db.posts[id].comments, IdOf)
    modifies db
    ensures requester !in old(db.users) || id !in old(db.posts) ==> r == Err(ServerError) && db.posts == old(db.posts)
    ensures requester in old(db.users) && id in old(db.posts) ==>
      var user, post := old(db.users)[requester], old(db.posts)[id];
      var c := Comment(commentId, requester, text, user.name, user.avatar);
      r == Ok([c] + post.comments) && db.posts == old(db.posts)[id := post.(comments := [c] + post.comments)]
    ensures CommentIdsDistinct(old(db.posts)) ==> CommentIdsDistinct(db.posts)
    ensures db.users == old(db.users)
    ensures db.profiles == old(db.profiles)
  {
    if requester !in db.users || id !in db.posts {
      return Err(ServerError);
    }
    var user := db.users[requester];
    var post := db.posts[id];
    var c := Comment(commentId, requester, text, user.name, user.avatar);
    ghost var ids := Project(post.comments, IdOf);
    assert forall i :: 0 <= i < |post.comments| ==> ids[i] != commentId;
    post := post.(comments := [c] + post.comments);
    db.posts := db.posts[id := post];
    r := Ok(post.comments);
  }

  /** DELETE api/posts/comment/:id/:comment_id, as written: answers with the
      new comments list. */
  method DeleteComment(db: Database, id: PostId, commentId: CommentId, requester: UserId)
    returns (r: Result<seq<Comment>>)
    modifies db
    ensures id !in old(db.posts) ==> r == Err(ServerError)
    ensures id in old(db.posts) ==> r == RemoveComment(old(db.posts)[id].comments, commentId, requester)
    ensures r.Ok? ==> db.posts == old(db.posts)[id := old(db.posts)[id].(comments := r.value)]
    ensures r.Err? ==> db.posts == old(db.posts)
    ensures CommentIdsDistinct(old(db.posts)) ==> CommentIdsDistinct(db.posts)
    ensures db.users == old(db.users)
    ensures db.profiles == old(db.profiles)
  {
    if id !in db.posts {
      return Err(ServerError);
    }
    var post := db.posts[id];
    var outcome := RemoveComment(post.comments, commentId, requester);
    if outcome.Err? {
      return outcome;
    }
    assert CommentIdsDistinct(db.posts) ==> CommentIdsDistinct(db.posts[id := post.(comments := outcome.value)]) by {
      if CommentIdsDistinct(db.posts) {
        RemoveCommentKeepsIdsDistinct(post.comments, commentId, requester);
        SaveKeepsCommentIdsDistinct(db.posts, id, post.(comments := outcome.value));
      }
    }
    db.posts := db.posts[id := post.(comments := outcome.value)];
    r := outcome;
  }

  /** The same route with the corrected removal: the targeted comment goes. */
  method DeleteTargetedComment(db: Database, id: PostId, commentId: CommentId, requester: UserId)
    returns (r: Result<seq<Comment>>)
    modifies db
    ensures id !in old(db.posts) ==> r == Err(ServerError)
    ensures id in old(db.posts) ==> r == RemoveCommentById(old(db.posts)[id].comments, commentId, requester)
    ensures r.Ok? ==> db.posts == old(db.posts)[id := old(db.posts)[id].(comments := r.value)]
    ensures r.Err? ==> db.posts == old(db.posts)
    ensures CommentIdsDistinct(old(db.posts)) ==> CommentIdsDistinct(db.posts)
    ensures db.users == old(db.users)
    ensures db.profiles == old(db.profiles)
  {
    if id !in db.posts {
      return Err(ServerError);
    }
    var post := db.posts[id];
    var outcome := RemoveCommentById(post.comments, commentId, requester);
    if outcome.Err? {
      return outcome;
    }
    assert CommentIdsDistinct(db.posts) ==> CommentIdsDistinct(db.posts[id := post.(comments := outcome.value)]) by {
      if CommentIdsDistinct(db.posts) {
        RemoveCommentByIdKeepsIdsDistinct(post.comments, commentId, requester);
        SaveKeepsCommentIdsDistinct(db.posts, id, post.(comments := outcome.value));
      }
    }
    db.posts := db.posts[id := post.(comments := outcome.value)];
    r := outcome;
  }
}
