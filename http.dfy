/** What a route handler answers: a JSON body, or one of the failure statuses
    it sends with its message. */
module Http {

  /** Identifiers as they arrive in `req.user.id` and `req.params`, compared as strings. */
  type UserId = string
  type PostId = string
  type CommentId = string
  type ItemId = string

  datatype Failure =
    | BadRequest(msg: string)     // 400
    | Unauthorized(msg: string)   // 401
    | NotFound(msg: string)       // 404
    | ServerError                 // 500 'Server Error', sent from a handler's catch

  datatype Result<T> = Ok(value: T) | Err(failure: Failure)

  function Status(f: Failure): nat {
    match f
    case BadRequest(_) => 400
    case Unauthorized(_) => 401
    case NotFound(_) => 404
    case ServerError => 500
  }

  const NoToken := "No Token, Authorization Denied"
  const TokenNotValid := "Token Is Not Valid"
  const PostNotFound := "Post Not Found"
  const UserNotAuthorized := "User Not Authorized"
  const PostAlreadyLiked := "Post Already Liked"
  const PostNotYetLiked := "Post Has Not Yet Been Liked"
  const CommentMissing := "Comment Does Not Exist"
  const PostRemoved := "Post Removed"
  const UserDeleted := "User Deleted"
  /** Not sent by any handler: the report the corrected removals give for an absent entry id. */
  const EntryMissing := "Entry Does Not Exist"
}
