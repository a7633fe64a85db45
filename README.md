# react_social — the post and profile handlers and the auth middleware, in Dafny

This project models the server side of react_social, a small social network
on Express and MongoDB, at the level where its rules live:

- the `Post` aggregate: liking, unliking, commenting, deleting a comment and
  deleting a post (`routes/api/posts.js`);
- the `Profile` aggregate: building `profileFields` from a request body,
  create-or-update by owner, adding and removing experience and education
  entries, and the account-delete cascade (`routes/api/profile.js`);
- the `auth` middleware that turns the `x-auth-token` header into `req.user`
  (`middleware/auth.js`).

The JavaScript built-ins the handlers rely on (`indexOf` giving -1,
`splice` with a negative start, `filter`, `find`, `split`, `trim`,
truthiness) are modelled exactly in `Js` and `Text`, so that each handler's
edge cases come out of the model rather than being assumed away.

Layout:

| file | module | what it holds |
|---|---|---|
| `js.dfy` | `Js` | `Option`, truthiness, `map`, `indexOf`, `splice(start, 1)`, `filter`, `find`, and a reference "remove the first match" with the lemmas tying the handlers' `splice(map(..).indexOf(x), 1)` idiom to it |
| `text.dfy` | `Text` | `split` on one character, `join`, `trim` with the ECMAScript whitespace set |
| `http.dfy` | `Http` | identifiers, the failure statuses, `Result`, and the response messages |
| `posts.dfy` | `Posts` | `Post`, `Like`, `Comment` and the pure changes to a post's lists |
| `profiles.dfy` | `Profiles` | `Profile`, its entries and request forms, `profileFields`, `$set`, create-or-update, removal by entry id |
| `store.dfy` | `Store` | the `Database` class (users, profiles, posts) and the store-wide invariants |
| `post_routes.dfy` | `PostRoutes` | the post handlers as methods that load, change and save a post |
| `profile_routes.dfy` | `ProfileRoutes` | the profile handlers as methods over the store |
| `auth.dfy` | `Auth` | the middleware decision and the request it updates |

Modelling choices:

- The store is one `Database` object: users and posts are maps by id;
  profiles are a sequence, because `findOne`, `findOneAndUpdate` and
  `findOneAndRemove` act on the FIRST matching profile in store order.
- A handler that loads a document and dereferences it without a null check
  (like, unlike, comment, delete comment, every experience and education
  route) answers `Err(ServerError)` when the document is missing: the
  dereference throws and the handler's catch answers 500.
- Ids that mongoose generates for new comments and entries are parameters,
  with the precondition that they are not already in the list.
- `jwt.verify` is a parameter `verify: string -> Option<Payload>`; `None`
  stands for every way it throws (bad signature, malformed token, expiry).
- Each handler method models the code as written. Where the code is wrong
  (see Findings) a corrected function and a corrected handler sit beside it.

## Model

| member | source | states |
|---|---|---|
| Js.Truthy | middleware/auth.js:9 | JavaScript truthiness of a string field: `undefined` and the empty string are the only falsy values |
| Js.Project | routes/api/posts.js:141 | `map(key)`: same length, and each position holds the key of the element at that position |
| Js.IndexOf | routes/api/posts.js:141 | the result is -1 exactly when the value is absent, otherwise the first position holding it |
| Js.Splice1 | routes/api/posts.js:143 | `splice(start, 1)` with ECMAScript relative-start clamping: one element goes when the clamped start is inside the array, nothing otherwise; the rest keep their order |
| Js.FilterBy | routes/api/posts.js:113 | the filter keeps only matching elements of the input, and is empty exactly when no element matches |
| Js.FilterByHas | routes/api/posts.js:113 | every element whose key matches is kept by the filter |
| Js.FindBy | routes/api/posts.js:197 | `find` gives nothing exactly when no element has the key, otherwise the element at the key's first position |
| Js.RemoveFirstBy | routes/api/posts.js:141-143 | reference removal: one element fewer when the key occurs, the same list when it does not |
| Js.RemoveFirstByShrinks | routes/api/posts.js:141-143 | the removal never puts in an element that was not there: the result is a sub-multiset of the input |
| Js.RemoveFirstByAt | routes/api/posts.js:141-143 | removing the first match is cutting the list at the first position whose key matches |
| Js.RemoveFirstByCut | routes/api/posts.js:210-212 | removing the first match is cutting at a position known to be the one `indexOf` reports |
| Js.CutKeys | routes/api/posts.js:141-143 | cutting one element out of a list whose keys are distinct loses that element's key and leaves the keys distinct |
| Js.CutKeepsOtherKeys | routes/api/profile.js:285-287 | cutting one element out keeps every other key present exactly when it was present before |
| Js.RemoveFirstByKeepsKeysDistinct | routes/api/posts.js:141-143 | taking out the first element with a key never makes two keys equal |
| Js.RemoveFirstByIndexOf | routes/api/posts.js:141-143 | removing the first match is cutting the list at the position `indexOf` reports, and changes nothing when it reports -1 |
| Js.SpliceAtIndexOfPresent | routes/api/posts.js:141-143 | when the key occurs, `indexOf` is not -1 and `splice(indexOf, 1)` is exactly the reference removal |
| Js.SpliceAtIndexOfAbsent | routes/api/profile.js:214-216 | when the key does not occur, `splice(-1, 1)` drops the last element of a non-empty list and leaves an empty one alone |
| Js.FilterByRemoveFirstBy | routes/api/profile.js:148 | removing the first element with one key leaves every other key's filter unchanged and shortens that key's filter by one |
| Text.Split | routes/api/profile.js:73 | one piece per separator plus one, and no piece contains the separator |
| Text.JoinSplit | routes/api/profile.js:73 | joining the pieces of a split with the separator gives the input back |
| Text.RunEnd | routes/api/profile.js:73 | the run of stripped characters from a position ends at the first character that is not stripped, or at the end |
| Text.RunStart | routes/api/profile.js:73 | the run of stripped characters before a position starts just after the last character that is not stripped, or at the lower bound |
| Text.Trim | routes/api/profile.js:73 | the result has no whitespace at either end, is the input with only whitespace cut from its two ends, and holds no character the input lacks |
| Text.TrimUnpadded | routes/api/profile.js:73 | trimming a string with no surrounding whitespace changes nothing |
| Profiles.IfTruthy | routes/api/profile.js:65-71 | a field is copied exactly when its input is truthy (present and non-empty) |
| Profiles.Skills | routes/api/profile.js:72-74 | the skills list has one entry per comma plus one; entry i is the i-th comma-separated piece of the input with its surrounding whitespace trimmed, so no entry has a comma or surrounding whitespace |
| Profiles.SkillsJoinBack | routes/api/profile.js:72-74 | when no comma-separated piece had surrounding whitespace, joining the skills with commas gives the input back |
| Profiles.BuildProfileFields | routes/api/profile.js:45-82 | `user` is always the requester; each scalar and each social link is present exactly when its input is truthy; skills are split and trimmed when truthy; `social` is always present |
| Profiles.ApplyFields | routes/api/profile.js:89-94 | `$set`: present keys overwrite, absent scalars and skills keep their old values, `social` is replaced whole, the experience and education lists are untouched |
| Profiles.ApplyFieldsIdempotent | routes/api/profile.js:89-94 | applying the same fields twice equals applying them once |
| Profiles.NewProfile | routes/api/profile.js:97-98 | a created profile is the fields set on a blank profile of the requester, with empty lists |
| Profiles.Upsert | routes/api/profile.js:87-100 | the requester's first profile, and no other, is replaced by its `$set` update when there is one; otherwise the new profile is appended and nothing else changes; the profile sent back is the requester's first profile in the new store |
| Profiles.ReplaceKeepsCounts | routes/api/profile.js:89-94 | updating a profile in place keeps its owner's profile count, at least one, and every other owner's profiles |
| Profiles.AppendCounts | routes/api/profile.js:96-100 | adding a profile for a user who has none gives them exactly one and keeps every other owner's profiles |
| Profiles.UpsertKeepsOneProfilePerOwner | routes/api/profile.js:87-100 | after create-or-update the requester has exactly one profile if they had at most one, and every other user's profiles are unchanged |
| Profiles.SpliceOutById | routes/api/profile.js:214-216 | removal by id as written: a present id takes out its first entry; an absent id takes out the last entry of a non-empty list |
| Profiles.SpliceOutByIdDropsLast | routes/api/profile.js:214-216 | a concrete two-entry list where deleting an unknown id removes the second entry |
| Profiles.RemoveById | routes/api/profile.js:214-216 | corrected removal: an absent id is reported as not found; a present id takes out one entry and nothing new appears |
| Profiles.RemoveByIdRemovesOnlyTarget | routes/api/profile.js:285-287 | with distinct entry ids, the corrected removal leaves no entry with the id and keeps every other id |
| Profiles.SpliceOutByIdKeepsKeysDistinct | routes/api/profile.js:214-216 | the removal as written, on a present id or an absent one, never gives two entries the same id |
| Profiles.RemoveByIdKeepsKeysDistinct | routes/api/profile.js:285-287 | a successful corrected removal never gives two entries the same id |
| Profiles.RemovalsAgreeOnlyOnPresentIds | routes/api/profile.js:285-287 | the two removals agree on a present id; on an absent id the one as written still shortens the list |
| Profiles.AccountDeleteRemovesOnlyOwnersProfile | routes/api/profile.js:148 | removing the requester's first profile leaves other users' profiles as they were and, when they had at most one, none of the requester's |
| Posts.AddLike | routes/api/posts.js:113-117 | refused with 400 "Post Already Liked" exactly when the user already has an entry; otherwise the new entry is first and the old entries follow in order |
| Posts.AddLikeKeepsLikersDistinct | routes/api/posts.js:113-117 | after a successful like the liker has exactly one entry, and distinct likers stay distinct |
| Posts.RemoveLike | routes/api/posts.js:136-143 | refused with 400 "Post Has Not Yet Been Liked" exactly when the user has no entry; otherwise `indexOf` is not -1 and the user's first entry is removed |
| Posts.RemoveLikeUndoesLike | routes/api/posts.js:141-143 | with distinct likers, an unlike cuts out the user's entry only, leaves no entry by the user, and keeps likers distinct |
| Posts.LikeThenUnlikeRestores | routes/api/posts.js:117-143 | a like followed by an unlike by a user who had not liked gives back the exact original likes list |
| Posts.RemoveComment | routes/api/posts.js:194-212 | as written: 404 "Comment Does Not Exist" exactly when no comment has the id, 401 exactly when that comment is by someone else, and it succeeds exactly when the comment with the id is the requester's; then the requester's first comment is removed |
| Posts.RemoveCommentById | routes/api/posts.js:197-212 | corrected: the same 404 and 401 cases, success exactly when the comment with the id is the requester's, and then one comment fewer, none added |
| Posts.RemoveCommentByIdRemovesTarget | routes/api/posts.js:197-212 | with distinct comment ids, the corrected deletion cuts out the targeted comment, no comment with its id is left, and the ids left stay distinct |
| Posts.RemoveCommentKeepsIdsDistinct | routes/api/posts.js:210-212 | the deletion as written keeps a post's comment ids distinct |
| Posts.RemoveCommentByIdKeepsIdsDistinct | routes/api/posts.js:197-212 | the corrected deletion keeps a post's comment ids distinct |
| Posts.RemoveCommentAgreesOnlyOnFirst | routes/api/posts.js:210-212 | the deletion as written equals the corrected one exactly when the targeted comment is the requester's first comment |
| Posts.AsWrittenCut | routes/api/posts.js:209-212 | a successful deletion as written is the cut at the requester's first comment, which comes no later than the targeted one |
| Posts.CorrectedCut | routes/api/posts.js:197-212 | when the deletion as written succeeds, the corrected one succeeds too and is the cut at the targeted comment |
| Posts.CutsAgreeOnlyAtSamePlace | routes/api/posts.js:210-212 | two cuts of a list of comments with distinct ids are equal exactly when they cut at the same place |
| Posts.RemoveCommentWrongTarget | routes/api/posts.js:210-212 | a concrete post with two comments by one user where deleting the older one removes the newer one |
| Posts.WithoutPostsBy | routes/api/profile.js:146 | `deleteMany`: exactly the posts not by the user are kept, each unchanged, under its own id |
| Store.UpsertKeepsOneProfileEach | routes/api/profile.js:87-100 | create-or-update keeps every user to at most one profile |
| Store.RemoveProfileKeepsOneProfileEach | routes/api/profile.js:148 | removing a user's first profile keeps every user to at most one profile and leaves that user none |
| PostRoutes.DeletePost | routes/api/posts.js:80-103 | 404 "Post Not Found" for a missing post, 401 "User Not Authorized" for someone else's post, otherwise exactly that post is removed and "Post Removed" answered |
| PostRoutes.LikePost | routes/api/posts.js:108-126 | 500 for a missing post; otherwise the answer is `AddLike` of the stored likes, saved on success; distinct likers stay distinct store-wide |
| PostRoutes.UnlikePost | routes/api/posts.js:131-152 | 500 for a missing post; otherwise the answer is `RemoveLike` of the stored likes, saved on success; distinct likers stay distinct store-wide |
| PostRoutes.CommentOnPost | routes/api/posts.js:157-187 | 500 when the user or the post is missing; otherwise the new comment, with the text and the requester's id, name and avatar, goes first and distinct comment ids stay distinct |
| PostRoutes.DeleteComment | routes/api/posts.js:192-222 | 500 for a missing post; otherwise the answer is `RemoveComment` (as written), saved on success; distinct comment ids stay distinct store-wide |
| PostRoutes.DeleteTargetedComment | routes/api/posts.js:192-222 | the same route with the corrected `RemoveCommentById`; distinct comment ids stay distinct store-wide |
| ProfileRoutes.CreateOrUpdateProfile | routes/api/profile.js:45-100 | the store becomes `Upsert` of the built fields and the answer is the upserted profile; one profile per user is kept |
| ProfileRoutes.DeleteAccount | routes/api/profile.js:143-156 | the requester's posts go, then their first profile, then their user record; "User Deleted" is answered; one profile per user is kept and none is left for the requester |
| ProfileRoutes.AddExperience | routes/api/profile.js:161-204 | 500 without a profile; otherwise the new entry is first, the old entries follow, distinct ids stay distinct, owners do not change |
| ProfileRoutes.DeleteExperience | routes/api/profile.js:209-226 | 500 without a profile; otherwise the experience list becomes `SpliceOutById` of it (as written), entry ids stay distinct, and no other profile, user or post changes |
| ProfileRoutes.DeleteExperienceById | routes/api/profile.js:209-226 | the same route with the corrected `RemoveById`: an absent id is reported and changes nothing; a deletion keeps entry ids distinct |
| ProfileRoutes.AddEducation | routes/api/profile.js:231-275 | 500 without a profile; otherwise the new entry is first, the old entries follow, distinct ids stay distinct, owners do not change |
| ProfileRoutes.DeleteEducation | routes/api/profile.js:280-297 | 500 without a profile; otherwise the education list becomes `SpliceOutById` of it (as written), entry ids stay distinct, and no other profile, user or post changes |
| ProfileRoutes.DeleteEducationById | routes/api/profile.js:280-297 | the same route with the corrected `RemoveById`: an absent id is reported and changes nothing; a deletion keeps entry ids distinct |
| Auth.IssuedPayload | routes/api/auth.js:58-64 | the signed payload carries the user's id under `user.id` |
| Auth.Check | middleware/auth.js:4-22 | 401 "No Token, Authorization Denied" exactly when the header is missing or empty; 401 "Token Is Not Valid" exactly when verification fails; otherwise the request passes with the decoded `user` |
| Auth.IssuedTokenAdmitsIssuer | middleware/auth.js:15-17 | a token that verifies to the payload issued for an id lets the request through with `req.user.id` equal to that id |
| Auth.Authenticate | middleware/auth.js:4-22 | on every path exactly one of two things happens: a 401 is recorded with `req.user` untouched and `next` not called, or `req.user` is set and `next` is called once with no reply |

## Left out

- Express routing, response plumbing and the express-validator checks (for example routes/api/profile.js:34-43 and routes/api/posts.js:157-164): a handler's outcome is a `Result`.
- Mongoose queries other than the ones above, `populate`, `sort`, the read-only GET routes, and the ObjectId cast error that `DELETE api/posts/:id` turns into 404 (routes/api/posts.js:98-100): ids are plain strings, so a malformed id is just a missing one.
- Failures of the store itself (connection loss, a failing `save`): each would be one more 500 answer and no change.
- `jwt.sign`, `jwt.verify` cryptography, the secret, the 3600-second expiry and the clock: verification is the parameter `verify`.
- routes/api/users.js and routes/api/auth.js beyond the payload shape `{ user: { id } }`: password hashing, gravatar and credential checks are not part of this model.
- The GitHub repository proxy (routes/api/profile.js:302-323): a network call.
- The React client under client/: user interface.
- Concurrency: each handler runs alone on the store, so interleaved read-modify-write requests and a cascade that fails half-way are not modelled.
- Dates (`date` fields and their defaults) and the `_id` of likes.
- Request fields of a type other than string (for example an array `skills`), and a token payload without `user`, which makes the handlers throw on `req.user.id`; `profileFields.user` is read outside the handler's `try` (routes/api/profile.js:64), so there the request is left without an answer.

## Findings

| source | as written | input that shows it | evidently intended | confidence | as-written member | corrected member |
|---|---|---|---|---|---|---|
| routes/api/posts.js:210-212 | the removal position is looked up by author, so the requester's first comment on the post is deleted | comments `[c1, c2]`, both by `alice`; `alice` deletes `c2`: `c1` goes and `c2` stays | delete the comment whose id was requested | not executed | Posts.RemoveCommentWrongTarget | Posts.RemoveCommentByIdRemovesTarget |
| routes/api/profile.js:214-216 | an unknown experience id makes `indexOf` give -1 and `splice(-1, 1)` deletes the last entry | experience `[e1, e2]`, delete id `e3`: `e2` is deleted | report the missing entry and delete nothing | not executed | Profiles.SpliceOutByIdDropsLast | Profiles.RemoveByIdRemovesOnlyTarget |
| routes/api/profile.js:285-287 | the same lookup and splice on the education list deletes its last entry for an unknown id | education with two entries, delete an id on neither: the second is deleted | report the missing entry and delete nothing | not executed | Profiles.RemovalsAgreeOnlyOnPresentIds | Profiles.RemoveByIdRemovesOnlyTarget |
