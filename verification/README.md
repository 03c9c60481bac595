# Social-graph service: a Dafny model

This project models the state engine of a small social-network REST service,
written in Django with Django REST framework. Users register, follow and
unfollow each other, create and delete posts, like and unlike other users'
posts, and comment on posts. Reads return a user's follow counts, one post's
like and comment counts, and a user's own posts with their comments.

The whole database is one immutable value, `Models.State`:
- users, each with a username and an email;
- the directed `following` edge set;
- posts, each with an owner, a title, a description and a like-set;
- comments, each with an author, a parent post and a body;
- the three auto-increment key counters.

The reverse relations the ORM derives (`followers`, `liked_posts`,
`post.comments`, `user.posts`) are functions of the state, not stored copies.
Each request handler is a pure function from a state and its inputs to a
`Step`: the reply (status, error kind, body) and the next state. The
authenticated caller is an explicit `actor` argument. `Service.Handle` puts
the authenticator and the permission check in front of the handlers, and `Service.Run` answers
a sequence of requests. Auto-increment ids start at 1, as the database hands
them out. The service dispatches deletion to the handler as written
(`Views.DeletePostAsWritten`), whose success message names no post; the
corrected `Views.DeletePost` is kept beside it (see Findings).

Modules:
- `Decimal` renders ids the way Python's `str(int)` does, for the messages.
- `Models` holds the entities, the schema constraints (`Valid`) and the reverse relations.
- `Serializers` holds the character-field rules (required, not blank, trimmed, `max_length`), the three input serializers and the read views.
- `Views` holds the handlers.
- `IdentityProps`, `EngagementProps` and `ContentProps` hold the properties of registration and following, of likes and comments, and of posts.
- `Service` holds the authenticated dispatcher and request sequences.

Where the code and its test-suite disagree, the model follows the code:
- Follow or unfollow of a missing user answers 400; the tests expect 404.
- Deleting another user's post answers 400; the tests expect 403.
- Creating a post or a comment answers 200; the tests expect 201.
- Reading one post returns its id, like count and comment count; the tests expect its title and description.
- A rejected registration answers with the default status 200.
- The user view has no `id` field; the tests expect one.
- The delete message names no post (see Findings); the tests expect `Post 1 deleted`.

## Model

| member | source | states |
|---|---|---|
| Models.FollowersIsInverse | api/models.py:9 | `v` is among `u`'s followers exactly when `u` is among `v`'s following: `followers` is the reverse of the asymmetric `following` |
| Models.LikedPostsIsInverse | api/models.py:24 | a post is among `u`'s liked posts exactly when `u` is in that post's like-set |
| Models.NoSelfFollow | api/views.py:47-48 | in a database satisfying the constraints nobody follows themself or is their own follower |
| Models.OwnPostIdsExact | api/views.py:191 | the posts listed for `u` are exactly the posts `u` owns |
| Models.CommentIdsOfExact | api/serializers.py:89 | the comments listed for a post are exactly the comments whose parent is that post |
| Models.Collect | api/views.py:191 | a filtered key list is strictly increasing (creation order) and holds exactly the kept keys below the counter |
| Models.Initial | tests/test_posts.py:46 | the empty database satisfies every constraint, and the first user, post and comment each get id 1 |
| Models.LikersAreLikes | api/models.py:24 | in a valid database the users whose liked posts include a post are exactly that post's like-set |
| Models.CommentIdsOfCount | api/serializers.py:88-90 | the number of comments listed for a post is the number of comments whose parent is that post |
| Models.CollectExtend | api/views.py:92 | storing a new entry under the next key appends that key to the filtered list when the filter keeps it, and changes nothing else |
| Decimal.Show | api/views.py:146 | the id rendered in a message is a non-empty run of digits without a leading zero |
| Decimal.ValueOfShow | api/views.py:146 | reading the rendered id back as a decimal numeral gives the id |
| Decimal.ShowInjective | api/views.py:146 | different ids render differently, so a message names one post |
| Serializers.Strip | api/models.py:20-21 | the kept value of a character field is the input with only its surrounding whitespace removed: a slice of the input with only whitespace before and after it, not starting or ending with whitespace, and empty exactly when the input is blank |
| Serializers.StripIdempotent | api/models.py:20-21 | trimming an already kept value changes nothing |
| Serializers.CheckText | api/models.py:20-21 | a field is accepted exactly when it is present, not blank, and its trimmed length is within `max_length`; the trimmed value is kept |
| Serializers.RefusedNames | api/views.py:94 | the error report names each refused field and no accepted one, and is empty exactly when every field is accepted |
| Serializers.ValidateComment | api/serializers.py:46-50 | a comment form is accepted exactly when `comment` is present and not blank; a refusal names `comment` |
| Serializers.ValidatePost | api/serializers.py:69-73 | a post form is accepted exactly when title (at most 100 characters after trimming) and desc are both present and not blank; a refusal lists exactly the refused fields, title before desc |
| Serializers.CheckUsername | api/serializers.py:22 | a username is accepted exactly when it passes the character rules with `max_length` 150 and no user has it; the accepted value is the trimmed input |
| Serializers.CheckEmail | api/models.py:8 | an email is accepted exactly when it passes the character rules with `max_length` 254 and no user has it; the accepted value is the trimmed input |
| Serializers.ValidateUser | api/serializers.py:19-23 | registration needs username, email and password; it is accepted exactly when all three fields pass, and keeps a free username and a free email; a refusal lists exactly the refused fields in the order username, email, password |
| Serializers.SummarizeUser | api/serializers.py:30-43 | the user view shows the username, the number of outgoing follow edges and the number of incoming follow edges |
| Serializers.FollowingCountIsOutDegree | api/serializers.py:39-40 | the following count equals the number of outgoing follow edges |
| Serializers.FollowersCountIsInDegree | api/serializers.py:42-43 | the followers count equals the number of incoming follow edges |
| Serializers.CommentList | api/serializers.py:88-90 | a post's comment list has one entry per comment on that post, oldest first, each rendered from that comment |
| Serializers.RenderPost | api/serializers.py:76-90 | the post view shows the post's id, title and description, as many comments as there are comments whose parent is that post, and as many likes as there are users whose liked posts include it |
| Views.Register | api/views.py:29-34 | a valid form adds one user with the kept username and email under the next user id, which no user holds in a valid database, advances that counter, changes nothing else and answers with the new user; a refused form changes nothing and answers status 200 |
| Views.GetUser | api/views.py:79-82 | the caller's view shows their username, the number of their outgoing follow edges and the number of their incoming follow edges |
| Views.FollowUser | api/views.py:39-54 | follow succeeds exactly for an existing other user not yet followed, adding that one edge only; otherwise 400 and no change |
| Views.UnfollowUser | api/views.py:59-74 | unfollow succeeds exactly for an existing other user currently followed, removing that one edge only; otherwise 400 and no change |
| Views.CreatePost | api/views.py:87-94 | a valid form adds one post owned by the caller under a fresh id with no likes and changes nothing else; a refused form answers 400 "Post creation failed" and changes nothing |
| Views.GetPost | api/views.py:100-113 | a missing post answers 404; otherwise the reply is the id, the like-set size and the number of comments on that post |
| Views.RemovePost | api/models.py:24-32 | deleting a post removes it, exactly the comments on it, and its like-set; users, edges and every other post and comment stay |
| Views.DeletePost | api/views.py:114-126 | delete succeeds exactly for the owner of an existing post, answers with a message naming that post, and cascades; a refusal changes nothing, and answers 404 for a missing post and 400 otherwise |
| Views.DeletePostAsWritten | api/views.py:114-126 | the handler as written: it succeeds exactly when the corrected handler does, refuses with the same reply, has the same database effect, but its success message reads `Post None deleted successfully` |
| Views.GetPosts | api/views.py:189-193 | the caller's listing holds one rendered entry per post the caller owns, and nothing else |
| Views.LikePost | api/views.py:131-146 | like succeeds exactly on an existing post the caller does not own and has not liked, adding the caller to that like-set only; a refusal changes nothing and answers 404 for a missing post and 400 otherwise |
| Views.UnlikePost | api/views.py:151-166 | unlike succeeds exactly on an existing post the caller does not own and has liked, removing the caller from that like-set only; a refusal changes nothing and answers 404 for a missing post and 400 otherwise |
| Views.CommentPost | api/views.py:171-184 | comment succeeds exactly on an existing post with a non-blank body, adding one comment by the caller under the next comment id, which the reply returns; a refusal changes nothing and answers 404 for a missing post and 400 otherwise |
| IdentityProps.FollowChecks | api/views.py:43-50 | the follow guards in source order: user not found, then self, then already following; each gives the exact reply and no change |
| IdentityProps.UnfollowChecks | api/views.py:63-70 | the unfollow guards in source order: user not found, then self, then not following; each gives the exact reply and no change |
| IdentityProps.FollowTouchesOnlyTheEdge | api/views.py:52-53 | a follow changes no other user's following set and adds the caller to the target's followers only |
| IdentityProps.FollowCounts | api/views.py:52 | a follow raises the caller's following count and the target's followers count by exactly one |
| IdentityProps.UnfollowCounts | api/views.py:72 | an unfollow lowers both counts by exactly one |
| IdentityProps.FollowIsDirected | api/models.py:9 | following someone never makes them follow back (`symmetrical=False`) |
| IdentityProps.FollowTwice | api/views.py:49-50 | a second follow of the same user is refused as already following, and the count stays one higher |
| IdentityProps.FollowThenUnfollow | api/views.py:72 | unfollowing right after a follow succeeds and restores the database exactly |
| IdentityProps.UnfollowThenFollow | api/views.py:52 | following right after an unfollow succeeds and restores the database exactly |
| IdentityProps.FollowRepeatedlyAppliesOnce | api/views.py:49-52 | the same follow request sent n times succeeds at most once, and the database ends as after the first |
| IdentityProps.RegisterNeedsAllFields | api/serializers.py:23 | a registration missing any of the three fields is refused with status 200 and adds nobody |
| IdentityProps.FreshUserHasNoEdges | api/serializers.py:30-43 | a just-registered user's view shows the kept username, 0 following and 0 followers |
| IdentityProps.AddUserPreservesValid | api/serializers.py:25-27 | adding a user with a free username and a free email keeps every schema constraint |
| IdentityProps.RegisterPreservesValid | api/views.py:29-34 | registration keeps every schema constraint |
| IdentityProps.FollowPreservesValid | api/views.py:39-54 | follow keeps every schema constraint, including no self-follow |
| IdentityProps.UnfollowPreservesValid | api/views.py:59-74 | unfollow keeps every schema constraint |
| EngagementProps.LikeChecks | api/views.py:135-142 | the like guards in source order: post not found (404), then own post, then already liked; each gives the exact reply and no change |
| EngagementProps.UnlikeChecks | api/views.py:155-162 | the unlike guards in source order: post not found (404), then own post, then not liked; each gives the exact reply and no change |
| EngagementProps.LikeTouchesOnlyOneMembership | api/views.py:144 | a like adds this post to the caller's liked posts only, and raises its like count by one |
| EngagementProps.UnlikeTouchesOnlyOneMembership | api/views.py:164 | an unlike removes this post from the caller's liked posts only, and lowers its like count by one |
| EngagementProps.LikeTwice | api/views.py:141-142 | a second like of the same post is refused as already liked, and the count stays one higher |
| EngagementProps.LikeOwnPostFails | api/views.py:139-140 | liking one's own post is refused whatever its like-set holds |
| EngagementProps.UnlikeOwnPostGuardIsRedundant | api/views.py:159-162 | the owner is never in their own post's like-set, so the own-post unlike guard only refuses what the not-liked guard would refuse |
| EngagementProps.LikeThenUnlike | api/views.py:164 | unliking right after a like succeeds and restores the database exactly |
| EngagementProps.UnlikeThenLike | api/views.py:144 | liking right after an unlike succeeds and restores the database exactly |
| EngagementProps.LikePreservesValid | api/views.py:131-146 | like keeps every schema constraint, including the owner not liking their own post |
| EngagementProps.UnlikePreservesValid | api/views.py:151-166 | unlike keeps every schema constraint |
| EngagementProps.CommentChecksPostFirst | api/views.py:175-179 | a missing post answers 404 before the form is looked at, whatever the form |
| EngagementProps.CommentNeedsBody | api/views.py:181-184 | a comment form without `comment` answers 400 "Comment creation failed" naming that field, and creates nothing |
| EngagementProps.CommentAppends | api/views.py:182-183 | a new comment gets an unused id and lands at the end of its post's comment list; every other post's list is unchanged |
| EngagementProps.AddCommentAppends | api/serializers.py:89 | storing a comment under the next id appends it to its own post's comment list and to no other |
| EngagementProps.AddCommentListed | api/serializers.py:88-90 | storing a comment by an existing user on an existing post adds its rendering, the author's username and the body, at the end of that post's comment list |
| EngagementProps.CommentListed | api/serializers.py:88-90 | after a comment, the post's comment list gains exactly one last entry: the caller's username and the trimmed body |
| EngagementProps.CommentPreservesValid | api/views.py:171-184 | commenting keeps every schema constraint |
| EngagementProps.AddCommentPreservesValid | api/models.py:30-32 | storing a comment by an existing user on an existing post keeps every schema constraint |
| ContentProps.CreatePostNeedsBothFields | api/serializers.py:69-73 | a post form missing its title or its description answers 400 and creates nothing |
| ContentProps.CreatePostEffect | api/views.py:91-93 | a created post has a new id, is owned by the caller, has no likes and no comments, and is appended to the caller's list only |
| ContentProps.AddPostEffect | api/views.py:92 | storing a post under the next post id: the id was unused, the post has no comments, and it is appended to its owner's list and to no other |
| ContentProps.OnlyPostListed | api/views.py:189-193 | a user's first post is their whole listing, with the trimmed title and description, no comments and no likes |
| ContentProps.DeleteChecks | api/views.py:118-123 | the delete guards in source order: post not found (404), then not the owner (400); each gives the exact reply and no change |
| ContentProps.DeleteByOtherKeepsPost | api/views.py:122-123 | a non-owner's delete is refused and the post still reads the same |
| ContentProps.DeleteCascades | api/models.py:24-32 | after a delete the post reads 404 and has no comments, nobody likes it, other posts keep their comment lists, and users and edges are unchanged |
| ContentProps.RemoveAddedPost | api/views.py:92 | removing a post that was just stored under the next id gives back the database before it, with the counter advanced |
| ContentProps.CreateThenDelete | api/views.py:87-126 | creating a post and deleting it as its owner restores the database, except that the post id counter has advanced |
| ContentProps.DeleteMessageNamesNoPost | api/views.py:125-126 | as written, deletes of two different posts both succeed with the same message; the corrected messages differ |
| ContentProps.AddPostPreservesValid | api/models.py:18-24 | adding a post by an existing user, with a title within 100 characters and no likes, keeps every schema constraint |
| ContentProps.CreatePostPreservesValid | api/views.py:87-94 | post creation keeps every schema constraint |
| ContentProps.RemovePostPreservesValid | api/models.py:30-32 | removing a post with its comments leaves no comment pointing at a missing post |
| ContentProps.DeletePreservesValid | api/views.py:114-126 | deletion keeps every schema constraint |
| Service.Handle | api/views.py:25-38 | a token naming no user answers 401 "User not found" on every request, registration included; without a token every request except registration answers 401 and runs no handler; a signed-in caller's request is served by its handler and never answered 401; a registration without a token, or from a signed-in caller, goes to the register handler; every request keeps the constraints; a refused request or a read changes nothing |
| Service.Serve | api/urls.py:21-32 | each route's request reaches its own handler, deletion reaching the handler as written |
| Service.ServeKeepsValid | api/views.py:29-193 | every handler keeps the constraints, changes nothing when it refuses or only reads, and never refuses with status 401 |
| Service.Run | api/urls.py:18-33 | a request sequence gives one reply per request and keeps the constraints; if every request is refused the database is unchanged |
| Service.ReachableIsValid | api/models.py:7-32 | every database reachable from the empty one satisfies the constraints: unique usernames and emails, no self-follow, owners never in their own like-sets |

## Left out

- Authentication tokens (the token and refresh endpoints and the custom `name` claim) are out of scope. The signed-in caller is an input: `Service.Handle` takes it as an optional user id, the user a token names.
- Service.Handle: only a token that names no user is modelled among bad tokens. A malformed, expired or wrongly signed token also answers 401 on every route, with the token library's own message, and is not modelled. The project settings that install the token authenticator are not part of this model; the 401 "User not found" follows that authenticator's documented behaviour.
- Password hashing, and the password itself once validated, are not kept. Only the validation of the password field is modelled.
- `created_at` and `updated_at` timestamps are not modelled. They appear only in serialized output.
- Username character validation (letters, digits and `@.+-_`) is not modelled.
- Email format validation is not modelled.
- Email normalisation and Unicode normalisation of the username in `create_user` are not modelled. Uniqueness is checked on the trimmed value.
- The null-character validator of text fields is not modelled.
- The exact per-field error texts are not modelled. A refusal carries the names of the refused fields, in field order.
- Serializers.RenderComment: the comment serializer lists a field `text` that `Comment` does not have. Rendering any non-empty comment list would raise a configuration error, so the post listing and the single-post read fail for a post with comments. The model returns the intended list: the author's username and the body. `created_at` is not shown.
- Views.GetPost: for a post with comments, the source's read fails on the broken comment serializer described above. The model answers with the id, like count and comment count.
- Views.GetPosts: for a caller who owns a post with comments, the source's listing fails on the same broken serializer. The model answers with the full listing.
- Query ordering: the source sets no ordering on any queryset. The model lists posts and comments by ascending id, which is creation order.
- The `follow/` and `unfollow/` routes without an id reach handlers that require one. That request fails inside the framework before the handler runs, and is not modelled.
- Concurrent requests are not modelled. Requests are handled one at a time; `IdentityProps.FollowRepeatedlyAppliesOnce` is the sequential form of a repeated follow.
- Integer keys are unbounded, with no database overflow.
- Deleting users is not modelled. No handler deletes a user, so the user-side cascades never fire.

## Findings

| source | as written | input that shows it | evidently intended | confidence | as-written member | corrected member |
|---|---|---|---|---|---|---|
| api/views.py:125-126 | the success message interpolates `post.id` after `post.delete()`, which has already set the instance's primary key to `None` | the owner deletes post 1: the reply is `Post None deleted successfully`, the same text as for any other post | the message names the deleted post: `Post 1 deleted successfully` | high, not executed | Views.DeletePostAsWritten | Views.DeletePost |
