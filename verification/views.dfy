/**
 The request handlers as pure steps over the database. Each handler looks its
 target up, runs its guards in the source's fixed order, and either refuses
 with a status and a message, leaving the database as it was, or applies one
 mutation. The authenticated caller is the explicit `actor`; the
 authentication layer only lets existing users through, hence
 `actor in s.users` on every handler that needs a caller.

 Where the source and its test-suite disagree, the handlers follow the source:
 a missing user in follow/unfollow answers 400 (the tests expect 404); deleting
 another user's post answers 400 (the tests expect 403); creating a post or a
 comment answers 200 (the tests expect 201); reading one post returns only its
 id, like count and comment count (the tests expect title and description);
 and a rejected registration answers with the default status 200.
 */
module Views {
  import opened Models
  import opened Serializers
  import Decimal

  /** The error kinds a handler can answer with. */
  datatype ErrorKind =
    | NotFound
    | SelfReference
    | AlreadyFollowing
    | NotFollowing
    | SelfLike
    | AlreadyLiked
    | NotLiked
    | NotOwner
    | ValidationError
    | NotAuthenticated

  /** The payload of a response. */
  datatype Body =
    | Message(text: string)
    | FormErrors(message: string, fields: seq<string>)
    | FieldErrors(fields: seq<string>)
    | CreatedUser(uid: UserId, username: string, email: string)
    | CreatedPost(pid: PostId, title: string, desc: string)
    | CreatedComment(cid: CommentId)
    | PostSummary(id: PostId, likes: nat, comments: nat)
    | PostList(views: seq<PostView>)
    | UserInfo(summary: UserSummary)

  /** A response: a success, or an error of some kind; both carry the HTTP status. */
  datatype Reply =
    | Ok(status: nat, body: Body)
    | Err(status: nat, kind: ErrorKind, body: Body)

  /** A mutating handler's response together with the database after it. */
  datatype Step = Step(reply: Reply, state: State)

  /** A refusal: the reply, and the database unchanged. */
  function Refuse(s: State, status: nat, kind: ErrorKind, message: string): (r: Step)
    ensures r.reply.Err? && r.reply.status == status && r.reply.kind == kind
    ensures r.state == s
  {
    Step(Err(status, kind, Message(message)), s)
  }

  // ---------------------------------------------------------------------------
  // Registration and the user view
  // ---------------------------------------------------------------------------

  /**
   Registration: a valid form adds one user under a fresh id. A refused form
   changes nothing; its reply carries the refused field names and, as written,
   the default status 200.
   */
  function Register(s: State, form: UserForm): (r: Step)
    ensures r.reply.Ok? <==> ValidateUser(s, form).Clean?
    ensures r.reply.Err? ==> r.state == s && r.reply.status == 200 && r.reply.kind == ValidationError
    ensures r.reply.Ok? ==>
      var user := User(Strip(form.username.value), Strip(form.email.value));
      && r.reply.body == CreatedUser(s.nextUser, user.username, user.email)
      && r.state == s.(users := s.users[s.nextUser := user], nextUser := s.nextUser + 1)
    ensures r.reply.Ok? && KeysBelowCounters(s) ==> s.nextUser !in s.users
  {
    match ValidateUser(s, form)
    case Rejected(fields) => Step(Err(200, ValidationError, FieldErrors(fields)), s)
    case Clean((username, email)) =>
      var id := s.nextUser;
      Step(Ok(200, CreatedUser(id, username, email)),
           s.(users := s.users[id := User(username, email)], nextUser := id + 1))
  }

  /** The signed-in user's own view: username and the two edge counts. */
  function GetUser(s: State, actor: UserId): (r: Reply)
    requires actor in s.users
    ensures r.Ok? && r.status == 200
    ensures r.body.UserInfo? && r.body.summary.username == s.users[actor].username
    ensures r.body.summary.following == |OutEdges(s, actor)|
    ensures r.body.summary.followers == |InEdges(s, actor)|
    ensures r.body.summary.following == |Following(s, actor)| && r.body.summary.followers == |Followers(s, actor)|
  {
    Ok(200, UserInfo(SummarizeUser(s, actor)))
  }

  // ---------------------------------------------------------------------------
  // Follow relationships
  // ---------------------------------------------------------------------------

  /**
   Follow `id`: a missing user, then the caller themself, then an existing
   edge are refused in that order; otherwise the one edge (actor, id) is added.
   */
  function FollowUser(s: State, actor: UserId, id: UserId): (r: Step)
    requires actor in s.users
    ensures r.reply.Ok? <==> id in s.users && id != actor && id !in Following(s, actor)
    ensures r.reply.Err? ==> r.state == s && r.reply.status == 400
    ensures r.reply.Ok? ==>
      && r.reply.status == 200
      && r.reply.body == Message("User " + s.users[id].username + " followed successfully")
      && r.state == s.(following := r.state.following)
      && Following(r.state, actor) == Following(s, actor) + {id}
      && r.state.following - s.following == {(actor, id)}
      && s.following <= r.state.following
  {
    match LookupUser(s, id)
    case None => Refuse(s, 400, NotFound, "User not found")
    case Some(target) =>
      if id == actor then Refuse(s, 400, SelfReference, "You cannot follow yourself")
      else if id in Following(s, actor) then Refuse(s, 400, AlreadyFollowing, "You are already following this user")
      else
        var s' := s.(following := s.following + {(actor, id)});
        assert Following(s', actor) == Following(s, actor) + {id};
        assert (actor, id) !in s.following;
        Step(Ok(200, Message("User " + target.username + " followed successfully")), s')
  }

  /**
   Unfollow `id`: a missing user, then the caller themself, then a missing
   edge are refused in that order; otherwise the one edge (actor, id) is removed.
   */
  function UnfollowUser(s: State, actor: UserId, id: UserId): (r: Step)
    requires actor in s.users
    ensures r.reply.Ok? <==> id in s.users && id != actor && id in Following(s, actor)
    ensures r.reply.Err? ==> r.state == s && r.reply.status == 400
    ensures r.reply.Ok? ==>
      && r.reply.status == 200
      && r.reply.body == Message("User " + s.users[id].username + " unfollowed successfully")
      && r.state == s.(following := r.state.following)
      && Following(r.state, actor) == Following(s, actor) - {id}
      && s.following - r.state.following == {(actor, id)}
      && r.state.following <= s.following
  {
    match LookupUser(s, id)
    case None => Refuse(s, 400, NotFound, "User not found")
    case Some(target) =>
      if id == actor then Refuse(s, 400, SelfReference, "You cannot unfollow yourself")
      else if id !in Following(s, actor) then Refuse(s, 400, NotFollowing, "You are not following this user")
      else
        var s' := s.(following := s.following - {(actor, id)});
        assert Following(s', actor) == Following(s, actor) - {id};
        assert (actor, id) in s.following;
        Step(Ok(200, Message("User " + target.username + " unfollowed successfully")), s')
  }

  // ---------------------------------------------------------------------------
  // Posts
  // ---------------------------------------------------------------------------

  /**
   Create a post owned by the caller from a valid form, under a fresh id and
   with an empty like-set; a refused form creates nothing and answers 400.
   */
  function CreatePost(s: State, actor: UserId, form: PostForm): (r: Step)
    requires actor in s.users
    ensures r.reply.Ok? <==> ValidatePost(form).Clean?
    ensures r.reply.Err? ==>
      && r.state == s && r.reply.status == 400 && r.reply.kind == ValidationError
      && r.reply.body.FormErrors? && r.reply.body.message == "Post creation failed"
    ensures r.reply.Ok? ==>
      var id := s.nextPost;
      && r.reply.status == 200
      && r.reply.body == CreatedPost(id, Strip(form.title.value), Strip(form.desc.value))
      && r.state.posts == s.posts[id := Post(actor, Strip(form.title.value), Strip(form.desc.value), {})]
      && r.state.nextPost == id + 1
      && r.state == s.(posts := r.state.posts, nextPost := r.state.nextPost)
  {
    match ValidatePost(form)
    case Rejected(fields) => Step(Err(400, ValidationError, FormErrors("Post creation failed", fields)), s)
    case Clean((title, desc)) =>
      var id := s.nextPost;
      Step(Ok(200, CreatedPost(id, title, desc)),
           s.(posts := s.posts[id := Post(actor, title, desc, {})], nextPost := id + 1))
  }

  /** Read one post: 404 when missing; otherwise its id, its like count and its comment count. */
  function GetPost(s: State, id: PostId): (r: Reply)
    ensures r.Err? <==> id !in s.posts
    ensures r.Err? ==> r == Err(404, NotFound, Message("Post not found"))
    ensures r.Ok? ==>
      && r.status == 200
      && r.body == PostSummary(id, |s.posts[id].likes|, |CommentIdsOf(s, id)|)
  {
    match LookupPost(s, id)
    case None => Err(404, NotFound, Message("Post not found"))
    case Some(post) => Ok(200, PostSummary(id, LikeCount(s, id), |CommentIdsOf(s, id)|))
  }

  /** The database without post `id`: its comments and its like-set go with it. */
  function RemovePost(s: State, id: PostId): (s': State)
    ensures s'.posts.Keys == s.posts.Keys - {id}
    ensures forall p :: p in s'.posts ==> s'.posts[p] == s.posts[p]
    ensures forall c :: c in s'.comments <==> c in s.comments && s.comments[c].post != id
    ensures forall c :: c in s'.comments ==> s'.comments[c] == s.comments[c]
    ensures s'.users == s.users && s'.following == s.following
    ensures s'.nextUser == s.nextUser && s'.nextPost == s.nextPost && s'.nextComment == s.nextComment
  {
    s.(posts := s.posts - {id},
       comments := map c | c in s.comments && s.comments[c].post != id :: s.comments[c])
  }

  /**
   Delete post `id`: a missing post answers 404, another user's post 400;
   the owner's request removes the post with its comments and likes and
   names the deleted post in its message.
   */
  function DeletePost(s: State, actor: UserId, id: PostId): (r: Step)
    requires actor in s.users
    ensures r.reply.Ok? <==> id in s.posts && s.posts[id].owner == actor
    ensures r.reply.Err? ==> r.state == s
    ensures r.reply.Err? ==> r.reply.status == (if id in s.posts then 400 else 404)
    ensures r.reply.Ok? ==>
      && r.reply.status == 200
      && r.reply.body == Message("Post " + Decimal.Show(id) + " deleted successfully")
      && r.state == RemovePost(s, id)
  {
    match LookupPost(s, id)
    case None => Refuse(s, 404, NotFound, "Post not found")
    case Some(post) =>
      if post.owner != actor then Refuse(s, 400, NotOwner, "You cannot delete this post")
      else Step(Ok(200, Message("Post " + Decimal.Show(id) + " deleted successfully")), RemovePost(s, id))
  }

  /**
   The delete handler as written: the success message reads the post's `id`
   after `delete()`, which has already cleared the instance's primary key, so
   the message interpolates `None` instead of the id.
   */
  function DeletePostAsWritten(s: State, actor: UserId, id: PostId): (r: Step)
    requires actor in s.users
    ensures r.reply.Ok? <==> DeletePost(s, actor, id).reply.Ok?
    ensures r.reply.Err? ==> r == DeletePost(s, actor, id)
    ensures r.state == DeletePost(s, actor, id).state
    ensures r.reply.Ok? ==> r.reply.status == 200 && r.reply.body == Message("Post None deleted successfully")
  {
    match LookupPost(s, id)
    case None => Refuse(s, 404, NotFound, "Post not found")
    case Some(post) =>
      if post.owner != actor then Refuse(s, 400, NotOwner, "You cannot delete this post")
      else Step(Ok(200, Message("Post None deleted successfully")), RemovePost(s, id))
  }

  /** The caller's own posts, oldest first, each rendered with its comments and like count. */
  function GetPosts(s: State, actor: UserId): (r: Reply)
    requires Valid(s)
    requires actor in s.users
    ensures r.Ok? && r.status == 200 && r.body.PostList?
    ensures |r.body.views| == |OwnPostIds(s, actor)|
    ensures forall i :: 0 <= i < |r.body.views| ==>
      var v := r.body.views[i];
      && v.id in s.posts && s.posts[v.id].owner == actor
      && v == RenderPost(s, v.id)
    ensures forall p :: p in s.posts && s.posts[p].owner == actor ==>
      exists i :: 0 <= i < |r.body.views| && r.body.views[i].id == p
  {
    var ids := OwnPostIds(s, actor);
    assert forall i :: 0 <= i < |ids| ==> ids[i] in ids;
    var views := RenderPosts(s, ids);
    forall p | p in s.posts && s.posts[p].owner == actor
      ensures exists i :: 0 <= i < |views| && views[i].id == p
    {
      assert p in ids;
      var i :| 0 <= i < |ids| && ids[i] == p;
      assert views[i].id == p;
    }
    Ok(200, PostList(views))
  }

  /** The posts `ids`, in the same order, each rendered with its comments and like count. */
  function RenderPosts(s: State, ids: seq<PostId>): (r: seq<PostView>)
    requires Valid(s)
    requires forall i :: 0 <= i < |ids| ==> ids[i] in s.posts
    ensures |r| == |ids|
    ensures forall i :: 0 <= i < |r| ==> r[i].id == ids[i] && r[i] == RenderPost(s, ids[i])
  {
    seq(|ids|, i requires 0 <= i < |ids| => RenderPost(s, ids[i]))
  }

  // ---------------------------------------------------------------------------
  // Likes and comments
  // ---------------------------------------------------------------------------

  /**
   Like post `id`: a missing post (404), then the caller's own post, then an
   existing like are refused in that order; otherwise the caller joins that
   post's like-set.
   */
  function LikePost(s: State, actor: UserId, id: PostId): (r: Step)
    requires actor in s.users
    ensures r.reply.Ok? <==> id in s.posts && s.posts[id].owner != actor && actor !in s.posts[id].likes
    ensures r.reply.Err? ==> r.state == s
    ensures r.reply.Err? ==> r.reply.status == (if id in s.posts then 400 else 404)
    ensures r.reply.Ok? ==>
      && r.reply.status == 200
      && r.reply.body == Message("Post " + Decimal.Show(id) + " liked successfully")
      && r.state == s.(posts := s.posts[id := s.posts[id].(likes := s.posts[id].likes + {actor})])
  {
    match LookupPost(s, id)
    case None => Refuse(s, 404, NotFound, "Post not found")
    case Some(post) =>
      if post.owner == actor then Refuse(s, 400, SelfLike, "You cannot like your own post")
      else if id in LikedPosts(s, actor) then Refuse(s, 400, AlreadyLiked, "You have already liked this post")
      else
        Step(Ok(200, Message("Post " + Decimal.Show(id) + " liked successfully")),
             s.(posts := s.posts[id := post.(likes := post.likes + {actor})]))
  }

  /**
   Unlike post `id`: a missing post (404), then the caller's own post, then a
   missing like are refused in that order; otherwise the caller leaves that
   post's like-set.
   */
  function UnlikePost(s: State, actor: UserId, id: PostId): (r: Step)
    requires actor in s.users
    ensures r.reply.Ok? <==> id in s.posts && s.posts[id].owner != actor && actor in s.posts[id].likes
    ensures r.reply.Err? ==> r.state == s
    ensures r.reply.Err? ==> r.reply.status == (if id in s.posts then 400 else 404)
    ensures r.reply.Ok? ==>
      && r.reply.status == 200
      && r.reply.body == Message("Post " + Decimal.Show(id) + " unliked successfully")
      && r.state == s.(posts := s.posts[id := s.posts[id].(likes := s.posts[id].likes - {actor})])
  {
    match LookupPost(s, id)
    case None => Refuse(s, 404, NotFound, "Post not found")
    case Some(post) =>
      if post.owner == actor then Refuse(s, 400, SelfLike, "You cannot unlike your own post")
      else if id !in LikedPosts(s, actor) then Refuse(s, 400, NotLiked, "You have not liked this post")
      else
        Step(Ok(200, Message("Post " + Decimal.Show(id) + " unliked successfully")),
             s.(posts := s.posts[id := post.(likes := post.likes - {actor})]))
  }

  /**
   Comment on post `id`: a missing post answers 404 before the form is looked
   at; a refused form answers 400; otherwise one comment by the caller on that
   post is added under a fresh id, which the reply returns.
   */
  function CommentPost(s: State, actor: UserId, id: PostId, form: CommentForm): (r: Step)
    requires actor in s.users
    ensures r.reply.Ok? <==> id in s.posts && ValidateComment(form).Clean?
    ensures r.reply.Err? ==> r.state == s
    ensures r.reply.Err? ==> r.reply.status == (if id in s.posts then 400 else 404)
    ensures r.reply.Ok? ==>
      var cid := s.nextComment;
      && r.reply.status == 200
      && r.reply.body == CreatedComment(cid)
      && r.state.comments == s.comments[cid := Comment(actor, id, Strip(form.comment.value))]
      && r.state.nextComment == cid + 1
      && r.state == s.(comments := r.state.comments, nextComment := r.state.nextComment)
  {
    match LookupPost(s, id)
    case None => Refuse(s, 404, NotFound, "Post not found")
    case Some(_) =>
      match ValidateComment(form)
      case Rejected(fields) => Step(Err(400, ValidationError, FormErrors("Comment creation failed", fields)), s)
      case Clean(body) =>
        var cid := s.nextComment;
        Step(Ok(200, CreatedComment(cid)),
             s.(comments := s.comments[cid := Comment(actor, id, body)], nextComment := cid + 1))
  }
}
