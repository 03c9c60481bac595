/**
 The whole service as one state machine: a request, sent with or without a
 signed-in caller, is answered by its handler. The authenticator answers
 401 and calls no handler when the caller's token names no user; every
 handler except registration also answers 401 when there is no token.
 */
module Service {
  import opened Models
  import opened Serializers
  import opened Views
  import IdentityProps
  import EngagementProps
  import ContentProps

  /** The requests the handlers serve. */
  datatype Request =
    | RegisterRequest(userForm: UserForm)
    | GetUserRequest
    | FollowRequest(target: UserId)
    | UnfollowRequest(target: UserId)
    | CreatePostRequest(postForm: PostForm)
    | GetPostRequest(post: PostId)
    | DeletePostRequest(post: PostId)
    | LikeRequest(post: PostId)
    | UnlikeRequest(post: PostId)
    | CommentRequest(post: PostId, commentForm: CommentForm)
    | ListPostsRequest

  /** Registration is open to anyone; every other request needs a signed-in caller. */
  predicate NeedsCaller(req: Request) {
    !req.RegisterRequest?
  }

  /** Requests that only read the database. */
  predicate ReadOnly(req: Request) {
    req.GetUserRequest? || req.GetPostRequest? || req.ListPostsRequest?
  }

  /**
   Answer one request. The authenticator runs before any handler: a token
   that names no user is refused with 401 "User not found" on every route,
   registration included; a request without a token that needs a caller is
   refused with 401 as well. A signed-in caller's request is served, and so
   is a registration sent without a token. Whatever the request, the
   database constraints still hold afterwards, a refused request changes
   nothing, and a read changes nothing.
   */
  function Handle(s: State, caller: Option<UserId>, req: Request): (r: Step)
    requires Valid(s)
    ensures Valid(r.state)
    ensures r.reply.Err? ==> r.state == s
    ensures ReadOnly(req) ==> r.state == s
    ensures caller.Some? && caller.value !in s.users ==>
      r.reply == Err(401, NotAuthenticated, Message("User not found"))
    ensures caller.None? && NeedsCaller(req) ==>
      r.reply == Err(401, NotAuthenticated, Message("Authentication credentials were not provided."))
    ensures caller.Some? && caller.value in s.users ==>
      r == Serve(s, caller.value, req) && !(r.reply.Err? && r.reply.status == 401)
    ensures req.RegisterRequest? && (caller.None? || caller.value in s.users) ==>
      r == Register(s, req.userForm)
  {
    if caller.Some? && caller.value !in s.users then
      Step(Err(401, NotAuthenticated, Message("User not found")), s)
    else if caller.Some? then
      ServeKeepsValid(s, caller.value, req);
      var r := Serve(s, caller.value, req);
      assert req.RegisterRequest? ==> r == Register(s, req.userForm);
      r
    else if NeedsCaller(req) then
      Step(Err(401, NotAuthenticated, Message("Authentication credentials were not provided.")), s)
    else
      IdentityProps.RegisterPreservesValid(s, req.userForm);
      Register(s, req.userForm)
  }

  /**
   Serve a request of the signed-in user `actor` by its handler; deletion
   goes to the handler as written, with its message that names no post.
   */
  function Serve(s: State, actor: UserId, req: Request): (r: Step)
    requires Valid(s)
    requires actor in s.users
    ensures req.RegisterRequest? ==> r == Register(s, req.userForm)
    ensures req.GetUserRequest? ==> r == Step(GetUser(s, actor), s)
    ensures req.FollowRequest? ==> r == FollowUser(s, actor, req.target)
    ensures req.UnfollowRequest? ==> r == UnfollowUser(s, actor, req.target)
    ensures req.CreatePostRequest? ==> r == CreatePost(s, actor, req.postForm)
    ensures req.GetPostRequest? ==> r == Step(GetPost(s, req.post), s)
    ensures req.DeletePostRequest? ==> r == DeletePostAsWritten(s, actor, req.post)
    ensures req.LikeRequest? ==> r == LikePost(s, actor, req.post)
    ensures req.UnlikeRequest? ==> r == UnlikePost(s, actor, req.post)
    ensures req.CommentRequest? ==> r == CommentPost(s, actor, req.post, req.commentForm)
    ensures req.ListPostsRequest? ==> r == Step(GetPosts(s, actor), s)
  {
    match req
    case RegisterRequest(form) => Register(s, form)
    case GetUserRequest => Step(GetUser(s, actor), s)
    case FollowRequest(id) => FollowUser(s, actor, id)
    case UnfollowRequest(id) => UnfollowUser(s, actor, id)
    case CreatePostRequest(form) => CreatePost(s, actor, form)
    case GetPostRequest(id) => Step(GetPost(s, id), s)
    case DeletePostRequest(id) => DeletePostAsWritten(s, actor, id)
    case LikeRequest(id) => LikePost(s, actor, id)
    case UnlikeRequest(id) => UnlikePost(s, actor, id)
    case CommentRequest(id, form) => CommentPost(s, actor, id, form)
    case ListPostsRequest => Step(GetPosts(s, actor), s)
  }

  /**
   Every handler keeps the database constraints, changes nothing when it
   refuses or only reads, and never refuses with the authentication check's
   status 401.
   */
  lemma ServeKeepsValid(s: State, actor: UserId, req: Request)
    requires Valid(s)
    requires actor in s.users
    ensures var r := Serve(s, actor, req);
      && Valid(r.state)
      && (r.reply.Err? ==> r.state == s && r.reply.status != 401)
      && (ReadOnly(req) ==> r.state == s)
  {
    match req
    case RegisterRequest(form) => IdentityProps.RegisterPreservesValid(s, form);
    case GetUserRequest =>
    case FollowRequest(id) => IdentityProps.FollowPreservesValid(s, actor, id);
    case UnfollowRequest(id) => IdentityProps.UnfollowPreservesValid(s, actor, id);
    case CreatePostRequest(form) => ContentProps.CreatePostPreservesValid(s, actor, form);
    case GetPostRequest(id) =>
    case DeletePostRequest(id) => ContentProps.DeletePreservesValid(s, actor, id);
    case LikeRequest(id) => EngagementProps.LikePreservesValid(s, actor, id);
    case UnlikeRequest(id) => EngagementProps.UnlikePreservesValid(s, actor, id);
    case CommentRequest(id, form) => EngagementProps.CommentPreservesValid(s, actor, id, form);
    case ListPostsRequest =>
  }

  /** Every reply in `replies` is a refusal. */
  predicate AllRefused(replies: seq<Reply>) {
    replies == [] || (replies[0].Err? && AllRefused(replies[1..]))
  }

  /** Answer a sequence of requests in order: the replies, and the database after the last one. */
  function Run(s: State, trace: seq<(Option<UserId>, Request)>): (r: (seq<Reply>, State))
    requires Valid(s)
    ensures Valid(r.1)
    ensures |r.0| == |trace|
    ensures AllRefused(r.0) ==> r.1 == s
    decreases |trace|
  {
    if trace == [] then ([], s)
    else
      var first := Handle(s, trace[0].0, trace[0].1);
      var rest := Run(first.state, trace[1..]);
      var replies := [first.reply] + rest.0;
      assert replies[1..] == rest.0;
      (replies, rest.1)
  }

  /**
   Every database the service can reach from the empty one satisfies the
   constraints: unique emails and usernames, no self-follow, every post owned
   by a user and not liked by its owner, every comment on an existing post.
   */
  lemma ReachableIsValid(trace: seq<(Option<UserId>, Request)>, u: UserId, p: PostId)
    ensures var s := Run(Initial(), trace).1;
      && Valid(s)
      && u !in Following(s, u)
      && (p in s.posts ==> s.posts[p].owner !in s.posts[p].likes)
  {
    var s := Run(Initial(), trace).1;
    NoSelfFollow(s, u);
    if p in s.posts {
      assert PostValid(s, s.posts[p]);
    }
  }
}
