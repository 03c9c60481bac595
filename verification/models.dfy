/**
 The persistent entities of the service and the relations between them:
 users with a directed `following` relation, posts with one owner and a
 like-set, comments attached to one post and one author. The whole database
 is one immutable `State`; the reverse relations the ORM derives
 (`followers`, `liked_posts`, `Post.comments`, `User.posts`) are functions of it.
 */
module Models {

  datatype Option<+T> = None | Some(value: T)

  /** Auto-increment primary keys; a key once handed out is never reused. */
  type UserId = nat
  type PostId = nat
  type CommentId = nat

  /** `max_length` of the character columns. */
  const TitleMaxLength: nat := 100
  const UsernameMaxLength: nat := 150
  const EmailMaxLength: nat := 254
  const PasswordMaxLength: nat := 128

  /** A registered account. The hashed password is opaque to the model and not kept. */
  datatype User = User(username: string, email: string)

  /** A post: its single owner, its text and the set of users who like it. */
  datatype Post = Post(owner: UserId, title: string, desc: string, likes: set<UserId>)

  /** A comment: its single author, its single parent post and its body. */
  datatype Comment = Comment(author: UserId, post: PostId, body: string)

  /**
   The database. `following` holds the directed edges (follower, followed);
   `nextUser`, `nextPost` and `nextComment` are the next primary keys.
   */
  datatype State = State(
    users: map<UserId, User>,
    following: set<(UserId, UserId)>,
    posts: map<PostId, Post>,
    comments: map<CommentId, Comment>,
    nextUser: UserId,
    nextPost: PostId,
    nextComment: CommentId)

  /** The empty database. Auto-increment keys start at 1, so the first user, post and comment all get id 1. */
  function Initial(): (s: State)
    ensures Valid(s)
    ensures s.users == map[] && s.posts == map[] && s.comments == map[] && s.following == {}
    ensures s.nextUser == 1 && s.nextPost == 1 && s.nextComment == 1
  {
    State(map[], {}, map[], map[], 1, 1, 1)
  }

  // ---------------------------------------------------------------------------
  // Integrity constraints of the schema
  // ---------------------------------------------------------------------------

  /** Every key in use is below the next key to hand out. */
  ghost predicate KeysBelowCounters(s: State) {
    && (forall u :: u in s.users ==> u < s.nextUser)
    && (forall p :: p in s.posts ==> p < s.nextPost)
    && (forall c :: c in s.comments ==> c < s.nextComment)
  }

  /** `email` is declared unique, and so is the `username` inherited from the auth user. */
  ghost predicate UniqueCredentials(s: State) {
    && (forall a, b :: a in s.users && b in s.users && a != b ==> s.users[a].email != s.users[b].email)
    && (forall a, b :: a in s.users && b in s.users && a != b ==> s.users[a].username != s.users[b].username)
  }

  /** Follow edges join two distinct existing users. */
  ghost predicate FollowEdgesValid(s: State) {
    forall e :: e in s.following ==> e.0 in s.users && e.1 in s.users && e.0 != e.1
  }

  /** A post is owned by an existing user, liked only by existing users other than its owner. */
  ghost predicate PostValid(s: State, p: Post) {
    && p.owner in s.users
    && p.likes <= s.users.Keys
    && p.owner !in p.likes
    && |p.title| <= TitleMaxLength
  }

  ghost predicate PostsValid(s: State) {
    forall p :: p in s.posts ==> PostValid(s, s.posts[p])
  }

  /** A comment has an existing author and an existing parent post. */
  ghost predicate CommentsValid(s: State) {
    forall c :: c in s.comments ==> s.comments[c].author in s.users && s.comments[c].post in s.posts
  }

  /** Every constraint the schema and the handlers maintain together. */
  ghost predicate Valid(s: State) {
    && KeysBelowCounters(s)
    && UniqueCredentials(s)
    && FollowEdgesValid(s)
    && PostsValid(s)
    && CommentsValid(s)
  }

  // ---------------------------------------------------------------------------
  // Lookups and reverse relations
  // ---------------------------------------------------------------------------

  function LookupUser(s: State, id: UserId): (r: Option<User>)
    ensures r.Some? <==> id in s.users
    ensures r.Some? ==> r.value == s.users[id]
  {
    if id in s.users then Some(s.users[id]) else None
  }

  function LookupPost(s: State, id: PostId): (r: Option<Post>)
    ensures r.Some? <==> id in s.posts
    ensures r.Some? ==> r.value == s.posts[id]
  {
    if id in s.posts then Some(s.posts[id]) else None
  }

  /** `user.following`: the users `u` follows (outgoing edges). */
  function Following(s: State, u: UserId): set<UserId> {
    set e | e in s.following && e.0 == u :: e.1
  }

  /** `user.followers`: the users following `u` (incoming edges), derived, not stored. */
  function Followers(s: State, u: UserId): set<UserId> {
    set e | e in s.following && e.1 == u :: e.0
  }

  /** `user.liked_posts`: the reverse of `Post.likes`. */
  function LikedPosts(s: State, u: UserId): set<PostId> {
    set p | p in s.posts && u in s.posts[p].likes
  }

  /**
   The keys below `n` of the entries of `m` that satisfy `keep`, in ascending
   key order, which for auto-increment keys is creation order.
   */
  function Collect<V>(m: map<nat, V>, keep: V -> bool, n: nat): (r: seq<nat>)
    ensures forall i, j :: 0 <= i < j < |r| ==> r[i] < r[j]
    ensures forall x :: x in r <==> x < n && x in m && keep(m[x])
    decreases n
  {
    if n == 0 then []
    else
      var rest := Collect(m, keep, n - 1);
      assert forall i :: 0 <= i < |rest| ==> rest[i] in rest;
      if n - 1 in m && keep(m[n - 1]) then rest + [n - 1] else rest
  }

  /** `Post.objects.filter(user=u)`: the ids of the posts `u` owns, oldest first. */
  function OwnPostIds(s: State, u: UserId): seq<PostId> {
    Collect(s.posts, (p: Post) => p.owner == u, s.nextPost)
  }

  /** `post.comments.all()`: the ids of the comments whose parent is `p`, oldest first. */
  function CommentIdsOf(s: State, p: PostId): seq<CommentId> {
    Collect(s.comments, (c: Comment) => c.post == p, s.nextComment)
  }

  // ---------------------------------------------------------------------------
  // Facts about the reverse relations
  // ---------------------------------------------------------------------------

  /** `followers` is exactly the inverse of `following`. */
  lemma FollowersIsInverse(s: State, u: UserId, v: UserId)
    ensures v in Followers(s, u) <==> u in Following(s, v)
  {
    if v in Followers(s, u) {
      assert (v, u) in s.following;
    }
    if u in Following(s, v) {
      assert (v, u) in s.following;
    }
  }

  /** `liked_posts` is exactly the inverse of `Post.likes`. */
  lemma LikedPostsIsInverse(s: State, u: UserId, p: PostId)
    ensures p in LikedPosts(s, u) <==> p in s.posts && u in s.posts[p].likes
  {
  }

  /** Nobody follows themselves in a valid database. */
  lemma NoSelfFollow(s: State, u: UserId)
    requires Valid(s)
    ensures u !in Following(s, u)
    ensures u !in Followers(s, u)
  {
  }

  /** The posts listed for `u` are exactly the posts `u` owns. */
  lemma OwnPostIdsExact(s: State, u: UserId, p: PostId)
    requires Valid(s)
    ensures p in OwnPostIds(s, u) <==> p in s.posts && s.posts[p].owner == u
  {
  }

  /** The comments listed for `p` are exactly the comments whose parent is `p`. */
  lemma CommentIdsOfExact(s: State, p: PostId, c: CommentId)
    requires Valid(s)
    ensures c in CommentIdsOf(s, p) <==> c in s.comments && s.comments[c].post == p
  {
  }

  /**
   `Collect` only sees which keys below `n` hold a kept entry: two maps that
   agree on that give the same list.
   */
  lemma {:induction false} CollectFrame<V>(m: map<nat, V>, m': map<nat, V>, keep: V -> bool, n: nat)
    requires forall x :: x < n ==> (x in m && keep(m[x]) <==> x in m' && keep(m'[x]))
    ensures Collect(m, keep, n) == Collect(m', keep, n)
    decreases n
  {
    if n > 0 {
      CollectFrame(m, m', keep, n - 1);
    }
  }

  /** Adding the entry under key `n` to a map whose keys are all below `n` appends `n` if it is kept. */
  lemma CollectExtend<V>(m: map<nat, V>, keep: V -> bool, n: nat, v: V)
    requires forall x :: x in m ==> x < n
    ensures Collect(m[n := v], keep, n + 1) == Collect(m, keep, n) + (if keep(v) then [n] else [])
  {
    CollectFrame(m, m[n := v], keep, n);
  }

  /** With no kept entry below `n` the list is empty. */
  lemma {:induction false} CollectNone<V>(m: map<nat, V>, keep: V -> bool, n: nat)
    requires forall x :: x < n && x in m ==> !keep(m[x])
    ensures Collect(m, keep, n) == []
    decreases n
  {
    if n > 0 {
      CollectNone(m, keep, n - 1);
    }
  }

  /** The users whose liked posts include `p` are exactly the members of `p`'s like-set. */
  lemma LikersAreLikes(s: State, p: PostId)
    requires Valid(s)
    requires p in s.posts
    ensures (set u | u in s.users && p in LikedPosts(s, u)) == s.posts[p].likes
  {
    assert PostValid(s, s.posts[p]);
  }

  /** A strictly increasing list has no repeats: its length is the number of its elements. */
  lemma {:induction false} IncreasingCard(r: seq<nat>)
    requires forall i, j :: 0 <= i < j < |r| ==> r[i] < r[j]
    ensures |set x: nat | x in r| == |r|
    decreases |r|
  {
    if r != [] {
      var init := r[..|r| - 1];
      var last := r[|r| - 1];
      IncreasingCard(init);
      var before := set x: nat | x in init;
      assert (set x: nat | x in r) == before + {last};
      forall i | 0 <= i < |init|
        ensures init[i] != last
      {
        assert init[i] == r[i];
      }
      assert last !in before;
    }
  }

  /** The number of comments listed for `p` is the number of comments whose parent is `p`. */
  lemma CommentIdsOfCount(s: State, p: PostId)
    requires KeysBelowCounters(s)
    ensures |CommentIdsOf(s, p)| == |set c | c in s.comments && s.comments[c].post == p|
  {
    var ids := CommentIdsOf(s, p);
    IncreasingCard(ids);
    assert (set x: nat | x in ids) == set c | c in s.comments && s.comments[c].post == p;
  }
}
