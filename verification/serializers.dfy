/**
 The serializers: the field rules that decide whether a registration, a post
 or a comment form is accepted, and the read-only views the handlers return
 (following/followers counts, like counts, comment lists).

 Every text field goes through the same character-field rules: a missing
 field is refused ("required"), a field that is empty or only whitespace is
 refused ("blank"), the value is trimmed of surrounding whitespace, and the
 trimmed value must not exceed the column's `max_length`.
 */
module Serializers {
  import opened Models

  // ---------------------------------------------------------------------------
  // Whitespace trimming (Python's str.strip)
  // ---------------------------------------------------------------------------

  /** The characters Python's `str.isspace` accepts. */
  predicate IsSpace(c: char) {
    || c == ' '
    || ('\t' <= c <= '\r')
    || ('\U{1c}' <= c <= '\U{1f}')
    || c == '\U{85}'
    || c == '\U{a0}'
    || c == '\U{1680}'
    || ('\U{2000}' <= c <= '\U{200a}')
    || c == '\U{2028}'
    || c == '\U{2029}'
    || c == '\U{202f}'
    || c == '\U{205f}'
    || c == '\U{3000}'
  }

  /** A value that is empty or whitespace only: what the field rules call blank. */
  predicate Blank(v: string) {
    forall i :: 0 <= i < |v| ==> IsSpace(v[i])
  }

  /** `v` with its leading whitespace removed. */
  function TrimStart(v: string): (r: string)
    ensures |r| <= |v| && r == v[|v| - |r|..]
    ensures forall i :: 0 <= i < |v| - |r| ==> IsSpace(v[i])
    ensures r == [] || !IsSpace(r[0])
    decreases |v|
  {
    if |v| > 0 && IsSpace(v[0]) then TrimStart(v[1..]) else v
  }

  /** `v` with its trailing whitespace removed. */
  function TrimEnd(v: string): (r: string)
    ensures |r| <= |v| && r == v[..|r|]
    ensures forall i :: |r| <= i < |v| ==> IsSpace(v[i])
    ensures r == [] || !IsSpace(r[|r| - 1])
    decreases |v|
  {
    if |v| > 0 && IsSpace(v[|v| - 1]) then TrimEnd(v[..|v| - 1]) else v
  }

  /** `v.strip()`: the value a character field keeps. */
  function Strip(v: string): (r: string)
    ensures |r| <= |v|
    ensures exists i, j :: 0 <= i <= j <= |v| && r == v[i..j] && Blank(v[..i]) && Blank(v[j..])
    ensures r == [] <==> Blank(v)
    ensures r != [] ==> !IsSpace(r[0]) && !IsSpace(r[|r| - 1])
  {
    var t := TrimStart(v);
    var r := TrimEnd(t);
    StripSlice(v, t, r);
    assert r == [] ==> Blank(t);
    assert r != [] ==> r[0] == t[0];
    r
  }

  /** A trimmed start followed by a trimmed end is a slice of `v` with only whitespace around it. */
  lemma StripSlice(v: string, t: string, r: string)
    requires |t| <= |v| && t == v[|v| - |t|..]
    requires forall k :: 0 <= k < |v| - |t| ==> IsSpace(v[k])
    requires |r| <= |t| && r == t[..|r|]
    requires forall k :: |r| <= k < |t| ==> IsSpace(t[k])
    ensures exists i, j :: 0 <= i <= j <= |v| && r == v[i..j] && Blank(v[..i]) && Blank(v[j..])
  {
    var i := |v| - |t|;
    var j := i + |r|;
    assert r == v[i..j];
    forall k | j <= k < |v| ensures IsSpace(v[k]) {
      assert v[k] == t[k - i];
    }
    BlankAround(v, i, j);
  }

  /** Whitespace-only positions before `i` and from `j` on make both outer slices blank. */
  lemma BlankAround(v: string, i: nat, j: nat)
    requires i <= j <= |v|
    requires forall k :: 0 <= k < i ==> IsSpace(v[k])
    requires forall k :: j <= k < |v| ==> IsSpace(v[k])
    ensures Blank(v[..i]) && Blank(v[j..])
  {
    forall k | 0 <= k < |v[..i]| ensures IsSpace(v[..i][k]) {
      assert v[..i][k] == v[k];
    }
    forall k | 0 <= k < |v[j..]| ensures IsSpace(v[j..][k]) {
      assert v[j..][k] == v[j + k];
    }
  }

  /** A value without surrounding whitespace is kept as it is. */
  lemma StripUnpadded(v: string)
    requires v != [] ==> !IsSpace(v[0]) && !IsSpace(v[|v| - 1])
    ensures Strip(v) == v
  {
    assert TrimStart(v) == v;
    assert TrimEnd(v) == v;
  }

  /** Trimming twice is trimming once. */
  lemma StripIdempotent(v: string)
    ensures Strip(Strip(v)) == Strip(v)
  {
    StripUnpadded(Strip(v));
  }

  // ---------------------------------------------------------------------------
  // Field rules
  // ---------------------------------------------------------------------------

  /** The outcome of one field's rules: the kept value, or a refusal. */
  datatype Checked = Accepted(value: string) | Refused

  /** One character field: required, not blank, trimmed, at most `maxLength` long after trimming. */
  function CheckText(input: Option<string>, maxLength: Option<nat>): (r: Checked)
    ensures r.Accepted? <==>
      && input.Some?
      && !Blank(input.value)
      && (maxLength.Some? ==> |Strip(input.value)| <= maxLength.value)
    ensures r.Accepted? ==> input.Some? && r.value == Strip(input.value) && r.value != []
  {
    match input
    case None => Refused
    case Some(v) =>
      var kept := Strip(v);
      if kept == [] then Refused
      else if maxLength.Some? && |kept| > maxLength.value then Refused
      else Accepted(kept)
  }

  /** The outcome of a whole form: its cleaned data, or the names of the refused fields in field order. */
  datatype Validated<T> = Clean(data: T) | Rejected(fields: seq<string>)

  /** The names of the refused fields among `checks`, in order. */
  function RefusedNames(checks: seq<(string, Checked)>): (r: seq<string>)
    ensures forall n :: n in r <==> exists i :: 0 <= i < |checks| && checks[i].0 == n && checks[i].1.Refused?
    ensures r == [] <==> forall i :: 0 <= i < |checks| ==> checks[i].1.Accepted?
  {
    if checks == [] then []
    else
      var rest := RefusedNames(checks[1..]);
      assert forall i :: 1 <= i < |checks| ==> checks[i] == checks[1..][i - 1];
      if checks[0].1.Refused? then [checks[0].0] + rest else rest
  }

  /** The refused names of one field: its name when it was refused. */
  function RefusedName(check: (string, Checked)): seq<string> {
    if check.1.Refused? then [check.0] else []
  }

  /** For two fields, the refused names are each field's name when it was refused, in field order. */
  lemma RefusedNamesOfTwo(a: (string, Checked), b: (string, Checked))
    ensures RefusedNames([a, b]) == RefusedName(a) + RefusedName(b)
  {
    assert [a, b][1..] == [b] && [b][1..] == [];
  }

  /** For three fields, the refused names are each field's name when it was refused, in field order. */
  lemma RefusedNamesOfThree(a: (string, Checked), b: (string, Checked), c: (string, Checked))
    ensures RefusedNames([a, b, c]) == RefusedName(a) + RefusedName(b) + RefusedName(c)
  {
    assert [a, b, c][1..] == [b, c];
    RefusedNamesOfTwo(b, c);
  }

  /** The `comment` form field. */
  datatype CommentForm = CommentForm(comment: Option<string>)

  /** The `title` and `desc` form fields. */
  datatype PostForm = PostForm(title: Option<string>, desc: Option<string>)

  /** The `username`, `email` and `password` form fields. */
  datatype UserForm = UserForm(username: Option<string>, email: Option<string>, password: Option<string>)

  /** The comment-creation serializer: its only field, `comment`, is required and not blank. */
  function ValidateComment(form: CommentForm): (r: Validated<string>)
    ensures r.Clean? <==> form.comment.Some? && !Blank(form.comment.value)
    ensures r.Clean? ==> r.data == Strip(form.comment.value)
    ensures r.Rejected? ==> r.fields == ["comment"]
  {
    match CheckText(form.comment, None)
    case Accepted(body) => Clean(body)
    case Refused => Rejected(["comment"])
  }

  /** What the post serializer reports when its `title` or `desc` is refused. */
  lemma PostRefusals(title: Checked, desc: Checked)
    requires title.Refused? || desc.Refused?
    ensures var r := RefusedNames([("title", title), ("desc", desc)]);
      && r != []
      && ("title" in r <==> title.Refused?)
      && ("desc" in r <==> desc.Refused?)
      && r == (if title.Refused? then ["title"] else []) + (if desc.Refused? then ["desc"] else [])
  {
    var checks := [("title", title), ("desc", desc)];
    RefusedNamesOfTwo(checks[0], checks[1]);
    assert checks[0].1 == title && checks[1].1 == desc;
  }

  /** The post-creation serializer: `title` (at most 100 characters) and `desc`, both required and not blank. */
  function ValidatePost(form: PostForm): (r: Validated<(string, string)>)
    ensures form.title.None? || form.desc.None? ==> r.Rejected?
    ensures r.Clean? <==>
      && form.title.Some? && !Blank(form.title.value) && |Strip(form.title.value)| <= TitleMaxLength
      && form.desc.Some? && !Blank(form.desc.value)
    ensures r.Clean? ==> r.data == (Strip(form.title.value), Strip(form.desc.value))
    ensures r.Rejected? ==> r.fields != []
    ensures r.Rejected? ==> ("title" in r.fields <==> CheckText(form.title, Some(TitleMaxLength)).Refused?)
    ensures r.Rejected? ==> ("desc" in r.fields <==> CheckText(form.desc, None).Refused?)
    ensures r.Rejected? ==>
              r.fields == (if CheckText(form.title, Some(TitleMaxLength)).Refused? then ["title"] else [])
                          + (if CheckText(form.desc, None).Refused? then ["desc"] else [])
  {
    var title := CheckText(form.title, Some(TitleMaxLength));
    var desc := CheckText(form.desc, None);
    if title.Accepted? && desc.Accepted? then Clean((title.value, desc.value))
    else
      PostRefusals(title, desc);
      Rejected(RefusedNames([("title", title), ("desc", desc)]))
  }

  /** Some existing user already has this username. */
  predicate UsernameTaken(s: State, name: string) {
    exists u :: u in s.users && s.users[u].username == name
  }

  /** Some existing user already has this email. */
  predicate EmailTaken(s: State, email: string) {
    exists u :: u in s.users && s.users[u].email == email
  }

  /** The username rules: the character-field rules with `max_length` 150, plus uniqueness. */
  function CheckUsername(s: State, input: Option<string>): (r: Checked)
    ensures r.Accepted? ==> !UsernameTaken(s, r.value)
    ensures r.Accepted? ==> input.Some? && r.value == Strip(input.value)
    ensures r.Accepted? <==> CheckText(input, Some(UsernameMaxLength)).Accepted? && !UsernameTaken(s, Strip(input.value))
  {
    var c := CheckText(input, Some(UsernameMaxLength));
    if c.Accepted? && !UsernameTaken(s, c.value) then c else Refused
  }

  /** The email rules: the character-field rules with `max_length` 254, plus uniqueness. */
  function CheckEmail(s: State, input: Option<string>): (r: Checked)
    ensures r.Accepted? ==> !EmailTaken(s, r.value)
    ensures r.Accepted? ==> input.Some? && r.value == Strip(input.value)
    ensures r.Accepted? <==> CheckText(input, Some(EmailMaxLength)).Accepted? && !EmailTaken(s, Strip(input.value))
  {
    var c := CheckText(input, Some(EmailMaxLength));
    if c.Accepted? && !EmailTaken(s, c.value) then c else Refused
  }

  /**
   The registration serializer: `username`, `email` and `password` all
   required; username and email unique. The cleaned data is the kept
   username and email (the password only goes to the hasher).
   */
  function ValidateUser(s: State, form: UserForm): (r: Validated<(string, string)>)
    ensures form.username.None? || form.email.None? || form.password.None? ==> r.Rejected?
    ensures r.Clean? ==>
      && r.data.0 == Strip(form.username.value) && r.data.0 != [] && |r.data.0| <= UsernameMaxLength
      && r.data.1 == Strip(form.email.value) && r.data.1 != [] && |r.data.1| <= EmailMaxLength
      && !UsernameTaken(s, r.data.0)
      && !EmailTaken(s, r.data.1)
    ensures r.Clean? <==>
      && CheckUsername(s, form.username).Accepted?
      && CheckEmail(s, form.email).Accepted?
      && CheckText(form.password, Some(PasswordMaxLength)).Accepted?
    ensures r.Rejected? ==> r.fields != []
    ensures r.Rejected? ==>
              r.fields == (if CheckUsername(s, form.username).Refused? then ["username"] else [])
                          + (if CheckEmail(s, form.email).Refused? then ["email"] else [])
                          + (if CheckText(form.password, Some(PasswordMaxLength)).Refused? then ["password"] else [])
  {
    var username := CheckUsername(s, form.username);
    var email := CheckEmail(s, form.email);
    var password := CheckText(form.password, Some(PasswordMaxLength));
    if username.Accepted? && email.Accepted? && password.Accepted? then
      Clean((username.value, email.value))
    else
      var checks := [("username", username), ("email", email), ("password", password)];
      assert checks[0].1 == username && checks[1].1 == email && checks[2].1 == password;
      RefusedNamesOfThree(checks[0], checks[1], checks[2]);
      Rejected(RefusedNames(checks))
  }

  // ---------------------------------------------------------------------------
  // Read views
  // ---------------------------------------------------------------------------

  /** What the user serializer shows: the username and the two edge counts. */
  datatype UserSummary = UserSummary(username: string, following: nat, followers: nat)

  /** One listed comment: its author's username and its body. */
  datatype CommentView = CommentView(author: string, body: string)

  /** One listed post. */
  datatype PostView = PostView(id: PostId, title: string, desc: string, comments: seq<CommentView>, likes: nat)

  function FollowingCount(s: State, u: UserId): nat {
    |Following(s, u)|
  }

  function FollowersCount(s: State, u: UserId): nat {
    |Followers(s, u)|
  }

  // ---------------------------------------------------------------------------
  // Counting edges: the follow counts against the edge relation
  // ---------------------------------------------------------------------------

  /** The outgoing edges of `u`. */
  function OutEdges(s: State, u: UserId): set<(UserId, UserId)> {
    set e | e in s.following && e.0 == u
  }

  /** The incoming edges of `u`. */
  function InEdges(s: State, u: UserId): set<(UserId, UserId)> {
    set e | e in s.following && e.1 == u
  }

  /** Pairs sharing their first component are as many as their second components. */
  lemma {:induction false} SecondsCount(edges: set<(UserId, UserId)>, u: UserId)
    requires forall e :: e in edges ==> e.0 == u
    ensures |set e | e in edges :: e.1| == |edges|
    decreases |edges|
  {
    if edges != {} {
      var e :| e in edges;
      var rest := edges - {e};
      SecondsCount(rest, u);
      var image := set x | x in edges :: x.1;
      var restImage := set x | x in rest :: x.1;
      assert image == restImage + {e.1};
      assert e.1 !in restImage;
    }
  }

  /** Pairs sharing their second component are as many as their first components. */
  lemma {:induction false} FirstsCount(edges: set<(UserId, UserId)>, u: UserId)
    requires forall e :: e in edges ==> e.1 == u
    ensures |set e | e in edges :: e.0| == |edges|
    decreases |edges|
  {
    if edges != {} {
      var e :| e in edges;
      var rest := edges - {e};
      FirstsCount(rest, u);
      var image := set x | x in edges :: x.0;
      var restImage := set x | x in rest :: x.0;
      assert image == restImage + {e.0};
      assert e.0 !in restImage;
    }
  }

  /** The following count is the number of outgoing edges. */
  lemma FollowingCountIsOutDegree(s: State, u: UserId)
    ensures FollowingCount(s, u) == |OutEdges(s, u)|
  {
    SecondsCount(OutEdges(s, u), u);
    assert Following(s, u) == set e | e in OutEdges(s, u) :: e.1;
  }

  /** The followers count is the number of incoming edges. */
  lemma FollowersCountIsInDegree(s: State, u: UserId)
    ensures FollowersCount(s, u) == |InEdges(s, u)|
  {
    FirstsCount(InEdges(s, u), u);
    assert Followers(s, u) == set e | e in InEdges(s, u) :: e.0;
  }

  /** The user serializer applied to `u`. */
  function SummarizeUser(s: State, u: UserId): (r: UserSummary)
    requires u in s.users
    ensures r.username == s.users[u].username
    ensures r.following == |OutEdges(s, u)| && r.followers == |InEdges(s, u)|
  {
    FollowingCountIsOutDegree(s, u);
    FollowersCountIsInDegree(s, u);
    UserSummary(s.users[u].username, FollowingCount(s, u), FollowersCount(s, u))
  }

  /** The like count of a post: the size of its like-set. */
  function LikeCount(s: State, p: PostId): nat
    requires p in s.posts
  {
    |s.posts[p].likes|
  }

  /** The comment serializer applied to one comment: the author is shown by username. */
  function RenderComment(s: State, c: Comment): (r: CommentView)
    requires c.author in s.users
    ensures r.author == s.users[c.author].username && r.body == c.body
  {
    CommentView(s.users[c.author].username, c.body)
  }

  /** The comment list of post `p`: one rendered entry per comment whose parent is `p`, oldest first. */
  function CommentList(s: State, p: PostId): (r: seq<CommentView>)
    requires CommentsValid(s)
    ensures |r| == |CommentIdsOf(s, p)|
    ensures forall i :: 0 <= i < |r| ==>
      var c := CommentIdsOf(s, p)[i];
      c in s.comments && s.comments[c].post == p && r[i] == RenderComment(s, s.comments[c])
  {
    var ids := CommentIdsOf(s, p);
    assert forall i :: 0 <= i < |ids| ==> ids[i] in ids;
    seq(|ids|, i requires 0 <= i < |ids| => RenderComment(s, s.comments[ids[i]]))
  }

  /** The post serializer applied to post `p`. */
  function RenderPost(s: State, p: PostId): (r: PostView)
    requires Valid(s)
    requires p in s.posts
    ensures r.id == p && r.title == s.posts[p].title && r.desc == s.posts[p].desc
    ensures r.likes == |set u | u in s.users && p in LikedPosts(s, u)|
    ensures |r.comments| == |set c | c in s.comments && s.comments[c].post == p|
    ensures r.comments == CommentList(s, p)
  {
    var post := s.posts[p];
    LikersAreLikes(s, p);
    CommentIdsOfCount(s, p);
    PostView(p, post.title, post.desc, CommentList(s, p), LikeCount(s, p))
  }
}
