/**
 Properties of registration, the user view and the follow relation: the order
 of the follow/unfollow guards, what a successful call changes, how the
 counts move, the follow/unfollow round trip and preservation of the
 database constraints.
 */
module IdentityProps {
  import opened Models
  import opened Serializers
  import opened Views

  // ---------------------------------------------------------------------------
  // Follow and unfollow
  // ---------------------------------------------------------------------------

  /** The follow guards, in order, each leaving the database unchanged. */
  lemma FollowChecks(s: State, actor: UserId, id: UserId)
    requires actor in s.users
    ensures id !in s.users ==>
      FollowUser(s, actor, id) == Step(Err(400, NotFound, Message("User not found")), s)
    ensures id in s.users && id == actor ==>
      FollowUser(s, actor, id) == Step(Err(400, SelfReference, Message("You cannot follow yourself")), s)
    ensures id in s.users && id != actor && id in Following(s, actor) ==>
      FollowUser(s, actor, id) == Step(Err(400, AlreadyFollowing, Message("You are already following this user")), s)
  {
  }

  /** The unfollow guards, in order, each leaving the database unchanged. */
  lemma UnfollowChecks(s: State, actor: UserId, id: UserId)
    requires actor in s.users
    ensures id !in s.users ==>
      UnfollowUser(s, actor, id) == Step(Err(400, NotFound, Message("User not found")), s)
    ensures id in s.users && id == actor ==>
      UnfollowUser(s, actor, id) == Step(Err(400, SelfReference, Message("You cannot unfollow yourself")), s)
    ensures id in s.users && id != actor && id !in Following(s, actor) ==>
      UnfollowUser(s, actor, id) == Step(Err(400, NotFollowing, Message("You are not following this user")), s)
  {
  }

  /**
   A successful follow touches no other user's following set, adds the caller
   to the target's followers and to no one else's.
   */
  lemma FollowTouchesOnlyTheEdge(s: State, actor: UserId, id: UserId, u: UserId)
    requires actor in s.users
    requires FollowUser(s, actor, id).reply.Ok?
    ensures var s' := FollowUser(s, actor, id).state;
      && (u != actor ==> Following(s', u) == Following(s, u))
      && Followers(s', u) == (if u == id then Followers(s, u) + {actor} else Followers(s, u))
  {
    var s' := FollowUser(s, actor, id).state;
    assert s'.following == s.following + {(actor, id)};
  }

  /** A successful follow raises the caller's following count and the target's followers count by one. */
  lemma FollowCounts(s: State, actor: UserId, id: UserId)
    requires actor in s.users
    requires FollowUser(s, actor, id).reply.Ok?
    ensures var s' := FollowUser(s, actor, id).state;
      && FollowingCount(s', actor) == FollowingCount(s, actor) + 1
      && FollowersCount(s', id) == FollowersCount(s, id) + 1
  {
    var s' := FollowUser(s, actor, id).state;
    FollowTouchesOnlyTheEdge(s, actor, id, id);
    FollowersIsInverse(s, id, actor);
  }

  /** A successful unfollow lowers both counts by one. */
  lemma UnfollowCounts(s: State, actor: UserId, id: UserId)
    requires actor in s.users
    requires UnfollowUser(s, actor, id).reply.Ok?
    ensures var s' := UnfollowUser(s, actor, id).state;
      && FollowingCount(s', actor) == FollowingCount(s, actor) - 1
      && FollowersCount(s', id) == FollowersCount(s, id) - 1
  {
    var s' := UnfollowUser(s, actor, id).state;
    assert s'.following == s.following - {(actor, id)};
    assert Followers(s', id) == Followers(s, id) - {actor};
    FollowersIsInverse(s, id, actor);
  }

  /** Following is directed: a follow never makes the target follow the caller. */
  lemma FollowIsDirected(s: State, actor: UserId, id: UserId)
    requires actor in s.users
    requires actor !in Following(s, id)
    ensures actor !in Following(FollowUser(s, actor, id).state, id)
  {
    var r := FollowUser(s, actor, id);
    if r.reply.Ok? {
      assert r.state.following == s.following + {(actor, id)};
    }
  }

  /** Following the same user twice: the second request is refused and records nothing. */
  lemma FollowTwice(s: State, actor: UserId, id: UserId)
    requires actor in s.users
    requires FollowUser(s, actor, id).reply.Ok?
    ensures var s1 := FollowUser(s, actor, id).state;
      var r2 := FollowUser(s1, actor, id);
      && r2.reply == Err(400, AlreadyFollowing, Message("You are already following this user"))
      && r2.state == s1
      && FollowingCount(s1, actor) == FollowingCount(s, actor) + 1
  {
    FollowCounts(s, actor, id);
  }

  /** Follow then unfollow of the same user restores the database exactly. */
  lemma FollowThenUnfollow(s: State, actor: UserId, id: UserId)
    requires actor in s.users
    requires FollowUser(s, actor, id).reply.Ok?
    ensures var s1 := FollowUser(s, actor, id).state;
      UnfollowUser(s1, actor, id).reply.Ok? && UnfollowUser(s1, actor, id).state == s
  {
    var s1 := FollowUser(s, actor, id).state;
    assert s1.following == s.following + {(actor, id)};
    var s2 := UnfollowUser(s1, actor, id).state;
    assert s2.following == s.following;
  }

  /** Unfollow then follow of the same user restores the database exactly. */
  lemma UnfollowThenFollow(s: State, actor: UserId, id: UserId)
    requires actor in s.users
    requires UnfollowUser(s, actor, id).reply.Ok?
    ensures var s1 := UnfollowUser(s, actor, id).state;
      FollowUser(s1, actor, id).reply.Ok? && FollowUser(s1, actor, id).state == s
  {
    var s1 := UnfollowUser(s, actor, id).state;
    assert s1.following == s.following - {(actor, id)};
    var s2 := FollowUser(s1, actor, id).state;
    assert s2.following == s.following;
  }

  /**
   The same follow request issued `n` times in a row: the replies, and the
   database after the last one.
   */
  function FollowRepeatedly(s: State, actor: UserId, id: UserId, n: nat): (r: (seq<Reply>, State))
    requires actor in s.users
    ensures |r.0| == n
    decreases n
  {
    if n == 0 then ([], s)
    else
      var first := FollowUser(s, actor, id);
      var rest := FollowRepeatedly(first.state, actor, id, n - 1);
      ([first.reply] + rest.0, rest.1)
  }

  /** The number of successes among `replies`. */
  function Successes(replies: seq<Reply>): nat {
    if replies == [] then 0
    else (if replies[0].Ok? then 1 else 0) + Successes(replies[1..])
  }

  /**
   Repeating a follow request applies it at most once: a fresh edge is recorded
   by exactly the first request and every later one is refused.
   */
  lemma {:induction false} FollowRepeatedlyAppliesOnce(s: State, actor: UserId, id: UserId, n: nat)
    requires actor in s.users
    requires 1 <= n
    ensures var r := FollowRepeatedly(s, actor, id, n);
      && Successes(r.0) == (if FollowUser(s, actor, id).reply.Ok? then 1 else 0)
      && r.1 == FollowUser(s, actor, id).state
    decreases n
  {
    var first := FollowUser(s, actor, id);
    var s1 := first.state;
    assert FollowUser(s1, actor, id).reply.Err? && FollowUser(s1, actor, id).state == s1 by {
      if first.reply.Ok? {
        FollowTwice(s, actor, id);
      }
    }
    if n > 1 {
      FollowRepeatedlyAppliesOnce(s1, actor, id, n - 1);
      var rest := FollowRepeatedly(s1, actor, id, n - 1);
      assert FollowRepeatedly(s1, actor, id, n - 1).1 == FollowUser(s1, actor, id).state;
      assert Successes(rest.0) == 0;
      var all := [first.reply] + rest.0;
      assert all[1..] == rest.0;
    } else {
      assert FollowRepeatedly(s, actor, id, n).0 == [first.reply];
      assert [first.reply][1..] == [];
    }
  }

  // ---------------------------------------------------------------------------
  // Registration and the user view
  // ---------------------------------------------------------------------------

  /** A registration with a missing field is refused, with status 200, and adds nobody. */
  lemma RegisterNeedsAllFields(s: State, form: UserForm)
    requires form.username.None? || form.email.None? || form.password.None?
    ensures Register(s, form).reply.Err? && Register(s, form).reply.status == 200
    ensures Register(s, form).state == s
  {
  }

  /** The user view of a fresh registrant shows zero following and zero followers. */
  lemma FreshUserHasNoEdges(s: State, form: UserForm)
    requires Valid(s)
    requires Register(s, form).reply.Ok?
    ensures var s' := Register(s, form).state;
      GetUser(s', s.nextUser).body.summary == UserSummary(Strip(form.username.value), 0, 0)
  {
    var s' := Register(s, form).state;
    var u := s.nextUser;
    assert forall e :: e in s'.following ==> e.0 != u && e.1 != u;
    assert Following(s', u) == {};
    assert Followers(s', u) == {};
  }

  // ---------------------------------------------------------------------------
  // Preservation of the constraints
  // ---------------------------------------------------------------------------

  /** Adding a user whose username and email are both free keeps the constraints. */
  lemma AddUserPreservesValid(s: State, username: string, email: string)
    requires Valid(s)
    requires !UsernameTaken(s, username) && !EmailTaken(s, email)
    ensures Valid(s.(users := s.users[s.nextUser := User(username, email)], nextUser := s.nextUser + 1))
  {
    var s' := s.(users := s.users[s.nextUser := User(username, email)], nextUser := s.nextUser + 1);
    assert KeysBelowCounters(s');
    assert UniqueCredentials(s');
    assert FollowEdgesValid(s');
    assert PostsValid(s') by {
      forall p | p in s'.posts ensures PostValid(s', s'.posts[p]) {
        assert PostValid(s, s.posts[p]);
      }
    }
  }

  lemma RegisterPreservesValid(s: State, form: UserForm)
    requires Valid(s)
    ensures Valid(Register(s, form).state)
  {
    var v := ValidateUser(s, form);
    if v.Clean? {
      AddUserPreservesValid(s, v.data.0, v.data.1);
    }
  }

  lemma FollowPreservesValid(s: State, actor: UserId, id: UserId)
    requires Valid(s)
    requires actor in s.users
    ensures Valid(FollowUser(s, actor, id).state)
  {
    var r := FollowUser(s, actor, id);
    if r.reply.Ok? {
      assert r.state.following == s.following + {(actor, id)};
    }
  }

  lemma UnfollowPreservesValid(s: State, actor: UserId, id: UserId)
    requires Valid(s)
    requires actor in s.users
    ensures Valid(UnfollowUser(s, actor, id).state)
  {
  }
}
