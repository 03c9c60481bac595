/**
 Properties of likes and comments: the order of the guards, what a
 successful call changes, the like/unlike round trip, the owner never being
 in their own post's like-set, comments landing at the end of exactly one
 post's comment list, and preservation of the database constraints.
 */
module EngagementProps {
  import opened Models
  import opened Serializers
  import opened Views
  import Decimal

  // ---------------------------------------------------------------------------
  // Likes
  // ---------------------------------------------------------------------------

  /** The like guards, in order, each leaving the database unchanged. */
  lemma LikeChecks(s: State, actor: UserId, id: PostId)
    requires actor in s.users
    ensures id !in s.posts ==>
      LikePost(s, actor, id) == Step(Err(404, NotFound, Message("Post not found")), s)
    ensures id in s.posts && s.posts[id].owner == actor ==>
      LikePost(s, actor, id) == Step(Err(400, SelfLike, Message("You cannot like your own post")), s)
    ensures id in s.posts && s.posts[id].owner != actor && actor in s.posts[id].likes ==>
      LikePost(s, actor, id) == Step(Err(400, AlreadyLiked, Message("You have already liked this post")), s)
  {
  }

  /** The unlike guards, in order, each leaving the database unchanged. */
  lemma UnlikeChecks(s: State, actor: UserId, id: PostId)
    requires actor in s.users
    ensures id !in s.posts ==>
      UnlikePost(s, actor, id) == Step(Err(404, NotFound, Message("Post not found")), s)
    ensures id in s.posts && s.posts[id].owner == actor ==>
      UnlikePost(s, actor, id) == Step(Err(400, SelfLike, Message("You cannot unlike your own post")), s)
    ensures id in s.posts && s.posts[id].owner != actor && actor !in s.posts[id].likes ==>
      UnlikePost(s, actor, id) == Step(Err(400, NotLiked, Message("You have not liked this post")), s)
  {
  }

  /**
   A successful like adds this post to the caller's liked posts, leaves every
   other user's liked posts alone and raises the post's like count by one.
   */
  lemma LikeTouchesOnlyOneMembership(s: State, actor: UserId, id: PostId, u: UserId)
    requires actor in s.users
    requires LikePost(s, actor, id).reply.Ok?
    ensures var s' := LikePost(s, actor, id).state;
      && LikedPosts(s', u) == (if u == actor then LikedPosts(s, u) + {id} else LikedPosts(s, u))
      && LikeCount(s', id) == LikeCount(s, id) + 1
  {
  }

  /**
   A successful unlike removes this post from the caller's liked posts, leaves
   every other user's liked posts alone and lowers the post's like count by one.
   */
  lemma UnlikeTouchesOnlyOneMembership(s: State, actor: UserId, id: PostId, u: UserId)
    requires actor in s.users
    requires UnlikePost(s, actor, id).reply.Ok?
    ensures var s' := UnlikePost(s, actor, id).state;
      && LikedPosts(s', u) == (if u == actor then LikedPosts(s, u) - {id} else LikedPosts(s, u))
      && LikeCount(s', id) == LikeCount(s, id) - 1
  {
  }

  /** Liking the same post twice: the second request is refused and the count stays one higher. */
  lemma LikeTwice(s: State, actor: UserId, id: PostId)
    requires actor in s.users
    requires LikePost(s, actor, id).reply.Ok?
    ensures var s1 := LikePost(s, actor, id).state;
      var r2 := LikePost(s1, actor, id);
      && r2.reply == Err(400, AlreadyLiked, Message("You have already liked this post"))
      && r2.state == s1
      && LikeCount(s1, id) == LikeCount(s, id) + 1
  {
    LikeTouchesOnlyOneMembership(s, actor, id, actor);
  }

  /** Liking one's own post fails whatever the like-set holds. */
  lemma LikeOwnPostFails(s: State, actor: UserId, id: PostId)
    requires actor in s.users
    requires id in s.posts && s.posts[id].owner == actor
    ensures LikePost(s, actor, id).reply.Err? && LikePost(s, actor, id).reply.kind == SelfLike
    ensures LikePost(s, actor, id).state == s
  {
  }

  /**
   In a valid database the owner is not in their own post's like-set, so the
   unlike guard against one's own post only ever refuses a request that the
   not-liked guard would have refused as well.
   */
  lemma UnlikeOwnPostGuardIsRedundant(s: State, actor: UserId, id: PostId)
    requires Valid(s)
    requires actor in s.users
    requires id in s.posts && s.posts[id].owner == actor
    ensures actor !in s.posts[id].likes
    ensures UnlikePost(s, actor, id).reply.Err? && UnlikePost(s, actor, id).reply.kind == SelfLike
  {
    assert PostValid(s, s.posts[id]);
  }

  /** Like then unlike of the same post restores the database exactly. */
  lemma LikeThenUnlike(s: State, actor: UserId, id: PostId)
    requires actor in s.users
    requires LikePost(s, actor, id).reply.Ok?
    ensures var s1 := LikePost(s, actor, id).state;
      UnlikePost(s1, actor, id).reply.Ok? && UnlikePost(s1, actor, id).state == s
  {
    var post := s.posts[id];
    var s1 := LikePost(s, actor, id).state;
    var s2 := UnlikePost(s1, actor, id).state;
    assert s2.posts[id].likes == post.likes;
    assert s2.posts == s.posts;
  }

  /** Unlike then like of the same post restores the database exactly. */
  lemma UnlikeThenLike(s: State, actor: UserId, id: PostId)
    requires actor in s.users
    requires UnlikePost(s, actor, id).reply.Ok?
    ensures var s1 := UnlikePost(s, actor, id).state;
      LikePost(s1, actor, id).reply.Ok? && LikePost(s1, actor, id).state == s
  {
    var post := s.posts[id];
    var s1 := UnlikePost(s, actor, id).state;
    var s2 := LikePost(s1, actor, id).state;
    assert s2.posts[id].likes == post.likes;
    assert s2.posts == s.posts;
  }

  lemma LikePreservesValid(s: State, actor: UserId, id: PostId)
    requires Valid(s)
    requires actor in s.users
    ensures Valid(LikePost(s, actor, id).state)
  {
    var s' := LikePost(s, actor, id).state;
    assert PostsValid(s') by {
      forall p | p in s'.posts ensures PostValid(s', s'.posts[p]) {
        assert PostValid(s, s.posts[p]);
      }
    }
  }

  lemma UnlikePreservesValid(s: State, actor: UserId, id: PostId)
    requires Valid(s)
    requires actor in s.users
    ensures Valid(UnlikePost(s, actor, id).state)
  {
    var s' := UnlikePost(s, actor, id).state;
    assert PostsValid(s') by {
      forall p | p in s'.posts ensures PostValid(s', s'.posts[p]) {
        assert PostValid(s, s.posts[p]);
      }
    }
  }

  // ---------------------------------------------------------------------------
  // Comments
  // ---------------------------------------------------------------------------

  /** A missing post is reported before the comment form is looked at. */
  lemma CommentChecksPostFirst(s: State, actor: UserId, id: PostId, form: CommentForm)
    requires actor in s.users
    requires id !in s.posts
    ensures CommentPost(s, actor, id, form) == Step(Err(404, NotFound, Message("Post not found")), s)
  {
  }

  /** Without the `comment` field the request is refused naming that field, and nothing is created. */
  lemma CommentNeedsBody(s: State, actor: UserId, id: PostId)
    requires actor in s.users
    requires id in s.posts
    ensures CommentPost(s, actor, id, CommentForm(None)) ==
      Step(Err(400, ValidationError, FormErrors("Comment creation failed", ["comment"])), s)
  {
  }

  /**
   A successful comment gets an id no comment had, lands at the end of its
   post's comment list, and leaves every other post's list unchanged.
   */
  lemma CommentAppends(s: State, actor: UserId, id: PostId, form: CommentForm, p: PostId)
    requires Valid(s)
    requires actor in s.users
    requires CommentPost(s, actor, id, form).reply.Ok?
    ensures s.nextComment !in s.comments
    ensures var s' := CommentPost(s, actor, id, form).state;
      CommentIdsOf(s', p) == (if p == id then CommentIdsOf(s, p) + [s.nextComment] else CommentIdsOf(s, p))
  {
    var c := Comment(actor, id, Strip(form.comment.value));
    AddCommentAppends(s, c, p);
  }

  /** Adding a comment under the next comment id appends it to its post's list only. */
  lemma AddCommentAppends(s: State, c: Comment, p: PostId)
    requires forall x :: x in s.comments ==> x < s.nextComment
    ensures var s' := s.(comments := s.comments[s.nextComment := c], nextComment := s.nextComment + 1);
      CommentIdsOf(s', p) == CommentIdsOf(s, p) + (if c.post == p then [s.nextComment] else [])
  {
    CollectExtend(s.comments, (c: Comment) => c.post == p, s.nextComment, c);
  }

  /** The comment list of the post gains one entry: the caller's username and the kept body. */
  lemma CommentListed(s: State, actor: UserId, id: PostId, form: CommentForm)
    requires Valid(s)
    requires actor in s.users
    requires CommentPost(s, actor, id, form).reply.Ok?
    ensures CommentsValid(CommentPost(s, actor, id, form).state)
    ensures var s' := CommentPost(s, actor, id, form).state;
      CommentList(s', id) == CommentList(s, id) + [CommentView(s.users[actor].username, Strip(form.comment.value))]
  {
    AddCommentListed(s, Comment(actor, id, Strip(form.comment.value)));
  }

  /**
   Storing a comment by an existing user on an existing post under the next
   comment id adds its rendering at the end of that post's comment list.
   */
  lemma AddCommentListed(s: State, c: Comment)
    requires CommentsValid(s)
    requires forall x :: x in s.comments ==> x < s.nextComment
    requires c.author in s.users && c.post in s.posts
    ensures var s' := s.(comments := s.comments[s.nextComment := c], nextComment := s.nextComment + 1);
      && CommentsValid(s')
      && CommentList(s', c.post) == CommentList(s, c.post) + [CommentView(s.users[c.author].username, c.body)]
  {
    var s' := s.(comments := s.comments[s.nextComment := c], nextComment := s.nextComment + 1);
    AddCommentAppends(s, c, c.post);
    var before := CommentList(s, c.post);
    var after := CommentList(s', c.post);
    var ids := CommentIdsOf(s, c.post);
    assert |after| == |before| + 1;
    forall i | 0 <= i < |before|
      ensures after[i] == before[i]
    {
      var k := ids[i];
      assert CommentIdsOf(s', c.post)[i] == k;
      assert k in ids;
      assert k in s.comments && k != s.nextComment;
      assert s'.comments[k] == s.comments[k];
    }
    assert CommentIdsOf(s', c.post)[|before|] == s.nextComment;
  }

  lemma CommentPreservesValid(s: State, actor: UserId, id: PostId, form: CommentForm)
    requires Valid(s)
    requires actor in s.users
    ensures Valid(CommentPost(s, actor, id, form).state)
  {
    if CommentPost(s, actor, id, form).reply.Ok? {
      AddCommentPreservesValid(s, Comment(actor, id, Strip(form.comment.value)));
    }
  }

  /** Storing a comment by an existing user on an existing post under the next comment id keeps the constraints. */
  lemma AddCommentPreservesValid(s: State, c: Comment)
    requires Valid(s)
    requires c.author in s.users && c.post in s.posts
    ensures Valid(s.(comments := s.comments[s.nextComment := c], nextComment := s.nextComment + 1))
  {
    var s' := s.(comments := s.comments[s.nextComment := c], nextComment := s.nextComment + 1);
    assert PostsValid(s') by {
      forall p | p in s'.posts ensures PostValid(s', s'.posts[p]) {
        assert PostValid(s, s.posts[p]);
      }
    }
  }
}
