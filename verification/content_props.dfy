/**
 Properties of the post lifecycle: creation needs both fields and yields an
 owned, unliked, uncommented post at the end of its owner's list; deletion is
 for the owner only and takes the post's comments and likes with it; and the
 create/delete round trip.
 */
module ContentProps {
  import opened Models
  import opened Serializers
  import opened Views
  import Decimal

  // ---------------------------------------------------------------------------
  // Creation
  // ---------------------------------------------------------------------------

  /** Without a title or without a description no post is created. */
  lemma CreatePostNeedsBothFields(s: State, actor: UserId, form: PostForm)
    requires actor in s.users
    requires form.title.None? || form.desc.None?
    ensures CreatePost(s, actor, form).reply.Err? && CreatePost(s, actor, form).reply.status == 400
    ensures CreatePost(s, actor, form).state == s
  {
  }

  /**
   A created post is new, owned by the caller, has no likes and no comments,
   and is appended to the caller's own list; other users' lists do not change.
   */
  lemma CreatePostEffect(s: State, actor: UserId, form: PostForm, u: UserId)
    requires Valid(s)
    requires actor in s.users
    requires CreatePost(s, actor, form).reply.Ok?
    ensures var s' := CreatePost(s, actor, form).state;
      var id := s.nextPost;
      && id !in s.posts
      && s'.posts[id].owner == actor
      && LikeCount(s', id) == 0
      && CommentIdsOf(s', id) == []
      && OwnPostIds(s', u) == (if u == actor then OwnPostIds(s, u) + [id] else OwnPostIds(s, u))
  {
    AddPostEffect(s, Post(actor, Strip(form.title.value), Strip(form.desc.value), {}), u);
  }

  /**
   Storing a post under the next post id: the id was unused, the post has no
   comments, and it is appended to its owner's list and to no other.
   */
  lemma AddPostEffect(s: State, post: Post, u: UserId)
    requires Valid(s)
    ensures var n := s.nextPost;
      var s' := s.(posts := s.posts[n := post], nextPost := n + 1);
      && n !in s.posts
      && CommentIdsOf(s', n) == []
      && OwnPostIds(s', u) == OwnPostIds(s, u) + (if post.owner == u then [n] else [])
  {
    var n := s.nextPost;
    var s' := s.(posts := s.posts[n := post], nextPost := n + 1);
    CollectExtend(s.posts, (p: Post) => p.owner == u, n, post);
    CollectNone(s'.comments, (c: Comment) => c.post == n, s'.nextComment);
  }

  /**
   The first post of a user who had none: listing their posts shows exactly
   that post, with the kept title and description, no comments and no likes.
   */
  lemma OnlyPostListed(s: State, actor: UserId, form: PostForm)
    requires Valid(s)
    requires actor in s.users
    requires OwnPostIds(s, actor) == []
    requires CreatePost(s, actor, form).reply.Ok?
    ensures var s' := CreatePost(s, actor, form).state;
      && Valid(s')
      && GetPosts(s', actor).body.views ==
        [PostView(s.nextPost, Strip(form.title.value), Strip(form.desc.value), [], 0)]
  {
    var s' := CreatePost(s, actor, form).state;
    CreatePostEffect(s, actor, form, actor);
    CreatePostPreservesValid(s, actor, form);
    var views := GetPosts(s', actor).body.views;
    assert OwnPostIds(s', actor) == [s.nextPost];
    assert |views| == 1;
    assert views[0] == RenderPost(s', s.nextPost);
    assert CommentList(s', s.nextPost) == [];
  }

  // ---------------------------------------------------------------------------
  // Reading and deletion
  // ---------------------------------------------------------------------------

  /** The delete guards, in order, each leaving the database unchanged. */
  lemma DeleteChecks(s: State, actor: UserId, id: PostId)
    requires actor in s.users
    ensures id !in s.posts ==>
      DeletePost(s, actor, id) == Step(Err(404, NotFound, Message("Post not found")), s)
    ensures id in s.posts && s.posts[id].owner != actor ==>
      DeletePost(s, actor, id) == Step(Err(400, NotOwner, Message("You cannot delete this post")), s)
  {
  }

  /** Another user's delete request is refused and the post can still be read. */
  lemma DeleteByOtherKeepsPost(s: State, actor: UserId, id: PostId)
    requires actor in s.users
    requires id in s.posts && s.posts[id].owner != actor
    ensures var r := DeletePost(s, actor, id);
      && r.reply == Err(400, NotOwner, Message("You cannot delete this post"))
      && GetPost(r.state, id) == GetPost(s, id)
      && GetPost(r.state, id).Ok?
  {
  }

  /**
   The owner's delete removes the post, every comment on it and every like
   of it; the other posts keep their comment lists and the follow graph is untouched.
   */
  lemma DeleteCascades(s: State, actor: UserId, id: PostId, p: PostId, u: UserId)
    requires actor in s.users
    requires DeletePost(s, actor, id).reply.Ok?
    ensures var s' := DeletePost(s, actor, id).state;
      && GetPost(s', id) == Err(404, NotFound, Message("Post not found"))
      && CommentIdsOf(s', id) == []
      && (p != id ==> CommentIdsOf(s', p) == CommentIdsOf(s, p))
      && LikedPosts(s', u) == LikedPosts(s, u) - {id}
      && s'.users == s.users && s'.following == s.following
  {
    var s' := DeletePost(s, actor, id).state;
    if p != id {
      CollectFrame(s.comments, s'.comments, (c: Comment) => c.post == p, s.nextComment);
    }
    CollectNone(s'.comments, (c: Comment) => c.post == id, s'.nextComment);
  }

  /** Removing a post that was just added under a fresh id gives back the database before it. */
  lemma RemoveAddedPost(s: State, post: Post)
    requires Valid(s)
    ensures RemovePost(s.(posts := s.posts[s.nextPost := post], nextPost := s.nextPost + 1), s.nextPost)
      == s.(nextPost := s.nextPost + 1)
  {
    var n := s.nextPost;
    var s1 := s.(posts := s.posts[n := post], nextPost := n + 1);
    assert n !in s.posts;
    assert s1.posts - {n} == s.posts;
    assert forall c :: c in s.comments ==> s.comments[c].post != n;
    assert RemovePost(s1, n).comments == s.comments;
  }

  /** Creating a post and then deleting it as its owner leaves only the id counter advanced. */
  lemma CreateThenDelete(s: State, actor: UserId, form: PostForm)
    requires Valid(s)
    requires actor in s.users
    requires CreatePost(s, actor, form).reply.Ok?
    ensures var s1 := CreatePost(s, actor, form).state;
      var r2 := DeletePost(s1, actor, s.nextPost);
      && r2.reply.Ok?
      && r2.state == s.(nextPost := s.nextPost + 1)
  {
    var post := Post(actor, Strip(form.title.value), Strip(form.desc.value), {});
    RemoveAddedPost(s, post);
  }

  // ---------------------------------------------------------------------------
  // Finding: the delete message as written
  // ---------------------------------------------------------------------------

  /**
   As written, two successful deletes of different posts answer with the same
   message, which names no post; the corrected message names each post.
   */
  lemma DeleteMessageNamesNoPost(s: State, actor: UserId, p: PostId, q: PostId)
    requires actor in s.users
    requires p != q
    requires DeletePost(s, actor, p).reply.Ok? && DeletePost(s, actor, q).reply.Ok?
    ensures DeletePostAsWritten(s, actor, p).reply.Ok? && DeletePostAsWritten(s, actor, q).reply.Ok?
    ensures DeletePostAsWritten(s, actor, p).reply.body == DeletePostAsWritten(s, actor, q).reply.body
    ensures DeletePost(s, actor, p).reply.body != DeletePost(s, actor, q).reply.body
  {
    var mp := "Post " + Decimal.Show(p) + " deleted successfully";
    var mq := "Post " + Decimal.Show(q) + " deleted successfully";
    if mp == mq {
      var sp := Decimal.Show(p);
      var sq := Decimal.Show(q);
      var k := |"Post "|;
      assert |sp| == |sq|;
      assert sp == mp[k..k + |sp|];
      assert sq == mq[k..k + |sq|];
      Decimal.ShowInjective(p, q);
    }
  }

  // ---------------------------------------------------------------------------
  // Preservation of the constraints
  // ---------------------------------------------------------------------------

  /** Adding a post owned by an existing user, with a title within bounds and no likes, keeps the constraints. */
  lemma AddPostPreservesValid(s: State, post: Post)
    requires Valid(s)
    requires post.owner in s.users && post.likes == {} && |post.title| <= TitleMaxLength
    ensures Valid(s.(posts := s.posts[s.nextPost := post], nextPost := s.nextPost + 1))
  {
    var s' := s.(posts := s.posts[s.nextPost := post], nextPost := s.nextPost + 1);
    assert PostsValid(s') by {
      forall p | p in s'.posts ensures PostValid(s', s'.posts[p]) {
        if p in s.posts {
          assert PostValid(s, s.posts[p]);
        }
      }
    }
  }

  lemma CreatePostPreservesValid(s: State, actor: UserId, form: PostForm)
    requires Valid(s)
    requires actor in s.users
    ensures Valid(CreatePost(s, actor, form).state)
  {
    if CreatePost(s, actor, form).reply.Ok? {
      AddPostPreservesValid(s, Post(actor, Strip(form.title.value), Strip(form.desc.value), {}));
    }
  }

  /** Removing a post with its comments keeps the constraints. */
  lemma RemovePostPreservesValid(s: State, id: PostId)
    requires Valid(s)
    ensures Valid(RemovePost(s, id))
  {
    var s' := RemovePost(s, id);
    assert KeysBelowCounters(s');
    assert UniqueCredentials(s');
    assert FollowEdgesValid(s');
    assert PostsValid(s') by {
      forall p | p in s'.posts ensures PostValid(s', s'.posts[p]) {
        assert PostValid(s, s.posts[p]);
      }
    }
    assert CommentsValid(s') by {
      forall c | c in s'.comments
        ensures s'.comments[c].author in s'.users && s'.comments[c].post in s'.posts
      {
        assert s.comments[c].post != id;
      }
    }
  }

  lemma DeletePreservesValid(s: State, actor: UserId, id: PostId)
    requires Valid(s)
    requires actor in s.users
    ensures Valid(DeletePost(s, actor, id).state)
  {
    if DeletePost(s, actor, id).reply.Ok? {
      RemovePostPreservesValid(s, id);
    }
  }
}
