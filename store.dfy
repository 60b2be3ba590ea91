/**
 * The relational store behind the views: one table per model, the primary-key
 * sequences, and a clock standing in for `auto_now_add`. Valid() is what the
 * schema guarantees between requests: every foreign key points at a stored
 * row, the unique constraints hold, and keys and dates were handed out in
 * increasing order. The deletion methods are the on_delete policies.
 */
module Store {
  import opened Wrappers
  import opened Models

  class Db {
    var users: set<User>
    var groups: map<GroupId, Group>
    var posts: map<PostId, Post>
    var comments: map<CommentId, Comment>
    var follows: map<FollowId, Follow>
    /** The next timestamp; each stamped insert takes it and advances it. */
    var clock: nat
    /** The primary-key sequences. */
    var nextGroup: GroupId
    var nextPost: PostId
    var nextComment: CommentId
    var nextFollow: FollowId

    ghost predicate Valid()
      reads this
    {
      && PostRefsValid(posts, users, groups)
      && CommentRefsValid(comments, posts, users)
      && FollowRefsValid(follows, users)
      && SlugsUnique(groups)
      && FollowsUnique(follows)
      && PubDatesIncrease(posts)
      && (forall g :: g in groups ==> g < nextGroup)
      && (forall p :: p in posts ==> p < nextPost && posts[p].pubDate < clock)
      && (forall c :: c in comments ==> c < nextComment && comments[c].created < clock)
      && (forall f :: f in follows ==> f < nextFollow)
    }

    /** An empty database. */
    constructor ()
      ensures Valid()
      ensures users == {} && groups == map[] && posts == map[] && comments == map[] && follows == map[]
    {
      users, groups, posts, comments, follows := {}, map[], map[], map[], map[];
      clock, nextGroup, nextPost, nextComment, nextFollow := 0, 0, 0, 0, 0;
    }

    /** Registers a user; a taken username is refused and nothing changes. */
    method AddUser(name: User) returns (ok: bool)
      requires Valid()
      modifies this`users
      ensures Valid()
      ensures ok <==> name !in old(users)
      ensures users == old(users) + {name}
    {
      ok := name !in users;
      users := users + {name};
    }

    /**
     * `Group.objects.create(...)`: a slug already in use violates the unique
     * constraint, so the insert is refused and None returned.
     */
    method AddGroup(title: string, slug: string, description: string) returns (id: Option<GroupId>)
      requires Valid()
      modifies this`groups, this`nextGroup
      ensures Valid()
      ensures id.None? <==> exists g :: g in old(groups) && old(groups)[g].slug == slug
      ensures id.None? ==> groups == old(groups) && nextGroup == old(nextGroup)
      ensures id.Some? ==> id.value == old(nextGroup) && nextGroup == old(nextGroup) + 1
                           && groups == old(groups)[id.value := Group(title, slug, description)]
    {
      if exists g :: g in groups && groups[g].slug == slug {
        id := None;
      } else {
        id := Some(nextGroup);
        groups := groups[nextGroup := Group(title, slug, description)];
        nextGroup := nextGroup + 1;
      }
    }

    /** Deleting a group keeps every post; its posts lose their group (SET_NULL). */
    method DeleteGroup(g: GroupId)
      requires Valid()
      modifies this`groups, this`posts
      ensures Valid()
      ensures groups == old(groups) - {g}
      ensures posts == Ungrouped(old(posts), g)
    {
      UngroupedRefs(posts, users, groups, g);
      groups := groups - {g};
      posts := Ungrouped(posts, g);
    }

    /** Deleting a post deletes the comments on it (CASCADE). */
    method DeletePost(p: PostId)
      requires Valid()
      modifies this`posts, this`comments
      ensures Valid()
      ensures posts == old(posts) - {p}
      ensures comments == CommentsNotOn(old(comments), {p})
    {
      PostCascadeRefs(posts, comments, users, p);
      posts := posts - {p};
      comments := CommentsNotOn(comments, {p});
    }

    /**
     * Deleting a user deletes their posts and the comments on those posts,
     * their comments, and every follow in which they are follower or author
     * (all CASCADE).
     */
    method DeleteUser(u: User)
      requires Valid()
      modifies this`users, this`posts, this`comments, this`follows
      ensures Valid()
      ensures users == old(users) - {u}
      ensures posts == PostsNotBy(old(posts), u)
      ensures comments == CommentsNotBy(CommentsNotOn(old(comments), PostsBy(old(posts), u)), u)
      ensures follows == FollowsNotOf(old(follows), u)
    {
      UserCascadeRefs(users, groups, posts, comments, follows, u);
      comments := CommentsNotBy(CommentsNotOn(comments, PostsBy(posts, u)), u);
      posts := PostsNotBy(posts, u);
      follows := FollowsNotOf(follows, u);
      users := users - {u};
    }
  }
}
