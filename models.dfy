/**
 * The records of the blog (Group, Post, Comment, Follow), their display
 * strings, the constraints declared on them, the on_delete policies of their
 * foreign keys and the newest-first ordering of post listings.
 *
 * A table is a map from primary key to record. Every function here is a pure
 * function of tables; the class Store.Db holds the tables and updates them.
 */
module Models {
  import opened Wrappers

  /** A user is identified by the username, which the auth model keeps unique. */
  type User = string
  type GroupId = nat
  type PostId = nat
  type CommentId = nat
  type FollowId = nat

  /** Number of characters `__str__` keeps of a post or comment text. */
  const DisplayLength: nat := 15

  function Min(a: int, b: int): int
  {
    if a < b then a else b
  }

  /** The slice `s[:DisplayLength]`. */
  function Truncated(s: string): string
  {
    if |s| <= DisplayLength then s else s[..DisplayLength]
  }

  /** A group; `slug` is declared unique. */
  datatype Group = Group(title: string, slug: string, description: string)
  {
    /** `str(group)` is the title. */
    function Display(): string
    {
      title
    }
  }

  /**
   * A post. `pubDate` is set once, when the post is stored. The image
   * attachment is not modelled.
   */
  datatype Post = Post(text: string, pubDate: nat, author: User, group: Option<GroupId>)
  {
    /** `str(post)` is the first DisplayLength characters of the text. */
    function Display(): (r: string)
      ensures |r| == Min(DisplayLength, |text|)
      ensures r == text[..|r|]
    {
      Truncated(text)
    }
  }

  /** A comment on `post` written by `author`, stamped when stored. */
  datatype Comment = Comment(post: PostId, author: User, text: string, created: nat)
  {
    /** `str(comment)` is the first DisplayLength characters of the text. */
    function Display(): (r: string)
      ensures |r| == Min(DisplayLength, |text|)
      ensures r == text[..|r|]
    {
      Truncated(text)
    }
  }

  /** `user` follows `author`. */
  datatype Follow = Follow(user: User, author: User)

  // ---------------------------------------------------------------------------
  // Constraints and foreign keys

  /** The `unique=True` on Group.slug. */
  ghost predicate SlugsUnique(groups: map<GroupId, Group>)
  {
    forall g, h :: g in groups && h in groups && g != h ==> groups[g].slug != groups[h].slug
  }

  /** The `unique_follow` constraint: no two records share (user, author). */
  ghost predicate FollowsUnique(follows: map<FollowId, Follow>)
  {
    forall i, j :: i in follows && j in follows && i != j ==> follows[i] != follows[j]
  }

  /** Post.author and Post.group point at stored rows. */
  ghost predicate PostRefsValid(posts: map<PostId, Post>, users: set<User>, groups: map<GroupId, Group>)
  {
    forall p :: p in posts ==>
      posts[p].author in users && (posts[p].group.Some? ==> posts[p].group.value in groups)
  }

  /** Comment.post and Comment.author point at stored rows. */
  ghost predicate CommentRefsValid(comments: map<CommentId, Comment>, posts: map<PostId, Post>, users: set<User>)
  {
    forall c :: c in comments ==> comments[c].post in posts && comments[c].author in users
  }

  /** Follow.user and Follow.author point at stored users. */
  ghost predicate FollowRefsValid(follows: map<FollowId, Follow>, users: set<User>)
  {
    forall f :: f in follows ==> follows[f].user in users && follows[f].author in users
  }

  /** Publication dates grow with the primary key: a later insert is a later pub_date. */
  ghost predicate PubDatesIncrease(posts: map<PostId, Post>)
  {
    forall i, j :: i in posts && j in posts && i < j ==> posts[i].pubDate < posts[j].pubDate
  }

  // ---------------------------------------------------------------------------
  // The follow table

  /** `Follow.objects.filter(user=f.user, author=f.author).exists()`. */
  predicate HasFollow(follows: map<FollowId, Follow>, f: Follow)
  {
    exists k :: k in follows && follows[k] == f
  }

  /** The keys of the records for the pair f. */
  function FollowKeys(follows: map<FollowId, Follow>, f: Follow): set<FollowId>
  {
    set k | k in follows && follows[k] == f
  }

  /** `filter(user=f.user, author=f.author).delete()`: every record of the pair is deleted. */
  function WithoutFollow(follows: map<FollowId, Follow>, f: Follow): (r: map<FollowId, Follow>)
    ensures forall k :: k in r <==> k in follows && follows[k] != f
    ensures forall k :: k in r ==> r[k] == follows[k]
    ensures !HasFollow(r, f)
  {
    map k | k in follows && follows[k] != f :: follows[k]
  }

  /** The authors `u` follows: `author__following__user=u`. */
  function Followed(follows: map<FollowId, Follow>, u: User): (r: set<User>)
    ensures forall a :: a in r <==> HasFollow(follows, Follow(u, a))
  {
    set k | k in follows && follows[k].user == u :: follows[k].author
  }

  /** Under the unique constraint a pair has one record if it has any. */
  lemma PairCountUnderUnique(follows: map<FollowId, Follow>, f: Follow)
    requires FollowsUnique(follows)
    ensures |FollowKeys(follows, f)| == if HasFollow(follows, f) then 1 else 0
  {
    if HasFollow(follows, f) {
      var k :| k in follows && follows[k] == f;
      assert FollowKeys(follows, f) == {k};
    } else {
      assert FollowKeys(follows, f) == {};
    }
  }

  /** Deleting the records of a pair removes exactly that many records and keeps uniqueness. */
  lemma UnfollowCount(follows: map<FollowId, Follow>, f: Follow)
    requires FollowsUnique(follows)
    ensures FollowsUnique(WithoutFollow(follows, f))
    ensures |WithoutFollow(follows, f)| == |follows| - (if HasFollow(follows, f) then 1 else 0)
  {
    var r := WithoutFollow(follows, f);
    var gone := FollowKeys(follows, f);
    assert r.Keys == follows.Keys - gone;
    assert follows.Keys == r.Keys + gone;
    assert r.Keys !! gone;
    PairCountUnderUnique(follows, f);
  }

  /** Deleting the records of an absent pair changes nothing. */
  lemma UnfollowAbsent(follows: map<FollowId, Follow>, f: Follow)
    requires !HasFollow(follows, f)
    ensures WithoutFollow(follows, f) == follows
  {
  }

  /** get_or_create of an absent pair under a fresh key adds one record and keeps uniqueness. */
  lemma FollowInsert(follows: map<FollowId, Follow>, k: FollowId, f: Follow)
    requires FollowsUnique(follows) && !HasFollow(follows, f) && k !in follows
    ensures FollowsUnique(follows[k := f])
    ensures HasFollow(follows[k := f], f)
    ensures FollowKeys(follows[k := f], f) == {k}
    ensures |follows[k := f]| == |follows| + 1
  {
    var r := follows[k := f];
    assert r[k] == f;
    assert FollowKeys(r, f) == {k};
  }

  /** Following a fresh pair and then unfollowing it restores the table. */
  lemma FollowThenUnfollow(follows: map<FollowId, Follow>, k: FollowId, f: Follow)
    requires !HasFollow(follows, f) && k !in follows
    ensures WithoutFollow(follows[k := f], f) == follows
  {
  }

  // ---------------------------------------------------------------------------
  // on_delete policies

  /** Post.group `on_delete=SET_NULL`: deleting group g clears the group of the posts in g. */
  function Ungrouped(posts: map<PostId, Post>, g: GroupId): (r: map<PostId, Post>)
    ensures r.Keys == posts.Keys
    ensures forall p :: p in r ==>
      r[p].group == (if posts[p].group == Some(g) then None else posts[p].group)
    ensures forall p :: p in r ==>
      r[p].text == posts[p].text && r[p].author == posts[p].author && r[p].pubDate == posts[p].pubDate
  {
    map p | p in posts :: if posts[p].group == Some(g) then posts[p].(group := None) else posts[p]
  }

  /** The posts written by u. */
  function PostsBy(posts: map<PostId, Post>, u: User): set<PostId>
  {
    set p | p in posts && posts[p].author == u
  }

  /** Post.author `on_delete=CASCADE`: the posts of u go, the others stay as they were. */
  function PostsNotBy(posts: map<PostId, Post>, u: User): (r: map<PostId, Post>)
    ensures forall p :: p in r <==> p in posts && posts[p].author != u
    ensures forall p :: p in r ==> r[p] == posts[p]
  {
    map p | p in posts && posts[p].author != u :: posts[p]
  }

  /** Comment.post `on_delete=CASCADE`: the comments on the deleted posts go. */
  function CommentsNotOn(comments: map<CommentId, Comment>, gone: set<PostId>): (r: map<CommentId, Comment>)
    ensures forall c :: c in r <==> c in comments && comments[c].post !in gone
    ensures forall c :: c in r ==> r[c] == comments[c]
  {
    map c | c in comments && comments[c].post !in gone :: comments[c]
  }

  /** Comment.author `on_delete=CASCADE`: the comments of u go. */
  function CommentsNotBy(comments: map<CommentId, Comment>, u: User): (r: map<CommentId, Comment>)
    ensures forall c :: c in r <==> c in comments && comments[c].author != u
    ensures forall c :: c in r ==> r[c] == comments[c]
  {
    map c | c in comments && comments[c].author != u :: comments[c]
  }

  /** Follow.user and Follow.author `on_delete=CASCADE`: every record naming u goes. */
  function FollowsNotOf(follows: map<FollowId, Follow>, u: User): (r: map<FollowId, Follow>)
    ensures forall f :: f in r <==> f in follows && follows[f].user != u && follows[f].author != u
    ensures forall f :: f in r ==> r[f] == follows[f]
  {
    map f | f in follows && follows[f].user != u && follows[f].author != u :: follows[f]
  }

  /** Deleting a group leaves no post pointing at it. */
  lemma UngroupedRefs(posts: map<PostId, Post>, users: set<User>, groups: map<GroupId, Group>, g: GroupId)
    requires PostRefsValid(posts, users, groups)
    ensures PostRefsValid(Ungrouped(posts, g), users, groups - {g})
    ensures PubDatesIncrease(posts) ==> PubDatesIncrease(Ungrouped(posts, g))
  {
  }

  /** Deleting a post and its comments leaves no comment pointing at it. */
  lemma PostCascadeRefs(posts: map<PostId, Post>, comments: map<CommentId, Comment>, users: set<User>, p: PostId)
    requires CommentRefsValid(comments, posts, users)
    ensures CommentRefsValid(CommentsNotOn(comments, {p}), posts - {p}, users)
  {
  }

  /**
   * Deleting a user and everything that cascades from it (their posts, the
   * comments on those posts, their comments, the follows naming them) leaves
   * every foreign key pointing at a stored row.
   */
  lemma UserCascadeRefs(users: set<User>, groups: map<GroupId, Group>, posts: map<PostId, Post>,
                        comments: map<CommentId, Comment>, follows: map<FollowId, Follow>, u: User)
    requires PostRefsValid(posts, users, groups)
    requires CommentRefsValid(comments, posts, users)
    requires FollowRefsValid(follows, users)
    ensures PostRefsValid(PostsNotBy(posts, u), users - {u}, groups)
    ensures CommentRefsValid(CommentsNotBy(CommentsNotOn(comments, PostsBy(posts, u)), u),
                             PostsNotBy(posts, u), users - {u})
    ensures FollowRefsValid(FollowsNotOf(follows, u), users - {u})
  {
  }

  // ---------------------------------------------------------------------------
  // Listings: `ordering = ['-pub_date']`

  /** The querysets the views list: all posts, a group's, an author's, some authors'. */
  datatype Filter = All | InGroup(group: GroupId) | ByAuthor(author: User) | ByAuthors(authors: set<User>)

  predicate Matches(f: Filter, p: Post)
  {
    match f
    case All => true
    case InGroup(g) => p.group == Some(g)
    case ByAuthor(a) => p.author == a
    case ByAuthors(s) => p.author in s
  }

  /**
   * The posts with a key below n that pass f, in descending key order. Each
   * such post is listed exactly once and nothing else is listed.
   */
  function Listing(posts: map<PostId, Post>, f: Filter, n: nat): (r: seq<PostId>)
    ensures forall i :: 0 <= i < |r| ==> r[i] < n
    ensures forall i, j :: 0 <= i < j < |r| ==> r[i] > r[j]
    ensures forall p :: p in r <==> p < n && p in posts && Matches(f, posts[p])
    decreases n
  {
    if n == 0 then []
    else if n - 1 in posts && Matches(f, posts[n - 1]) then [n - 1] + Listing(posts, f, n - 1)
    else Listing(posts, f, n - 1)
  }

  /** ids is a listing of stored posts, strictly newest first. */
  ghost predicate NewestFirst(posts: map<PostId, Post>, ids: seq<PostId>)
  {
    && (forall i :: 0 <= i < |ids| ==> ids[i] in posts)
    && (forall i, j :: 0 <= i < j < |ids| ==> posts[ids[i]].pubDate > posts[ids[j]].pubDate)
  }

  /** When pub_date grows with the key, the listing is ordered by descending pub_date. */
  lemma ListingNewestFirst(posts: map<PostId, Post>, f: Filter, n: nat)
    requires PubDatesIncrease(posts)
    ensures NewestFirst(posts, Listing(posts, f, n))
  {
  }
}
