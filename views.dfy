/**
 * The request handlers of the posts app. A handler gets the database, the
 * logged-in user (None for an anonymous visitor), its route arguments and,
 * for a form, the submitted fields; it answers with an Outcome. Handlers that
 * write are methods; the ones that only read are functions of the database.
 *
 * The text checks of PostForm and CommentForm are not part of this model:
 * they reach a handler as the predicate `textOk`. The group field of PostForm
 * only accepts a stored group (a model choice field), and a form without
 * submitted data (`request.POST or None`) is unbound and never valid.
 */
module Views {
  import opened Wrappers
  import opened Models
  import opened Store

  /** The views behind login_required; a login redirect carries one as `next`. */
  datatype Route =
    | CreateRoute
    | EditRoute(post: PostId)
    | CommentRoute(post: PostId)
    | FollowIndexRoute
    | FollowRoute(author: User)
    | UnfollowRoute(author: User)

  /** What a rendered template shows. */
  datatype Page =
    | FormPage(isEdit: bool)
    | IndexPage(posts: seq<PostId>)
    | GroupPage(group: GroupId, posts: seq<PostId>)
    | ProfilePage(author: User, posts: seq<PostId>, following: bool)
    | DetailPage(post: PostId, comments: set<CommentId>)
    | FollowPage(posts: seq<PostId>)

  datatype Outcome =
    | RedirectLogin(next: Route)
    | RedirectDetail(post: PostId)
    | RedirectProfile(username: User)
    | NotFound
    | Rendered(page: Page)

  /** The fields a client posts to create or edit a post; `author` is ignored. */
  datatype PostSubmission = PostSubmission(text: string, group: Option<GroupId>, author: Option<User>)

  /** The fields a client posts to comment; `post` and `author` are ignored. */
  datatype CommentSubmission = CommentSubmission(text: string, post: Option<PostId>, author: Option<User>)

  /** A logged-in user is a stored user. */
  ghost predicate Session(db: Db, actor: Option<User>)
    reads db
  {
    actor.Some? ==> actor.value in db.users
  }

  /** `PostForm(...).is_valid()`. */
  predicate PostFormValid(db: Db, form: Option<PostSubmission>, textOk: string -> bool)
    reads db
  {
    && form.Some?
    && textOk(form.value.text)
    && (form.value.group.Some? ==> form.value.group.value in db.groups)
  }

  /** `CommentForm(...).is_valid()`. */
  predicate CommentFormValid(form: Option<CommentSubmission>, textOk: string -> bool)
  {
    form.Some? && textOk(form.value.text)
  }

  // ---------------------------------------------------------------------------
  // Read-only views

  /** `index`: every post, newest first (the page cache is not modelled). */
  function Index(db: Db): (o: Outcome)
    reads db
    requires db.Valid()
    ensures o.Rendered? && o.page.IndexPage?
    ensures forall p :: p in o.page.posts <==> p in db.posts
    ensures NewestFirst(db.posts, o.page.posts)
  {
    ListingNewestFirst(db.posts, All, db.nextPost);
    Rendered(IndexPage(Listing(db.posts, All, db.nextPost)))
  }

  /** The group with the given slug, if any; slugs are unique, so it is the only one. */
  function GroupBySlug(db: Db, slug: string): (r: Option<GroupId>)
    reads db
    requires db.Valid()
    ensures r.None? <==> forall g :: g in db.groups ==> db.groups[g].slug != slug
    ensures r.Some? ==> r.value in db.groups && db.groups[r.value].slug == slug
  {
    if exists g :: g in db.groups && db.groups[g].slug == slug then
      var g :| g in db.groups && db.groups[g].slug == slug;
      Some(g)
    else
      None
  }

  /** `group_posts`: 404 for an unknown slug, else the group's posts, newest first. */
  function GroupPosts(db: Db, slug: string): (o: Outcome)
    reads db
    requires db.Valid()
    ensures o == NotFound <==> forall g :: g in db.groups ==> db.groups[g].slug != slug
    ensures o != NotFound ==>
      && o.Rendered? && o.page.GroupPage?
      && o.page.group in db.groups && db.groups[o.page.group].slug == slug
      && (forall p :: p in o.page.posts <==> p in db.posts && db.posts[p].group == Some(o.page.group))
      && NewestFirst(db.posts, o.page.posts)
  {
    match GroupBySlug(db, slug)
    case None => NotFound
    case Some(g) =>
      ListingNewestFirst(db.posts, InGroup(g), db.nextPost);
      Rendered(GroupPage(g, Listing(db.posts, InGroup(g), db.nextPost)))
  }

  /**
   * `profile`: 404 for an unknown username, else the author's posts, newest
   * first, and whether the visitor follows the author.
   */
  function Profile(db: Db, actor: Option<User>, username: User): (o: Outcome)
    reads db
    requires db.Valid()
    ensures o == NotFound <==> username !in db.users
    ensures o != NotFound ==>
      && o.Rendered? && o.page.ProfilePage? && o.page.author == username
      && (forall p :: p in o.page.posts <==> p in db.posts && db.posts[p].author == username)
      && NewestFirst(db.posts, o.page.posts)
      && (o.page.following <==> actor.Some? && username in Followed(db.follows, actor.value))
  {
    if username !in db.users then NotFound
    else
      ListingNewestFirst(db.posts, ByAuthor(username), db.nextPost);
      var following := actor.Some? && HasFollow(db.follows, Follow(actor.value, username));
      Rendered(ProfilePage(username, Listing(db.posts, ByAuthor(username), db.nextPost), following))
  }

  /** `post_detail`: 404 for an unknown post, else the post and its comments. */
  function PostDetail(db: Db, postId: PostId): (o: Outcome)
    reads db
    requires db.Valid()
    ensures o == NotFound <==> postId !in db.posts
    ensures o != NotFound ==>
      && o.Rendered? && o.page.DetailPage? && o.page.post == postId
      && (forall c :: c in o.page.comments <==> c in db.comments && db.comments[c].post == postId)
  {
    if postId !in db.posts then NotFound
    else Rendered(DetailPage(postId, set c | c in db.comments && db.comments[c].post == postId))
  }

  /**
   * `follow_index`: for a logged-in user, exactly the posts whose author that
   * user follows, newest first.
   */
  function FollowIndex(db: Db, actor: Option<User>): (o: Outcome)
    reads db
    requires db.Valid()
    ensures actor.None? <==> o == RedirectLogin(FollowIndexRoute)
    ensures actor.Some? ==>
      && o.Rendered? && o.page.FollowPage?
      && (forall p :: p in o.page.posts <==>
            p in db.posts && HasFollow(db.follows, Follow(actor.value, db.posts[p].author)))
      && NewestFirst(db.posts, o.page.posts)
  {
    if actor.None? then RedirectLogin(FollowIndexRoute)
    else
      var authors := Followed(db.follows, actor.value);
      ListingNewestFirst(db.posts, ByAuthors(authors), db.nextPost);
      Rendered(FollowPage(Listing(db.posts, ByAuthors(authors), db.nextPost)))
  }

  /**
   * The profile's `following` flag is true exactly when the author's posts
   * appear in the visitor's follow feed.
   */
  lemma FollowingFlagMatchesFeed(db: Db, actor: User, p: PostId)
    requires db.Valid() && p in db.posts
    ensures Profile(db, Some(actor), db.posts[p].author).page.following
            <==> p in FollowIndex(db, Some(actor)).page.posts
  {
  }

  // ---------------------------------------------------------------------------
  // Handlers that write

  /**
   * `post_create`: a valid form stores one new post whose author is the
   * logged-in user, whatever author the client sent, and redirects to that
   * user's profile. An invalid form renders the form again.
   */
  method PostCreate(db: Db, actor: Option<User>, form: Option<PostSubmission>, textOk: string -> bool)
    returns (o: Outcome)
    requires db.Valid() && Session(db, actor)
    modifies db
    ensures db.Valid()
    ensures actor.None? ==> o == RedirectLogin(CreateRoute) && unchanged(db)
    ensures actor.Some? && !old(PostFormValid(db, form, textOk)) ==>
      o == Rendered(FormPage(false)) && unchanged(db)
    ensures actor.Some? && old(PostFormValid(db, form, textOk)) ==>
      && o == RedirectProfile(actor.value)
      && db.posts == old(db.posts)[old(db.nextPost) :=
                       Post(form.value.text, old(db.clock), actor.value, form.value.group)]
      && old(db.nextPost) !in old(db.posts)
      && |db.posts| == old(|db.posts|) + 1
      && db.nextPost == old(db.nextPost) + 1 && db.clock == old(db.clock) + 1
      && unchanged(db`users, db`groups, db`comments, db`follows)
      && unchanged(db`nextGroup, db`nextComment, db`nextFollow)
  {
    if actor.None? {
      return RedirectLogin(CreateRoute);
    }
    if !PostFormValid(db, form, textOk) {
      return Rendered(FormPage(false));
    }
    var post := Post(form.value.text, db.clock, actor.value, form.value.group);
    db.posts := db.posts[db.nextPost := post];
    db.nextPost := db.nextPost + 1;
    db.clock := db.clock + 1;
    o := RedirectProfile(post.author);
  }

  /**
   * `post_edit`: only the author may edit. Anyone else is sent to the
   * post's page and nothing changes. A valid form from the author replaces
   * the text and the group and keeps the author and the date.
   */
  method PostEdit(db: Db, actor: Option<User>, postId: PostId, form: Option<PostSubmission>,
                  textOk: string -> bool)
    returns (o: Outcome)
    requires db.Valid() && Session(db, actor)
    modifies db
    ensures db.Valid()
    ensures actor.None? ==> o == RedirectLogin(EditRoute(postId)) && unchanged(db)
    ensures actor.Some? && postId !in old(db.posts) ==> o == NotFound && unchanged(db)
    ensures actor.Some? && postId in old(db.posts) && actor.value != old(db.posts[postId].author) ==>
      o == RedirectDetail(postId) && unchanged(db)
    ensures actor.Some? && postId in old(db.posts) && actor.value == old(db.posts[postId].author) ==>
      if old(PostFormValid(db, form, textOk)) then
        && o == RedirectDetail(postId)
        && db.posts == old(db.posts)[postId :=
                         old(db.posts[postId]).(text := form.value.text, group := form.value.group)]
        && |db.posts| == old(|db.posts|)
        && unchanged(db`users, db`groups, db`comments, db`follows, db`clock)
        && unchanged(db`nextGroup, db`nextPost, db`nextComment, db`nextFollow)
      else
        o == Rendered(FormPage(true)) && unchanged(db)
  {
    if actor.None? {
      return RedirectLogin(EditRoute(postId));
    }
    if postId !in db.posts {
      return NotFound;
    }
    var post := db.posts[postId];
    if actor.value != post.author {
      return RedirectDetail(postId);
    }
    if !PostFormValid(db, form, textOk) {
      return Rendered(FormPage(true));
    }
    db.posts := db.posts[postId := post.(text := form.value.text, group := form.value.group)];
    o := RedirectDetail(postId);
  }

  /**
   * `add_comment`: a valid form stores one comment on the routed post by the
   * logged-in user, whatever post and author the client sent. Valid or not,
   * the answer is a redirect to the post's page.
   */
  method AddComment(db: Db, actor: Option<User>, postId: PostId, form: Option<CommentSubmission>,
                    textOk: string -> bool)
    returns (o: Outcome)
    requires db.Valid() && Session(db, actor)
    modifies db
    ensures db.Valid()
    ensures actor.None? ==> o == RedirectLogin(CommentRoute(postId)) && unchanged(db)
    ensures actor.Some? && postId !in old(db.posts) ==> o == NotFound && unchanged(db)
    ensures actor.Some? && postId in old(db.posts) ==> o == RedirectDetail(postId)
    ensures actor.Some? && postId in old(db.posts) && !CommentFormValid(form, textOk) ==> unchanged(db)
    ensures actor.Some? && postId in old(db.posts) && CommentFormValid(form, textOk) ==>
      && db.comments == old(db.comments)[old(db.nextComment) :=
                          Comment(postId, actor.value, form.value.text, old(db.clock))]
      && old(db.nextComment) !in old(db.comments)
      && |db.comments| == old(|db.comments|) + 1
      && db.nextComment == old(db.nextComment) + 1 && db.clock == old(db.clock) + 1
      && unchanged(db`users, db`groups, db`posts, db`follows)
      && unchanged(db`nextGroup, db`nextPost, db`nextFollow)
  {
    if actor.None? {
      return RedirectLogin(CommentRoute(postId));
    }
    if postId !in db.posts {
      return NotFound;
    }
    if CommentFormValid(form, textOk) {
      db.comments := db.comments[db.nextComment := Comment(postId, actor.value, form.value.text, db.clock)];
      db.nextComment := db.nextComment + 1;
      db.clock := db.clock + 1;
    }
    o := RedirectDetail(postId);
  }

  /**
   * `profile_follow`: get-or-create of the record (actor, author), skipped
   * when the author is the actor. Afterwards a non-self pair has exactly one
   * record, whether or not it had one before.
   */
  method ProfileFollow(db: Db, actor: Option<User>, username: User) returns (o: Outcome)
    requires db.Valid() && Session(db, actor)
    modifies db
    ensures db.Valid()
    ensures actor.None? ==> o == RedirectLogin(FollowRoute(username)) && unchanged(db)
    ensures actor.Some? && username !in old(db.users) ==> o == NotFound && unchanged(db)
    ensures actor.Some? && username in old(db.users) ==>
      && o == RedirectProfile(username)
      && (if username == actor.value || old(HasFollow(db.follows, Follow(actor.value, username)))
          then db.follows == old(db.follows) && db.nextFollow == old(db.nextFollow)
          else db.follows == old(db.follows)[old(db.nextFollow) := Follow(actor.value, username)]
               && db.nextFollow == old(db.nextFollow) + 1)
      && unchanged(db`users, db`groups, db`posts, db`comments, db`clock)
      && unchanged(db`nextGroup, db`nextPost, db`nextComment)
    ensures actor.Some? && username in old(db.users) && username != actor.value ==>
      && HasFollow(db.follows, Follow(actor.value, username))
      && |FollowKeys(db.follows, Follow(actor.value, username))| == 1
      && |db.follows| == old(|db.follows|) + (if old(HasFollow(db.follows, Follow(actor.value, username))) then 0 else 1)
      && (forall k :: k in old(db.follows) ==> k in db.follows && db.follows[k] == old(db.follows[k]))
    ensures actor.Some? && (username == actor.value || old(HasFollow(db.follows, Follow(actor.value, username)))) ==>
      unchanged(db)
  {
    if actor.None? {
      return RedirectLogin(FollowRoute(username));
    }
    if username !in db.users {
      return NotFound;
    }
    var pair := Follow(actor.value, username);
    if username != actor.value && !HasFollow(db.follows, pair) {
      FollowInsert(db.follows, db.nextFollow, pair);
      db.follows := db.follows[db.nextFollow := pair];
      db.nextFollow := db.nextFollow + 1;
    }
    PairCountUnderUnique(db.follows, pair);
    o := RedirectProfile(username);
  }

  /**
   * `profile_unfollow`: deletes the record (actor, author) if there is one.
   * Afterwards the pair has no record; every other record is untouched.
   */
  method ProfileUnfollow(db: Db, actor: Option<User>, username: User) returns (o: Outcome)
    requires db.Valid() && Session(db, actor)
    modifies db
    ensures db.Valid()
    ensures actor.None? ==> o == RedirectLogin(UnfollowRoute(username)) && unchanged(db)
    ensures actor.Some? && username !in old(db.users) ==> o == NotFound && unchanged(db)
    ensures actor.Some? && username in old(db.users) ==>
      && o == RedirectProfile(username)
      && db.follows == WithoutFollow(old(db.follows), Follow(actor.value, username))
      && |db.follows| == old(|db.follows|) - (if old(HasFollow(db.follows, Follow(actor.value, username))) then 1 else 0)
      && unchanged(db`users, db`groups, db`posts, db`comments, db`clock)
      && unchanged(db`nextGroup, db`nextPost, db`nextComment, db`nextFollow)
    ensures actor.Some? && !old(HasFollow(db.follows, Follow(actor.value, username))) ==> unchanged(db)
  {
    if actor.None? {
      return RedirectLogin(UnfollowRoute(username));
    }
    if username !in db.users {
      return NotFound;
    }
    var pair := Follow(actor.value, username);
    if HasFollow(db.follows, pair) {
      UnfollowCount(db.follows, pair);
      db.follows := WithoutFollow(db.follows, pair);
    } else {
      UnfollowAbsent(db.follows, pair);
    }
    o := RedirectProfile(username);
  }

  /**
   * Following an author one did not follow and then unfollowing leaves the
   * follow table, and so its record count, as it was.
   */
  method FollowThenUnfollowRestores(db: Db, actor: User, username: User)
    returns (followed: Outcome, unfollowed: Outcome)
    requires db.Valid() && actor in db.users && username in db.users
    requires !HasFollow(db.follows, Follow(actor, username))
    modifies db
    ensures db.Valid()
    ensures followed == RedirectProfile(username) && unfollowed == RedirectProfile(username)
    ensures db.follows == old(db.follows) && |db.follows| == old(|db.follows|)
    ensures db.nextFollow == old(db.nextFollow) + (if username == actor then 0 else 1)
    ensures unchanged(db`users, db`groups, db`posts, db`comments, db`clock)
    ensures unchanged(db`nextGroup, db`nextPost, db`nextComment)
  {
    var before := db.follows;
    followed := ProfileFollow(db, Some(actor), username);
    if username != actor {
      FollowThenUnfollow(before, db.nextFollow - 1, Follow(actor, username));
    }
    unfollowed := ProfileUnfollow(db, Some(actor), username);
  }
}
