# Yatube posts app: a verified model of its data rules

Yatube is a blog platform built on Django. Users write posts, may put a post
in a group, comment on posts and follow other authors to get a personal
feed. Almost everything is done by the framework. The rules the app adds are
small and live around its tables:

- who may create and edit a post, and which author a new post or comment gets;
- follow and unfollow as idempotent operations on the follow table;
- the personal feed, the profile's "following" flag and the 404 lookups;
- the `on_delete` policies of the foreign keys, the unique constraints, the
  `-pub_date` ordering and the `__str__` methods.

This project models those rules in Dafny and proves them.

- `wrappers.dfy` defines `Option`.
- `models.dfy` (module `Models`) holds the records `Group`, `Post`, `Comment`
  and `Follow` and their display strings. It also defines the constraints and
  foreign keys as predicates over tables. A table is a map from primary key to
  record. The on_delete policies and the follow-table operations are pure
  functions on tables, with lemmas about them. Post listings are built by
  `Listing`.
- `store.dfy` (module `Store`) holds class `Db`: the tables as fields, the
  primary-key sequences, and a `clock` that stands in for `auto_now_add`.
  `Valid()` is the schema invariant: every foreign key points at a stored row,
  slugs are unique, (user, author) follow pairs are unique, and keys and dates
  were handed out in increasing order. The deletion methods carry out the
  on_delete policies and keep `Valid()`.
- `views.dfy` (module `Views`) holds the handlers. The ones that write
  (`PostCreate`, `PostEdit`, `AddComment`, `ProfileFollow`, `ProfileUnfollow`)
  are methods that take `db: Db`, have `modifies db`, and return an `Outcome`.
  The outcomes are `RedirectLogin(next)`, `RedirectDetail(id)`,
  `RedirectProfile(name)`, `NotFound` and `Rendered(page)`. The read-only
  views (`Index`, `GroupPosts`, `Profile`, `PostDetail`, `FollowIndex`) are
  functions of the database.

Modelling choices:

- The logged-in user is a parameter `actor: Option<User>`. `None` is an
  anonymous visitor, and `login_required` becomes the `RedirectLogin` branch.
  A user is identified by the username, which the auth model keeps unique.
- The form classes are not part of this model. Their text checks reach a
  handler as an uninterpreted predicate `textOk: string -> bool`. The group
  field of the post form is a model choice field, so it only accepts a stored
  group; the model states that explicitly. A request without form data
  (`request.POST or None`) gives an unbound form, which is never valid.
- `pub_date` and `created` come from one counter, `clock`, which every
  stamped insert advances. Because of this, descending primary key is the
  same order as descending `pub_date`, and `Listing` uses that fact.
- At yatube/posts/models.py:75 the code reads `auto_now_add=Truу`, with a
  Cyrillic letter. As written that line fails when the module is imported.
  The model treats `Comment.created` as the clearly intended auto-set
  timestamp.

## Model

| member | source | states |
|---|---|---|
| `Models.Group.Display` | yatube/posts/models.py:15-16 | defines `str(group)` as the title, a field read; nothing to prove |
| `Models.Post.Display` | yatube/posts/models.py:51-52 | `str(post)` is the prefix of the text of length min(15, text length) |
| `Models.Comment.Display` | yatube/posts/models.py:78-79 | `str(comment)` is the prefix of the text of length min(15, text length) |
| `Models.SlugsUnique` | yatube/posts/models.py:10-11 | defines the unique constraint on Group.slug: no two groups share a slug |
| `Models.FollowsUnique` | yatube/posts/models.py:98-100 | defines the `unique_follow` constraint: no two follow records share (user, author) |
| `Models.HasFollow` | yatube/posts/views.py:35-37 | defines `.exists()` on the follow records of a pair, used by the following flag and by the unfollow guard at views.py:125 |
| `Models.WithoutFollow` | yatube/posts/views.py:124-126 | deleting the filtered pair keeps exactly the records with another pair, unchanged, and afterwards the pair has no record |
| `Models.Followed` | yatube/posts/views.py:105-106 | an author is in the followed set of u iff a follow record (u, author) exists |
| `Models.PairCountUnderUnique` | yatube/posts/models.py:98-100 | under the unique constraint a pair has exactly one record if it has any, and none otherwise |
| `Models.UnfollowCount` | yatube/posts/views.py:124-126 | unfollowing keeps the unique constraint and lowers the record count by one iff the pair was followed |
| `Models.UnfollowAbsent` | yatube/posts/views.py:125 | unfollowing a pair that has no record leaves the table unchanged |
| `Models.FollowInsert` | yatube/posts/views.py:116 | creating an absent pair under a fresh key keeps uniqueness, adds one record, and leaves exactly one record for the pair |
| `Models.FollowThenUnfollow` | yatube/posts/tests/test_views.py:193-203 | following a fresh pair and then unfollowing it gives back the original table |
| `Models.Ungrouped` | yatube/posts/models.py:33-41 | SET_NULL: every post is kept with its text, author and date; posts of the deleted group get no group, and no other post's group changes |
| `Models.PostsNotBy` | yatube/posts/models.py:27-32 | CASCADE on Post.author: exactly the posts by other authors remain, unchanged |
| `Models.CommentsNotOn` | yatube/posts/models.py:56-62 | CASCADE on Comment.post: exactly the comments on deleted posts are removed |
| `Models.CommentsNotBy` | yatube/posts/models.py:63-69 | CASCADE on Comment.author: exactly the comments by the deleted user are removed |
| `Models.FollowsNotOf` | yatube/posts/models.py:82-96 | CASCADE on Follow.user and Follow.author: exactly the records naming the deleted user are removed |
| `Models.UngroupedRefs` | yatube/posts/models.py:33-41 | after a group is deleted, no post refers to it, and pub_date order is kept |
| `Models.PostCascadeRefs` | yatube/posts/models.py:56-62 | after a post and its comments are deleted, every comment still refers to a stored post |
| `Models.UserCascadeRefs` | yatube/posts/models.py:27-31 | after the user cascade, every post, comment and follow refers only to stored rows |
| `Models.Listing` | yatube/posts/models.py:48-49 | a listing holds each matching post exactly once and nothing else, in strictly descending key order |
| `Models.ListingNewestFirst` | yatube/posts/models.py:48-49 | when pub_date grows with the key, a listing is strictly newest first |
| `Store.Db.Valid` | yatube/posts/models.py:27-100 | defines the schema invariant: every foreign key (Post.author, Post.group, Comment.post, Comment.author, Follow.user, Follow.author) points at a stored row, slugs are unique, follow pairs are unique, and keys and dates were handed out in increasing order |
| `Store.Db.constructor` | yatube/posts/models.py:7-100 | an empty database satisfies the schema invariant |
| `Store.Db.AddUser` | yatube/posts/models.py:4 | a taken username is refused; the user table becomes the old one plus the name |
| `Store.Db.AddGroup` | yatube/posts/models.py:10-11 | an insert with a slug already in use is refused and changes nothing; otherwise one group is added under a fresh key; slugs stay unique |
| `Store.Db.DeleteGroup` | yatube/posts/models.py:33-41 | the group goes, its posts stay with a null group, and the invariant holds |
| `Store.Db.DeletePost` | yatube/posts/models.py:56-62 | the post and exactly its comments go, and the invariant holds |
| `Store.Db.DeleteUser` | yatube/posts/models.py:27-31 | the user, their posts, the comments on those posts, their comments and every follow naming them go, and the invariant holds |
| `Views.PostFormValid` | yatube/posts/views.py:60-62 | defines `PostForm.is_valid()`: data was submitted, its text passes the form's text checks, and a chosen group is a stored group |
| `Views.CommentFormValid` | yatube/posts/views.py:93-94 | defines `CommentForm.is_valid()`: data was submitted and its text passes the form's text checks |
| `Views.Index` | yatube/posts/views.py:11-17 | the index lists every post exactly once, newest first |
| `Views.GroupBySlug` | yatube/posts/views.py:22 | finds the group with the slug, and finds nothing iff no group has it |
| `Views.GroupPosts` | yatube/posts/views.py:20-28 | 404 iff no group has the slug; otherwise exactly the group's posts, newest first |
| `Views.Profile` | yatube/posts/views.py:31-43 | 404 iff the username is unknown; otherwise exactly the author's posts, newest first, and `following` is true iff the visitor is logged in and follows the author |
| `Views.PostDetail` | yatube/posts/views.py:46-54 | 404 iff the post is unknown; otherwise the post with exactly its comments |
| `Views.FollowIndex` | yatube/posts/views.py:102-108 | anonymous visitors are sent to login; otherwise exactly the posts whose author the visitor follows, newest first |
| `Views.FollowingFlagMatchesFeed` | yatube/posts/views.py:35-37 | the profile's `following` flag is true iff that author's posts are in the visitor's follow feed |
| `Views.PostCreate` | yatube/posts/views.py:57-67 | anonymous: login redirect, no change; invalid form: form page, no change; valid: exactly one new post, authored by the actor whatever author was submitted, redirect to the actor's profile; the invariant holds |
| `Views.PostEdit` | yatube/posts/views.py:70-86 | anonymous: login redirect; unknown post: 404; non-author: redirect to detail with no change; author with a valid form: text and group replaced, author, date and post count kept, redirect to detail; invalid form: edit form, no change |
| `Views.AddComment` | yatube/posts/views.py:89-99 | anonymous: login redirect; unknown post: 404; otherwise redirect to detail; a valid form stores exactly one comment with the actor as author and the routed post as post; an invalid one stores nothing |
| `Views.ProfileFollow` | yatube/posts/views.py:111-117 | anonymous: login redirect; unknown author: 404; self-follow or an existing pair: no change; otherwise one record added; afterwards a non-self pair has exactly one record |
| `Views.ProfileUnfollow` | yatube/posts/views.py:120-127 | anonymous: login redirect; unknown author: 404; otherwise the pair's record is deleted, the other records are untouched, and the count drops by one iff the pair was followed |
| `Views.FollowThenUnfollowRestores` | yatube/posts/tests/test_views.py:193-203 | following a user not yet followed and then unfollowing answers both requests with a redirect to the profile, restores the follow table and its count, and changes no other table |

## Left out

- `cache_page(20, ...)` on `index` (yatube/posts/views.py:10) is not modelled. It is time-based framework middleware, so `Index` always shows the current posts.
- Pagination (yatube/posts/utils.py) is not modelled. It is Django's `Paginator.get_page`, whose clamping lives in the library. The views return whole ordered listings.
- The form classes are not part of this model. Their text rules are the uninterpreted `textOk`.
- Image upload and media storage (`Post.image`) are not modelled.
- Templates, context dictionaries and HTTP status codes are not modelled. Each response is reduced to an `Outcome`.
- Authentication and sessions are not modelled. The logged-in user is the `actor` parameter. The `next` of a login redirect is the `Route` of the requested view, not a URL string.
- `select_related` is not modelled. It is a query hint with no effect on results.
- The nullability of `Comment.post`, `Comment.author`, `Follow.user` and `Follow.author` is not modelled. The handlers always set these fields, and CASCADE deletes rows rather than nulling them, so none is ever null.
- Real timestamps can coincide. The model's `clock` gives every stamped row a distinct, increasing date, so it does not model ties in `-pub_date` ordering.
- `Views.PostDetail`: the comments come back as a set, because `Comment` declares no ordering.
- Deletion is not exposed by any view. `Store.Db.DeleteGroup`, `DeletePost` and `DeleteUser` model deletions made elsewhere, such as in the admin.
