/**
 The read path of the data-access layer as pure functions of the two
 collections. `users` and `posts` map document IDs to documents; `order` is
 the order in which the store enumerates the `users` collection (used by the
 name query, which takes the first match).

 Lookups come in two shapes: the `Get...` functions fail with a not-found
 error, the `...Exists` functions answer with a boolean or an optional post.
 */
module Queries {
  import opened Documents

  /** `getPostByID`: the post with its ID attached, or `post/not-found`. */
  function GetPostByID(posts: map<Id, Post>, id: Id): (r: Result<PostRecord>)
    ensures r.Ok? <==> id in posts
    ensures r.Err? ==> r.error == PostNotFound
    ensures r.Ok? ==> r.value.id == id && r.value.post == posts[id]
  {
    if id in posts then Ok(PostRecord(id, posts[id])) else Err(PostNotFound)
  }

  /** `postWithIDExists`: the non-failing shape of `GetPostByID`. */
  function PostWithIDExists(posts: map<Id, Post>, id: Id): (b: bool)
    ensures b <==> GetPostByID(posts, id).Ok?
  {
    id in posts
  }

  /** `userWithIDExists`. */
  function UserWithIDExists(users: map<Id, User>, id: Id): bool
  {
    id in users
  }

  /** `userWithNameExists`: the name query returned at least one document. */
  function UserWithNameExists(users: map<Id, User>, name: string): bool
  {
    exists id :: id in users && users[id].name == name
  }

  /**
   The `Promise.all` over `getPostByID` for each referenced ID: all posts in
   reference order, or `post/not-found` as soon as one ID does not resolve.
   */
  function Hydrate(posts: map<Id, Post>, ids: seq<Id>): (r: Result<seq<PostRecord>>)
    ensures r.Ok? <==> forall i :: 0 <= i < |ids| ==> ids[i] in posts
    ensures r.Err? ==> r.error == PostNotFound
    ensures r.Ok? ==> |r.value| == |ids|
    ensures r.Ok? ==> forall i :: 0 <= i < |ids| ==> GetPostByID(posts, ids[i]) == Ok(r.value[i])
  {
    if ids == [] then Ok([])
    else
      match GetPostByID(posts, ids[0])
      case Err(e) => Err(e)
      case Ok(first) =>
        match Hydrate(posts, ids[1..])
        case Err(e) => Err(e)
        case Ok(rest) =>
          assert forall i :: 1 <= i < |ids| ==> ids[i] == ids[1..][i - 1];
          Ok([first] + rest)
  }

  /** `getUserByID`: the user with its post list hydrated. */
  function GetUserByID(users: map<Id, User>, posts: map<Id, Post>, id: Id): (r: Result<UserRecord>)
    ensures r == Err(UserNotFound) <==> id !in users
    ensures r.Err? ==> r.error == UserNotFound || r.error == PostNotFound
    ensures id in users ==> (r.Ok? <==> forall i :: 0 <= i < |users[id].posts| ==> users[id].posts[i] in posts)
    ensures r.Ok? ==> id in users && r.value.id == id
    ensures r.Ok? ==> && r.value.name == users[id].name
                      && r.value.displayName == users[id].displayName
                      && r.value.photo == users[id].photo
    ensures r.Ok? ==> |r.value.posts| == |users[id].posts|
    ensures r.Ok? ==> forall i :: 0 <= i < |r.value.posts| ==>
                        GetPostByID(posts, users[id].posts[i]) == Ok(r.value.posts[i])
  {
    if id !in users then Err(UserNotFound)
    else
      var u := users[id];
      match Hydrate(posts, u.posts)
      case Err(e) => Err(e)
      case Ok(hydrated) => Ok(UserRecord(id, u.name, u.displayName, u.photo, hydrated))
  }

  predicate HasName(users: map<Id, User>, id: Id, name: string)
  {
    id in users && users[id].name == name
  }

  /** Index in `order` of the first user named `name`: the first document the name query returns. */
  function FirstWithName(order: seq<Id>, users: map<Id, User>, name: string): (r: Option<nat>)
    ensures r.None? ==> forall i :: 0 <= i < |order| ==> !HasName(users, order[i], name)
    ensures r.Some? ==> r.value < |order| && HasName(users, order[r.value], name)
    ensures r.Some? ==> forall i :: 0 <= i < r.value ==> !HasName(users, order[i], name)
  {
    if order == [] then None
    else if HasName(users, order[0], name) then Some(0)
    else
      match FirstWithName(order[1..], users, name)
      case None => None
      case Some(k) => Some(k + 1)
  }

  /**
   `getUserByName`: the first user with that name, hydrated as by `getUserByID`,
   or `user/not-found` when no user has it.
   */
  function GetUserByName(users: map<Id, User>, posts: map<Id, Post>, order: seq<Id>, name: string)
    : (r: Result<UserRecord>)
    ensures r == Err(UserNotFound) <==> forall i :: 0 <= i < |order| ==> !HasName(users, order[i], name)
    ensures r.Err? ==> r.error == UserNotFound || r.error == PostNotFound
    ensures r.Ok? ==> r.value.id in users && r.value.name == name
  {
    match FirstWithName(order, users, name)
    case None => Err(UserNotFound)
    case Some(k) => GetUserByID(users, posts, order[k])
  }

  /** `posts.find(post => post.slug === slug)`: the first post with that slug. */
  function FindBySlug(ps: seq<PostRecord>, slug: string): (r: Option<PostRecord>)
    ensures r.None? <==> forall i :: 0 <= i < |ps| ==> ps[i].post.slug != Some(slug)
    ensures r.Some? ==> r.value in ps && r.value.post.slug == Some(slug)
  {
    if ps == [] then None
    else if ps[0].post.slug == Some(slug) then Some(ps[0])
    else FindBySlug(ps[1..], slug)
  }

  /** No stored post referenced by `ids` carries `slug`. */
  predicate NoPostWithSlug(posts: map<Id, Post>, ids: seq<Id>, slug: string)
  {
    forall j :: 0 <= j < |ids| && ids[j] in posts ==> posts[ids[j]].slug != Some(slug)
  }

  /** The `k`-th reference of `ids` is the first one whose stored post carries `slug`. */
  predicate FirstWithSlugAt(posts: map<Id, Post>, ids: seq<Id>, slug: string, k: int)
  {
    && 0 <= k < |ids|
    && ids[k] in posts && posts[ids[k]].slug == Some(slug)
    && forall j :: 0 <= j < k && ids[j] in posts ==> posts[ids[j]].slug != Some(slug)
  }

  /**
   The slug search over a hydrated post list, stated over the stored documents
   the list references: nothing iff no referenced post carries the slug, and
   otherwise the first referenced post that carries it.
   */
  lemma SlugSearchOverHydrated(posts: map<Id, Post>, ids: seq<Id>, ps: seq<PostRecord>, slug: string)
    requires |ps| == |ids|
    requires forall i :: 0 <= i < |ids| ==> GetPostByID(posts, ids[i]) == Ok(ps[i])
    ensures FindBySlug(ps, slug).None? <==> NoPostWithSlug(posts, ids, slug)
    ensures forall k :: FirstWithSlugAt(posts, ids, slug, k) ==>
              FindBySlug(ps, slug) == Some(PostRecord(ids[k], posts[ids[k]]))
  {
    forall k | FirstWithSlugAt(posts, ids, slug, k)
      ensures FindBySlug(ps, slug) == Some(PostRecord(ids[k], posts[ids[k]]))
    {
      forall j | 0 <= j < k ensures ps[j].post.slug != Some(slug) {
        assert GetPostByID(posts, ids[j]) == Ok(ps[j]);
      }
      assert GetPostByID(posts, ids[k]) == Ok(ps[k]);
      FindBySlugIsFirstMatch(ps, slug, k);
    }
    if FindBySlug(ps, slug).None? {
      forall j | 0 <= j < |ids| && ids[j] in posts ensures posts[ids[j]].slug != Some(slug) {
        assert GetPostByID(posts, ids[j]) == Ok(ps[j]);
      }
    } else {
      var i :| 0 <= i < |ps| && ps[i] == FindBySlug(ps, slug).value;
      assert GetPostByID(posts, ids[i]) == Ok(ps[i]);
    }
  }

  /**
   `postWithUsernameAndSlugExists`: the user lookup's failure is passed on;
   otherwise the first of the first named user's posts with that slug, or
   nothing when none of them has it.
   */
  function PostWithUsernameAndSlugExists(
    users: map<Id, User>, posts: map<Id, Post>, order: seq<Id>, username: string, slug: string)
    : (r: Result<Option<PostRecord>>)
    ensures r == Err(UserNotFound) <==> forall i :: 0 <= i < |order| ==> !HasName(users, order[i], username)
    ensures r.Ok? <==> GetUserByName(users, posts, order, username).Ok?
    ensures r.Err? ==> r == Err(GetUserByName(users, posts, order, username).error)
    ensures r.Err? ==> r.error == UserNotFound || r.error == PostNotFound
    ensures r.Ok? && r.value.Some? ==> r.value.value.post.slug == Some(slug)
    ensures r.Ok? ==> && FirstWithName(order, users, username).Some?
                      && var uid := order[FirstWithName(order, users, username).value];
                      && uid in users
                      && (r.value.None? <==> NoPostWithSlug(posts, users[uid].posts, slug))
                      && forall k :: FirstWithSlugAt(posts, users[uid].posts, slug, k) ==>
                           r.value == Some(PostRecord(users[uid].posts[k], posts[users[uid].posts[k]]))
  {
    match GetUserByName(users, posts, order, username)
    case Err(e) => Err(e)
    case Ok(user) =>
      var uid := order[FirstWithName(order, users, username).value];
      SlugSearchOverHydrated(posts, users[uid].posts, user.posts, slug);
      Ok(FindBySlug(user.posts, slug))
  }

  /**
   `postWithUserIDAndSlugExists`: as above, with the author given by ID: the
   first of that user's posts with the slug, or nothing when none has it.
   */
  function PostWithUserIDAndSlugExists(users: map<Id, User>, posts: map<Id, Post>, uid: Id, slug: string)
    : (r: Result<Option<PostRecord>>)
    ensures r == Err(UserNotFound) <==> uid !in users
    ensures r.Ok? <==> GetUserByID(users, posts, uid).Ok?
    ensures r.Err? ==> r == Err(GetUserByID(users, posts, uid).error)
    ensures r.Err? ==> r.error == UserNotFound || r.error == PostNotFound
    ensures r.Ok? && r.value.Some? ==> r.value.value.post.slug == Some(slug)
    ensures r.Ok? ==> && uid in users
                      && (r.value.None? <==> NoPostWithSlug(posts, users[uid].posts, slug))
                      && forall k :: FirstWithSlugAt(posts, users[uid].posts, slug, k) ==>
                           r.value == Some(PostRecord(users[uid].posts[k], posts[users[uid].posts[k]]))
  {
    match GetUserByID(users, posts, uid)
    case Err(e) => Err(e)
    case Ok(user) =>
      SlugSearchOverHydrated(posts, users[uid].posts, user.posts, slug);
      Ok(FindBySlug(user.posts, slug))
  }

  /**
   `getPostByUsernameAndSlug`: the post `PostWithUsernameAndSlugExists` finds,
   with "nothing found" turned into `post/not-found`.
   */
  function GetPostByUsernameAndSlug(
    users: map<Id, User>, posts: map<Id, Post>, order: seq<Id>, username: string, slug: string)
    : (r: Result<PostRecord>)
    ensures r.Ok? <==> PostWithUsernameAndSlugExists(users, posts, order, username, slug).Ok?
                       && PostWithUsernameAndSlugExists(users, posts, order, username, slug).value.Some?
    ensures r.Ok? ==> PostWithUsernameAndSlugExists(users, posts, order, username, slug) == Ok(Some(r.value))
    ensures PostWithUsernameAndSlugExists(users, posts, order, username, slug) == Ok(None) ==> r == Err(PostNotFound)
    ensures PostWithUsernameAndSlugExists(users, posts, order, username, slug).Err? ==>
              r == Err(PostWithUsernameAndSlugExists(users, posts, order, username, slug).error)
    ensures GetUserByName(users, posts, order, username).Err? ==>
              r == Err(GetUserByName(users, posts, order, username).error)
    ensures GetUserByName(users, posts, order, username).Ok? ==>
              && FirstWithName(order, users, username).Some?
              && var uid := order[FirstWithName(order, users, username).value];
              && uid in users
              && (r == Err(PostNotFound) <==> NoPostWithSlug(posts, users[uid].posts, slug))
              && forall k :: FirstWithSlugAt(posts, users[uid].posts, slug, k) ==>
                   r == Ok(PostRecord(users[uid].posts[k], posts[users[uid].posts[k]]))
  {
    match GetUserByName(users, posts, order, username)
    case Err(e) => Err(e)
    case Ok(user) =>
      match FindBySlug(user.posts, slug)
      case None => Err(PostNotFound)
      case Some(post) => Ok(post)
  }

  // ---------------------------------------------------------------------------
  // How the two call shapes and the lookups relate
  // ---------------------------------------------------------------------------

  /** `userWithIDExists` is true exactly when `getUserByID` does not fail with `user/not-found`. */
  lemma UserWithIDExistsAgrees(users: map<Id, User>, posts: map<Id, Post>, id: Id)
    ensures UserWithIDExists(users, id) <==> GetUserByID(users, posts, id) != Err(UserNotFound)
  {
  }

  /**
   Over an enumeration of the collection, `userWithNameExists` is true exactly
   when `getUserByName` does not fail with `user/not-found`.
   */
  lemma UserWithNameExistsAgrees(users: map<Id, User>, posts: map<Id, Post>, order: seq<Id>, name: string)
    requires Enumerates(order, users)
    ensures UserWithNameExists(users, name) <==> GetUserByName(users, posts, order, name) != Err(UserNotFound)
  {
  }

  /** `getUserByName` answers with the hydrated FIRST user of the enumeration that has the name. */
  lemma {:induction false} GetUserByNameIsFirstMatch(
    users: map<Id, User>, posts: map<Id, Post>, order: seq<Id>, name: string, k: nat)
    requires k < |order| && HasName(users, order[k], name)
    requires forall i :: 0 <= i < k ==> !HasName(users, order[i], name)
    ensures GetUserByName(users, posts, order, name) == GetUserByID(users, posts, order[k])
  {
  }

  /** The slug search answers with the FIRST post carrying the slug. */
  lemma {:induction false} FindBySlugIsFirstMatch(ps: seq<PostRecord>, slug: string, k: nat)
    requires k < |ps| && ps[k].post.slug == Some(slug)
    requires forall i :: 0 <= i < k ==> ps[i].post.slug != Some(slug)
    ensures FindBySlug(ps, slug) == Some(ps[k])
  {
    if k > 0 {
      assert ps[1..][k - 1] == ps[k];
      FindBySlugIsFirstMatch(ps[1..], slug, k - 1);
    }
  }

  /**
   A post found by slug for a user is one that user's list references, and it
   is the stored document with its ID attached.
   */
  lemma SlugLookupFindsReferencedPost(users: map<Id, User>, posts: map<Id, Post>, uid: Id, slug: string)
    requires PostWithUserIDAndSlugExists(users, posts, uid, slug).Ok?
    requires PostWithUserIDAndSlugExists(users, posts, uid, slug).value.Some?
    ensures uid in users
    ensures var found := PostWithUserIDAndSlugExists(users, posts, uid, slug).value.value;
            && found.id in users[uid].posts
            && found.id in posts && posts[found.id] == found.post
            && found.post.slug == Some(slug)
  {
  }

  /**
   User "alice" has one post with slug "hello-world": looking it up by
   username and slug finds it, and a slug she does not use fails with
   `post/not-found`.
   */
  lemma SlugLookupExample(t: Timestamp)
    ensures var post := Post("Hello", "", "<p>Hi</p>", "u1", true, t, Some("hello-world"));
            var users := map["u1" := User("alice", "Alice", "a.png", ["p1"])];
            var posts := map["p1" := post];
            && GetPostByUsernameAndSlug(users, posts, ["u1"], "alice", "hello-world") == Ok(PostRecord("p1", post))
            && GetPostByUsernameAndSlug(users, posts, ["u1"], "alice", "missing") == Err(PostNotFound)
  {
  }
}
