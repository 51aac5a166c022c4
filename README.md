# Blog data-access layer, modelled in Dafny

This project models the data-access layer of a small blogging application
(`src/lib/db.js`). The layer stores two document collections, `users` and
`posts`, and keeps a two-way reference between them by hand. A user's `posts`
field is an ordered list of post IDs. A post's `author` field is a user ID.

The remote document store is replaced by state held in memory:

- `Database.Db` is a class with two maps, `users` and `posts`, from document ID
  to document. A third field, `userOrder`, is the order in which the store
  enumerates the `users` collection. The write operations (`setUser`, `setPost`,
  `createPostForUser`, `removePostForUser`) are methods that update these fields
  in place. Each runs atomically. The sitemap traversal
  `getAllUsersWithPublishedPosts` is a method with the source's loop; it is
  proved equal to the specification function `Sitemap.Sitemap`.
- `Queries` holds the read path as pure functions of the two maps (and of the
  enumeration order where the name query needs it). Lookups come in two shapes.
  The `Get...` functions fail with `user/not-found` or `post/not-found`. The
  `...Exists` functions return a boolean or an optional post.
- `FieldValues` gives the store's two array transforms their meaning.
  `arrayUnion(x)` appends `x` only when it is absent. `arrayRemove(x)` removes
  every occurrence of `x` and keeps the other IDs in order.
- `Integrity` states the reference invariant (`Consistent`). It proves that
  creating a post, and removing a post through its own author, preserve it. It
  also proves that every user hydrates in a consistent store.
- `Documents` holds the entities, the hydrated records and the error codes.

Failures are values: `Result<T>` is `Ok(value)` or `Err(error)`, and `Error`
carries the `code` string the source throws (`Error.Code`).

## Model

| member | source | states |
|---|---|---|
| FieldValues.ArrayUnion | src/lib/db.js:151-154 | `arrayUnion(x)`: `x` is in the result; the old list is a prefix of it; `x` occurs once if it was absent and as often as before otherwise; every other ID keeps its count |
| FieldValues.ArrayRemove | src/lib/db.js:100-103 | `arrayRemove(x)`: `x` occurs nowhere in the result; the result is a subsequence of the list (relative order kept); every other ID keeps its count; a list without `x` is unchanged |
| Queries.GetPostByID | src/lib/db.js:89-96 | succeeds iff the ID is a key of `posts`, with the stored document and that ID; otherwise fails with `post/not-found` |
| Queries.PostWithIDExists | src/lib/db.js:106-109 | true iff `getPostByID` on the same ID succeeds |
| Queries.UserWithIDExistsAgrees | src/lib/db.js:45-48 | `userWithIDExists(id)` (`Queries.UserWithIDExists`) is true iff `getUserByID(id)` does not fail with `user/not-found`, i.e. iff `id` is a key of `users` |
| Queries.UserWithNameExistsAgrees | src/lib/db.js:50-57 | over an enumeration of the users, `userWithNameExists(name)` (`Queries.UserWithNameExists`) is true iff `getUserByName(name)` does not fail with `user/not-found` |
| Queries.Hydrate | src/lib/db.js:66-67 | the joint fetch of a list of post IDs succeeds iff every ID is a key of `posts`, else fails with `post/not-found`; on success it has the list's length and element `i` is what `getPostByID(ids[i])` returns |
| Queries.GetUserByID | src/lib/db.js:59-70 | fails with `user/not-found` iff the ID is absent; otherwise succeeds iff every referenced post exists (else `post/not-found`); the result keeps the user's fields and has the hydrated posts in reference order, element `i` equal to `getPostByID(posts[i])` |
| Queries.FirstWithName | src/lib/db.js:73-82 | the index in enumeration order of the first user with the name, or none when no enumerated user has it |
| Queries.GetUserByName | src/lib/db.js:72-87 | fails with `user/not-found` iff no enumerated user has the name; a success is a stored user with that name; every failure is `user/not-found` or `post/not-found` |
| Queries.GetUserByNameIsFirstMatch | src/lib/db.js:78-86 | when the `k`-th enumerated user is the first with the name, `getUserByName` answers exactly as `getUserByID` on that user |
| Queries.FindBySlug | src/lib/db.js:113 | `find` by slug: nothing iff no post carries the slug; a found post is in the list and carries the slug |
| Queries.FindBySlugIsFirstMatch | src/lib/db.js:123 | the slug search returns the first post in list order that carries the slug |
| Queries.PostWithUsernameAndSlugExists | src/lib/db.js:111-114 | succeeds iff `getUserByName` succeeds and otherwise fails with its error (`user/not-found` iff no user has the name, `post/not-found` from hydration); on success returns nothing iff none of the first such user's referenced posts carries the slug, and else the first referenced post, in list order, that carries it |
| Queries.PostWithUserIDAndSlugExists | src/lib/db.js:116-119 | succeeds iff `getUserByID` succeeds and otherwise fails with its error (`user/not-found` iff the user ID is absent, `post/not-found` from hydration); on success returns nothing iff none of that user's referenced posts carries the slug, and else the first referenced post, in list order, that carries it |
| Queries.SlugSearchOverHydrated | src/lib/db.js:111-119 | the slug search over a user's hydrated posts finds nothing iff no referenced post carries the slug, and otherwise finds the first referenced post that carries it, under its ID |
| Queries.SlugLookupFindsReferencedPost | src/lib/db.js:116-119 | a post found by user ID and slug is referenced by that user's list and equals the stored document under its ID |
| Queries.GetPostByUsernameAndSlug | src/lib/db.js:121-129 | returns exactly the post `postWithUsernameAndSlugExists` finds; fails with `post/not-found` when that finds nothing, and with the same error when that fails or when `getUserByName` fails; for a user found by name, it fails with `post/not-found` iff none of that user's referenced posts carries the slug, and otherwise returns the first referenced post that carries it |
| Queries.SlugLookupExample | src/lib/db.js:121-129 | for user `alice` with one post of slug `hello-world`, the username-and-slug lookup returns that post, and a slug she does not use fails with `post/not-found` |
| Sitemap.PublishedSummaries | src/lib/db.js:17-27 | the projections of exactly the referenced posts that exist and are published: each is the `id`/`slug`/`lastEdited`/`title` projection of its stored post, their IDs are a subsequence of the reference list, and each such ID occurs as often as it is referenced |
| Sitemap.PublishedSummariesNonEmpty | src/lib/db.js:17-30 | a user's published list is non-empty iff some referenced post exists and is published |
| Sitemap.SitemapEntries | src/lib/db.js:8-38 | every listed user has a non-empty list with a published post, and carries its `id`, `name`, `photo`, `displayName` and its published projections |
| Sitemap.SitemapIdsStep | src/lib/db.js:8-38 | one more enumerated user adds its ID to the listed users exactly when it has a non-empty list with an existing published post |
| Sitemap.SitemapMembers | src/lib/db.js:4-43 | a user is listed iff it is enumerated, its list is non-empty and some referenced post exists and is published |
| Sitemap.SitemapInOrder | src/lib/db.js:4-43 | the listed users appear in enumeration order |
| Sitemap.SitemapExample | src/lib/db.js:4-43 | a user with one published post and one draft is listed with the published post alone; a user with no posts is not listed |
| Integrity.CreatedPost | src/lib/db.js:140-149 | the created post has empty title, excerpt and content, the given author, is unpublished, has the given timestamp and its own ID as slug |
| Integrity.AddPostRef | src/lib/db.js:151-154 | the user update of post creation: only the given user changes, and only by `arrayUnion` of the new ID on its list |
| Integrity.DropPostRef | src/lib/db.js:100-103 | the user update of post removal: only the given user changes, only by `arrayRemove` of the ID; a missing user leaves the collection unchanged |
| Integrity.CreateKeepsConsistent | src/lib/db.js:139-157 | creating a post with a fresh ID for an existing user keeps the user/post reference invariant |
| Integrity.RemoveKeepsConsistent | src/lib/db.js:98-104 | removing a post through its author keeps the user/post reference invariant |
| Integrity.ConsistentUsersHydrate | src/lib/db.js:59-70 | under the reference invariant `getUserByID` succeeds for every existing user and every hydrated post names that user as author |
| Database.Db.SetUser | src/lib/db.js:131-133 | overwrites the whole user document at the ID and changes nothing else; a new ID joins the enumeration |
| Database.Db.SetPost | src/lib/db.js:135-137 | overwrites the whole post document at the ID; `getPostByID` then returns that document with the ID, and returns what it did before for every other ID |
| Database.Db.CreatePostForUser | src/lib/db.js:139-157 | adds the draft under the fresh ID with slug equal to the ID; for an existing user returns the ID and applies `arrayUnion` to its list only (the ID occurs there exactly once when it was absent), keeping the reference invariant; for a missing user fails with the store's `not-found` and leaves the post unreferenced |
| Database.Db.RemovePostForUser | src/lib/db.js:98-104 | deletes the post key, removes every occurrence of the ID from that user's list only (order of the rest kept), and keeps the reference invariant when the post belonged to the user |
| Database.Db.GetAllUsersWithPublishedPosts | src/lib/db.js:4-43 | the loop's output equals the sitemap specification `Sitemap.Sitemap` over the store's enumeration order |

## Left out

- The document-store client, network round trips and snapshots: replaced by the two maps and the enumeration order.
- `Promise.all` fan-out: the post fetches run one after another; only the all-or-nothing failure is kept.
- Concurrency and partial failure: each operation completes atomically, so the interleavings and crashes between the steps of `createPostForUser` and `removePostForUser` are not modelled. The `users` update in `removePostForUser` is not awaited; the model applies it at once. When it fails because the user is missing, the caller sees nothing, and the model leaves the users unchanged.
- `Timestamp.now()`: the creation timestamp is the parameter `now`.
- The store-assigned post ID: it is the parameter `newId`, with the store's guarantee that it is not already a key of `posts`.
- Database.Db.SetUser: a new user is appended to the enumeration order; the real store orders documents by ID, which the model does not capture.
- Store faults other than `update` on a missing document (network, permission, quota): not modelled.
- Schemaless documents: every field is always present in the model. A user without a `posts` field, which the sitemap skips and `getUserByID` would fail on with a type error, is not representable.
- The `query.docs[0].exists` test in `getUserByName`: documents returned by a query always exist, so only the empty-query case is modelled.
- `userWithNameExists` is true when at least one user has the name, as the code does (`!query.empty`), not only when exactly one has it.
- `src/pages/dashboard/DashboardComponent.js`: it is a UI component (rendering, auth hooks, routing), so it is not part of this model.
