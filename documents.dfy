/**
 The documents kept in the two collections of the blog's document store,
 `users` and `posts`, the hydrated records the read path returns, and the
 error codes the data-access layer throws.
 */
module Documents {

  /** A document ID: opaque, chosen by the caller or assigned by the store. */
  type Id = string

  /** The store's server timestamp; the clock that produces it is not modelled. */
  datatype Timestamp = Timestamp(seconds: int, nanoseconds: int)

  datatype Option<T> = None | Some(value: T)

  /** The failures the layer signals; each carries the `code` string callers test. */
  datatype Error =
    | UserNotFound      // thrown by the user lookups
    | PostNotFound      // thrown by the post lookups and by hydration
    | DocumentNotFound  // the store's own failure when `update` targets a missing document
  {
    function Code(): string
    {
      match this
      case UserNotFound => "user/not-found"
      case PostNotFound => "post/not-found"
      case DocumentNotFound => "not-found"
    }
  }

  datatype Result<T> = Ok(value: T) | Err(error: Error)

  /** A document of the `users` collection; `posts` is the ordered list of post IDs. */
  datatype User = User(name: string, displayName: string, photo: string, posts: seq<Id>)

  /**
   A document of the `posts` collection. `slug` is absent from a freshly added
   post until the second step of post creation sets it.
   */
  datatype Post = Post(
    title: string,
    excerpt: string,
    content: string,
    author: Id,
    published: bool,
    lastEdited: Timestamp,
    slug: Option<string>)

  /** `{ id, ...data }`: a post document with its ID attached. */
  datatype PostRecord = PostRecord(id: Id, post: Post)

  /** A user document with its ID attached and its post IDs replaced by the posts. */
  datatype UserRecord = UserRecord(
    id: Id,
    name: string,
    displayName: string,
    photo: string,
    posts: seq<PostRecord>)

  /** The document `createPostForUser` adds: an empty, unpublished draft. */
  function Draft(author: Id, now: Timestamp): Post
  {
    Post("", "", "", author, false, now, None)
  }

  /** `order` lists every key of `m` exactly once: an enumeration of the collection. */
  ghost predicate Enumerates<V>(order: seq<Id>, m: map<Id, V>)
  {
    && (forall i, j :: 0 <= i < j < |order| ==> order[i] != order[j])
    && (forall k :: k in m <==> k in order)
  }
}
