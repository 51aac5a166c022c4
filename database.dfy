/**
 The document store as the data-access layer changes it: two collections held
 as maps, updated in place by the write operations, plus the order in which the
 store enumerates the `users` collection. Each operation completes atomically.
 */
module Database {
  import opened Documents
  import opened FieldValues
  import Queries
  import Sitemap
  import Integrity

  class Db {
    var users: map<Id, User>
    var posts: map<Id, Post>
    /** The order in which a read of the whole `users` collection returns its documents. */
    var userOrder: seq<Id>

    ghost predicate Valid()
      reads this
    {
      Enumerates(userOrder, users)
    }

    constructor ()
      ensures Valid()
      ensures users == map[] && posts == map[] && userOrder == []
    {
      users, posts, userOrder := map[], map[], [];
    }

    /** `setUser`: writes the whole document at `id`, creating or replacing it. */
    method SetUser(id: Id, d: User)
      requires Valid()
      modifies this
      ensures Valid()
      ensures users == old(users)[id := d] && posts == old(posts)
      ensures userOrder == if id in old(users) then old(userOrder) else old(userOrder) + [id]
      ensures Queries.UserWithIDExists(users, id)
      ensures Queries.GetUserByID(users, posts, id).Ok? ==> Queries.GetUserByID(users, posts, id).value.name == d.name
    {
      if id !in users {
        userOrder := userOrder + [id];
      }
      users := users[id := d];
    }

    /** `setPost`: writes the whole document at `id`; `getPostByID(id)` then answers with `d`. */
    method SetPost(id: Id, d: Post)
      modifies this`posts
      ensures posts == old(posts)[id := d]
      ensures Queries.GetPostByID(posts, id) == Ok(PostRecord(id, d))
      ensures forall k :: k != id ==> Queries.GetPostByID(posts, k) == Queries.GetPostByID(old(posts), k)
    {
      posts := posts[id := d];
    }

    /**
     `createPostForUser`: (1) adds a draft post under the store-assigned ID
     `newId`, (2) sets its slug to that ID, (3) appends the ID to the user's list
     with `arrayUnion`. When the user document is missing, step 3 fails with the
     store's not-found error and the post stays behind, unreferenced.
     */
    method CreatePostForUser(uid: Id, now: Timestamp, newId: Id) returns (r: Result<Id>)
      requires Valid()
      requires newId !in posts
      modifies this`users, this`posts
      ensures Valid()
      ensures posts == old(posts)[newId := Integrity.CreatedPost(uid, now, newId)]
      ensures uid in old(users) ==> r == Ok(newId) && users == Integrity.AddPostRef(old(users), uid, newId)
      ensures uid !in old(users) ==> r == Err(DocumentNotFound) && users == old(users)
      ensures r.Ok? && newId !in old(users)[uid].posts ==> multiset(users[uid].posts)[newId] == 1
      ensures r.Ok? && Integrity.Consistent(old(users), old(posts)) ==> Integrity.Consistent(users, posts)
    {
      posts := posts[newId := Draft(uid, now)];
      posts := posts[newId := posts[newId].(slug := Some(newId))];
      if uid !in users {
        return Err(DocumentNotFound);
      }
      users := users[uid := users[uid].(posts := ArrayUnion(users[uid].posts, newId))];
      r := Ok(newId);
      if Integrity.Consistent(old(users), old(posts)) {
        Integrity.CreateKeepsConsistent(old(users), old(posts), uid, newId, now);
      }
    }

    /**
     `removePostForUser`: deletes the post, then removes every occurrence of its
     ID from the user's list with `arrayRemove`. A missing user document makes
     that second write fail unobserved, so the users collection is then unchanged.
     */
    method RemovePostForUser(uid: Id, pid: Id)
      requires Valid()
      modifies this`users, this`posts
      ensures Valid()
      ensures posts == old(posts) - {pid}
      ensures users == Integrity.DropPostRef(old(users), uid, pid)
      ensures !Queries.PostWithIDExists(posts, pid)
      ensures uid in users ==> pid !in users[uid].posts
      ensures Integrity.Consistent(old(users), old(posts)) && (pid in old(posts) ==> old(posts)[pid].author == uid)
              ==> Integrity.Consistent(users, posts)
    {
      posts := posts - {pid};
      if uid in users {
        users := users[uid := users[uid].(posts := ArrayRemove(users[uid].posts, pid))];
      }
      if Integrity.Consistent(old(users), old(posts)) && (pid in old(posts) ==> old(posts)[pid].author == uid) {
        Integrity.RemoveKeepsConsistent(old(users), old(posts), uid, pid);
      }
    }

    /**
     `getAllUsersWithPublishedPosts`: walks the users in enumeration order and
     pushes a summary for each user whose list is non-empty and whose published
     summaries are non-empty.
     */
    method GetAllUsersWithPublishedPosts() returns (result: seq<Sitemap.UserSummary>)
      requires Valid()
      ensures result == Sitemap.Sitemap(users, posts, userOrder)
    {
      result := [];
      var i := 0;
      while i < |userOrder|
        invariant 0 <= i <= |userOrder|
        invariant result == Sitemap.Sitemap(users, posts, userOrder[..i])
      {
        var id := userOrder[i];
        var user := users[id];
        Sitemap.SitemapStep(users, posts, userOrder, i);
        if |user.posts| > 0 {
          var published := Sitemap.PublishedSummaries(posts, user.posts);
          if |published| > 0 {
            result := result + [Sitemap.UserSummary(id, user.name, user.photo, user.displayName, published)];
          }
        }
        i := i + 1;
      }
      assert userOrder[..i] == userOrder;
    }
  }
}
