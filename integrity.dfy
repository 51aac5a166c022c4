/**
 The two-way reference between the collections: a user's `posts` list names
 its posts, and each post's `author` names its user. The store does not keep
 it; post creation and removal do, as the lemmas below show.
 */
module Integrity {
  import opened Documents
  import opened FieldValues
  import Queries

  /**
   Every post's author exists and lists it; every ID a user lists names an
   existing post whose author is that user.
   */
  ghost predicate Consistent(users: map<Id, User>, posts: map<Id, Post>)
  {
    && (forall pid :: pid in posts ==> posts[pid].author in users && pid in users[posts[pid].author].posts)
    && (forall uid, i :: uid in users && 0 <= i < |users[uid].posts| ==>
          users[uid].posts[i] in posts && posts[users[uid].posts[i]].author == uid)
  }

  /** The post document after the first two steps of `createPostForUser`: a draft whose slug is its ID. */
  function CreatedPost(author: Id, now: Timestamp, pid: Id): (p: Post)
    ensures p.title == "" && p.excerpt == "" && p.content == ""
    ensures p.author == author && !p.published && p.lastEdited == now && p.slug == Some(pid)
  {
    Draft(author, now).(slug := Some(pid))
  }

  /** The `users` collection after `update({ posts: arrayUnion(pid) })` on `uid`. */
  function AddPostRef(users: map<Id, User>, uid: Id, pid: Id): (r: map<Id, User>)
    requires uid in users
    ensures r.Keys == users.Keys
    ensures forall k :: k in users && k != uid ==> r[k] == users[k]
    ensures r[uid] == users[uid].(posts := ArrayUnion(users[uid].posts, pid))
  {
    users[uid := users[uid].(posts := ArrayUnion(users[uid].posts, pid))]
  }

  /** The `users` collection after `update({ posts: arrayRemove(pid) })` on `uid`; a missing user is left alone. */
  function DropPostRef(users: map<Id, User>, uid: Id, pid: Id): (r: map<Id, User>)
    ensures r.Keys == users.Keys
    ensures forall k :: k in users && k != uid ==> r[k] == users[k]
    ensures uid in users ==> r[uid] == users[uid].(posts := ArrayRemove(users[uid].posts, pid))
  {
    if uid in users then users[uid := users[uid].(posts := ArrayRemove(users[uid].posts, pid))] else users
  }

  /** Creating a post for an existing user keeps the references consistent. */
  lemma CreateKeepsConsistent(users: map<Id, User>, posts: map<Id, Post>, uid: Id, pid: Id, now: Timestamp)
    requires Consistent(users, posts)
    requires uid in users && pid !in posts
    ensures Consistent(AddPostRef(users, uid, pid), posts[pid := CreatedPost(uid, now, pid)])
  {
  }

  /** Removing a post through its own author keeps the references consistent. */
  lemma RemoveKeepsConsistent(users: map<Id, User>, posts: map<Id, Post>, uid: Id, pid: Id)
    requires Consistent(users, posts)
    requires pid in posts ==> posts[pid].author == uid
    ensures Consistent(DropPostRef(users, uid, pid), posts - {pid})
  {
    var users', posts' := DropPostRef(users, uid, pid), posts - {pid};
    forall k, i | k in users' && 0 <= i < |users'[k].posts|
      ensures users'[k].posts[i] in posts' && posts'[users'[k].posts[i]].author == k
    {
      var x := users'[k].posts[i];
      if k == uid {
        assert x in users[uid].posts by {
          assert multiset(users'[uid].posts)[x] > 0;
        }
        var j :| 0 <= j < |users[uid].posts| && users[uid].posts[j] == x;
      } else {
        assert x == users[k].posts[i];
        assert x != pid;
      }
    }
    forall q | q in posts'
      ensures posts'[q].author in users' && q in users'[posts'[q].author].posts
    {
      var a := posts[q].author;
      if a == uid {
        assert multiset(users[a].posts)[q] > 0;
      }
    }
  }

  /** In a consistent store every user hydrates, and every hydrated post names that user as author. */
  lemma ConsistentUsersHydrate(users: map<Id, User>, posts: map<Id, Post>, id: Id)
    requires Consistent(users, posts)
    requires id in users
    ensures Queries.GetUserByID(users, posts, id).Ok?
    ensures forall p :: p in Queries.GetUserByID(users, posts, id).value.posts ==> p.post.author == id
  {
  }
}
