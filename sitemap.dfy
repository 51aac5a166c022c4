/**
 The sitemap traversal `getAllUsersWithPublishedPosts`: every user, in the
 store's enumeration order, who has at least one existing published post,
 with the public fields of those posts.
 */
module Sitemap {
  import opened Documents
  import opened FieldValues

  /** The public projection of a post: `id`, `slug`, `lastEdited`, `title`. */
  datatype PostSummary = PostSummary(id: Id, slug: Option<string>, lastEdited: Timestamp, title: string)

  /** The public projection of a user: `id`, `name`, `photo`, `displayName` and the published posts. */
  datatype UserSummary = UserSummary(
    id: Id,
    name: string,
    photo: string,
    displayName: string,
    posts: seq<PostSummary>)

  /** The referenced post document exists and is published: it passes the filter. */
  predicate Listed(posts: map<Id, Post>, id: Id)
  {
    id in posts && posts[id].published
  }

  function Summarize(id: Id, p: Post): PostSummary
  {
    PostSummary(id, p.slug, p.lastEdited, p.title)
  }

  /** The post IDs of a list of summaries, in list order. */
  function IdsOf(ss: seq<PostSummary>): seq<Id>
  {
    seq(|ss|, i requires 0 <= i < |ss| => ss[i].id)
  }

  /** The user IDs of a list of summaries, in list order. */
  function UserIdsOf(us: seq<UserSummary>): seq<Id>
  {
    seq(|us|, i requires 0 <= i < |us| => us[i].id)
  }

  lemma IdsOfCons(s: PostSummary, rest: seq<PostSummary>)
    ensures IdsOf([s] + rest) == [s.id] + IdsOf(rest)
  {
    assert forall i :: 1 <= i <= |rest| ==> ([s] + rest)[i] == rest[i - 1];
  }

  lemma UserIdsOfSnoc(prefix: seq<UserSummary>, u: UserSummary)
    ensures UserIdsOf(prefix + [u]) == UserIdsOf(prefix) + [u.id]
  {
  }

  /**
   The `filter`/`map` over one user's referenced posts: the summaries of the
   existing published posts, in reference order, each as often as it is
   referenced, and nothing else.
   */
  function PublishedSummaries(posts: map<Id, Post>, ids: seq<Id>): (r: seq<PostSummary>)
    ensures forall j :: 0 <= j < |r| ==> Listed(posts, r[j].id) && r[j] == Summarize(r[j].id, posts[r[j].id])
    ensures Subsequence(IdsOf(r), ids)
    ensures forall id :: multiset(IdsOf(r))[id] == if Listed(posts, id) then multiset(ids)[id] else 0
  {
    if ids == [] then []
    else
      var rest := PublishedSummaries(posts, ids[1..]);
      assert ids == [ids[0]] + ids[1..];
      assert multiset(ids) == multiset{ids[0]} + multiset(ids[1..]);
      if Listed(posts, ids[0]) then
        var r := [Summarize(ids[0], posts[ids[0]])] + rest;
        IdsOfCons(r[0], rest);
        assert multiset(IdsOf(r)) == multiset{ids[0]} + multiset(IdsOf(rest));
        r
      else
        assert multiset(IdsOf(rest))[ids[0]] == 0;
        SubsequenceSkip(IdsOf(rest), ids[1..], ids[0]);
        rest
  }

  /** A user's published list is non-empty exactly when one referenced post exists and is published. */
  lemma PublishedSummariesNonEmpty(posts: map<Id, Post>, ids: seq<Id>)
    ensures |PublishedSummaries(posts, ids)| > 0 <==> exists i :: 0 <= i < |ids| && Listed(posts, ids[i])
  {
  }

  /** The user passes both tests of the traversal: a non-empty list, and a published post in it. */
  predicate Included(users: map<Id, User>, posts: map<Id, Post>, id: Id)
  {
    && id in users
    && |users[id].posts| > 0
    && exists i :: 0 <= i < |users[id].posts| && Listed(posts, users[id].posts[i])
  }

  /** What the traversal pushes for one enumerated user: one summary, or nothing. */
  function Entry(users: map<Id, User>, posts: map<Id, Post>, id: Id): seq<UserSummary>
    requires id in users
  {
    var u := users[id];
    if |u.posts| > 0 then
      var published := PublishedSummaries(posts, u.posts);
      if |published| > 0 then [UserSummary(id, u.name, u.photo, u.displayName, published)] else []
    else []
  }

  /** The traversal's result over the users enumerated in `order`. */
  function Sitemap(users: map<Id, User>, posts: map<Id, Post>, order: seq<Id>): seq<UserSummary>
    requires forall k :: k in order ==> k in users
  {
    if order == [] then []
    else Sitemap(users, posts, order[..|order| - 1]) + Entry(users, posts, order[|order| - 1])
  }

  /** `s` is the summary the traversal builds for an included user. */
  predicate SummaryOf(users: map<Id, User>, posts: map<Id, Post>, s: UserSummary)
  {
    && Included(users, posts, s.id)
    && var u := users[s.id];
    && s == UserSummary(s.id, u.name, u.photo, u.displayName, PublishedSummaries(posts, u.posts))
  }

  /** The traversal over one more enumerated user pushes that user's entry. */
  lemma SitemapStep(users: map<Id, User>, posts: map<Id, Post>, order: seq<Id>, i: nat)
    requires i < |order|
    requires forall k :: k in order ==> k in users
    ensures forall k :: k in order[..i + 1] ==> k in users
    ensures Sitemap(users, posts, order[..i + 1]) == Sitemap(users, posts, order[..i]) + Entry(users, posts, order[i])
  {
    var done := order[..i + 1];
    assert done[..i] == order[..i] && done[i] == order[i];
  }

  /** Every listed user passes `Included` and carries its public fields and published summaries. */
  lemma {:induction false} SitemapEntries(users: map<Id, User>, posts: map<Id, Post>, order: seq<Id>)
    requires forall k :: k in order ==> k in users
    ensures forall s :: s in Sitemap(users, posts, order) ==> SummaryOf(users, posts, s)
  {
    if order != [] {
      var front, last := order[..|order| - 1], order[|order| - 1];
      SitemapEntries(users, posts, front);
      PublishedSummariesNonEmpty(posts, users[last].posts);
    }
  }

  /** The user IDs the traversal adds for one more enumerated user. */
  lemma SitemapIdsStep(users: map<Id, User>, posts: map<Id, Post>, order: seq<Id>)
    requires order != []
    requires forall k :: k in order ==> k in users
    ensures var front, last := order[..|order| - 1], order[|order| - 1];
            UserIdsOf(Sitemap(users, posts, order))
              == UserIdsOf(Sitemap(users, posts, front)) + (if Included(users, posts, last) then [last] else [])
  {
    var front, last := order[..|order| - 1], order[|order| - 1];
    var prefix, e := Sitemap(users, posts, front), Entry(users, posts, last);
    PublishedSummariesNonEmpty(posts, users[last].posts);
    if e != [] {
      UserIdsOfSnoc(prefix, e[0]);
    } else {
      assert prefix + e == prefix;
    }
  }

  /** The listed users are exactly the enumerated users that pass `Included`. */
  lemma {:induction false} SitemapMembers(users: map<Id, User>, posts: map<Id, Post>, order: seq<Id>)
    requires forall k :: k in order ==> k in users
    ensures forall id :: id in UserIdsOf(Sitemap(users, posts, order)) <==> id in order && Included(users, posts, id)
  {
    if order != [] {
      var front, last := order[..|order| - 1], order[|order| - 1];
      assert order == front + [last];
      SitemapMembers(users, posts, front);
      SitemapIdsStep(users, posts, order);
    }
  }

  /** The listed users appear in enumeration order. */
  lemma {:induction false} SitemapInOrder(users: map<Id, User>, posts: map<Id, Post>, order: seq<Id>)
    requires forall k :: k in order ==> k in users
    ensures Subsequence(UserIdsOf(Sitemap(users, posts, order)), order)
  {
    if order != [] {
      var front, last := order[..|order| - 1], order[|order| - 1];
      assert order == front + [last];
      SitemapInOrder(users, posts, front);
      SitemapIdsStep(users, posts, order);
      if Included(users, posts, last) {
        SubsequenceAppend(UserIdsOf(Sitemap(users, posts, front)), front, last);
      } else {
        var ids := UserIdsOf(Sitemap(users, posts, front));
        assert ids + [] == ids;
        SubsequenceExtend(ids, front, last);
      }
    }
  }

  /**
   User "a" references a published post and a draft, user "b" references
   nothing: the sitemap lists "a" alone, with the published post only.
   */
  lemma SitemapExample(t: Timestamp)
    ensures var published := Post("Hello", "", "", "a", true, t, Some("hello"));
            var draft := Post("", "", "", "a", false, t, Some("p2"));
            var users := map["a" := User("alice", "Alice", "a.png", ["p1", "p2"]), "b" := User("bob", "Bob", "b.png", [])];
            var posts := map["p1" := published, "p2" := draft];
            Sitemap(users, posts, ["a", "b"])
              == [UserSummary("a", "alice", "a.png", "Alice", [PostSummary("p1", Some("hello"), t, "Hello")])]
  {
    var published := Post("Hello", "", "", "a", true, t, Some("hello"));
    var draft := Post("", "", "", "a", false, t, Some("p2"));
    var users := map["a" := User("alice", "Alice", "a.png", ["p1", "p2"]), "b" := User("bob", "Bob", "b.png", [])];
    var posts := map["p1" := published, "p2" := draft];
    var ids: seq<Id> := ["p1", "p2"];
    assert ids[1..] == ["p2"] && ids[1..][1..] == [];
    assert PublishedSummaries(posts, ids[1..]) == [];
    assert PublishedSummaries(posts, ids) == [PostSummary("p1", Some("hello"), t, "Hello")];
    assert Entry(users, posts, "a") == [UserSummary("a", "alice", "a.png", "Alice", [PostSummary("p1", Some("hello"), t, "Hello")])];
    assert Entry(users, posts, "b") == [];
    var order: seq<Id> := ["a", "b"];
    SitemapStep(users, posts, order, 0);
    SitemapStep(users, posts, order, 1);
    assert order[..0] == [] && order[..2] == order;
  }
}
