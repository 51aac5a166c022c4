/**
 The two array field transforms the store applies to a user's `posts` list:
 `arrayUnion(x)` and `arrayRemove(x)`.
 */
module FieldValues {
  import opened Documents

  /** `r` is `s` with some elements dropped and the rest left in their order. */
  predicate Subsequence<T(==)>(r: seq<T>, s: seq<T>)
    decreases |s|
  {
    if r == [] then true
    else if s == [] then false
    else if r[0] == s[0] then Subsequence(r[1..], s[1..])
    else Subsequence(r, s[1..])
  }

  /** Dropping a head element that is not the next one kept. */
  lemma SubsequenceSkip<T>(r: seq<T>, s: seq<T>, x: T)
    requires Subsequence(r, s)
    requires x !in r
    ensures Subsequence(r, [x] + s)
  {
  }

  /** Appending to the source keeps a subsequence. */
  lemma {:induction false} SubsequenceExtend<T>(r: seq<T>, s: seq<T>, x: T)
    requires Subsequence(r, s)
    ensures Subsequence(r, s + [x])
    decreases |s|
  {
    if r != [] {
      assert (s + [x])[1..] == s[1..] + [x];
      if r[0] == s[0] {
        SubsequenceExtend(r[1..], s[1..], x);
      } else {
        SubsequenceExtend(r, s[1..], x);
      }
    }
  }

  /** Appending the same element to both sides keeps a subsequence. */
  lemma {:induction false} SubsequenceAppend<T>(r: seq<T>, s: seq<T>, x: T)
    requires Subsequence(r, s)
    ensures Subsequence(r + [x], s + [x])
    decreases |s|
  {
    if s == [] {
      assert r == [];
      assert Subsequence(r + [x], s + [x]);
    } else {
      assert (s + [x])[1..] == s[1..] + [x];
      if r == [] {
        if s[0] != x {
          SubsequenceAppend(r, s[1..], x);
        }
      } else if r[0] == s[0] {
        assert (r + [x])[1..] == r[1..] + [x];
        SubsequenceAppend(r[1..], s[1..], x);
      } else {
        SubsequenceAppend(r, s[1..], x);
      }
    }
  }

  /**
   `arrayUnion(x)`: appends `x` unless it is already present. Nothing already in
   the list moves, and `x` ends up in it; when it was absent it occurs exactly once.
   */
  function ArrayUnion(s: seq<Id>, x: Id): (r: seq<Id>)
    ensures x in r
    ensures s <= r
    ensures multiset(r)[x] == if x in s then multiset(s)[x] else 1
    ensures forall y :: y != x ==> multiset(r)[y] == multiset(s)[y]
  {
    if x in s then s else s + [x]
  }

  /**
   `arrayRemove(x)`: removes every occurrence of `x`. Every other element keeps
   its number of occurrences and its relative order; a list without `x` is
   returned unchanged.
   */
  function ArrayRemove(s: seq<Id>, x: Id): (r: seq<Id>)
    ensures x !in r
    ensures Subsequence(r, s)
    ensures forall y :: y != x ==> multiset(r)[y] == multiset(s)[y]
    ensures x !in s ==> r == s
  {
    if s == [] then []
    else
      var rest := ArrayRemove(s[1..], x);
      assert s == [s[0]] + s[1..];
      if s[0] == x then
        SubsequenceSkip(rest, s[1..], x);
        rest
      else
        assert ([s[0]] + rest)[1..] == rest;
        [s[0]] + rest
  }
}
