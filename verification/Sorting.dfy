/** Sorting by insertion: what every list that the program sorts has in common. */
module Sorting {

  /** Put in before the elements at the end that are not at most x. */
  function InsertBy<T>(x: T, s: seq<T>, atMost: (T, T) -> bool): seq<T> {
    if s == [] || atMost(s[|s| - 1], x) then s + [x]
    else InsertBy(x, s[..|s| - 1], atMost) + [s[|s| - 1]]
  }

  function SortBy<T>(s: seq<T>, atMost: (T, T) -> bool): seq<T> {
    if s == [] then [] else InsertBy(s[|s| - 1], SortBy(s[..|s| - 1], atMost), atMost)
  }

  ghost predicate Ordering<T(!new)>(atMost: (T, T) -> bool) {
    (forall a, b :: atMost(a, b) || atMost(b, a)) &&
    (forall a, b, c :: atMost(a, b) && atMost(b, c) ==> atMost(a, c))
  }

  ghost predicate SortedBy<T>(s: seq<T>, atMost: (T, T) -> bool) {
    forall i, j :: 0 <= i < j < |s| ==> atMost(s[i], s[j])
  }

  lemma {:induction false} InsertKeeps<T>(x: T, s: seq<T>, atMost: (T, T) -> bool)
    ensures multiset(InsertBy(x, s, atMost)) == multiset(s) + multiset{x}
  {
    if s == [] || atMost(s[|s| - 1], x) {
    } else {
      InsertKeeps(x, s[..|s| - 1], atMost);
      assert s == s[..|s| - 1] + [s[|s| - 1]];
    }
  }

  /** Sorting only moves elements. */
  lemma {:induction false} SortKeeps<T(!new)>(s: seq<T>, atMost: (T, T) -> bool)
    ensures multiset(SortBy(s, atMost)) == multiset(s)
    ensures |SortBy(s, atMost)| == |s| && forall x: T :: x in SortBy(s, atMost) <==> x in s
  {
    if s == [] {
    } else {
      var init, last := s[..|s| - 1], s[|s| - 1];
      SortKeeps(init, atMost);
      InsertKeeps(last, SortBy(init, atMost), atMost);
      assert s == init + [last];
    }
    SameMembers(SortBy(s, atMost), s);
  }

  lemma SameMembers<T(!new)>(a: seq<T>, b: seq<T>)
    requires multiset(a) == multiset(b)
    ensures |a| == |b| && forall x: T :: x in a <==> x in b
  {
    assert |multiset(a)| == |a| && |multiset(b)| == |b|;
    assert forall x: T :: x in a <==> x in multiset(a);
    assert forall x: T :: x in b <==> x in multiset(b);
  }

  lemma {:induction false} InsertSorts<T(!new)>(x: T, s: seq<T>, atMost: (T, T) -> bool)
    requires Ordering(atMost) && SortedBy(s, atMost)
    ensures SortedBy(InsertBy(x, s, atMost), atMost)
  {
    if s == [] || atMost(s[|s| - 1], x) {
    } else {
      var init, last := s[..|s| - 1], s[|s| - 1];
      InsertSorts(x, init, atMost);
      InsertKeeps(x, init, atMost);
      var r := InsertBy(x, init, atMost);
      forall i | 0 <= i < |r|
        ensures atMost(r[i], last)
      {
        assert r[i] in multiset(r);
        if r[i] != x {
          assert r[i] in init;
        }
      }
    }
  }

  /** Sorting by an order sorts. */
  lemma {:induction false} SortSorts<T(!new)>(s: seq<T>, atMost: (T, T) -> bool)
    requires Ordering(atMost)
    ensures SortedBy(SortBy(s, atMost), atMost)
  {
    if s == [] {
    } else {
      SortSorts(s[..|s| - 1], atMost);
      InsertSorts(s[|s| - 1], SortBy(s[..|s| - 1], atMost), atMost);
    }
  }

  // ---- distinct keys ----

  ghost predicate DistinctBy<T, K>(s: seq<T>, key: T -> K) {
    forall i, j :: 0 <= i < j < |s| ==> key(s[i]) != key(s[j])
  }

  lemma {:induction false} InsertDistinct<T(!new), K>(x: T, s: seq<T>, atMost: (T, T) -> bool, key: T -> K)
    requires DistinctBy(s, key) && forall y :: y in s ==> key(y) != key(x)
    ensures DistinctBy(InsertBy(x, s, atMost), key)
  {
    if s == [] || atMost(s[|s| - 1], x) {
    } else {
      var init, last := s[..|s| - 1], s[|s| - 1];
      InsertDistinct(x, init, atMost, key);
      InsertKeeps(x, init, atMost);
      var r := InsertBy(x, init, atMost);
      forall i | 0 <= i < |r|
        ensures key(r[i]) != key(last)
      {
        assert r[i] in multiset(r);
        if r[i] != x {
          assert r[i] in init;
        }
      }
    }
  }

  /** Distinct keys stay distinct. */
  lemma {:induction false} SortDistinct<T(!new), K>(s: seq<T>, atMost: (T, T) -> bool, key: T -> K)
    requires DistinctBy(s, key)
    ensures DistinctBy(SortBy(s, atMost), key)
  {
    if s == [] {
    } else {
      var init, last := s[..|s| - 1], s[|s| - 1];
      SortDistinct(init, atMost, key);
      SortKeeps(init, atMost);
      forall y | y in SortBy(init, atMost)
        ensures key(y) != key(last)
      {
        assert y in init;
      }
      InsertDistinct(last, SortBy(init, atMost), atMost, key);
    }
  }
}
