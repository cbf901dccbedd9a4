/** Value types shared by the model. */
module Common {

  datatype Option<+T> = None | Some(value: T)

  /** The source's exceptions become the Err side of a Result. */
  datatype Result<+T, +E> = Ok(value: T) | Err(error: E)

  /** A truth value of the assessment: None is "unknown". */
  type Truth = Option<bool>

  function Min(a: int, b: int): int { if a < b then a else b }

  function Max(a: int, b: int): int { if a > b then a else b }

  /** The elements that pass a test, in their order. */
  function Filter<T>(s: seq<T>, keep: T -> bool): seq<T> {
    if s == [] then []
    else Filter(s[..|s| - 1], keep) + (if keep(s[|s| - 1]) then [s[|s| - 1]] else [])
  }

  lemma {:induction false} FilterMember<T>(s: seq<T>, keep: T -> bool, x: T)
    ensures x in Filter(s, keep) <==> x in s && keep(x)
  {
    if s == [] {
    } else {
      FilterMember(s[..|s| - 1], keep, x);
      assert s == s[..|s| - 1] + [s[|s| - 1]];
    }
  }

  lemma FilterMembers<T(!new)>(s: seq<T>, keep: T -> bool)
    ensures forall x: T :: x in Filter(s, keep) <==> x in s && keep(x)
  {
    forall x: T
      ensures x in Filter(s, keep) <==> x in s && keep(x)
    {
      FilterMember(s, keep, x);
    }
  }

  lemma {:induction false} FilterAppend<T>(a: seq<T>, b: seq<T>, keep: T -> bool)
    ensures Filter(a + b, keep) == Filter(a, keep) + Filter(b, keep)
  {
    if b == [] {
      assert a + b == a;
    } else {
      FilterAppend(a, b[..|b| - 1], keep);
      assert (a + b)[..|a + b| - 1] == a + b[..|b| - 1];
    }
  }

  lemma Regroup<T>(a: seq<T>, b: seq<T>, c: seq<T>)
    ensures a + (b + c) == (a + b) + c
  {
  }

  // ---- lists ordered by a key ----

  ghost predicate Rising<T>(s: seq<T>, key: T -> int) {
    forall i, j :: 0 <= i < j < |s| ==> key(s[i]) < key(s[j])
  }

  lemma RisingLast<T>(s: seq<T>, key: T -> int, x: T)
    requires s != [] && Rising(s, key)
    ensures x in s[..|s| - 1] <==> x in s && x != s[|s| - 1]
  {
    assert s == s[..|s| - 1] + [s[|s| - 1]];
  }

  /** A list with a rising key is determined by its members. */
  lemma {:induction false} RisingIsUnique<T>(a: seq<T>, b: seq<T>, key: T -> int)
    requires Rising(a, key) && Rising(b, key)
    requires forall x :: x in a <==> x in b
    ensures a == b
  {
    assert b == [] || b[0] in a;
    if a == [] {
    } else {
      assert a[0] in b;
      var la, lb := a[|a| - 1], b[|b| - 1];
      assert la in b && lb in a;
      assert key(la) == key(lb);
      assert la == lb;
      var ia, ib := a[..|a| - 1], b[..|b| - 1];
      forall x
        ensures x in ia <==> x in ib
      {
        RisingLast(a, key, x);
        RisingLast(b, key, x);
      }
      RisingIsUnique(ia, ib, key);
      assert a == ia + [la] && b == ib + [lb];
    }
  }

  lemma {:induction false} FilterRising<T>(s: seq<T>, keep: T -> bool, key: T -> int)
    requires Rising(s, key)
    ensures Rising(Filter(s, keep), key)
  {
    if s == [] {
    } else {
      var init, last := s[..|s| - 1], s[|s| - 1];
      FilterRising(init, keep, key);
      var kept := Filter(init, keep);
      forall i | 0 <= i < |kept|
        ensures key(kept[i]) < key(last)
      {
        FilterMember(init, keep, kept[i]);
        assert kept[i] in kept;
      }
    }
  }

  /** A filtered list with a rising key is the one such list of the elements that pass. */
  lemma FilterIs<T(!new)>(s: seq<T>, keep: T -> bool, key: T -> int, kept: seq<T>)
    requires Rising(s, key) && Rising(kept, key)
    requires forall x: T :: x in kept <==> x in s && keep(x)
    ensures Filter(s, keep) == kept
  {
    FilterRising(s, keep, key);
    FilterMembers(s, keep);
    RisingIsUnique(Filter(s, keep), kept, key);
  }
}
