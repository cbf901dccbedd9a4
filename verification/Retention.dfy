/** Retention: which finished sessions a pass removes to bring the store back within its bounds. */
module Retention {
  import opened Common
  import opened Sorting

  type Id = nat

  /** What the pass knows of one stored session. */
  datatype Obj = Obj(id: Id, bytes: nat, order: int, active: bool)

  datatype Limits = Limits(bytes: nat, sessions: nat)

  predicate Exceeds(limits: Limits, total: int, count: int) {
    total > limits.bytes || count > limits.sessions
  }

  function Sum(objs: seq<Obj>): (sum: int)
    ensures |objs| == 1 ==> sum == objs[0].bytes
  {
    if objs == [] then 0 else Sum(objs[..|objs| - 1]) + objs[|objs| - 1].bytes
  }

  lemma {:induction false} SumAppend(a: seq<Obj>, b: seq<Obj>)
    ensures Sum(a + b) == Sum(a) + Sum(b)
  {
    if b == [] {
      assert a + b == a;
    } else {
      SumAppend(a, b[..|b| - 1]);
      assert (a + b)[..|a + b| - 1] == a + b[..|b| - 1];
    }
  }

  /** Lists of the same sessions, each once, have the same length and sum. */
  lemma {:induction false} SameSessions(a: seq<Obj>, b: seq<Obj>)
    requires DistinctIds(a) && DistinctIds(b) && forall o :: o in a <==> o in b
    ensures |a| == |b| && Sum(a) == Sum(b)
  {
    if a == [] {
      HasMember(b);
    } else {
      var init, last := a[..|a| - 1], a[|a| - 1];
      assert a == init + [last] && last in b;
      var k :| 0 <= k < |b| && b[k] == last;
      var rest := b[..k] + b[k + 1..];
      assert b == b[..k] + [last] + b[k + 1..];
      WithoutOne(a, init, |a| - 1);
      WithoutOne(b, rest, k);
      SameSessions(init, rest);
      SumWithout(b[..k], last, b[k + 1..]);
    }
  }

  lemma HasMember(s: seq<Obj>)
    ensures s == [] || exists o :: o in s
  {
    if s != [] {
      assert s[0] in s;
    }
  }

  lemma SumWithout(a: seq<Obj>, o: Obj, b: seq<Obj>)
    ensures Sum(a + [o] + b) == Sum(a + b) + o.bytes
  {
    SumAppend(a + [o], b);
    SumAppend(a, [o]);
    SumAppend(a, b);
  }

  lemma WithoutOne(a: seq<Obj>, rest: seq<Obj>, k: nat)
    requires k < |a| && DistinctIds(a) && rest == a[..k] + a[k + 1..]
    ensures DistinctIds(rest) && forall o :: o in rest <==> o in a && o != a[k]
  {
    forall o
      ensures o in rest <==> o in a && o != a[k]
    {
      if o in rest {
        var i :| 0 <= i < |rest| && rest[i] == o;
        var j := if i < k then i else i + 1;
        assert a[j] == o && a[j].id != a[k].id;
      }
      if o in a && o != a[k] {
        var j :| 0 <= j < |a| && a[j] == o;
        assert rest[if j < k then j else j - 1] == o;
      }
    }
  }

  // ---- oldest first ----

  predicate Older(a: Obj, b: Obj) {
    a.order < b.order || (a.order == b.order && a.id <= b.id)
  }

  ghost predicate OldestFirst(objs: seq<Obj>) {
    SortedBy(objs, Older)
  }

  ghost predicate DistinctIds(objs: seq<Obj>) {
    DistinctBy(objs, (o: Obj) => o.id)
  }

  lemma {:induction false} FilterDistinct(s: seq<Obj>, keep: Obj -> bool)
    requires DistinctIds(s)
    ensures DistinctIds(Filter(s, keep))
  {
    if s == [] {
    } else {
      var init, last := s[..|s| - 1], s[|s| - 1];
      FilterDistinct(init, keep);
      FilterMembers(init, keep);
      var kept := Filter(init, keep);
      forall i | 0 <= i < |kept|
        ensures kept[i].id != last.id
      {
        assert kept[i] in kept;
        var j :| 0 <= j < |init| && init[j] == kept[i];
        assert s[j] == init[j];
      }
    }
  }

  // ---- the pass ----

  /** The sessions one pass removes; `blocked` are the ones whose deletion fails, which ends the pass. */
  function Purge(
    candidates: seq<Obj>, total: int, count: int, limits: Limits, leased: set<Id>, blocked: set<Id>): seq<Obj>
  {
    if candidates == [] || !Exceeds(limits, total, count) then []
    else
      var o, rest := candidates[0], candidates[1..];
      if o.id in leased then Purge(rest, total, count, limits, leased, blocked)
      else if o.id in blocked then []
      else [o] + Purge(rest, total - o.bytes, count - 1, limits, leased, blocked)
  }

  /** How many candidates the pass examines and leaves behind. */
  function Reach(candidates: seq<Obj>, total: int, count: int, limits: Limits, leased: set<Id>, blocked: set<Id>): nat {
    if candidates == [] || !Exceeds(limits, total, count) then 0
    else
      var o, rest := candidates[0], candidates[1..];
      if o.id in leased then 1 + Reach(rest, total, count, limits, leased, blocked)
      else if o.id in blocked then 0
      else 1 + Reach(rest, total - o.bytes, count - 1, limits, leased, blocked)
  }

  lemma {:induction false} FilterCons(o: Obj, s: seq<Obj>, keep: Obj -> bool)
    ensures Filter([o] + s, keep) == (if keep(o) then [o] else []) + Filter(s, keep)
  {
    FilterAppend([o], s, keep);
    assert [o][..0] == [];
  }

  /** Oldest first apart from leased ones: the pass removes exactly the unleased candidates before some point. */
  lemma {:induction false} PurgeIsOldestUnleased(candidates: seq<Obj>, total: int, count: int, limits: Limits,
                                                 leased: set<Id>, blocked: set<Id>)
    ensures var n := Reach(candidates, total, count, limits, leased, blocked);
      n <= |candidates| &&
      Purge(candidates, total, count, limits, leased, blocked) == Filter(candidates[..n], (o: Obj) => o.id !in leased)
    decreases |candidates|
  {
    if candidates == [] || !Exceeds(limits, total, count) {
    } else {
      var o, rest := candidates[0], candidates[1..];
      var keep := (x: Obj) => x.id !in leased;
      if o.id in leased || o.id !in blocked {
        var total', count' :=
          if o.id in leased then total else total - o.bytes, if o.id in leased then count else count - 1;
        PurgeIsOldestUnleased(rest, total', count', limits, leased, blocked);
        var n := Reach(rest, total', count', limits, leased, blocked);
        assert candidates[..n + 1] == [o] + rest[..n];
        FilterCons(o, rest[..n], keep);
      }
    }
  }

  /** It stops there because both bounds are met, or the next deletion fails, or no candidate is left. */
  lemma {:induction false} PurgeStops(candidates: seq<Obj>, total: int, count: int, limits: Limits,
                                      leased: set<Id>, blocked: set<Id>)
    ensures var removed := Purge(candidates, total, count, limits, leased, blocked);
      var n := Reach(candidates, total, count, limits, leased, blocked);
      n <= |candidates| &&
      (n == |candidates| || (total - Sum(removed) <= limits.bytes && count - |removed| <= limits.sessions) ||
       (candidates[n].id in blocked && candidates[n].id !in leased))
    decreases |candidates|
  {
    if candidates == [] || !Exceeds(limits, total, count) {
    } else {
      var o, rest := candidates[0], candidates[1..];
      if o.id in leased {
        PurgeStops(rest, total, count, limits, leased, blocked);
      } else if o.id !in blocked {
        PurgeStops(rest, total - o.bytes, count - 1, limits, leased, blocked);
        SumAppend([o], Purge(rest, total - o.bytes, count - 1, limits, leased, blocked));
        assert [o][..0] == [];
      }
    }
  }

  /** Each removal happened while a bound was still exceeded. */
  lemma PurgeOnlyWhileExceeded(candidates: seq<Obj>, total: int, count: int, limits: Limits,
                                                  leased: set<Id>, blocked: set<Id>, k: nat)
    requires k < |Purge(candidates, total, count, limits, leased, blocked)|
    ensures var removed := Purge(candidates, total, count, limits, leased, blocked);
      total - Sum(removed[..k]) > limits.bytes || count - k > limits.sessions
    decreases |candidates|
  {
    var o, rest := candidates[0], candidates[1..];
    if o.id in leased {
      PurgeOnlyWhileExceeded(rest, total, count, limits, leased, blocked, k);
    } else if k > 0 {
      PurgeOnlyWhileExceeded(rest, total - o.bytes, count - 1, limits, leased, blocked, k - 1);
      var tail := Purge(rest, total - o.bytes, count - 1, limits, leased, blocked);
      assert ([o] + tail)[..k] == [o] + tail[..k - 1];
      SumAppend([o], tail[..k - 1]);
      assert [o][..0] == [];
    }
  }

  /** Without deletion errors the pass ends within both bounds, or every finished session left is leased. */
  lemma PurgeEnds(candidates: seq<Obj>, total: int, count: int, limits: Limits, leased: set<Id>)
    ensures var removed := Purge(candidates, total, count, limits, leased, {});
      (total - Sum(removed) <= limits.bytes && count - |removed| <= limits.sessions) ||
      forall o :: o in candidates && o !in removed ==> o.id in leased
  {
    PurgeIsOldestUnleased(candidates, total, count, limits, leased, {});
    PurgeStops(candidates, total, count, limits, leased, {});
    var n := Reach(candidates, total, count, limits, leased, {});
    FilterMembers(candidates[..n], (o: Obj) => o.id !in leased);
    if n == |candidates| {
      assert candidates[..n] == candidates;
    }
  }

  lemma PurgeMembers(candidates: seq<Obj>, total: int, count: int, limits: Limits,
                                        leased: set<Id>, blocked: set<Id>)
    ensures forall o :: o in Purge(candidates, total, count, limits, leased, blocked) ==>
      o in candidates && o.id !in leased
  {
    PurgeIsOldestUnleased(candidates, total, count, limits, leased, blocked);
    var n := Reach(candidates, total, count, limits, leased, blocked);
    FilterMembers(candidates[..n], (o: Obj) => o.id !in leased);
  }

  /** The finished sessions, oldest first. */
  function Candidates(objects: seq<Obj>): seq<Obj> {
    SortBy(Filter(objects, (o: Obj) => !o.active), Older)
  }

  /** The loop of `enforce_retention`, with its running total and count. */
  method PurgePass(candidates: seq<Obj>, startTotal: int, startCount: int, limits: Limits, leased: set<Id>,
                   blocked: set<Id>)
    returns (removed: seq<Obj>, total: int, count: int)
    ensures removed == Purge(candidates, startTotal, startCount, limits, leased, blocked)
    ensures total == startTotal - Sum(removed) && count == startCount - |removed|
  {
    total, count := startTotal, startCount;
    removed := [];
    var i := 0;
    while i < |candidates|
      invariant i <= |candidates|
      invariant removed + Purge(candidates[i..], total, count, limits, leased, blocked) ==
                Purge(candidates, startTotal, startCount, limits, leased, blocked)
      invariant total == startTotal - Sum(removed) && count == startCount - |removed|
    {
      if total <= limits.bytes && count <= limits.sessions {
        break;
      }
      var item := candidates[i];
      assert candidates[i..][1..] == candidates[i + 1..];
      i := i + 1;
      if item.id in leased {
        continue;
      }
      if item.id in blocked {
        break;
      }
      assert (removed + [item])[..|removed|] == removed;
      total, count := total - item.bytes, count - 1;
      removed := removed + [item];
    }
  }

  /** The candidates are the finished sessions, each once, oldest first. */
  lemma CandidatesAreFinished(objects: seq<Obj>)
    requires DistinctIds(objects)
    ensures OldestFirst(Candidates(objects)) && DistinctIds(Candidates(objects))
    ensures forall o :: o in Candidates(objects) <==> o in objects && !o.active
  {
    FilterDistinct(objects, (o: Obj) => !o.active);
    FilterMembers(objects, (o: Obj) => !o.active);
    var finished := Filter(objects, (o: Obj) => !o.active);
    SortKeeps(finished, Older);
    SortSorts(finished, Older);
    SortDistinct(finished, Older, (o: Obj) => o.id);
  }

  lemma OlderIsEarlier(candidates: seq<Obj>, i: nat, j: nat)
    requires OldestFirst(candidates) && i < |candidates| && j < |candidates|
    requires var o, x := candidates[i], candidates[j]; x.order < o.order || (x.order == o.order && x.id < o.id)
    ensures j < i
  {
    assert i == j || Older(candidates[Min(i, j)], candidates[Max(i, j)]);
  }

  /** An object is removed only after every finished, unleased one that is older, or as old with a smaller id. */
  lemma OldestGoFirst(
    objects: seq<Obj>, total: int, count: int, limits: Limits, leased: set<Id>, blocked: set<Id>, o: Obj, x: Obj)
    requires DistinctIds(objects) && o in Purge(Candidates(objects), total, count, limits, leased, blocked)
    requires x in objects && !x.active && x.id !in leased
    requires x.order < o.order || (x.order == o.order && x.id < o.id)
    ensures x in Purge(Candidates(objects), total, count, limits, leased, blocked)
  {
    var candidates := Candidates(objects);
    var n := Reach(candidates, total, count, limits, leased, blocked);
    CandidatesAreFinished(objects);
    PurgeIsOldestUnleased(candidates, total, count, limits, leased, blocked);
    FilterMembers(candidates[..n], (y: Obj) => y.id !in leased);
    var i :| 0 <= i < n && candidates[i] == o;
    var j :| 0 <= j < |candidates| && candidates[j] == x;
    OlderIsEarlier(candidates, i, j);
    assert candidates[..n][j] == x;
  }

  // ---- the running total ----

  function Ids(objs: seq<Obj>): set<Id> {
    set o | o in objs :: o.id
  }

  function Left(objects: seq<Obj>, gone: set<Id>): seq<Obj> {
    Filter(objects, (o: Obj) => o.id !in gone)
  }

  lemma {:induction false} LeftUnchanged(objects: seq<Obj>, gone: set<Id>, id: Id)
    requires forall o :: o in objects ==> o.id != id
    ensures Left(objects, gone + {id}) == Left(objects, gone)
  {
    if objects == [] {
    } else {
      LeftUnchanged(objects[..|objects| - 1], gone, id);
    }
  }

  lemma LeftSnoc(init: seq<Obj>, last: Obj, gone: set<Id>)
    ensures Left(init + [last], gone) == Left(init, gone) + (if last.id !in gone then [last] else [])
    ensures Sum(Left(init + [last], gone)) == Sum(Left(init, gone)) + (if last.id !in gone then last.bytes else 0)
  {
    assert (init + [last])[..|init|] == init;
    SumAppend(Left(init, gone), if last.id !in gone then [last] else []);
    assert [last][..0] == [];
  }

  lemma LeftOneLess(objects: seq<Obj>, gone: set<Id>, o: Obj)
    requires DistinctIds(objects) && o in objects && o.id !in gone
    ensures Sum(Left(objects, gone)) == Sum(Left(objects, gone + {o.id})) + o.bytes
    ensures |Left(objects, gone)| == |Left(objects, gone + {o.id})| + 1
  {
    var init, last := objects[..|objects| - 1], objects[|objects| - 1];
    assert objects == init + [last];
    LeftSnoc(init, last, gone);
    LeftSnoc(init, last, gone + {o.id});
    if o == last {
      forall x | x in init
        ensures x.id != o.id
      {
        var i :| 0 <= i < |init| && init[i] == x;
        assert objects[i].id != objects[|objects| - 1].id;
      }
      LeftUnchanged(init, gone, o.id);
    } else {
      assert o in init && last.id != o.id by {
        var i :| 0 <= i < |objects| && objects[i] == o;
        assert init[i] == o && objects[i].id != objects[|objects| - 1].id;
      }
      LeftOneLess(init, gone, o);
    }
  }

  lemma {:induction false} LeftAll(objects: seq<Obj>)
    ensures Left(objects, {}) == objects
  {
    if objects == [] {
    } else {
      LeftAll(objects[..|objects| - 1]);
      assert objects == objects[..|objects| - 1] + [objects[|objects| - 1]];
    }
  }

  /** The pass's running total and count are those of the sessions that remain. */
  lemma {:induction false} RemainingTotal(objects: seq<Obj>, removed: seq<Obj>)
    requires DistinctIds(objects) && DistinctIds(removed) && forall o :: o in removed ==> o in objects
    ensures Sum(Left(objects, Ids(removed))) == Sum(objects) - Sum(removed)
    ensures |Left(objects, Ids(removed))| == |objects| - |removed|
  {
    if removed == [] {
      LeftAll(objects);
      assert Ids(removed) == {};
    } else {
      var init, last := removed[..|removed| - 1], removed[|removed| - 1];
      assert removed == init + [last];
      RemainingTotal(objects, init);
      assert Ids(removed) == Ids(init) + {last.id};
      LeftOneLess(objects, Ids(init), last);
    }
  }

  lemma LeftMembers(objects: seq<Obj>, gone: set<Id>)
    ensures forall o :: o in Left(objects, gone) <==> o in objects && o.id !in gone
  {
    FilterMembers(objects, (o: Obj) => o.id !in gone);
  }

  lemma PurgedAreFinished(objects: seq<Obj>, total: int, count: int, limits: Limits,
                                             leased: set<Id>, blocked: set<Id>)
    requires DistinctIds(objects)
    ensures var removed := Purge(Candidates(objects), total, count, limits, leased, blocked);
      DistinctIds(removed) && forall o :: o in removed ==> o in objects && !o.active && o.id !in leased
  {
    var candidates := Candidates(objects);
    CandidatesAreFinished(objects);
    PurgeMembers(candidates, total, count, limits, leased, blocked);
    PurgeIsOldestUnleased(candidates, total, count, limits, leased, blocked);
    var n := Reach(candidates, total, count, limits, leased, blocked);
    FilterDistinct(candidates[..n], (o: Obj) => o.id !in leased);
  }

  /**
   One pass over the stored objects: only finished, unleased sessions go, and
   without deletion errors the store ends within both bounds, or with every
   remaining finished session leased.
   */
  lemma PassGuarantees(objects: seq<Obj>, limits: Limits, leased: set<Id>)
    requires DistinctIds(objects)
    ensures var removed := Purge(Candidates(objects), Sum(objects), |objects|, limits, leased, {});
      var left := Left(objects, Ids(removed));
      Sum(left) == Sum(objects) - Sum(removed) && |left| == |objects| - |removed| &&
      ((Sum(left) <= limits.bytes && |left| <= limits.sessions) ||
       forall o :: o in left && !o.active ==> o.id in leased)
  {
    var removed := Purge(Candidates(objects), Sum(objects), |objects|, limits, leased, {});
    CandidatesAreFinished(objects);
    PurgedAreFinished(objects, Sum(objects), |objects|, limits, leased, {});
    PurgeEnds(Candidates(objects), Sum(objects), |objects|, limits, leased);
    PassEnds(objects, Candidates(objects), removed, limits, leased);
  }

  lemma PassEnds(objects: seq<Obj>, candidates: seq<Obj>, removed: seq<Obj>, limits: Limits, leased: set<Id>)
    requires DistinctIds(objects) && DistinctIds(removed) && forall o :: o in removed ==> o in objects
    requires forall o :: o in candidates <==> o in objects && !o.active
    requires (Sum(objects) - Sum(removed) <= limits.bytes && |objects| - |removed| <= limits.sessions) ||
             forall o :: o in candidates && o !in removed ==> o.id in leased
    ensures var left := Left(objects, Ids(removed));
      Sum(left) == Sum(objects) - Sum(removed) && |left| == |objects| - |removed| &&
      ((Sum(left) <= limits.bytes && |left| <= limits.sessions) ||
       forall o :: o in left && !o.active ==> o.id in leased)
  {
    RemainingTotal(objects, removed);
    LeftMembers(objects, Ids(removed));
    assert forall o :: o in removed ==> o.id in Ids(removed);
  }
}
