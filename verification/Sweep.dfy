/**
 The sweep line of the assessment engine: `_integrate` turns three-valued pieces
 of time into exact amounts of true, false and unknown time.
 */
module Sweep {
  import opened Common
  import opened Cells
  import opened Sorting

  /** A stretch of time [start, end) with one truth value; None is "unknown". */
  datatype Piece = Piece(start: int, end: int, truth: Truth)

  predicate Covers(p: Piece, c: int) {
    p.start <= c < p.end
  }

  /**
   What a set of pieces says about a cell: true only if some piece covers it and
   every covering piece is true, false likewise, and unknown otherwise.
   */
  ghost function Status(pieces: seq<Piece>, c: int): Truth {
    if (exists p :: p in pieces && Covers(p, c)) &&
       (forall p :: p in pieces && Covers(p, c) ==> p.truth == Some(true)) then Some(true)
    else if (exists p :: p in pieces && Covers(p, c)) &&
            (forall p :: p in pieces && Covers(p, c) ==> p.truth == Some(false)) then Some(false)
    else None
  }

  lemma StatusOfOnly(pieces: seq<Piece>, p: Piece, c: int)
    requires p in pieces && Covers(p, c) && forall q :: q in pieces && Covers(q, c) ==> q == p
    ensures Status(pieces, c) == p.truth
  {
    match p.truth
    case None =>
    case Some(v) =>
      if v {
        assert p.truth == Some(true);
      } else {
        assert p.truth == Some(false);
      }
  }

  lemma OnePieceStatus(p: Piece)
    ensures forall c :: Status([p], c) == if Covers(p, c) then p.truth else None
  {
    forall c
      ensures Status([p], c) == if Covers(p, c) then p.truth else None
    {
      assert p in [p];
      if Covers(p, c) {
        StatusOfOnly([p], p, c);
      }
    }
  }

  /** The cells the pieces decide to be v. */
  ghost function Known(pieces: seq<Piece>, v: bool): iset<int> {
    iset c | Status(pieces, c) == Some(v)
  }

  /** One true piece decides what it covers of a window, and nothing else. */
  lemma OnePieceKnown(p: Piece, lo: int, hi: int)
    requires p.truth == Some(true) && Max(lo, p.start) <= Min(hi, p.end)
    ensures Count(lo, hi, Known([p], true)) == Min(hi, p.end) - Max(lo, p.start)
    ensures Count(lo, hi, Known([p], false)) == 0
  {
    var known, from, until := Known([p], true), Max(lo, p.start), Min(hi, p.end);
    OnePieceStatus(p);
    CountSplit(lo, from, hi, known);
    CountSplit(from, until, hi, known);
    CountNone(lo, from, known);
    CountAll(from, until, known);
    CountNone(until, hi, known);
    CountNone(lo, hi, Known([p], false));
  }

  // ---- the event list ----

  datatype Event = Event(point: int, delta: int, slot: nat)

  function Slot(t: Truth): nat {
    if t == Some(true) then 0 else if t == Some(false) then 1 else 2
  }

  /** Tuple order, as the source's `events.sort()` compares. */
  predicate AtMost(a: Event, b: Event) {
    a.point < b.point ||
    (a.point == b.point && (a.delta < b.delta || (a.delta == b.delta && a.slot <= b.slot)))
  }

  ghost predicate Ordered(s: seq<Event>) {
    forall i, j :: 0 <= i < j < |s| ==> s[i].point <= s[j].point
  }

  /** The deltas of one slot at or before cell c, added up. */
  ghost function Net(s: seq<Event>, slot: nat, c: int): int {
    if s == [] then 0
    else
      var e := s[|s| - 1];
      Net(s[..|s| - 1], slot, c) + (if e.slot == slot && e.point <= c then e.delta else 0)
  }

  /** The deltas of one slot, added up. */
  ghost function Total(s: seq<Event>, slot: nat): int {
    if s == [] then 0
    else
      var e := s[|s| - 1];
      Total(s[..|s| - 1], slot) + (if e.slot == slot then e.delta else 0)
  }

  lemma NetSnoc(s: seq<Event>, e: Event, slot: nat, c: int)
    ensures Net(s + [e], slot, c) == Net(s, slot, c) + (if e.slot == slot && e.point <= c then e.delta else 0)
    ensures Total(s + [e], slot) == Total(s, slot) + (if e.slot == slot then e.delta else 0)
  {
    assert (s + [e])[..|s|] == s;
  }

  lemma {:induction false} InsertSums(e: Event, s: seq<Event>, slot: nat, c: int)
    ensures Net(InsertBy(e, s, AtMost), slot, c) == Net(s + [e], slot, c)
    ensures Total(InsertBy(e, s, AtMost), slot) == Total(s + [e], slot)
  {
    if s == [] || AtMost(s[|s| - 1], e) {
    } else {
      var init, last := s[..|s| - 1], s[|s| - 1];
      InsertSums(e, init, slot, c);
      NetSnoc(InsertBy(e, init, AtMost), last, slot, c);
      NetSnoc(init, e, slot, c);
      NetSnoc(s, e, slot, c);
    }
  }

  lemma {:induction false} SortSums(s: seq<Event>, slot: nat, c: int)
    ensures Net(SortBy(s, AtMost), slot, c) == Net(s, slot, c)
    ensures Total(SortBy(s, AtMost), slot) == Total(s, slot)
  {
    if s == [] {
    } else {
      var init, last := s[..|s| - 1], s[|s| - 1];
      SortSums(init, slot, c);
      InsertSums(last, SortBy(init, AtMost), slot, c);
      NetSnoc(SortBy(init, AtMost), last, slot, c);
    }
  }

  lemma SortOrders(s: seq<Event>)
    ensures Ordered(SortBy(s, AtMost))
    ensures forall x :: x in SortBy(s, AtMost) <==> x in s
  {
    SortKeeps(s, AtMost);
    SortSorts(s, AtMost);
  }

  /** Between two consecutive event points the running totals are the coverage counts. */
  lemma {:induction false} NetIsTotal(s: seq<Event>, i: nat, slot: nat, c: int)
    requires i <= |s|
    requires forall k :: 0 <= k < i ==> s[k].point <= c
    requires forall k :: i <= k < |s| ==> c < s[k].point
    ensures Net(s, slot, c) == Total(s[..i], slot)
  {
    if s == [] {
    } else if i == |s| {
      NetIsTotal(s[..|s| - 1], i - 1, slot, c);
      assert s[..i][..i - 1] == s[..|s| - 1][..i - 1];
    } else {
      NetIsTotal(s[..|s| - 1], i, slot, c);
      assert s[..|s| - 1][..i] == s[..i];
    }
  }

  // ---- coverage by pieces ----

  /** How many pieces of one slot cover cell c. */
  ghost function Cover(pieces: seq<Piece>, slot: nat, c: int): nat {
    if pieces == [] then 0
    else
      var p := pieces[|pieces| - 1];
      Cover(pieces[..|pieces| - 1], slot, c) + (if Slot(p.truth) == slot && Covers(p, c) then 1 else 0)
  }

  lemma {:induction false} CoverPositive(pieces: seq<Piece>, slot: nat, c: int)
    ensures Cover(pieces, slot, c) > 0 <==> exists p :: p in pieces && Slot(p.truth) == slot && Covers(p, c)
  {
    if pieces == [] {
    } else {
      var init, last := pieces[..|pieces| - 1], pieces[|pieces| - 1];
      CoverPositive(init, slot, c);
      assert forall p :: p in pieces <==> p in init || p == last;
    }
  }

  /** The sweep's test on its three counters is the pointwise rule. */
  lemma CounterTest(pieces: seq<Piece>, c: int)
    ensures (Cover(pieces, 0, c) > 0 && Cover(pieces, 1, c) == 0 && Cover(pieces, 2, c) == 0)
       <==> Status(pieces, c) == Some(true)
    ensures (Cover(pieces, 1, c) > 0 && Cover(pieces, 0, c) == 0 && Cover(pieces, 2, c) == 0)
       <==> Status(pieces, c) == Some(false)
  {
    CoverPositive(pieces, 0, c);
    CoverPositive(pieces, 1, c);
    CoverPositive(pieces, 2, c);
    assert forall p :: p in pieces ==> Slot(p.truth) == 0 || Slot(p.truth) == 1 || Slot(p.truth) == 2;
  }

  /** The event list says, cell by cell, what the pieces it was made from cover. */
  ghost predicate Describes(events: seq<Event>, pieces: seq<Piece>, lo: int, hi: int) {
    (forall e :: e in events ==> lo <= e.point <= hi && e.slot < 3) &&
    (forall slot: nat :: slot < 3 ==> Total(events, slot) == 0) &&
    (forall slot: nat, c :: slot < 3 && lo <= c < hi ==> Net(events, slot, c) == Cover(pieces, slot, c))
  }

  lemma DescribesMore(events: seq<Event>, pieces: seq<Piece>, p: Piece, lo: int, hi: int)
    requires Describes(events, pieces, lo, hi)
    ensures var a, b := Max(p.start, lo), Min(p.end, hi);
      if b <= a then Describes(events, pieces + [p], lo, hi)
      else Describes(events + [Event(a, 1, Slot(p.truth)), Event(b, -1, Slot(p.truth))], pieces + [p], lo, hi)
  {
    var a, b := Max(p.start, lo), Min(p.end, hi);
    var x, y := Event(a, 1, Slot(p.truth)), Event(b, -1, Slot(p.truth));
    assert (pieces + [p])[..|pieces|] == pieces;
    assert events + [x, y] == (events + [x]) + [y];
    forall slot: nat, c | slot < 3
      ensures Net(events + [x, y], slot, c) ==
              Net(events, slot, c) + (if slot == x.slot && a <= c then 1 else 0)
                - (if slot == x.slot && b <= c then 1 else 0)
    {
      NetSnoc(events, x, slot, c);
      NetSnoc(events + [x], y, slot, c);
    }
    forall slot: nat | slot < 3
      ensures Total(events + [x, y], slot) == 0
    {
      NetSnoc(events, x, slot, 0);
      NetSnoc(events + [x], y, slot, 0);
    }
  }

  lemma DescribesSorted(events: seq<Event>, pieces: seq<Piece>, lo: int, hi: int)
    requires Describes(events, pieces, lo, hi)
    ensures Describes(SortBy(events, AtMost), pieces, lo, hi) && Ordered(SortBy(events, AtMost))
  {
    SortOrders(events);
    forall slot: nat, c | slot < 3 && lo <= c < hi
      ensures Net(SortBy(events, AtMost), slot, c) == Cover(pieces, slot, c)
    {
      SortSums(events, slot, c);
    }
    forall slot: nat | slot < 3
      ensures Total(SortBy(events, AtMost), slot) == 0
    {
      SortSums(events, slot, 0);
    }
  }

  /** What a gap of the given width adds for slot `mine` when `other` is the opposite slot. */
  ghost function Gain(active: seq<int>, mine: nat, other: nat, width: int): int
    requires |active| == 3 && mine < 3 && other < 3
  {
    if active[mine] != 0 && active[other] == 0 && active[2] == 0 then width else 0
  }

  /** One gap between event points is decided as a whole by the running totals. */
  lemma GapDecided(events: seq<Event>, pieces: seq<Piece>, i: nat, active: seq<int>,
                   lo: int, hi: int, from: int, to: int)
    requires Describes(events, pieces, lo, hi) && i <= |events| && |active| == 3
    requires forall slot: nat :: slot < 3 ==> active[slot] == Total(events[..i], slot)
    requires lo <= from <= to <= hi
    requires forall k :: 0 <= k < i ==> events[k].point <= from
    requires forall k :: i <= k < |events| ==> to <= events[k].point
    ensures Count(from, to, Known(pieces, true)) == Gain(active, 0, 1, to - from)
    ensures Count(from, to, Known(pieces, false)) == Gain(active, 1, 0, to - from)
  {
    forall c | from <= c < to
      ensures Status(pieces, c) == Some(true) <==> active[0] != 0 && active[1] == 0 && active[2] == 0
      ensures Status(pieces, c) == Some(false) <==> active[1] != 0 && active[0] == 0 && active[2] == 0
    {
      NetIsTotal(events, i, 0, c);
      NetIsTotal(events, i, 1, c);
      NetIsTotal(events, i, 2, c);
      CounterTest(pieces, c);
    }
    if active[0] != 0 && active[1] == 0 && active[2] == 0 {
      CountAll(from, to, Known(pieces, true));
    } else {
      CountNone(from, to, Known(pieces, true));
    }
    if active[1] != 0 && active[0] == 0 && active[2] == 0 {
      CountAll(from, to, Known(pieces, false));
    } else {
      CountNone(from, to, Known(pieces, false));
    }
  }

  /** The three amounts fill the window exactly and none of them is negative. */
  lemma AmountsFillWindow(pieces: seq<Piece>, lo: int, hi: int)
    requires lo <= hi
    ensures Count(lo, hi, Known(pieces, true)) + Count(lo, hi, Known(pieces, false)) <= hi - lo
  {
    CountDisjoint(lo, hi, Known(pieces, true), Known(pieces, false));
  }

  /** What the sweep has established when it stands at `position` before event i. */
  ghost predicate Swept(events: seq<Event>, pieces: seq<Piece>, i: nat, active: seq<int>,
                        lo: int, position: int, trueNs: int, falseNs: int)
  {
    i <= |events| && |active| == 3 && lo <= position &&
    (forall slot: nat :: slot < 3 ==> active[slot] == Total(events[..i], slot)) &&
    (forall k :: 0 <= k < i ==> events[k].point <= position) &&
    (forall k :: i <= k < |events| ==> position <= events[k].point) &&
    trueNs == Count(lo, position, Known(pieces, true)) &&
    falseNs == Count(lo, position, Known(pieces, false))
  }

  /** The sweep may move over a gap that no event interrupts. */
  lemma SweptAdvance(events: seq<Event>, pieces: seq<Piece>, i: nat, active: seq<int>, lo: int, hi: int,
                     position: int, trueNs: int, falseNs: int, to: int)
    requires Describes(events, pieces, lo, hi)
    requires Swept(events, pieces, i, active, lo, position, trueNs, falseNs)
    requires position <= to <= hi && forall k :: i <= k < |events| ==> to <= events[k].point
    ensures Swept(events, pieces, i, active, lo, to,
                  trueNs + Gain(active, 0, 1, to - position), falseNs + Gain(active, 1, 0, to - position))
  {
    GapDecided(events, pieces, i, active, lo, hi, position, to);
    CountSplit(lo, position, to, Known(pieces, true));
    CountSplit(lo, position, to, Known(pieces, false));
  }

  /** One event: first the gap up to its point, then its delta. */
  lemma SweptStep(events: seq<Event>, pieces: seq<Piece>, i: nat, active: seq<int>, lo: int, hi: int,
                  position: int, trueNs: int, falseNs: int)
    requires Describes(events, pieces, lo, hi) && Ordered(events) && i < |events|
    requires Swept(events, pieces, i, active, lo, position, trueNs, falseNs)
    ensures var e := events[i];
      position <= e.point <= hi && e.slot < 3 &&
      Swept(events, pieces, i + 1, active[e.slot := active[e.slot] + e.delta], lo, e.point,
            trueNs + Gain(active, 0, 1, e.point - position), falseNs + Gain(active, 1, 0, e.point - position))
  {
    var e := events[i];
    assert e in events;
    SweptAdvance(events, pieces, i, active, lo, hi, position, trueNs, falseNs, e.point);
    assert events[..i + 1] == events[..i] + [e];
    forall slot: nat | slot < 3
      ensures Total(events[..i + 1], slot) == Total(events[..i], slot) + (if e.slot == slot then e.delta else 0)
    {
      NetSnoc(events[..i], e, slot, 0);
    }
  }

  /** `_integrate`, first loop: two events for every piece that meets the window. */
  method ClippedEvents(pieces: seq<Piece>, windowStart: int, windowEnd: int) returns (events: seq<Event>)
    ensures Describes(events, pieces, windowStart, windowEnd)
    ensures windowEnd <= windowStart ==> events == []
  {
    events := [];
    for k := 0 to |pieces|
      invariant Describes(events, pieces[..k], windowStart, windowEnd)
      invariant windowEnd <= windowStart ==> events == []
    {
      var p := pieces[k];
      var start, end := Max(p.start, windowStart), Min(p.end, windowEnd);
      DescribesMore(events, pieces[..k], p, windowStart, windowEnd);
      assert pieces[..k] + [p] == pieces[..k + 1];
      if end <= start {
        continue;
      }
      events := events + [Event(start, 1, Slot(p.truth)), Event(end, -1, Slot(p.truth))];
    }
    assert pieces[..|pieces|] == pieces;
  }

  /** The events in order; before the first of them nothing has been counted. */
  method OrderedEvents(pieces: seq<Piece>, windowStart: int, windowEnd: int) returns (events: seq<Event>)
    ensures Describes(events, pieces, windowStart, windowEnd) && Ordered(events)
    ensures windowEnd <= windowStart ==> events == []
    ensures Swept(events, pieces, 0, [0, 0, 0], windowStart, windowStart, 0, 0)
  {
    events := ClippedEvents(pieces, windowStart, windowEnd);
    DescribesSorted(events, pieces, windowStart, windowEnd);
    SortOrders(events);
    events := SortBy(events, AtMost);
    forall k | 0 <= k < |events|
      ensures windowStart <= events[k].point
    {
      assert events[k] in events;
    }
  }

  lemma SweptAll(events: seq<Event>, pieces: seq<Piece>, active: seq<int>, lo: int, hi: int,
                                    position: int, trueNs: int, falseNs: int)
    requires Describes(events, pieces, lo, hi) && position <= hi
    requires Swept(events, pieces, |events|, active, lo, position, trueNs, falseNs)
    ensures trueNs == Count(lo, hi, Known(pieces, true)) && falseNs == Count(lo, hi, Known(pieces, false))
    ensures trueNs + falseNs <= hi - lo
  {
    assert events[..|events|] == events;
    SweptAdvance(events, pieces, |events|, active, lo, hi, position, trueNs, falseNs, hi);
    AmountsFillWindow(pieces, lo, hi);
  }

  /** True, false and unknown time in the window, by one pass over the sorted events. */
  method Integrate(pieces: seq<Piece>, windowStart: int, windowEnd: int)
    returns (trueNs: int, falseNs: int, unknownNs: int)
    ensures trueNs == Count(windowStart, windowEnd, Known(pieces, true))
    ensures falseNs == Count(windowStart, windowEnd, Known(pieces, false))
    ensures trueNs + falseNs + unknownNs == windowEnd - windowStart
    ensures windowStart <= windowEnd ==> unknownNs >= 0
  {
    var events := OrderedEvents(pieces, windowStart, windowEnd);
    var active := [0, 0, 0];
    trueNs, falseNs := 0, 0;
    var position := windowStart;
    for i := 0 to |events|
      invariant Swept(events, pieces, i, active, windowStart, position, trueNs, falseNs)
      invariant if events == [] then position == windowStart else position <= windowEnd
    {
      var e := events[i];
      SweptStep(events, pieces, i, active, windowStart, windowEnd, position, trueNs, falseNs);
      if e.point > position {
        if active[0] != 0 && active[1] == 0 && active[2] == 0 {
          trueNs := trueNs + (e.point - position);
        } else if active[1] != 0 && active[0] == 0 && active[2] == 0 {
          falseNs := falseNs + (e.point - position);
        }
        position := e.point;
      }
      active := active[e.slot := active[e.slot] + e.delta];
    }
    if position <= windowEnd {
      SweptAll(events, pieces, active, windowStart, windowEnd, position, trueNs, falseNs);
    }
    unknownNs := (windowEnd - windowStart) - trueNs - falseNs;
  }
}
