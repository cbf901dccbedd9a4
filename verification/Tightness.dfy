/**
 The converse of soundness: what the engine leaves unknown before the terminal
 really is open, so its known time is exactly what the assumption forces.
 */
module Tightness {
  import opened Common
  import opened Sweep
  import opened Timeline

  /** Some known sample holds cell c and gives it the value v. */
  ghost predicate Forced<V>(line: Line<V>, instants: seq<int>, v: bool, c: int) {
    exists k: nat :: k < |line.truths| && Held(instants, line.hold, k, c) && line.truths[k] == Some(v)
  }

  /** A world with the given instants: free cells are false, except that c takes the value u. */
  ghost function Build<V>(line: Line<V>, instants: seq<int>, c: int, u: bool): World {
    World(instants, iset x | Forced(line, instants, true, x) || (x == c && u && !Forced(line, instants, false, c)))
  }

  lemma OneHolder<V>(line: Line<V>, instants: seq<int>, j: nat, k: nat, c: int)
    requires Complete(line) && Instants(line.attempts, instants)
    requires j < k < |instants| && Held(instants, line.hold, j, c)
    ensures !Held(instants, line.hold, k, c)
  {
    if j + 1 < k {
      SequentialPairs(line.attempts, j + 1, k);
    }
  }

  lemma BuildPossible<V>(line: Line<V>, instants: seq<int>, c: int, u: bool)
    requires Complete(line) && Instants(line.attempts, instants)
    ensures Possible(line, Build(line, instants, c, u))
  {
    var w := Build(line, instants, c, u);
    forall k: nat, x | k < |line.truths| && line.truths[k].Some? && Held(instants, line.hold, k, x)
      ensures x in w.on <==> line.truths[k].value
    {
      if Forced(line, instants, true, x) {
        var j: nat :| j < |line.truths| && Held(instants, line.hold, j, x) && line.truths[j] == Some(true);
        if j < k {
          OneHolder(line, instants, j, k, x);
        } else if k < j {
          OneHolder(line, instants, k, j, x);
        }
      }
    }
  }

  /** The attempt that c belongs to: the last one that has started by then. */
  ghost predicate Located<V>(attempts: seq<Attempt<V>>, k: nat, c: int) {
    k < |attempts| && attempts[k].start <= c && (k + 1 < |attempts| ==> c < attempts[k + 1].start)
  }

  lemma {:induction false} Locate<V>(attempts: seq<Attempt<V>>, n: nat, c: int)
    requires Sequential(attempts) && n <= |attempts|
    requires n < |attempts| ==> c < attempts[n].start
    ensures (forall k :: 0 <= k < n ==> c < attempts[k].start) || (exists k: nat :: k < n && Located(attempts, k, c))
  {
    if n == 0 {
    } else {
      if attempts[n - 1].start <= c {
        assert Located(attempts, n - 1, c);
      } else {
        Locate(attempts, n - 1, c);
      }
    }
  }

  /** Only the located attempt and the one before it can hold c. */
  lemma HolderIsNear<V>(line: Line<V>, instants: seq<int>, k: nat, j: nat, c: int)
    requires Complete(line) && Instants(line.attempts, instants) && Located(line.attempts, k, c)
    requires Held(instants, line.hold, j, c)
    ensures j == k || (j + 1 == k && c < line.attempts[k].end)
  {
    if j > k {
      if j > k + 1 {
        SequentialPairs(line.attempts, k + 1, j);
      }
    } else if j + 1 < k {
      SequentialPairs(line.attempts, j + 1, k);
    }
  }

  /** Where the pieces of one attempt lie. */
  ghost predicate Spans<V>(line: Line<V>, k: nat, p: Piece)
    requires k < |line.attempts|
  {
    var a := line.attempts[k];
    (a.start <= p.start && p.end <= a.end) ||
    (a.end <= p.start && (k + 1 < |line.attempts| ==> p.end <= line.attempts[k + 1].start))
  }

  lemma PieceSpan<V>(line: Line<V>, k: nat, p: Piece)
    requires line.WellFormed() && Sequential(line.attempts) && k < |line.attempts|
    requires p in line.Own(k) || p in line.After(k)
    ensures Spans(line, k, p)
  {
  }

  lemma SpanHere<V>(line: Line<V>, k: nat, j: nat, q: Piece, c: int)
    requires Complete(line) && Located(line.attempts, k, c) && j < |line.attempts|
    requires Spans(line, j, q) && Covers(q, c)
    ensures j == k
  {
    if j < k {
      SequentialPairs(line.attempts, j, k);
      if j + 1 < k {
        SequentialPairs(line.attempts, j + 1, k);
      }
    } else if k < j {
      SequentialPairs(line.attempts, k, j);
      if k + 1 < j {
        SequentialPairs(line.attempts, k + 1, j);
      }
    }
  }

  lemma OnePieceHere<V>(line: Line<V>, k: nat, p: Piece, q: Piece, c: int)
    requires line.WellFormed() && Sequential(line.attempts) && k < |line.attempts|
    requires (p in line.Own(k) || p in line.After(k)) && Covers(p, c)
    requires (q in line.Own(k) || q in line.After(k)) && Covers(q, c)
    ensures p == q
  {
    assert |line.Own(k)| <= 1 && |line.After(k)| <= 1;
  }

  /** Only the located attempt's own two pieces can cover c, and at most one of them does. */
  lemma StatusHere<V>(line: Line<V>, k: nat, p: Piece, c: int)
    requires Complete(line) && Located(line.attempts, k, c)
    requires (p in line.Own(k) || p in line.After(k)) && Covers(p, c)
    ensures Status(line.AllPieces(), c) == p.truth
  {
    PieceOrigin(line, |line.attempts|, p);
    assert p in line.AllPieces();
    forall q | q in line.AllPieces() && Covers(q, c)
      ensures q == p
    {
      PieceOrigin(line, |line.attempts|, q);
      var j :| 0 <= j < |line.attempts| && (q in line.Own(j) || q in line.After(j));
      PieceSpan(line, j, q);
      SpanHere(line, k, j, q, c);
      OnePieceHere(line, k, p, q, c);
    }
    StatusOfOnly(line.AllPieces(), p, c);
  }

  /** Cell c can go either way. */
  ghost predicate Open<V>(line: Line<V>, c: int) {
    (exists w :: Possible(line, w) && c in w.on) && (exists w :: Possible(line, w) && c !in w.on)
  }

  lemma FreeIsOpen<V>(line: Line<V>, instants: seq<int>, c: int)
    requires Complete(line) && Instants(line.attempts, instants)
    requires !Forced(line, instants, true, c) && !Forced(line, instants, false, c)
    ensures Open(line, c)
  {
    BuildPossible(line, instants, c, true);
    BuildPossible(line, instants, c, false);
    assert c in Build(line, instants, c, true).on && c !in Build(line, instants, c, false).on;
  }

  lemma ContestedIsOpen<V>(line: Line<V>, first: seq<int>, second: seq<int>, v: bool, c: int)
    requires Complete(line) && Instants(line.attempts, first) && Instants(line.attempts, second)
    requires Forced(line, first, v, c) && Forced(line, second, !v, c)
    ensures Open(line, c)
  {
    BuildPossible(line, first, c, v);
    BuildPossible(line, second, c, v);
    var w, x := Build(line, first, c, v), Build(line, second, c, v);
    var j: nat :| j < |line.truths| && Held(first, line.hold, j, c) && line.truths[j] == Some(v);
    var k: nat :| k < |line.truths| && Held(second, line.hold, k, c) && line.truths[k] == Some(!v);
    assert (c in w.on <==> v) && (c in x.on <==> !v);
  }

  /** Every attempt sampled as it started, except that attempt k sampled at x. */
  ghost function Early<V>(attempts: seq<Attempt<V>>, k: int, x: int): (instants: seq<int>)
    requires Sequential(attempts)
    requires 0 <= k < |attempts| ==> attempts[k].start <= x <= attempts[k].end
    ensures Instants(attempts, instants)
    ensures forall j :: 0 <= j < |attempts| ==> instants[j] == if j == k then x else attempts[j].start
  {
    seq(|attempts|, j requires 0 <= j < |attempts| => if j == k then x else attempts[j].start)
  }

  lemma CombineUnknown(first: bool, second: Truth)
    requires Combine(Some(first), second) == None
    ensures second == None || second == Some(!first)
  {
    if second.Some? && second.value == first {
      assert first == true || first == false;
    }
  }

  /** During an attempt whose predecessor still holds, either sample may be the current one. */
  lemma OpenBetween<V>(line: Line<V>, k: nat, late: seq<int>, now: seq<int>, c: int)
    requires Complete(line) && c < line.horizon.value && Located(line.attempts, k, c) && c < line.attempts[k].end
    requires Status(line.AllPieces(), c) == None
    requires k > 0 && line.truths[k - 1].Some? && Held(late, line.hold, k - 1, c)
    requires late == Early(line.attempts, k, line.attempts[k].end) && now == Early(line.attempts, k, c)
    ensures Open(line, c)
  {
    HoldableWhenComplete(line, k - 1);
    SequentialPairs(line.attempts, k - 1, k);
    assert line.Own(k) != [] && Covers(line.Own(k)[0], c);
    StatusHere(line, k, line.Own(k)[0], c);
    CombineUnknown(line.truths[k - 1].value, line.truths[k]);
    if k + 1 < |now| {
      SequentialPairs(line.attempts, k, k + 1);
    }
    assert Held(now, line.hold, k, c);
    if line.truths[k] == None {
      forall j: nat | Held(now, line.hold, j, c)
        ensures j == k
      {
        HolderIsNear(line, now, k, j, c);
      }
      FreeIsOpen(line, now, c);
    } else {
      var v := line.truths[k - 1].value;
      assert Forced(line, late, v, c) && Forced(line, now, !v, c);
      ContestedIsOpen(line, late, now, v, c);
    }
  }

  lemma OpenDuring<V>(line: Line<V>, k: nat, c: int)
    requires Complete(line) && c < line.horizon.value && Located(line.attempts, k, c) && c < line.attempts[k].end
    requires Status(line.AllPieces(), c) == None
    ensures Open(line, c)
  {
    var late := Early(line.attempts, k, line.attempts[k].end);
    if k > 0 && line.truths[k - 1].Some? && Held(late, line.hold, k - 1, c) {
      OpenBetween(line, k, late, Early(line.attempts, k, c), c);
    } else {
      forall j: nat | Held(late, line.hold, j, c)
        ensures j + 1 == k
      {
        HolderIsNear(line, late, k, j, c);
      }
      FreeIsOpen(line, late, c);
    }
  }

  lemma OpenAfter<V>(line: Line<V>, k: nat, c: int)
    requires Complete(line) && c < line.horizon.value && Located(line.attempts, k, c) && line.attempts[k].end <= c
    requires Status(line.AllPieces(), c) == None
    ensures Open(line, c)
  {
    var instants := Early(line.attempts, -1, 0);
    forall j: nat | j < |line.truths| && Held(instants, line.hold, j, c)
      ensures line.truths[j] == None
    {
      HolderIsNear(line, instants, k, j, c);
      HoldableWhenComplete(line, k);
      if line.truths[k].Some? {
        StatusHere(line, k, line.After(k)[0], c);
      }
    }
    FreeIsOpen(line, instants, c);
  }

  /** Tightness: time before the terminal that the engine calls unknown is open. */
  lemma UnknownIsOpen<V>(line: Line<V>, c: int)
    requires Complete(line) && c < line.horizon.value
    requires Status(line.AllPieces(), c) == None
    ensures Open(line, c)
  {
    Locate(line.attempts, |line.attempts|, c);
    if k: nat :| k < |line.attempts| && Located(line.attempts, k, c) {
      if c < line.attempts[k].end {
        OpenDuring(line, k, c);
      } else {
        OpenAfter(line, k, c);
      }
    } else {
      FreeIsOpen(line, Early(line.attempts, -1, 0), c);
    }
  }

  /** Nothing at or after the terminal is ever claimed. */
  lemma UnknownAfterTerminal<V>(line: Line<V>, c: int)
    requires Complete(line) && line.horizon.value <= c
    ensures Status(line.AllPieces(), c) == None
  {
    PiecesInOrder(line, |line.attempts|);
  }

  /** The cell has value v in every possible world. */
  ghost predicate Certain<V>(line: Line<V>, v: bool, c: int) {
    forall w :: Possible(line, w) ==> (c in w.on <==> v)
  }

  /** The engine knows a value before the terminal exactly when every possible world agrees on it. */
  lemma KnownIffCertain<V>(line: Line<V>, v: bool, c: int)
    requires Complete(line) && c < line.horizon.value
    ensures Status(line.AllPieces(), c) == Some(v) <==> Certain(line, v, c)
  {
    if Status(line.AllPieces(), c).Some? {
      forall w | Possible(line, w)
        ensures c in w.on <==> Status(line.AllPieces(), c).value
      {
        Sound(line, w, c);
      }
      BuildPossible(line, Early(line.attempts, -1, 0), c, true);
      assert exists w :: Possible(line, w);
    } else {
      UnknownIsOpen(line, c);
    }
  }

  /** A longer hold keeps every decided cell decided, with the same value. */
  lemma LongerHoldKnowsMore<V>(line: Line<V>, longer: int, c: int)
    requires Complete(line) && line.hold <= longer
    requires Status(line.AllPieces(), c).Some?
    ensures Status(line.(hold := longer).AllPieces(), c) == Status(line.AllPieces(), c)
  {
    var wide := line.(hold := longer);
    if line.horizon.value <= c {
      UnknownAfterTerminal(line, c);
    }
    var v := Status(line.AllPieces(), c).value;
    KnownIffCertain(line, v, c);
    forall w | Possible(wide, w)
      ensures Possible(line, w)
    {
      LongerHoldFewerWorlds(w, line.attempts, line.truths, line.hold, longer);
    }
    KnownIffCertain(wide, v, c);
  }

  /** Without a hold the engine knows nothing over time. */
  lemma {:induction false} NoHoldNoPieces<V>(line: Line<V>, n: nat)
    requires line.WellFormed() && line.hold <= 0 && n <= |line.attempts|
    ensures line.Pieces(n) == []
  {
    if n == 0 {
    } else {
      NoHoldNoPieces(line, n - 1);
    }
  }
}
