/**
 Bounded sample-and-hold: `_pieces` turns observation attempts into pieces of
 time, and possible worlds say what those pieces are allowed to claim.
 */
module Timeline {
  import opened Common
  import opened Sweep

  /** One observation attempt: the sample was taken at some instant of [start, end]. */
  datatype Attempt<V> = Attempt(start: int, end: int, first: int, last: int, value: Option<V>, valid: bool)

  /** Inclusive ranges of missing sequence numbers. */
  type Gaps = seq<(int, int)>

  predicate MissingBetween(gaps: Gaps, low: int, high: int) {
    exists g :: g in gaps && g.0 <= high && g.1 >= low
  }

  /** Everything `_pieces` is given. */
  datatype Line<V> = Line(
    attempts: seq<Attempt<V>>,
    truths: seq<Truth>,
    gaps: Gaps,
    hold: int,
    horizon: Option<int>,
    terminal: Option<int>)
  {
    ghost predicate WellFormed() {
      |truths| == |attempts|
    }

    predicate Holdable(k: nat)
      requires k < |attempts|
    {
      if hold <= 0 || !attempts[k].valid then false
      else if k + 1 < |attempts| then
        attempts[k + 1].start >= attempts[k].end &&
        !MissingBetween(gaps, attempts[k].first, attempts[k + 1].last)
      else
        terminal.Some? && !MissingBetween(gaps, attempts[k].first, terminal.value)
    }

    function Limit(t: int): int {
      if horizon.None? then t else Min(t, horizon.value)
    }

    /** During attempt k, which may still show the value before it: known only where both agree. */
    function Own(k: nat): seq<Piece>
      requires k < |attempts| == |truths|
    {
      if k > 0 && Holdable(k - 1) then
        var split := Min(attempts[k].end, Limit(attempts[k - 1].start + hold));
        if split > attempts[k].start then [Piece(attempts[k].start, split, Combine(truths[k - 1], truths[k]))] else []
      else []
    }

    /** From the end of attempt k on, while its value is held and no other sample can have been taken. */
    function After(k: nat): seq<Piece>
      requires k < |attempts| == |truths|
    {
      if Holdable(k) then
        var until :=
          if k + 1 < |attempts| then attempts[k + 1].start
          else if horizon.Some? then horizon.value else attempts[k].end;
        var end := Min(until, Limit(attempts[k].start + hold));
        if end > attempts[k].end then [Piece(attempts[k].end, end, truths[k])] else []
      else []
    }

    /** The pieces of the first n attempts. */
    function Pieces(n: nat): seq<Piece>
      requires n <= |attempts| == |truths|
    {
      if n == 0 then [] else Pieces(n - 1) + Own(n - 1) + After(n - 1)
    }

    function AllPieces(): seq<Piece>
      requires |attempts| == |truths|
    {
      Pieces(|attempts|)
    }
  }

  function Combine(first: Truth, second: Truth): Truth {
    if first == Some(true) && second == Some(true) then Some(true)
    else if first == Some(false) && second == Some(false) then Some(false)
    else None
  }

  /** `_pieces`: one loop over the attempts, appending at most two pieces for each. */
  method BuildPieces<V>(line: Line<V>) returns (pieces: seq<Piece>)
    requires line.WellFormed()
    ensures pieces == line.AllPieces()
  {
    pieces := [];
    var attempts, truths := line.attempts, line.truths;
    for index := 0 to |attempts|
      invariant pieces == line.Pieces(index)
    {
      var attempt := attempts[index];
      var held := index > 0 && line.Holdable(index - 1);
      if held {
        var reach := line.Limit(attempts[index - 1].start + line.hold);
        var split := Min(attempt.end, reach);
        if split > attempt.start {
          pieces := pieces + [Piece(attempt.start, split, Combine(truths[index - 1], truths[index]))];
        }
      }
      assert pieces == line.Pieces(index) + line.Own(index);
      if line.Holdable(index) {
        var until: int;
        if index + 1 < |attempts| {
          until := attempts[index + 1].start;
        } else {
          until := if line.horizon.Some? then line.horizon.value else attempt.end;
        }
        var end := Min(until, line.Limit(attempt.start + line.hold));
        if end > attempt.end {
          pieces := pieces + [Piece(attempt.end, end, truths[index])];
        }
      }
    }
  }

  // ---- hypotheses ----

  /** Attempts do not overlap in time: each ends before the next one starts. */
  ghost predicate Sequential<V>(attempts: seq<Attempt<V>>) {
    (forall k :: 0 <= k < |attempts| ==> attempts[k].start <= attempts[k].end) &&
    (forall k :: 0 < k < |attempts| ==> attempts[k - 1].end <= attempts[k].start)
  }

  /** A closed run whose evidence has every record: what `evaluate` passes when nothing is missing. */
  ghost predicate Complete<V>(line: Line<V>) {
    line.WellFormed() && line.horizon.Some? && line.terminal.Some? &&
    Sequential(line.attempts) &&
    !MissingBetween(line.gaps, 1, line.terminal.value) &&
    (forall k :: 0 <= k < |line.attempts| ==>
      1 <= line.attempts[k].first <= line.terminal.value && 1 <= line.attempts[k].last <= line.terminal.value) &&
    (forall k :: 0 <= k < |line.attempts| && !line.attempts[k].valid ==> line.truths[k] == None)
  }

  lemma {:induction false} SequentialPairs<V>(attempts: seq<Attempt<V>>, i: nat, j: nat)
    requires Sequential(attempts) && i < j < |attempts|
    ensures attempts[i].end <= attempts[j].start
    ensures attempts[i].start <= attempts[i].end && attempts[j].start <= attempts[j].end
    decreases j
  {
    if i + 1 < j {
      SequentialPairs(attempts, i, j - 1);
    }
  }

  lemma HoldableWhenComplete<V>(line: Line<V>, k: nat)
    requires Complete(line) && k < |line.attempts|
    ensures line.Holdable(k) <==> line.hold > 0 && line.attempts[k].valid
  {
    var high := if k + 1 < |line.attempts| then line.attempts[k + 1].last else line.terminal.value;
    assert !MissingBetween(line.gaps, line.attempts[k].first, high);
  }

  lemma {:induction false} PieceOrigin<V>(line: Line<V>, n: nat, p: Piece)
    requires line.WellFormed() && n <= |line.attempts|
    ensures p in line.Pieces(n) <==> exists k :: 0 <= k < n && (p in line.Own(k) || p in line.After(k))
  {
    if n == 0 {
    } else {
      PieceOrigin(line, n - 1, p);
    }
  }

  /** A value is held only with a hold, from a valid attempt, and up to a later attempt or the terminal. */
  ghost predicate MayHold<V>(line: Line<V>, k: nat) {
    k < |line.attempts| && line.hold > 0 && line.attempts[k].valid &&
    if k + 1 < |line.attempts|
    then line.attempts[k].end <= line.attempts[k + 1].start &&
         NoGapIn(line.gaps, line.attempts[k].first, line.attempts[k + 1].last)
    else line.terminal.Some? && NoGapIn(line.gaps, line.attempts[k].first, line.terminal.value)
  }

  /** No missing range touches the numbers from low to high. */
  ghost predicate NoGapIn(gaps: Gaps, low: int, high: int) {
    forall i :: 0 <= i < |gaps| ==> gaps[i].1 < low || high < gaps[i].0
  }

  /** A value that is held after its attempt, or during the next, needs that no record is missing between. */
  lemma HoldsEndAtGaps<V>(line: Line<V>, k: nat)
    requires line.WellFormed() && k < |line.attempts|
    ensures line.After(k) != [] ==> MayHold(line, k)
    ensures k + 1 < |line.attempts| && line.Own(k + 1) != [] ==> MayHold(line, k)
    ensures MayHold(line, k) <==> line.Holdable(k)
  {
    var high := if k + 1 < |line.attempts| then line.attempts[k + 1].last
                else if line.terminal.Some? then line.terminal.value else 0;
    assert MissingBetween(line.gaps, line.attempts[k].first, high) <==>
      !NoGapIn(line.gaps, line.attempts[k].first, high) by {
      if g :| g in line.gaps && g.0 <= high && g.1 >= line.attempts[k].first {
        var i :| 0 <= i < |line.gaps| && line.gaps[i] == g;
      }
      if i :| 0 <= i < |line.gaps| && !(line.gaps[i].1 < line.attempts[k].first || high < line.gaps[i].0) {
        assert line.gaps[i] in line.gaps;
      }
    }
  }

  // ---- pieces are disjoint and end by the terminal ----

  /** Pieces listed in time order without overlap, all ending by `bound`. */
  ghost predicate InOrder(pieces: seq<Piece>, bound: int) {
    (forall i :: 0 <= i < |pieces| ==> pieces[i].start < pieces[i].end <= bound) &&
    (forall i, j :: 0 <= i < j < |pieces| ==> pieces[i].end <= pieces[j].start)
  }

  lemma InOrderAppend(pieces: seq<Piece>, bound: int, more: seq<Piece>, farther: int)
    requires InOrder(pieces, bound) && bound <= farther && |more| <= 1
    requires forall p :: p in more ==> bound <= p.start < p.end <= farther
    ensures InOrder(pieces + more, farther)
  {
  }

  lemma OrderStep(before: seq<Piece>, b0: int, own: seq<Piece>, b1: int, after: seq<Piece>, b2: int, last: int)
    requires InOrder(before, b0) && b0 <= b1 <= b2 <= last && |own| <= 1 && |after| <= 1
    requires forall p :: p in own ==> b0 <= p.start < p.end <= b1
    requires forall p :: p in after ==> b1 <= p.start < p.end <= b2
    ensures InOrder(before + own + after, b2) && InOrder(before + own + after, last)
  {
    InOrderAppend(before, b0, own, b1);
    InOrderAppend(before + own, b1, after, b2);
  }

  lemma OwnWithin<V>(line: Line<V>, k: nat)
    requires line.WellFormed() && line.horizon.Some? && k < |line.attempts|
    ensures |line.Own(k)| <= 1
    ensures forall p :: p in line.Own(k) ==>
      line.attempts[k].start <= p.start < p.end <= Min(line.attempts[k].end, line.horizon.value)
  {
  }

  lemma AfterWithin<V>(line: Line<V>, k: nat)
    requires line.WellFormed() && line.horizon.Some? && k < |line.attempts|
    ensures |line.After(k)| <= 1
    ensures forall p :: p in line.After(k) ==> line.attempts[k].end <= p.start < p.end <= line.horizon.value
    ensures forall p :: p in line.After(k) && k + 1 < |line.attempts| ==> p.end <= line.attempts[k + 1].start
  {
  }

  lemma {:induction false} PiecesInOrder<V>(line: Line<V>, n: nat)
    requires line.WellFormed() && line.horizon.Some? && Sequential(line.attempts) && n <= |line.attempts|
    ensures InOrder(line.Pieces(n), line.horizon.value)
    ensures n < |line.attempts| ==> InOrder(line.Pieces(n), Min(line.attempts[n].start, line.horizon.value))
  {
    if n == 0 {
    } else {
      PiecesInOrder(line, n - 1);
      var a, horizon := line.attempts[n - 1], line.horizon.value;
      var next := if n < |line.attempts| then Min(line.attempts[n].start, horizon) else horizon;
      OwnWithin(line, n - 1);
      AfterWithin(line, n - 1);
      var b0, b1 := Min(a.start, horizon), Min(a.end, horizon);
      OrderStep(line.Pieces(n - 1), b0, line.Own(n - 1), b1, line.After(n - 1), next, horizon);
    }
  }

  // ---- possible worlds ----

  /** The instants at which the attempts sampled, and the cells in which the predicate was true. */
  datatype World = World(instants: seq<int>, on: iset<int>)

  ghost predicate Instants<V>(attempts: seq<Attempt<V>>, instants: seq<int>) {
    |instants| == |attempts| &&
    forall k :: 0 <= k < |attempts| ==> attempts[k].start <= instants[k] <= attempts[k].end
  }

  /** A sampled value persists until the next attempt's sample or until the hold runs out. */
  ghost predicate Held(instants: seq<int>, hold: int, k: nat, c: int) {
    k < |instants| && instants[k] <= c < instants[k] + hold && (k + 1 < |instants| ==> c < instants[k + 1])
  }

  /** The declared assumption: every held cell carries the held truth. Other cells are free. */
  ghost predicate Consistent<V>(w: World, attempts: seq<Attempt<V>>, truths: seq<Truth>, hold: int) {
    |truths| == |attempts| && Instants(attempts, w.instants) &&
    forall k: nat, c ::
      k < |truths| && truths[k].Some? && Held(w.instants, hold, k, c) ==> (c in w.on <==> truths[k].value)
  }

  ghost predicate Possible<V>(line: Line<V>, w: World) {
    Consistent(w, line.attempts, line.truths, line.hold)
  }

  /** A longer hold allows fewer worlds. */
  lemma LongerHoldFewerWorlds<V>(w: World, attempts: seq<Attempt<V>>, truths: seq<Truth>, hold: int, longer: int)
    requires hold <= longer && Consistent(w, attempts, truths, longer)
    ensures Consistent(w, attempts, truths, hold)
  {
    forall k: nat, c | k < |truths| && truths[k].Some? && Held(w.instants, hold, k, c)
      ensures c in w.on <==> truths[k].value
    {
      assert Held(w.instants, longer, k, c);
    }
  }

  // ---- soundness ----

  lemma OwnSound<V>(line: Line<V>, w: World, k: nat, p: Piece, c: int)
    requires Complete(line) && Possible(line, w)
    requires k < |line.attempts| && p in line.Own(k) && Covers(p, c) && p.truth.Some?
    ensures c in w.on <==> p.truth.value
  {
    HoldableWhenComplete(line, k - 1);
    var t := w.instants;
    if c < t[k] {
      assert Held(t, line.hold, k - 1, c);
    } else {
      if k + 1 < |t| {
        SequentialPairs(line.attempts, k, k + 1);
      }
      assert Held(t, line.hold, k, c);
    }
  }

  lemma AfterSound<V>(line: Line<V>, w: World, k: nat, p: Piece, c: int)
    requires Complete(line) && Possible(line, w)
    requires k < |line.attempts| && p in line.After(k) && Covers(p, c) && p.truth.Some?
    ensures c in w.on <==> p.truth.value
  {
    assert Held(w.instants, line.hold, k, c);
  }

  /** Whatever the engine claims to know of a cell is so in every world that meets the assumption. */
  lemma Sound<V>(line: Line<V>, w: World, c: int)
    requires Complete(line) && Possible(line, w)
    requires Status(line.AllPieces(), c).Some?
    ensures c in w.on <==> Status(line.AllPieces(), c).value
  {
    var p :| p in line.AllPieces() && Covers(p, c);
    PieceOrigin(line, |line.attempts|, p);
    var k :| 0 <= k < |line.attempts| && (p in line.Own(k) || p in line.After(k));
    if p in line.Own(k) {
      OwnSound(line, w, k, p, c);
    } else {
      AfterSound(line, w, k, p, c);
    }
  }
}
