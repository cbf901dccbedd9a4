/**
 Attempts that overlap in time. The engine takes them by sequence number, while a value
 persists until the next sample in time: what it claims then is right in every possible
 world exactly if every sample that can be the latest one carries the claimed value.
 */
module Overlaps {
  import opened Common
  import opened JsonTree
  import opened Cells
  import opened Sweep
  import opened Timeline
  import opened Evidence
  import opened Attempts
  import opened Engine
  import opened Guarantees
  import opened SmallFiles

  // ---- worlds in which a value persists until the next sample in time ----

  /** Sample i was taken before sample m; among samples of one instant the list decides. */
  predicate Before(instants: seq<int>, i: nat, m: nat)
    requires i < |instants| && m < |instants|
  {
    instants[i] < instants[m] || (instants[i] == instants[m] && i < m)
  }

  /** Sample m is the latest one taken by c. */
  ghost predicate Latest(instants: seq<int>, m: nat, c: int) {
    m < |instants| && instants[m] <= c &&
    forall i :: 0 <= i < |instants| && i != m && instants[i] <= c ==> Before(instants, i, m)
  }

  /** The unit c carries the value of the latest sample, for as long as the hold lasts. */
  ghost predicate Persisting<V>(line: Line<V>, w: World) {
    line.WellFormed() && Instants(line.attempts, w.instants) &&
    forall m: nat, c ::
      m < |line.truths| && line.truths[m].Some? && Latest(w.instants, m, c) && c < w.instants[m] + line.hold ==>
        (c in w.on <==> line.truths[m].value)
  }

  lemma LatestExists(instants: seq<int>, k: nat, c: int) returns (m: nat)
    requires k < |instants| && instants[k] <= c
    ensures Latest(instants, m, c) && instants[k] <= instants[m]
  {
    m := k;
    for n := 0 to |instants|
      invariant m < |instants| && instants[k] <= instants[m] <= c
      invariant forall i :: 0 <= i < n && i != m && instants[i] <= c ==> Before(instants, i, m)
    {
      if n != m && instants[n] <= c && !Before(instants, n, m) {
        m := n;
      }
    }
  }

  lemma LatestIsUnique(instants: seq<int>, k: nat, m: nat, c: int)
    requires Latest(instants, k, c) && Latest(instants, m, c)
    ensures k == m
  {
  }

  /** For attempts one after another in time these are the worlds of the other theorems. */
  lemma SameWorlds<V>(line: Line<V>, w: World)
    requires line.WellFormed() && Sequential(line.attempts)
    ensures Persisting(line, w) <==> Possible(line, w)
  {
    if Instants(line.attempts, w.instants) {
      forall m: nat, c
        ensures Latest(w.instants, m, c) && c < w.instants[m] + line.hold <==> Held(w.instants, line.hold, m, c)
      {
        HeldIsLatest(line, w.instants, m, c);
      }
    }
  }

  lemma HeldIsLatest<V>(line: Line<V>, t: seq<int>, m: nat, c: int)
    requires Sequential(line.attempts) && Instants(line.attempts, t)
    ensures Latest(t, m, c) && c < t[m] + line.hold <==> Held(t, line.hold, m, c)
  {
    forall i, j | 0 <= i < j < |t|
      ensures t[i] <= t[j]
    {
      SequentialPairs(line.attempts, i, j);
    }
  }

  // ---- when a claim is right ----

  /** Can the sample of attempt m be the latest by c? Every other one must be able to come before it, or after c. */
  predicate CanBeLatest<V>(attempts: seq<Attempt<V>>, m: nat, c: int)
    requires m < |attempts|
  {
    attempts[m].start <= c &&
    forall i :: 0 <= i < |attempts| && i != m ==> GivesWay(attempts, i, m, c)
  }

  predicate GivesWay<V>(attempts: seq<Attempt<V>>, i: nat, m: nat, c: int)
    requires i < |attempts| && m < |attempts|
  {
    var t := Min(attempts[m].end, c);
    attempts[i].end > c || attempts[i].start < t || (attempts[i].start == t && i < m)
  }

  /** Every sample that can be the latest by c has the value v. */
  ghost predicate AllLatest<V>(line: Line<V>, c: int, v: bool)
    requires line.WellFormed()
  {
    forall m :: 0 <= m < |line.attempts| && CanBeLatest(line.attempts, m, c) ==> line.truths[m] == Some(v)
  }

  ghost predicate Forward<V>(attempts: seq<Attempt<V>>) {
    forall k :: 0 <= k < |attempts| ==> attempts[k].start <= attempts[k].end
  }

  lemma LatestCanBe<V>(attempts: seq<Attempt<V>>, t: seq<int>, m: nat, c: int)
    requires Instants(attempts, t) && Latest(t, m, c)
    ensures CanBeLatest(attempts, m, c)
  {
    forall i | 0 <= i < |attempts| && i != m
      ensures GivesWay(attempts, i, m, c)
    {
      if t[i] <= c {
        assert Before(t, i, m);
      }
    }
  }

  /** Where the engine claims something, the hold of the latest sample has not run out. */
  lemma ClaimIsHeld<V>(line: Line<V>, t: seq<int>, c: int) returns (k: nat)
    requires line.WellFormed() && Instants(line.attempts, t) && Status(line.AllPieces(), c).Some?
    ensures k < |t| && t[k] <= c < line.attempts[k].start + line.hold
  {
    var p :| p in line.AllPieces() && Covers(p, c);
    PieceOrigin(line, |line.attempts|, p);
    var n :| 0 <= n < |line.attempts| && (p in line.Own(n) || p in line.After(n));
    if p in line.After(n) {
      AfterIsHeld(line, n, p, c);
      k := n;
    } else {
      OwnIsHeld(line, n, p, c);
      k := n - 1;
    }
  }

  lemma AfterIsHeld<V>(line: Line<V>, n: nat, p: Piece, c: int)
    requires line.WellFormed() && n < |line.attempts| && p in line.After(n) && Covers(p, c)
    ensures line.attempts[n].end <= c < line.attempts[n].start + line.hold
  {
  }

  lemma OwnIsHeld<V>(line: Line<V>, n: nat, p: Piece, c: int)
    requires line.WellFormed() && n < |line.attempts| && p in line.Own(n) && Covers(p, c)
    ensures n > 0 && line.attempts[n - 1].end <= c < line.attempts[n - 1].start + line.hold
  {
  }

  /** Instants that make sample m the latest by c. */
  function Placed<V>(attempts: seq<Attempt<V>>, m: nat, c: int): (t: seq<int>)
    requires m < |attempts|
    ensures |t| == |attempts|
  {
    var last := Min(attempts[m].end, c);
    seq(|attempts|, i requires 0 <= i < |attempts| =>
      if i == m then last
      else if attempts[i].start < last || (attempts[i].start == last && i < m) then attempts[i].start
      else attempts[i].end)
  }

  lemma PlacedIsLatest<V>(attempts: seq<Attempt<V>>, m: nat, c: int)
    requires Forward(attempts) && m < |attempts| && CanBeLatest(attempts, m, c)
    ensures Instants(attempts, Placed(attempts, m, c)) && Latest(Placed(attempts, m, c), m, c)
  {
    var t := Placed(attempts, m, c);
    forall i | 0 <= i < |t| && i != m && t[i] <= c
      ensures Before(t, i, m)
    {
      assert GivesWay(attempts, i, m, c);
    }
  }

  /** Some held sample makes the unit x true. */
  ghost predicate MadeTrue<V>(line: Line<V>, t: seq<int>, x: int)
    requires line.WellFormed() && |t| == |line.attempts|
  {
    exists k: nat :: k < |t| && Latest(t, k, x) && x < t[k] + line.hold && line.truths[k] == Some(true)
  }

  /** A possible world with the given instants, in which c has the value v though the latest sample does not say so. */
  ghost function Against<V>(line: Line<V>, t: seq<int>, c: int, v: bool): World
    requires line.WellFormed() && |t| == |line.attempts|
  {
    World(t, iset x | if x == c then v else MadeTrue(line, t, x))
  }

  lemma AgainstPersists<V>(line: Line<V>, t: seq<int>, m: nat, c: int, v: bool)
    requires line.WellFormed() && Instants(line.attempts, t) && Latest(t, m, c)
    requires line.truths[m] != Some(!v)
    ensures Persisting(line, Against(line, t, c, v))
  {
    var w := Against(line, t, c, v);
    forall k: nat, x | k < |line.truths| && line.truths[k].Some? && Latest(t, k, x) && x < t[k] + line.hold
      ensures x in w.on <==> line.truths[k].value
    {
      if x == c {
        LatestIsUnique(t, k, m, c);
      } else if x in w.on {
        var j: nat :| j < |t| && Latest(t, j, x) && line.truths[j] == Some(true);
        LatestIsUnique(t, k, j, x);
      }
    }
  }

  /** The unit c has the value v in every possible world. */
  ghost predicate Right<V>(line: Line<V>, c: int, v: bool) {
    forall w :: Persisting(line, w) ==> (c in w.on <==> v)
  }

  /**
   What the engine claims of a unit is so in every world if and only if every sample that
   can be the latest one by then has the claimed value, however the attempts overlap.
   */
  lemma ClaimRightIff<V>(line: Line<V>, c: int, v: bool)
    requires line.WellFormed() && Forward(line.attempts) && Status(line.AllPieces(), c) == Some(v)
    ensures Right(line, c, v) <==> AllLatest(line, c, v)
  {
    if AllLatest(line, c, v) {
      forall w | Persisting(line, w)
        ensures c in w.on <==> v
      {
        var k := ClaimIsHeld(line, w.instants, c);
        var m := LatestExists(w.instants, k, c);
        LatestCanBe(line.attempts, w.instants, m, c);
      }
    } else {
      var m :| 0 <= m < |line.attempts| && CanBeLatest(line.attempts, m, c) && line.truths[m] != Some(v);
      PlacedIsLatest(line.attempts, m, c);
      var t := Placed(line.attempts, m, c);
      AgainstPersists(line, t, m, c, !v);
      assert !(c in Against(line, t, c, !v).on <==> v);
    }
  }

  // ---- harmless overlaps ----

  /** Attempts that overlap in time have the same known value. */
  ghost predicate OverlapsAgree<V>(line: Line<V>)
    requires line.WellFormed()
  {
    forall i, j :: 0 <= i < j < |line.attempts| && line.attempts[j].start < line.attempts[i].end ==>
      line.truths[i].Some? && line.truths[i] == line.truths[j]
  }

  ghost predicate StartsInOrder<V>(attempts: seq<Attempt<V>>) {
    forall i, j :: 0 <= i < j < |attempts| ==> attempts[i].start <= attempts[j].start
  }

  lemma AgreementAfter<V>(line: Line<V>, k: nat, p: Piece, c: int, m: nat)
    requires line.WellFormed() && Forward(line.attempts) && StartsInOrder(line.attempts) && OverlapsAgree(line)
    requires k < |line.attempts| && p in line.After(k) && Covers(p, c)
    requires m < |line.attempts| && CanBeLatest(line.attempts, m, c)
    ensures line.truths[m] == p.truth
  {
    if m != k {
      assert GivesWay(line.attempts, k, m, c);
    }
  }

  lemma AgreementOwn<V>(line: Line<V>, k: nat, p: Piece, c: int, m: nat)
    requires line.WellFormed() && Forward(line.attempts) && StartsInOrder(line.attempts) && OverlapsAgree(line)
    requires k < |line.attempts| && p in line.Own(k) && Covers(p, c) && p.truth.Some?
    requires m < |line.attempts| && CanBeLatest(line.attempts, m, c)
    ensures line.truths[m] == p.truth
  {
    if m != k - 1 {
      assert GivesWay(line.attempts, k - 1, m, c);
    }
  }

  /** Then every claim is right. */
  lemma AgreementIsEnough<V>(line: Line<V>, c: int, v: bool)
    requires line.WellFormed() && Forward(line.attempts) && StartsInOrder(line.attempts) && OverlapsAgree(line)
    requires Status(line.AllPieces(), c) == Some(v)
    ensures AllLatest(line, c, v)
  {
    var p :| p in line.AllPieces() && Covers(p, c);
    PieceOrigin(line, |line.attempts|, p);
    var k :| 0 <= k < |line.attempts| && (p in line.Own(k) || p in line.After(k));
    forall m | 0 <= m < |line.attempts| && CanBeLatest(line.attempts, m, c)
      ensures line.truths[m] == Some(v)
    {
      if p in line.After(k) {
        AgreementAfter(line, k, p, c, m);
      } else {
        AgreementOwn(line, k, p, c, m);
      }
    }
  }

  /** Attempts one after another in time do not overlap at all. */
  lemma SequentialIsHarmless<V>(line: Line<V>)
    requires line.WellFormed() && Sequential(line.attempts)
    ensures StartsInOrder(line.attempts) && OverlapsAgree(line)
  {
    forall i, j | 0 <= i < j < |line.attempts|
      ensures line.attempts[i].end <= line.attempts[j].start && line.attempts[i].start <= line.attempts[j].start
    {
      SequentialPairs(line.attempts, i, j);
    }
  }

  // ---- about one timeline ----

  lemma PassKnowsAll(line: Line<Json>, check: Check, start: int, end: int)
    requires line.WellFormed() && line.horizon.Some? && start < end && check.criterion.HoldsThroughout?
    requires Judge(line, false, check, start, end).verdict == Pass
    ensures forall c :: start <= c < end ==> Status(line.AllPieces(), c) == Some(true)
  {
    var known := Known(line.AllPieces(), true);
    CountAll(start, end, known);
    forall c | start <= c < end
      ensures Status(line.AllPieces(), c) == Some(true)
    {
      assert c in known;
    }
  }

  /**
   A stretch of time that the engine claims to be true is so if and only if no other sample can
   be the latest in it.
   */
  lemma StretchRightIff<V>(line: Line<V>, start: int, end: int)
    requires line.WellFormed() && Forward(line.attempts)
    requires forall c :: start <= c < end ==> Status(line.AllPieces(), c) == Some(true)
    ensures (forall c :: start <= c < end ==> Right(line, c, true)) <==>
            (forall c :: start <= c < end ==> AllLatest(line, c, true))
  {
    forall c | start <= c < end
      ensures Right(line, c, true) <==> AllLatest(line, c, true)
    {
      ClaimRightIff(line, c, true);
    }
  }

  // ---- about evidence ----

  lemma AttemptsForward(records: seq<Record>, sig: Signal, check: Check, hold: int)
    requires WellFormed(records) && Window(RunOf(records), check).Ok?
    ensures Forward(TheLine(records, sig, check, hold).attempts)
  {
    var run := RunOf(records);
    var attempts := TheLine(records, sig, check, hold).attempts;
    FilterRising(records, r => InRun(run, r), BY_SEQUENCE);
    forall k | 0 <= k < |attempts|
      ensures attempts[k].start <= attempts[k].end
    {
      AttemptsGrounded(RunRecords(run, records), sig, attempts[k]);
    }
  }

  /**
   A holds_throughout PASS, for any attempts: the window is true throughout in every world
   if and only if every sample that can be the latest somewhere in the window is true.
   */
  lemma PassRightIff(records: seq<Record>, sig: Signal, check: Check, hold: int)
    requires WellFormed(records) && Window(RunOf(records), check).Ok? && check.criterion.HoldsThroughout?
    requires FindingOf(EvidenceOf(records), sig, check, hold).verdict == Pass
    ensures var line := TheLine(records, sig, check, hold);
      var (start, end) := Window(RunOf(records), check).value;
      (forall c :: start <= c < end ==> Right(line, c, true)) <==>
      (forall c :: start <= c < end ==> AllLatest(line, c, true))
  {
    var line := TheLine(records, sig, check, hold);
    var (start, end) := Window(RunOf(records), check).value;
    AttemptsForward(records, sig, check, hold);
    FindingIsJudged(records, sig, check, hold);
    if Incomplete(EvidenceOf(records)) {
      IncompleteDecidesNothing(records, sig, check, hold);
    } else {
      PassKnowsAll(line, check, start, end);
      StretchRightIff(line, start, end);
    }
  }

  lemma RightTimeBounds(line: Line<Json>, check: Check, start: int, end: int, w: World)
    requires line.WellFormed() && line.horizon.Some? && start < end && Persisting(line, w)
    requires forall c, v :: start <= c < end && Status(line.AllPieces(), c) == Some(v) ==> Right(line, c, v)
    ensures var f := Judge(line, false, check, start, end);
      f.trueNs <= Count(start, end, w.on) <= (end - start) - f.falseNs
  {
    var pieces := line.AllPieces();
    forall c | start <= c < end && Status(pieces, c).Some?
      ensures c in w.on <==> Status(pieces, c).value
    {
      assert Right(line, c, Status(pieces, c).value);
    }
    CountMonotone(start, end, Known(pieces, true), w.on);
    CountDisjoint(start, end, Known(pieces, false), w.on);
  }

  /**
   Attempts may overlap harmlessly: if they start in order and those that overlap agree on
   a known value, the reported times bound the true time of the window in every world, so
   that PASS and FAIL of time_in_band are right, and the window of a holds_throughout PASS is true throughout.
   */
  lemma AgreeingOverlapsAreHarmless(
    records: seq<Record>, sig: Signal, check: Check, hold: int, w: World)
    requires WellFormed(records) && Window(RunOf(records), check).Ok? && ValidCheck(check)
    requires !Incomplete(EvidenceOf(records)) && Persisting(TheLine(records, sig, check, hold), w)
    requires StartsInOrder(TheLine(records, sig, check, hold).attempts)
    requires OverlapsAgree(TheLine(records, sig, check, hold))
    ensures var f := FindingOf(EvidenceOf(records), sig, check, hold);
      var (start, end) := Window(RunOf(records), check).value;
      f.trueNs <= Count(start, end, w.on) <= (end - start) - f.falseNs &&
      (check.criterion.HoldsThroughout? && f.verdict == Pass ==> Count(start, end, w.on) == end - start) &&
      (check.criterion.TimeInBand? && f.verdict == Pass ==> Reached(check, Count(start, end, w.on), end - start)) &&
      (check.criterion.TimeInBand? && f.verdict == Fail ==> !Reached(check, Count(start, end, w.on), end - start))
  {
    var line := TheLine(records, sig, check, hold);
    var (start, end) := Window(RunOf(records), check).value;
    AttemptsForward(records, sig, check, hold);
    FindingIsJudged(records, sig, check, hold);
    forall c, v | start <= c < end && Status(line.AllPieces(), c) == Some(v)
      ensures Right(line, c, v)
    {
      AgreementIsEnough(line, c, v);
      ClaimRightIff(line, c, v);
    }
    RightTimeBounds(line, check, start, end, w);
    VerdictFits(line, check, start, end, w);
  }

  // ---- an overlap that is not harmless ----

  /** Is the window [20, 150) true throughout? A Boolean payload says so itself. */
  const THROUGHOUT := Check(20, Some(150), (v: Json) => if v.Bool? then Some(v.flag) else None, HoldsThroughout)

  function OverlapLine(): Line<Json> {
    Line([SLOW, QUICK], [Some(false), Some(true)], [], 1000, Some(300), Some(6))
  }

  lemma OverlapFileLine()
    ensures var file := OverlapFile();
      WellFormed(file) && Window(RunOf(file), THROUGHOUT) == Ok((20, 150)) && !Incomplete(EvidenceOf(file)) &&
      TheLine(file, PAYLOAD, THROUGHOUT, 1000) == OverlapLine()
  {
    OverlapAttempts();
    OneRun(OverlapFile());
    OverlapTruths();
  }

  lemma OverlapTruths()
    ensures TruthsOf([SLOW, QUICK], THROUGHOUT, false) == [Some(false), Some(true)]
  {
  }

  lemma OverlapPieces()
    ensures OverlapLine().AllPieces() == [Piece(16, 300, Some(true))]
  {
    var line := OverlapLine();
    assert line.Pieces(0) == [] && line.Own(0) == [] && line.After(0) == [];
    assert line.Pieces(1) == [] && line.Own(1) == [];
    assert line.After(1) == [Piece(16, 300, Some(true))];
  }

  lemma OverlapTally()
    ensures TallyOf(OverlapLine(), false, 20, 150, 2).violations == []
  {
    var line := OverlapLine();
    assert TallyOf(line, false, 20, 150, 1).violations == [];
  }

  lemma OverlapPasses()
    ensures Judge(OverlapLine(), false, THROUGHOUT, 20, 150).verdict == Pass
  {
    OverlapPieces();
    OnePieceKnown(Piece(16, 300, Some(true)), 20, 150);
    OverlapTally();
  }

  lemma SlowCanBeLatest()
    ensures !AllLatest(OverlapLine(), 100, true) && !OverlapsAgree(OverlapLine())
  {
    var line := OverlapLine();
    assert GivesWay(line.attempts, 1, 0, 100);
    assert CanBeLatest(line.attempts, 0, 100) && line.truths[0] == Some(false);
    assert line.attempts[1].start < line.attempts[0].end;
  }

  lemma WrongWorld<V>(line: Line<V>, c: int)
    requires line.WellFormed() && Forward(line.attempts) && Status(line.AllPieces(), c) == Some(true)
    requires !AllLatest(line, c, true)
    ensures exists w :: Persisting(line, w) && c !in w.on
  {
    ClaimRightIff(line, c, true);
  }

  lemma OverlapWorld()
    ensures exists w :: Persisting(OverlapLine(), w) && 100 !in w.on
  {
    var line := OverlapLine();
    assert Status(line.AllPieces(), 100) == Some(true) by {
      OverlapPieces();
      OnePieceStatus(Piece(16, 300, Some(true)));
    }
    SlowCanBeLatest();
    assert Forward(line.attempts);
    WrongWorld(line, 100);
  }

  lemma OverlapFinding(file: seq<Record>)
    requires WellFormed(file) && Window(RunOf(file), THROUGHOUT) == Ok((20, 150)) && !Incomplete(EvidenceOf(file))
    requires TheLine(file, PAYLOAD, THROUGHOUT, 1000) == OverlapLine()
    ensures FindingOf(EvidenceOf(file), PAYLOAD, THROUGHOUT, 1000).verdict == Pass
  {
    OverlapPasses();
    FindingIsJudged(file, PAYLOAD, THROUGHOUT, 1000);
  }

  /**
   A quick true sample inside a slow false one: holds_throughout passes, and in a possible
   world the slow sample is the latest one and makes a unit of the window false.
   */
  lemma OverlapPassIsWrong()
    ensures var file := OverlapFile();
      WellFormed(file) && Window(RunOf(file), THROUGHOUT) == Ok((20, 150)) &&
      FindingOf(EvidenceOf(file), PAYLOAD, THROUGHOUT, 1000).verdict == Pass &&
      var line := TheLine(file, PAYLOAD, THROUGHOUT, 1000);
      !OverlapsAgree(line) && exists w :: Persisting(line, w) && 100 !in w.on
  {
    OverlapFileLine();
    OverlapFinding(OverlapFile());
    SlowCanBeLatest();
    OverlapWorld();
  }
}
