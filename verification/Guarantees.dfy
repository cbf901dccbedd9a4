/** What a finding means: in every possible world, under a longer hold, and without a hold. */
module Guarantees {
  import opened Common
  import opened JsonTree
  import opened Cells
  import opened Sweep
  import opened Timeline
  import opened Tightness
  import opened Evidence
  import opened Attempts
  import opened Engine

  // ---- about one timeline ----

  /** A complete timeline, a window and a criterion that profile loading accepts. */
  ghost predicate Judgeable(line: Line<Json>, check: Check, start: int, end: int) {
    Complete(line) && ValidCheck(check) && start < end
  }

  /** The true time of a world in the window lies between the engine's two bounds. */
  lemma TrueTimeBounds(line: Line<Json>, check: Check, start: int, end: int, w: World)
    requires Judgeable(line, check, start, end) && Possible(line, w)
    ensures var f := Judge(line, false, check, start, end);
      f.trueNs <= Count(start, end, w.on) <= (end - start) - f.falseNs
  {
    var pieces := line.AllPieces();
    forall c | start <= c < end && Status(pieces, c).Some?
      ensures c in w.on <==> Status(pieces, c).value
    {
      Sound(line, w, c);
    }
    CountMonotone(start, end, Known(pieces, true), w.on);
    CountDisjoint(start, end, Known(pieces, false), w.on);
  }

  lemma ScaleMonotone(a: int, b: int, factor: int)
    requires a <= b && 0 < factor
    ensures a * factor <= b * factor
  {
  }

  ghost predicate Reached(check: Check, trueNs: int, width: int)
    requires check.criterion.TimeInBand?
  {
    trueNs * check.criterion.denominator >= check.criterion.numerator * width
  }

  /** A verdict fits every true time within the reported bounds. */
  lemma VerdictFits(line: Line<Json>, check: Check, start: int, end: int, w: World)
    requires line.WellFormed() && line.horizon.Some? && start < end && ValidCheck(check)
    requires var f := Judge(line, false, check, start, end);
      f.trueNs <= Count(start, end, w.on) <= (end - start) - f.falseNs
    ensures var f, t := Judge(line, false, check, start, end), Count(start, end, w.on);
      (check.criterion.HoldsThroughout? && f.verdict == Pass ==> t == end - start) &&
      (check.criterion.TimeInBand? && f.verdict == Pass ==> Reached(check, t, end - start)) &&
      (check.criterion.TimeInBand? && f.verdict == Fail ==> !Reached(check, t, end - start))
  {
    var f, t := Judge(line, false, check, start, end), Count(start, end, w.on);
    if check.criterion.TimeInBand? {
      ScaleMonotone(f.trueNs, t, check.criterion.denominator);
      ScaleMonotone(t, (end - start) - f.falseNs, check.criterion.denominator);
    }
  }

  lemma InBandJudged(line: Line<Json>, check: Check, start: int, end: int, w: World)
    requires Judgeable(line, check, start, end) && Possible(line, w) && check.criterion.TimeInBand?
    ensures var f := Judge(line, false, check, start, end);
      (f.verdict == Pass ==> Reached(check, Count(start, end, w.on), end - start)) &&
      (f.verdict == Fail ==> !Reached(check, Count(start, end, w.on), end - start))
  {
    TrueTimeBounds(line, check, start, end, w);
    VerdictFits(line, check, start, end, w);
  }

  lemma ThroughoutFailJudged(line: Line<Json>, check: Check, start: int, end: int)
    requires |line.truths| == |line.attempts| && line.horizon.Some? && start <= end
    requires forall k :: 0 <= k < |line.attempts| ==> line.attempts[k].start <= line.attempts[k].end
    requires check.criterion.HoldsThroughout?
    ensures Judge(line, false, check, start, end).verdict == Fail <==> Violated(line, start, end, |line.attempts|)
  {
    TallyViolations(line, false, start, end, |line.attempts|);
  }

  lemma ThroughoutPassJudged(line: Line<Json>, check: Check, start: int, end: int)
    requires Judgeable(line, check, start, end) && check.criterion.HoldsThroughout?
    ensures Judge(line, false, check, start, end).verdict == Pass <==>
      !Violated(line, start, end, |line.attempts|) && end <= line.horizon.value &&
      forall c :: start <= c < end ==> Certain(line, true, c)
  {
    var pieces := line.AllPieces();
    ThroughoutFailJudged(line, check, start, end);
    CountAll(start, end, Known(pieces, true));
    CountDisjoint(start, end, Known(pieces, true), Known(pieces, false));
    if end > line.horizon.value {
      var c := Max(start, line.horizon.value);
      UnknownAfterTerminal(line, c);
      assert c !in Known(pieces, true);
    } else {
      forall c | start <= c < end
        ensures c in Known(pieces, true) <==> Certain(line, true, c)
      {
        KnownIffCertain(line, true, c);
      }
    }
  }

  lemma LongerHoldMoreTime(line: Line<Json>, longer: int, start: int, end: int)
    requires Complete(line) && line.hold <= longer && start <= end
    ensures var pieces, wide := line.AllPieces(), line.(hold := longer).AllPieces();
      Count(start, end, Known(pieces, true)) <= Count(start, end, Known(wide, true)) &&
      Count(start, end, Known(pieces, false)) <= Count(start, end, Known(wide, false)) &&
      Count(start, end, Known(wide, true)) + Count(start, end, Known(wide, false)) <= end - start
  {
    var pieces, wide := line.AllPieces(), line.(hold := longer).AllPieces();
    forall c | Status(pieces, c).Some?
      ensures Status(wide, c) == Status(pieces, c)
    {
      LongerHoldKnowsMore(line, longer, c);
    }
    CountMonotone(start, end, Known(pieces, true), Known(wide, true));
    CountMonotone(start, end, Known(pieces, false), Known(wide, false));
    CountDisjoint(start, end, Known(wide, true), Known(wide, false));
  }

  /** With more known time of each kind, a decided criterion stays decided the same way. */
  lemma MoreTimeKeepsVerdict(c: Criterion, t: int, f: int, t': int, f': int, width: int, violated: bool)
    requires c.TimeInBand? ==> 0 < c.numerator <= c.denominator
    requires t <= t' && f <= f' && t' + f' <= width
    requires VerdictOf(c, t, f, width - t - f, width, violated) != Inconclusive
    ensures VerdictOf(c, t', f', width - t' - f', width, violated) == VerdictOf(c, t, f, width - t - f, width, violated)
  {
    if c.TimeInBand? {
      ScaleMonotone(t, t', c.denominator);
      ScaleMonotone(width - f', width - f, c.denominator);
      ScaleMonotone(t', width - f', c.denominator);
    }
  }

  lemma {:induction false} TallyIgnoresHold(
    line: Line<Json>, longer: int, incomplete: bool, start: int, end: int, n: nat)
    requires n <= |line.attempts| == |line.truths|
    ensures TallyOf(line.(hold := longer), incomplete, start, end, n) == TallyOf(line, incomplete, start, end, n)
  {
    if n == 0 {
    } else {
      TallyIgnoresHold(line, longer, incomplete, start, end, n - 1);
    }
  }

  lemma LongerHoldJudged(line: Line<Json>, longer: int, check: Check, start: int, end: int)
    requires Judgeable(line, check, start, end) && line.hold <= longer
    ensures var f, g := Judge(line, false, check, start, end), Judge(line.(hold := longer), false, check, start, end);
      f.trueNs <= g.trueNs && f.falseNs <= g.falseNs && (f.verdict != Inconclusive ==> g.verdict == f.verdict)
  {
    LongerHoldMoreTime(line, longer, start, end);
    TallyIgnoresHold(line, longer, false, start, end, |line.attempts|);
    var f, g := Judge(line, false, check, start, end), Judge(line.(hold := longer), false, check, start, end);
    if f.verdict != Inconclusive {
      MoreTimeKeepsVerdict(check.criterion, f.trueNs, f.falseNs, g.trueNs, g.falseNs, end - start,
        f.tally.violations != []);
    }
  }

  lemma EmptyPieces(start: int, end: int)
    ensures Count(start, end, Known([], true)) == 0 && Count(start, end, Known([], false)) == 0
  {
    CountNone(start, end, Known([], true));
    CountNone(start, end, Known([], false));
  }

  /** No known time: throughout cannot pass and in-band cannot be decided. */
  lemma NoTimeNoDecision(c: Criterion, width: int, violated: bool)
    requires c.TimeInBand? ==> 0 < c.numerator <= c.denominator
    requires 0 < width
    ensures VerdictOf(c, 0, 0, width, width, violated) != Pass
    ensures VerdictOf(c, 0, 0, width, width, violated) == Fail ==> c.HoldsThroughout? && violated
  {
    if c.TimeInBand? {
      assert 0 < c.numerator * width;
      ScaleMonotone(c.numerator, c.denominator, width);
    }
  }

  lemma {:induction false} NoViolationsWhenUnknown(line: Line<Json>, start: int, end: int, n: nat)
    requires n <= |line.attempts| == |line.truths|
    requires forall k :: 0 <= k < |line.truths| ==> line.truths[k] == None
    ensures TallyOf(line, true, start, end, n).violations == []
  {
    if n == 0 {
    } else {
      NoViolationsWhenUnknown(line, start, end, n - 1);
    }
  }

  // ---- about evidence ----

  /** Loaded evidence with a window, no missing record, and attempts one after another in time. */
  ghost predicate Decidable(records: seq<Record>, sig: Signal, check: Check) {
    WellFormed(records) && Window(RunOf(records), check).Ok? && ValidCheck(check) &&
    !Incomplete(EvidenceOf(records)) && Sequential(AttemptsFor(RunRecords(RunOf(records), records), sig))
  }

  ghost function TheLine(records: seq<Record>, sig: Signal, check: Check, hold: int): Line<Json>
    requires Window(RunOf(records), check).Ok?
  {
    LineOf(EvidenceOf(records), sig, check, hold)
  }

  lemma LineIsComplete(records: seq<Record>, sig: Signal, check: Check, hold: int)
    requires Decidable(records, sig, check)
    ensures Complete(TheLine(records, sig, check, hold))
  {
    var run := RunOf(records);
    var line := TheLine(records, sig, check, hold);
    var rs := RunRecords(run, records);
    FilterRising(records, r => InRun(run, r), BY_SEQUENCE);
    FilterMembers(records, r => InRun(run, r));
    forall k | 0 <= k < |line.attempts|
      ensures 1 <= line.attempts[k].first <= line.terminal.value && 1 <= line.attempts[k].last <= line.terminal.value
    {
      AttemptsGrounded(rs, sig, line.attempts[k]);
    }
  }

  lemma FindingIsJudged(records: seq<Record>, sig: Signal, check: Check, hold: int)
    requires Window(RunOf(records), check).Ok?
    ensures var (start, end) := Window(RunOf(records), check).value;
      FindingOf(EvidenceOf(records), sig, check, hold) ==
      Judge(TheLine(records, sig, check, hold), Incomplete(EvidenceOf(records)), check, start, end)
  {
  }

  /** A decided time_in_band finding is right in every possible world: the fraction is, or is not, reached. */
  lemma InBandDecidedIsRight(records: seq<Record>, sig: Signal, check: Check, hold: int, w: World)
    requires Decidable(records, sig, check) && check.criterion.TimeInBand?
    requires Possible(TheLine(records, sig, check, hold), w)
    ensures var f := FindingOf(EvidenceOf(records), sig, check, hold);
      var (start, end) := Window(RunOf(records), check).value;
      (f.verdict == Pass ==> Reached(check, Count(start, end, w.on), end - start)) &&
      (f.verdict == Fail ==> !Reached(check, Count(start, end, w.on), end - start))
  {
    LineIsComplete(records, sig, check, hold);
    FindingIsJudged(records, sig, check, hold);
    var (start, end) := Window(RunOf(records), check).value;
    InBandJudged(TheLine(records, sig, check, hold), check, start, end, w);
  }

  /** Some attempt's whole interval lies in the window and its sample is false. */
  ghost predicate ProvenViolation(attempts: seq<Sample>, check: Check, start: int, end: int) {
    exists a :: a in attempts && Usable(a, check) == Some(false) && Contained(a, start, end)
  }

  lemma ViolatedIsProven(line: Line<Json>, check: Check, start: int, end: int)
    requires |line.truths| == |line.attempts|
    requires forall k :: 0 <= k < |line.attempts| ==> line.truths[k] == Usable(line.attempts[k], check)
    ensures Violated(line, start, end, |line.attempts|) <==> ProvenViolation(line.attempts, check, start, end)
  {
    if a :| a in line.attempts && Usable(a, check) == Some(false) && Contained(a, start, end) {
      var k :| 0 <= k < |line.attempts| && line.attempts[k] == a;
      assert line.truths[k] == Some(false);
    }
  }

  /**
   holds_throughout fails exactly on a proven violation in evidence with no missing
   record: for any attempts, overlapping ones and ones out of order in time included.
   */
  lemma ThroughoutFailIff(records: seq<Record>, sig: Signal, check: Check, hold: int)
    requires WellFormed(records) && Window(RunOf(records), check).Ok? && check.criterion.HoldsThroughout?
    ensures var (start, end) := Window(RunOf(records), check).value;
      FindingOf(EvidenceOf(records), sig, check, hold).verdict == Fail <==>
      !Incomplete(EvidenceOf(records)) &&
      ProvenViolation(AttemptsFor(RunRecords(RunOf(records), records), sig), check, start, end)
  {
    if Incomplete(EvidenceOf(records)) {
      IncompleteDecidesNothing(records, sig, check, hold);
    } else {
      var run, line := RunOf(records), TheLine(records, sig, check, hold);
      var (start, end) := Window(run, check).value;
      FilterRising(records, r => InRun(run, r), BY_SEQUENCE);
      forall k | 0 <= k < |line.attempts|
        ensures line.attempts[k].start <= line.attempts[k].end
      {
        AttemptsGrounded(RunRecords(run, records), sig, line.attempts[k]);
      }
      FindingIsJudged(records, sig, check, hold);
      ThroughoutFailJudged(line, check, start, end);
      ViolatedIsProven(line, check, start, end);
    }
  }

  /** So a holds_throughout FAIL does not depend on the hold at all. */
  lemma FailIgnoresHold(records: seq<Record>, sig: Signal, check: Check, hold: int, other: int)
    requires WellFormed(records) && check.criterion.HoldsThroughout?
    ensures FindingOf(EvidenceOf(records), sig, check, hold).verdict == Fail <==>
            FindingOf(EvidenceOf(records), sig, check, other).verdict == Fail
  {
    if Window(RunOf(records), check).Ok? {
      ThroughoutFailIff(records, sig, check, hold);
      ThroughoutFailIff(records, sig, check, other);
    }
  }

  /**
   holds_throughout passes exactly when there is no proven violation, the window ends by
   the terminal, and every unit of the window is true in every possible world.
   */
  lemma ThroughoutPassIff(records: seq<Record>, sig: Signal, check: Check, hold: int)
    requires Decidable(records, sig, check) && check.criterion.HoldsThroughout?
    ensures var line := TheLine(records, sig, check, hold);
      var (start, end) := Window(RunOf(records), check).value;
      FindingOf(EvidenceOf(records), sig, check, hold).verdict == Pass <==>
        !ProvenViolation(AttemptsFor(RunRecords(RunOf(records), records), sig), check, start, end) &&
        end <= line.horizon.value && forall c :: start <= c < end ==> Certain(line, true, c)
  {
    var line := TheLine(records, sig, check, hold);
    var (start, end) := Window(RunOf(records), check).value;
    LineIsComplete(records, sig, check, hold);
    FindingIsJudged(records, sig, check, hold);
    ViolatedIsProven(line, check, start, end);
    ThroughoutPassJudged(line, check, start, end);
  }

  /** A longer declared hold never flips or loses a decided finding. */
  lemma LongerHoldKeepsVerdict(
    records: seq<Record>, sig: Signal, check: Check, hold: int, longer: int)
    requires Decidable(records, sig, check) && hold <= longer
    ensures var f := FindingOf(EvidenceOf(records), sig, check, hold);
      var g := FindingOf(EvidenceOf(records), sig, check, longer);
      f.trueNs <= g.trueNs && f.falseNs <= g.falseNs && (f.verdict != Inconclusive ==> g.verdict == f.verdict)
  {
    LineIsComplete(records, sig, check, hold);
    var line := TheLine(records, sig, check, hold);
    var (start, end) := Window(RunOf(records), check).value;
    assert TheLine(records, sig, check, longer) == line.(hold := longer);
    LongerHoldJudged(line, longer, check, start, end);
  }

  /** Without a hold nothing passes, and time_in_band decides nothing, whatever the attempts look like. */
  lemma NoHoldNeverPasses(records: seq<Record>, sig: Signal, check: Check, hold: int)
    requires ValidCheck(check) && hold <= 0
    ensures var f := FindingOf(EvidenceOf(records), sig, check, hold);
      f.verdict != Pass && f.trueNs == 0 && f.falseNs == 0 &&
      (check.criterion.TimeInBand? ==> f.verdict == Inconclusive)
  {
    if Window(RunOf(records), check).Ok? {
      FindingIsJudged(records, sig, check, hold);
      var (start, end) := Window(RunOf(records), check).value;
      NoHoldJudged(TheLine(records, sig, check, hold), Incomplete(EvidenceOf(records)), check, start, end);
    }
  }

  lemma NoHoldJudged(line: Line<Json>, incomplete: bool, check: Check, start: int, end: int)
    requires |line.truths| == |line.attempts| && line.horizon.Some? && line.hold <= 0
    requires ValidCheck(check) && start < end
    ensures var f := Judge(line, incomplete, check, start, end);
      f.verdict != Pass && f.trueNs == 0 && f.falseNs == 0 &&
      (check.criterion.TimeInBand? ==> f.verdict == Inconclusive)
  {
    NoHoldNoPieces(line, |line.attempts|);
    EmptyPieces(start, end);
    assert PiecesFor(line, incomplete) == [];
    var violated := TallyOf(line, incomplete, start, end, |line.attempts|).violations != [];
    NoTimeNoDecision(check.criterion, end - start, violated);
  }

  /** Evidence with a missing record before the terminal, or without a window, decides nothing and claims no time. */
  lemma IncompleteDecidesNothing(records: seq<Record>, sig: Signal, check: Check, hold: int)
    requires ValidCheck(check)
    requires Window(RunOf(records), check).Ok? ==> Incomplete(EvidenceOf(records))
    ensures var f := FindingOf(EvidenceOf(records), sig, check, hold);
      f.verdict == Inconclusive && f.trueNs == 0 && f.falseNs == 0
  {
    var ev := EvidenceOf(records);
    if Window(ev.run, check).Ok? {
      var line := LineOf(ev, sig, check, hold);
      var (start, end) := Window(ev.run, check).value;
      EmptyPieces(start, end);
      NoViolationsWhenUnknown(line, start, end, |line.attempts|);
      NoTimeNoDecision(check.criterion, end - start, false);
    }
  }
}
