/** `evaluate`: one check against one file of evidence. */
module Engine {
  import opened Common
  import opened Cells
  import opened Sweep
  import opened JsonTree
  import opened Timeline
  import opened Evidence
  import opened Attempts

  datatype Criterion =
    | HoldsThroughout
    | TimeInBand(numerator: int, denominator: int)  // the exact ratio of min_fraction

  /** `truth` is what `_truth` answers for a usable value: None when it cannot be compared. */
  datatype Check = Check(startOffset: int, endOffset: Option<int>, truth: Json -> Truth, criterion: Criterion)

  /** What profile loading guarantees: min_fraction lies in (0, 1]. */
  ghost predicate ValidCheck(check: Check) {
    check.criterion.TimeInBand? ==> 0 < check.criterion.numerator <= check.criterion.denominator
  }

  datatype Verdict = Pass | Fail | Inconclusive

  datatype Reason =
    | RunProblem(problem: Problem) | RunNotTerminated | WindowEmpty
    | NoHoldDeclared | CoverageIncomplete | NoObservations | InvalidObservations
    | SequenceGap | EvidenceEnded | ViolationAtWindowEdge | HeldViolation

  /** What the loop over the attempts that meet the window collects. */
  datatype Tally = Tally(overlapping: nat, valid: nat, violations: seq<int>, edgeViolations: seq<int>,
                         unusable: seq<int>, invalid: seq<int>)

  datatype Finding = Finding(verdict: Verdict, reasons: set<Reason>, window: Option<(int, int)>,
                             trueNs: int, falseNs: int, unknownNs: int, tally: Tally)

  const NO_TALLY := Tally(0, 0, [], [], [], [])

  // ---- the window ----

  function Window(run: Run, check: Check): Result<(int, int), Reason> {
    if run.problem.Some? then Err(RunProblem(run.problem.value))
    else if run.terminal.None? || run.started.None? then Err(RunNotTerminated)
    else
      var started := run.started.value.monotonic;
      var start := started + check.startOffset;
      var end := if check.endOffset.None? then run.terminal.value.monotonic else started + check.endOffset.value;
      if end <= start then Err(WindowEmpty) else Ok((start, end))
  }

  // ---- attempts and truths ----

  function Usable(a: Sample, check: Check): Truth {
    if a.valid && a.value.Some? then check.truth(a.value.value) else None
  }

  function TruthsOf(attempts: seq<Sample>, check: Check, incomplete: bool): (truths: seq<Truth>)
    ensures |truths| == |attempts|
    ensures forall k :: 0 <= k < |attempts| ==> truths[k] == if incomplete then None else Usable(attempts[k], check)
  {
    seq(|attempts|, k requires 0 <= k < |attempts| => if incomplete then None else Usable(attempts[k], check))
  }

  function Incomplete(ev: Evidence): bool
    requires ev.run.terminal.Some?
  {
    MissingBetween(ev.gaps, 1, ev.run.terminal.value.sequence)
  }

  /** The timeline that `evaluate` builds for a terminated run. */
  function LineOf(ev: Evidence, sig: Signal, check: Check, hold: int): Line<Json>
    requires ev.run.terminal.Some?
  {
    var attempts := AttemptsFor(RunRecords(ev.run, ev.records), sig);
    Line(attempts, TruthsOf(attempts, check, Incomplete(ev)), ev.gaps, hold,
         Some(ev.run.terminal.value.monotonic), Some(ev.run.terminal.value.sequence))
  }

  // ---- the tally ----

  predicate Meets(a: Sample, start: int, end: int) {
    a.end >= start && a.start <= end
  }

  predicate Contained(a: Sample, start: int, end: int) {
    a.start >= start && a.end <= end
  }

  function TallyOne(t: Tally, a: Sample, truth: Truth, incomplete: bool, start: int, end: int): Tally {
    if !Meets(a, start, end) then t
    else Tally(
      t.overlapping + 1,
      t.valid + (if a.valid then 1 else 0),
      t.violations + (if truth == Some(false) && Contained(a, start, end) then [a.last] else []),
      t.edgeViolations + (if truth == Some(false) && !Contained(a, start, end) then [a.last] else []),
      t.unusable + (if truth == None && !incomplete then [a.last] else []),
      t.invalid + (if !a.valid then [a.last] else []))
  }

  function TallyOf(line: Line<Json>, incomplete: bool, start: int, end: int, n: nat): Tally
    requires n <= |line.attempts| == |line.truths|
  {
    if n == 0 then NO_TALLY
    else
      var earlier := TallyOf(line, incomplete, start, end, n - 1);
      TallyOne(earlier, line.attempts[n - 1], line.truths[n - 1], incomplete, start, end)
  }

  /** A proven violation: a false sample whose whole interval lies in the window. */
  ghost predicate Violated(line: Line<Json>, start: int, end: int, n: nat)
    requires n <= |line.attempts| == |line.truths|
  {
    exists k :: 0 <= k < n && line.truths[k] == Some(false) && Contained(line.attempts[k], start, end)
  }

  lemma {:induction false} TallyViolations(line: Line<Json>, incomplete: bool, start: int, end: int, n: nat)
    requires n <= |line.attempts| == |line.truths| && start <= end
    requires forall k :: 0 <= k < |line.attempts| ==> line.attempts[k].start <= line.attempts[k].end
    ensures TallyOf(line, incomplete, start, end, n).violations != [] <==> Violated(line, start, end, n)
  {
    if n == 0 {
    } else {
      TallyViolations(line, incomplete, start, end, n - 1);
      if Violated(line, start, end, n - 1) {
        var k :| 0 <= k < n - 1 && line.truths[k] == Some(false) && Contained(line.attempts[k], start, end);
      }
    }
  }

  // ---- the verdict ----

  function VerdictOf(
    criterion: Criterion, trueNs: int, falseNs: int, unknownNs: int, width: int, violated: bool): Verdict
  {
    match criterion
    case HoldsThroughout =>
      if violated then Fail
      else if falseNs == 0 && unknownNs == 0 && trueNs == width then Pass
      else Inconclusive
    case TimeInBand(numerator, denominator) =>
      if trueNs * denominator >= numerator * width then Pass
      else if (width - falseNs) * denominator < numerator * width then Fail
      else Inconclusive
  }

  function ReasonsOf(criterion: Criterion, verdict: Verdict, hold: int, falseNs: int, unknownNs: int,
                     tally: Tally, incomplete: bool, late: bool): set<Reason>
  {
    if verdict != Inconclusive then {}
    else
      (if hold == 0 then {NoHoldDeclared} else {}) +
      (if unknownNs > 0 then {CoverageIncomplete} else {}) +
      (if tally.overlapping == 0 then {NoObservations} else {}) +
      (if tally.unusable != [] then {InvalidObservations} else {}) +
      (if incomplete then {SequenceGap} else {}) +
      (if late then {EvidenceEnded} else {}) +
      (if tally.edgeViolations != [] then {ViolationAtWindowEdge} else {}) +
      (if criterion.HoldsThroughout? && falseNs > 0 then {HeldViolation} else {})
  }

  function PiecesFor(line: Line<Json>, incomplete: bool): seq<Piece>
    requires |line.truths| == |line.attempts|
  {
    if incomplete then [] else line.AllPieces()
  }

  /** The finding for a window, from the timeline and the time its pieces decide. */
  ghost function Judge(line: Line<Json>, incomplete: bool, check: Check, start: int, end: int): Finding
    requires |line.truths| == |line.attempts| && line.horizon.Some?
  {
    var pieces := PiecesFor(line, incomplete);
    var t, f := Count(start, end, Known(pieces, true)), Count(start, end, Known(pieces, false));
    var unknown := (end - start) - t - f;
    var tally := TallyOf(line, incomplete, start, end, |line.attempts|);
    var verdict := VerdictOf(check.criterion, t, f, unknown, end - start, tally.violations != []);
    var reasons := ReasonsOf(check.criterion, verdict, line.hold, f, unknown, tally, incomplete,
      end > line.horizon.value);
    Finding(verdict, reasons, Some((start, end)), t, f, unknown, tally)
  }

  ghost function FindingOf(ev: Evidence, sig: Signal, check: Check, hold: int): Finding {
    match Window(ev.run, check)
    case Err(reason) => Finding(Inconclusive, {reason}, None, 0, 0, 0, NO_TALLY)
    case Ok((start, end)) => Judge(LineOf(ev, sig, check, hold), Incomplete(ev), check, start, end)
  }

  /** `attempts_for`, by the loops of the two sources. */
  method AttemptsForSignal(rs: seq<Record>, sig: Signal) returns (attempts: seq<Sample>)
    requires Sorted(rs)
    ensures attempts == AttemptsFor(rs, sig)
  {
    if sig.Dragon? {
      attempts := DragonAttempts(rs, sig);
    } else {
      attempts := PrusaLinkAttempts(rs, sig);
    }
  }

  /** The loops over the overlapping attempts. */
  method TallyWindow(line: Line<Json>, incomplete: bool, start: int, end: int) returns (tally: Tally)
    requires |line.attempts| == |line.truths|
    ensures tally == TallyOf(line, incomplete, start, end, |line.attempts|)
  {
    var overlapping, valid := 0, 0;
    var violations: seq<int>, edge: seq<int>, unusable: seq<int>, invalid: seq<int> := [], [], [], [];
    for index := 0 to |line.attempts|
      invariant Tally(overlapping, valid, violations, edge, unusable, invalid) ==
        TallyOf(line, incomplete, start, end, index)
    {
      var attempt, truth := line.attempts[index], line.truths[index];
      if attempt.end >= start && attempt.start <= end {
        overlapping := overlapping + 1;
        if truth == Some(false) {
          if attempt.start >= start && attempt.end <= end {
            violations := violations + [attempt.last];
          } else {
            edge := edge + [attempt.last];
          }
        } else if truth == None && !incomplete {
          unusable := unusable + [attempt.last];
        }
        if attempt.valid {
          valid := valid + 1;
        } else {
          invalid := invalid + [attempt.last];
        }
      }
    }
    tally := Tally(overlapping, valid, violations, edge, unusable, invalid);
  }

  /** What `evaluate` makes of a timeline and a window. */
  method JudgeWindow(line: Line<Json>, incomplete: bool, check: Check, start: int, end: int) returns (finding: Finding)
    requires |line.truths| == |line.attempts| && line.horizon.Some?
    ensures finding == Judge(line, incomplete, check, start, end)
  {
    var pieces: seq<Piece> := [];
    if !incomplete {
      pieces := BuildPieces(line);
    }
    var trueNs, falseNs, unknownNs := Integrate(pieces, start, end);
    var tally := TallyWindow(line, incomplete, start, end);
    var verdict := VerdictOf(check.criterion, trueNs, falseNs, unknownNs, end - start, tally.violations != []);
    var reasons := ReasonsOf(check.criterion, verdict, line.hold, falseNs, unknownNs, tally, incomplete,
                             end > line.horizon.value);
    finding := Finding(verdict, reasons, Some((start, end)), trueNs, falseNs, unknownNs, tally);
  }

  method Evaluate(ev: Evidence, sig: Signal, check: Check, hold: int) returns (finding: Finding)
    requires Sorted(ev.records)
    ensures finding == FindingOf(ev, sig, check, hold)
  {
    var window := Window(ev.run, check);
    if window.Err? {
      return Finding(Inconclusive, {window.error}, None, 0, 0, 0, NO_TALLY);
    }
    var (start, end) := window.value;
    var incomplete := Incomplete(ev);
    FilterRising(ev.records, r => InRun(ev.run, r), BY_SEQUENCE);
    var attempts := AttemptsForSignal(RunRecords(ev.run, ev.records), sig);
    var line := Line(attempts, TruthsOf(attempts, check, incomplete), ev.gaps, hold,
                     Some(ev.run.terminal.value.monotonic), Some(ev.run.terminal.value.sequence));
    finding := JudgeWindow(line, incomplete, check, start, end);
  }
}
