/** The zero of the clock does not matter: a file whose every time is later by d gets the same finding, d later. */
module TimeShift {
  import opened Common
  import opened JsonTree
  import opened Cells
  import opened Sweep
  import opened Timeline
  import opened Evidence
  import opened Attempts
  import opened Engine
  import opened Guarantees

  // ---- what is shifted ----

  function Later(r: Record, d: nat): Record {
    r.(monotonic := r.monotonic + d,
       observed := if r.observed.Some? && r.observed.value >= 0 then Some(r.observed.value + d) else r.observed)
  }

  function AllLater(records: seq<Record>, d: nat): (later: seq<Record>)
    ensures |later| == |records| && forall i :: 0 <= i < |records| ==> later[i] == Later(records[i], d)
  {
    seq(|records|, i requires 0 <= i < |records| => Later(records[i], d))
  }

  function RunLater(run: Run, d: nat): Run {
    run.(started := if run.started.Some? then Some(Later(run.started.value, d)) else None,
         terminal := if run.terminal.Some? then Some(Later(run.terminal.value, d)) else None)
  }

  function SamplesLater(attempts: seq<Sample>, d: nat): (later: seq<Sample>)
    ensures |later| == |attempts|
    ensures forall i :: 0 <= i < |attempts| ==> later[i] == SampleLater(attempts[i], d)
  {
    seq(|attempts|, i requires 0 <= i < |attempts| => SampleLater(attempts[i], d))
  }

  function SampleLater(a: Sample, d: nat): Sample {
    a.(start := a.start + d, end := a.end + d)
  }

  // ---- the run and its records ----

  /** A test that does not look at the times passes the same records. */
  lemma {:induction false} FilterLater(records: seq<Record>, d: nat, test: Record -> bool, testLater: Record -> bool)
    requires forall r :: r in records ==> test(r) == testLater(Later(r, d))
    ensures Filter(AllLater(records, d), testLater) == AllLater(Filter(records, test), d)
  {
    if records == [] {
    } else {
      var init, last := records[..|records| - 1], records[|records| - 1];
      assert records == init + [last];
      assert AllLater(records, d)[..|records| - 1] == AllLater(init, d);
      FilterLater(init, d, test, testLater);
    }
  }

  lemma StartsLater(records: seq<Record>, d: nat)
    ensures Starts(AllLater(records, d)) == AllLater(Starts(records), d)
  {
    FilterLater(records, d, (r: Record) => r.kind == RunStarted, (r: Record) => r.kind == RunStarted);
  }

  lemma TerminalsLater(records: seq<Record>, after: int, d: nat)
    ensures Terminals(AllLater(records, d), after) == AllLater(Terminals(records, after), d)
  {
    FilterLater(records, d, (r: Record) => IsTerminal(r.kind) && r.sequence > after,
                (r: Record) => IsTerminal(r.kind) && r.sequence > after);
  }

  lemma {:induction false} RunIsLater(records: seq<Record>, d: nat)
    ensures RunOf(AllLater(records, d)) == RunLater(RunOf(records), d)
  {
    var starts := Starts(records);
    StartsLater(records, d);
    if starts != [] {
      TerminalsLater(records, starts[0].sequence, d);
      assert AllLater(starts, d)[1..] == AllLater(starts[1..], d);
    }
  }

  lemma RunRecordsLater(records: seq<Record>, d: nat)
    ensures RunRecords(RunOf(AllLater(records, d)), AllLater(records, d)) ==
            AllLater(RunRecords(RunOf(records), records), d)
  {
    var run := RunOf(records);
    RunIsLater(records, d);
    if run.problem.None? && run.started.Some? && run.terminal.Some? {
      FilterLater(records, d, r => InRun(run, r), r => InRun(RunLater(run, d), r));
    }
  }

  lemma {:induction false} GapsLater(records: seq<Record>, d: nat, n: nat)
    requires n <= |records|
    ensures GapsOf(AllLater(records, d), n) == GapsOf(records, n)
  {
    if n == 0 {
    } else {
      GapsLater(records, d, n - 1);
    }
  }

  // ---- the attempts ----

  lemma HalvesLater(rs: seq<Record>, endpoint: string, id: RequestId, d: nat)
    ensures Asked(AllLater(rs, d), endpoint, id) == AllLater(Asked(rs, endpoint, id), d)
    ensures Answered(AllLater(rs, d), endpoint, id) == AllLater(Answered(rs, endpoint, id), d)
  {
    FilterLater(rs, d, r => Asks(r, endpoint, id), r => Asks(r, endpoint, id));
    FilterLater(rs, d, r => Answers(r, endpoint, id), r => Answers(r, endpoint, id));
  }

  lemma OpenedLater(rs: seq<Record>, sig: Signal, r: Record, d: nat)
    requires sig.Dragon?
    ensures OpenedBy(AllLater(rs, d), sig, Later(r, d)) ==
      match OpenedBy(rs, sig, r) case Some(a) => Some(SampleLater(a, d)) case None => None
  {
    HalvesLater(rs, sig.endpoint, r.requestId, d);
  }

  lemma {:induction false} AttemptsOfLater(rs: seq<Record>, sig: Signal, d: nat, n: nat)
    requires sig.Dragon? && n <= |rs|
    ensures AttemptsOf(AllLater(rs, d), sig, n) == SamplesLater(AttemptsOf(rs, sig, n), d)
  {
    if n == 0 {
    } else {
      AttemptsOfLater(rs, sig, d, n - 1);
      OpenedLater(rs, sig, rs[n - 1], d);
    }
  }

  lemma {:induction false} ObservedLater(rs: seq<Record>, sig: Signal, d: nat)
    requires sig.PrusaLink?
    ensures ObservedAttempts(AllLater(rs, d), sig) == SamplesLater(ObservedAttempts(rs, sig), d)
  {
    if rs == [] {
    } else {
      var init, last := rs[..|rs| - 1], rs[|rs| - 1];
      assert AllLater(rs, d)[..|rs| - 1] == AllLater(init, d);
      ObservedLater(init, sig, d);
      OneObservedLater(sig, last, d);
      SamplesJoinLater(ObservedAttempts(init, sig), ObservedAttempt(sig, last), d);
    }
  }

  lemma OneObservedLater(sig: Signal, r: Record, d: nat)
    requires sig.PrusaLink?
    ensures ObservedAttempt(sig, Later(r, d)) == SamplesLater(ObservedAttempt(sig, r), d)
  {
  }

  lemma SamplesJoinLater(a: seq<Sample>, b: seq<Sample>, d: nat)
    ensures SamplesLater(a + b, d) == SamplesLater(a, d) + SamplesLater(b, d)
  {
  }

  lemma AttemptsLater(rs: seq<Record>, sig: Signal, d: nat)
    ensures AttemptsFor(AllLater(rs, d), sig) == SamplesLater(AttemptsFor(rs, sig), d)
  {
    if sig.Dragon? {
      AttemptsOfLater(rs, sig, d, |rs|);
    } else {
      ObservedLater(rs, sig, d);
    }
  }

  // ---- the timeline ----

  function LineLater(line: Line<Json>, d: nat): Line<Json> {
    line.(attempts := SamplesLater(line.attempts, d),
          horizon := if line.horizon.Some? then Some(line.horizon.value + d) else None)
  }

  function PieceLater(p: Piece, d: nat): Piece {
    p.(start := p.start + d, end := p.end + d)
  }

  function PiecesLater(pieces: seq<Piece>, d: nat): (later: seq<Piece>)
    ensures |later| == |pieces| && forall i :: 0 <= i < |pieces| ==> later[i] == PieceLater(pieces[i], d)
  {
    seq(|pieces|, i requires 0 <= i < |pieces| => PieceLater(pieces[i], d))
  }

  lemma OwnLater(line: Line<Json>, d: nat, k: nat)
    requires line.WellFormed() && k < |line.attempts|
    ensures LineLater(line, d).Own(k) == PiecesLater(line.Own(k), d)
  {
  }

  lemma AfterLater(line: Line<Json>, d: nat, k: nat)
    requires line.WellFormed() && k < |line.attempts|
    ensures LineLater(line, d).After(k) == PiecesLater(line.After(k), d)
  {
  }

  lemma {:induction false} LinePiecesLater(line: Line<Json>, d: nat, n: nat)
    requires line.WellFormed() && n <= |line.attempts|
    ensures LineLater(line, d).Pieces(n) == PiecesLater(line.Pieces(n), d)
  {
    if n == 0 {
    } else {
      LinePiecesLater(line, d, n - 1);
      OwnLater(line, d, n - 1);
      AfterLater(line, d, n - 1);
      JoinLater(line.Pieces(n - 1), line.Own(n - 1), line.After(n - 1), d);
    }
  }

  lemma JoinLater(a: seq<Piece>, b: seq<Piece>, c: seq<Piece>, d: nat)
    ensures PiecesLater(a + b + c, d) == PiecesLater(a, d) + PiecesLater(b, d) + PiecesLater(c, d)
  {
  }

  lemma StatusLater(pieces: seq<Piece>, d: nat, c: int)
    ensures Status(PiecesLater(pieces, d), c + d) == Status(pieces, c)
  {
    var later := PiecesLater(pieces, d);
    forall p | p in pieces
      ensures PieceLater(p, d) in later && (Covers(PieceLater(p, d), c + d) <==> Covers(p, c))
    {
      var i :| 0 <= i < |pieces| && pieces[i] == p;
      assert later[i] == PieceLater(p, d);
    }
    forall q | q in later
      ensures exists p :: p in pieces && q == PieceLater(p, d)
    {
      var i :| 0 <= i < |later| && later[i] == q;
      assert pieces[i] in pieces;
    }
  }

  lemma {:induction false} CountLater(lo: int, hi: int, d: nat, s: iset<int>, u: iset<int>)
    requires forall c :: lo <= c < hi ==> (c + d in u <==> c in s)
    ensures Count(lo + d, hi + d, u) == Count(lo, hi, s)
    decreases hi - lo
  {
    if hi <= lo {
    } else {
      CountLater(lo, hi - 1, d, s, u);
      assert hi - 1 + d in u <==> hi - 1 in s;
    }
  }

  lemma KnownLater(pieces: seq<Piece>, d: nat, v: bool, lo: int, hi: int)
    ensures Count(lo + d, hi + d, Known(PiecesLater(pieces, d), v)) == Count(lo, hi, Known(pieces, v))
  {
    forall c | lo <= c < hi
      ensures c + d in Known(PiecesLater(pieces, d), v) <==> c in Known(pieces, v)
    {
      StatusLater(pieces, d, c);
    }
    CountLater(lo, hi, d, Known(pieces, v), Known(PiecesLater(pieces, d), v));
  }

  lemma {:induction false} TallyLater(line: Line<Json>, incomplete: bool, lo: int, hi: int, d: nat, n: nat)
    requires line.WellFormed() && n <= |line.attempts|
    ensures TallyOf(LineLater(line, d), incomplete, lo + d, hi + d, n) == TallyOf(line, incomplete, lo, hi, n)
  {
    if n == 0 {
    } else {
      TallyLater(line, incomplete, lo, hi, d, n - 1);
    }
  }

  lemma JudgeLater(line: Line<Json>, incomplete: bool, check: Check, lo: int, hi: int, d: nat)
    requires line.WellFormed() && line.horizon.Some?
    ensures Judge(LineLater(line, d), incomplete, check, lo + d, hi + d) ==
            Judge(line, incomplete, check, lo, hi).(window := Some((lo + d, hi + d)))
  {
    var pieces := PiecesFor(line, incomplete);
    LinePiecesLater(line, d, |line.attempts|);
    assert PiecesFor(LineLater(line, d), incomplete) == PiecesLater(pieces, d);
    KnownLater(pieces, d, true, lo, hi);
    KnownLater(pieces, d, false, lo, hi);
    TallyLater(line, incomplete, lo, hi, d, |line.attempts|);
  }

  // ---- the finding ----

  lemma WindowLater(run: Run, check: Check, d: nat)
    ensures Window(RunLater(run, d), check) ==
      match Window(run, check)
      case Ok((start, end)) => Ok((start + d, end + d))
      case Err(reason) => Err(reason)
  {
  }

  /** What evidence of the shifted file has in common with that of the file. */
  ghost predicate IsLater(ev: Evidence, later: Evidence, d: nat) {
    later.run == RunLater(ev.run, d) && later.gaps == ev.gaps &&
    RunRecords(later.run, later.records) == AllLater(RunRecords(ev.run, ev.records), d)
  }

  lemma EvidenceLater(records: seq<Record>, d: nat)
    ensures IsLater(EvidenceOf(records), EvidenceOf(AllLater(records, d)), d)
  {
    RunIsLater(records, d);
    RunRecordsLater(records, d);
    GapsLater(records, d, |records|);
  }

  lemma {:induction false} LineOfLater(ev: Evidence, later: Evidence, sig: Signal, check: Check, hold: int, d: nat)
    requires IsLater(ev, later, d) && ev.run.terminal.Some?
    ensures Incomplete(later) == Incomplete(ev)
    ensures LineOf(later, sig, check, hold) == LineLater(LineOf(ev, sig, check, hold), d)
  {
    var rs := RunRecords(ev.run, ev.records);
    AttemptsLater(rs, sig, d);
    TruthsLater(AttemptsFor(rs, sig), check, Incomplete(ev), d);
  }

  lemma TruthsLater(attempts: seq<Sample>, check: Check, incomplete: bool, d: nat)
    ensures TruthsOf(SamplesLater(attempts, d), check, incomplete) == TruthsOf(attempts, check, incomplete)
  {
  }

  lemma FindingInWindow(ev: Evidence, sig: Signal, check: Check, hold: int, start: int, end: int)
    requires Window(ev.run, check) == Ok((start, end))
    ensures FindingOf(ev, sig, check, hold) == Judge(LineOf(ev, sig, check, hold), Incomplete(ev), check, start, end)
  {
  }

  /** The same finding, in a window that is later by d. */
  predicate SameButLater(f: Finding, g: Finding, d: nat) {
    g == f.(window := if f.window.Some? then Some((f.window.value.0 + d, f.window.value.1 + d)) else None)
  }

  lemma JudgedLater(
    line: Line<Json>, lineLater: Line<Json>, incomplete: bool, check: Check, lo: int, hi: int, d: nat,
    f: Finding, g: Finding)
    requires line.WellFormed() && line.horizon.Some? && lineLater == LineLater(line, d)
    requires f == Judge(line, incomplete, check, lo, hi)
    requires g == Judge(lineLater, incomplete, check, lo + d, hi + d)
    ensures SameButLater(f, g, d)
  {
    JudgeLater(line, incomplete, check, lo, hi, d);
    JudgedWindow(line, incomplete, check, lo, hi);
  }

  lemma JudgedWindow(line: Line<Json>, incomplete: bool, check: Check, lo: int, hi: int)
    requires line.WellFormed() && line.horizon.Some?
    ensures Judge(line, incomplete, check, lo, hi).window == Some((lo, hi))
  {
  }

  lemma {:induction false} FindingShifts(
    ev: Evidence, later: Evidence, sig: Signal, check: Check, hold: int, d: nat, start: int, end: int)
    requires Window(ev.run, check) == Ok((start, end)) && Window(later.run, check) == Ok((start + d, end + d))
    requires Incomplete(later) == Incomplete(ev)
    requires LineOf(later, sig, check, hold) == LineLater(LineOf(ev, sig, check, hold), d)
    ensures SameButLater(FindingOf(ev, sig, check, hold), FindingOf(later, sig, check, hold), d)
  {
    FindingInWindow(ev, sig, check, hold, start, end);
    FindingInWindow(later, sig, check, hold, start + d, end + d);
    JudgedLater(LineOf(ev, sig, check, hold), LineOf(later, sig, check, hold), Incomplete(ev), check, start, end, d,
                FindingOf(ev, sig, check, hold), FindingOf(later, sig, check, hold));
  }

  lemma {:induction false} ShiftedEvidence(ev: Evidence, later: Evidence, sig: Signal, check: Check, hold: int, d: nat)
    requires IsLater(ev, later, d)
    ensures SameButLater(FindingOf(ev, sig, check, hold), FindingOf(later, sig, check, hold), d)
  {
    WindowLater(ev.run, check, d);
    if Window(ev.run, check).Ok? {
      var (start, end) := Window(ev.run, check).value;
      LineOfLater(ev, later, sig, check, hold, d);
      FindingShifts(ev, later, sig, check, hold, d, start, end);
    }
  }

  /**
   Every finding of the shifted file is that of the file, its window shifted as well: the
   verdict, its reasons, the amounts of time and the tally do not depend on the clock's zero.
   */
  lemma ShiftedFinding(records: seq<Record>, sig: Signal, check: Check, hold: int, d: nat)
    ensures SameButLater(FindingOf(EvidenceOf(records), sig, check, hold),
                         FindingOf(EvidenceOf(AllLater(records, d)), sig, check, hold), d)
  {
    EvidenceLater(records, d);
    ShiftedEvidence(EvidenceOf(records), EvidenceOf(AllLater(records, d)), sig, check, hold, d);
  }

  /** The shifted file is accepted if the file is. */
  lemma ShiftedIsWellFormed(records: seq<Record>, d: nat)
    requires WellFormed(records)
    ensures WellFormed(AllLater(records, d))
  {
  }

  // ---- the window ----

  /** A unit, counted from the run's start, lies between the two offsets; without an end, before the terminal. */
  predicate InWindow(run: Run, check: Check, c: int)
    requires run.started.Some? && run.terminal.Some?
  {
    check.startOffset <= c - run.started.value.monotonic &&
    match check.endOffset
    case Some(offset) => c - run.started.value.monotonic < offset
    case None => c < run.terminal.value.monotonic
  }

  /** A run without a problem and with both ends has a window, unless no unit lies in it; it has just those units. */
  lemma WindowUnits(run: Run, check: Check)
    requires run.problem.None? && run.started.Some? && run.terminal.Some?
    ensures Window(run, check) == Err(WindowEmpty) <==> forall c :: !InWindow(run, check, c)
    ensures match Window(run, check)
      case Ok((start, end)) => forall c :: start <= c < end <==> InWindow(run, check, c)
      case Err(reason) => reason == WindowEmpty
  {
    var start := run.started.value.monotonic + check.startOffset;
    assert Window(run, check).Ok? ==> InWindow(run, check, start);
  }

  /** Any other run has none, for the reason that its problem or its missing end gives. */
  lemma WindowRefused(run: Run, check: Check)
    ensures run.problem.Some? ==> Window(run, check) == Err(RunProblem(run.problem.value))
    ensures run.problem.None? && (run.terminal.None? || run.started.None?) ==>
      Window(run, check) == Err(RunNotTerminated)
  {
  }

  /** Without offsets the window lasts from the start record to the terminal record. */
  lemma WholeRunWindow(run: Run, check: Check)
    requires run.problem.None? && run.started.Some? && run.terminal.Some?
    requires check.startOffset == 0 && check.endOffset.None?
    ensures run.started.value.monotonic < run.terminal.value.monotonic ==>
      Window(run, check) == Ok((run.started.value.monotonic, run.terminal.value.monotonic))
  {
  }
}
