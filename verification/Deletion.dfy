/**
 The epistemic invariant: deleting records, with sequence numbers kept, never
 moves a finding toward PASS.
 */
module Deletion {
  import opened Common
  import opened JsonTree
  import opened Sweep
  import opened Timeline
  import opened Evidence
  import opened Attempts
  import opened Engine
  import opened Guarantees

  /** What is left after deleting some of the records. */
  ghost predicate LeftOf(full: seq<Record>, reduced: seq<Record>) {
    forall r :: r in reduced ==> r in full
  }

  // ---- the part of a file up to sequence number t ----

  function UpTo(records: seq<Record>, t: int): seq<Record> {
    Filter(records, (r: Record) => r.sequence <= t)
  }

  function Beyond(records: seq<Record>, t: int): seq<Record> {
    Filter(records, (r: Record) => r.sequence > t)
  }

  lemma {:induction false} CutAt(records: seq<Record>, t: int)
    requires Sorted(records)
    ensures records == UpTo(records, t) + Beyond(records, t)
  {
    if records == [] {
    } else {
      var init, last := records[..|records| - 1], records[|records| - 1];
      CutAt(init, t);
      assert records == init + [last];
      if last.sequence <= t {
        forall i | 0 <= i < |init|
          ensures init[i].sequence <= t
        {
          assert records[i].sequence < last.sequence;
        }
        FilterNothing(init, (r: Record) => r.sequence > t);
      }
    }
  }

  ghost predicate Agree(a: seq<Record>, b: seq<Record>, t: int) {
    forall r: Record :: r.sequence <= t ==> (r in a <==> r in b)
  }

  lemma AgreeSamePrefix(a: seq<Record>, b: seq<Record>, t: int)
    requires Sorted(a) && Sorted(b) && Agree(a, b, t)
    ensures UpTo(a, t) == UpTo(b, t)
  {
    FilterRising(a, (r: Record) => r.sequence <= t, BY_SEQUENCE);
    FilterRising(b, (r: Record) => r.sequence <= t, BY_SEQUENCE);
    FilterMembers(a, (r: Record) => r.sequence <= t);
    FilterMembers(b, (r: Record) => r.sequence <= t);
    RisingIsUnique(UpTo(a, t), UpTo(b, t), BY_SEQUENCE);
  }

  lemma {:induction false} FilterNothing(records: seq<Record>, keep: Record -> bool)
    requires forall r :: r in records ==> !keep(r)
    ensures Filter(records, keep) == []
  {
    if records == [] {
    } else {
      FilterNothing(records[..|records| - 1], keep);
    }
  }

  lemma BeyondIsBeyond(records: seq<Record>, t: int)
    ensures forall r :: r in Beyond(records, t) ==> r.sequence > t
  {
    FilterMembers(records, (r: Record) => r.sequence > t);
  }

  // ---- findings depend only on the records up to the first terminal ----

  /** The run of p + x, read off p alone, when x lies beyond the terminal t of p. */
  lemma RunFromPrefix(p: seq<Record>, x: seq<Record>, t: int)
    requires forall r :: r in x ==> r.sequence > t
    requires forall r :: r in p ==> r.sequence <= t
    requires Starts(p) != [] && Terminals(p, Starts(p)[0].sequence) != []
    requires Terminals(p, Starts(p)[0].sequence)[0].sequence == t
    ensures RunOf(p + x) == RunOf(p)
  {
    FilterAppend(p, x, (r: Record) => r.kind == RunStarted);
    var started := Starts(p)[0];
    FilterAppend(p, x, (r: Record) => IsTerminal(r.kind) && r.sequence > started.sequence);
    FilterMembers(x, (r: Record) => r.kind == RunStarted);
    var late := Starts(p + x)[1..];
    assert late == Starts(p)[1..] + Starts(x);
    assert (exists r :: r in late && r.sequence < t) <==> (exists r :: r in Starts(p)[1..] && r.sequence < t);
  }

  /** A terminated run is opened and closed by records up to its terminal. */
  lemma RunInPrefix(p: seq<Record>, x: seq<Record>, t: int)
    requires forall r :: r in x ==> r.sequence > t
    requires RunOf(p + x).terminal.Some? && RunOf(p + x).terminal.value.sequence == t
    ensures Starts(p) != [] && Terminals(p, Starts(p)[0].sequence) != []
    ensures Terminals(p, Starts(p)[0].sequence)[0].sequence == t
  {
    FilterAppend(p, x, (r: Record) => r.kind == RunStarted);
    FilterMembers(x, (r: Record) => r.kind == RunStarted);
    var started := Starts(p + x)[0];
    FilterAppend(p, x, (r: Record) => IsTerminal(r.kind) && r.sequence > started.sequence);
    FilterMembers(p + x, (r: Record) => IsTerminal(r.kind) && r.sequence > started.sequence);
    FilterMembers(x, (r: Record) => IsTerminal(r.kind) && r.sequence > started.sequence);
    var terminal := RunOf(p + x).terminal.value;
    assert terminal in Terminals(p + x, started.sequence);
    assert Starts(p) == [] ==> started in Starts(x);
    assert Terminals(p, started.sequence) == [] ==> terminal in Terminals(x, started.sequence);
  }

  lemma SameRun(a: seq<Record>, b: seq<Record>, t: int)
    requires Sorted(a) && Sorted(b) && Agree(a, b, t)
    requires RunOf(a).terminal.Some? && RunOf(a).terminal.value.sequence == t
    ensures RunOf(b) == RunOf(a)
    ensures RunRecords(RunOf(b), b) == RunRecords(RunOf(a), a)
  {
    AgreeSamePrefix(a, b, t);
    CutAt(a, t);
    CutAt(b, t);
    BeyondIsBeyond(a, t);
    BeyondIsBeyond(b, t);
    var p := UpTo(a, t);
    FilterMembers(a, (r: Record) => r.sequence <= t);
    RunInPrefix(p, Beyond(a, t), t);
    RunFromPrefix(p, Beyond(a, t), t);
    RunFromPrefix(p, Beyond(b, t), t);
    var run := RunOf(a);
    FilterAppend(p, Beyond(a, t), r => InRun(run, r));
    FilterAppend(p, Beyond(b, t), r => InRun(run, r));
    FilterNothing(Beyond(a, t), r => InRun(run, r));
    FilterNothing(Beyond(b, t), r => InRun(run, r));
  }

  lemma SameGaps(a: seq<Record>, b: seq<Record>, t: int, x: Record)
    requires WellFormed(a) && WellFormed(b) && Agree(a, b, t)
    requires x in a && x.sequence == t
    ensures MissingBetween(GapsOf(a, |a|), 1, t) <==> MissingBetween(GapsOf(b, |b|), 1, t)
  {
    assert x in b;
    var i :| 0 <= i < |a| && a[i] == x;
    var j :| 0 <= j < |b| && b[j] == x;
    MissingIff(a, 1, t);
    MissingIff(b, 1, t);
    forall q | 1 <= q <= t
      ensures Present(a, q) <==> Present(b, q)
    {
      if r :| r in a && r.sequence == q {
        assert r in b;
      }
      if r :| r in b && r.sequence == q {
        assert r in a;
      }
    }
  }

  /** Two gap lists that miss nothing up to the terminal, and attempts numbered within it. */
  ghost predicate GapsIrrelevant(line: Line<Json>, gaps: Gaps) {
    |line.attempts| == |line.truths| && line.terminal.Some? && line.horizon.Some? &&
    !MissingBetween(line.gaps, 1, line.terminal.value) && !MissingBetween(gaps, 1, line.terminal.value) &&
    forall k :: 0 <= k < |line.attempts| ==>
      1 <= line.attempts[k].first <= line.terminal.value && 1 <= line.attempts[k].last <= line.terminal.value
  }

  lemma HoldableIgnoresGaps(line: Line<Json>, gaps: Gaps, k: nat)
    requires GapsIrrelevant(line, gaps) && k < |line.attempts|
    ensures line.(gaps := gaps).Holdable(k) <==> line.Holdable(k)
  {
    var high := if k + 1 < |line.attempts| then line.attempts[k + 1].last else line.terminal.value;
    assert !MissingBetween(line.gaps, line.attempts[k].first, high);
    assert !MissingBetween(gaps, line.attempts[k].first, high);
  }

  lemma StepIgnoresGaps(line: Line<Json>, gaps: Gaps, k: nat)
    requires GapsIrrelevant(line, gaps) && k < |line.attempts|
    ensures line.(gaps := gaps).Own(k) == line.Own(k) && line.(gaps := gaps).After(k) == line.After(k)
  {
    HoldableIgnoresGaps(line, gaps, k);
    if k > 0 {
      HoldableIgnoresGaps(line, gaps, k - 1);
    }
  }

  lemma {:induction false} PiecesIgnoreGaps(line: Line<Json>, gaps: Gaps, n: nat)
    requires GapsIrrelevant(line, gaps) && n <= |line.attempts|
    ensures line.(gaps := gaps).Pieces(n) == line.Pieces(n)
  {
    if n == 0 {
    } else {
      PiecesIgnoreGaps(line, gaps, n - 1);
      StepIgnoresGaps(line, gaps, n - 1);
    }
  }

  lemma {:induction false} TallyIgnoresGaps(
    line: Line<Json>, gaps: Gaps, incomplete: bool, start: int, end: int, n: nat)
    requires n <= |line.attempts| == |line.truths|
    ensures TallyOf(line.(gaps := gaps), incomplete, start, end, n) == TallyOf(line, incomplete, start, end, n)
  {
    if n == 0 {
    } else {
      TallyIgnoresGaps(line, gaps, incomplete, start, end, n - 1);
    }
  }

  /** A gap list can only withdraw holds: once evidence is known complete, or incomplete, it plays no other part. */
  lemma JudgeIgnoresGaps(line: Line<Json>, gaps: Gaps, incomplete: bool, check: Check, start: int, end: int)
    requires |line.attempts| == |line.truths| && line.horizon.Some?
    requires !incomplete ==> GapsIrrelevant(line, gaps)
    ensures Judge(line.(gaps := gaps), incomplete, check, start, end) == Judge(line, incomplete, check, start, end)
  {
    TallyIgnoresGaps(line, gaps, incomplete, start, end, |line.attempts|);
    if !incomplete {
      PiecesIgnoreGaps(line, gaps, |line.attempts|);
    }
    assert PiecesFor(line.(gaps := gaps), incomplete) == PiecesFor(line, incomplete);
  }

  lemma RunRecordsNumbered(records: seq<Record>, sig: Signal, a: Sample)
    requires WellFormed(records) && RunOf(records).terminal.Some?
    requires a in AttemptsFor(RunRecords(RunOf(records), records), sig)
    ensures var t := RunOf(records).terminal.value.sequence; 1 <= a.first <= t && 1 <= a.last <= t
  {
    var run := RunOf(records);
    var rs := RunRecords(run, records);
    FilterRising(records, r => InRun(run, r), BY_SEQUENCE);
    FilterMembers(records, r => InRun(run, r));
    AttemptsGrounded(rs, sig, a);
  }

  lemma TerminalIsRecord(records: seq<Record>)
    requires RunOf(records).terminal.Some?
    ensures RunOf(records).terminal.value in records
  {
    var started := Starts(records)[0];
    FilterMembers(records, (r: Record) => IsTerminal(r.kind) && r.sequence > started.sequence);
  }

  /** Two files that agree up to the first terminal get the same finding. */
  lemma SameFinding(a: seq<Record>, b: seq<Record>, sig: Signal, check: Check, hold: int)
    requires WellFormed(a) && WellFormed(b) && RunOf(a).terminal.Some?
    requires Agree(a, b, RunOf(a).terminal.value.sequence)
    ensures FindingOf(EvidenceOf(b), sig, check, hold) == FindingOf(EvidenceOf(a), sig, check, hold)
  {
    var ea, eb := EvidenceOf(a), EvidenceOf(b);
    var t := RunOf(a).terminal.value.sequence;
    SameRun(a, b, t);
    TerminalIsRecord(a);
    SameGaps(a, b, t, RunOf(a).terminal.value);
    if Window(ea.run, check).Ok? {
      var la, lb := LineOf(ea, sig, check, hold), LineOf(eb, sig, check, hold);
      assert lb == la.(gaps := eb.gaps);
      var (start, end) := Window(ea.run, check).value;
      forall k | 0 <= k < |la.attempts|
        ensures 1 <= la.attempts[k].first <= t && 1 <= la.attempts[k].last <= t
      {
        RunRecordsNumbered(a, sig, la.attempts[k]);
      }
      JudgeIgnoresGaps(la, eb.gaps, Incomplete(ea), check, start, end);
    }
  }

  // ---- the invariant ----

  /** If nothing is missing up to t in what is left, nothing up to t was deleted. */
  lemma NothingMissingNothingDeleted(full: seq<Record>, reduced: seq<Record>, t: int)
    requires WellFormed(full) && WellFormed(reduced) && LeftOf(full, reduced)
    requires 1 <= t <= reduced[|reduced| - 1].sequence && !MissingBetween(GapsOf(reduced, |reduced|), 1, t)
    ensures Agree(reduced, full, t)
  {
    MissingIff(reduced, 1, t);
    forall r: Record | r.sequence <= t && r in full
      ensures r in reduced
    {
      var i :| 0 <= i < |full| && full[i] == r;
      assert Present(reduced, r.sequence);
      var s :| s in reduced && s.sequence == r.sequence;
      SameSequenceSameRecord(full, r, s);
    }
  }

  /** After any deletion a finding is the original one, or INCONCLUSIVE with no true and no false time. */
  lemma DeletionIdenticalOrSilent(
    full: seq<Record>, reduced: seq<Record>, sig: Signal, check: Check, hold: int)
    requires WellFormed(full) && WellFormed(reduced) && LeftOf(full, reduced) && ValidCheck(check)
    ensures var f := FindingOf(EvidenceOf(full), sig, check, hold);
      var g := FindingOf(EvidenceOf(reduced), sig, check, hold);
      g == f || (g.verdict == Inconclusive && g.trueNs == 0 && g.falseNs == 0)
  {
    var run := RunOf(reduced);
    if Window(run, check).Ok? && !Incomplete(EvidenceOf(reduced)) {
      var t := run.terminal.value;
      TerminalIsRecord(reduced);
      var j :| 0 <= j < |reduced| && reduced[j] == t;
      NothingMissingNothingDeleted(full, reduced, t.sequence);
      SameFinding(reduced, full, sig, check, hold);
    } else {
      IncompleteDecidesNothing(reduced, sig, check, hold);
    }
  }

  /** The documented form: never toward PASS, never from PASS to FAIL, and bounds only widen. */
  lemma DeletionNeverTowardPass(
    full: seq<Record>, reduced: seq<Record>, sig: Signal, check: Check, hold: int)
    requires WellFormed(full) && WellFormed(reduced) && LeftOf(full, reduced) && ValidCheck(check)
    ensures var f := FindingOf(EvidenceOf(full), sig, check, hold);
      var g := FindingOf(EvidenceOf(reduced), sig, check, hold);
      (g.verdict == Pass ==> f.verdict == Pass) &&
      (f.verdict == Pass ==> g.verdict != Fail) &&
      g.trueNs <= f.trueNs && g.falseNs <= f.falseNs
  {
    DeletionIdenticalOrSilent(full, reduced, sig, check, hold);
  }

  /** What is left of a file that loads, whatever is deleted, is a file that loads, unless nothing is left. */
  lemma RemainderLoads(full: seq<Record>, keep: Record -> bool)
    requires WellFormed(full) && Filter(full, keep) != []
    ensures WellFormed(Filter(full, keep)) && LeftOf(full, Filter(full, keep))
  {
    var reduced := Filter(full, keep);
    FilterMembers(full, keep);
    FilterRising(full, keep, BY_SEQUENCE);
    forall i | 0 <= i < |reduced|
      ensures reduced[i].sequence >= 1 && reduced[i].monotonic >= 0
    {
      assert reduced[i] in full;
    }
    forall i, j | 0 <= i < j < |reduced|
      ensures reduced[i].sequence < reduced[j].sequence
    {
      assert BY_SEQUENCE(reduced[i]) < BY_SEQUENCE(reduced[j]);
    }
  }

  /** The invariant for every subset of records that may be deleted. */
  lemma AnyDeletionNeverTowardPass(
    full: seq<Record>, keep: Record -> bool, sig: Signal, check: Check, hold: int)
    requires WellFormed(full) && ValidCheck(check) && Filter(full, keep) != []
    ensures var f := FindingOf(EvidenceOf(full), sig, check, hold);
      var g := FindingOf(EvidenceOf(Filter(full, keep)), sig, check, hold);
      (g.verdict == Pass ==> f.verdict == Pass) &&
      (f.verdict == Pass ==> g.verdict != Fail) &&
      g.trueNs <= f.trueNs && g.falseNs <= f.falseNs
  {
    RemainderLoads(full, keep);
    DeletionNeverTowardPass(full, Filter(full, keep), sig, check, hold);
  }

  /** Deleting only records after the first terminal changes no finding. */
  lemma TrailingDeletionChangesNothing(
    full: seq<Record>, reduced: seq<Record>, sig: Signal, check: Check, hold: int)
    requires WellFormed(full) && WellFormed(reduced) && LeftOf(full, reduced)
    requires RunOf(full).terminal.Some?
    requires forall r :: r in full && r.sequence <= RunOf(full).terminal.value.sequence ==> r in reduced
    ensures FindingOf(EvidenceOf(reduced), sig, check, hold) == FindingOf(EvidenceOf(full), sig, check, hold)
  {
    SameFinding(full, reduced, sig, check, hold);
  }
}
