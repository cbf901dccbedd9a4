/**
 Loading evidence: ordered records with their original sequence numbers, the
 ranges that are missing, and the run they describe.
 */
module Evidence {
  import opened Common
  import opened JsonTree
  import opened Timeline

  datatype Kind =
    | RunStarted
    | RunCompleted
    | RunCancelled
    | RunFailed
    | HttpRequest
    | HttpResponse
    | HttpError
    | SourceObservation
    | OtherKind(name: string)

  /** A request id is usable when it is an integer or a non-empty string; NoId is everything else. */
  datatype RequestId = IntId(number: int) | TextId(text: string) | NoId

  /** A decoded record; an optional field is None when absent or not of the type the engine accepts. */
  datatype Record = Record(
    sequence: int,
    monotonic: int,
    kind: Kind,
    runId: Option<string>,
    errorFree: bool,
    endpoint: Option<string>,
    requestId: RequestId,
    ok: bool,
    parsed: Option<Json>,
    source: Option<string>,
    sourceId: Option<string>,
    observed: Option<int>,
    healthy: bool,
    data: Option<Json>)

  datatype Problem = RunMissing | RunAmbiguous | RunInvalid

  datatype Run = Run(runId: Option<string>, started: Option<Record>, terminal: Option<Record>, problem: Option<Problem>)

  datatype Evidence = Evidence(records: seq<Record>, gaps: Gaps, inversions: nat, run: Run)

  datatype LoadError =
    | EmptyEvidence
    | InvalidSequence(line: nat)
    | InvalidMonotonic(line: nat)
    | DuplicateSequence(line: nat)
    | OutOfOrder(line: nat)

  predicate IsTerminal(kind: Kind) {
    kind == RunCompleted || kind == RunCancelled || kind == RunFailed
  }

  // ---- what a loaded file is ----

  /** Sequence numbers are positive and strictly increasing; times are not negative. */
  ghost predicate WellFormed(records: seq<Record>) {
    records != [] &&
    (forall i :: 0 <= i < |records| ==> records[i].sequence >= 1 && records[i].monotonic >= 0) &&
    Sorted(records)
  }

  const BY_SEQUENCE: Record -> int := (r: Record) => r.sequence

  ghost predicate Sorted(records: seq<Record>) {
    Rising(records, BY_SEQUENCE)
  }

  ghost predicate Present(records: seq<Record>, q: int) {
    exists r :: r in records && r.sequence == q
  }

  /** The reason the loader gives for refusing the line at index i, the earlier lines being accepted. */
  function LineFault(records: seq<Record>, i: nat): Option<LoadError>
    requires i < |records|
  {
    var r := records[i];
    if r.sequence < 1 then Some(InvalidSequence(i + 1))
    else if r.monotonic < 0 then Some(InvalidMonotonic(i + 1))
    else if i > 0 && r.sequence == records[i - 1].sequence then Some(DuplicateSequence(i + 1))
    else if i > 0 && r.sequence < records[i - 1].sequence then Some(OutOfOrder(i + 1))
    else None
  }

  lemma {:induction false} Increasing(records: seq<Record>, i: nat, j: nat)
    requires i < j < |records|
    requires forall k :: 0 <= k < |records| ==> LineFault(records, k) == None
    ensures records[i].sequence < records[j].sequence
    decreases j
  {
    assert LineFault(records, j) == None;
    if i + 1 < j {
      Increasing(records, i, j - 1);
    }
  }

  /** The line-by-line checks accept exactly the well-formed files. */
  lemma FaultlessIffWellFormed(records: seq<Record>)
    ensures WellFormed(records) <==>
      (records != [] && forall k :: 0 <= k < |records| ==> LineFault(records, k) == None)
  {
    if records != [] && forall k :: 0 <= k < |records| ==> LineFault(records, k) == None {
      forall i, j | 0 <= i < j < |records|
        ensures records[i].sequence < records[j].sequence
      {
        Increasing(records, i, j);
      }
      forall i | 0 <= i < |records|
        ensures records[i].sequence >= 1 && records[i].monotonic >= 0
      {
        assert LineFault(records, i) == None;
      }
    }
  }

  // ---- gaps ----

  /** The missing ranges before record n. */
  function GapsOf(records: seq<Record>, n: nat): Gaps
    requires n <= |records|
  {
    if n == 0 then []
    else
      var low := if n == 1 then 1 else records[n - 2].sequence + 1;
      var gap := if records[n - 1].sequence > low then [(low, records[n - 1].sequence - 1)] else [];
      GapsOf(records, n - 1) + gap
  }

  function Inversions(records: seq<Record>, n: nat): nat
    requires n <= |records|
  {
    if n <= 1 then 0
    else Inversions(records, n - 1) + (if records[n - 1].monotonic < records[n - 2].monotonic then 1 else 0)
  }

  /** The records that carry an earlier time than the record before them. */
  function Inverted(records: seq<Record>, n: nat): set<nat>
    requires n <= |records|
  {
    set i: nat | i < n && GoesBack(records, i)
  }

  predicate GoesBack(records: seq<Record>, i: nat)
    requires i < |records|
  {
    i > 0 && records[i].monotonic < records[i - 1].monotonic
  }

  lemma {:induction false} InversionsAre(records: seq<Record>, n: nat)
    requires n <= |records|
    ensures Inversions(records, n) == |Inverted(records, n)|
  {
    if n <= 1 {
      assert Inverted(records, n) == {};
    } else {
      InversionsAre(records, n - 1);
      var earlier := Inverted(records, n - 1);
      if records[n - 1].monotonic < records[n - 2].monotonic {
        assert Inverted(records, n) == earlier + {n - 1};
      } else {
        assert Inverted(records, n) == earlier;
      }
    }
  }

  ghost predicate InGaps(gaps: Gaps, q: int) {
    exists g :: g in gaps && g.0 <= q <= g.1
  }

  lemma PresentMore(init: seq<Record>, last: Record, q: int)
    ensures Present(init + [last], q) <==> Present(init, q) || last.sequence == q
  {
    var all := init + [last];
    assert last in all;
    if Present(init, q) {
      var r :| r in init && r.sequence == q;
      assert r in all;
    }
  }

  lemma InMoreGaps(gaps: Gaps, more: Gaps, q: int)
    ensures InGaps(gaps + more, q) <==> InGaps(gaps, q) || InGaps(more, q)
  {
    assert forall g :: g in gaps + more <==> g in gaps || g in more;
  }

  /** No record among the first n has a number above that of the last of them. */
  lemma PresentBelow(records: seq<Record>, n: nat, q: int)
    requires Sorted(records) && 0 < n <= |records| && Present(records[..n], q)
    ensures q <= records[n - 1].sequence
  {
    var r :| r in records[..n] && r.sequence == q;
    var i :| 0 <= i < n && records[..n][i] == r;
    assert i < n - 1 ==> BY_SEQUENCE(records[i]) < BY_SEQUENCE(records[n - 1]);
  }

  /** The gap list names exactly the numbers that are absent up to the last record. */
  lemma {:induction false} GapsAreAbsences(records: seq<Record>, n: nat, q: int)
    requires WellFormed(records) && n <= |records|
    ensures InGaps(GapsOf(records, n), q) <==>
      n > 0 && 1 <= q <= records[n - 1].sequence && !Present(records[..n], q)
    ensures forall g :: g in GapsOf(records, n) ==> g.0 <= g.1
  {
    if n == 0 {
    } else {
      GapsAreAbsences(records, n - 1, q);
      var init, last := records[..n - 1], records[n - 1];
      assert records[..n] == init + [last];
      PresentMore(init, last, q);
      var low := if n == 1 then 1 else records[n - 2].sequence + 1;
      var more: Gaps := if last.sequence > low then [(low, last.sequence - 1)] else [];
      InMoreGaps(GapsOf(records, n - 1), more, q);
      assert InGaps(more, q) <==> low <= q < last.sequence by {
        if more != [] {
          assert more[0] in more;
        }
      }
      if n > 1 {
        assert BY_SEQUENCE(records[n - 2]) < BY_SEQUENCE(last);
        if Present(init, q) {
          PresentBelow(records, n - 1, q);
        }
        assert records[n - 2] in init;
      }
    }
  }

  lemma OverlapIsMember(gaps: Gaps, low: int, high: int)
    requires low <= high && forall g :: g in gaps ==> g.0 <= g.1
    ensures MissingBetween(gaps, low, high) <==> exists q :: low <= q <= high && InGaps(gaps, q)
  {
    if MissingBetween(gaps, low, high) {
      var g :| g in gaps && g.0 <= high && g.1 >= low;
      assert InGaps(gaps, Max(g.0, low));
    }
  }

  /** `missing_between` answers: is some number of the range absent from the file? */
  lemma MissingIff(records: seq<Record>, low: int, high: int)
    requires WellFormed(records) && 1 <= low <= high <= records[|records| - 1].sequence
    ensures MissingBetween(GapsOf(records, |records|), low, high) <==>
      exists q :: low <= q <= high && !Present(records, q)
  {
    var gaps := GapsOf(records, |records|);
    assert records[..|records|] == records;
    GapsAreAbsences(records, |records|, low);
    OverlapIsMember(gaps, low, high);
    if q :| low <= q <= high && InGaps(gaps, q) {
      GapsAreAbsences(records, |records|, q);
    }
    if q :| low <= q <= high && !Present(records, q) {
      GapsAreAbsences(records, |records|, q);
    }
  }

  // ---- the run ----

  function Starts(records: seq<Record>): seq<Record> {
    Filter(records, (r: Record) => r.kind == RunStarted)
  }

  function Terminals(records: seq<Record>, after: int): seq<Record> {
    Filter(records, (r: Record) => IsTerminal(r.kind) && r.sequence > after)
  }

  /** `_run`: the first start opens the run and the first terminal after it closes it. */
  function RunOf(records: seq<Record>): Run {
    var starts := Starts(records);
    if starts == [] then Run(None, None, None, Some(RunMissing))
    else
      var started := starts[0];
      var terminals := Terminals(records, started.sequence);
      var terminal := if terminals == [] then None else Some(terminals[0]);
      if exists r :: r in starts[1..] && (terminal.None? || r.sequence < terminal.value.sequence) then
        Run(started.runId, None, None, Some(RunAmbiguous))
      else if terminal.Some? &&
              (started.runId.None? || started.runId == Some("") || terminal.value.runId != started.runId ||
               terminal.value.monotonic < started.monotonic) then
        Run(started.runId, Some(started), terminal, Some(RunInvalid))
      else
        Run(started.runId, Some(started), terminal, None)
  }

  ghost function EvidenceOf(records: seq<Record>): Evidence {
    Evidence(records, GapsOf(records, |records|), Inversions(records, |records|), RunOf(records))
  }

  /** `load_evidence` on decoded lines: refuse at the first bad line, or collect gaps and the run. */
  method LoadEvidence(lines: seq<Record>) returns (r: Result<Evidence, LoadError>)
    ensures r.Ok? <==> WellFormed(lines)
    ensures r.Ok? <==>
      |lines| > 0 && (forall i :: 0 <= i < |lines| ==> lines[i].sequence > 0 && lines[i].monotonic >= 0) &&
      (forall i, j :: 0 <= i < j < |lines| ==> lines[i].sequence < lines[j].sequence)
    ensures r.Ok? ==> r.value.records == lines
    ensures r.Ok? ==> r.value == EvidenceOf(lines)
    ensures r.Err? ==> if lines == [] then r.error == EmptyEvidence else
      exists i :: 0 <= i < |lines| && LineFault(lines, i) == Some(r.error) &&
                  forall j :: 0 <= j < i ==> LineFault(lines, j) == None
  {
    FaultlessIffWellFormed(lines);
    if lines == [] {
      return Err(EmptyEvidence);
    }
    var records: seq<Record> := [];
    for number := 0 to |lines|
      invariant records == lines[..number]
      invariant forall j :: 0 <= j < number ==> LineFault(lines, j) == None
    {
      var record := lines[number];
      ghost var fault := LineFault(lines, number);
      if record.sequence < 1 {
        return Err(InvalidSequence(number + 1));
      }
      if record.monotonic < 0 {
        return Err(InvalidMonotonic(number + 1));
      }
      if records != [] && record.sequence <= records[|records| - 1].sequence {
        if record.sequence == records[|records| - 1].sequence {
          return Err(DuplicateSequence(number + 1));
        }
        return Err(OutOfOrder(number + 1));
      }
      records := records + [record];
    }
    assert lines[..|lines|] == lines;
    var gaps: Gaps := [];
    if records[0].sequence > 1 {
      gaps := gaps + [(1, records[0].sequence - 1)];
    }
    var inversions := 0;
    for i := 1 to |records|
      invariant gaps == GapsOf(records, i)
      invariant inversions == Inversions(records, i)
    {
      if records[i].sequence > records[i - 1].sequence + 1 {
        gaps := gaps + [(records[i - 1].sequence + 1, records[i].sequence - 1)];
      }
      if records[i].monotonic < records[i - 1].monotonic {
        inversions := inversions + 1;
      }
    }
    r := Ok(Evidence(records, gaps, inversions, RunOf(records)));
  }
}
