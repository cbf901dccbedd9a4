/** Evidence files of a few records, and what the engine makes of them. */
module SmallFiles {
  import opened Common
  import opened JsonTree
  import opened Timeline
  import opened Evidence
  import opened Attempts
  import opened Engine
  import opened Guarantees

  const RUN := "run"
  const ENDPOINT := "status"

  /** A payload with one member, and the signal whose value is that member's. */
  function Payload(value: Json): Json {
    Object([([], value)])
  }

  const PAYLOAD: Signal :=
    Dragon(ENDPOINT, (payload: Json) =>
      if payload.Object? && |payload.members| == 1 then Some(payload.members[0].1) else None)

  function Entry(sequence: int, monotonic: int, kind: Kind, id: RequestId, parsed: Option<Json>): Record {
    Record(sequence, monotonic, kind, Some(RUN), true, Some(ENDPOINT), id, true, parsed, None, None, None, false, None)
  }

  function Request(sequence: int, monotonic: int, id: int): Record {
    Entry(sequence, monotonic, HttpRequest, IntId(id), None)
  }

  function Response(sequence: int, monotonic: int, id: int, value: Json): Record {
    Entry(sequence, monotonic, HttpResponse, IntId(id), Some(Payload(value)))
  }

  /** One run from the first record to the last, numbered without a gap. */
  ghost predicate IsOneRun(records: seq<Record>) {
    |records| >= 2 && records[0].kind == RunStarted && IsTerminal(records[|records| - 1].kind) &&
    (forall k :: 0 <= k < |records| ==> records[k].sequence == k + 1 && records[k].runId == Some(RUN)) &&
    (forall k :: 0 <= k < |records| ==>
      0 <= records[0].monotonic <= records[k].monotonic <= records[|records| - 1].monotonic) &&
    (forall k :: 0 < k < |records| - 1 ==> records[k].kind != RunStarted && !IsTerminal(records[k].kind))
  }

  lemma {:induction false} NoGaps(records: seq<Record>, n: nat)
    requires n <= |records| && forall k :: 0 <= k < |records| ==> records[k].sequence == k + 1
    ensures GapsOf(records, n) == []
  {
    if n == 0 {
    } else {
      NoGaps(records, n - 1);
    }
  }

  lemma OneStart(records: seq<Record>)
    requires IsOneRun(records)
    ensures Starts(records) == [records[0]] && Sorted(records)
  {
    var first := records[0];
    assert first in records;
    FilterIs(records, (r: Record) => r.kind == RunStarted, BY_SEQUENCE, [first]);
  }

  lemma OneTerminal(records: seq<Record>)
    requires IsOneRun(records)
    ensures Terminals(records, 1) == [records[|records| - 1]]
  {
    var last := records[|records| - 1];
    assert last in records;
    FilterIs(records, (r: Record) => IsTerminal(r.kind) && r.sequence > 1, BY_SEQUENCE, [last]);
  }

  lemma AllInRun(records: seq<Record>, run: Run)
    requires IsOneRun(records)
    requires run == Run(Some(RUN), Some(records[0]), Some(records[|records| - 1]), None)
    ensures RunRecords(run, records) == records
  {
    FilterIs(records, r => InRun(run, r), BY_SEQUENCE, records);
  }

  lemma {:induction false} RunOfOne(records: seq<Record>, first: Record, last: Record)
    requires Starts(records) == [first] && Terminals(records, first.sequence) == [last]
    requires first.runId == Some(RUN) && last.runId == Some(RUN) && first.monotonic <= last.monotonic
    ensures RunOf(records) == Run(Some(RUN), Some(first), Some(last), None)
  {
  }

  lemma {:induction false} OneRun(records: seq<Record>)
    requires IsOneRun(records)
    ensures var run := RunOf(records);
      WellFormed(records) && run == Run(Some(RUN), Some(records[0]), Some(records[|records| - 1]), None) &&
      RunRecords(run, records) == records && EvidenceOf(records).gaps == []
  {
    var run := Run(Some(RUN), Some(records[0]), Some(records[|records| - 1]), None);
    OneStart(records);
    OneTerminal(records);
    RunOfOne(records, records[0], records[|records| - 1]);
    AllInRun(records, run);
    NoGaps(records, |records|);
  }

  /** The only request and the only completion with an id make an attempt, which the request opens. */
  lemma OnlyPair(rs: seq<Record>, id: RequestId, asked: Record, answered: Record)
    requires Sorted(rs) && asked in rs && answered in rs && !id.NoId?
    requires forall r :: r in rs ==> (Asks(r, ENDPOINT, id) <==> r == asked)
    requires forall r :: r in rs ==> (Answers(r, ENDPOINT, id) <==> r == answered)
    ensures OpenedBy(rs, PAYLOAD, asked) == Some(Paired(asked, answered, PAYLOAD.extract))
    ensures OpenedBy(rs, PAYLOAD, answered) == None
  {
    FilterIs(rs, r => Asks(r, ENDPOINT, id), BY_SEQUENCE, [asked]);
    FilterIs(rs, r => Answers(r, ENDPOINT, id), BY_SEQUENCE, [answered]);
    assert asked.kind == HttpRequest && answered.kind != HttpRequest;
  }

  lemma NextAttempt(rs: seq<Record>, n: nat, next: Option<Sample>, earlier: seq<Sample>)
    requires n < |rs| && OpenedBy(rs, PAYLOAD, rs[n]) == next && AttemptsOf(rs, PAYLOAD, n) == earlier
    ensures AttemptsOf(rs, PAYLOAD, n + 1) == earlier + (if next.Some? then [next.value] else [])
  {
  }

  // ---- one sample ----

  /** A run until `end` with one request at its start, answered at `answered`. */
  function OneSampleFile(answered: int, end: int): seq<Record> {
    [Entry(1, 0, RunStarted, NoId, None), Request(2, 0, 1), Response(3, answered, 1, Null),
     Entry(4, end, RunCompleted, NoId, None)]
  }

  lemma OneSampleIsRun(answered: int, end: int)
    requires 0 <= answered <= end
    ensures IsOneRun(OneSampleFile(answered, end))
  {
  }

  lemma OneSampleOpens(file: seq<Record>, answered: int, end: int)
    requires 0 <= answered <= end && file == OneSampleFile(answered, end) && Sorted(file)
    ensures OpenedBy(file, PAYLOAD, file[1]) == Some(Attempt(0, answered, 2, 3, Some(Null), true))
    ensures OpenedBy(file, PAYLOAD, file[2]) == None
  {
    OnlyPair(file, IntId(1), file[1], file[2]);
  }

  lemma OneSampleAttempts(answered: int, end: int)
    requires 0 <= answered <= end
    ensures var file := OneSampleFile(answered, end);
      IsOneRun(file) && AttemptsFor(file, PAYLOAD) == [Attempt(0, answered, 2, 3, Some(Null), true)]
  {
    var file := OneSampleFile(answered, end);
    var sample := Attempt(0, answered, 2, 3, Some(Null), true);
    OneSampleIsRun(answered, end);
    OneStart(file);
    OneSampleOpens(file, answered, end);
    NextAttempt(file, 0, None, []);
    NextAttempt(file, 1, Some(sample), []);
    NextAttempt(file, 2, None, [sample]);
    NextAttempt(file, 3, None, [sample]);
  }

  // ---- two overlapping samples ----

  /** A slow request, answered false at 120, around a quick one, answered true at 16. */
  function OverlapFile(): seq<Record> {
    [Entry(1, 0, RunStarted, NoId, None), Request(2, 10, 1), Request(3, 15, 2), Response(4, 16, 2, Bool(true)),
     Response(5, 120, 1, Bool(false)), Entry(6, 300, RunCompleted, NoId, None)]
  }

  const SLOW: Sample := Attempt(10, 120, 2, 5, Some(Bool(false)), true)
  const QUICK: Sample := Attempt(15, 16, 3, 4, Some(Bool(true)), true)

  lemma OverlapIsRun()
    ensures IsOneRun(OverlapFile())
  {
  }

  lemma SlowOpens(file: seq<Record>)
    requires file == OverlapFile() && Sorted(file)
    ensures OpenedBy(file, PAYLOAD, file[1]) == Some(SLOW) && OpenedBy(file, PAYLOAD, file[4]) == None
  {
    OnlyPair(file, IntId(1), file[1], file[4]);
  }

  lemma QuickOpens(file: seq<Record>)
    requires file == OverlapFile() && Sorted(file)
    ensures OpenedBy(file, PAYLOAD, file[2]) == Some(QUICK) && OpenedBy(file, PAYLOAD, file[3]) == None
  {
    OnlyPair(file, IntId(2), file[2], file[3]);
  }

  lemma OverlapAttempts()
    ensures IsOneRun(OverlapFile()) && AttemptsFor(OverlapFile(), PAYLOAD) == [SLOW, QUICK]
  {
    var file := OverlapFile();
    OverlapIsRun();
    OneStart(file);
    SlowOpens(file);
    QuickOpens(file);
    NextAttempt(file, 0, None, []);
    NextAttempt(file, 1, Some(SLOW), []);
    NextAttempt(file, 2, Some(QUICK), [SLOW]);
    NextAttempt(file, 3, None, [SLOW, QUICK]);
    NextAttempt(file, 4, None, [SLOW, QUICK]);
    NextAttempt(file, 5, None, [SLOW, QUICK]);
  }
}
