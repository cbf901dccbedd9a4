/**
 What the extraction comes to, said of the records themselves: which run a file describes,
 which of its records belong to it, and which attempts they make.
 */
module Pairing {
  import opened Common
  import opened JsonTree
  import opened Timeline
  import opened Evidence
  import opened Attempts

  // ---- the run of a file ----

  /** No record of the file that passes the test comes before r. */
  ghost predicate Earliest(records: seq<Record>, r: Record, test: Record -> bool) {
    r in records && test(r) && forall x :: x in records && test(x) ==> r.sequence <= x.sequence
  }

  lemma FirstIsEarliest(records: seq<Record>, test: Record -> bool)
    requires Sorted(records) && Filter(records, test) != []
    ensures Earliest(records, Filter(records, test)[0], test)
  {
    var kept := Filter(records, test);
    FilterRising(records, test, BY_SEQUENCE);
    FilterMembers(records, test);
    assert kept[0] in kept;
    forall x | x in records && test(x)
      ensures kept[0].sequence <= x.sequence
    {
      var i :| 0 <= i < |kept| && kept[i] == x;
      assert i > 0 ==> BY_SEQUENCE(kept[0]) < BY_SEQUENCE(kept[i]);
    }
  }

  /** A second start before the run is closed. */
  ghost predicate Ambiguous(records: seq<Record>, start: Record, end: Option<Record>) {
    exists r :: r in records && r.kind == RunStarted && start.sequence < r.sequence &&
                (end.Some? ==> r.sequence < end.value.sequence)
  }

  /** Names, and times, of the two ends of a run that do not fit. */
  predicate Misfit(start: Record, end: Record) {
    start.runId.None? || start.runId.value == "" || end.runId != start.runId || end.monotonic < start.monotonic
  }

  /** Without a start there is no run. */
  lemma RunMissingIff(records: seq<Record>)
    ensures RunOf(records).problem == Some(RunMissing) <==> forall r :: r in records ==> r.kind != RunStarted
  {
    var starts := Starts(records);
    FilterMembers(records, (r: Record) => r.kind == RunStarted);
    if starts != [] {
      assert starts[0] in starts;
    }
  }

  /**
   A run is opened by the earliest start and closed by the earliest completed, cancelled or
   failed record after it. It is ambiguous if another start comes before that, or at all
   in a run that is not closed; otherwise it is invalid if its two ends do not fit.
   */
  lemma RunIs(records: seq<Record>) returns (start: Record, end: Option<Record>)
    requires Sorted(records) && exists r :: r in records && r.kind == RunStarted
    ensures Earliest(records, start, (r: Record) => r.kind == RunStarted)
    ensures end.Some? ==>
      Earliest(records, end.value,
               (r: Record) => r.kind in {RunCompleted, RunCancelled, RunFailed} && r.sequence > start.sequence)
    ensures end.None? ==>
      forall r :: r in records && r.kind in {RunCompleted, RunCancelled, RunFailed} ==> r.sequence <= start.sequence
    ensures RunOf(records) ==
      if Ambiguous(records, start, end) then Run(start.runId, None, None, Some(RunAmbiguous))
      else Run(start.runId, Some(start), end,
               if end.Some? && Misfit(start, end.value) then Some(RunInvalid) else None)
  {
    var starts := Starts(records);
    FilterMembers(records, (r: Record) => r.kind == RunStarted);
    var s :| s in records && s.kind == RunStarted;
    assert s in starts;
    start := starts[0];
    FirstIsEarliest(records, (r: Record) => r.kind == RunStarted);
    end := FirstEnd(records, start.sequence);
    OtherStarts(records, start, end);
  }

  lemma FirstEnd(records: seq<Record>, after: int) returns (end: Option<Record>)
    requires Sorted(records)
    ensures end == if Terminals(records, after) == [] then None else Some(Terminals(records, after)[0])
    ensures end.Some? ==>
      Earliest(records, end.value,
               (r: Record) => r.kind in {RunCompleted, RunCancelled, RunFailed} && r.sequence > after)
    ensures end.None? ==>
      forall r :: r in records && r.kind in {RunCompleted, RunCancelled, RunFailed} ==> r.sequence <= after
  {
    var ends := Terminals(records, after);
    var test := (r: Record) => IsTerminal(r.kind) && r.sequence > after;
    FilterMembers(records, test);
    if ends == [] {
      end := None;
      forall r | r in records && r.kind in {RunCompleted, RunCancelled, RunFailed}
        ensures r.sequence <= after
      {
        assert r !in ends;
      }
    } else {
      end := Some(ends[0]);
      FirstIsEarliest(records, test);
      assert Earliest(records, ends[0], test);
    }
  }

  /** The starts after the first are those with a higher number. */
  lemma OtherStarts(records: seq<Record>, start: Record, end: Option<Record>)
    requires Sorted(records) && Starts(records) != [] && start == Starts(records)[0]
    ensures Ambiguous(records, start, end) <==>
      exists r :: r in Starts(records)[1..] && (end.None? || r.sequence < end.value.sequence)
  {
    var starts := Starts(records);
    FilterMembers(records, (r: Record) => r.kind == RunStarted);
    FilterRising(records, (r: Record) => r.kind == RunStarted, BY_SEQUENCE);
    if r :| r in records && r.kind == RunStarted && start.sequence < r.sequence &&
            (end.Some? ==> r.sequence < end.value.sequence) {
      var i :| 0 <= i < |starts| && starts[i] == r;
      assert starts[1..][i - 1] == r;
    }
    if r :| r in starts[1..] && (end.None? || r.sequence < end.value.sequence) {
      var i :| 0 <= i < |starts[1..]| && starts[1..][i] == r;
      assert BY_SEQUENCE(starts[0]) < BY_SEQUENCE(starts[i + 1]) && starts[i + 1] in starts;
    }
  }

  /** The records of a run are those between its ends, in number and in time, that carry its id. */
  lemma RunRecordsAre(records: seq<Record>, run: Run, r: Record)
    requires run.problem.None? && run.started.Some? && run.terminal.Some? && Sorted(records)
    ensures r in RunRecords(run, records) <==>
      r in records && r.runId == run.runId &&
      run.started.value.sequence <= r.sequence <= run.terminal.value.sequence &&
      run.started.value.monotonic <= r.monotonic <= run.terminal.value.monotonic
    ensures Sorted(RunRecords(run, records))
  {
    FilterMember(records, x => InRun(run, x), r);
    FilterRising(records, x => InRun(run, x), BY_SEQUENCE);
  }

  // ---- the attempts of a run ----

  /** A request or a completion of the endpoint. */
  predicate Exchange(r: Record, endpoint: string) {
    r.endpoint == Some(endpoint) && r.kind in {HttpRequest, HttpResponse, HttpError}
  }

  /** The only two records of the endpoint with their id: a request, and a response or an error. */
  ghost predicate OnlyTwo(rs: seq<Record>, endpoint: string, request: Record, completion: Record) {
    request in rs && completion in rs && request.requestId == completion.requestId && request.requestId != NoId &&
    Exchange(request, endpoint) && Exchange(completion, endpoint) &&
    request.kind == HttpRequest && completion.kind != HttpRequest &&
    forall r :: r in rs && Exchange(r, endpoint) && r.requestId == request.requestId ==> r == request || r == completion
  }

  /** The completion comes after its request, in number, and not before it in time. */
  predicate InOrder(request: Record, completion: Record) {
    request.sequence < completion.sequence && request.monotonic <= completion.monotonic
  }

  /** A successful response without any error, with an object for a payload. */
  predicate Good(completion: Record) {
    completion.kind == HttpResponse && completion.ok && completion.errorFree &&
    completion.parsed.Some? && completion.parsed.value.Object?
  }

  /** The attempt that the two records make. */
  ghost predicate IsPairAttempt(a: Sample, request: Record, completion: Record, extract: Json -> Option<Json>) {
    a.first == request.sequence && a.last == completion.sequence &&
    (InOrder(request, completion) ==> a.start == request.monotonic && a.end == completion.monotonic) &&
    (!InOrder(request, completion) ==>
      a.start == a.end && a.start <= request.monotonic && a.start <= completion.monotonic &&
      (a.start == request.monotonic || a.start == completion.monotonic)) &&
    a.value == (if InOrder(request, completion) && Good(completion) then extract(completion.parsed.value) else None) &&
    (a.valid <==> a.value.Some?)
  }

  /** A record that is in no such pair makes an attempt at its own instant, without a value. */
  ghost predicate IsLoneAttempt(a: Sample, rs: seq<Record>, endpoint: string, r: Record) {
    r in rs && Exchange(r, endpoint) &&
    (forall q, c :: OnlyTwo(rs, endpoint, q, c) ==> r != q && r != c) &&
    a == Attempt(r.monotonic, r.monotonic, r.sequence, r.sequence, None, false)
  }

  lemma OnlyTwoIff(rs: seq<Record>, endpoint: string, request: Record, completion: Record)
    requires Sorted(rs)
    ensures OnlyTwo(rs, endpoint, request, completion) <==>
      request.requestId != NoId && request.requestId == completion.requestId &&
      Asked(rs, endpoint, request.requestId) == [request] && Answered(rs, endpoint, request.requestId) == [completion]
  {
    var id := request.requestId;
    HalvesMembers(rs, endpoint, id);
    if OnlyTwo(rs, endpoint, request, completion) {
      FilterIs(rs, r => Asks(r, endpoint, id), BY_SEQUENCE, [request]);
      FilterIs(rs, r => Answers(r, endpoint, id), BY_SEQUENCE, [completion]);
    } else if id != NoId && id == completion.requestId &&
              Asked(rs, endpoint, id) == [request] && Answered(rs, endpoint, id) == [completion] {
      assert request in Asked(rs, endpoint, id) && completion in Answered(rs, endpoint, id);
      forall r | r in rs && Exchange(r, endpoint) && r.requestId == id
        ensures r == request || r == completion
      {
        assert r in Asked(rs, endpoint, id) || r in Answered(rs, endpoint, id);
      }
    }
  }

  /** What a record opens, said of the records. */
  lemma OpensWhat(rs: seq<Record>, sig: Signal, r: Record, a: Sample)
    requires sig.Dragon? && Sorted(rs) && r in rs
    ensures OpenedBy(rs, sig, r) == Some(a) <==>
      (exists c :: OnlyTwo(rs, sig.endpoint, r, c) && IsPairAttempt(a, r, c, sig.extract)) ||
      IsLoneAttempt(a, rs, sig.endpoint, r)
  {
    var asked, answered := Asked(rs, sig.endpoint, r.requestId), Answered(rs, sig.endpoint, r.requestId);
    HalvesMembers(rs, sig.endpoint, r.requestId);
    forall q, c | OnlyTwo(rs, sig.endpoint, q, c) && (r == q || r == c)
      ensures asked == [q] && answered == [c]
    {
      OnlyTwoIff(rs, sig.endpoint, q, c);
    }
    if !r.requestId.NoId? && IsPair(rs, sig.endpoint, r.requestId) {
      assert asked[0] in asked && answered[0] in answered;
      OnlyTwoIff(rs, sig.endpoint, asked[0], answered[0]);
      if r.kind == HttpRequest && Exchange(r, sig.endpoint) {
        assert r in asked;
        assert IsPairAttempt(Paired(r, answered[0], sig.extract), r, answered[0], sig.extract);
      }
    }
  }

  /**
   The attempts are exactly those of the pairs and of the records that are in none. In
   particular every pair makes one, which has a value exactly if the completion is good,
   in order, and yields one.
   */
  lemma AttemptIff(rs: seq<Record>, sig: Signal, a: Sample)
    requires sig.Dragon? && Sorted(rs)
    ensures a in AttemptsOf(rs, sig, |rs|) <==>
      (exists q, c :: OnlyTwo(rs, sig.endpoint, q, c) && IsPairAttempt(a, q, c, sig.extract)) ||
      (exists r :: IsLoneAttempt(a, rs, sig.endpoint, r))
  {
    Reference(rs, sig);
    if a in AttemptsOf(rs, sig, |rs|) {
      assert IsOpened(rs, sig, a);
      var r :| r in rs && OpenedBy(rs, sig, r) == Some(a);
      OpensWhat(rs, sig, r, a);
    }
    if q, c :| OnlyTwo(rs, sig.endpoint, q, c) && IsPairAttempt(a, q, c, sig.extract) {
      OpensWhat(rs, sig, q, a);
      assert IsOpened(rs, sig, a);
    }
    if r :| IsLoneAttempt(a, rs, sig.endpoint, r) {
      OpensWhat(rs, sig, r, a);
      assert IsOpened(rs, sig, a);
    }
  }

  /** A pair has an attempt with a value if and only if its completion is good, in order, and yields one. */
  lemma ValueIffGoodPair(rs: seq<Record>, sig: Signal, request: Record, completion: Record)
    requires sig.Dragon? && Sorted(rs)
    ensures (exists a :: a in AttemptsOf(rs, sig, |rs|) && a.valid && Proven(rs, sig, request, completion, a)) <==>
      OnlyTwo(rs, sig.endpoint, request, completion) && InOrder(request, completion) && Good(completion) &&
      sig.extract(completion.parsed.value).Some?
  {
    OnlyTwoIff(rs, sig.endpoint, request, completion);
    if OnlyTwo(rs, sig.endpoint, request, completion) && InOrder(request, completion) && Good(completion) &&
       sig.extract(completion.parsed.value).Some? {
      var a := Attempt(request.monotonic, completion.monotonic, request.sequence, completion.sequence,
                       sig.extract(completion.parsed.value), true);
      assert IsPairAttempt(a, request, completion, sig.extract);
      AttemptIff(rs, sig, a);
      assert Proven(rs, sig, request, completion, a);
    }
    if a :| a in AttemptsOf(rs, sig, |rs|) && a.valid && Proven(rs, sig, request, completion, a) {
      HalvesMembers(rs, sig.endpoint, request.requestId);
      assert completion in Answered(rs, sig.endpoint, request.requestId);
    }
  }

  // ---- the other source ----

  /** The record says when it was observed: not before the clock's zero and not after it was written. */
  predicate SaysWhen(r: Record) {
    r.observed.Some? && 0 <= r.observed.value && r.observed.value <= r.monotonic
  }

  /** The attempt that an observation of the source makes. */
  ghost predicate IsObservation(a: Sample, rs: seq<Record>, sig: Signal, r: Record)
    requires sig.PrusaLink?
  {
    r in rs && r.kind == SourceObservation && r.source == Some("prusalink") &&
    (sig.sourceId.Some? ==> r.sourceId == sig.sourceId) &&
    a.first == r.sequence && a.last == r.sequence && a.end == r.monotonic &&
    a.start == (if SaysWhen(r) then r.observed.value else r.monotonic) &&
    a.value == (if SaysWhen(r) && r.healthy && r.errorFree && r.data.Some? && r.data.value.Object?
                then sig.extract(r.data.value) else None) &&
    (a.valid <==> a.value.Some?)
  }

  /** The attempts of the other source are exactly those of its observations. */
  lemma {:induction false} ObservationIff(rs: seq<Record>, sig: Signal, a: Sample)
    requires sig.PrusaLink?
    ensures a in ObservedAttempts(rs, sig) <==> exists r :: IsObservation(a, rs, sig, r)
  {
    if rs == [] {
    } else {
      var init, last := rs[..|rs| - 1], rs[|rs| - 1];
      assert rs == init + [last];
      ObservationIff(init, sig, a);
      assert a in ObservedAttempt(sig, last) <==> IsObservation(a, rs, sig, last);
      forall r
        ensures IsObservation(a, rs, sig, r) <==>
          IsObservation(a, init, sig, r) || (r == last && IsObservation(a, rs, sig, r))
      {
      }
    }
  }
}
