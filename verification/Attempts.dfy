/**
 Observation extraction: pairing request and completion records into attempts,
 whatever order the pairing visits the request ids in.
 */
module Attempts {
  import opened Common
  import opened Sorting
  import opened JsonTree
  import opened Timeline
  import opened Evidence

  type Sample = Attempt<Json>

  /** Where a signal's value comes from; `extract` is None when the payload has no usable value. */
  datatype Signal =
    | Dragon(endpoint: string, extract: Json -> Option<Json>)
    | PrusaLink(sourceId: Option<string>, extract: Json -> Option<Json>)

  // ---- the records of the run ----

  predicate InRun(run: Run, r: Record) {
    run.started.Some? && run.terminal.Some? &&
    run.started.value.sequence <= r.sequence <= run.terminal.value.sequence &&
    run.started.value.monotonic <= r.monotonic <= run.terminal.value.monotonic &&
    r.runId == run.runId
  }

  /** `_run_records`: this run's records inside both its sequence and its time horizon. */
  function RunRecords(run: Run, records: seq<Record>): seq<Record> {
    if run.problem.Some? || run.started.None? || run.terminal.None? then []
    else Filter(records, r => InRun(run, r))
  }

  // ---- the pairing rule, record by record ----

  predicate IsCompletion(kind: Kind) {
    kind == HttpResponse || kind == HttpError
  }

  predicate Relevant(r: Record, endpoint: string) {
    r.endpoint == Some(endpoint) && (r.kind == HttpRequest || IsCompletion(r.kind))
  }

  predicate Asks(r: Record, endpoint: string, id: RequestId) {
    r.endpoint == Some(endpoint) && r.requestId == id && r.kind == HttpRequest
  }

  predicate Answers(r: Record, endpoint: string, id: RequestId) {
    r.endpoint == Some(endpoint) && r.requestId == id && IsCompletion(r.kind)
  }

  /** The requests with one id. */
  function Asked(rs: seq<Record>, endpoint: string, id: RequestId): seq<Record> {
    Filter(rs, r => Asks(r, endpoint, id))
  }

  /** The completions with one id. */
  function Answered(rs: seq<Record>, endpoint: string, id: RequestId): seq<Record> {
    Filter(rs, r => Answers(r, endpoint, id))
  }

  /** A record that is no half of a usable pair: an attempt without a value at its own instant. */
  function Lone(r: Record): Sample {
    Attempt(r.monotonic, r.monotonic, r.sequence, r.sequence, None, false)
  }

  /** `isinstance(value, dict)`. */
  predicate IsObject(value: Option<Json>) {
    value.Some? && value.value.Object?
  }

  /** One request with its one completion. */
  function Paired(request: Record, completion: Record, extract: Json -> Option<Json>): Sample {
    var ordered := completion.sequence > request.sequence && completion.monotonic >= request.monotonic;
    var value :=
      if ordered && completion.kind == HttpResponse && completion.ok && completion.errorFree &&
         IsObject(completion.parsed)
      then extract(completion.parsed.value) else None;
    var low := Min(request.monotonic, completion.monotonic);
    Attempt(if ordered then request.monotonic else low, if ordered then completion.monotonic else low,
            request.sequence, completion.sequence, value, value.Some?)
  }

  predicate IsPair(rs: seq<Record>, endpoint: string, id: RequestId) {
    |Asked(rs, endpoint, id)| == 1 && |Answered(rs, endpoint, id)| == 1
  }

  /** The attempt that record r opens, if it opens one: a pair is opened by its request. */
  function OpenedBy(rs: seq<Record>, sig: Signal, r: Record): Option<Sample>
    requires sig.Dragon?
  {
    if !Relevant(r, sig.endpoint) then None
    else if r.requestId.NoId? || !IsPair(rs, sig.endpoint, r.requestId) then Some(Lone(r))
    else if r.kind == HttpRequest then
      Some(Paired(Asked(rs, sig.endpoint, r.requestId)[0], Answered(rs, sig.endpoint, r.requestId)[0], sig.extract))
    else None
  }

  /** The attempts in record order: the reference the loops are proved against. */
  function AttemptsOf(rs: seq<Record>, sig: Signal, n: nat): seq<Sample>
    requires sig.Dragon? && n <= |rs|
  {
    if n == 0 then []
    else
      var a := OpenedBy(rs, sig, rs[n - 1]);
      AttemptsOf(rs, sig, n - 1) + (if a.Some? then [a.value] else [])
  }

  // ---- the two halves of an id ----

  lemma HalvesMembers(rs: seq<Record>, endpoint: string, id: RequestId)
    ensures forall r :: r in Asked(rs, endpoint, id) <==> r in rs && Asks(r, endpoint, id)
    ensures forall r :: r in Answered(rs, endpoint, id) <==> r in rs && Answers(r, endpoint, id)
  {
    FilterMembers(rs, r => Asks(r, endpoint, id));
    FilterMembers(rs, r => Answers(r, endpoint, id));
  }

  lemma SameSequenceSameRecord(rs: seq<Record>, r: Record, s: Record)
    requires Sorted(rs) && r in rs && s in rs && r.sequence == s.sequence
    ensures r == s
  {
    var i :| 0 <= i < |rs| && rs[i] == r;
    var j :| 0 <= j < |rs| && rs[j] == s;
  }

  /** The two halves of one id share no record. */
  lemma HalvesDiffer(rs: seq<Record>, endpoint: string, id: RequestId)
    requires Sorted(rs)
    ensures var both := Asked(rs, endpoint, id) + Answered(rs, endpoint, id);
      forall i, j :: 0 <= i < j < |both| ==> both[i].sequence != both[j].sequence
  {
    var asked, answered := Asked(rs, endpoint, id), Answered(rs, endpoint, id);
    HalvesMembers(rs, endpoint, id);
    FilterRising(rs, r => Asks(r, endpoint, id), BY_SEQUENCE);
    FilterRising(rs, r => Answers(r, endpoint, id), BY_SEQUENCE);
    forall i, j | 0 <= i < |asked| && 0 <= j < |answered|
      ensures asked[i].sequence != answered[j].sequence
    {
      assert asked[i] in asked && answered[j] in answered;
      if asked[i].sequence == answered[j].sequence {
        SameSequenceSameRecord(rs, asked[i], answered[j]);
      }
    }
  }

  /** An attempt's first sequence number names the record that opens it. */
  lemma OpenerSequence(rs: seq<Record>, sig: Signal, r: Record)
    requires sig.Dragon? && r in rs && OpenedBy(rs, sig, r).Some?
    ensures OpenedBy(rs, sig, r).value.first == r.sequence
  {
    HalvesMembers(rs, sig.endpoint, r.requestId);
    if !r.requestId.NoId? && IsPair(rs, sig.endpoint, r.requestId) {
      assert Asked(rs, sig.endpoint, r.requestId)[0] == r;
    }
  }

  // ---- the list the reference gives ----

  const BY_FIRST: Sample -> int := (a: Sample) => a.first

  ghost predicate IsOpened(rs: seq<Record>, sig: Signal, a: Sample)
    requires sig.Dragon?
  {
    exists r :: r in rs && OpenedBy(rs, sig, r) == Some(a)
  }

  lemma {:induction false} ReferenceUpTo(rs: seq<Record>, sig: Signal, n: nat)
    requires sig.Dragon? && Sorted(rs) && n <= |rs|
    ensures Rising(AttemptsOf(rs, sig, n), BY_FIRST)
    ensures forall a :: a in AttemptsOf(rs, sig, n) <==> exists k :: 0 <= k < n && OpenedBy(rs, sig, rs[k]) == Some(a)
  {
    if n == 0 {
    } else {
      ReferenceUpTo(rs, sig, n - 1);
      ReferenceNext(rs, sig, n - 1, AttemptsOf(rs, sig, n - 1));
    }
  }

  /** The attempts opened by the first n records, and what record n adds to them. */
  lemma ReferenceNext(rs: seq<Record>, sig: Signal, n: nat, init: seq<Sample>)
    requires sig.Dragon? && Sorted(rs) && n < |rs| && Rising(init, BY_FIRST)
    requires forall a :: a in init <==> exists k :: 0 <= k < n && OpenedBy(rs, sig, rs[k]) == Some(a)
    ensures var next := OpenedBy(rs, sig, rs[n]);
      next.Some? ==> forall i :: 0 <= i < |init| ==> init[i].first < next.value.first
  {
    if OpenedBy(rs, sig, rs[n]).Some? {
      OpenerSequence(rs, sig, rs[n]);
      forall i | 0 <= i < |init|
        ensures init[i].first < rs[n].sequence
      {
        assert init[i] in init;
        var k :| 0 <= k < n && OpenedBy(rs, sig, rs[k]) == Some(init[i]);
        OpenerSequence(rs, sig, rs[k]);
      }
    }
  }

  /** The reference lists each opened attempt once, by increasing first sequence number. */
  lemma Reference(rs: seq<Record>, sig: Signal)
    requires sig.Dragon? && Sorted(rs)
    ensures Rising(AttemptsOf(rs, sig, |rs|), BY_FIRST)
    ensures forall a :: a in AttemptsOf(rs, sig, |rs|) <==> IsOpened(rs, sig, a)
  {
    ReferenceUpTo(rs, sig, |rs|);
    forall a
      ensures (exists k :: 0 <= k < |rs| && OpenedBy(rs, sig, rs[k]) == Some(a)) <==> IsOpened(rs, sig, a)
    {
      if IsOpened(rs, sig, a) {
        var r :| r in rs && OpenedBy(rs, sig, r) == Some(a);
        var k :| 0 <= k < |rs| && rs[k] == r;
      }
    }
  }

  // ---- sorting ----

  predicate AttemptAtMost(a: Sample, b: Sample) {
    a.first < b.first || (a.first == b.first && a.last <= b.last)
  }

  /** `attempts.sort` by first and last sequence number. */
  function SortAttempts(s: seq<Sample>): seq<Sample> {
    SortBy(s, AttemptAtMost)
  }

  lemma SortAttemptsKeeps(s: seq<Sample>)
    requires DistinctBy(s, BY_FIRST)
    ensures Rising(SortAttempts(s), BY_FIRST)
    ensures forall x :: x in SortAttempts(s) <==> x in s
  {
    SortKeeps(s, AttemptAtMost);
    SortSorts(s, AttemptAtMost);
    SortDistinct(s, AttemptAtMost, BY_FIRST);
  }

  // ---- the first loop: file the records under their ids ----

  datatype Files = Files(requests: map<RequestId, seq<Record>>, completions: map<RequestId, seq<Record>>,
                         unidentified: seq<Record>)

  function Get(m: map<RequestId, seq<Record>>, id: RequestId): seq<Record> {
    if id in m then m[id] else []
  }

  function FileOne(f: Files, endpoint: string, r: Record): Files {
    if !Relevant(r, endpoint) then f
    else if r.requestId.NoId? then f.(unidentified := f.unidentified + [r])
    else if r.kind == HttpRequest then
      f.(requests := f.requests[r.requestId := Get(f.requests, r.requestId) + [r]])
    else
      f.(completions := f.completions[r.requestId := Get(f.completions, r.requestId) + [r]])
  }

  /** Every relevant record is filed under its request id, or set aside when it has none. */
  ghost predicate Filed(rs: seq<Record>, endpoint: string, f: Files) {
    NoId !in f.requests && NoId !in f.completions &&
    (forall id: RequestId :: id != NoId ==>
      Get(f.requests, id) == Asked(rs, endpoint, id) && Get(f.completions, id) == Answered(rs, endpoint, id)) &&
    f.unidentified == Filter(rs, r => Relevant(r, endpoint) && r.requestId.NoId?)
  }

  lemma FiledMore(rs: seq<Record>, endpoint: string, f: Files, r: Record)
    requires Filed(rs, endpoint, f)
    ensures Filed(rs + [r], endpoint, FileOne(f, endpoint, r))
  {
    var g := FileOne(f, endpoint, r);
    assert (rs + [r])[..|rs|] == rs;
    forall id: RequestId | id != NoId
      ensures Get(g.requests, id) == Asked(rs + [r], endpoint, id)
      ensures Get(g.completions, id) == Answered(rs + [r], endpoint, id)
    {
      assert Get(f.requests, id) == Asked(rs, endpoint, id);
    }
  }

  method FileRecords(rs: seq<Record>, endpoint: string) returns (f: Files)
    ensures Filed(rs, endpoint, f)
  {
    var requests: map<RequestId, seq<Record>> := map[];
    var completions: map<RequestId, seq<Record>> := map[];
    var unidentified: seq<Record> := [];
    for i := 0 to |rs|
      invariant Filed(rs[..i], endpoint, Files(requests, completions, unidentified))
    {
      var record := rs[i];
      assert rs[..i + 1] == rs[..i] + [record];
      FiledMore(rs[..i], endpoint, Files(requests, completions, unidentified), record);
      if record.endpoint != Some(endpoint) {
        continue;
      }
      var id := record.requestId;
      if id.NoId? {
        if IsCompletion(record.kind) || record.kind == HttpRequest {
          unidentified := unidentified + [record];
        }
        continue;
      }
      if record.kind == HttpRequest {
        requests := requests[id := Get(requests, id) + [record]];
      } else if IsCompletion(record.kind) {
        completions := completions[id := Get(completions, id) + [record]];
      }
    }
    assert rs[..|rs|] == rs;
    f := Files(requests, completions, unidentified);
  }

  // ---- the second loop: visit the ids ----

  function LoneAll(rs: seq<Record>): seq<Sample> {
    seq(|rs|, i requires 0 <= i < |rs| => Lone(rs[i]))
  }

  lemma LoneAllMembers(rs: seq<Record>, a: Sample)
    ensures a in LoneAll(rs) <==> exists r :: r in rs && Lone(r) == a
  {
    if a in LoneAll(rs) {
      var i :| 0 <= i < |rs| && LoneAll(rs)[i] == a;
      assert rs[i] in rs;
    }
    if r :| r in rs && Lone(r) == a {
      var i :| 0 <= i < |rs| && rs[i] == r;
      assert LoneAll(rs)[i] == a;
    }
  }

  /** What one request id contributes. */
  function ForHalves(asked: seq<Record>, answered: seq<Record>, extract: Json -> Option<Json>): seq<Sample> {
    if |asked| == 1 && |answered| == 1 then [Paired(asked[0], answered[0], extract)]
    else LoneAll(asked + answered)
  }

  /** Has record r been visited when the ids in `done` have? */
  ghost predicate Visited(r: Record, done: set<RequestId>) {
    r.requestId.NoId? || r.requestId in done
  }

  /** After visiting the ids in `done`, the list holds exactly the attempts they open, each once. */
  ghost predicate Collected(rs: seq<Record>, sig: Signal, done: set<RequestId>, attempts: seq<Sample>)
    requires sig.Dragon?
  {
    DistinctBy(attempts, BY_FIRST) &&
    forall a :: a in attempts <==> exists r :: r in rs && Visited(r, done) && OpenedBy(rs, sig, r) == Some(a)
  }

  /** The records of one id open exactly the attempts it contributes. */
  lemma ForIdMembers(rs: seq<Record>, sig: Signal, id: RequestId, a: Sample)
    requires sig.Dragon? && !id.NoId?
    ensures a in ForHalves(Asked(rs, sig.endpoint, id), Answered(rs, sig.endpoint, id), sig.extract) <==>
      exists r :: r in rs && r.requestId == id && OpenedBy(rs, sig, r) == Some(a)
  {
    var asked, answered := Asked(rs, sig.endpoint, id), Answered(rs, sig.endpoint, id);
    HalvesMembers(rs, sig.endpoint, id);
    if IsPair(rs, sig.endpoint, id) {
      assert asked[0] in asked;
      assert OpenedBy(rs, sig, asked[0]) == Some(ForHalves(asked, answered, sig.extract)[0]);
      forall r | r in rs && r.requestId == id && OpenedBy(rs, sig, r).Some?
        ensures r == asked[0]
      {
        assert r in asked;
      }
    } else {
      LoneAllMembers(asked + answered, a);
      if r :| r in asked + answered && Lone(r) == a {
        assert OpenedBy(rs, sig, r) == Some(a);
      }
      if r :| r in rs && r.requestId == id && OpenedBy(rs, sig, r) == Some(a) {
        assert r in asked + answered && Lone(r) == a;
      }
    }
  }

  lemma CollectedMore(rs: seq<Record>, sig: Signal, done: set<RequestId>, attempts: seq<Sample>, id: RequestId)
    requires sig.Dragon? && Sorted(rs) && !id.NoId? && id !in done
    requires Collected(rs, sig, done, attempts)
    ensures Collected(rs, sig, done + {id},
              attempts + ForHalves(Asked(rs, sig.endpoint, id), Answered(rs, sig.endpoint, id), sig.extract))
  {
    var more := ForHalves(Asked(rs, sig.endpoint, id), Answered(rs, sig.endpoint, id), sig.extract);
    HalvesDiffer(rs, sig.endpoint, id);
    assert DistinctBy(more, BY_FIRST);
    forall a
      ensures a in more <==> exists r :: r in rs && r.requestId == id && OpenedBy(rs, sig, r) == Some(a)
    {
      ForIdMembers(rs, sig, id, a);
    }
    forall i, j | 0 <= i < |attempts| && 0 <= j < |more|
      ensures attempts[i].first != more[j].first
    {
      assert attempts[i] in attempts && more[j] in more;
      var r :| r in rs && Visited(r, done) && OpenedBy(rs, sig, r) == Some(attempts[i]);
      var s :| s in rs && s.requestId == id && OpenedBy(rs, sig, s) == Some(more[j]);
      OpenerSequence(rs, sig, r);
      OpenerSequence(rs, sig, s);
      if r.sequence == s.sequence {
        SameSequenceSameRecord(rs, r, s);
      }
    }
    forall a
      ensures a in attempts + more <==>
        exists r :: r in rs && Visited(r, done + {id}) && OpenedBy(rs, sig, r) == Some(a)
    {
      if r :| r in rs && Visited(r, done) && OpenedBy(rs, sig, r) == Some(a) {
        assert Visited(r, done + {id});
      }
      if r :| r in rs && r.requestId == id && OpenedBy(rs, sig, r) == Some(a) {
        assert Visited(r, done + {id});
      }
    }
  }

  lemma UnidentifiedCollected(rs: seq<Record>, sig: Signal, unidentified: seq<Record>)
    requires sig.Dragon? && Sorted(rs)
    requires unidentified == Filter(rs, r => Relevant(r, sig.endpoint) && r.requestId.NoId?)
    ensures Collected(rs, sig, {}, LoneAll(unidentified))
  {
    FilterRising(rs, r => Relevant(r, sig.endpoint) && r.requestId.NoId?, BY_SEQUENCE);
    FilterMembers(rs, r => Relevant(r, sig.endpoint) && r.requestId.NoId?);
    forall a
      ensures a in LoneAll(unidentified) <==> exists r :: r in rs && Visited(r, {}) && OpenedBy(rs, sig, r) == Some(a)
    {
      LoneAllMembers(unidentified, a);
      if r :| r in unidentified && Lone(r) == a {
        assert Visited(r, {}) && OpenedBy(rs, sig, r) == Some(a);
      }
    }
  }

  /** Once every filed id is visited, sorting gives the reference list. */
  lemma {:induction false} CollectedAll(
    rs: seq<Record>, sig: Signal, f: Files, done: set<RequestId>, attempts: seq<Sample>)
    requires sig.Dragon? && Sorted(rs) && Collected(rs, sig, done, attempts)
    requires Filed(rs, sig.endpoint, f) && done == f.requests.Keys + f.completions.Keys
    ensures SortAttempts(attempts) == AttemptsOf(rs, sig, |rs|)
  {
    forall r | r in rs && Relevant(r, sig.endpoint)
      ensures Visited(r, done)
    {
      HalvesMembers(rs, sig.endpoint, r.requestId);
      assert r.requestId != NoId ==> Get(f.requests, r.requestId) == Asked(rs, sig.endpoint, r.requestId);
    }
    SortAttemptsKeeps(attempts);
    Reference(rs, sig);
    RisingIsUnique(SortAttempts(attempts), AttemptsOf(rs, sig, |rs|), BY_FIRST);
  }

  /** `_dragon_attempts`: the ids are visited in an arbitrary order, as a set is. */
  method DragonAttempts(rs: seq<Record>, sig: Signal) returns (attempts: seq<Sample>)
    requires sig.Dragon? && Sorted(rs)
    ensures attempts == AttemptsOf(rs, sig, |rs|)
  {
    var f := FileRecords(rs, sig.endpoint);
    attempts := LoneAll(f.unidentified);
    UnidentifiedCollected(rs, sig, f.unidentified);
    var ids := f.requests.Keys + f.completions.Keys;
    ghost var done: set<RequestId> := {};
    while ids != {}
      invariant done + ids == f.requests.Keys + f.completions.Keys && done !! ids
      invariant Collected(rs, sig, done, attempts)
      decreases |ids|
    {
      var id :| id in ids;
      assert id != NoId;
      CollectedMore(rs, sig, done, attempts, id);
      attempts := attempts + ForHalves(Get(f.requests, id), Get(f.completions, id), sig.extract);
      ids, done := ids - {id}, done + {id};
    }
    CollectedAll(rs, sig, f, done, attempts);
    attempts := SortAttempts(attempts);
  }

  // ---- what the pairing guarantees ----

  /** Which records an attempt accounts for. */
  ghost predicate Accounts(a: Sample, r: Record) {
    r.sequence == a.first || r.sequence == a.last
  }

  /** The record that opens the attempt r belongs to. */
  ghost function OwnerOf(rs: seq<Record>, endpoint: string, r: Record): Record {
    if r.requestId.NoId? || !IsPair(rs, endpoint, r.requestId) then r
    else Asked(rs, endpoint, r.requestId)[0]
  }

  lemma OwnerAccounts(rs: seq<Record>, sig: Signal, r: Record)
    requires sig.Dragon? && r in rs && Relevant(r, sig.endpoint)
    ensures var own := OwnerOf(rs, sig.endpoint, r);
      own in rs && OpenedBy(rs, sig, own).Some? && Accounts(OpenedBy(rs, sig, own).value, r)
  {
    var own := OwnerOf(rs, sig.endpoint, r);
    HalvesMembers(rs, sig.endpoint, r.requestId);
    if own != r {
      assert own in Asked(rs, sig.endpoint, r.requestId);
      assert r !in Asked(rs, sig.endpoint, r.requestId);
      assert r in Answered(rs, sig.endpoint, r.requestId);
    } else if !r.requestId.NoId? && IsPair(rs, sig.endpoint, r.requestId) {
      assert r in Asked(rs, sig.endpoint, r.requestId);
    }
  }

  lemma OwnerUnique(rs: seq<Record>, sig: Signal, r: Record, s: Record)
    requires sig.Dragon? && Sorted(rs) && r in rs && s in rs && Relevant(r, sig.endpoint)
    requires OpenedBy(rs, sig, s).Some? && Accounts(OpenedBy(rs, sig, s).value, r)
    ensures s == OwnerOf(rs, sig.endpoint, r)
  {
    OpenerSequence(rs, sig, s);
    HalvesMembers(rs, sig.endpoint, s.requestId);
    if r.sequence == s.sequence {
      SameSequenceSameRecord(rs, r, s);
      if !r.requestId.NoId? && IsPair(rs, sig.endpoint, r.requestId) {
        assert r in Asked(rs, sig.endpoint, r.requestId);
      }
    } else {
      var c := Answered(rs, sig.endpoint, s.requestId)[0];
      assert c in Answered(rs, sig.endpoint, s.requestId);
      SameSequenceSameRecord(rs, c, r);
      assert s in Asked(rs, sig.endpoint, s.requestId);
    }
  }

  /** Every in-run request or completion of the endpoint belongs to exactly one attempt. */
  lemma Conservation(rs: seq<Record>, sig: Signal, r: Record)
    requires sig.Dragon? && Sorted(rs) && r in rs && Relevant(r, sig.endpoint)
    ensures exists a :: a in AttemptsOf(rs, sig, |rs|) && Accounts(a, r) &&
                        (forall b :: b in AttemptsOf(rs, sig, |rs|) && Accounts(b, r) ==> b == a)
  {
    Reference(rs, sig);
    OwnerAccounts(rs, sig, r);
    var mine := OpenedBy(rs, sig, OwnerOf(rs, sig.endpoint, r)).value;
    assert IsOpened(rs, sig, mine);
    forall b | b in AttemptsOf(rs, sig, |rs|) && Accounts(b, r)
      ensures b == mine
    {
      assert IsOpened(rs, sig, b);
      var s :| s in rs && OpenedBy(rs, sig, s) == Some(b);
      OwnerUnique(rs, sig, r, s);
    }
  }

  /** The one request and the one later, usable response that give an attempt its value. */
  ghost predicate Proven(rs: seq<Record>, sig: Signal, request: Record, completion: Record, a: Sample)
    requires sig.Dragon?
  {
    request.requestId == completion.requestId != NoId &&
    Asked(rs, sig.endpoint, request.requestId) == [request] &&
    Answered(rs, sig.endpoint, request.requestId) == [completion] &&
    request.sequence < completion.sequence && request.monotonic <= completion.monotonic &&
    completion.kind == HttpResponse && completion.ok && completion.errorFree && completion.parsed.Some? &&
    completion.parsed.value.Object? && a.value == sig.extract(completion.parsed.value) && a.value.Some? &&
    a.start == request.monotonic && a.end == completion.monotonic &&
    a.first == request.sequence && a.last == completion.sequence
  }

  /** Only an id with exactly one request and one later completion can carry a value. */
  lemma {:induction false} ValueNeedsOnePair(rs: seq<Record>, sig: Signal, a: Sample)
    requires sig.Dragon? && Sorted(rs) && a in AttemptsOf(rs, sig, |rs|) && a.valid
    ensures exists request, completion :: Proven(rs, sig, request, completion, a)
  {
    Reference(rs, sig);
    assert IsOpened(rs, sig, a);
    var r :| r in rs && OpenedBy(rs, sig, r) == Some(a);
    HalvesMembers(rs, sig.endpoint, r.requestId);
    var asked, answered := Asked(rs, sig.endpoint, r.requestId), Answered(rs, sig.endpoint, r.requestId);
    assert r in asked && answered[0] in answered;
    assert Proven(rs, sig, r, answered[0], a);
  }

  // ---- the other source ----

  function ObservedAttempt(sig: Signal, r: Record): seq<Sample>
    requires sig.PrusaLink?
  {
    if r.kind != SourceObservation || r.source != Some("prusalink") then []
    else if sig.sourceId.Some? && r.sourceId != sig.sourceId then []
    else if r.observed.None? || r.observed.value < 0 || r.observed.value > r.monotonic then [Lone(r)]
    else
      var value := if r.healthy && r.errorFree && IsObject(r.data) then sig.extract(r.data.value) else None;
      [Attempt(r.observed.value, r.monotonic, r.sequence, r.sequence, value, value.Some?)]
  }

  /** `_prusalink_attempts`: one attempt for each observation of the source. */
  function ObservedAttempts(rs: seq<Record>, sig: Signal): seq<Sample>
    requires sig.PrusaLink?
  {
    if rs == [] then [] else ObservedAttempts(rs[..|rs| - 1], sig) + ObservedAttempt(sig, rs[|rs| - 1])
  }

  predicate Observes(sig: Signal, r: Record)
    requires sig.PrusaLink?
  {
    r.kind == SourceObservation && r.source == Some("prusalink") && (sig.sourceId.None? || r.sourceId == sig.sourceId)
  }

  /** The run's observations of the source, in order. */
  function Observations(rs: seq<Record>, sig: Signal): seq<Record>
    requires sig.PrusaLink?
  {
    Filter(rs, (r: Record) => Observes(sig, r))
  }

  /** The record says when it was observed, and that was not after it was written. */
  predicate Timed(r: Record) {
    r.observed.Some? && 0 <= r.observed.value <= r.monotonic
  }

  /** The value an observation carries, if it carries one. */
  function Carried(sig: Signal, r: Record): Option<Json>
    requires sig.PrusaLink?
  {
    if Timed(r) && r.healthy && r.errorFree && IsObject(r.data) then sig.extract(r.data.value) else None
  }

  /** One attempt for each observation, in its place, over its interval, with the value it carries. */
  ghost predicate OneForEach(rs: seq<Record>, sig: Signal, attempts: seq<Sample>)
    requires sig.PrusaLink?
  {
    var observed := Observations(rs, sig);
    |attempts| == |observed| &&
    forall i :: 0 <= i < |observed| ==>
      attempts[i].first == observed[i].sequence && attempts[i].last == observed[i].sequence &&
      attempts[i].end == observed[i].monotonic &&
      attempts[i].start == (if Timed(observed[i]) then observed[i].observed.value else observed[i].monotonic) &&
      attempts[i].value == Carried(sig, observed[i]) && (attempts[i].valid <==> Carried(sig, observed[i]).Some?)
  }

  /** The source's attempts and observations correspond one to one, in order. */
  lemma {:induction false} ObservationsOneToOne(rs: seq<Record>, sig: Signal)
    requires sig.PrusaLink?
    ensures OneForEach(rs, sig, ObservedAttempts(rs, sig))
  {
    if rs == [] {
    } else {
      ObservationsOneToOne(rs[..|rs| - 1], sig);
    }
  }

  /** Attempts of rising records are numbered without repetition. */
  lemma ObservedLastsRise(rs: seq<Record>, sig: Signal)
    requires sig.PrusaLink? && Sorted(rs)
    ensures var attempts := ObservedAttempts(rs, sig);
      forall i, j :: 0 <= i < j < |attempts| ==> attempts[i].last < attempts[j].last
  {
    ObservationsOneToOne(rs, sig);
    FilterRising(rs, (r: Record) => Observes(sig, r), BY_SEQUENCE);
    var observed, attempts := Observations(rs, sig), ObservedAttempts(rs, sig);
    forall i, j | 0 <= i < j < |attempts|
      ensures attempts[i].last < attempts[j].last
    {
      assert BY_SEQUENCE(observed[i]) < BY_SEQUENCE(observed[j]);
    }
  }

  /** The same, as the source's loop. */
  method PrusaLinkAttempts(rs: seq<Record>, sig: Signal) returns (attempts: seq<Sample>)
    requires sig.PrusaLink?
    ensures attempts == ObservedAttempts(rs, sig) && OneForEach(rs, sig, attempts)
  {
    attempts := [];
    for i := 0 to |rs|
      invariant attempts == ObservedAttempts(rs[..i], sig)
    {
      var record := rs[i];
      assert rs[..i + 1][..i] == rs[..i];
      if record.kind != SourceObservation || record.source != Some("prusalink") {
        continue;
      }
      if sig.sourceId.Some? && record.sourceId != sig.sourceId {
        continue;
      }
      var end, start := record.monotonic, record.observed;
      if start.None? || start.value < 0 || start.value > end {
        attempts := attempts + [Attempt(end, end, record.sequence, record.sequence, None, false)];
        continue;
      }
      var value := None;
      if record.healthy && record.errorFree && IsObject(record.data) {
        value := sig.extract(record.data.value);
      }
      attempts := attempts + [Attempt(start.value, end, record.sequence, record.sequence, value, value.Some?)];
    }
    assert rs[..|rs|] == rs;
    ObservationsOneToOne(rs, sig);
  }

  /** `attempts_for`, as a function of the run's records. */
  function AttemptsFor(rs: seq<Record>, sig: Signal): seq<Sample> {
    if sig.Dragon? then AttemptsOf(rs, sig, |rs|) else ObservedAttempts(rs, sig)
  }

  /** Made from records of the run: runs forward in time and is numbered by them. */
  ghost predicate Grounded(rs: seq<Record>, a: Sample) {
    a.start <= a.end && (exists r :: r in rs && r.sequence == a.first) && (exists r :: r in rs && r.sequence == a.last)
  }

  lemma ObservedGrounded(rs: seq<Record>, sig: Signal, a: Sample)
    requires sig.PrusaLink? && a in ObservedAttempts(rs, sig)
    ensures Grounded(rs, a)
  {
    var init, last := rs[..|rs| - 1], rs[|rs| - 1];
    assert rs == init + [last];
    if a in ObservedAttempts(init, sig) {
      ObservedGrounded(init, sig, a);
    } else {
      assert last in rs;
    }
  }

  /** Every attempt of either source is grounded in the run's records. */
  lemma AttemptsGrounded(rs: seq<Record>, sig: Signal, a: Sample)
    requires Sorted(rs) && a in AttemptsFor(rs, sig)
    ensures Grounded(rs, a)
  {
    if sig.Dragon? {
      Reference(rs, sig);
      assert IsOpened(rs, sig, a);
      var r :| r in rs && OpenedBy(rs, sig, r) == Some(a);
      OpenerSequence(rs, sig, r);
      HalvesMembers(rs, sig.endpoint, r.requestId);
      if !r.requestId.NoId? && IsPair(rs, sig.endpoint, r.requestId) {
        var c := Answered(rs, sig.endpoint, r.requestId)[0];
        assert c in Answered(rs, sig.endpoint, r.requestId);
        assert c in rs && c.sequence == a.last;
      }
    } else {
      ObservedGrounded(rs, sig, a);
    }
  }
}
