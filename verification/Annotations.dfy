/** Operator annotations of a capture run: each is recorded once, however often it is submitted. */
module Annotations {
  import opened Common
  import opened Sorting

  /** UUIDs, as numbers. */
  type AnnotationId = nat
  type RunId = nat

  /** `AnnotationRequest`, as validated; `content` stands for its marker, note, operator and correlation. */
  datatype Request = Request(id: AnnotationId, runId: RunId, session: Option<RunId>, content: Content) {
    /** `for_capture`. */
    function ForCapture(current: Option<RunId>): Request {
      this.(session := current)
    }

    /** `matches_record`. */
    predicate Matches(r: Annotation) {
      r.id == id && r.runId == runId && r.session == session && r.content == content
    }
  }

  datatype Content = Content(marker: string, note: string, operator: Option<string>, correlation: Option<string>)

  /** An `operator_annotation` record in the evidence. */
  datatype Annotation =
    Annotation(id: AnnotationId, runId: RunId, session: Option<RunId>, content: Content, relativeMs: int)

  datatype RunState = Idle | Running | Stopping | Over

  /** The store's view of the session; without a store there is none, and appending does not fail. */
  datatype Stored = NoStore | Open | Shut | Removed

  /**
   What an append to the recorder comes to; a failure leaves the failed status stored. A
   failed append counts as appended exactly if its line reads back: it is whole, or it
   lacks its newline only, and then a later recovery takes it away again.
   */
  datatype Commit = Appended | NotAppended | AppendedButFailed

  datatype Answer =
    | Created(record: Annotation)
    | Existing(record: Annotation)
    | IdentityMismatch
    | Conflict
    | NotRunning
    | LimitReached
    | Failed

  ghost predicate DistinctIds(records: seq<Annotation>) {
    DistinctBy(records, (a: Annotation) => a.id)
  }

  /** What a record in the evidence answers to a request with its id. */
  function FromEvidence(request: Request, a: Annotation): Answer {
    if request.Matches(a) then Existing(a) else Conflict
  }

  /** `find_annotation`: the first record of the evidence with this id. */
  function Find(records: seq<Annotation>, id: AnnotationId): (r: Option<Annotation>)
    ensures r.Some? ==> r.value in records && r.value.id == id
    ensures r.None? ==> forall a :: a in records ==> a.id != id
  {
    if records == [] then None
    else if records[0].id == id then Some(records[0])
    else Find(records[1..], id)
  }

  /** Among records with distinct ids the first match is the only one. */
  lemma {:induction false} FindIsTheOne(records: seq<Annotation>, a: Annotation)
    requires DistinctIds(records) && a in records
    ensures Find(records, a.id) == Some(a)
  {
    if records[0] != a {
      var i :| 0 <= i < |records| && records[i] == a;
      assert records[0].id != records[i].id;
      assert a == records[1..][i - 1];
      FindIsTheOne(records[1..], a);
    }
  }

  lemma OneRecordPerId(records: seq<Annotation>, id: AnnotationId)
    requires DistinctIds(records)
    ensures |Filter(records, (a: Annotation) => a.id == id)| <= 1
  {
    var keep := (a: Annotation) => a.id == id;
    if records == [] {
    } else {
      var init, last := records[..|records| - 1], records[|records| - 1];
      OneRecordPerId(init, id);
      if keep(last) && Filter(init, keep) != [] {
        var other := Filter(init, keep)[0];
        FilterMember(init, keep, other);
      }
    }
  }

  lemma DistinctIdsAppend(records: seq<Annotation>, a: Annotation)
    requires DistinctIds(records) && forall x :: x in records ==> x.id != a.id
    ensures DistinctIds(records + [a])
  {
    forall i, j | 0 <= i < j < |records + [a]|
      ensures (records + [a])[i].id != (records + [a])[j].id
    {
      assert records[i] in records;
    }
  }

  /** One thing that happens to a run: a submission, or something that changes what later submissions meet. */
  datatype Call =
    | Submit(request: Request, commit: Commit, relativeMs: int)
    | Move(state: RunState)
    | SessionShut
    | SessionRemoved

  predicate Recorded(answer: Answer) {
    answer.Created? || answer.Existing?
  }

  /** The identity checks of `record_annotation`. */
  predicate Identifies(runId: RunId, session: Option<RunId>, request: Request) {
    request.runId == runId && (request.session.Some? ==> request.session == session)
  }

  /** The answer names the accepted record of this request. */
  predicate Answered(
    annotations: map<AnnotationId, (Request, Annotation)>, runId: RunId, session: Option<RunId>,
    request: Request, answer: Answer)
  {
    Recorded(answer) && Identifies(runId, session, request) && request.id in annotations &&
    annotations[request.id] == (request.ForCapture(session), answer.record)
  }

  /** The annotation part of `CaptureRunner`. */
  class CaptureAnnotations {
    const runId: RunId
    const session: Option<RunId>
    const limit: nat

    var state: RunState
    var stored: Stored
    var annotations: map<AnnotationId, (Request, Annotation)>
    var evidence: seq<Annotation>

    /** A record that was committed although its append failed, until a retry finds it. */
    ghost var orphan: Option<Annotation>

    ghost predicate Valid()
      reads this
    {
      DistinctIds(evidence) &&
      (forall id {:trigger Backed(id)} :: id in annotations ==> Backed(id)) &&
      (forall a {:trigger Sourced(a)} :: a in evidence ==> Sourced(a)) &&
      (orphan.Some? ==> orphan.value.id !in annotations && stored in {Shut, Removed}) &&
      |annotations| + (if orphan.Some? then 1 else 0) <= limit &&
      (stored == Removed ==> evidence == [])
    }

    /** What stands behind an accepted annotation. */
    ghost predicate Backed(id: AnnotationId)
      reads this
    {
      id in annotations && annotations[id].0.id == id && annotations[id].0.Matches(annotations[id].1) &&
      (stored != Removed ==> annotations[id].1 in evidence)
    }

    /** What a record in the evidence comes from. */
    ghost predicate Sourced(a: Annotation)
      reads this
    {
      orphan == Some(a) || (a.id in annotations && annotations[a.id].1 == a)
    }

    constructor (runId: RunId, session: Option<RunId>, limit: nat, persistent: bool)
      ensures Valid() && annotations == map[] && evidence == [] && state == Idle
      ensures this.runId == runId && this.session == session && this.limit == limit
    {
      this.runId, this.session, this.limit := runId, session, limit;
      state, stored := Idle, if persistent then Open else NoStore;
      annotations, evidence, orphan := map[], [], None;
    }

    /** What a submission is answered without a new record: an identity error, or what its id already stands for. */
    function Owed(request: Request): Option<Answer>
      reads this
    {
      if !Identifies(runId, session, request) then Some(IdentityMismatch)
      else if request.id in annotations then
        Some(if annotations[request.id].0 == request.ForCapture(session) then Existing(annotations[request.id].1)
             else Conflict)
      else if stored == Shut && Find(evidence, request.id).Some? then
        Some(FromEvidence(request.ForCapture(session), Find(evidence, request.id).value))
      else None
    }

    /** Once the session is shut, a record in its evidence decides, also when its append was reported as failed. */
    lemma EvidenceDecides(request: Request, a: Annotation)
      requires Valid() && stored == Shut && Identifies(runId, session, request) && a in evidence && a.id == request.id
      ensures Owed(request) == Some(FromEvidence(request.ForCapture(session), a))
    {
      FindIsTheOne(evidence, a);
      if request.id in annotations {
        assert Backed(request.id);
        FindIsTheOne(evidence, annotations[request.id].1);
      }
    }

    /** `record_annotation`. */
    method RecordAnnotation(request: Request, commit: Commit, relativeMs: int) returns (answer: Answer)
      requires Valid()
      modifies this`stored, this`annotations, this`evidence, this`orphan
      ensures Valid() && (stored == old(stored) || stored == Shut)
      ensures forall id :: id in old(annotations) ==> id in annotations && annotations[id] == old(annotations)[id]
      ensures Recorded(answer) ==> Answered(annotations, runId, session, request, answer)
      ensures old(Owed(request)).Some? ==> answer == old(Owed(request)).value && evidence == old(evidence)
      ensures answer == IdentityMismatch <==>
        request.runId != runId || (request.session.Some? && request.session != session)
      ensures answer != IdentityMismatch && request.id in old(annotations) ==>
        answer == if old(annotations)[request.id].0 == request.(session := session)
                  then Existing(old(annotations)[request.id].1) else Conflict
      ensures forall a ::
        answer != IdentityMismatch && old(stored) == Shut && a in old(evidence) && a.id == request.id ==>
        answer == if a.runId == request.runId && a.session == session && a.content == request.content
                  then Existing(a) else Conflict
      ensures old(Owed(request)).None? ==>
        (answer == NotRunning <==> state != Running) &&
        (answer == LimitReached <==> state == Running && |old(annotations)| >= limit) &&
        (answer.Created? <==>
          state == Running && |old(annotations)| < limit &&
          (old(stored) == NoStore || (old(stored) == Open && commit == Appended))) &&
        (answer in {NotRunning, LimitReached, Failed} || answer.Created?)
      ensures answer.Created? ==>
        state == Running && request.id !in old(annotations) && evidence == old(evidence) + [answer.record] &&
        answer.record == Annotation(request.id, request.runId, session, request.content, relativeMs)
      ensures old(evidence) <= evidence
      ensures answer == Failed && old(stored) == Open ==> stored == Shut
    {
      forall a | stored == Shut && a in evidence && a.id == request.id && Identifies(runId, session, request)
        ensures Owed(request) == Some(FromEvidence(request.ForCapture(session), a))
      {
        EvidenceDecides(request, a);
      }
      var owed := AnswerOwed(request);
      if owed.Some? {
        return owed.value;
      }
      if state != Running {
        return NotRunning;
      }
      if |annotations| >= limit {
        return LimitReached;
      }
      answer := AppendAnnotation(request.ForCapture(session), commit, relativeMs);
    }

    /** `record_annotation`, up to the lookup in the stored evidence, which may accept an orphan. */
    method AnswerOwed(request: Request) returns (answer: Option<Answer>)
      requires Valid()
      modifies this`annotations, this`orphan
      ensures Valid() && answer == old(Owed(request))
      ensures answer.None? ==> annotations == old(annotations) && orphan == old(orphan)
      ensures answer.None? && stored == Shut ==> Unknown(request.id)
      ensures answer.Some? && Recorded(answer.value) ==> Answered(annotations, runId, session, request, answer.value)
      ensures forall id :: id in old(annotations) ==> id in annotations && annotations[id] == old(annotations)[id]
    {
      if !Identifies(runId, session, request) {
        return Some(IdentityMismatch);
      }
      var normalized := request.ForCapture(session);
      if request.id in annotations {
        return Some(if annotations[request.id].0 != normalized then Conflict else Existing(annotations[request.id].1));
      }
      if stored != Shut {
        return None;
      }
      var durable := Find(evidence, request.id);
      if durable.None? {
        return None;
      }
      assert Sourced(durable.value);
      if normalized.Matches(durable.value) {
        AcceptOrphan(normalized);
      }
      return Some(FromEvidence(normalized, durable.value));
    }

    /** A record whose append was reported as failed is accepted after all. */
    method AcceptOrphan(request: Request)
      requires Valid() && orphan.Some? && stored == Shut && orphan.value in evidence && request.Matches(orphan.value)
      modifies this`annotations, this`orphan
      ensures Valid() && annotations == old(annotations)[request.id := (request, old(orphan).value)]
      ensures request.id !in old(annotations)
    {
      var durable := Find(evidence, request.id);
      FindIsTheOne(evidence, orphan.value);
      annotations := annotations[request.id := (request, durable.value)];
      orphan := None;
      forall id | id in annotations
        ensures Backed(id)
      {
        assert id != request.id ==> old(Backed(id));
      }
      forall a | a in evidence
        ensures Sourced(a)
      {
        assert old(Sourced(a));
      }
    }

    ghost predicate Unknown(id: AnnotationId)
      reads this
    {
      forall a :: a in evidence ==> a.id != id
    }

    /** The append of `record_annotation`, and what follows it. */
    method AppendAnnotation(request: Request, commit: Commit, relativeMs: int) returns (answer: Answer)
      requires Valid() && request.id !in annotations && |annotations| < limit
      requires stored == Shut ==> Unknown(request.id)
      modifies this`stored, this`annotations, this`evidence, this`orphan
      ensures Valid() && (answer.Created? || answer == Failed) && (stored == old(stored) || stored == Shut)
      ensures answer.Created? ==> annotations == old(annotations)[request.id := (request, answer.record)]
      ensures answer.Created? ==> evidence == old(evidence) + [answer.record] && old(Unknown(request.id))
      ensures answer == Failed ==> annotations == old(annotations)
      ensures answer == Failed ==>
        evidence == if old(stored) == Open && commit == AppendedButFailed
          then old(evidence) + [Annotation(request.id, request.runId, request.session, request.content, relativeMs)]
          else old(evidence)
      ensures answer.Created? <==> old(stored) == NoStore || (old(stored) == Open && commit == Appended)
      ensures stored == if old(stored) == Open && commit != Appended then Shut else old(stored)
      ensures answer.Created? ==>
        answer.record == Annotation(request.id, request.runId, request.session, request.content, relativeMs)
    {
      forall a | a in evidence
        ensures a.id != request.id
      {
        assert Sourced(a);
      }
      if stored in {Shut, Removed} || (stored == Open && commit == NotAppended) {
        stored := if stored == Removed then Removed else Shut;
        forall id | id in annotations
          ensures Backed(id)
        {
          assert old(Backed(id));
        }
        forall a | a in evidence
          ensures Sourced(a)
        {
          assert old(Sourced(a));
        }
        return Failed;
      }
      var record := Annotation(request.id, request.runId, request.session, request.content, relativeMs);
      DistinctIdsAppend(evidence, record);
      evidence := evidence + [record];
      if stored == Open && commit == AppendedButFailed {
        stored, orphan := Shut, Some(record);
        answer := Failed;
      } else {
        annotations := annotations[request.id := (request, record)];
        answer := Created(record);
      }
      forall id | id in annotations
        ensures Backed(id)
      {
        assert id != request.id ==> old(Backed(id));
      }
      forall a | a in evidence
        ensures Sourced(a)
      {
        assert a != record ==> old(Sourced(a));
      }
    }

    /** Anything that may happen to the run. */
    method Do(call: Call) returns (answer: Answer)
      requires Valid()
      modifies this
      ensures Valid()
      ensures forall id :: id in old(annotations) ==> id in annotations && annotations[id] == old(annotations)[id]
      ensures Recorded(answer) ==> call.Submit? && Answered(annotations, runId, session, call.request, answer)
      ensures answer.Created? ==> answer.record.id !in old(annotations) && answer.record.id in annotations
      ensures Recorded(answer) ==> answer.record.id == call.request.id
      ensures state == (if call.Move? then call.state else old(state))
      ensures call.SessionShut? && old(stored) == Open ==> stored == Shut
      ensures call.SessionRemoved? && old(stored) == Shut ==> stored == Removed && evidence == []
      ensures forall known :: call.Submit? && Answered(old(annotations), runId, session, call.request, known) ==>
        answer == Existing(known.record)
    {
      if call.Submit? {
        answer := RecordAnnotation(call.request, call.commit, call.relativeMs);
        assert Recorded(answer) ==> Backed(call.request.id);
      } else {
        Happens(call);
        answer := NotRunning;
      }
    }

    /** The run moves on, or its stored session is shut or removed. */
    method Happens(call: Call)
      requires Valid() && !call.Submit?
      modifies this`state, this`stored, this`evidence
      ensures Valid() && state == (if call.Move? then call.state else old(state))
      ensures stored ==
        if call.SessionShut? && old(stored) == Open then Shut
        else if call.SessionRemoved? && old(stored) == Shut then Removed else old(stored)
      ensures evidence == if stored == Removed then [] else old(evidence)
    {
      match call {
        case Move(next) => state := next;
        case SessionShut => stored := if stored == Open then Shut else stored;
        case SessionRemoved =>
          if stored == Shut {
            stored, evidence := Removed, [];
          }
      }
      forall id | id in annotations
        ensures Backed(id)
      {
        assert old(Backed(id));
      }
      forall a | a in evidence
        ensures Sourced(a)
      {
        assert old(Sourced(a));
      }
    }
  }

  /** No id is created twice. */
  ghost predicate CreatedOnce(answers: seq<Answer>) {
    forall i, j :: 0 <= i < j < |answers| && answers[i].Created? && answers[j].Created? ==>
      answers[i].record.id != answers[j].record.id
  }

  /** A request that was accepted gets the same record whenever it is repeated. */
  ghost predicate RetriesAgree(calls: seq<Call>, answers: seq<Answer>)
    requires |answers| <= |calls|
  {
    forall i, j :: 0 <= i < j < |answers| && Recorded(answers[i]) && Repeats(calls[i], calls[j]) ==>
      answers[j] == Existing(answers[i].record)
  }

  predicate Repeats(first: Call, again: Call) {
    first.Submit? && again.Submit? && again.request == first.request
  }

  /**
   Any sequence of submissions, state changes and storage failures: one id is created at
   most once, a repeated request gets the same record, and the limit is never exceeded.
   */
  method RunCalls(run: CaptureAnnotations, calls: seq<Call>) returns (answers: seq<Answer>)
    requires run.Valid()
    modifies run
    ensures run.Valid() && |answers| == |calls|
    ensures CreatedOnce(answers) && RetriesAgree(calls, answers)
    ensures |run.annotations| <= run.limit && DistinctIds(run.evidence)
  {
    answers := [];
    while |answers| < |calls|
      invariant run.Valid() && |answers| <= |calls|
      invariant forall i :: 0 <= i < |answers| && Recorded(answers[i]) ==>
        calls[i].Submit? && Answered(run.annotations, run.runId, run.session, calls[i].request, answers[i])
      invariant forall i :: 0 <= i < |answers| && answers[i].Created? ==> answers[i].record.id in run.annotations
      invariant CreatedOnce(answers) && RetriesAgree(calls, answers)
    {
      var call := calls[|answers|];
      var answer := run.Do(call);
      answers := answers + [answer];
    }
  }
}
