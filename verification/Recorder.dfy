/** The session recorder: a bounded live view whose records are durable before they are visible. */
module Recorder {
  import opened Common
  import opened Bytes
  import opened Recovery
  import opened Retention
  import opened Store

  /** The kinds of records that close their session, any other kind, and the empty one, which is refused. */
  datatype Kind =
    | NoName
    | SessionStopped
    | CaptureCompleted | CaptureCancelled | CaptureFailed
    | ChurnCompleted | ChurnCancelled | ChurnFailed
    | OtherName(name: nat)

  datatype Rec = Rec(sequence: nat, kind: Kind, content: int)

  /** `TERMINAL_RECORDS`: how the session is closed. */
  function TerminalStatus(kind: Kind): (status: Option<Status>)
    ensures status.Some? ==> status.value in {Completed, Cancelled, Failed}
  {
    match kind
    case SessionStopped | CaptureCompleted | ChurnCompleted => Some(Completed)
    case CaptureCancelled | ChurnCancelled => Some(Cancelled)
    case CaptureFailed | ChurnFailed => Some(Failed)
    case NoName | OtherName(_) => None
  }

  type Encoding = Rec -> Data

  /** The evidence file that holds exactly these records, in order. */
  function FileOf(records: seq<Rec>, encode: Encoding): Data {
    if records == [] then [] else FileOf(records[..|records| - 1], encode) + encode(records[|records| - 1])
  }

  ghost predicate Encodes(encode: Encoding) {
    forall r: Rec :: IsRecord(encode(r))
  }

  lemma {:induction false} FileIsWhole(records: seq<Rec>, encode: Encoding)
    requires Encodes(encode)
    ensures Whole(FileOf(records, encode)) && Lines(FileOf(records, encode)) == |records|
  {
    if records == [] {
    } else {
      var init, last := records[..|records| - 1], records[|records| - 1];
      FileIsWhole(init, encode);
      PartialRecord(FileOf(init, encode), encode(last), |encode(last)|);
      assert encode(last)[..|encode(last)|] == encode(last);
    }
  }

  /** What may stand in the file after the visible records: some part of one record. */
  ghost predicate PartOfOne(extra: Data, encode: Encoding) {
    exists r: Rec, k: nat :: k <= |encode(r)| && extra == encode(r)[..k]
  }

  /** The stored session, unless retention has removed it, has exactly these bytes of evidence. */
  ghost predicate Holds(sessions: map<Id, Session>, id: Id, evidence: Data) {
    id in sessions ==> sessions[id].dir.evidence == evidence
  }

  /** The session accepts no record any more. */
  ghost predicate Closed(sessions: map<Id, Session>, id: Id) {
    id in sessions ==> sessions[id].meta.status != Active
  }

  ghost predicate OthersKept(before: map<Id, Session>, after: map<Id, Session>, id: Id) {
    forall x :: x in after && x != id ==> x in before && after[x] == before[x]
  }

  /** A failed append leaves at most one complete record beyond the visible ones. */
  lemma AtMostOneExtra(visible: seq<Rec>, extra: Data, encode: Encoding)
    requires Encodes(encode) && PartOfOne(extra, encode)
    ensures |visible| <= Lines(FileOf(visible, encode) + extra) <= |visible| + 1
  {
    var r, k: nat :| k <= |encode(r)| && extra == encode(r)[..k];
    FileIsWhole(visible, encode);
    PartialRecord(FileOf(visible, encode), encode(r), k);
  }

  /**
   Every record ever made visible survives a crash, and any further ones in the restarts
   after it, in order and with at most the one in flight after it.
   */
  lemma {:induction false} VisibleSurvivesCrash(
    visible: seq<Rec>, extra: Data, encode: Encoding, d: Dir, crashes: seq<CrashPoint>)
    requires Encodes(encode) && PartOfOne(extra, encode)
    requires d.evidence == FileOf(visible, encode) + extra && Agrees(d.evidence, d.meta)
    ensures var r := Recovered(CrashesAt(d, crashes));
      (r.evidence == FileOf(visible, encode) || (r.evidence == FileOf(visible, encode) + extra && IsRecord(extra))) &&
      r.meta.records == Lines(r.evidence) && |visible| <= r.meta.records <= |visible| + 1 &&
      r.meta.status != Active
  {
    var r, k: nat :| k <= |encode(r)| && extra == encode(r)[..k];
    FileIsWhole(visible, encode);
    CrashDuringAppend(FileOf(visible, encode), encode(r), k, d);
    RecoveryCountsExactly(d);
    CrashesInsideRecovery(d, crashes);
    if k == |encode(r)| {
      assert extra == encode(r);
    }
  }

  /** A session that is still stored has this status, in memory and on disk. */
  ghost predicate EndedAs(sessions: map<Id, Session>, id: Id, status: Status) {
    id in sessions ==> sessions[id].meta.status == status && sessions[id].dir.meta.status == status
  }

  /** A session that is still stored is closed as the record's kind says, or stays active. */
  ghost predicate StatusFollows(sessions: map<Id, Session>, id: Id, kind: Kind) {
    match kind
    case SessionStopped | CaptureCompleted | ChurnCompleted => EndedAs(sessions, id, Completed)
    case CaptureCancelled | ChurnCancelled => EndedAs(sessions, id, Cancelled)
    case CaptureFailed | ChurnFailed => EndedAs(sessions, id, Failed)
    case NoName | OtherName(_) => id in sessions ==> sessions[id].meta.status == Active
  }

  /** It has a failure reason, and is failed unless it was closed before. */
  ghost predicate NotedAsFailed(sessions: map<Id, Session>, id: Id, before: Status) {
    id in sessions ==>
      sessions[id].meta.failure.Some? && sessions[id].meta.status == if before == Active then Failed else before
  }

  /** After an append that reached the store and failed: failed, unless its close was stored already. */
  ghost predicate FailedOrClosed(sessions: map<Id, Session>, id: Id, kind: Kind, close: MetaFault) {
    NotedAsFailed(sessions, id, Active) ||
    (close == Stored && TerminalStatus(kind).Some? && NotedAsFailed(sessions, id, TerminalStatus(kind).value))
  }

  /** The failures one `append` may meet: in the append, in closing the session, in storing the failed status. */
  datatype Faults = Faults(append: AppendFault, close: MetaFault, closeFlush: bool, fail: MetaFault, failFlush: bool,
                           blocked: set<Id>)

  /** Nothing that a record of this kind needs fails. */
  predicate NoFaults(kind: Kind, faults: Faults) {
    faults.append == NoFault && (TerminalStatus(kind).Some? ==> faults.close == Stored && !faults.closeFlush)
  }

  datatype RecordError = NoKind | NotAccepted | NotPersisted

  class PersistentRecorder {
    const store: SessionStore
    const id: Id
    const maxRecords: nat
    const encode: Encoding

    var records: seq<Rec>
    var nextSequence: nat
    var dropped: nat

    /** Every record ever made visible. */
    ghost var visible: seq<Rec>
    /** What a failed append left after them. */
    ghost var extra: Data
    /** A failed status could not be stored after a failed append. */
    ghost var broken: bool

    /** The live view: the last records made visible, with contiguous sequences, and a count of the others. */
    ghost predicate LiveView()
      reads this
    {
      maxRecords > 0 &&
      nextSequence == |visible| + 1 && (forall i :: 0 <= i < |visible| ==> visible[i].sequence == i + 1) &&
      dropped == Max(0, |visible| - maxRecords) && records == visible[dropped..]
    }

    /** The evidence file: every visible record in order, and nothing more while the session is active. */
    ghost predicate Durable()
      reads this, store
    {
      store.Valid() && Encodes(encode) && PartOfOne(extra, encode) &&
      (!broken ==> Holds(store.sessions, id, FileOf(visible, encode) + extra)) &&
      (!broken && id in store.sessions && store.sessions[id].meta.status == Active ==> extra == [])
    }

    ghost predicate Valid()
      reads this, store
    {
      LiveView() && Durable()
    }

    constructor (store: SessionStore, id: Id, maxRecords: nat, encode: Encoding)
      requires store.Valid() && maxRecords > 0 && Encodes(encode)
      requires id in store.sessions && store.sessions[id].dir.evidence == []
      ensures Valid() && this.store == store && this.id == id && visible == [] && !broken
    {
      this.store, this.id, this.maxRecords, this.encode := store, id, maxRecords, encode;
      records, nextSequence, dropped := [], 1, 0;
      visible, extra, broken := [], [], false;
      new;
      EmptyIsPart(Rec(0, NoName, 0), encode);
    }

    /** `fail`: store the failed status; only if that fails too is the session's file no longer accounted for. */
    method Fail(faults: Faults)
      requires Encodes(encode) && PartOfOne(extra, encode) && store.Valid()
      requires !broken ==> Holds(store.sessions, id, FileOf(visible, encode) + extra)
      modifies this`broken, store
      ensures Durable() && (!broken ==> Closed(store.sessions, id))
      ensures (old(broken) ==> broken) && (faults.fail == Stored ==> broken == old(broken))
      ensures OthersKept(old(store.sessions), store.sessions, id)
      ensures id in store.sessions ==> id in old(store.sessions)
      ensures id in old(store.sessions) && faults.fail == Stored ==>
        NotedAsFailed(store.sessions, id, old(store.sessions[id]).meta.status)
    {
      var io, stored := store.Finish(id, Failed, Some("could not persist session evidence"), faults.fail,
                                     faults.blocked, faults.failFlush);
      if !stored {
        broken := broken || id in store.sessions;
      }
    }

    /** The store closes the session, unless it cannot write the metadata; retention may then remove it. */
    method FinishAs(status: Status, faults: Faults, ghost evidence: Data) returns (io: Io, ghost stored: bool)
      requires store.Valid() && status in {Completed, Cancelled, Failed}
      requires id in store.sessions && store.sessions[id].meta.status == Active
      requires !broken ==> Holds(store.sessions, id, evidence)
      modifies store
      ensures store.Valid() && OthersKept(old(store.sessions), store.sessions, id)
      ensures !broken ==> Holds(store.sessions, id, evidence)
      ensures (io == Done ==> stored) && (stored <==> faults.close == Stored)
      ensures stored && !faults.closeFlush ==> io == Done
      ensures stored ==> EndedAs(store.sessions, id, status)
      ensures !stored ==> id in store.sessions && store.sessions[id].meta.status == Active
    {
      io, stored := store.Finish(id, status, None, faults.close, faults.blocked, faults.closeFlush);
    }

    /** The rest of the commit of a terminal record, which the file holds already: close the session. */
    method Close(record: Rec, status: Status, faults: Faults) returns (e: Option<RecordError>)
      requires Encodes(encode) && store.Valid() && status in {Completed, Cancelled, Failed}
      requires id in store.sessions && store.sessions[id].meta.status == Active
      requires !broken ==> Holds(store.sessions, id, FileOf(visible, encode) + encode(record))
      modifies this`broken, this`extra, store
      ensures (old(broken) ==> broken) && (faults.fail == Stored ==> broken == old(broken))
      ensures store.Valid() && (!broken ==> Closed(store.sessions, id))
      ensures e.None? ==> extra == old(extra)
      ensures e.None? && !broken ==> Holds(store.sessions, id, FileOf(visible, encode) + encode(record))
      ensures e.Some? ==> Durable()
      ensures OthersKept(old(store.sessions), store.sessions, id)
      ensures e.None? ==> EndedAs(store.sessions, id, status)
      ensures e.Some? ==> e.value == NotPersisted
      ensures faults.close == Stored && !faults.closeFlush ==> e.None?
      ensures e.Some? && faults.fail == Stored ==>
        NotedAsFailed(store.sessions, id, Active) ||
        (faults.close == Stored && NotedAsFailed(store.sessions, id, status))
    {
      var io, stored := FinishAs(status, faults, FileOf(visible, encode) + encode(record));
      if io != Done {
        extra := encode(record);
        WrittenIsPart(record, NoFault, encode);
        Fail(faults);
        return Some(NotPersisted);
      }
      return None;
    }

    /** The append to the store of a record the session still accepts: some part of it reaches the file. */
    method Persist(record: Rec, faults: Faults) returns (io: Io)
      requires Durable() && id in store.sessions && store.sessions[id].meta.status == Active
      modifies store
      ensures store.Valid() && (io == Done || io == OsError)
      ensures !broken ==> Holds(store.sessions, id, FileOf(visible, encode) + Written(encode(record), faults.append))
      ensures io == Done ==> Written(encode(record), faults.append) == encode(record)
      ensures faults.append == NoFault ==> io == Done
      ensures id in store.sessions && store.sessions[id].meta.status == Active
      ensures OthersKept(old(store.sessions), store.sessions, id)
    {
      io := store.Append(id, encode(record), faults.append);
      assert FileOf(visible, encode) + [] == FileOf(visible, encode);
    }

    /** `_before_record_visible`: commit the record, and close the session when its kind says so. */
    method BeforeRecordVisible(record: Rec, faults: Faults) returns (e: Option<RecordError>)
      requires Durable()
      modifies this`broken, this`extra, store
      ensures (old(broken) ==> broken) && (faults.fail == Stored ==> broken == old(broken))
      ensures e.None? ==> old(id in store.sessions) && store.Valid() && PartOfOne(extra, encode)
      ensures e.None? && !broken ==> extra == [] && Holds(store.sessions, id, FileOf(visible, encode) + encode(record))
      ensures e.None? ==> StatusFollows(store.sessions, id, record.kind)
      ensures e == Some(NotPersisted) && faults.fail == Stored ==>
        FailedOrClosed(store.sessions, id, record.kind, faults.close)
      ensures e.Some? ==> e.value != NoKind
      ensures e == Some(NotAccepted) ==> !old(id in store.sessions && store.sessions[id].meta.status == Active)
      ensures old(id in store.sessions && store.sessions[id].meta.status == Active) && NoFaults(record.kind, faults) ==>
        e.None?
      ensures e.Some? ==> Durable() && (!broken ==> Closed(store.sessions, id))
      ensures old(Closed(store.sessions, id)) ==> e.Some? && store.sessions == old(store.sessions)
      ensures OthersKept(old(store.sessions), store.sessions, id)
    {
      if id !in store.sessions {
        return Some(NotPersisted);
      }
      if store.sessions[id].meta.status != Active {
        return Some(NotAccepted);
      }
      var io := Persist(record, faults);
      if io == OsError {
        extra := Written(encode(record), faults.append);
        WrittenIsPart(record, faults.append, encode);
        Fail(faults);
        return Some(NotPersisted);
      }
      e := None;
      var status := TerminalStatus(record.kind);
      if status.Some? {
        e := Close(record, status.value, faults);
      }
    }

    /** `append`: durable first, then visible. */
    method Append(kind: Kind, content: int, faults: Faults) returns (r: Result<Rec, RecordError>)
      requires Valid()
      modifies this, store
      ensures Valid()
      ensures r.Ok? ==> visible == old(visible) + [r.value] && r.value == Rec(old(nextSequence), kind, content)
      ensures r.Err? ==> visible == old(visible) && records == old(records) && dropped == old(dropped)
      ensures r.Err? && r.error != NoKind && !broken ==> Closed(store.sessions, id)
      ensures r.Ok? ==> StatusFollows(store.sessions, id, kind)
      ensures r == Err(NotPersisted) && faults.fail == Stored ==> FailedOrClosed(store.sessions, id, kind, faults.close)
      ensures r == Err(NoKind) <==> kind == NoName
      ensures old(id in store.sessions && store.sessions[id].meta.status == Active) ==>
        kind != NoName && NoFaults(kind, faults) ==> r.Ok?
      ensures r == Err(NotAccepted) ==> !old(id in store.sessions && store.sessions[id].meta.status == Active)
      ensures old(Closed(store.sessions, id)) || kind == NoName ==> r.Err? && store.sessions == old(store.sessions)
      ensures (old(broken) ==> broken) && (faults.fail == Stored ==> broken == old(broken))
      ensures OthersKept(old(store.sessions), store.sessions, id)
    {
      if kind == NoName {
        return Err(NoKind);
      }
      var record := Rec(nextSequence, kind, content);
      var e := BeforeRecordVisible(record, faults);
      if e.Some? {
        return Err(e.value);
      }
      Accept(record);
      return Ok(record);
    }

    /** A committed record becomes visible. */
    method Accept(record: Rec)
      requires LiveView() && record.sequence == nextSequence
      requires store.Valid() && Encodes(encode) && PartOfOne(extra, encode)
      requires !broken ==> extra == [] && Holds(store.sessions, id, FileOf(visible, encode) + encode(record))
      modifies this`records, this`nextSequence, this`dropped, this`visible
      ensures Valid() && visible == old(visible) + [record]
    {
      FileOfAppend(visible, record, encode);
      Show(record);
    }

    /** The part of `append` after the commit: the bounded live view drops its oldest record when it is full. */
    method Show(record: Rec)
      requires LiveView() && record.sequence == nextSequence
      modifies this`records, this`nextSequence, this`dropped, this`visible
      ensures LiveView() && visible == old(visible) + [record]
    {
      LastOnesAppend(visible, record, maxRecords);
      NumberedAppend(visible, record);
      nextSequence := nextSequence + 1;
      if |records| == maxRecords {
        dropped := dropped + 1;
        records := records[1..];
      }
      records := records + [record];
      visible := visible + [record];
    }
  }

  lemma FileOfAppend(records: seq<Rec>, record: Rec, encode: Encoding)
    ensures FileOf(records + [record], encode) == FileOf(records, encode) + encode(record)
    ensures FileOf(records + [record], encode) + [] == FileOf(records, encode) + encode(record)
  {
    assert (records + [record])[..|records|] == records;
  }

  /** The last `max` elements, after one more. */
  lemma LastOnesAppend(visible: seq<Rec>, record: Rec, max: nat)
    requires max > 0
    ensures var shown := visible[Max(0, |visible| - max)..];
      (visible + [record])[Max(0, |visible| + 1 - max)..] == (if |shown| == max then shown[1..] else shown) + [record]
    ensures |visible[Max(0, |visible| - max)..]| == max <==> |visible| >= max
  {
  }

  lemma NumberedAppend(visible: seq<Rec>, record: Rec)
    requires record.sequence == |visible| + 1 && forall i :: 0 <= i < |visible| ==> visible[i].sequence == i + 1
    ensures forall i :: 0 <= i < |visible| + 1 ==> (visible + [record])[i].sequence == i + 1
  {
  }

  lemma WrittenIsPart(record: Rec, fault: AppendFault, encode: Encoding)
    ensures PartOfOne(Written(encode(record), fault), encode)
  {
    var e := encode(record);
    var k := |Written(e, fault)|;
    assert k <= |e| && Written(e, fault) == e[..k];
  }

  lemma EmptyIsPart(record: Rec, encode: Encoding)
    ensures PartOfOne([], encode)
  {
    assert encode(record)[..0] == [];
  }
}
