/**
 The durable evidence store. Every method takes the input/output failure it meets
 as an argument; a crash at that moment leaves the same files behind.
 */
module Store {
  import opened Common
  import opened Bytes
  import opened Recovery
  import opened Retention

  const CHECKPOINT_RECORDS := 64
  const CHUNK_BYTES: nat := 65536

  /** Replacing metadata.json: stored, or an error before or after the atomic replacement. */
  datatype MetaFault = Stored | BeforeReplace | AfterReplace

  /** `WriteStops(n)`: the write or the flush fails after n bytes reached the file. */
  datatype AppendFault = NoFault | OpenFails | WriteStops(count: nat) | CheckpointFails(fault: MetaFault)

  /**
   Where creating a session stops: at its directory; between the directory and the metadata
   (a flush or the empty evidence file fails); or in the metadata write, before or after the
   replacement, with a cleanup that succeeds or fails.
   */
  datatype CreateFault = Created | NoDirectory | BeforeMetadata | NoMetadata(replaced: bool, cleanupFails: bool)

  datatype Io = Done | OsError | AlreadyFinished | UnknownSession

  /** One session: its files, and the entries that the store's dictionaries hold for it. */
  datatype Session = Session(
    dir: Dir,
    meta: Meta,
    evidenceSize: nat,
    metadataSize: nat,
    pending: nat)

  /** The length of metadata.json for given contents. */
  type MetaSize = Meta -> nat

  // ---- what holds of one session ----

  /** Kept by every operation under every failure: counters are exact whenever their byte count matches the file. */
  ghost predicate Sound(s: Session) {
    Agrees(s.dir.evidence, s.meta) && Agrees(s.dir.evidence, s.dir.meta) && s.pending < CHECKPOINT_RECORDS
  }

  /** Kept as long as operations succeed: the caches and the counters agree with the files. */
  ghost predicate Exact(s: Session, metaSize: MetaSize) {
    s.evidenceSize == |s.dir.evidence| && s.metadataSize == metaSize(s.dir.meta) &&
    s.meta.records == Lines(s.dir.evidence) && s.meta.bytes == |s.dir.evidence| &&
    s.meta.records == s.dir.meta.records + s.pending && s.pending < CHECKPOINT_RECORDS &&
    s.meta == s.dir.meta.(records := s.meta.records, bytes := s.meta.bytes) &&
    (s.pending == 0 ==> s.meta == s.dir.meta)
  }

  /** The part of a record that reaches the evidence file. */
  function Written(encoded: Data, fault: AppendFault): Data {
    match fault
    case OpenFails => []
    case WriteStops(count) => encoded[..Min(count, |encoded|)]
    case _ => encoded
  }

  /** The first terminal status and the first failure reason are kept. */
  function Closing(m: Meta, status: Status, failure: Option<string>): Meta {
    var m1 := if m.status == Active then m.(status := status) else m;
    if failure.Some? && m.failure.None? then m1.(failure := failure) else m1
  }

  lemma RecordCounted(evidence: Data, encoded: Data, m: Meta)
    requires Agrees(evidence, m) && IsRecord(encoded)
    ensures Lines(evidence + encoded) == Lines(evidence) + 1
    ensures Agrees(evidence + encoded, m.(records := m.records + 1, bytes := m.bytes + |encoded|))
  {
    LinesAppend(evidence, encoded);
    NoNewlineNoLine(encoded[..|encoded| - 1]);
    CompleteKeepsLines(evidence);
    CompleteKeepsLines(evidence + encoded);
  }

  // ---- the operations on one session ----

  /** `_write_metadata_locked`. */
  method WriteMetadata(s: Session, m: Meta, fault: MetaFault, metaSize: MetaSize) returns (ok: bool, after: Session)
    ensures ok == (fault == Stored)
    ensures after == s.(dir := after.dir, metadataSize := after.metadataSize)
    ensures after.dir == if fault == BeforeReplace then s.dir else s.dir.(meta := m)
    ensures after.metadataSize == if ok then metaSize(m) else s.metadataSize
  {
    after := s;
    if fault == BeforeReplace {
      return false, after;
    }
    after := after.(dir := after.dir.(meta := m));
    if fault == AfterReplace {
      return false, after;
    }
    after := after.(metadataSize := metaSize(m));
    ok := true;
  }

  /** `append`: the record reaches the file first, then the counters, then now and then a checkpoint. */
  method AppendRecord(s: Session, encoded: Data, fault: AppendFault, metaSize: MetaSize)
    returns (io: Io, after: Session)
    requires Sound(s) && IsRecord(encoded)
    ensures Sound(after)
    ensures io == Done || io == OsError || io == AlreadyFinished
    ensures io == AlreadyFinished <==> s.meta.status != Active
    ensures io == AlreadyFinished ==> after == s
    ensures io != AlreadyFinished ==>
      after.dir.evidence == s.dir.evidence + Written(encoded, fault) && after.dir.partial == s.dir.partial
    ensures after.meta.status == s.meta.status && after.dir.meta.status in {s.dir.meta.status, s.meta.status}
    ensures io == Done ==> Written(encoded, fault) == encoded
    ensures io == Done ==>
      after.meta == s.meta.(records := s.meta.records + 1, bytes := s.meta.bytes + |encoded|) &&
      after.pending == (s.pending + 1) % 64 &&
      after.dir.meta == (if s.pending + 1 == 64 then after.meta else s.dir.meta)
    ensures io == Done && Exact(s, metaSize) ==> Exact(after, metaSize)
    ensures fault == NoFault ==> io != OsError
    ensures io == OsError && !fault.CheckpointFails? ==> after == s.(dir := after.dir) && after.dir.meta == s.dir.meta
    ensures io == OsError ==> after.pending == s.pending && after.metadataSize == s.metadataSize
  {
    if s.meta.status != Active {
      return AlreadyFinished, s;
    }
    var written := Written(encoded, fault);
    RecordCounted(s.dir.evidence, encoded, s.meta);
    AgreesGrows(s.dir.evidence, written, s.meta);
    AgreesGrows(s.dir.evidence, written, s.dir.meta);
    after := s.(dir := s.dir.(evidence := s.dir.evidence + written));
    if fault.OpenFails? || fault.WriteStops? {
      return OsError, after;
    }
    var m := s.meta.(records := s.meta.records + 1, bytes := s.meta.bytes + |encoded|);
    after := after.(evidenceSize := |after.dir.evidence|, meta := m);
    var count := s.pending + 1;
    if count >= CHECKPOINT_RECORDS {
      var ok: bool;
      ok, after := WriteMetadata(after, m, if fault.CheckpointFails? then fault.fault else Stored, metaSize);
      if !ok {
        return OsError, after;
      }
      count := 0;
    }
    after := after.(pending := count);
    io := Done;
  }

  /** What `finish` makes of its session, whose new status is stored or not. */
  ghost predicate ClosedFrom(
    before: Session, after: Session, status: Status, failure: Option<string>, stored: bool, metaSize: MetaSize)
  {
    after.dir.evidence == before.dir.evidence && after.dir.partial == before.dir.partial &&
    after.meta.status == (if stored && before.meta.status == Active then status else before.meta.status) &&
    after.meta.failure == (if stored && before.meta.failure.None? then failure else before.meta.failure) &&
    after.meta == before.meta.(status := after.meta.status, failure := after.meta.failure) &&
    (after.meta != before.meta ==> after.dir.meta == after.meta) &&
    (stored && Exact(before, metaSize) ==> Exact(after, metaSize) && after.dir.meta == after.meta)
  }

  /** `finish`, before the retention pass that follows it: one metadata write, if there is anything to say. */
  method FinishSession(s: Session, status: Status, failure: Option<string>, fault: MetaFault, metaSize: MetaSize)
    returns (ok: bool, after: Session)
    requires Sound(s) && status in {Completed, Cancelled, Failed}
    ensures Sound(after) && ClosedFrom(s, after, status, failure, ok, metaSize)
    ensures fault == Stored ==> ok
    ensures ok && s.meta.status == Active ==> fault == Stored
    ensures ok ==> after.meta.status != Active && after.pending == 0
    ensures !ok ==> after == s.(dir := after.dir) &&
                    after.dir.meta in {s.dir.meta, Closing(s.meta, status, failure)}
  {
    after := s;
    var m := s.meta;
    var changed := false;
    if m.status == Active {
      m := m.(status := status);
      changed := true;
    }
    if failure.Some? && m.failure.None? {
      m := m.(failure := failure);
      changed := true;
    }
    if changed || s.pending > 0 {
      ok, after := WriteMetadata(s, m, fault, metaSize);
      if !ok {
        return;
      }
      after := after.(meta := m, pending := 0);
    }
    ok := true;
  }

  /** A session as startup loads it from the files a crash left. */
  function Loaded(found: Dir, metaSize: MetaSize): Session {
    var d := Recovered(found);
    Session(d, d.meta, |d.evidence|, metaSize(d.meta), 0)
  }

  /** After a restart everything is exact, whatever failures came before: in the store, or in earlier restarts. */
  lemma RestartIsExact(left: Dir, crashes: seq<CrashPoint>, metaSize: MetaSize)
    requires Agrees(left.evidence, left.meta)
    ensures var s := Loaded(CrashesAt(left, crashes), metaSize);
      Exact(s, metaSize) && Sound(s) && s.meta.status != Active &&
      s.meta.records == Lines(left.evidence) && s.dir.evidence == Complete(left.evidence)
  {
    CrashesInsideRecovery(left, crashes);
    RecoveryCountsExactly(CrashesAt(left, crashes));
    CompleteKeepsLines(left.evidence);
  }

  /** `_load_and_recover_locked`, over every readable session directory. */
  method LoadAndRecover(found: map<Id, Dir>, metaSize: MetaSize) returns (loaded: map<Id, Session>)
    ensures loaded.Keys == found.Keys && forall id :: id in found ==> loaded[id] == Loaded(found[id], metaSize)
  {
    loaded := map[];
    var ids := found.Keys;
    while ids != {}
      invariant ids <= found.Keys && loaded.Keys == found.Keys - ids
      invariant forall id :: id in loaded ==> loaded[id] == Loaded(found[id], metaSize)
      decreases |ids|
    {
      var id :| id in ids;
      var dir, m := RecoverSession(found[id], CHUNK_BYTES);
      loaded := loaded[id := Session(dir, m, |dir.evidence|, metaSize(m), 0)];
      ids := ids - {id};
    }
  }

  /** Directories without readable metadata: their sizes and times. */
  type Unreadable = map<Id, (nat, int)>

  /** What the retention pass reads of one stored session, from the caches alone. */
  function ObjOf(sessions: map<Id, Session>, invalid: Unreadable, id: Id): Obj
    requires id in sessions || id in invalid
  {
    if id in sessions then
      var s := sessions[id];
      Obj(id, s.evidenceSize + s.metadataSize + s.meta.recoveredPartial, s.meta.created, s.meta.status == Active)
    else Obj(id, invalid[id].0, invalid[id].1, false)
  }

  /** A list of the stored sessions with these ids, each once. */
  ghost predicate Lists(sessions: map<Id, Session>, invalid: Unreadable, objects: seq<Obj>, ids: set<Id>) {
    ids <= sessions.Keys + invalid.Keys && DistinctIds(objects) &&
    (forall o :: o in objects ==> o.id in ids && o == ObjOf(sessions, invalid, o.id)) &&
    (forall id :: id in ids ==> ObjOf(sessions, invalid, id) in objects)
  }

  /** A list of every stored session. */
  ghost predicate ListsAll(sessions: map<Id, Session>, invalid: Unreadable, objects: seq<Obj>) {
    Lists(sessions, invalid, objects, sessions.Keys + invalid.Keys)
  }

  /** What is left of the list lists what is left of the store. */
  lemma LeftIsListed(sessions: map<Id, Session>, invalid: Unreadable, objects: seq<Obj>, gone: set<Id>)
    requires ListsAll(sessions, invalid, objects)
    ensures ListsAll(sessions - gone, invalid - gone, Left(objects, gone))
  {
    LeftMembers(objects, gone);
    FilterDistinct(objects, (o: Obj) => o.id !in gone);
  }

  /** The store is within both its bounds, or every finished session left is being downloaded. */
  ghost predicate StoreWithin(
    sessions: map<Id, Session>, invalid: Unreadable, limits: Limits, leased: set<Id>)
  {
    forall objects :: ListsAll(sessions, invalid, objects) ==> ListWithin(objects, limits, leased)
  }

  /** Any list of the stored sessions is as good as another. */
  lemma OneListIsEnough(
    sessions: map<Id, Session>, invalid: Unreadable, objects: seq<Obj>, limits: Limits, leased: set<Id>)
    requires ListsAll(sessions, invalid, objects) && ListWithin(objects, limits, leased)
    ensures StoreWithin(sessions, invalid, limits, leased)
  {
    forall others | ListsAll(sessions, invalid, others)
      ensures ListWithin(others, limits, leased)
    {
      forall o
        ensures o in others <==> o in objects
      {
        assert o in others ==> ObjOf(sessions, invalid, o.id) in objects;
        assert o in objects ==> ObjOf(sessions, invalid, o.id) in others;
      }
      SameSessions(others, objects);
    }
  }

  /** Bytes and sessions are within their limits, or every finished session is leased. */
  ghost predicate ListWithin(objects: seq<Obj>, limits: Limits, leased: set<Id>) {
    (Sum(objects) <= limits.bytes && |objects| <= limits.sessions) ||
    forall o :: o in objects && !o.active ==> o.id in leased
  }

  /** What a pass over a list removes, and leaves. */
  lemma PassOver(objects: seq<Obj>, limits: Limits, leased: set<Id>, blocked: set<Id>)
    requires DistinctIds(objects)
    ensures var removed := Purge(Candidates(objects), Sum(objects), |objects|, limits, leased, blocked);
      (forall o :: o in removed ==> o in objects && !o.active && o.id !in leased) &&
      (blocked == {} ==> ListWithin(Left(objects, Ids(removed)), limits, leased))
  {
    PurgedAreFinished(objects, Sum(objects), |objects|, limits, leased, blocked);
    if blocked == {} {
      PassGuarantees(objects, limits, leased);
    }
  }

  class SessionStore {
    const limits: Limits
    const metaSize: MetaSize

    var sessions: map<Id, Session>
    var invalid: Unreadable
    var leases: map<Id, nat>
    ghost var downloads: multiset<Id>

    ghost predicate Valid()
      reads this
    {
      invalid.Keys !! sessions.Keys &&
      (forall id :: id in sessions ==> Sound(sessions[id])) &&
      (forall id :: downloads[id] == if id in leases then leases[id] else 0) &&
      (forall id :: id in leases ==> leases[id] > 0)
    }

    /** Startup: every readable session directory is recovered. Its last step is `EnforceRetention`. */
    constructor (limits: Limits, metaSize: MetaSize, found: map<Id, Dir>, invalid: Unreadable)
      requires found.Keys !! invalid.Keys
      requires forall id :: id in found ==> Agrees(found[id].evidence, found[id].meta)
      ensures Valid() && this.limits == limits && this.metaSize == metaSize
      ensures this.invalid == invalid && leases == map[]
      ensures sessions.Keys == found.Keys && forall id :: id in found ==> sessions[id] == Loaded(found[id], metaSize)
    {
      this.limits, this.metaSize, this.invalid := limits, metaSize, invalid;
      leases, downloads := map[], multiset{};
      var loaded := LoadAndRecover(found, metaSize);
      forall id | id in found
        ensures Sound(loaded[id])
      {
        RestartIsExact(found[id], [], metaSize);
      }
      sessions := loaded;
    }

    /** `create_recorder`: a new active session, or none; some failures leave a directory without metadata behind. */
    method Create(id: Id, created: int, fault: CreateFault) returns (ok: bool)
      requires Valid() && id !in sessions && id !in invalid
      modifies this`sessions, this`invalid
      ensures Valid() && ok == (fault == Created)
      ensures ok ==> invalid == old(invalid) && id in sessions && sessions == old(sessions)[id := sessions[id]]
      ensures ok ==> Exact(sessions[id], metaSize) && sessions[id].meta == Meta(Active, created, 0, 0, None, 0)
      ensures !ok ==> sessions == old(sessions) && invalid.Keys - {id} == old(invalid).Keys
      ensures id in invalid <==> fault == BeforeMetadata || (fault.NoMetadata? && fault.cleanupFails)
    {
      var m := Meta(Active, created, 0, 0, None, 0);
      if fault == NoDirectory {
        return false;
      }
      if fault == BeforeMetadata {
        invalid := invalid[id := (0, created)];
        return false;
      }
      var meta := if fault == Created then Stored else if fault.replaced then AfterReplace else BeforeReplace;
      var s: Session;
      ok, s := WriteMetadata(Session(Dir([], [], m), m, 0, 0, 0), m, meta, metaSize);
      if ok {
        sessions := sessions[id := s];
      } else if fault.cleanupFails {
        invalid := invalid[id := (if fault.replaced then metaSize(m) else 0, created)];
      }
    }

    method Append(id: Id, encoded: Data, fault: AppendFault) returns (io: Io)
      requires Valid() && IsRecord(encoded)
      modifies this`sessions
      ensures Valid()
      ensures io == UnknownSession <==> id !in old(sessions)
      ensures io == AlreadyFinished <==> id in old(sessions) && old(sessions[id]).meta.status != Active
      ensures io == AlreadyFinished || io == UnknownSession ==> sessions == old(sessions)
      ensures id in old(sessions) ==> id in sessions && sessions == old(sessions)[id := sessions[id]]
      ensures io == Done || io == OsError ==>
        sessions[id].meta.status == Active && sessions[id].dir.partial == old(sessions[id]).dir.partial &&
        sessions[id].dir.evidence == old(sessions[id]).dir.evidence + Written(encoded, fault)
      ensures io == Done ==> Written(encoded, fault) == encoded
      ensures io == Done ==>
        sessions[id].meta == old(sessions[id]).meta.(
          records := old(sessions[id]).meta.records + 1, bytes := old(sessions[id]).meta.bytes + |encoded|)
      ensures io == Done && Exact(old(sessions[id]), metaSize) ==> Exact(sessions[id], metaSize)
      ensures fault == NoFault ==> io != OsError
    {
      if id !in sessions {
        return UnknownSession;
      }
      var s: Session;
      io, s := AppendRecord(sessions[id], encoded, fault, metaSize);
      assert io == AlreadyFinished ==> sessions[id := s] == sessions;
      sessions := sessions[id := s];
    }

    /** `_storage_objects_locked`. */
    method StorageObjects() returns (objects: seq<Obj>)
      ensures ListsAll(sessions, invalid, objects)
      ensures forall o :: o in objects && o.id in sessions ==>
        var s := sessions[o.id];
        o.bytes == s.evidenceSize + s.metadataSize + s.meta.recoveredPartial &&
        o.order == s.meta.created && (o.active <==> s.meta.status == Active)
      ensures forall o :: o in objects && o.id in invalid && o.id !in sessions ==>
        o.bytes == invalid[o.id].0 && o.order == invalid[o.id].1 && !o.active
    {
      objects := [];
      var ids := sessions.Keys + invalid.Keys;
      while ids != {}
        invariant ids <= sessions.Keys + invalid.Keys
        invariant Lists(sessions, invalid, objects, sessions.Keys + invalid.Keys - ids)
        decreases |ids|
      {
        var id :| id in ids;
        objects := objects + [ObjOf(sessions, invalid, id)];
        ids := ids - {id};
      }
    }

    /**
     `enforce_retention`: one pass over the stored sessions. `blocked` names the
     directories whose deletion fails. The pass removes exactly what Purge says.
     */
    method EnforceRetention(blocked: set<Id>, flushFails: bool) returns (io: Io, objects: seq<Obj>, removed: seq<Obj>)
      requires Valid()
      modifies this`sessions, this`invalid
      ensures Valid()
      ensures ListsAll(old(sessions), old(invalid), objects)
      ensures removed == Purge(Candidates(objects), Sum(objects), |objects|, limits, leases.Keys, blocked)
      ensures forall o :: o in removed ==> o in objects && !o.active && o.id !in leases
      ensures blocked == {} ==> WithinLimits()
      ensures sessions == old(sessions) - Ids(removed) && invalid == old(invalid) - Ids(removed)
      ensures io == if flushFails && removed != [] then OsError else Done
    {
      objects := StorageObjects();
      var total, count: int;
      removed, total, count := PurgePass(Candidates(objects), Sum(objects), |objects|, limits, leases.Keys, blocked);
      PassOver(objects, limits, leases.Keys, blocked);
      Remove(objects, removed, blocked == {});
      io := if flushFails && removed != [] then OsError else Done;
    }

    /** The removed sessions go. */
    method Remove(ghost objects: seq<Obj>, removed: seq<Obj>, ghost within: bool)
      requires Valid() && ListsAll(sessions, invalid, objects)
      requires within ==> ListWithin(Left(objects, Ids(removed)), limits, leases.Keys)
      modifies this`sessions, this`invalid
      ensures Valid() && sessions == old(sessions) - Ids(removed) && invalid == old(invalid) - Ids(removed)
      ensures within ==> WithinLimits()
    {
      LeftIsListed(sessions, invalid, objects, Ids(removed));
      sessions, invalid := sessions - Ids(removed), invalid - Ids(removed);
      if within {
        OneListIsEnough(sessions, invalid, Left(objects, Ids(removed)), limits, leases.Keys);
      }
    }

    ghost predicate WithinLimits()
      reads this
    {
      StoreWithin(sessions, invalid, limits, leases.Keys)
    }

    /** Retention may have removed finished sessions without an open download, and nothing else. */
    twostate predicate OnlyFinishedRemoved(id: Id)
      reads this
    {
      forall x :: x in old(sessions) && x !in sessions ==>
        x !in old(leases) && (x == id || old(sessions[x]).meta.status != Active)
    }

    /** `finish`: store the terminal status, then enforce retention, which may remove finished sessions. */
    method Finish(id: Id, status: Status, failure: Option<string>, fault: MetaFault, blocked: set<Id>, flushFails: bool)
      returns (io: Io, ghost stored: bool)
      requires Valid() && status in {Completed, Cancelled, Failed}
      modifies this`sessions, this`invalid
      ensures Valid()
      ensures io == UnknownSession <==> id !in old(sessions)
      ensures io != AlreadyFinished && (io == Done ==> stored) && (stored ==> id in old(sessions))
      ensures id in old(sessions) && fault == Stored ==> stored
      ensures stored && old(sessions[id]).meta.status == Active ==> fault == Stored
      ensures !stored ==> sessions.Keys == old(sessions).Keys
      ensures OnlyFinishedRemoved(id)
      ensures stored ==> (blocked == {} ==> WithinLimits()) && (io == OsError ==> flushFails)
      ensures forall x :: x in sessions ==> x in old(sessions) && (x != id ==> sessions[x] == old(sessions[x]))
      ensures id in sessions ==> ClosedFrom(old(sessions[id]), sessions[id], status, failure, stored, metaSize)
    {
      stored := false;
      if id !in sessions {
        return UnknownSession, stored;
      }
      var ok := StoreStatus(id, status, failure, fault);
      stored := ok;
      if !ok {
        return OsError, stored;
      }
      io := KeepWithinLimits(blocked, flushFails);
    }

    /** `finish`, up to its retention pass. */
    method StoreStatus(id: Id, status: Status, failure: Option<string>, fault: MetaFault) returns (ok: bool)
      requires Valid() && id in sessions && status in {Completed, Cancelled, Failed}
      modifies this`sessions
      ensures Valid() && sessions.Keys == old(sessions).Keys && (fault == Stored ==> ok)
      ensures ok && old(sessions[id]).meta.status == Active ==> fault == Stored
      ensures forall x :: x in sessions && x != id ==> sessions[x] == old(sessions[x])
      ensures ClosedFrom(old(sessions[id]), sessions[id], status, failure, ok, metaSize)
    {
      var s: Session;
      ok, s := FinishSession(sessions[id], status, failure, fault, metaSize);
      sessions := sessions[id := s];
      assert sessions == old(sessions)[id := s] && Sound(s);
    }

    /** `enforce_retention`, as the other methods use it. */
    method KeepWithinLimits(blocked: set<Id>, flushFails: bool) returns (io: Io)
      requires Valid()
      modifies this`sessions, this`invalid
      ensures Valid() && (io == Done || io == OsError) && (io == OsError ==> flushFails)
      ensures blocked == {} ==> WithinLimits()
      ensures forall x :: x in sessions ==> x in old(sessions) && sessions[x] == old(sessions[x])
      ensures forall x :: x in old(sessions) && x !in sessions ==>
        x !in leases && old(sessions[x]).meta.status != Active
    {
      var objects: seq<Obj>, removed: seq<Obj>;
      io, objects, removed := EnforceRetention(blocked, flushFails);
      PurgedAreFinished(objects, Sum(objects), |objects|, limits, leases.Keys, blocked);
    }

    /**
     `lease_evidence`, on entry: a download of stored evidence holds a lease on its session.
     `regular` says whether the evidence path is a regular file that can be opened.
     */
    method OpenDownload(id: Id, regular: bool) returns (found: bool)
      requires Valid()
      modifies this`leases, this`downloads
      ensures Valid() && found == (id in sessions && regular)
      ensures downloads == if found then old(downloads) + multiset{id} else old(downloads)
    {
      if id !in sessions || !regular {
        return false;
      }
      leases := leases[id := (if id in leases then leases[id] else 0) + 1];
      downloads := downloads + multiset{id};
      return true;
    }

    /** `lease_evidence`, on exit: the last download of a session gives it back to retention. */
    method CloseDownload(id: Id, blocked: set<Id>, flushFails: bool) returns (io: Io)
      requires Valid() && id in downloads
      modifies this`leases, this`downloads, this`sessions, this`invalid
      ensures Valid() && downloads == old(downloads) - multiset{id}
      ensures blocked == {} ==> WithinLimits()
      ensures forall x :: x in old(sessions) && x !in sessions ==>
        x !in downloads && old(sessions[x]).meta.status != Active
    {
      var remaining := (if id in leases then leases[id] else 1) - 1;
      if remaining > 0 {
        leases := leases[id := remaining];
      } else {
        leases := leases - {id};
      }
      downloads := downloads - multiset{id};
      io := KeepWithinLimits(blocked, flushFails);
    }
  }
}
