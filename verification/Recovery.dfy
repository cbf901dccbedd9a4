/** One session directory, and what startup makes of whatever a crash left in it. */
module Recovery {
  import opened Common
  import opened Bytes

  datatype Status = Active | Completed | Cancelled | Failed | Interrupted

  datatype Meta = Meta(
    status: Status,
    created: int,
    records: nat,
    bytes: nat,
    failure: Option<string>,
    recoveredPartial: nat)

  /** The files of a session: evidence.jsonl, evidence.partial and metadata.json. */
  datatype Dir = Dir(evidence: Data, partial: Data, meta: Meta)

  predicate Torn(s: Data) {
    s != [] && s[|s| - 1] != NEWLINE
  }

  /** Counters that lag behind the complete lines, but are exact whenever their byte count is that of those lines. */
  ghost predicate Agrees(evidence: Data, m: Meta) {
    m.bytes <= |Complete(evidence)| && (m.bytes == |Complete(evidence)| ==> m.records == Lines(evidence))
  }

  lemma AgreesGrows(evidence: Data, more: Data, m: Meta)
    requires Agrees(evidence, m)
    ensures Agrees(evidence + more, m)
  {
    CompleteGrows(evidence, more);
  }

  /** The state of the directory after startup has loaded and recovered it. */
  function Recovered(d: Dir): Dir {
    var evidence := Complete(d.evidence);
    var m := d.meta;
    var m1 := if Torn(d.evidence) then m.(recoveredPartial := |Tail(d.evidence)|) else m;
    var m2 :=
      if m.status == Active || Torn(d.evidence) || m.bytes != |evidence|
      then m1.(records := Lines(evidence), bytes := |evidence|) else m1;
    var m3 := if m.status == Active then m2.(status := Interrupted) else m2;
    Dir(evidence, if Torn(d.evidence) then Tail(d.evidence) else d.partial, m3)
  }

  /** `_repair_partial_tail_locked`: copy the tail aside, then cut it off. */
  method RepairPartialTail(d: Dir, chunkBytes: nat) returns (changed: bool, repaired: Dir)
    requires chunkBytes > 0
    ensures changed == Torn(d.evidence)
    ensures repaired.evidence == Complete(d.evidence)
    ensures repaired.partial == if changed then Tail(d.evidence) else d.partial
    ensures repaired.meta == if changed then d.meta.(recoveredPartial := |Tail(d.evidence)|) else d.meta
  {
    CompleteKeepsLines(d.evidence);
    var size := |d.evidence|;
    if size == 0 || d.evidence[size - 1] == NEWLINE {
      return false, d;
    }
    var validSize := LastCompleteRecordEnd(d.evidence, chunkBytes);
    var partial: Data := [];
    var position := validSize;
    while position < size
      invariant validSize <= position <= size && partial == d.evidence[validSize..position]
    {
      var chunk := d.evidence[position..Min(position + chunkBytes, size)];
      partial := partial + chunk;
      position := position + |chunk|;
    }
    changed := true;
    repaired := Dir(d.evidence[..validSize], partial, d.meta.(recoveredPartial := size - validSize));
  }

  /** `_load_and_recover_locked`, for one readable session directory. */
  method RecoverSession(d: Dir, chunkBytes: nat) returns (after: Dir, metadata: Meta)
    requires chunkBytes > 0
    ensures after == Recovered(d) && metadata == after.meta
  {
    var evidenceChanged, repaired := RepairPartialTail(d, chunkBytes);
    CompleteKeepsLines(d.evidence);
    metadata := repaired.meta;
    var metadataChanged := false;
    if metadata.status == Active || evidenceChanged || metadata.bytes != |repaired.evidence| {
      var records, size := ScanEvidence(repaired.evidence, chunkBytes);
      metadataChanged := metadata.records != records || metadata.bytes != size;
      metadata := metadata.(records := records, bytes := size);
    }
    if metadata.status == Active {
      metadata := metadata.(status := Interrupted);
      metadataChanged := true;
    }
    after := repaired.(meta := d.meta);
    if metadataChanged || evidenceChanged {
      after := after.(meta := metadata);
    }
  }

  // ---- what recovery guarantees ----

  /** Only whole lines are kept, and nothing is lost: evidence and quarantine together are the old bytes. */
  lemma RecoveryKeepsBytes(d: Dir)
    ensures Whole(Recovered(d).evidence) && Lines(Recovered(d).evidence) == Lines(d.evidence)
    ensures Recovered(d).evidence + Tail(d.evidence) == d.evidence
    ensures Torn(d.evidence) <==> Tail(d.evidence) != []
    ensures Torn(d.evidence) ==> Recovered(d).partial == Tail(d.evidence)
    ensures !Torn(d.evidence) ==> Recovered(d).evidence == d.evidence && Recovered(d).partial == d.partial
  {
    CompleteKeepsLines(d.evidence);
  }

  /** The counters name the lines and the bytes of the evidence. */
  predicate Counted(d: Dir) {
    d.meta.records == Lines(d.evidence) && d.meta.bytes == |d.evidence|
  }

  /**
   The recovered counters are exact unless a finished session's untorn file has a byte count
   that is right beside a record count that is wrong, and no session stays active.
   */
  lemma RecoveryCountsExactly(d: Dir)
    ensures Counted(Recovered(d)) <==>
      (d.meta.status != Active && !Torn(d.evidence) && d.meta.bytes == |d.evidence| ==>
        d.meta.records == Lines(d.evidence))
    ensures Agrees(d.evidence, d.meta) ==> Counted(Recovered(d))
    ensures var r := Recovered(d);
      r.meta.status == (if d.meta.status == Active then Interrupted else d.meta.status) &&
      r.meta.failure == d.meta.failure
  {
    CompleteKeepsLines(d.evidence);
  }

  /** A second recovery changes nothing. */
  lemma RecoveryIsIdempotent(d: Dir)
    ensures Recovered(Recovered(d)) == Recovered(d)
  {
    CompleteKeepsLines(d.evidence);
  }

  /** The quarantine is accounted for exactly when the tail was torn now, or was accounted for before. */
  lemma QuarantineAccountedIff(d: Dir)
    ensures |Recovered(d).partial| == Recovered(d).meta.recoveredPartial <==>
      Torn(d.evidence) || |d.partial| == d.meta.recoveredPartial
  {
  }

  // ---- crashes inside recovery ----

  /** Where startup dies: while it copies the tail, after the cut, or after its metadata write. */
  datatype CrashPoint = InCopy(copied: nat) | AfterCut | AfterWrite

  /** The directory that a crash inside recovery leaves; an untorn file is neither copied nor cut. */
  function CrashAt(d: Dir, at: CrashPoint): Dir {
    match at
    case InCopy(copied) =>
      if Torn(d.evidence) then d.(partial := Tail(d.evidence)[..Min(copied, |Tail(d.evidence)|)]) else d
    case AfterCut => if Torn(d.evidence) then CutShort(d) else d
    case AfterWrite => Recovered(d)
  }

  /** After the cut and before the metadata is written. */
  function CutShort(d: Dir): Dir {
    Dir(Complete(d.evidence), Tail(d.evidence), d.meta)
  }

  /** The directory after any number of startups that all died. */
  function CrashesAt(d: Dir, crashes: seq<CrashPoint>): Dir
    decreases |crashes|
  {
    if crashes == [] then d else CrashesAt(CrashAt(d, crashes[0]), crashes[1..])
  }

  /** Of the startups that cut or wrote anything, did the first die before it wrote the size of the tail? */
  predicate SizeLost(crashes: seq<CrashPoint>) {
    crashes != [] && (crashes[0].AfterCut? || (crashes[0].InCopy? && SizeLost(crashes[1..])))
  }

  /** The two differ at most in the size they note for the quarantine. */
  predicate SameButSize(d: Dir, other: Dir) {
    d == other.(meta := other.meta.(recoveredPartial := d.meta.recoveredPartial))
  }

  /**
   A crash after the cut keeps the bytes, and the counters are exact afterwards; but the
   size of the quarantine is never written: it is right only if it already named this tail.
   */
  lemma CrashInsideRecovery(d: Dir)
    requires Torn(d.evidence) && Agrees(d.evidence, d.meta)
    ensures var r := Recovered(CutShort(d));
      SameButSize(r, Recovered(d)) && Agrees(CutShort(d).evidence, d.meta) &&
      Counted(r) &&
      (|r.partial| == r.meta.recoveredPartial <==> |Tail(d.evidence)| == d.meta.recoveredPartial)
  {
    CompleteKeepsLines(d.evidence);
  }

  lemma CrashKeepsAgreement(d: Dir, at: CrashPoint)
    requires Agrees(d.evidence, d.meta)
    ensures var c := CrashAt(d, at);
      Agrees(c.evidence, c.meta) && (Torn(c.evidence) <==> Torn(d.evidence) && at.InCopy?) &&
      SameButSize(Recovered(c), Recovered(d))
    ensures !Torn(d.evidence) || !at.AfterCut? ==> Recovered(CrashAt(d, at)) == Recovered(d)
  {
    CompleteKeepsLines(d.evidence);
    RecoveryIsIdempotent(d);
    RecoveryCountsExactly(d);
  }

  /**
   However often startup dies, and wherever: the next one that lives leaves what an undisturbed
   one would have left, except that the size of a quarantine is lost if and only if the
   file was torn, its size was not noted already, and the first death past the copy was before the write.
   */
  lemma {:induction false} CrashesInsideRecovery(d: Dir, crashes: seq<CrashPoint>)
    requires Agrees(d.evidence, d.meta)
    ensures var c := CrashesAt(d, crashes);
      Agrees(c.evidence, c.meta) && SameButSize(Recovered(c), Recovered(d)) &&
      (Recovered(c) == Recovered(d) <==>
        !Torn(d.evidence) || !SizeLost(crashes) || d.meta.recoveredPartial == |Tail(d.evidence)|)
    decreases |crashes|
  {
    if crashes == [] {
    } else {
      var next := CrashAt(d, crashes[0]);
      CrashKeepsAgreement(d, crashes[0]);
      CrashesInsideRecovery(next, crashes[1..]);
    }
  }

  /** A crash at any moment of an append, or of the metadata writes around it, loses no earlier record. */
  lemma CrashDuringAppend(whole: Data, e: Data, k: nat, d: Dir)
    requires Whole(whole) && IsRecord(e) && k <= |e|
    requires d.evidence == whole + e[..k] && Agrees(d.evidence, d.meta)
    ensures Recovered(d).evidence == whole + (if k == |e| then e else [])
    ensures Recovered(d).meta.records == Lines(whole) + (if k == |e| then 1 else 0)
    ensures Recovered(d).meta.status != Active
    ensures 0 < k < |e| ==> Recovered(d).partial == e[..k]
  {
    PartialRecord(whole, e, k);
    RecoveryCountsExactly(d);
    CompleteKeepsLines(d.evidence);
  }
}
