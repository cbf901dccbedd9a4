/** Evidence files as bytes: complete lines, a possible torn tail, and chunked reading. */
module Bytes {
  import opened Common

  type Byte = b: int | 0 <= b < 256

  type Data = seq<Byte>

  const NEWLINE: Byte := 10

  /** How many complete lines a file holds. */
  function Lines(s: Data): nat {
    if s == [] then 0 else Lines(s[..|s| - 1]) + (if s[|s| - 1] == NEWLINE then 1 else 0)
  }

  /** One past the last newline, or 0. */
  function CompleteEnd(s: Data): (end: nat)
    ensures end <= |s|
    ensures end == 0 || s[end - 1] == NEWLINE
    ensures NEWLINE !in s[end..]
  {
    if s == [] then 0 else if s[|s| - 1] == NEWLINE then |s| else CompleteEnd(s[..|s| - 1])
  }

  /** The longest newline-terminated prefix. */
  function Complete(s: Data): Data {
    s[..CompleteEnd(s)]
  }

  /** The bytes after it. */
  function Tail(s: Data): Data {
    s[CompleteEnd(s)..]
  }

  lemma EndIsUnique(s: Data, end: nat)
    requires end <= |s| && (end == 0 || s[end - 1] == NEWLINE) && NEWLINE !in s[end..]
    ensures end == CompleteEnd(s)
  {
    var e := CompleteEnd(s);
    forall a, i | 0 <= a <= i < |s| && s[i] == NEWLINE
      ensures NEWLINE in s[a..]
    {
      assert s[a..][i - a] == NEWLINE;
    }
  }

  lemma {:induction false} LinesAppend(a: Data, b: Data)
    ensures Lines(a + b) == Lines(a) + Lines(b)
  {
    if b == [] {
      assert a + b == a;
    } else {
      LinesAppend(a, b[..|b| - 1]);
      assert (a + b)[..|a + b| - 1] == a + b[..|b| - 1];
    }
  }

  lemma {:induction false} NoNewlineNoLine(s: Data)
    requires NEWLINE !in s
    ensures Lines(s) == 0
  {
    if s == [] {
    } else {
      NoNewlineNoLine(s[..|s| - 1]);
    }
  }

  /** The encoding of one record: a line, with its one newline at the end. */
  ghost predicate IsRecord(e: Data) {
    e != [] && e[|e| - 1] == NEWLINE && NEWLINE !in e[..|e| - 1]
  }

  /** A file of whole lines. */
  ghost predicate Whole(s: Data) {
    s == [] || s[|s| - 1] == NEWLINE
  }

  /** Whatever part of a record reached the disk after whole lines, only a complete record survives recovery. */
  lemma PartialRecord(whole: Data, e: Data, k: nat)
    requires Whole(whole) && IsRecord(e) && k <= |e|
    ensures Complete(whole + e[..k]) == whole + (if k == |e| then e else [])
    ensures Tail(whole + e[..k]) == (if k == |e| then [] else e[..k])
    ensures Lines(whole + e[..k]) == Lines(whole) + (if k == |e| then 1 else 0)
  {
    var s := whole + e[..k];
    LinesAppend(whole, e[..k]);
    if k == |e| {
      assert e[..k] == e;
      NoNewlineNoLine(e[..|e| - 1]);
      EndIsUnique(s, |s|);
    } else {
      assert forall b :: b in e[..k] ==> b in e[..|e| - 1];
      NoNewlineNoLine(e[..k]);
      assert s[|whole|..] == e[..k];
      EndIsUnique(s, |whole|);
    }
  }

  /** A file and its complete part have the same lines. */
  lemma CompleteKeepsLines(s: Data)
    ensures Lines(Complete(s)) == Lines(s)
    ensures Whole(Complete(s)) && Complete(s) + Tail(s) == s
    ensures Complete(Complete(s)) == Complete(s)
    ensures Whole(s) ==> Complete(s) == s
  {
    assert s == Complete(s) + Tail(s);
    LinesAppend(Complete(s), Tail(s));
    NoNewlineNoLine(Tail(s));
    EndIsUnique(Complete(s), |Complete(s)|);
    if Whole(s) {
      EndIsUnique(s, |s|);
    }
  }

  /** Appending bytes keeps the complete lines, and makes more of them exactly when a newline comes with it. */
  lemma CompleteGrows(s: Data, more: Data)
    ensures |Complete(s + more)| >= |Complete(s)| && Lines(s + more) >= Lines(s)
    ensures if NEWLINE in more then |Complete(s + more)| > |s| else Complete(s + more) == Complete(s)
    ensures NEWLINE !in more ==> Lines(s + more) == Lines(s)
  {
    LinesAppend(s, more);
    if NEWLINE in more {
      var end := |s| + CompleteEnd(more);
      assert (s + more)[end..] == more[CompleteEnd(more)..];
      EndIsUnique(s + more, end);
    } else {
      NoNewlineNoLine(more);
      var end := CompleteEnd(s);
      assert (s + more)[end..] == s[end..] + more;
      EndIsUnique(s + more, end);
    }
  }

  // ---- the chunk loops ----

  /** `bytes.rfind(b"\n")`. */
  function RFind(s: Data): int {
    if s == [] then -1 else if s[|s| - 1] == NEWLINE then |s| - 1 else RFind(s[..|s| - 1])
  }

  lemma {:induction false} RFindIsEnd(s: Data)
    ensures RFind(s) + 1 == CompleteEnd(s)
  {
    if s == [] || s[|s| - 1] == NEWLINE {
    } else {
      RFindIsEnd(s[..|s| - 1]);
    }
  }

  /** The last newline of a chunk is the last of the stream when none follows the chunk. */
  lemma {:induction false} ChunkDecides(stream: Data, start: nat, position: nat)
    requires start <= position <= |stream| && NEWLINE !in stream[position..]
    ensures var newline := RFind(stream[start..position]);
      if newline >= 0 then start + newline + 1 == CompleteEnd(stream) else NEWLINE !in stream[start..]
  {
    var chunk := stream[start..position];
    RFindIsEnd(chunk);
    var end := CompleteEnd(chunk);
    assert stream[start + end..] == chunk[end..] + stream[position..];
    if end > 0 {
      assert stream[start + end - 1] == chunk[end - 1];
      EndIsUnique(stream, start + end);
    }
  }

  /** `_last_complete_record_end`: search backward, one chunk at a time, for the last newline. */
  method LastCompleteRecordEnd(stream: Data, chunkBytes: nat) returns (end: nat)
    requires chunkBytes > 0
    ensures end == CompleteEnd(stream)
  {
    var position := |stream|;
    while position > 0
      invariant 0 <= position <= |stream| && NEWLINE !in stream[position..]
    {
      var start := Max(0, position - chunkBytes);
      var newline := RFind(stream[start..position]);
      ChunkDecides(stream, start, position);
      if newline >= 0 {
        return start + newline + 1;
      }
      position := start;
    }
    EndIsUnique(stream, 0);
    return 0;
  }

  /** `_scan_evidence_locked`: count newlines and bytes, one chunk at a time. */
  method ScanEvidence(stream: Data, chunkBytes: nat) returns (records: nat, size: nat)
    requires chunkBytes > 0
    ensures records == Lines(stream) && size == |stream|
  {
    records, size := 0, 0;
    while size < |stream|
      invariant size <= |stream| && records == Lines(stream[..size])
    {
      var chunk := stream[size..Min(size + chunkBytes, |stream|)];
      LinesAppend(stream[..size], chunk);
      assert stream[..size] + chunk == stream[..size + |chunk|];
      records := records + Lines(chunk);
      size := size + |chunk|;
    }
    assert stream[..|stream|] == stream;
  }
}
