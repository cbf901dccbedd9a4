/**
 Annotations looked up in the bytes of a shut session's evidence. The lookup parses a last
 line without its newline too; recovery keeps only whole lines.
 */
module AnnotationRecovery {
  import opened Common
  import opened Bytes
  import opened Recovery
  import opened Sse
  import opened Annotations

  /** What a line of evidence reads as, if it reads as an annotation. */
  type Reading = Data -> Option<Annotation>

  predicate IsFor(line: Data, read: Reading, id: AnnotationId) {
    read(line).Some? && read(line).value.id == id
  }

  /** `find_annotation`: the first line that reads as an annotation with this id. */
  function FoundAt(lines: seq<Data>, read: Reading, id: AnnotationId): (i: Option<nat>)
    ensures i.Some? ==> i.value < |lines| && IsFor(lines[i.value], read, id)
    ensures i.Some? ==> forall k :: 0 <= k < i.value ==> !IsFor(lines[k], read, id)
    ensures i.None? ==> forall k :: 0 <= k < |lines| ==> !IsFor(lines[k], read, id)
  {
    if lines == [] then None
    else if IsFor(lines[0], read, id) then Some(0)
    else
      var i := FoundAt(lines[1..], read, id);
      if i.Some? then Some(i.value + 1) else None
  }

  predicate EndsLine(line: Data) {
    line != [] && line[|line| - 1] == NEWLINE
  }

  lemma {:induction false} LineEndInWhole(whole: Data, tail: Data)
    requires whole != [] && Whole(whole)
    ensures LineEnd(whole + tail) == LineEnd(whole) && whole[LineEnd(whole) - 1] == NEWLINE
    ensures Whole(whole[LineEnd(whole)..])
  {
    if whole[0] == NEWLINE {
    } else {
      assert (whole + tail)[1..] == whole[1..] + tail;
      LineEndInWhole(whole[1..], tail);
    }
  }

  lemma {:induction false} OneLine(line: Data)
    requires line != [] && NEWLINE !in line[..|line| - 1]
    ensures LineEnd(line) == |line| && SplitLines(line) == [line]
  {
    assert line[..|line|] == line && line[|line|..] == [];
  }

  /** What follows whole lines, as a line of its own if there is anything. */
  function LastLine(tail: Data): seq<Data> {
    if tail == [] then [] else [tail]
  }

  lemma {:induction false} OnlyLastLine(tail: Data)
    requires tail == [] || NEWLINE !in tail[..|tail| - 1]
    ensures SplitLines(tail) == LastLine(tail)
  {
    if tail != [] {
      OneLine(tail);
    }
  }

  lemma FirstLineThen(first: Data, rest: Data, tail: Data, last: seq<Data>)
    requires first != [] && LineEnd(first + rest) == |first| && LineEnd(first + rest + tail) == |first|
    requires SplitLines(rest + tail) == SplitLines(rest) + last
    ensures SplitLines(first + rest + tail) == SplitLines(first + rest) + last
  {
    Regroup(first, rest, tail);
    SplitFirst(first, rest);
    SplitFirst(first, rest + tail);
    Regroup([first], SplitLines(rest), last);
  }

  /** The first of whole lines, and the lines after it. */
  lemma {:induction false} FirstOfWhole(whole: Data, tail: Data) returns (first: Data, rest: Data)
    requires whole != [] && Whole(whole)
    ensures first + rest == whole && first != [] && |rest| < |whole| && Whole(rest)
    ensures LineEnd(first + rest) == |first| && LineEnd(first + rest + tail) == |first|
  {
    LineEndInWhole(whole, tail);
    first, rest := whole[..LineEnd(whole)], whole[LineEnd(whole)..];
    assert first + rest == whole;
  }

  /** A file's lines are those of its whole part, and what follows it as the last one. */
  lemma {:induction false} LinesThenTail(whole: Data, tail: Data)
    requires Whole(whole) && (tail == [] || NEWLINE !in tail[..|tail| - 1])
    ensures SplitLines(whole + tail) == SplitLines(whole) + LastLine(tail)
    decreases |whole|
  {
    if whole == [] {
      OnlyLastLine(tail);
      assert whole + tail == tail && SplitLines(whole) + LastLine(tail) == LastLine(tail);
    } else {
      var first, rest := FirstOfWhole(whole, tail);
      LinesThenTail(rest, tail);
      FirstLineThen(first, rest, tail, LastLine(tail));
    }
  }

  lemma {:induction false} WholeLinesEnd(whole: Data)
    requires Whole(whole)
    ensures forall k :: 0 <= k < |SplitLines(whole)| ==> EndsLine(SplitLines(whole)[k])
  {
    if whole == [] {
    } else {
      LineEndInWhole(whole, []);
      assert whole + [] == whole;
      WholeLinesEnd(whole[LineEnd(whole)..]);
    }
  }

  lemma FoundInOrder(first: seq<Data>, last: Data, read: Reading, id: AnnotationId)
    ensures FoundAt(first + [last], read, id) ==
      if FoundAt(first, read, id).Some? then FoundAt(first, read, id)
      else if IsFor(last, read, id) then Some(|first|) else None
  {
    var lines := first + [last];
    if first == [] {
      assert lines[0] == last && lines[1..] == [];
    } else {
      assert lines[0] == first[0] && lines[1..] == first[1..] + [last];
      FoundInOrder(first[1..], last, read, id);
    }
  }

  /**
   An annotation that is answered from shut evidence is still found after a recovery if and
   only if its line is whole; otherwise nothing is found under its id any more.
   */
  lemma AnsweredSurvivesIffWhole(d: Dir, read: Reading, id: AnnotationId)
    requires FoundAt(SplitLines(d.evidence), read, id).Some?
    ensures var lines, after := SplitLines(d.evidence), SplitLines(Recovered(d).evidence);
      var i := FoundAt(lines, read, id).value;
      if EndsLine(lines[i]) then i < |after| && FoundAt(after, read, id) == Some(i) && after[i] == lines[i]
      else FoundAt(after, read, id) == None
  {
    var whole, tail := Complete(d.evidence), Tail(d.evidence);
    CompleteKeepsLines(d.evidence);
    if tail == [] {
      assert whole == d.evidence;
      WholeLinesEnd(whole);
    } else {
      assert NEWLINE !in tail[..|tail| - 1];
      LinesThenTail(whole, tail);
      WholeLinesEnd(whole);
      FoundInOrder(SplitLines(whole), tail, read, id);
      assert !EndsLine(tail);
    }
  }

  /** A record reads as its annotation once nothing but its newline is missing, and not before. */
  ghost predicate ReadsBack(a: Annotation, encoded: Data, read: Reading) {
    IsRecord(encoded) && read(encoded) == Some(a) && read(encoded[..|encoded| - 1]) == Some(a) && |encoded| > 1 &&
    forall k :: 0 <= k < |encoded| - 1 ==> read(encoded[..k]) == None
  }

  /**
   An annotation whose append stopped after k bytes of a new id is answered as existing from
   |encoded| - 1 bytes on, and survives from |encoded| bytes on: one byte short, it is
   answered now and lost by the next recovery.
   */
  lemma OneByteShort(d: Dir, whole: Data, a: Annotation, encoded: Data, k: nat, read: Reading)
    requires Whole(whole) && ReadsBack(a, encoded, read) && k <= |encoded| && d.evidence == whole + encoded[..k]
    requires FoundAt(SplitLines(whole), read, a.id) == None
    ensures FoundAt(SplitLines(d.evidence), read, a.id).Some? <==> k >= |encoded| - 1
    ensures FoundAt(SplitLines(Recovered(d).evidence), read, a.id).Some? <==> k == |encoded|
  {
    var part := encoded[..k];
    PartFound(whole, a, encoded, k, read);
    PartialRecord(whole, encoded, k);
    PartFound(whole, a, encoded, if k == |encoded| then k else 0, read);
    assert encoded[..|encoded|] == encoded && whole + encoded[..0] == whole;
  }

  lemma PartReads(a: Annotation, encoded: Data, k: nat, read: Reading)
    requires ReadsBack(a, encoded, read) && k <= |encoded|
    ensures IsFor(encoded[..k], read, a.id) <==> k >= |encoded| - 1
  {
    assert encoded[..|encoded|] == encoded;
  }

  lemma PartFound(whole: Data, a: Annotation, encoded: Data, k: nat, read: Reading)
    requires Whole(whole) && ReadsBack(a, encoded, read) && k <= |encoded|
    requires FoundAt(SplitLines(whole), read, a.id) == None
    ensures FoundAt(SplitLines(whole + encoded[..k]), read, a.id).Some? <==> k >= |encoded| - 1
  {
    var part := encoded[..k];
    if k == 0 {
      assert whole + part == whole;
    } else {
      assert part[..k - 1] == encoded[..|encoded| - 1][..k - 1];
      LinesThenTail(whole, part);
      FoundInOrder(SplitLines(whole), part, read, a.id);
      PartReads(a, encoded, k, read);
    }
  }
}
