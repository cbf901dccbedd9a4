/** Sequences cut into blocks at the elements that pass a test. */
module Blocks {
  import opened Common

  function FirstBlank<T>(lines: seq<T>, blank: T -> bool): (k: nat)
    ensures k <= |lines| && (k < |lines| ==> blank(lines[k])) && forall i :: 0 <= i < k ==> !blank(lines[i])
  {
    if lines == [] || blank(lines[0]) then 0 else 1 + FirstBlank(lines[1..], blank)
  }

  /** The blocks that a blank line ends, without the empty ones. */
  function ClosedBlocks<T>(lines: seq<T>, blank: T -> bool): seq<seq<T>>
    decreases |lines|
  {
    var k := FirstBlank(lines, blank);
    if k == |lines| then [] else NonEmpty(lines[..k]) + ClosedBlocks(lines[k + 1..], blank)
  }

  function NonEmpty<T>(block: seq<T>): seq<seq<T>> {
    if |block| == 0 then [] else [block]
  }

  /** The lines after the last blank one. */
  function OpenBlock<T>(lines: seq<T>, blank: T -> bool): seq<T>
    decreases |lines|
  {
    var k := FirstBlank(lines, blank);
    if k == |lines| then lines else OpenBlock(lines[k + 1..], blank)
  }

  /** Every block of a complete stream: the last one counts without a blank line too. */
  function AllBlocks<T>(lines: seq<T>, blank: T -> bool): seq<seq<T>> {
    ClosedBlocks(lines, blank) + NonEmpty(OpenBlock(lines, blank))
  }

  function Total<T>(lines: seq<T>, size: T -> nat): nat {
    if lines == [] then 0 else Total(lines[..|lines| - 1], size) + size(lines[|lines| - 1])
  }

  /** No block is larger than the limit, the blank line that ends it included. */
  predicate Fits<T>(lines: seq<T>, blank: T -> bool, size: T -> nat, limit: nat)
    decreases |lines|
  {
    var k := FirstBlank(lines, blank);
    if k == |lines| then Total(lines, size) <= limit
    else Total(lines[..k + 1], size) <= limit && Fits(lines[k + 1..], blank, size, limit)
  }

  // ---- one more line ----

  lemma {:induction false} FirstBlankAppend<T>(lines: seq<T>, line: T, blank: T -> bool)
    ensures FirstBlank(lines + [line], blank) ==
      if FirstBlank(lines, blank) < |lines| || blank(line) then FirstBlank(lines, blank) else |lines| + 1
  {
    if lines == [] {
      assert (lines + [line])[1..] == [];
    } else {
      FirstBlankAppend(lines[1..], line, blank);
      assert (lines + [line])[1..] == lines[1..] + [line];
    }
  }

  lemma ClosedBlocksAppend<T>(lines: seq<T>, line: T, blank: T -> bool)
    ensures ClosedBlocks(lines + [line], blank) ==
            ClosedBlocks(lines, blank) + (if blank(line) then NonEmpty(OpenBlock(lines, blank)) else [])
    decreases |lines|
  {
    var k, more := FirstBlank(lines, blank), lines + [line];
    FirstBlankAppend(lines, line, blank);
    if k < |lines| {
      ClosedBlocksAppend(lines[k + 1..], line, blank);
      CutFirst(lines, line, k, blank);
    } else if blank(line) {
      assert more[..k] == lines && more[k + 1..] == [];
      assert ClosedBlocks(more, blank) == NonEmpty(lines) + ClosedBlocks([], blank) == NonEmpty(lines);
    }
  }

  lemma {:induction false} CutFirst<T>(lines: seq<T>, line: T, k: nat, blank: T -> bool)
    requires k == FirstBlank(lines, blank) == FirstBlank(lines + [line], blank) < |lines|
    requires var rest := lines[k + 1..];
      ClosedBlocks(rest + [line], blank) ==
      ClosedBlocks(rest, blank) + (if blank(line) then NonEmpty(OpenBlock(rest, blank)) else [])
    ensures ClosedBlocks(lines + [line], blank) ==
            ClosedBlocks(lines, blank) + (if blank(line) then NonEmpty(OpenBlock(lines, blank)) else [])
  {
    var rest, more := lines[k + 1..], lines + [line];
    assert more[k + 1..] == rest + [line] && more[..k] == lines[..k];
    var next := if blank(line) then NonEmpty(OpenBlock(rest, blank)) else [];
    Regroup(NonEmpty(lines[..k]), ClosedBlocks(rest, blank), next);
    assert OpenBlock(lines, blank) == OpenBlock(rest, blank);
  }

  lemma OpenBlockAppend<T>(lines: seq<T>, line: T, blank: T -> bool)
    ensures OpenBlock(lines + [line], blank) == if blank(line) then [] else OpenBlock(lines, blank) + [line]
    decreases |lines|
  {
    var k, more := FirstBlank(lines, blank), lines + [line];
    FirstBlankAppend(lines, line, blank);
    if k < |lines| {
      OpenBlockAppend(lines[k + 1..], line, blank);
      assert more[k + 1..] == lines[k + 1..] + [line];
    } else if blank(line) {
      assert more[k + 1..] == [];
    }
  }

  lemma FitsAppend<T>(lines: seq<T>, line: T, blank: T -> bool, size: T -> nat, limit: nat)
    ensures Fits(lines + [line], blank, size, limit) <==>
            Fits(lines, blank, size, limit) && Total(OpenBlock(lines, blank) + [line], size) <= limit
    decreases |lines|
  {
    var k, more := FirstBlank(lines, blank), lines + [line];
    FirstBlankAppend(lines, line, blank);
    if k < |lines| {
      FitsAppend(lines[k + 1..], line, blank, size, limit);
      assert more[k + 1..] == lines[k + 1..] + [line] && more[..k + 1] == lines[..k + 1];
      assert OpenBlock(lines, blank) == OpenBlock(lines[k + 1..], blank);
    } else {
      TotalAppend(lines, line, size);
      assert OpenBlock(lines, blank) == lines && more[..k + 1] == more;
      if blank(line) {
        assert more[k + 1..] == [] && Fits([], blank, size, limit);
      }
    }
  }

  lemma TotalAppend<T>(lines: seq<T>, line: T, size: T -> nat)
    ensures Total(lines + [line], size) == Total(lines, size) + size(line)
  {
    assert (lines + [line])[..|lines|] == lines;
  }
}

/** The incremental reader of a server-sent event stream. Decoded text is kept as its UTF-8 bytes. */
module Sse {
  import opened Common
  import opened Bytes
  import opened Utf8
  import opened Blocks

  const CARRIAGE_RETURN: Byte := 13
  const SPACE: Byte := 32
  const COLON: Byte := 58
  const NUL: Byte := 0

  /** The ASCII bytes of "data", "event", "id" and "message". */
  const DATA_FIELD: Data := [100, 97, 116, 97]
  const EVENT_FIELD: Data := [101, 118, 101, 110, 116]
  const ID_FIELD: Data := [105, 100]
  const MESSAGE: Data := [109, 101, 115, 115, 97, 103, 101]

  // ---- lines ----

  /** The length of the first line, its newline included. */
  function LineEnd(s: Data): (end: nat)
    ensures end <= |s| && (s != [] ==> end > 0)
    ensures NEWLINE !in s[..end] || (end > 0 && s[end - 1] == NEWLINE && NEWLINE !in s[..end - 1])
    ensures end < |s| ==> end > 0 && s[end - 1] == NEWLINE
  {
    if s == [] then 0
    else if s[0] == NEWLINE then 1
    else
      assert forall i :: 0 < i < |s| ==> s[i] == s[1..][i - 1];
      1 + LineEnd(s[1..])
  }

  function SplitLines(s: Data): (lines: seq<Data>)
    ensures forall l :: l in lines ==> l != []
  {
    if s == [] then [] else [s[..LineEnd(s)]] + SplitLines(s[LineEnd(s)..])
  }

  lemma SplitFirst(line: Data, more: Data)
    requires line != [] && LineEnd(line + more) == |line|
    ensures SplitLines(line + more) == [line] + SplitLines(more)
  {
    assert (line + more)[..|line|] == line && (line + more)[|line|..] == more;
  }

  /** `rstrip`: the line without the carriage returns and newlines at its end. */
  function Strip(line: Data): (text: Data)
    ensures text <= line
  {
    if line != [] && line[|line| - 1] in {NEWLINE, CARRIAGE_RETURN} then Strip(line[..|line| - 1]) else line
  }

  /** The text of a line; undecodable parts of it are replaced. */
  function TextOf(line: Data): Data {
    Decode(Strip(line)).text
  }

  predicate Blank(line: Data) {
    Strip(line) == []
  }

  lemma BlankIffNoText(line: Data)
    ensures Blank(line) <==> TextOf(line) == []
  {
    EmptyIffEmpty(Strip(line));
  }

  function Texts(lines: seq<Data>): (texts: seq<Data>)
    ensures |texts| == |lines| && forall i :: 0 <= i < |lines| ==> texts[i] == TextOf(lines[i])
  {
    if lines == [] then [] else Texts(lines[..|lines| - 1]) + [TextOf(lines[|lines| - 1])]
  }

  function Size(line: Data): nat {
    |line|
  }

  // ---- fields ----

  function ColonAt(line: Data): (at: nat)
    ensures at <= |line| && COLON !in line[..at] && (at < |line| ==> line[at] == COLON)
  {
    if line == [] || line[0] == COLON then 0 else 1 + ColonAt(line[1..])
  }

  /** The part before the first colon; a line without one is all field name. */
  function Field(line: Data): Data {
    line[..ColonAt(line)]
  }

  /** The part after the first colon, without one leading space. */
  function Value(line: Data): Data {
    if ColonAt(line) == |line| then []
    else
      var rest := line[ColonAt(line) + 1..];
      if rest != [] && rest[0] == SPACE then rest[1..] else rest
  }

  /** The values of one field, in order. */
  function Values(texts: seq<Data>, field: Data): seq<Data> {
    if texts == [] then []
    else
      var last := texts[|texts| - 1];
      Values(texts[..|texts| - 1], field) + (if Field(last) == field then [Value(last)] else [])
  }

  function LastOf(values: seq<Data>): Option<Data> {
    if values == [] then None else Some(values[|values| - 1])
  }

  function NameOf(texts: seq<Data>): Data {
    var name := LastOf(Values(texts, EVENT_FIELD));
    if name.Some? && name.value != [] then name.value else MESSAGE
  }

  /** An id with a NUL in it is ignored. */
  function IdOf(texts: seq<Data>): Option<Data> {
    LastOf(Filter(Values(texts, ID_FIELD), (value: Data) => NUL !in value))
  }

  /** The first line that does not decode, as it was received. */
  function FirstBad(block: seq<Data>): Option<Data> {
    if block == [] then None
    else
      var earlier, last := FirstBad(block[..|block| - 1]), Strip(block[|block| - 1]);
      if earlier.None? && !WellFormed(last) then Some(last) else earlier
  }

  // ---- events ----

  /** `raw` and what is read from it are text; `undecodable` stands for the decode error. */
  datatype Event = Event(name: Data, id: Option<Data>, raw: seq<Data>, data: seq<Data>, undecodable: Option<Data>)

  /** What the lines of one block mean. */
  function Meaning(block: seq<Data>): Event {
    var texts := Texts(block);
    Event(NameOf(texts), IdOf(texts), texts, Values(texts, DATA_FIELD), FirstBad(block))
  }

  function EventsOf(blocks: seq<seq<Data>>): seq<Event> {
    if blocks == [] then [] else EventsOf(blocks[..|blocks| - 1]) + [Meaning(blocks[|blocks| - 1])]
  }

  lemma EventsAppend(blocks: seq<seq<Data>>, block: seq<Data>)
    ensures EventsOf(blocks + NonEmpty(block)) == EventsOf(blocks) + (if block == [] then [] else [Meaning(block)])
  {
    if block == [] {
      assert blocks + [] == blocks;
    } else {
      assert (blocks + [block])[..|blocks|] == blocks;
    }
  }

  lemma BlockAppend(block: seq<Data>, line: Data)
    ensures Texts(block + [line]) == Texts(block) + [TextOf(line)]
    ensures FirstBad(block + [line]) ==
      if FirstBad(block).None? && !WellFormed(Strip(line)) then Some(Strip(line)) else FirstBad(block)
  {
    assert (block + [line])[..|block|] == block;
  }

  lemma ValuesAppend(texts: seq<Data>, text: Data, field: Data)
    ensures Values(texts + [text], field) ==
            Values(texts, field) + (if Field(text) == field then [Value(text)] else [])
  {
    assert (texts + [text])[..|texts|] == texts;
  }

  // ---- the reader ----

  datatype End = Ended | Stopped | TooLarge

  /** `readline`: at most limit + 1 bytes of the next line. */
  method ReadLine(rest: Data, limit: nat) returns (line: Data)
    ensures line == rest[..Min(LineEnd(rest), limit + 1)]
    ensures line <= rest[..LineEnd(rest)] && (line == [] <==> rest == [])
    ensures |line| <= limit ==> line == rest[..LineEnd(rest)]
  {
    var end := 0;
    while end < |rest| && end <= limit && (end == 0 || rest[end - 1] != NEWLINE)
      invariant end <= |rest| && end <= limit + 1 && end <= LineEnd(rest)
    {
      NotYetEnded(rest, end);
      end := end + 1;
    }
    if end <= limit {
      EndReached(rest, end);
    }
    line := rest[..end];
  }

  lemma NotYetEnded(rest: Data, end: nat)
    requires end < |rest| && end <= LineEnd(rest) && (end == 0 || rest[end - 1] != NEWLINE)
    ensures end < LineEnd(rest)
  {
  }

  lemma EndReached(rest: Data, end: nat)
    requires end <= LineEnd(rest) && (end == |rest| || (end > 0 && rest[end - 1] == NEWLINE))
    ensures end == LineEnd(rest)
  {
  }

  /** What one more line does to the fields of a block. */
  method TakeField(ghost texts: seq<Data>, line: Data, dataLines: seq<Data>, eventName: Data, eventId: Option<Data>)
    returns (data: seq<Data>, name: Data, id: Option<Data>)
    requires line != [] && dataLines == Values(texts, DATA_FIELD)
    requires eventName == NameOf(texts) && eventId == IdOf(texts)
    ensures data == Values(texts + [line], DATA_FIELD)
    ensures name == NameOf(texts + [line]) && id == IdOf(texts + [line])
  {
    data, name, id := dataLines, eventName, eventId;
    ValuesAppend(texts, line, DATA_FIELD);
    ValuesAppend(texts, line, EVENT_FIELD);
    ValuesAppend(texts, line, ID_FIELD);
    assert Values(texts, ID_FIELD) + [] == Values(texts, ID_FIELD);
    if line[0] == COLON {
      assert Field(line) == [];
      return;
    }
    var field, value := Field(line), Value(line);
    if field == DATA_FIELD {
      data := data + [value];
    } else if field == EVENT_FIELD {
      name := if value != [] then value else MESSAGE;
    } else if field == ID_FIELD {
      FilterAppend(Values(texts, ID_FIELD), [value], (v: Data) => NUL !in v);
      if NUL !in value {
        id := Some(value);
      }
    }
  }

  lemma NextLine(lines: seq<Data>, n: nat, rest: Data)
    requires n <= |lines| && lines[n..] == SplitLines(rest)
    ensures rest == [] ==> n == |lines|
    ensures rest != [] ==> n < |lines| && lines[n] == rest[..LineEnd(rest)] && lines[n] != []
    ensures rest != [] ==> lines[n + 1..] == SplitLines(rest[LineEnd(rest)..])
  {
    if rest != [] {
      assert lines[n] == lines[n..][0] && lines[n + 1..] == lines[n..][1..];
    }
  }

  /** The closed blocks, the open one, and whether all of them fit, after one more line. */
  lemma NextBlocks(lines: seq<Data>, n: nat, limit: nat)
    requires n < |lines|
    ensures ClosedBlocks(lines[..n + 1], Blank) ==
      ClosedBlocks(lines[..n], Blank) + (if Blank(lines[n]) then NonEmpty(OpenBlock(lines[..n], Blank)) else [])
    ensures OpenBlock(lines[..n + 1], Blank) ==
      if Blank(lines[n]) then [] else OpenBlock(lines[..n], Blank) + [lines[n]]
    ensures Fits(lines[..n + 1], Blank, Size, limit) <==>
      Fits(lines[..n], Blank, Size, limit) && Total(OpenBlock(lines[..n], Blank), Size) + |lines[n]| <= limit
  {
    var init, line := lines[..n], lines[n];
    assert lines[..n + 1] == init + [line];
    ClosedBlocksAppend(init, line, Blank);
    OpenBlockAppend(init, line, Blank);
    FitsAppend(init, line, Blank, Size, limit);
    TotalAppend(OpenBlock(init, Blank), line, Size);
  }

  /** The reader's variables for the block it is in. */
  datatype Partial = Partial(
    raw: seq<Data>, data: seq<Data>, name: Data, id: Option<Data>, bad: Option<Data>, size: nat)

  const NOTHING := Partial([], [], MESSAGE, None, None, 0)

  /** What they say of the lines of that block. */
  ghost predicate Reading(block: seq<Data>, p: Partial) {
    p.raw == Texts(block) && p.data == Values(p.raw, DATA_FIELD) && p.name == NameOf(p.raw) && p.id == IdOf(p.raw) &&
    p.bad == FirstBad(block) && p.size == Total(block, Size)
  }

  /** How far the reader has come after n lines. */
  ghost predicate At(
    lines: seq<Data>, n: nat, rest: Data, events: seq<Event>, p: Partial, limit: nat)
  {
    n <= |lines| && lines[n..] == SplitLines(rest) &&
    events == EventsOf(ClosedBlocks(lines[..n], Blank)) &&
    Reading(OpenBlock(lines[..n], Blank), p) && Fits(lines[..n], Blank, Size, limit)
  }

  /** What the reader has done after n lines. */
  ghost predicate Outcome(lines: seq<Data>, n: nat, events: seq<Event>, end: End, limit: nat) {
    n <= |lines| && Fits(lines[..n], Blank, Size, limit) &&
    match end
    case Ended => n == |lines| && events == EventsOf(AllBlocks(lines, Blank))
    case Stopped => events == EventsOf(ClosedBlocks(lines[..n], Blank))
    case TooLarge =>
      n < |lines| && !Fits(lines[..n + 1], Blank, Size, limit) &&
      events == EventsOf(ClosedBlocks(lines[..n], Blank))
  }

  lemma StoppedAt(
    lines: seq<Data>, n: nat, rest: Data, events: seq<Event>, p: Partial, limit: nat)
    requires At(lines, n, rest, events, p, limit)
    ensures Outcome(lines, n, events, Stopped, limit)
  {
  }

  /** Yield the event of the block read so far, if there is one. */
  method Yield(
    events: seq<Event>, ghost closed: seq<seq<Data>>, ghost block: seq<Data>, p: Partial)
    returns (more: seq<Event>)
    requires events == EventsOf(closed) && Reading(block, p)
    ensures more == EventsOf(closed + NonEmpty(block))
  {
    EventsAppend(closed, block);
    more := events;
    if p.raw != [] {
      more := events + [Event(p.name, p.id, p.raw, p.data, p.bad)];
    }
  }

  /** A line that is not blank joins the block. */
  method TakeLine(ghost block: seq<Data>, bytes: Data, p: Partial) returns (q: Partial)
    requires Reading(block, p) && !Blank(bytes)
    ensures Reading(block + [bytes], q)
  {
    var decoded := Decode(Strip(bytes));
    var line := decoded.text;
    BlockAppend(block, bytes);
    TotalAppend(block, bytes, Size);
    BlankIffNoText(bytes);
    var bad := if p.bad.None? && !decoded.clean then Some(Strip(bytes)) else p.bad;
    var data, name, id := TakeField(p.raw, line, p.data, p.name, p.id);
    q := Partial(p.raw + [line], data, name, id, bad, p.size + |bytes|);
  }

  /** The loop's body once a line, or the part of it that is over the limit, has been read. */
  method TakeBytes(
    ghost lines: seq<Data>, ghost n: nat, ghost rest: Data, bytes: Data, events: seq<Event>, p: Partial,
    limit: nat) returns (ok: bool, more: seq<Event>, q: Partial)
    requires At(lines, n, rest, events, p, limit)
    requires rest != [] && bytes <= rest[..LineEnd(rest)] && (|bytes| <= limit ==> bytes == rest[..LineEnd(rest)])
    ensures ok ==> n < |lines| && At(lines, n + 1, rest[|bytes|..], more, q, limit)
    ensures !ok ==> Outcome(lines, n, more, TooLarge, limit)
  {
    if p.size + |bytes| > limit {
      TooMuch(lines, n, rest, bytes, events, p, limit);
      return false, events, p;
    }
    ok := true;
    NextLine(lines, n, rest);
    BlankIffNoText(bytes);
    if TextOf(bytes) == [] {
      more := Yield(events, ClosedBlocks(lines[..n], Blank), OpenBlock(lines[..n], Blank), p);
      q := NOTHING;
      AfterBlank(lines, n, rest, more, limit);
    } else {
      more := events;
      q := TakeLine(OpenBlock(lines[..n], Blank), bytes, p);
      AfterLine(lines, n, rest, events, q, limit);
    }
  }

  lemma AfterBlank(
    lines: seq<Data>, n: nat, rest: Data, more: seq<Event>, limit: nat)
    requires n < |lines| && rest != [] && lines[n] == rest[..LineEnd(rest)] && Blank(lines[n])
    requires lines[n + 1..] == SplitLines(rest[LineEnd(rest)..])
    requires more == EventsOf(ClosedBlocks(lines[..n], Blank) + NonEmpty(OpenBlock(lines[..n], Blank)))
    requires Fits(lines[..n], Blank, Size, limit)
    requires Total(OpenBlock(lines[..n], Blank), Size) + |lines[n]| <= limit
    ensures At(lines, n + 1, rest[LineEnd(rest)..], more, NOTHING, limit)
  {
    NextBlocks(lines, n, limit);
  }

  lemma AfterLine(
    lines: seq<Data>, n: nat, rest: Data, events: seq<Event>, q: Partial, limit: nat)
    requires n < |lines| && rest != [] && lines[n] == rest[..LineEnd(rest)] && !Blank(lines[n])
    requires lines[n + 1..] == SplitLines(rest[LineEnd(rest)..])
    requires events == EventsOf(ClosedBlocks(lines[..n], Blank))
    requires Reading(OpenBlock(lines[..n], Blank) + [lines[n]], q)
    requires Fits(lines[..n], Blank, Size, limit)
    requires Total(OpenBlock(lines[..n], Blank), Size) + |lines[n]| <= limit
    ensures At(lines, n + 1, rest[LineEnd(rest)..], events, q, limit)
  {
    NextBlocks(lines, n, limit);
    assert ClosedBlocks(lines[..n], Blank) + [] == ClosedBlocks(lines[..n], Blank);
  }

  lemma TooMuch(
    lines: seq<Data>, n: nat, rest: Data, bytes: Data, events: seq<Event>, p: Partial, limit: nat)
    requires At(lines, n, rest, events, p, limit)
    requires rest != [] && bytes <= rest[..LineEnd(rest)] && p.size + |bytes| > limit
    ensures n < |lines| && !Fits(lines[..n + 1], Blank, Size, limit)
  {
    NextLine(lines, n, rest);
    NextBlocks(lines, n, limit);
  }

  lemma AtStart(stream: Data, limit: nat)
    ensures At(SplitLines(stream), 0, stream, [], NOTHING, limit)
  {
  }

  /** The end of the stream: a last block without a blank line is yielded too. */
  method YieldLast(
    ghost lines: seq<Data>, ghost n: nat, events: seq<Event>, p: Partial, ghost limit: nat)
    returns (more: seq<Event>)
    requires At(lines, n, [], events, p, limit)
    ensures Outcome(lines, n, more, Ended, limit)
  {
    assert lines[..n] == lines;
    more := Yield(events, ClosedBlocks(lines, Blank), OpenBlock(lines, Blank), p);
  }

  /** One turn of the loop. */
  method Turn(
    ghost lines: seq<Data>, ghost n: nat, rest: Data, events: seq<Event>, p: Partial, limit: nat)
    returns (over: Option<End>, more: seq<Event>, q: Partial, left: Data)
    requires At(lines, n, rest, events, p, limit)
    ensures over.None? ==> At(lines, n + 1, left, more, q, limit)
    ensures over.Some? ==> over.value != Stopped && Outcome(lines, n, more, over.value, limit)
  {
    q, left := p, rest;
    var bytes := ReadLine(rest, limit);
    if bytes == [] {
      more := YieldLast(lines, n, events, p, limit);
      return Some(Ended), more, p, rest;
    }
    var ok;
    ok, more, q := TakeBytes(lines, n, rest, bytes, events, p, limit);
    over, left := if ok then None else Some(TooLarge), rest[|bytes|..];
  }

  /**
   `_iter_sse`. `stopAt` is the number of lines after which the stop flag is seen,
   `count` how many whole lines were taken. A
   stream read to its end yields exactly the events of its blocks; the reader gives up
   exactly at the first block over the limit, with the events before it.
   */
  method IterSse(stream: Data, limit: nat, stopAt: nat)
    returns (events: seq<Event>, end: End, count: nat)
    ensures Outcome(SplitLines(stream), count, events, end, limit)
    ensures count <= stopAt && (end == Stopped ==> count == stopAt)
  {
    ghost var lines := SplitLines(stream);
    var rest, p, n := stream, NOTHING, 0;
    events := [];
    AtStart(stream, limit);
    while n < stopAt
      invariant n <= stopAt && At(lines, n, rest, events, p, limit)
    {
      var over: Option<End>;
      over, events, p, rest := Turn(lines, n, rest, events, p, limit);
      if over.Some? {
        return events, over.value, n;
      }
      n := n + 1;
    }
    StoppedAt(lines, n, rest, events, p, limit);
    return events, Stopped, n;
  }
}
