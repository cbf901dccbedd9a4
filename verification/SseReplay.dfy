/** What the events of a stream retain: their raw lines, and enough to be read back. */
module SseReplay {
  import opened Common
  import opened Bytes
  import opened Utf8
  import opened Blocks
  import opened Sse

  // ---- raw payloads ----

  /** The raw lines of all events, in order. */
  function RawLines(events: seq<Event>): seq<Data> {
    if events == [] then [] else RawLines(events[..|events| - 1]) + events[|events| - 1].raw
  }

  function Flat<T>(blocks: seq<seq<T>>): seq<T> {
    if blocks == [] then [] else Flat(blocks[..|blocks| - 1]) + blocks[|blocks| - 1]
  }

  lemma FlatAppend<T>(blocks: seq<seq<T>>, block: seq<T>)
    ensures Flat(blocks + NonEmpty(block)) == Flat(blocks) + block
  {
    if |block| == 0 {
      assert blocks + [] == blocks;
    } else {
      assert (blocks + [block])[..|blocks|] == blocks;
    }
  }

  function NotBlank<T>(lines: seq<T>, blank: T -> bool): seq<T> {
    if lines == [] then []
    else
      var last := lines[|lines| - 1];
      NotBlank(lines[..|lines| - 1], blank) + (if blank(last) then [] else [last])
  }

  /** The blocks hold every line that is not blank, in order, and no other. */
  lemma {:induction false} BlocksKeepLines<T>(lines: seq<T>, blank: T -> bool)
    ensures Flat(AllBlocks(lines, blank)) == NotBlank(lines, blank)
  {
    FlatAppend(ClosedBlocks(lines, blank), OpenBlock(lines, blank));
    if lines == [] {
    } else {
      var init, last := lines[..|lines| - 1], lines[|lines| - 1];
      BlocksKeepLines(init, blank);
      FlatAppend(ClosedBlocks(init, blank), OpenBlock(init, blank));
      assert lines == init + [last];
      BlocksAfter(init, last, blank);
    }
  }

  lemma {:induction false} BlocksAfter<T>(init: seq<T>, last: T, blank: T -> bool)
    ensures Flat(ClosedBlocks(init + [last], blank)) + OpenBlock(init + [last], blank) ==
            Flat(ClosedBlocks(init, blank)) + OpenBlock(init, blank) + (if blank(last) then [] else [last])
  {
    var closed, block := ClosedBlocks(init, blank), OpenBlock(init, blank);
    ClosedBlocksAppend(init, last, blank);
    OpenBlockAppend(init, last, blank);
    FlatAppend(closed, block);
    if !blank(last) {
      assert closed + [] == closed;
      Regroup(Flat(closed), block, [last]);
    }
  }

  lemma TextsJoin(a: seq<Data>, b: seq<Data>)
    ensures Texts(a + b) == Texts(a) + Texts(b)
  {
  }

  lemma {:induction false} RawLinesAreTexts(blocks: seq<seq<Data>>)
    ensures RawLines(EventsOf(blocks)) == Texts(Flat(blocks))
  {
    if blocks == [] {
    } else {
      var init, last := blocks[..|blocks| - 1], blocks[|blocks| - 1];
      RawLinesAreTexts(init);
      TextsJoin(Flat(init), last);
    }
  }

  /** The raw payloads of a stream's events reproduce its lines, the blank ones left out. */
  lemma RawPayloadsReproduceStream(lines: seq<Data>)
    ensures RawLines(EventsOf(AllBlocks(lines, Blank))) == Texts(NotBlank(lines, Blank))
  {
    RawLinesAreTexts(AllBlocks(lines, Blank));
    BlocksKeepLines(lines, Blank);
  }

  // ---- reading back ----

  /** A line of text that can stand in a payload as it is. */
  predicate Clean(text: Data) {
    text != [] && NEWLINE !in text && text[|text| - 1] != CARRIAGE_RETURN && WellFormed(text)
  }

  /** Each line with a newline after it. */
  function Terminated(texts: seq<Data>): Data {
    if texts == [] then [] else texts[0] + [NEWLINE] + Terminated(texts[1..])
  }

  function EndLines(texts: seq<Data>): (lines: seq<Data>)
    ensures |lines| == |texts| && forall i :: 0 <= i < |texts| ==> lines[i] == texts[i] + [NEWLINE]
  {
    if texts == [] then [] else [texts[0] + [NEWLINE]] + EndLines(texts[1..])
  }

  /** `raw_payload`: the lines joined by newlines, and two newlines after the last. */
  function Payload(texts: seq<Data>): Data {
    Terminated(texts) + [NEWLINE]
  }

  function Payloads(raws: seq<seq<Data>>): Data {
    if raws == [] then [] else Payload(raws[0]) + Payloads(raws[1..])
  }

  lemma LineEndOfText(text: Data, rest: Data)
    requires NEWLINE !in text
    ensures LineEnd(text + [NEWLINE] + rest) == |text| + 1
  {
    var s := text + [NEWLINE] + rest;
    if text == [] {
    } else {
      assert s[1..] == text[1..] + [NEWLINE] + rest;
      LineEndOfText(text[1..], rest);
    }
  }

  lemma {:induction false} SplitTerminated(texts: seq<Data>, rest: Data)
    requires forall t :: t in texts ==> NEWLINE !in t
    ensures SplitLines(Terminated(texts) + rest) == EndLines(texts) + SplitLines(rest)
  {
    if texts == [] {
      assert Terminated(texts) + rest == rest;
    } else {
      var s, more := Terminated(texts) + rest, Terminated(texts[1..]) + rest;
      assert s == texts[0] + [NEWLINE] + more;
      LineEndOfText(texts[0], more);
      SplitFirst(texts[0] + [NEWLINE], more);
      SplitTerminated(texts[1..], rest);
      Regroup([texts[0] + [NEWLINE]], EndLines(texts[1..]), SplitLines(rest));
    }
  }

  lemma CleanStrips(text: Data)
    requires Clean(text)
    ensures Strip(text + [NEWLINE]) == text && TextOf(text + [NEWLINE]) == text
  {
    assert (text + [NEWLINE])[..|text|] == text;
    CleanIsUnchanged(text);
  }

  lemma SplitBlank(rest: Data)
    ensures SplitLines([NEWLINE] + rest) == [[NEWLINE]] + SplitLines(rest)
  {
    LineEndOfText([], rest);
    assert [] + [NEWLINE] + rest == [NEWLINE] + rest;
    SplitFirst([NEWLINE], rest);
  }

  lemma {:induction false} SplitPayload(texts: seq<Data>, rest: Data)
    requires forall t :: t in texts ==> NEWLINE !in t
    ensures SplitLines(Payload(texts) + rest) == EndLines(texts) + [[NEWLINE]] + SplitLines(rest)
  {
    SplitTerminated(texts, [NEWLINE] + rest);
    SplitBlank(rest);
    Regroup(Terminated(texts), [NEWLINE], rest);
    Regroup(EndLines(texts), [[NEWLINE]], SplitLines(rest));
  }

  lemma FirstBlankAt<T>(block: seq<T>, end: T, rest: seq<T>, blank: T -> bool)
    requires blank(end) && forall i :: 0 <= i < |block| ==> !blank(block[i])
    ensures FirstBlank(block + [end] + rest, blank) == |block|
  {
    var lines := block + [end] + rest;
    if block == [] {
    } else {
      assert lines[1..] == block[1..] + [end] + rest;
      FirstBlankAt(block[1..], end, rest, blank);
    }
  }

  lemma BlockFirst<T>(block: seq<T>, end: T, rest: seq<T>, blank: T -> bool)
    requires block != [] && blank(end) && forall i :: 0 <= i < |block| ==> !blank(block[i])
    ensures AllBlocks(block + [end] + rest, blank) == [block] + AllBlocks(rest, blank)
  {
    var lines := block + [end] + rest;
    FirstBlankAt(block, end, rest, blank);
    assert lines[..|block|] == block && lines[|block| + 1..] == rest;
    Regroup([block], ClosedBlocks(rest, blank), NonEmpty(OpenBlock(rest, blank)));
  }

  function Ended(raws: seq<seq<Data>>): seq<seq<Data>> {
    if raws == [] then [] else [EndLines(raws[0])] + Ended(raws[1..])
  }

  /** The blocks of a list of payloads are the ones they were made from. */
  lemma {:induction false} PayloadBlocks(raws: seq<seq<Data>>)
    requires forall i :: 0 <= i < |raws| ==> raws[i] != [] && forall t :: t in raws[i] ==> Clean(t)
    ensures AllBlocks(SplitLines(Payloads(raws)), Blank) == Ended(raws)
  {
    if raws == [] {
    } else {
      var texts, rest := raws[0], Payloads(raws[1..]);
      PayloadBlocks(raws[1..]);
      SplitPayload(texts, rest);
      forall i | 0 <= i < |texts|
        ensures !Blank(EndLines(texts)[i])
      {
        CleanStrips(texts[i]);
      }
      BlockFirst(EndLines(texts), [NEWLINE], SplitLines(rest), Blank);
    }
  }

  /** What lines of text mean: there is nothing in them that does not decode. */
  function TextMeaning(texts: seq<Data>): Event {
    Event(NameOf(texts), IdOf(texts), texts, Values(texts, DATA_FIELD), None)
  }

  function Meanings(raws: seq<seq<Data>>): (events: seq<Event>)
    ensures |events| == |raws| && forall i :: 0 <= i < |raws| ==> events[i] == TextMeaning(raws[i])
  {
    if raws == [] then [] else [TextMeaning(raws[0])] + Meanings(raws[1..])
  }

  lemma EventsFirst(block: seq<Data>, blocks: seq<seq<Data>>)
    ensures EventsOf([block] + blocks) == [Meaning(block)] + EventsOf(blocks)
  {
    var all := [block] + blocks;
    if blocks == [] {
      assert all[..0] == [] && all[0] == block && EventsOf([]) == [];
    } else {
      var init, last := blocks[..|blocks| - 1], blocks[|blocks| - 1];
      assert all[..|all| - 1] == [block] + init && all[|all| - 1] == last;
      EventsFirst(block, init);
      Regroup([Meaning(block)], EventsOf(init), [Meaning(last)]);
    }
  }

  lemma {:induction false} NothingBad(block: seq<Data>)
    requires forall i :: 0 <= i < |block| ==> WellFormed(Strip(block[i]))
    ensures FirstBad(block) == None
  {
    if block == [] {
    } else {
      NothingBad(block[..|block| - 1]);
    }
  }

  lemma {:induction false} EndedText(texts: seq<Data>, i: nat)
    requires i < |texts| && Clean(texts[i])
    ensures TextOf(EndLines(texts)[i]) == texts[i] && WellFormed(Strip(EndLines(texts)[i]))
  {
    CleanStrips(texts[i]);
  }

  lemma EndedTexts(texts: seq<Data>)
    requires forall t :: t in texts ==> Clean(t)
    ensures Texts(EndLines(texts)) == texts
  {
    forall i | 0 <= i < |texts|
      ensures TextOf(EndLines(texts)[i]) == texts[i]
    {
      EndedText(texts, i);
    }
  }

  lemma EndedNotBad(texts: seq<Data>)
    requires forall t :: t in texts ==> Clean(t)
    ensures FirstBad(EndLines(texts)) == None
  {
    forall i | 0 <= i < |texts|
      ensures WellFormed(Strip(EndLines(texts)[i]))
    {
      EndedText(texts, i);
    }
    NothingBad(EndLines(texts));
  }

  lemma {:induction false} EndedMeaning(texts: seq<Data>)
    requires forall t :: t in texts ==> Clean(t)
    ensures Meaning(EndLines(texts)) == TextMeaning(texts)
  {
    EndedTexts(texts);
    EndedNotBad(texts);
  }

  lemma {:induction false} EndedMeanings(raws: seq<seq<Data>>)
    requires forall i :: 0 <= i < |raws| ==> forall t :: t in raws[i] ==> Clean(t)
    ensures EventsOf(Ended(raws)) == Meanings(raws)
  {
    if raws == [] {
    } else {
      EndedMeanings(raws[1..]);
      EventsFirst(EndLines(raws[0]), Ended(raws[1..]));
      EndedMeaning(raws[0]);
    }
  }

  /** Reading payloads back gives the meaning of the lines they were made from. */
  lemma PayloadsReadBack(raws: seq<seq<Data>>)
    requires forall i :: 0 <= i < |raws| ==> raws[i] != [] && forall t :: t in raws[i] ==> Clean(t)
    ensures EventsOf(AllBlocks(SplitLines(Payloads(raws)), Blank)) == Meanings(raws)
  {
    PayloadBlocks(raws);
    EndedMeanings(raws);
  }

  // ---- a recorded stream, read again ----

  function Raws(events: seq<Event>): (raws: seq<seq<Data>>)
    ensures |raws| == |events| && forall i :: 0 <= i < |events| ==> raws[i] == events[i].raw
  {
    if events == [] then [] else [events[0].raw] + Raws(events[1..])
  }

  lemma {:induction false} EventsAt(blocks: seq<seq<Data>>)
    ensures |EventsOf(blocks)| == |blocks|
    ensures forall i :: 0 <= i < |blocks| ==> EventsOf(blocks)[i] == Meaning(blocks[i])
  {
    if blocks == [] {
    } else {
      var init := blocks[..|blocks| - 1];
      EventsAt(init);
      forall i | 0 <= i < |blocks|
        ensures EventsOf(blocks)[i] == Meaning(blocks[i])
      {
        var last := Meaning(blocks[|init|]);
        assert EventsOf(blocks) == EventsOf(init) + [last];
        assert i < |init| ==> blocks[i] == init[i];
      }
    }
  }

  /** A block is not empty, and none of its lines is blank. */
  lemma BlocksAreFull<T>(lines: seq<T>, blank: T -> bool, b: seq<T>)
    requires b in AllBlocks(lines, blank)
    ensures b != [] && forall i :: 0 <= i < |b| ==> b[i] in lines && !blank(b[i])
    decreases |lines|
  {
    var k := FirstBlank(lines, blank);
    if k < |lines| {
      Regroup(NonEmpty(lines[..k]), ClosedBlocks(lines[k + 1..], blank), NonEmpty(OpenBlock(lines, blank)));
      if b !in NonEmpty(lines[..k]) {
        BlocksAreFull(lines[k + 1..], blank, b);
      }
    }
  }

  /** A newline stands only at the end of a line. */
  predicate OneLine(line: Data) {
    NEWLINE !in line || (line != [] && NEWLINE !in line[..|line| - 1])
  }

  lemma {:induction false} LinesAreLines(s: Data)
    ensures forall l :: l in SplitLines(s) ==> OneLine(l)
  {
    if s == [] {
    } else {
      LinesAreLines(s[LineEnd(s)..]);
      var first := s[..LineEnd(s)];
      if NEWLINE in first {
        assert first[..|first| - 1] == s[..LineEnd(s) - 1];
      }
    }
  }

  lemma {:induction false} StripsToText(line: Data)
    requires OneLine(line) && !Blank(line)
    ensures var text := Strip(line); NEWLINE !in text && text[|text| - 1] != CARRIAGE_RETURN
  {
    if line[|line| - 1] in {NEWLINE, CARRIAGE_RETURN} {
      var init := line[..|line| - 1];
      if NEWLINE in init {
        assert false;
      }
      StripsToText(init);
    }
  }

  /** The text of a line is clean, whatever bytes the line has. */
  lemma TextIsClean(line: Data)
    requires OneLine(line) && !Blank(line)
    ensures Clean(TextOf(line))
  {
    var bytes := Strip(line);
    StripsToText(line);
    EmptyIffEmpty(bytes);
    DecodedIsClean(bytes);
    AsciiStays(bytes, NEWLINE);
    LastAsciiStays(bytes, CARRIAGE_RETURN);
  }

  /** An event without its decode error. */
  function WithoutError(e: Event): Event {
    e.(undecodable := None)
  }

  /** What the recorded raw payloads of a stream's events give when they are read. */
  function Replayed(events: seq<Event>): seq<Event> {
    EventsOf(AllBlocks(SplitLines(Payloads(Raws(events))), Blank))
  }

  /** An event whose raw lines are clean and mean all of it but its decode error. */
  ghost predicate Retained(e: Event) {
    e.raw != [] && (forall t :: t in e.raw ==> Clean(t)) && TextMeaning(e.raw) == WithoutError(e)
  }

  lemma {:induction false} RetainedIsReplayed(events: seq<Event>)
    requires forall i :: 0 <= i < |events| ==> Retained(events[i])
    ensures |Replayed(events)| == |events|
    ensures forall i :: 0 <= i < |events| ==> Replayed(events)[i] == WithoutError(events[i])
  {
    var raws := Raws(events);
    forall i | 0 <= i < |raws|
      ensures raws[i] != [] && (forall t :: t in raws[i] ==> Clean(t))
      ensures TextMeaning(raws[i]) == WithoutError(events[i])
    {
      assert Retained(events[i]);
    }
    PayloadsReadBack(raws);
  }

  /** Replay keeps each event, in order, but for its decode error. */
  lemma {:induction false} ReplayKeepsText(stream: Data)
    ensures var events := EventsOf(AllBlocks(SplitLines(stream), Blank));
      |Replayed(events)| == |events| &&
      forall i :: 0 <= i < |events| ==> Replayed(events)[i] == WithoutError(events[i])
  {
    var events := EventsOf(AllBlocks(SplitLines(stream), Blank));
    forall i | 0 <= i < |events|
      ensures Retained(events[i])
    {
      EventIsText(stream, i);
    }
    RetainedIsReplayed(events);
  }

  /** A block of a stream is not empty, and each of its lines is a line that is not blank. */
  lemma BlockOfLines(stream: Data, block: seq<Data>)
    requires block in AllBlocks(SplitLines(stream), Blank)
    ensures block != [] && forall j :: 0 <= j < |block| ==> OneLine(block[j]) && !Blank(block[j])
  {
    var lines := SplitLines(stream);
    LinesAreLines(stream);
    BlocksAreFull(lines, Blank, block);
    forall j | 0 <= j < |block|
      ensures OneLine(block[j]) && !Blank(block[j])
    {
      assert block[j] in lines;
    }
  }

  /** An event of a stream is made of clean text. */
  lemma EventIsText(stream: Data, i: nat)
    requires i < |EventsOf(AllBlocks(SplitLines(stream), Blank))|
    ensures Retained(EventsOf(AllBlocks(SplitLines(stream), Blank))[i])
  {
    var blocks := AllBlocks(SplitLines(stream), Blank);
    EventsAt(blocks);
    var block := blocks[i];
    BlockOfLines(stream, block);
    BlockIsText(block);
  }

  lemma BlockIsText(block: seq<Data>)
    requires block != [] && forall j :: 0 <= j < |block| ==> OneLine(block[j]) && !Blank(block[j])
    ensures Retained(Meaning(block))
  {
    forall j | 0 <= j < |block|
      ensures Clean(Texts(block)[j])
    {
      TextIsClean(block[j]);
    }
  }

  // ---- when is replay exact? ----

  lemma {:induction false} StripDecodes(line: Data)
    ensures WellFormed(line) <==> WellFormed(Strip(line))
  {
    if line != [] && line[|line| - 1] in {NEWLINE, CARRIAGE_RETURN} {
      var init := line[..|line| - 1];
      assert line == init + [line[|line| - 1]] + [];
      AsciiSeparates(init, line[|line| - 1], []);
      StripDecodes(init);
    }
  }

  ghost predicate AllDecode(lines: seq<Data>) {
    forall l :: l in lines ==> WellFormed(Strip(l))
  }

  lemma AllDecodeJoin(a: seq<Data>, b: seq<Data>)
    ensures AllDecode(a + b) <==> AllDecode(a) && AllDecode(b)
  {
    assert forall l :: l in a + b <==> l in a || l in b;
  }

  /** One line in front of a stream. */
  lemma {:induction false} LineDecodes(first: Data, rest: Data)
    requires first != [] && (first[|first| - 1] == NEWLINE || rest == [])
    ensures WellFormed(first + rest) <==> WellFormed(Strip(first)) && WellFormed(rest)
  {
    StripDecodes(first);
    if first[|first| - 1] == NEWLINE {
      var text := first[..|first| - 1];
      assert first == text + [NEWLINE] && text + [NEWLINE] + [] == first;
      AsciiSeparates(text, NEWLINE, rest);
      AsciiSeparates(text, NEWLINE, []);
    } else {
      assert first + rest == first;
    }
  }

  /** A stream is well-formed exactly if the bytes of each of its lines are. */
  lemma {:induction false} StreamDecodesIff(s: Data)
    ensures WellFormed(s) <==> AllDecode(SplitLines(s))
  {
    if s == [] {
    } else {
      var n := LineEnd(s);
      var first, rest := s[..n], s[n..];
      assert s == first + rest;
      LineDecodes(first, rest);
      StreamDecodesIff(rest);
      AllDecodeJoin([first], SplitLines(rest));
    }
  }

  lemma {:induction false} NoneBadIff(block: seq<Data>)
    ensures FirstBad(block).None? <==> AllDecode(block)
  {
    if block == [] {
    } else {
      var init, last := block[..|block| - 1], block[|block| - 1];
      assert block == init + [last];
      AllDecodeJoin(init, [last]);
      NoneBadIff(init);
    }
  }

  ghost predicate NoErrors(events: seq<Event>) {
    forall e :: e in events ==> e.undecodable.None?
  }

  /** No event of a list of blocks has a decode error exactly if all lines of the blocks decode. */
  lemma {:induction false} NoErrorsIff(blocks: seq<seq<Data>>)
    ensures NoErrors(EventsOf(blocks)) <==> AllDecode(Flat(blocks))
  {
    if blocks == [] {
    } else {
      var init, last := blocks[..|blocks| - 1], blocks[|blocks| - 1];
      NoErrorsIff(init);
      NoneBadIff(last);
      AllDecodeJoin(Flat(init), last);
      assert NoErrors(EventsOf(blocks)) <==> NoErrors(EventsOf(init)) && NoErrors([Meaning(last)]) by {
        assert EventsOf(blocks) == EventsOf(init) + [Meaning(last)];
      }
      assert Meaning(last) in [Meaning(last)];
    }
  }

  lemma {:induction false} NotBlankMember(lines: seq<Data>, l: Data)
    ensures l in NotBlank(lines, Blank) <==> l in lines && !Blank(l)
  {
    if lines == [] {
    } else {
      var init, last := lines[..|lines| - 1], lines[|lines| - 1];
      assert lines == init + [last];
      NotBlankMember(init, l);
    }
  }

  /** No event of a stream has a decode error if and only if the whole stream is well-formed UTF-8. */
  lemma NoErrorsIffWellFormed(stream: Data)
    ensures NoErrors(EventsOf(AllBlocks(SplitLines(stream), Blank))) <==> WellFormed(stream)
  {
    var lines := SplitLines(stream);
    NoErrorsIff(AllBlocks(lines, Blank));
    BlocksKeepLines(lines, Blank);
    StreamDecodesIff(stream);
    forall l
      ensures l in NotBlank(lines, Blank) <==> l in lines && !Blank(l)
    {
      NotBlankMember(lines, l);
    }
  }

  /**
   The raw payloads that a stream's events record, read again, give the same events if and
   only if the stream is well-formed UTF-8: a payload holds the text after replacement.
   */
  lemma ReplaysIffWellFormed(stream: Data)
    ensures var events := EventsOf(AllBlocks(SplitLines(stream), Blank));
      Replayed(events) == events <==> WellFormed(stream)
  {
    ReplayKeepsText(stream);
    var events := EventsOf(AllBlocks(SplitLines(stream), Blank));
    WithoutErrorsSame(events, Replayed(events));
    NoErrorsIffWellFormed(stream);
  }

  lemma WithoutErrorsSame(events: seq<Event>, replayed: seq<Event>)
    requires |replayed| == |events| && forall i :: 0 <= i < |events| ==> replayed[i] == WithoutError(events[i])
    ensures replayed == events <==> NoErrors(events)
  {
    if replayed == events {
      forall e | e in events
        ensures e.undecodable.None?
      {
        var i :| 0 <= i < |events| && events[i] == e;
        assert replayed[i] == WithoutError(e);
      }
    }
  }

  /** A data line with one byte that is not UTF-8, and a blank line. */
  const BAD_STREAM: Data := DATA_FIELD + [COLON, SPACE, 0xFF, NEWLINE, NEWLINE]

  lemma {:induction false} AsciiIsWellFormed(s: Data)
    requires forall i :: 0 <= i < |s| ==> s[i] < 0x80
    ensures WellFormed(s)
  {
    if s == [] {
    } else {
      AsciiIsWellFormed(s[1..]);
    }
  }

  lemma HeadIsWellFormed(field: Data)
    requires field in {DATA_FIELD, EVENT_FIELD, ID_FIELD}
    ensures WellFormed(field + [COLON, SPACE]) && COLON !in field && NEWLINE !in field
  {
    AsciiIsWellFormed(field + [COLON, SPACE]);
  }

  /** Its bad line as received, and the text of that line. */
  lemma BadLineText()
    ensures var line := DATA_FIELD + [COLON, SPACE, 0xFF, NEWLINE];
      TextOf(line) == Line(DATA_FIELD, REPLACEMENT) && !WellFormed(Strip(line)) && !Blank(line)
  {
    var head, bytes := DATA_FIELD + [COLON, SPACE], DATA_FIELD + [COLON, SPACE, 0xFF];
    var line := DATA_FIELD + [COLON, SPACE, 0xFF, NEWLINE];
    assert line[..|bytes|] == bytes && Strip(line) == bytes && bytes == head + [0xFF];
    HeadIsWellFormed(DATA_FIELD);
    DecodeJoin(head, [0xFF]);
    assert Decode([0xFF]).clean == false && Decode([0xFF][1..]).text == [];
  }

  lemma BadStreamBlocks()
    ensures AllBlocks(SplitLines(BAD_STREAM), Blank) == [[DATA_FIELD + [COLON, SPACE, 0xFF, NEWLINE]]]
  {
    var bytes, line := DATA_FIELD + [COLON, SPACE, 0xFF], DATA_FIELD + [COLON, SPACE, 0xFF, NEWLINE];
    assert BAD_STREAM == line + [NEWLINE] && line == bytes + [NEWLINE];
    LineEndOfText(bytes, [NEWLINE]);
    SplitFirst(line, [NEWLINE]);
    assert SplitLines([NEWLINE]) == [[NEWLINE]] by {
      assert [NEWLINE][..1] == [NEWLINE];
    }
    BadLineText();
    BlockFirst([line], [NEWLINE], [], Blank);
    assert [line] + [[NEWLINE]] + [] == [line] + [[NEWLINE]];
    assert AllBlocks<Data>([], Blank) == [];
  }

  /** Its one event reads as a replacement character with an error, and is replayed without the error. */
  lemma ReplayLosesDecodeError()
    ensures var events := EventsOf(AllBlocks(SplitLines(BAD_STREAM), Blank));
      |events| == 1 && events[0].data == [REPLACEMENT] && events[0].undecodable.Some? && Replayed(events) != events
  {
    var block := [DATA_FIELD + [COLON, SPACE, 0xFF, NEWLINE]];
    BadStreamBlocks();
    BadLineText();
    EventsAt([block]);
    assert block[..0] == [] && Texts(block) == [Line(DATA_FIELD, REPLACEMENT)];
    LineParts(DATA_FIELD, REPLACEMENT);
    OneLineValues(DATA_FIELD, REPLACEMENT, DATA_FIELD);
    var events := EventsOf([block]);
    assert events[0] in events;
    ReplayKeepsText(BAD_STREAM);
    WithoutErrorsSame(events, Replayed(events));
  }

  // ---- rendering and reading ----

  datatype Message = Message(name: Data, id: Option<Data>, data: seq<Data>) {
    predicate Renderable() {
      name != [] && Plain(name) && (id.Some? ==> Plain(id.value) && NUL !in id.value) &&
      forall d :: d in data ==> Plain(d)
    }
  }

  /** Text without line breaks. */
  predicate Plain(text: Data) {
    NEWLINE !in text && CARRIAGE_RETURN !in text && WellFormed(text)
  }

  function Line(field: Data, value: Data): Data {
    field + [COLON, SPACE] + value
  }

  function DataLines(data: seq<Data>): seq<Data> {
    if data == [] then [] else DataLines(data[..|data| - 1]) + [Line(DATA_FIELD, data[|data| - 1])]
  }

  lemma {:induction false} DataLinesAreClean(data: seq<Data>)
    requires forall d :: d in data ==> Plain(d)
    ensures forall l :: l in DataLines(data) ==> Clean(l)
  {
    if data == [] {
    } else {
      var init, last := data[..|data| - 1], data[|data| - 1];
      assert last in data && forall d :: d in init ==> d in data;
      DataLinesAreClean(init);
      LineIsClean(DATA_FIELD, last);
    }
  }

  function Render(m: Message): seq<Data> {
    [Line(EVENT_FIELD, m.name)] + (if m.id.Some? then [Line(ID_FIELD, m.id.value)] else []) + DataLines(m.data)
  }

  function RenderAll(messages: seq<Message>): (raws: seq<seq<Data>>)
    ensures |raws| == |messages| && forall i :: 0 <= i < |messages| ==> raws[i] == Render(messages[i])
  {
    if messages == [] then [] else [Render(messages[0])] + RenderAll(messages[1..])
  }

  lemma ColonOf(field: Data, rest: Data)
    requires COLON !in field
    ensures ColonAt(field + [COLON] + rest) == |field|
  {
    var line := field + [COLON] + rest;
    if field == [] {
    } else {
      assert line[1..] == field[1..] + [COLON] + rest;
      ColonOf(field[1..], rest);
    }
  }

  lemma LineParts(field: Data, value: Data)
    requires COLON !in field
    ensures Field(Line(field, value)) == field && Value(Line(field, value)) == value
  {
    var line := Line(field, value);
    assert line == field + [COLON] + ([SPACE] + value);
    ColonOf(field, [SPACE] + value);
    assert line[..|field|] == field && line[|field| + 1..] == [SPACE] + value;
  }

  lemma LineIsClean(field: Data, value: Data)
    requires field in {DATA_FIELD, EVENT_FIELD, ID_FIELD} && Plain(value)
    ensures Clean(Line(field, value))
  {
    var line := Line(field, value);
    HeadIsWellFormed(field);
    DecodeJoin(field + [COLON, SPACE], value);
    assert line[|line| - 1] == if value == [] then SPACE else value[|value| - 1];
  }

  lemma {:induction false} DataLineValues(data: seq<Data>, field: Data)
    ensures Values(DataLines(data), field) == if field == DATA_FIELD then data else []
  {
    if data == [] {
    } else {
      var init, last := data[..|data| - 1], data[|data| - 1];
      DataLineValues(init, field);
      LineParts(DATA_FIELD, last);
      ValuesAppend(DataLines(init), Line(DATA_FIELD, last), field);
    }
  }

  lemma {:induction false} ValuesJoin(a: seq<Data>, b: seq<Data>, field: Data)
    ensures Values(a + b, field) == Values(a, field) + Values(b, field)
  {
    if b == [] {
      assert a + b == a;
    } else {
      ValuesJoin(a, b[..|b| - 1], field);
      assert (a + b)[..|a + b| - 1] == a + b[..|b| - 1];
    }
  }

  lemma OneLineValues(field: Data, value: Data, asked: Data)
    requires COLON !in field
    ensures Values([Line(field, value)], asked) == if asked == field then [value] else []
  {
    LineParts(field, value);
    ValuesAppend([], Line(field, value), asked);
  }

  /** The values of one field in a rendered message. */
  lemma RenderedValues(m: Message, field: Data)
    ensures Values(Render(m), field) ==
      (if field == EVENT_FIELD then [m.name] else []) +
      (if field == ID_FIELD && m.id.Some? then [m.id.value] else []) +
      (if field == DATA_FIELD then m.data else [])
  {
    var head := [Line(EVENT_FIELD, m.name)];
    var ids := if m.id.Some? then [Line(ID_FIELD, m.id.value)] else [];
    OneLineValues(EVENT_FIELD, m.name, field);
    if m.id.Some? {
      OneLineValues(ID_FIELD, m.id.value, field);
    }
    DataLineValues(m.data, field);
    ValuesJoin(head + ids, DataLines(m.data), field);
    ValuesJoin(head, ids, field);
  }

  lemma RenderMeans(m: Message)
    requires m.Renderable()
    ensures var e := TextMeaning(Render(m)); e.name == m.name && e.id == m.id && e.data == m.data
  {
    var texts := Render(m);
    RenderedValues(m, DATA_FIELD);
    RenderedValues(m, EVENT_FIELD);
    RenderedValues(m, ID_FIELD);
    assert Values(texts, EVENT_FIELD) == [m.name] && Values(texts, DATA_FIELD) == m.data;
    var keep := (value: Data) => NUL !in value;
    assert Values(texts, ID_FIELD) == if m.id.Some? then [m.id.value] else [];
    if m.id.Some? {
      assert [m.id.value][..0] == [] && Filter([m.id.value], keep) == Filter([], keep) + [m.id.value];
    }
  }

  /** Messages rendered one after the other are read back, each with its name, id and data. */
  lemma {:induction false} RenderedMessagesReadBack(messages: seq<Message>)
    requires forall i :: 0 <= i < |messages| ==> messages[i].Renderable()
    ensures var events := EventsOf(AllBlocks(SplitLines(Payloads(RenderAll(messages))), Blank));
      |events| == |messages| &&
      forall i :: 0 <= i < |messages| ==>
        events[i].name == messages[i].name && events[i].id == messages[i].id && events[i].data == messages[i].data
  {
    var raws := RenderAll(messages);
    forall i | 0 <= i < |messages|
      ensures forall t :: t in raws[i] ==> Clean(t)
    {
      LineIsClean(EVENT_FIELD, messages[i].name);
      if messages[i].id.Some? {
        LineIsClean(ID_FIELD, messages[i].id.value);
      }
      DataLinesAreClean(messages[i].data);
    }
    PayloadsReadBack(raws);
    forall i | 0 <= i < |messages|
      ensures var e := TextMeaning(raws[i]);
        e.name == messages[i].name && e.id == messages[i].id && e.data == messages[i].data
    {
      RenderMeans(messages[i]);
    }
  }
}
