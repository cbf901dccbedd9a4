/** What the lines of a block say of its event, line by line; and when a block is too large. */
module SseFields {
  import opened Common
  import opened Bytes
  import opened Utf8
  import opened Blocks
  import opened Sse
  import opened SseReplay

  // ---- one line ----

  /** A field line with and without the space, and one without a colon; a comment names no field. */
  lemma FieldForms(field: Data, value: Data)
    requires COLON !in field
    ensures Field(field + [COLON, SPACE] + value) == field && Value(field + [COLON, SPACE] + value) == value
    ensures Field(field + [COLON] + value) == field
    ensures value == [] || value[0] != SPACE ==> Value(field + [COLON] + value) == value
    ensures Field(field) == field && Value(field) == []
    ensures Field([COLON] + value) == []
  {
    LineParts(field, value);
    ColonOf(field, value);
    ColonOf([], value);
    var line := field + [COLON] + value;
    assert line[..|field|] == field && line[|field| + 1..] == value;
    assert [] + [COLON] + value == [COLON] + value;
    NoColon(field);
  }

  lemma {:induction false} NoColon(line: Data)
    requires COLON !in line
    ensures ColonAt(line) == |line|
  {
    if line == [] {
    } else {
      NoColon(line[1..]);
    }
  }

  /** Stripping takes carriage returns and newlines off the end, all of them and nothing else. */
  lemma {:induction false} StripIs(line: Data)
    ensures Strip(line) <= line
    ensures forall i :: |Strip(line)| <= i < |line| ==> line[i] == NEWLINE || line[i] == CARRIAGE_RETURN
    ensures Strip(line) != [] ==>
      var last := Strip(line)[|Strip(line)| - 1]; last != NEWLINE && last != CARRIAGE_RETURN
  {
    if line == [] {
    } else {
      StripIs(line[..|line| - 1]);
    }
  }

  // ---- one block ----

  /** Line i is the last one with this field whose value passes the test. */
  ghost predicate LastWith(texts: seq<Data>, field: Data, test: Data -> bool, i: int) {
    0 <= i < |texts| && Field(texts[i]) == field && test(Value(texts[i])) &&
    forall j :: i < j < |texts| && Field(texts[j]) == field ==> !test(Value(texts[j]))
  }

  function Passing(texts: seq<Data>, field: Data, test: Data -> bool): seq<Data> {
    Filter(Values(texts, field), test)
  }

  lemma PassingAppend(init: seq<Data>, last: Data, field: Data, test: Data -> bool)
    ensures Passing(init + [last], field, test) ==
      Passing(init, field, test) + (if Field(last) == field && test(Value(last)) then [Value(last)] else [])
  {
    ValuesAppend(init, last, field);
    var values := Values(init, field);
    FilterAppend(values, if Field(last) == field then [Value(last)] else [], test);
    assert [Value(last)][..0] == [];
  }

  lemma {:induction false} LastPassing(texts: seq<Data>, field: Data, test: Data -> bool, v: Data)
    ensures LastOf(Passing(texts, field, test)) == Some(v) <==>
      exists i :: LastWith(texts, field, test, i) && Value(texts[i]) == v
  {
    if texts == [] {
    } else {
      var init, last := texts[..|texts| - 1], texts[|texts| - 1];
      assert texts == init + [last];
      PassingAppend(init, last, field, test);
      if Field(last) == field && test(Value(last)) {
        assert LastWith(texts, field, test, |init|);
      } else {
        LastPassing(init, field, test, v);
        assert Passing(texts, field, test) == Passing(init, field, test);
        forall i: int
          ensures LastWith(texts, field, test, i) <==> LastWith(init, field, test, i)
        {
          assert 0 <= i < |init| ==> texts[i] == init[i];
        }
      }
    }
  }

  /** The id is the value of the last id line that has no NUL in it; lines with one are as good as absent. */
  lemma IdIs(texts: seq<Data>, v: Data)
    ensures IdOf(texts) == Some(v) <==>
      exists i :: LastWith(texts, ID_FIELD, (value: Data) => NUL !in value, i) && Value(texts[i]) == v
  {
    LastPassing(texts, ID_FIELD, (value: Data) => NUL !in value, v);
  }

  lemma {:induction false} FilterAll(s: seq<Data>, test: Data -> bool)
    requires forall x :: test(x)
    ensures Filter(s, test) == s
  {
    if s == [] {
    } else {
      FilterAll(s[..|s| - 1], test);
    }
  }

  /** The name is the value of the last event line; "message" without one, or if that value is empty. */
  lemma NameIs(texts: seq<Data>, v: Data)
    ensures NameOf(texts) == v <==>
      if exists i :: LastWith(texts, EVENT_FIELD, (value: Data) => true, i) && Value(texts[i]) != []
      then exists i :: LastWith(texts, EVENT_FIELD, (value: Data) => true, i) && Value(texts[i]) == v
      else v == [109, 101, 115, 115, 97, 103, 101]
  {
    var any := (value: Data) => true;
    FilterAll(Values(texts, EVENT_FIELD), any);
    var name := LastOf(Values(texts, EVENT_FIELD));
    LastPassing(texts, EVENT_FIELD, any, v);
    if name.Some? {
      LastPassing(texts, EVENT_FIELD, any, name.value);
    }
    forall i | LastWith(texts, EVENT_FIELD, any, i)
      ensures name == Some(Value(texts[i]))
    {
      LastPassing(texts, EVENT_FIELD, any, Value(texts[i]));
    }
  }

  /** The decode error of a block is that of its first line that does not decode. */
  lemma {:induction false} FirstBadIs(block: seq<Data>, b: Data)
    ensures FirstBad(block) == Some(b) <==> exists i :: IsFirstBad(block, i) && Strip(block[i]) == b
  {
    if block == [] {
    } else {
      var init, last := block[..|block| - 1], block[|block| - 1];
      assert block == init + [last];
      FirstBadIs(init, b);
      forall i: int | i < |init|
        ensures IsFirstBad(block, i) <==> IsFirstBad(init, i)
      {
        assert forall j :: 0 <= j < |init| ==> block[j] == init[j];
      }
      NoneBadIff(init);
      assert IsFirstBad(block, |init|) <==> FirstBad(init).None? && !WellFormed(Strip(last)) by {
        assert AllDecode(init) <==> forall j :: 0 <= j < |init| ==> WellFormed(Strip(block[j]));
      }
    }
  }

  ghost predicate IsFirstBad(block: seq<Data>, i: int) {
    0 <= i < |block| && !WellFormed(Strip(block[i])) && forall j :: 0 <= j < i ==> WellFormed(Strip(block[j]))
  }

  // ---- the size limit ----

  /** The lines from i up to j are all of one block, and the last of them may be the blank one that ends it. */
  ghost predicate OneBlock<T>(lines: seq<T>, blank: T -> bool, i: int, j: int) {
    0 <= i <= j <= |lines| && forall k :: i <= k < j - 1 ==> !blank(lines[k])
  }

  lemma {:induction false} TotalGrows<T>(lines: seq<T>, size: T -> nat, i: nat, j: nat)
    requires i <= j <= |lines|
    ensures Total(lines[i..j], size) <= Total(lines[..j], size)
    decreases j
  {
    if i == j {
      assert lines[i..j] == [];
    } else {
      TotalGrows(lines, size, i, j - 1);
      assert lines[i..j][..j - i - 1] == lines[i..j - 1] && lines[..j][..j - 1] == lines[..j - 1];
    }
  }

  lemma {:induction false} TotalPrefix<T>(lines: seq<T>, size: T -> nat, j: nat)
    requires j <= |lines|
    ensures Total(lines[..j], size) <= Total(lines, size)
    decreases |lines|
  {
    if j == |lines| {
      assert lines[..j] == lines;
    } else {
      var init := lines[..|lines| - 1];
      TotalPrefix(init, size, j);
      assert init[..j] == lines[..j];
    }
  }

  /** The first block, with the blank line that ends it. */
  function Cut<T>(lines: seq<T>, blank: T -> bool): (cut: nat)
    ensures cut <= |lines|
  {
    var k := FirstBlank(lines, blank);
    if k == |lines| then k else k + 1
  }

  lemma FitsFirst<T>(lines: seq<T>, blank: T -> bool, size: T -> nat, limit: nat)
    ensures Fits(lines, blank, size, limit) <==>
      Total(lines[..Cut(lines, blank)], size) <= limit &&
      (FirstBlank(lines, blank) < |lines| ==> Fits(lines[Cut(lines, blank)..], blank, size, limit))
  {
    if FirstBlank(lines, blank) == |lines| {
      assert lines[..|lines|] == lines;
    }
  }

  lemma {:induction false} StretchFits<T>(lines: seq<T>, blank: T -> bool, size: T -> nat, limit: nat, i: int, j: int)
    requires Fits(lines, blank, size, limit) && OneBlock(lines, blank, i, j)
    ensures Total(lines[i..j], size) <= limit
    decreases |lines|
  {
    var cut := Cut(lines, blank);
    FitsFirst(lines, blank, size, limit);
    if j <= cut {
      StretchOfFirst(lines, size, cut, i, j);
    } else {
      LaterBlock(lines, blank, i, j);
      StretchFits(lines[cut..], blank, size, limit, i - cut, j - cut);
    }
  }

  lemma StretchOfFirst<T>(lines: seq<T>, size: T -> nat, cut: nat, i: int, j: int)
    requires 0 <= i <= j <= cut <= |lines|
    ensures Total(lines[i..j], size) <= Total(lines[..cut], size)
  {
    TotalGrows(lines, size, i, j);
    TotalPrefix(lines[..cut], size, j);
    assert lines[..cut][..j] == lines[..j];
  }

  /** A block that ends after the first one lies after it. */
  lemma LaterBlock<T>(lines: seq<T>, blank: T -> bool, i: int, j: int)
    requires OneBlock(lines, blank, i, j) && j > Cut(lines, blank)
    ensures var cut := Cut(lines, blank);
      i >= cut && FirstBlank(lines, blank) < |lines| && OneBlock(lines[cut..], blank, i - cut, j - cut) &&
      lines[cut..][i - cut..j - cut] == lines[i..j]
  {
    var cut := Cut(lines, blank);
    if cut == |lines| && FirstBlank(lines, blank) == |lines| {
      assert false;
    }
    assert blank(lines[cut - 1]) && i >= cut;
    Drop(lines, cut, i, j);
    forall k | i - cut <= k < j - cut - 1
      ensures !blank(lines[cut..][k])
    {
      assert lines[cut..][k] == lines[cut + k];
    }
  }

  lemma Drop<T>(lines: seq<T>, cut: nat, i: int, j: int)
    requires cut <= i <= j <= |lines|
    ensures lines[cut..][i - cut..j - cut] == lines[i..j]
  {
  }

  lemma {:induction false} StretchesFit<T>(lines: seq<T>, blank: T -> bool, size: T -> nat, limit: nat)
    requires forall i, j :: OneBlock(lines, blank, i, j) ==> Total(lines[i..j], size) <= limit
    ensures Fits(lines, blank, size, limit)
    decreases |lines|
  {
    var cut := Cut(lines, blank);
    FitsFirst(lines, blank, size, limit);
    assert OneBlock(lines, blank, 0, cut) && lines[0..cut] == lines[..cut];
    if FirstBlank(lines, blank) < |lines| {
      var rest := lines[cut..];
      forall i, j | OneBlock(rest, blank, i, j)
        ensures Total(rest[i..j], size) <= limit
      {
        assert forall x :: 0 <= x < |rest| ==> rest[x] == lines[cut + x];
        assert OneBlock(lines, blank, cut + i, cut + j) && rest[i..j] == lines[cut + i..cut + j];
      }
      StretchesFit(rest, blank, size, limit);
    }
  }

  /** Everything fits exactly if no stretch of lines of one block is larger than the limit. */
  lemma FitsIff<T>(lines: seq<T>, blank: T -> bool, size: T -> nat, limit: nat)
    ensures Fits(lines, blank, size, limit) <==>
      forall i, j :: OneBlock(lines, blank, i, j) ==> Total(lines[i..j], size) <= limit
  {
    if Fits(lines, blank, size, limit) {
      forall i, j | OneBlock(lines, blank, i, j)
        ensures Total(lines[i..j], size) <= limit
      {
        StretchFits(lines, blank, size, limit, i, j);
      }
    } else if forall i, j :: OneBlock(lines, blank, i, j) ==> Total(lines[i..j], size) <= limit {
      StretchesFit(lines, blank, size, limit);
    }
  }

  // ---- an example, byte by byte ----

  /** "event: x", "id: 7", "data: y" and a blank line. */
  lemma RenderedBytes()
    ensures Payload(Render(Message([120], Some([55]), [[121]]))) ==
      [101, 118, 101, 110, 116, 58, 32, 120, 10] + [105, 100, 58, 32, 55, 10] +
      [100, 97, 116, 97, 58, 32, 121, 10] + [10]
  {
  }
}
