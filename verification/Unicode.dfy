/**
 Code points and their bytes: the decoder accepts exactly the encodings of texts without
 surrogates, and JSON text is safe exactly if its encoding is accepted.
 */
module Unicode {
  import opened Common
  import opened Bytes
  import opened Utf8
  import opened JsonTree
  import J = JsonAdmission

  /** Code points that have an encoding, and those that would only fit the pattern. */
  predicate CodePoint(c: int) {
    0 <= c < 0x110000
  }

  predicate Surrogate(c: int) {
    0xD800 <= c < 0xE000
  }

  /** The bytes of the UTF-8 pattern for a code point, surrogates included. */
  function Encoded(c: int): (bytes: Data)
    requires CodePoint(c)
    ensures 1 <= |bytes| <= 4
  {
    if c < 0x80 then [c]
    else if c < 0x800 then [0xC0 + c / 64, 0x80 + c % 64]
    else if c < 0x10000 then [0xE0 + c / 4096, 0x80 + c / 64 % 64, 0x80 + c % 64]
    else [0xF0 + c / 262144, 0x80 + c / 4096 % 64, 0x80 + c / 64 % 64, 0x80 + c % 64]
  }

  function EncodedText(text: Text): Data
    requires forall c :: c in text ==> CodePoint(c)
  {
    if text == [] then [] else Encoded(text[0]) + EncodedText(text[1..])
  }

  /** A code point that is no surrogate makes one whole sequence. */
  lemma ScalarIsWhole(c: int)
    requires CodePoint(c) && !Surrogate(c)
    ensures UnitWhole(Encoded(c)) && UnitLength(Encoded(c)) == |Encoded(c)|
  {
  }

  /** A surrogate does not: its second byte is out of range. */
  lemma SurrogateIsBroken(c: int, rest: Data)
    requires Surrogate(c)
    ensures !UnitWhole(Encoded(c) + rest)
  {
    var s := Encoded(c) + rest;
    assert s[0] == 0xED && s[1] == 0x80 + c / 64 % 64 && s[1] > 0x9F;
  }

  /** A text's encoding is well-formed exactly if the text has no surrogate. */
  lemma {:induction false} TextDecodesIff(text: Text)
    requires forall c :: c in text ==> CodePoint(c)
    ensures WellFormed(EncodedText(text)) <==> forall c :: c in text ==> !Surrogate(c)
  {
    if text == [] {
    } else {
      var c, rest := text[0], text[1..];
      assert text == [c] + rest;
      TextDecodesIff(rest);
      if Surrogate(c) {
        SurrogateIsBroken(c, EncodedText(rest));
        assert c in text;
      } else {
        ScalarIsWhole(c);
        UnitFirst(Encoded(c), EncodedText(rest));
      }
    }
  }

  /** JSON text enters the local surfaces exactly if its encoding decodes. */
  lemma EncodableIff(text: Text)
    requires forall c :: c in text ==> CodePoint(c)
    ensures J.Encodable(text) <==> WellFormed(EncodedText(text))
  {
    TextDecodesIff(text);
  }

  /** The code point of one whole sequence. */
  function CodeOf(unit: Data): int
    requires 1 <= |unit| <= 4
  {
    if |unit| == 1 then unit[0]
    else if |unit| == 2 then Shifted(unit[0] as int - 0xC0, unit[1])
    else if |unit| == 3 then Shifted(Shifted(unit[0] as int - 0xE0, unit[1]), unit[2])
    else Shifted(Shifted(Shifted(unit[0] as int - 0xF0, unit[1]), unit[2]), unit[3])
  }

  /** Six more bits. */
  function Shifted(high: int, b: Byte): int {
    high * 64 + (b as int - 0x80)
  }

  lemma Sextets(high: int, b: Byte)
    requires Continues(b)
    ensures Shifted(high, b) / 64 == high && Shifted(high, b) % 64 == b - 0x80
  {
  }

  lemma TwoBytes(unit: Data)
    requires |unit| == 2 && UnitWhole(unit) && UnitLength(unit) == 2
    ensures CodePoint(CodeOf(unit)) && !Surrogate(CodeOf(unit)) && Encoded(CodeOf(unit)) == unit
  {
    Sextets(unit[0] as int - 0xC0, unit[1]);
  }

  lemma ThreeBytes(unit: Data)
    requires |unit| == 3 && UnitWhole(unit) && UnitLength(unit) == 3
    ensures CodePoint(CodeOf(unit)) && !Surrogate(CodeOf(unit)) && Encoded(CodeOf(unit)) == unit
  {
    var high := Shifted(unit[0] as int - 0xE0, unit[1]);
    var c := CodeOf(unit);
    Sextets(unit[0] as int - 0xE0, unit[1]);
    Sextets(high, unit[2]);
    assert c / 64 == high && c / 4096 == c / 64 / 64 == unit[0] - 0xE0;
  }

  lemma FourBytes(unit: Data)
    requires |unit| == 4 && UnitWhole(unit) && UnitLength(unit) == 4
    ensures CodePoint(CodeOf(unit)) && !Surrogate(CodeOf(unit)) && Encoded(CodeOf(unit)) == unit
  {
    var high := Shifted(unit[0] as int - 0xF0, unit[1]);
    var middle := Shifted(high, unit[2]);
    var c := CodeOf(unit);
    Sextets(unit[0] as int - 0xF0, unit[1]);
    Sextets(high, unit[2]);
    Sextets(middle, unit[3]);
    assert c / 64 == middle && c / 4096 == c / 64 / 64 == high && c / 262144 == c / 64 / 64 / 64 == unit[0] - 0xF0;
  }

  lemma WholeIsScalar(unit: Data)
    requires unit != [] && UnitWhole(unit) && UnitLength(unit) == |unit|
    ensures CodePoint(CodeOf(unit)) && !Surrogate(CodeOf(unit)) && Encoded(CodeOf(unit)) == unit
  {
    if |unit| == 2 {
      TwoBytes(unit);
    } else if |unit| == 3 {
      ThreeBytes(unit);
    } else if |unit| == 4 {
      FourBytes(unit);
    }
  }

  /** The decoder accepts exactly the encodings of texts without surrogates. */
  lemma {:induction false} WellFormedIff(s: Data)
    ensures WellFormed(s) <==> exists text: Text ::
      (forall c :: c in text ==> CodePoint(c) && !Surrogate(c)) && EncodedText(text) == s
  {
    if text: Text :| (forall c :: c in text ==> CodePoint(c) && !Surrogate(c)) && EncodedText(text) == s {
      TextDecodesIff(text);
    }
    if WellFormed(s) {
      var text := TextFor(s);
    }
  }

  lemma {:induction false} TextFor(s: Data) returns (text: Text)
    requires WellFormed(s)
    ensures (forall c :: c in text ==> CodePoint(c) && !Surrogate(c)) && EncodedText(text) == s
    decreases |s|
  {
    if s == [] {
      text := [];
    } else {
      CleanParts(s);
      var unit, rest := s[..UnitLength(s)], s[UnitLength(s)..];
      WholeIsScalar(unit);
      var more := TextFor(rest);
      text := [CodeOf(unit)] + more;
      assert text[1..] == more;
    }
  }

  /** These bytes begin a whole sequence, or are one. */
  predicate Begins(part: Data, whole: Data) {
    part <= whole && whole != [] && UnitWhole(whole) && UnitLength(whole) == |whole|
  }

  /** The first part of s, with the byte after it. */
  function OneMore(s: Data): Data
    requires s != [] && UnitLength(s) < |s|
  {
    s[..UnitLength(s) + 1]
  }

  /**
   What is replaced is a maximal part: if it is longer than a byte it begins some whole
   sequence, and with the next byte it would begin none.
   */
  lemma BrokenPartIsMaximal(s: Data)
    requires s != [] && !UnitWhole(s)
    ensures UnitLength(s) > 1 ==> exists whole :: Begins(s[..UnitLength(s)], whole)
    ensures UnitLength(s) < |s| ==> forall whole :: !Begins(OneMore(s), whole)
  {
    var n := UnitLength(s);
    if n > 1 {
      var more: Data := if Width(s[0]) == n + 1 then [0x80] else [0x80, 0x80];
      assert Begins(s[..n], s[..n] + more);
    }
    if n < |s| {
      forall whole
        ensures !Begins(OneMore(s), whole)
      {
        assert OneMore(s) <= whole ==> forall i :: 0 <= i <= n ==> whole[i] == OneMore(s)[i];
      }
    }
  }
}
