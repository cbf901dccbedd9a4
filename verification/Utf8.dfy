/**
 Decoding text with replacement: every maximal ill-formed part of the input becomes one
 U+FFFD. Decoded text is kept as its own UTF-8 bytes.
 */
module Utf8 {
  import opened Common
  import opened Bytes

  /** U+FFFD, encoded. */
  const REPLACEMENT: Data := [0xEF, 0xBF, 0xBD]

  datatype Decoded = Decoded(text: Data, clean: bool)

  predicate Continues(b: Byte) {
    0x80 <= b <= 0xBF
  }

  /** How many bytes the sequence that b starts takes; 0 if none starts with b. */
  function Width(b: Byte): nat {
    if b < 0x80 then 1
    else if 0xC2 <= b <= 0xDF then 2
    else if 0xE0 <= b <= 0xEF then 3
    else if 0xF0 <= b <= 0xF4 then 4
    else 0
  }

  /** May the second byte follow the first? Overlong forms, surrogates and values above U+10FFFF are cut off here. */
  predicate Second(first: Byte, b: Byte) {
    Continues(b) && (first == 0xE0 ==> b >= 0xA0) && (first == 0xED ==> b <= 0x9F) &&
    (first == 0xF0 ==> b >= 0x90) && (first == 0xF4 ==> b <= 0x8F)
  }

  /** The longest part of a well-formed sequence that s starts with, at least one byte. */
  function UnitLength(s: Data): (n: nat)
    requires s != []
    ensures 1 <= n <= |s| && n <= 4
  {
    var w := Width(s[0]);
    if w < 2 || |s| < 2 || !Second(s[0], s[1]) then 1
    else if w == 2 || |s| < 3 || !Continues(s[2]) then 2
    else if w == 3 || |s| < 4 || !Continues(s[3]) then 3
    else 4
  }

  /** Is that part a whole sequence? */
  predicate UnitWhole(s: Data)
    requires s != []
  {
    UnitLength(s) == Width(s[0])
  }

  /** `bytes.decode("utf-8", errors="replace")`, and whether a strict decoding would have succeeded. */
  function Decode(s: Data): Decoded {
    if s == [] then Decoded([], true)
    else
      var n := UnitLength(s);
      var rest := Decode(s[n..]);
      Decoded((if UnitWhole(s) then s[..n] else REPLACEMENT) + rest.text, UnitWhole(s) && rest.clean)
  }

  /** Bytes that are well-formed UTF-8. */
  predicate WellFormed(s: Data) {
    Decode(s).clean
  }

  lemma {:induction false} CleanIsUnchanged(s: Data)
    requires WellFormed(s)
    ensures Decode(s).text == s
  {
    if s == [] {
    } else {
      CleanIsUnchanged(s[UnitLength(s)..]);
    }
  }

  /** A whole sequence in front is decoded by itself. */
  lemma UnitFirst(unit: Data, rest: Data)
    requires unit != [] && UnitWhole(unit) && UnitLength(unit) == |unit|
    ensures Decode(unit + rest) == Decoded(unit + Decode(rest).text, Decode(rest).clean)
  {
    var s := unit + rest;
    assert UnitLength(s) == |unit| && UnitWhole(s);
    assert s[..|unit|] == unit && s[|unit|..] == rest;
  }

  lemma CleanParts(a: Data)
    requires a != [] && WellFormed(a)
    ensures var unit, rest := a[..UnitLength(a)], a[UnitLength(a)..];
      unit + rest == a && WellFormed(rest) && UnitWhole(unit) && UnitLength(unit) == |unit|
  {
    UnitIsItsOwn(a);
  }

  /** Well-formed bytes in front are decoded by themselves. */
  lemma {:induction false} DecodeJoin(a: Data, b: Data)
    requires WellFormed(a)
    ensures Decode(a + b) == Decoded(a + Decode(b).text, Decode(b).clean)
  {
    if a == [] {
      assert a + b == b;
    } else {
      var n := UnitLength(a);
      CleanParts(a);
      DecodeJoin(a[n..], b);
      JoinAfterUnit(a[..n], a[n..], b);
    }
  }

  lemma JoinAfterUnit(unit: Data, rest: Data, b: Data)
    requires unit != [] && UnitWhole(unit) && UnitLength(unit) == |unit|
    requires Decode(rest + b) == Decoded(rest + Decode(b).text, Decode(b).clean)
    ensures Decode(unit + rest + b) == Decoded(unit + rest + Decode(b).text, Decode(b).clean)
  {
    Regroup(unit, rest, b);
    Regroup(unit, rest, Decode(b).text);
    UnitFirst(unit, rest + b);
  }

  lemma UnitIsItsOwn(s: Data)
    requires s != [] && UnitWhole(s)
    ensures UnitWhole(s[..UnitLength(s)]) && UnitLength(s[..UnitLength(s)]) == UnitLength(s)
  {
  }

  /** Decoded text is well-formed, so decoding it again changes nothing and finds no error. */
  lemma {:induction false} DecodedIsClean(s: Data)
    ensures Decode(Decode(s).text) == Decoded(Decode(s).text, true)
  {
    if s == [] {
    } else {
      var n := UnitLength(s);
      DecodedIsClean(s[n..]);
      if UnitWhole(s) {
        UnitIsItsOwn(s);
        UnitFirst(s[..n], Decode(s[n..]).text);
      } else {
        UnitFirst(REPLACEMENT, Decode(s[n..]).text);
      }
    }
  }

  lemma EmptyIffEmpty(s: Data)
    ensures Decode(s).text == [] <==> s == []
  {
  }

  /** The bytes of a broken part are none of the ASCII ones. */
  lemma BrokenIsNotAscii(s: Data, i: nat)
    requires s != [] && !UnitWhole(s) && i < UnitLength(s)
    ensures s[i] >= 0x80
  {
  }

  const ASCII: Byte -> bool := (b: Byte) => b < 0x80

  lemma {:induction false} NoAscii(s: Data)
    requires forall i :: 0 <= i < |s| ==> s[i] >= 0x80
    ensures Filter(s, ASCII) == []
  {
    if s == [] {
    } else {
      NoAscii(s[..|s| - 1]);
    }
  }

  /** Decoding leaves the ASCII bytes as they are: the same ones, as often and in the same order. */
  lemma {:induction false} AsciiKept(s: Data)
    ensures Filter(Decode(s).text, ASCII) == Filter(s, ASCII)
  {
    if s == [] {
    } else {
      var n := UnitLength(s);
      var unit, rest := s[..n], s[n..];
      AsciiKept(rest);
      assert s == unit + rest;
      FilterAppend(unit, rest, ASCII);
      FilterAppend(if UnitWhole(s) then unit else REPLACEMENT, Decode(rest).text, ASCII);
      if !UnitWhole(s) {
        BrokenHasNoAscii(s);
      }
    }
  }

  lemma BrokenHasNoAscii(s: Data)
    requires s != [] && !UnitWhole(s)
    ensures Filter(s[..UnitLength(s)], ASCII) == Filter(REPLACEMENT, ASCII) == []
  {
    forall i | 0 <= i < UnitLength(s)
      ensures s[i] >= 0x80
    {
      BrokenIsNotAscii(s, i);
    }
    NoAscii(s[..UnitLength(s)]);
    NoAscii(REPLACEMENT);
  }

  /** So decoding neither makes nor removes an ASCII byte. */
  lemma AsciiStays(s: Data, b: Byte)
    requires b < 0x80
    ensures b in Decode(s).text <==> b in s
  {
    AsciiKept(s);
    FilterMember(s, ASCII, b);
    FilterMember(Decode(s).text, ASCII, b);
  }

  /** An ASCII byte stands by itself: what is around it is well-formed together exactly if each part is. */
  lemma AsciiSeparates(a: Data, b: Byte, rest: Data)
    requires b < 0x80
    ensures WellFormed(a + [b] + rest) <==> WellFormed(a) && WellFormed(rest)
  {
    var s := a + [b] + rest;
    if a == [] {
      assert s[1..] == rest;
    } else {
      var n := UnitLength(a);
      assert UnitLength(s) == n;
      assert s[n..] == a[n..] + [b] + rest;
      AsciiSeparates(a[n..], b, rest);
    }
  }

  /** The last byte is an ASCII byte before decoding exactly if it is the same byte afterwards. */
  lemma LastAsciiStays(s: Data, b: Byte)
    requires s != [] && b < 0x80
    ensures Decode(s).text != []
    ensures var text := Decode(s).text; text[|text| - 1] == b <==> s[|s| - 1] == b
  {
    var n := UnitLength(s);
    if n == |s| {
      assert s[..n] == s && Decode(s[n..]).text == [];
      if !UnitWhole(s) {
        BrokenIsNotAscii(s, n - 1);
      }
    } else {
      LastAsciiStays(s[n..], b);
    }
  }
}
