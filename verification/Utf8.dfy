/**
 UTF-8 as RFC 3629 defines it, and the two loops that walk a cut position back to a character boundary.
 */
module Utf8 {
  type Byte = b: int | 0 <= b < 256

  // A Unicode scalar value: surrogates are excluded.
  type Scalar = c: int | 0 <= c < 0xD800 || 0xE000 <= c <= 0x10FFFF

  // ----- Encoding (section 3 of RFC 3629) -----

  function Encode(c: Scalar): (s: seq<Byte>)
    ensures 1 <= |s| <= 4
  {
    if c < 0x80 then [c]
    else if c < 0x800 then [0xC0 + c / 0x40, 0x80 + c % 0x40]
    else if c < 0x10000 then [0xE0 + c / 0x1000, 0x80 + c / 0x40 % 0x40, 0x80 + c % 0x40]
    else [0xF0 + c / 0x40000, 0x80 + c / 0x1000 % 0x40, 0x80 + c / 0x40 % 0x40, 0x80 + c % 0x40]
  }

  function EncodeAll(cs: seq<Scalar>): seq<Byte> {
    if cs == [] then [] else Encode(cs[0]) + EncodeAll(cs[1..])
  }

  // ----- Syntax (section 4 of RFC 3629) -----

  predicate IsTail(b: Byte) { 0x80 <= b <= 0xBF }

  predicate IsOneChar(s: seq<Byte>) {
    || (|s| == 1 && s[0] <= 0x7F)
    || (|s| == 2 && 0xC2 <= s[0] <= 0xDF && IsTail(s[1]))
    || (|s| == 3 && IsTail(s[1]) && IsTail(s[2])
        && ((s[0] == 0xE0 && 0xA0 <= s[1]) || 0xE1 <= s[0] <= 0xEC || (s[0] == 0xED && s[1] <= 0x9F)
              || 0xEE <= s[0] <= 0xEF))
    || (|s| == 4 && IsTail(s[1]) && IsTail(s[2]) && IsTail(s[3])
        && ((s[0] == 0xF0 && 0x90 <= s[1]) || 0xF1 <= s[0] <= 0xF3 || (s[0] == 0xF4 && s[1] <= 0x8F)))
  }

  // A sequence of characters, each one to four bytes long.
  predicate WellFormed(s: seq<Byte>)
    decreases |s|
  {
    || s == []
    || (|s| >= 1 && IsOneChar(s[..1]) && WellFormed(s[1..]))
    || (|s| >= 2 && IsOneChar(s[..2]) && WellFormed(s[2..]))
    || (|s| >= 3 && IsOneChar(s[..3]) && WellFormed(s[3..]))
    || (|s| >= 4 && IsOneChar(s[..4]) && WellFormed(s[4..]))
  }

  function DecodeOne(s: seq<Byte>): int
    requires IsOneChar(s)
  {
    if |s| == 1 then s[0] else if |s| == 2 then Join2(s[0], s[1])
    else if |s| == 3 then Join3(s[0], s[1], s[2]) else Join4(s[0], s[1], s[2], s[3])
  }

  function Join2(a: int, b: int): int { (a - 0xC0) * 0x40 + (b - 0x80) }
  function Join3(a: int, b: int, c: int): int { (a - 0xE0) * 0x1000 + (b - 0x80) * 0x40 + (c - 0x80) }
  function Join4(a: int, b: int, c: int, d: int): int {
    (a - 0xF0) * 0x40000 + (b - 0x80) * 0x1000 + (c - 0x80) * 0x40 + (d - 0x80)
  }

  // Each encoding is one character of the syntax and decodes to its value.
  lemma EncodeIsOneChar(c: Scalar)
    ensures IsOneChar(Encode(c)) && DecodeOne(Encode(c)) == c
  {
    if 0x800 <= c < 0x10000 {
      Split3(c);
    } else if c >= 0x10000 {
      Split4(c);
    }
  }

  lemma Split3(c: int)
    requires c >= 0
    ensures c == c / 0x1000 * 0x1000 + c / 0x40 % 0x40 * 0x40 + c % 0x40
  {
    assert c / 0x40 / 0x40 == c / 0x1000;
  }

  lemma Split4(c: int)
    requires c >= 0
    ensures c == c / 0x40000 * 0x40000 + c / 0x1000 % 0x40 * 0x1000 + c / 0x40 % 0x40 * 0x40 + c % 0x40
  {
    Split3(c);
    assert c / 0x1000 / 0x40 == c / 0x40000;
  }

  lemma DecodedIsScalar(s: seq<Byte>)
    requires IsOneChar(s)
    ensures var c := DecodeOne(s); (0 <= c < 0xD800 || 0xE000 <= c <= 0x10FFFF)
  {
  }

  lemma Join3Splits(a: int, b: int, c: int)
    requires 0x80 <= b <= 0xBF && 0x80 <= c <= 0xBF && a >= 0xE0
    ensures var v := Join3(a, b, c);
            v / 0x1000 == a - 0xE0 && v / 0x40 % 0x40 == b - 0x80 && v % 0x40 == c - 0x80
  {
    assert Join3(a, b, c) / 0x40 == (a - 0xE0) * 0x40 + (b - 0x80);
  }

  lemma Join4Splits(a: int, b: int, c: int, d: int)
    requires 0x80 <= b <= 0xBF && 0x80 <= c <= 0xBF && 0x80 <= d <= 0xBF && a >= 0xF0
    ensures var v := Join4(a, b, c, d);
            v / 0x40000 == a - 0xF0 && v / 0x1000 % 0x40 == b - 0x80 && v / 0x40 % 0x40 == c - 0x80
                && v % 0x40 == d - 0x80
  {
    var v := Join4(a, b, c, d);
    assert v / 0x40 == (a - 0xF0) * 0x1000 + (b - 0x80) * 0x40 + (c - 0x80);
    assert v / 0x1000 == (a - 0xF0) * 0x40 + (b - 0x80);
  }

  // Each character of the syntax is the encoding of its value.
  lemma DecodeThenEncode(s: seq<Byte>)
    requires IsOneChar(s)
    ensures var c := DecodeOne(s); (0 <= c < 0xD800 || 0xE000 <= c <= 0x10FFFF) && Encode(c) == s
  {
    DecodedIsScalar(s);
    if |s| == 3 {
      Join3Splits(s[0], s[1], s[2]);
    } else if |s| == 4 {
      Join4Splits(s[0], s[1], s[2], s[3]);
    }
  }

  /** What encodes some text is well formed. */
  lemma {:induction false} EncodedIsWellFormed(cs: seq<Scalar>)
    ensures WellFormed(EncodeAll(cs))
  {
    if cs != [] {
      EncodedIsWellFormed(cs[1..]);
      EncodeIsOneChar(cs[0]);
      var head, s := Encode(cs[0]), EncodeAll(cs);
      assert s[..|head|] == head && s[|head|..] == EncodeAll(cs[1..]);
    }
  }

  /** What is well formed encodes some text. */
  lemma {:induction false} WellFormedIsEncoded(s: seq<Byte>) returns (cs: seq<Scalar>)
    requires WellFormed(s)
    ensures EncodeAll(cs) == s
    decreases |s|
  {
    hide IsOneChar, DecodeOne, Encode;
    if s == [] {
      return [];
    }
    var n := if IsOneChar(s[..1]) && WellFormed(s[1..]) then 1
             else if |s| >= 2 && IsOneChar(s[..2]) && WellFormed(s[2..]) then 2
             else if |s| >= 3 && IsOneChar(s[..3]) && WellFormed(s[3..]) then 3 else 4;
    var rest := WellFormedIsEncoded(s[n..]);
    DecodeThenEncode(s[..n]);
    cs := [DecodeOne(s[..n])] + rest;
    assert s == s[..n] + s[n..];
  }

  lemma {:induction false} EncodeAppend(a: seq<Scalar>, b: seq<Scalar>)
    ensures EncodeAll(a + b) == EncodeAll(a) + EncodeAll(b)
  {
    if a == [] {
      assert a + b == b;
    } else {
      assert (a + b)[1..] == a[1..] + b;
      EncodeAppend(a[1..], b);
    }
  }

  /** The concatenation of well-formed texts is well formed. */
  lemma WellFormedConcat(a: seq<Byte>, b: seq<Byte>)
    requires WellFormed(a) && WellFormed(b)
    ensures WellFormed(a + b)
  {
    var x := WellFormedIsEncoded(a);
    var y := WellFormedIsEncoded(b);
    EncodeAppend(x, y);
    EncodedIsWellFormed(x + y);
  }

  // ----- The floor loops -----

  // The test `b & 0xC0 == 0x80`: the two top bits are 10.
  predicate IsContinuation(b: Byte) {
    b / 0x40 == 2
  }

  // Both ends are boundaries, and every byte that is no continuation byte starts a character.
  predicate IsCharBoundary(s: seq<Byte>, i: nat) {
    i == 0 || i == |s| || (i < |s| && !IsContinuation(s[i]))
  }

  function Floor(s: seq<Byte>, pos: nat): (i: nat)
    requires pos < |s| || pos == 0
    ensures i <= pos
  {
    if pos == 0 || !IsContinuation(s[pos]) then pos else Floor(s, pos - 1)
  }

  method FloorCharBoundary(s: seq<Byte>, pos: nat) returns (i: nat)
    ensures i == if pos >= |s| then |s| else Floor(s, pos)
  {
    if pos >= |s| {
      return |s|;
    }
    i := pos;
    while i > 0 && !IsCharBoundary(s, i)
      invariant i <= pos && Floor(s, i) == Floor(s, pos)
    {
      i := i - 1;
    }
  }

  method Utf8Floor(bytes: seq<Byte>, pos: nat) returns (i: nat)
    requires pos < |bytes| || pos == 0
    ensures i == Floor(bytes, pos)
  {
    i := pos;
    while i > 0 && IsContinuation(bytes[i])
      invariant i <= pos && Floor(bytes, i) == Floor(bytes, pos)
    {
      i := i - 1;
    }
  }

  // ----- The floor of an encoded text -----

  function Offset(cs: seq<Scalar>, i: nat): nat
    requires i <= |cs|
  {
    |EncodeAll(cs[..i])|
  }

  lemma EncodingBytes(c: Scalar)
    ensures !IsContinuation(Encode(c)[0]) && forall j :: 1 <= j < |Encode(c)| ==> IsContinuation(Encode(c)[j])
  {
  }

  lemma {:induction false} FloorInFirstChar(s: seq<Byte>, c: Scalar, rest: seq<Byte>, pos: nat)
    requires s == Encode(c) + rest && pos < |Encode(c)|
    ensures Floor(s, pos) == 0
  {
    if pos > 0 {
      EncodingBytes(c);
      assert s[pos] == Encode(c)[pos];
      FloorInFirstChar(s, c, rest, pos - 1);
    }
  }

  lemma {:induction false} FloorShifts(s: seq<Byte>, head: seq<Byte>, rest: seq<Byte>, pos: nat)
    requires s == head + rest && |head| <= pos < |s| && !IsContinuation(rest[0])
    ensures Floor(s, pos) == |head| + Floor(rest, pos - |head|)
  {
    if pos > |head| {
      assert s[pos] == rest[pos - |head|];
      FloorShifts(s, head, rest, pos - 1);
    }
  }

  /**
   On every encoded text and position inside it, the floor is the largest character boundary not
   above the position, at most 3 bytes back, and the cut prefix encodes the first characters.
   */
  lemma {:induction false} FloorIsBoundary(cs: seq<Scalar>, pos: nat) returns (i: nat)
    requires pos < |EncodeAll(cs)|
    ensures i < |cs| && Floor(EncodeAll(cs), pos) == Offset(cs, i)
    ensures Offset(cs, i) <= pos < Offset(cs, i + 1) && pos - Offset(cs, i) <= 3
    ensures EncodeAll(cs)[..Offset(cs, i)] == EncodeAll(cs[..i])
  {
    var s, head, rest := EncodeAll(cs), Encode(cs[0]), EncodeAll(cs[1..]);
    if pos < |head| {
      i := 0;
      FloorInFirstChar(s, cs[0], rest, pos);
      PrefixShifts(cs, 0);
    } else {
      EncodingBytes(cs[1]);
      FloorShifts(s, head, rest, pos);
      var before := FloorIsBoundary(cs[1..], pos - |head|);
      i := before + 1;
      PrefixShifts(cs, before);
      PrefixShifts(cs, before + 1);
      assert s[..|head| + Offset(cs[1..], before)] == head + rest[..Offset(cs[1..], before)];
    }
  }

  lemma PrefixShifts(cs: seq<Scalar>, i: nat)
    requires i < |cs|
    ensures EncodeAll(cs[..i + 1]) == Encode(cs[0]) + EncodeAll(cs[1..][..i])
  {
    assert cs[..i + 1][1..] == cs[1..][..i];
  }

  /** The value of the mask test on bytes. */
  lemma MaskTest(b: bv8)
    ensures b & 0xC0 == 0x80 <==> 0x80 <= b <= 0xBF
  {
  }
}
