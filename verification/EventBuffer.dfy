/** The per-event buffer of the terminal log writer: it truncates an event once, when it is dropped. */
module EventBuffer {
  import opened Decimal
  import opened Utf8

  const NEWLINE: Byte := 10

  function AsciiBytes(s: string): (b: seq<Byte>)
    requires forall i :: 0 <= i < |s| ==> s[i] as int < 128
    ensures |b| == |s|
  {
    seq(|s|, i requires 0 <= i < |s| => s[i] as int)
  }

  // "...[<n>B total]\n"
  function Suffix(total: nat): seq<Byte> {
    AsciiBytes("...[") + AsciiBytes(PrintNat(total)) + AsciiBytes("B total]\n")
  }

  // The suffix brings its own newline, so a trailing one is taken off the cut.
  function WithoutNewline(s: seq<Byte>): seq<Byte> {
    if s != [] && s[|s| - 1] == NEWLINE then s[..|s| - 1] else s
  }

  function Output(buf: seq<Byte>, maxBytes: nat): seq<Byte> {
    if |buf| <= maxBytes then buf
    else WithoutNewline(buf[..Floor(buf, maxBytes)]) + Suffix(|buf|)
  }

  class Buffer {
    var buf: seq<Byte>
    const maxBytes: nat

    constructor (maxBytes: nat)
      ensures buf == [] && this.maxBytes == maxBytes
    {
      buf := [];
      this.maxBytes := maxBytes;
    }

    method Write(data: seq<Byte>) returns (written: nat)
      modifies this
      ensures buf == old(buf) + data && written == |data|
    {
      buf := buf + data;
      written := |data|;
    }

    // What reaches the terminal when the buffer is dropped.
    method Drop() returns (output: seq<Byte>)
      ensures output == Output(buf, maxBytes)
    {
      if buf == [] {
        return [];
      }
      if |buf| <= maxBytes {
        return buf;
      }
      var cut := Utf8Floor(buf, maxBytes);
      var slice := buf[..cut];
      if slice != [] && slice[|slice| - 1] == NEWLINE {
        slice := slice[..|slice| - 1];
      }
      output := slice + Suffix(|buf|);
    }
  }

  // ----- The output is text -----

  lemma {:induction false} AsciiIsEncoded(s: string) returns (cs: seq<Scalar>)
    requires forall i :: 0 <= i < |s| ==> s[i] as int < 128
    ensures EncodeAll(cs) == AsciiBytes(s)
  {
    cs := [];
    if s != [] {
      var rest := AsciiIsEncoded(s[1..]);
      cs := [s[0] as int] + rest;
      assert AsciiBytes(s) == [s[0] as int] + AsciiBytes(s[1..]);
    }
  }

  lemma AsciiIsWellFormed(s: string)
    requires forall i :: 0 <= i < |s| ==> s[i] as int < 128
    ensures WellFormed(AsciiBytes(s))
  {
    var cs := AsciiIsEncoded(s);
    EncodedIsWellFormed(cs);
  }

  lemma SuffixIsWellFormed(total: nat)
    ensures WellFormed(Suffix(total))
  {
    AsciiIsWellFormed("...[");
    AsciiIsWellFormed(PrintNat(total));
    AsciiIsWellFormed("B total]\n");
    WellFormedConcat(AsciiBytes("...["), AsciiBytes(PrintNat(total)));
    WellFormedConcat(AsciiBytes("...[") + AsciiBytes(PrintNat(total)), AsciiBytes("B total]\n"));
  }

  // A text that ends in a newline byte ends in a newline character.
  lemma NewlineIsACharacter(cs: seq<Scalar>)
    requires EncodeAll(cs) != [] && EncodeAll(cs)[|EncodeAll(cs)| - 1] == NEWLINE
    ensures cs != [] && cs[|cs| - 1] == NEWLINE && WithoutNewline(EncodeAll(cs)) == EncodeAll(cs[..|cs| - 1])
  {
    var n := |cs| - 1;
    assert cs == cs[..n] + [cs[n]];
    EncodeAppend(cs[..n], [cs[n]]);
    assert EncodeAll([cs[n]]) == Encode(cs[n]) + EncodeAll([]) == Encode(cs[n]);
    EncodingBytes(cs[n]);
    var last := Encode(cs[n])[|Encode(cs[n])| - 1];
    assert EncodeAll(cs)[|EncodeAll(cs)| - 1] == last;
    assert |Encode(cs[n])| == 1;
  }

  lemma NewlineEnds(cs: seq<Scalar>)
    requires cs != [] && cs[|cs| - 1] == NEWLINE
    ensures EncodeAll(cs) != [] && EncodeAll(cs)[|EncodeAll(cs)| - 1] == NEWLINE
  {
    var n := |cs| - 1;
    assert cs == cs[..n] + [NEWLINE];
    EncodeAppend(cs[..n], [NEWLINE]);
    assert EncodeAll([NEWLINE]) == Encode(NEWLINE) + EncodeAll([]);
  }

  /**
   For every text and limit: a short event comes out unchanged; a long one comes out as the first
   characters that fit, the last one left out if it is a newline, followed by the suffix. Either way it
   is valid UTF-8.
   */
  lemma OutputIsText(cs: seq<Scalar>, maxBytes: nat) returns (fit: nat, kept: nat)
    ensures kept <= fit <= |cs| && WellFormed(Output(EncodeAll(cs), maxBytes))
    ensures |EncodeAll(cs)| <= maxBytes ==> Output(EncodeAll(cs), maxBytes) == EncodeAll(cs)
    ensures |EncodeAll(cs)| > maxBytes ==>
              && Output(EncodeAll(cs), maxBytes) == EncodeAll(cs[..kept]) + Suffix(|EncodeAll(cs)|)
              && fit < |cs| && Offset(cs, fit) <= maxBytes < Offset(cs, fit + 1)
              && kept == if fit > 0 && cs[fit - 1] == NEWLINE then fit - 1 else fit
  {
    hide WellFormed, Floor, EncodeAll;
    var s := EncodeAll(cs);
    EncodedIsWellFormed(cs);
    if |s| <= maxBytes {
      return |cs|, |cs|;
    }
    var i := FloorIsBoundary(cs, maxBytes);
    fit := i;
    var cut := EncodeAll(cs[..i]);
    kept := i;
    if i > 0 && cs[i - 1] == NEWLINE { NewlineEnds(cs[..i]); }
    if cut != [] && cut[|cut| - 1] == NEWLINE {
      NewlineIsACharacter(cs[..i]);
      kept := i - 1;
      assert cs[..i][..i - 1] == cs[..kept];
      OffsetGrows(cs, kept);
    }
    EncodedIsWellFormed(cs[..kept]);
    SuffixIsWellFormed(|s|);
    WellFormedConcat(EncodeAll(cs[..kept]), Suffix(|s|));
  }

  lemma OffsetGrows(cs: seq<Scalar>, i: nat)
    requires i < |cs|
    ensures Offset(cs, i) < Offset(cs, i + 1)
  {
    assert cs[..i + 1] == cs[..i] + [cs[i]];
    EncodeAppend(cs[..i], [cs[i]]);
  }
}
