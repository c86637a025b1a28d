/** Cutting a recalled text to its excerpt: at most 600 bytes of UTF-8, at a character boundary. */
module Excerpts {
  import opened Utf8
  import opened Wrappers

  const RECALL_EXCERPT_MAX_BYTES: nat := 600

  function Scalars(text: string): (cs: seq<Scalar>)
    ensures |cs| == |text|
  {
    seq(|text|, i requires 0 <= i < |text| => text[i] as int)
  }

  // The text up to a byte position; none where the position is inside a character.
  function SliceBytes(text: string, end: nat): Option<string> {
    if end == 0 then Some("")
    else if text == "" || |Encode(text[0] as int)| > end then None
    else
      var rest := SliceBytes(text[1..], end - |Encode(text[0] as int)|);
      if rest.Some? then Some([text[0]] + rest.value) else None
  }

  // Where the excerpt ends, in bytes.
  function ExcerptEnd(text: string): nat {
    var bytes := EncodeAll(Scalars(text));
    if RECALL_EXCERPT_MAX_BYTES >= |bytes| then |bytes| else Floor(bytes, RECALL_EXCERPT_MAX_BYTES)
  }

  function Excerpt(text: string): string {
    var cut := SliceBytes(text, ExcerptEnd(text));
    if cut.Some? then cut.value else ""
  }

  lemma {:induction false} SliceAtOffset(text: string, i: nat)
    requires i <= |text|
    ensures SliceBytes(text, Offset(Scalars(text), i)) == Some(text[..i])
  {
    if i == 0 {
      assert Scalars(text)[..0] == [];
    } else {
      var cs := Scalars(text);
      assert cs[1..] == Scalars(text[1..]);
      PrefixShifts(cs, i - 1);
      SliceAtOffset(text[1..], i - 1);
      assert [text[0]] + text[1..][..i - 1] == text[..i];
    }
  }

  /** The cut never falls inside a character: the excerpt is the longest prefix of at most 600 bytes. */
  lemma ExcerptIsLongest(text: string) returns (kept: nat)
    ensures kept <= |text| && SliceBytes(text, ExcerptEnd(text)) == Some(text[..kept]) && Excerpt(text) == text[..kept]
    ensures Offset(Scalars(text), kept) == ExcerptEnd(text) <= 600
    ensures kept < |text| ==> Offset(Scalars(text), kept + 1) > 600
    ensures ExcerptEnd(text) < |EncodeAll(Scalars(text))| <==> kept < |text|
  {
    var cs := Scalars(text);
    var bytes := EncodeAll(cs);
    assert cs[..|cs|] == cs;
    if RECALL_EXCERPT_MAX_BYTES >= |bytes| {
      kept := |text|;
    } else {
      kept := FloorIsBoundary(cs, RECALL_EXCERPT_MAX_BYTES);
    }
    SliceAtOffset(text, kept);
  }

  method CutExcerpt(text: string) returns (excerpt: string, shortened: bool)
    ensures excerpt == Excerpt(text) && shortened == (|excerpt| < |text|)
  {
    var bytes := EncodeAll(Scalars(text));
    var end := FloorCharBoundary(bytes, RECALL_EXCERPT_MAX_BYTES);
    ghost var kept := ExcerptIsLongest(text);
    excerpt := SliceBytes(text, end).value;
    shortened := end < |bytes|;
  }
}
