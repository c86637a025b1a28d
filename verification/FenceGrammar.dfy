/**
 What a memory fence is, letter by letter, and that escaping leaves none: the scanner of `MemoryFences`
 agrees with the pattern `<`, any mix of slashes, whitespace and NULs, and a tag name in any case.
 */
module FenceGrammar {
  import opened MemoryFences
  import opened TextChars

  // Simple case folding, as far as it reaches the letters of the tag names.
  function Folded(c: char): char {
    if 'A' <= c <= 'Z' then (c as int + 32) as char else if c == '\U{17F}' then 's' else c
  }

  ghost predicate Spells(text: string, name: string) {
    |text| == |name| && forall i :: 0 <= i < |name| ==> Folded(text[i]) == name[i]
  }

  ghost predicate IsTagName(text: string) {
    Spells(text, "memory") || Spells(text, "recalled_memories")
  }

  ghost predicate IsFilling(text: string) {
    forall i :: 0 <= i < |text| ==> text[i] == '/' || text[i] == '\U{0}' || IsWhitespace(text[i])
  }

  // `filling` counts the characters between the bracket and the name.
  ghost predicate FenceWith(text: string, filling: nat) {
    1 + filling <= |text| && text[0] == '<' && IsFilling(text[1..1 + filling]) && IsTagName(text[1 + filling..])
  }

  ghost predicate IsFence(text: string) {
    exists filling: nat :: FenceWith(text, filling)
  }

  // ----- The scanner agrees -----

  ghost predicate NameAt(s: string, at: nat) {
    (at + 6 <= |s| && Spells(s[at..at + 6], "memory"))
        || (at + 17 <= |s| && Spells(s[at..at + 17], "recalled_memories"))
  }

  ghost predicate BodyWith(s: string, filling: nat) {
    filling <= |s| && IsFilling(s[..filling]) && NameAt(s, filling)
  }

  lemma SpellsIsMatch(s: string)
    ensures StartsWithName(s, MEMORY_NAME) <==> 6 <= |s| && Spells(s[..6], "memory")
    ensures StartsWithName(s, RECALLED_NAME) <==> 17 <= |s| && Spells(s[..17], "recalled_memories")
  {
    NameLettersFold(MEMORY_NAME);
    NameLettersFold(RECALLED_NAME);
  }

  lemma NameLettersFold(name: string)
    requires name == MEMORY_NAME || name == RECALLED_NAME
    ensures forall i, c :: 0 <= i < |name| ==> (SameLetter(c, name[i]) <==> Folded(c) == name[i])
  {
    forall i, c | 0 <= i < |name| ensures SameLetter(c, name[i]) <==> Folded(c) == name[i] {
      assert 'a' <= name[i] <= 'z' || name[i] == '_';
      LetterFolds(c, name[i]);
    }
  }

  lemma LetterFolds(c: char, letter: char)
    requires 'a' <= letter <= 'z' || letter == '_'
    ensures SameLetter(c, letter) <==> Folded(c) == letter
  {
  }

  lemma {:induction false} BodyIsFound(s: string)
    ensures BodyLength(s) > 0 <==> exists filling: nat :: BodyWith(s, filling)
  {
    SpellsIsMatch(s);
    hide StartsWithName;
    if s != [] && IsFiller(s[0]) {
      BodyIsFound(s[1..]);
      if filling: nat :| BodyWith(s[1..], filling) {
        MoreFilling(s, filling);
      }
      if filling: nat :| BodyWith(s, filling) {
        if filling == 0 { NameIsNoFiller(s); }
        LessFilling(s, filling - 1);
      }
    } else {
      if NameAt(s, 0) {
        assert s[..0] == [] && BodyWith(s, 0);
      }
      if filling: nat :| BodyWith(s, filling) {
        NoFilling(s, filling);
      }
    }
  }

  lemma NoFilling(s: string, filling: nat)
    requires BodyWith(s, filling) && (s != [] ==> !IsFiller(s[0]))
    ensures filling == 0
  {
    assert forall i :: 0 <= i < filling ==> s[..filling][i] == s[i];
  }

  lemma NameIsNoFiller(s: string)
    requires NameAt(s, 0)
    ensures s != [] && !IsFiller(s[0])
  {
    if 6 <= |s| && Spells(s[0..6], "memory") {
      assert Folded(s[0..6][0]) == "memory"[0];
    } else {
      assert Folded(s[0..17][0]) == "recalled_memories"[0];
    }
  }

  lemma MoreFilling(s: string, filling: nat)
    requires s != [] && IsFiller(s[0]) && BodyWith(s[1..], filling)
    ensures BodyWith(s, filling + 1)
  {
    hide Spells;
    assert s[..filling + 1] == [s[0]] + s[1..][..filling];
    NameMoves(s, filling);
  }

  lemma LessFilling(s: string, filling: nat)
    requires s != [] && BodyWith(s, filling + 1)
    ensures BodyWith(s[1..], filling)
  {
    hide Spells;
    assert s[1..][..filling] == s[..filling + 1][1..];
    NameMoves(s, filling);
  }

  lemma NameMoves(s: string, at: nat)
    requires s != []
    ensures NameAt(s, at + 1) <==> NameAt(s[1..], at)
  {
    hide Spells;
    if at + 7 <= |s| { assert s[at + 1..at + 7] == s[1..][at..at + 6]; }
    if at + 18 <= |s| { assert s[at + 1..at + 18] == s[1..][at..at + 17]; }
  }

  /** The scanner finds a fence at the front of a text exactly when some front of the text is one. */
  lemma FenceIsFound(s: string)
    ensures FenceLength(s) > 0 <==> exists n :: 0 <= n <= |s| && IsFence(s[..n])
  {
    if s != [] && s[0] == '<' {
      BodyIsFound(s[1..]);
      if filling: nat :| BodyWith(s[1..], filling) {
        FenceFromBody(s, filling);
      }
    }
    if n :| 0 <= n <= |s| && IsFence(s[..n]) {
      var filling: nat :| FenceWith(s[..n], filling);
      BodyFromFence(s, n, filling);
    }
  }

  lemma FenceFromBody(s: string, filling: nat)
    requires s != [] && s[0] == '<' && BodyWith(s[1..], filling)
    ensures exists n :: 0 <= n <= |s| && IsFence(s[..n])
  {
    hide Spells;
    var body := s[1..];
    var length := if filling + 6 <= |body| && Spells(body[filling..filling + 6], "memory") then 6 else 17;
    var n := 1 + filling + length;
    assert filling + length <= |body|;
    var text := s[..n];
    SlicesMove(s, filling, filling + length);
    assert FenceWith(text, filling);
  }

  lemma SlicesMove(s: string, from: nat, to: nat)
    requires from <= to < |s|
    ensures s[..1 + to][1..1 + from] == s[1..][..from] && s[..1 + to][1 + from..] == s[1..][from..to]
  {
  }

  lemma BodyFromFence(s: string, n: nat, filling: nat)
    requires n <= |s| && FenceWith(s[..n], filling)
    ensures s[0] == '<' && BodyWith(s[1..], filling)
  {
    var text, body := s[..n], s[1..];
    assert text[1..1 + filling] == body[..filling];
    var name := text[1 + filling..];
    assert name == body[filling..filling + |name|];
  }

  /** No part of an escaped text is a fence, in whatever letters and with whatever filling. */
  lemma NoPartIsFence(s: string, from: nat, to: nat)
    requires from <= to <= |Escape(s)|
    ensures !IsFence(Escape(s)[from..to])
  {
    EscapedHasNoFence(s);
    var rest := Escape(s)[from..];
    hide IsFence, Escape, FenceLength;
    if from < |Escape(s)| {
      FenceIsFound(rest);
      assert rest[..to - from] == Escape(s)[from..to];
    } else {
      EmptyIsNoFence(Escape(s)[from..to]);
    }
  }

  lemma EmptyIsNoFence(text: string)
    requires text == ""
    ensures !IsFence(text)
  {
  }

  lemma FenceIsPart(s: string, i: nat)
    requires i < |s| && FenceLength(s[i..]) > 0
    ensures exists from, to :: 0 <= from <= to <= |s| && IsFence(s[from..to])
  {
    hide IsFence, FenceLength;
    FenceIsFound(s[i..]);
    var n :| 0 <= n <= |s[i..]| && IsFence(s[i..][..n]);
    assert s[i..][..n] == s[i..i + n];
  }

  /** A text of which no part is a fence is left as it is. */
  lemma OthersAreUnchanged(s: string)
    requires forall from, to :: 0 <= from <= to <= |s| ==> !IsFence(s[from..to])
    ensures Escape(s) == s
  {
    hide IsFence, Escape, FenceLength;
    if HasFence(s) {
      var i :| 0 <= i < |s| && FenceLength(s[i..]) > 0;
      FenceIsPart(s, i);
    }
    NoFences(s);
    FenceFreeIsUnchanged(s);
  }
}
