/**
 Neutralizing memory-fence tags in recalled text, and the tag skeleton of the block it goes into.

 A fence is `<`, any mix of slashes, whitespace and NULs, and one of two tag names in any case.
 */
module MemoryFences {
  import opened Excerpts
  import opened TextChars

  const RECALLED_NAME := "recalled_memories"
  const MEMORY_NAME := "memory"

  predicate IsFiller(c: char) {
    c == '/' || c == '\U{0}' || IsWhitespace(c)
  }

  // Case-insensitive match of a lower-case letter, by simple case folding (U+017F folds to s).
  predicate SameLetter(c: char, lower: char) {
    || c == lower
    || ('a' <= lower <= 'z' && 'A' <= c <= 'Z' && c as int + 32 == lower as int)
    || (lower == 's' && c == '\U{17F}')
  }

  predicate StartsWithName(s: string, name: string) {
    |name| <= |s| && forall i :: 0 <= i < |name| ==> SameLetter(s[i], name[i])
  }

  // Length of the filler and the name at the front; 0 if there is no name after the filler.
  function BodyLength(s: string): (n: nat)
    ensures n <= |s|
  {
    if s != [] && IsFiller(s[0]) then (var n := BodyLength(s[1..]); if n == 0 then 0 else n + 1)
    else if StartsWithName(s, RECALLED_NAME) then |RECALLED_NAME|
    else if StartsWithName(s, MEMORY_NAME) then |MEMORY_NAME|
    else 0
  }

  // Length of the fence at the front; 0 if there is none.
  function FenceLength(s: string): (n: nat)
    ensures n <= |s|
    ensures n > 0 ==> n > 1 && s[0] == '<'
  {
    if s != [] && s[0] == '<' then (var n := BodyLength(s[1..]); if n == 0 then 0 else n + 1) else 0
  }

  // All matches, left to right: each one's `<` becomes `&lt;`, the scan goes on after the match.
  function Escape(s: string): string
    decreases |s|
  {
    if s == [] then []
    else
      var n := FenceLength(s);
      if n > 0 then "&lt;" + s[1..n] + Escape(s[n..]) else [s[0]] + Escape(s[1..])
  }

  // ----- Fences of a text -----

  ghost predicate HasFence(s: string) {
    exists i :: 0 <= i < |s| && FenceLength(s[i..]) > 0
  }

  // The matched texts, in order.
  function Fences(s: string): seq<string> {
    if s == [] then []
    else (if FenceLength(s) > 0 then [s[..FenceLength(s)]] else []) + Fences(s[1..])
  }

  lemma {:induction false} NoFences(s: string)
    ensures Fences(s) == [] <==> !HasFence(s)
  {
    if s != [] {
      NoFences(s[1..]);
      assert s[0..] == s;
      forall i | 1 <= i < |s| ensures s[i..] == s[1..][i - 1..] {}
      if HasFence(s[1..]) {
        var i :| 0 <= i < |s[1..]| && FenceLength(s[1..][i..]) > 0;
        assert FenceLength(s[i + 1..]) > 0;
      }
    }
  }

  // Characters a fence body can hold; an angle bracket and an ampersand are none.
  predicate IsBodyChar(c: char) {
    IsFiller(c) || IsNameChar(c)
  }

  predicate IsNameChar(c: char) {
    'a' <= c <= 'z' || 'A' <= c <= 'Z' || c == '_' || c == '\U{17F}'
  }

  lemma {:induction false} BodyCharsOnly(s: string)
    ensures forall i :: 0 <= i < BodyLength(s) ==> IsBodyChar(s[i])
    ensures BodyLength(s) > 0 ==> IsNameChar(s[BodyLength(s) - 1])
  {
    if s != [] && IsFiller(s[0]) {
      BodyCharsOnly(s[1..]);
      assert forall i :: 1 <= i < BodyLength(s) ==> s[i] == s[1..][i - 1];
    }
  }

  // Two texts with the same front match the same body.
  lemma {:induction false} BodyIsLocal(a: string, b: string)
    requires BodyLength(a) > 0
    requires BodyLength(a) <= |b| && a[..BodyLength(a)] == b[..BodyLength(a)]
    ensures BodyLength(b) == BodyLength(a)
  {
    var n := BodyLength(a);
    assert forall i :: 0 <= i < n ==> a[i] == a[..n][i] == b[..n][i] == b[i];
    if IsFiller(a[0]) {
      assert a[1..][..n - 1] == a[..n][1..] == b[..n][1..] == b[1..][..n - 1];
      BodyIsLocal(a[1..], b[1..]);
    } else {
      NamesDiffer(a, b, n);
    }
  }

  lemma NamesDiffer(a: string, b: string, n: nat)
    requires a != [] && !IsFiller(a[0]) && n == BodyLength(a) > 0 && n <= |b|
    requires forall i :: 0 <= i < n ==> a[i] == b[i]
    ensures BodyLength(b) == n
  {
    if n == |MEMORY_NAME| {
      assert SameLetter(b[0], 'm');
      assert !SameLetter(b[0], 'r');
      assert RECALLED_NAME[0] == 'r';
    }
  }

  // ----- Escaping -----

  ghost predicate NoBracket(s: string) {
    forall i :: 0 <= i < |s| ==> s[i] != '<'
  }

  lemma {:induction false} NoBracketPrefix(a: string, b: string)
    requires NoBracket(a)
    ensures Fences(a + b) == Fences(b)
  {
    if a == [] {
      assert a + b == b;
    } else {
      assert (a + b)[1..] == a[1..] + b;
      NoBracketPrefix(a[1..], b);
    }
  }

  // A run of body characters at the front of an escaped text was there before.
  lemma {:induction false} EscapeKeepsBody(t: string, n: nat)
    requires n <= |Escape(t)| && forall i :: 0 <= i < n ==> IsBodyChar(Escape(t)[i])
    ensures n <= |t| && t[..n] == Escape(t)[..n]
  {
    hide BodyLength;
    if n > 0 {
      assert IsBodyChar(Escape(t)[0]);
      assert FenceLength(t) == 0;
      assert Escape(t)[1..] == Escape(t[1..]);
      forall i | 0 <= i < n - 1 ensures IsBodyChar(Escape(t[1..])[i]) {
        assert Escape(t[1..])[i] == Escape(t)[i + 1];
      }
      EscapeKeepsBody(t[1..], n - 1);
      assert t[..n] == [t[0]] + t[1..][..n - 1];
      assert Escape(t)[..n] == [t[0]] + Escape(t[1..])[..n - 1];
    }
  }

  lemma EscapeMakesNoBody(t: string)
    requires BodyLength(t) == 0
    ensures BodyLength(Escape(t)) == 0
  {
    var n := BodyLength(Escape(t));
    if n > 0 {
      BodyCharsOnly(Escape(t));
      EscapeKeepsBody(t, n);
      BodyIsLocal(Escape(t), t);
      assert false;
    }
  }

  lemma FenceHasOneBracket(s: string)
    requires FenceLength(s) > 0
    ensures NoBracket("&lt;" + s[1..FenceLength(s)])
  {
    var n := FenceLength(s);
    BodyCharsOnly(s[1..]);
    assert forall i :: 1 <= i < n ==> s[i] == s[1..][i - 1];
  }

  lemma {:induction false} EscapeRemovesFences(s: string)
    ensures Fences(Escape(s)) == []
    decreases |s|
  {
    hide BodyLength;
    if s != [] {
      var n := FenceLength(s);
      if n > 0 {
        FenceHasOneBracket(s);
        NoBracketPrefix("&lt;" + s[1..n], Escape(s[n..]));
        EscapeRemovesFences(s[n..]);
      } else {
        var rest := Escape(s[1..]);
        EscapeRemovesFences(s[1..]);
        if s[0] == '<' { EscapeMakesNoBody(s[1..]); }
        assert ([s[0]] + rest)[1..] == rest;
      }
    }
  }

  /** No substring of an escaped text is a fence, for any input. */
  lemma EscapedHasNoFence(s: string)
    ensures !HasFence(Escape(s))
  {
    EscapeRemovesFences(s);
    NoFences(Escape(s));
  }

  lemma {:induction false} FenceFreeIsUnchanged(s: string)
    requires Fences(s) == []
    ensures Escape(s) == s
  {
    if s != [] {
      FenceFreeIsUnchanged(s[1..]);
    }
  }

  /** Escaping again changes nothing. */
  lemma EscapeIdempotent(s: string)
    ensures Escape(Escape(s)) == Escape(s)
  {
    EscapeRemovesFences(s);
    FenceFreeIsUnchanged(Escape(s));
  }

  // Position by position: a bracket that opens a fence is replaced, everything else stays.
  function EachBracket(s: string): string {
    if s == [] then []
    else (if FenceLength(s) > 0 then "&lt;" else [s[0]]) + EachBracket(s[1..])
  }

  lemma {:induction false} EachBracketSkips(s: string, n: nat)
    requires n <= |s| && forall i :: 0 <= i < n ==> s[i] != '<'
    ensures EachBracket(s) == s[..n] + EachBracket(s[n..])
  {
    hide BodyLength;
    if n == 0 {
      assert s[0..] == s;
    } else {
      EachBracketSkips(s[1..], n - 1);
      assert s[1..][n - 1..] == s[n..];
      assert s[..n] == [s[0]] + s[1..][..n - 1];
    }
  }

  /** Matching left to right misses nothing: exactly the brackets that open a fence are replaced. */
  lemma {:induction false} EscapeReplacesEachFence(s: string)
    ensures Escape(s) == EachBracket(s)
    decreases |s|
  {
    hide BodyLength;
    if s != [] {
      var n := FenceLength(s);
      if n > 0 {
        FenceHasOneBracket(s);
        assert s[1..][..n - 1] == s[1..n] && s[1..][n - 1..] == s[n..];
        forall i | 0 <= i < n - 1 ensures s[1..][i] != '<' {
          assert ("&lt;" + s[1..n])[4 + i] == s[1..n][i];
        }
        EachBracketSkips(s[1..], n - 1);
        EscapeReplacesEachFence(s[n..]);
      } else {
        EscapeReplacesEachFence(s[1..]);
      }
    }
  }

  // ----- The recalled block -----

  // The tags as far as a fence reaches.
  const OPEN_OUTER := "<" + RECALLED_NAME
  const CLOSE_OUTER := "</" + RECALLED_NAME
  const OPEN_INNER := "<" + MEMORY_NAME
  const CLOSE_INNER := "</" + MEMORY_NAME

  // Scores print without angle brackets.
  datatype Recalled = Recalled(score: string, content: string)

  function OpenTag(score: string): string { OPEN_INNER + (" score=\"" + score + "\"") }

  // An excerpt as it stands between its tags.
  function BodyOf(excerpt: string, shortened: bool): string {
    Escape(excerpt) + ((if shortened then "\U{2026}" else "") + "\n")
  }

  function Body(r: Recalled): string {
    BodyOf(Excerpt(r.content), |Excerpt(r.content)| < |r.content|)
  }

  function ItemWith(score: string, body: string, rest: string): string {
    "\n" + (OpenTag(score) + (">\n" + (body + (CLOSE_INNER + (">\n" + rest)))))
  }

  // One result, followed by the rest of the block.
  function ItemThen(r: Recalled, rest: string): string {
    ItemWith(r.score, Body(r), rest)
  }

  function ItemsThen(results: seq<Recalled>, rest: string): string {
    if results == [] then rest else ItemThen(results[0], ItemsThen(results[1..], rest))
  }

  // The explanation after the opening tag.
  function Prose(): string {
    "\nMemories recalled from your persistent "
    + ("workspace based on the current message. "
    + ("They may or may not be relevant \U{2014} "
    + ("use your judgment, and ignore " + "anything that doesn't apply.\n")))
  }

  function Format(prose: string, results: seq<Recalled>): string {
    OPEN_OUTER + (">" + prose + ItemsThen(results, CLOSE_OUTER + ">"))
  }

  lemma Assoc(a: string, b: string, c: string)
    ensures (a + b) + c == a + (b + c)
  {
  }

  lemma AppendItem(block: string, r: Recalled, rest: string)
    ensures block + ItemThen(r, []) + rest == block + ItemThen(r, rest)
  {
    var t1 := ">\n" + [];
    var t2 := CLOSE_INNER + t1;
    var t3 := Body(r) + t2;
    var t4 := ">\n" + t3;
    var t5 := OpenTag(r.score) + t4;
    Assoc(block, "\n" + t5, rest);
    Assoc("\n", t5, rest);
    Assoc(OpenTag(r.score), t4, rest);
    Assoc(">\n", t3, rest);
    Assoc(Body(r), t2, rest);
    Assoc(CLOSE_INNER, t1, rest);
    assert t1 + rest == ">\n" + rest;
  }

  method FormatRecalledMemories(results: seq<Recalled>) returns (block: string)
    ensures block == Format(Prose(), results)
  {
    hide Prose, OpenTag, BodyOf;
    var prose, end := Prose(), CLOSE_OUTER + ">";
    block := OPEN_OUTER + (">" + prose);
    Assoc(OPEN_OUTER, ">" + prose, ItemsThen(results, end));
    assert results[0..] == results;
    for i := 0 to |results|
      invariant block + ItemsThen(results[i..], end) == Format(prose, results)
    {
      var excerpt, shortened := CutExcerpt(results[i].content);
      AppendItem(block, results[i], ItemsThen(results[i + 1..], end));
      assert results[i..][1..] == results[i + 1..];
      block := block + ItemWith(results[i].score, BodyOf(excerpt, shortened), []);
    }
    block := block + end;
  }

  // ----- Its tag skeleton -----

  lemma BodyConcat(x: string, b: string)
    requires b == [] || !IsBodyChar(b[0])
    ensures BodyLength(x + b) == BodyLength(x)
  {
    var n := BodyLength(x + b);
    if n > 0 {
      BodyCharsOnly(x + b);
      assert b != [] ==> (x + b)[|x|] == b[0];
      assert n <= |x|;
      assert (x + b)[..n] == x[..n];
      BodyIsLocal(x + b, x);
    } else if BodyLength(x) > 0 {
      assert x[..BodyLength(x)] == (x + b)[..BodyLength(x)];
      BodyIsLocal(x, x + b);
    }
  }

  lemma FenceConcat(a: string, b: string)
    requires a != [] && (b == [] || !IsBodyChar(b[0]))
    ensures FenceLength(a + b) == FenceLength(a)
  {
    assert (a + b)[1..] == a[1..] + b;
    BodyConcat(a[1..], b);
  }

  // A text that starts with no body character completes no earlier fence.
  lemma {:induction false} FencesConcat(a: string, b: string)
    requires b == [] || !IsBodyChar(b[0])
    ensures Fences(a + b) == Fences(a) + Fences(b)
  {
    hide BodyLength;
    if a == [] {
      assert a + b == b;
    } else {
      FenceConcat(a, b);
      assert (a + b)[1..] == a[1..] + b;
      assert (a + b)[..FenceLength(a)] == a[..FenceLength(a)];
      FencesConcat(a[1..], b);
    }
  }

  ghost predicate NoNameChar(t: string) {
    forall i :: 0 <= i < |t| ==> !IsNameChar(t[i])
  }

  lemma BodyEndsInside(x: string, t: string)
    requires NoNameChar(t)
    ensures BodyLength(x + t) == BodyLength(x)
  {
    var n := BodyLength(x + t);
    if n > 0 {
      BodyCharsOnly(x + t);
      assert forall i :: |x| <= i < |x + t| ==> (x + t)[i] == t[i - |x|];
      assert n <= |x|;
      assert (x + t)[..n] == x[..n];
      BodyIsLocal(x + t, x);
    } else if BodyLength(x) > 0 {
      assert x[..BodyLength(x)] == (x + t)[..BodyLength(x)];
      BodyIsLocal(x, x + t);
    }
  }

  // Characters of no name, and no bracket, after a text add no fence.
  lemma {:induction false} PunctuationAddsNoFence(a: string, t: string)
    requires NoNameChar(t) && NoBracket(t)
    ensures Fences(a + t) == Fences(a)
  {
    hide BodyLength;
    if a == [] {
      assert a + t == t + [];
      NoBracketPrefix(t, []);
    } else {
      assert (a + t)[1..] == a[1..] + t;
      BodyEndsInside(a[1..], t);
      assert (a + t)[..FenceLength(a)] == a[..FenceLength(a)];
      PunctuationAddsNoFence(a[1..], t);
    }
  }

  lemma NameStarts(name: string, rest: string)
    requires name == RECALLED_NAME || name == MEMORY_NAME
    ensures BodyLength(name + rest) == |name|
  {
    var s := name + rest;
    assert forall i :: 0 <= i < |name| ==> s[i] == name[i];
    assert !IsFiller(s[0]);
    assert StartsWithName(s, name);
    if name == MEMORY_NAME {
      assert s[0] == 'm' && RECALLED_NAME[0] == 'r';
      assert !StartsWithName(s, RECALLED_NAME);
    }
  }

  lemma NamesHaveNoBracket()
    ensures NoBracket(RECALLED_NAME) && NoBracket(MEMORY_NAME)
  {
    assert forall i :: 0 <= i < |RECALLED_NAME| ==> RECALLED_NAME[i] != '<';
  }

  lemma SlashThenName(name: string, rest: string)
    requires name == RECALLED_NAME || name == MEMORY_NAME
    ensures BodyLength("/" + (name + rest)) == 1 + |name|
  {
    NameStarts(name, rest);
    assert ("/" + (name + rest))[1..] == name + rest;
  }

  // A tag whose rest has no bracket is one fence.
  lemma TagIsOneFence(opening: string, name: string, rest: string)
    requires opening == "<" || opening == "</"
    requires name == RECALLED_NAME || name == MEMORY_NAME
    requires NoBracket(rest)
    ensures Fences(opening + name + rest) == [opening + name]
  {
    hide BodyLength, StartsWithName;
    NamesHaveNoBracket();
    assert NoBracket(name + rest);
    var s := opening + name + rest;
    NameStarts(name, rest);
    if opening == "<" {
      assert s[1..] == name + rest;
    } else {
      assert s[1..] == "/" + (name + rest);
      SlashThenName(name, rest);
    }
    assert FenceLength(s) == |opening| + |name|;
    assert s[..FenceLength(s)] == opening + name;
    NoBracketPrefix(s[1..], []);
    assert s[1..] + [] == s[1..];
  }

  // A bracket-free separator that starts with no body character parts the fences around it.
  lemma Parted(a: string, separator: string, b: string)
    requires separator != [] && !IsBodyChar(separator[0]) && NoBracket(separator)
    ensures Fences(a + (separator + b)) == Fences(a) + Fences(b)
  {
    hide Fences, FenceLength, BodyLength;
    FencesConcat(a, separator + b);
    NoBracketPrefix(separator, b);
  }

  lemma BodyHasNoFence(r: Recalled)
    ensures Fences(Body(r)) == []
  {
    var excerpt := Excerpt(r.content);
    EscapeRemovesFences(excerpt);
    PunctuationAddsNoFence(Escape(excerpt), (if |excerpt| < |r.content| then "\U{2026}" else "") + "\n");
  }

  lemma OpenTagFence(score: string)
    requires NoBracket(score)
    ensures Fences(OpenTag(score)) == [OPEN_INNER]
  {
    TagIsOneFence("<", MEMORY_NAME, " score=\"" + score + "\"");
  }

  lemma BareTagFence(opening: string, name: string)
    requires opening == "<" || opening == "</"
    requires name == RECALLED_NAME || name == MEMORY_NAME
    ensures Fences(opening + name) == [opening + name]
  {
    TagIsOneFence(opening, name, "");
    assert opening + name + "" == opening + name;
  }

  lemma ItemFences(r: Recalled, rest: string)
    requires NoBracket(r.score)
    ensures Fences(ItemThen(r, rest)) == [OPEN_INNER, CLOSE_INNER] + Fences(rest)
  {
    hide Fences, FenceLength, BodyLength;
    var closed := CLOSE_INNER + (">\n" + rest);
    BodyHasNoFence(r);
    OpenTagFence(r.score);
    BareTagFence("</", MEMORY_NAME);
    Parted(CLOSE_INNER, ">\n", rest);
    FencesConcat(Body(r), closed);
    Parted(OpenTag(r.score), ">\n", Body(r) + closed);
    NoBracketPrefix("\n", OpenTag(r.score) + (">\n" + (Body(r) + closed)));
  }

  // One opening and one closing inner tag per result.
  function InnerTags(n: nat): seq<string> {
    if n == 0 then [] else [OPEN_INNER, CLOSE_INNER] + InnerTags(n - 1)
  }

  lemma InnerStep(n: nat, after: seq<string>)
    requires n > 0
    ensures [OPEN_INNER, CLOSE_INNER] + (InnerTags(n - 1) + after) == InnerTags(n) + after
  {
    assert InnerTags(n) == [OPEN_INNER, CLOSE_INNER] + InnerTags(n - 1);
  }

  lemma {:induction false} ItemsFences(results: seq<Recalled>, rest: string)
    requires forall i :: 0 <= i < |results| ==> NoBracket(results[i].score)
    ensures Fences(ItemsThen(results, rest)) == InnerTags(|results|) + Fences(rest)
  {
    if results != [] {
      var tail := ItemsThen(results[1..], rest);
      ItemsFences(results[1..], rest);
      ItemFences(results[0], tail);
      InnerStep(|results|, Fences(rest));
    }
  }

  lemma Enclosed(opening: string, separator: string, items: string, tags: seq<string>, closing: string)
    requires Fences(opening) == [opening] && Fences(items) == tags + [closing]
    requires separator != [] && separator[0] == '>' && NoBracket(separator)
    ensures Fences(opening + (separator + items)) == [opening] + tags + [closing]
  {
    hide Fences, FenceLength, BodyLength;
    Parted(opening, separator, items);
    assert [opening] + (tags + [closing]) == [opening] + tags + [closing];
  }

  lemma AngleThen(prose: string)
    requires NoBracket(prose)
    ensures NoBracket(">" + prose) && (">" + prose)[0] == '>'
  {
  }

  lemma CloseOuterFence()
    ensures Fences(CLOSE_OUTER + ">") == [CLOSE_OUTER]
  {
    TagIsOneFence("</", RECALLED_NAME, ">");
  }

  lemma InsideFences(results: seq<Recalled>)
    requires forall i :: 0 <= i < |results| ==> NoBracket(results[i].score)
    ensures Fences(ItemsThen(results, CLOSE_OUTER + ">")) == InnerTags(|results|) + [CLOSE_OUTER]
  {
    hide Fences, FenceLength, BodyLength, ItemsThen, InnerTags, NoBracket;
    CloseOuterFence();
    ItemsFences(results, CLOSE_OUTER + ">");
  }

  lemma SkeletonWith(prose: string, results: seq<Recalled>)
    requires NoBracket(prose) && forall i :: 0 <= i < |results| ==> NoBracket(results[i].score)
    ensures Fences(Format(prose, results)) == [OPEN_OUTER] + InnerTags(|results|) + [CLOSE_OUTER]
  {
    hide Fences, FenceLength, BodyLength, IsBodyChar, ItemsThen, InnerTags, NoBracket;
    InsideFences(results);
    BareTagFence("<", RECALLED_NAME);
    AngleThen(prose);
    Enclosed(OPEN_OUTER, ">" + prose, ItemsThen(results, CLOSE_OUTER + ">"), InnerTags(|results|), CLOSE_OUTER);
  }

  lemma NoBracketJoin(a: string, b: string)
    requires NoBracket(a) && NoBracket(b)
    ensures NoBracket(a + b)
  {
  }

  lemma ProseHasNoBracket()
    ensures NoBracket(Prose())
  {
    var a, b := "\nMemories recalled from your persistent ", "workspace based on the current message. ";
    var c, e, f := "They may or may not be relevant \U{2014} ", "use your judgment, and ignore ",
        "anything that doesn't apply.\n";
    assert NoBracket(a);
    assert NoBracket(b);
    assert NoBracket(c);
    assert NoBracket(e);
    assert NoBracket(f);
    hide NoBracket;
    NoBracketJoin(e, f);
    NoBracketJoin(c, e + f);
    NoBracketJoin(b, c + (e + f));
    NoBracketJoin(a, b + (c + (e + f)));
  }

  /**
   Whatever the recalled texts contain, the block's fences are the outer pair around one inner pair
   per result: n inner closing tags and one outer one.
   */
  lemma FormatSkeleton(results: seq<Recalled>)
    requires forall i :: 0 <= i < |results| ==> NoBracket(results[i].score)
    ensures Fences(Format(Prose(), results)) == [OPEN_OUTER] + InnerTags(|results|) + [CLOSE_OUTER]
  {
    hide NoBracket, Fences, Format, InnerTags, Prose;
    ProseHasNoBracket();
    SkeletonWith(Prose(), results);
  }
}
