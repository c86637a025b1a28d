/**
 The block of recalled memories, text by text: what each further result adds to it.
 */
module RecalledBlock {
  import opened Excerpts
  import opened MemoryFences
  import opened Utf8

  const CLOSING := "</recalled_memories>"

  // One result as it stands in the block, of which the first `kept` characters are shown.
  function ItemText(score: string, content: string, kept: nat): string
    requires kept <= |content|
  {
    "\n<memory score=\"" + score + "\">\n"
    + Escape(content[..kept]) + (if kept < |content| then "\U{2026}" else "") + "\n</memory>\n"
  }

  lemma OpeningText(score: string)
    ensures "\n" + (OpenTag(score) + ">\n") == "\n<memory score=\"" + score + "\">\n"
  {
  }

  lemma ItemIsText(r: Recalled, kept: nat, rest: string)
    requires kept <= |r.content| && Excerpt(r.content) == r.content[..kept]
    ensures ItemThen(r, rest) == ItemText(r.score, r.content, kept) + rest
  {
    hide Escape, OpenTag;
    var opening, text := OpenTag(r.score), Escape(r.content[..kept]);
    var dots := if kept < |r.content| then "\U{2026}" else "";
    OpeningText(r.score);
    assert ItemThen(r, rest)
        == "\n" + (opening + (">\n" + ((text + (dots + "\n")) + (CLOSE_INNER + (">\n" + rest)))));
    Regrouped("\n", opening, ">\n", text, dots, "\n", CLOSE_INNER, ">\n", rest);
    assert "\n" + CLOSE_INNER + ">\n" == "\n</memory>\n";
  }

  lemma Regrouped(a: string, b: string, c: string, d: string, e: string, f: string, g: string, h: string, rest: string)
    ensures a + (b + (c + ((d + (e + f)) + (g + (h + rest))))) == (a + (b + c)) + d + e + (f + g + h) + rest
  {
    Assoc(g, h, rest);
    var gh := g + h;
    assert (d + (e + f)) + (gh + rest) == d + e + (f + gh) + rest;
    assert f + gh == f + g + h;
    var tail := d + e + (f + g + h) + rest;
    assert a + (b + (c + tail)) == (a + (b + c)) + tail;
  }

  lemma {:induction false} LastItem(results: seq<Recalled>, r: Recalled, rest: string)
    ensures ItemsThen(results + [r], rest) == ItemsThen(results, ItemThen(r, rest))
  {
    hide ItemThen;
    if results == [] {
      assert (results + [r])[1..] == [];
    } else {
      assert (results + [r])[1..] == results[1..] + [r];
      LastItem(results[1..], r, rest);
    }
  }

  lemma {:induction false} ItemsBefore(results: seq<Recalled>, rest: string)
    ensures ItemsThen(results, rest) == ItemsThen(results, "") + rest
  {
    if results != [] {
      var r := results[0];
      ItemsBefore(results[1..], rest);
      var kept := ExcerptIsLongest(r.content);
      ItemIsText(r, kept, ItemsThen(results[1..], rest));
      ItemIsText(r, kept, ItemsThen(results[1..], ""));
      Assoc(ItemText(r.score, r.content, kept), ItemsThen(results[1..], ""), rest);
    }
  }

  /**
   The block without results is the outer tags around a fixed explanation. Each further result comes
   right before the closing tag, with its score, the longest front of at most 600 bytes of its content,
   escaped, and an ellipsis exactly where that leaves something out.
   */
  lemma NextMemory(results: seq<Recalled>, r: Recalled) returns (front: string, kept: nat)
    ensures front + CLOSING == Format(Prose(), results)
    ensures results == [] ==> front == "<recalled_memories>" + Prose()
    ensures kept <= |r.content|
    ensures Format(Prose(), results + [r]) == front + ItemText(r.score, r.content, kept) + CLOSING
    ensures Offset(Scalars(r.content), kept) <= 600
    ensures kept < |r.content| ==> Offset(Scalars(r.content), kept + 1) > 600
  {
    hide Prose, ItemThen, Escape, ItemText;
    kept := ExcerptIsLongest(r.content);
    hide Offset, Scalars;
    var opening := OPEN_OUTER + (">" + Prose());
    front := opening + ItemsThen(results, "");
    FormatWith(Prose(), results);
    FormatWith(Prose(), results + [r]);
    LastItem(results, r, "");
    ItemsBefore(results, ItemThen(r, ""));
    ItemIsText(r, kept, "");
    assert ItemsThen(results + [r], "") == ItemsThen(results, "") + ItemText(r.score, r.content, kept);
    Assoc(opening, ItemsThen(results, ""), ItemText(r.score, r.content, kept));
    if results == [] { OpeningOuter(Prose()); }
  }

  lemma OpeningOuter(prose: string)
    ensures OPEN_OUTER + (">" + prose) == "<recalled_memories>" + prose
  {
  }

  lemma FormatWith(prose: string, results: seq<Recalled>)
    ensures Format(prose, results) == OPEN_OUTER + (">" + prose) + ItemsThen(results, "") + CLOSING
  {
    ItemsBefore(results, CLOSE_OUTER + ">");
    hide ItemsThen;
    assert CLOSE_OUTER + ">" == CLOSING;
    var items := ItemsThen(results, "");
    Assoc(">" + prose, items, CLOSING);
    Assoc(OPEN_OUTER, ">" + prose + items, CLOSING);
    Assoc(OPEN_OUTER, ">" + prose, items);
  }
}
