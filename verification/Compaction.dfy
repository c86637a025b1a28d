/**
 Context monitoring and compaction, as effects on a thread: when compaction is suggested, how many
 turns each strategy keeps, and what that does to the token estimate.
 */
module Compaction {
  import opened ChatThread
  import opened Messages
  import opened TextChars
  import opened Wrappers

  // ----- Token estimates -----

  // Maximal runs of non-whitespace characters.
  function WordCount(text: string, afterSpace: bool): nat {
    if text == [] then 0
    else
      var space := IsWhitespace(text[0]);
      (if !space && afterSpace then 1 else 0) + WordCount(text[1..], space)
  }

  function EstimateMessage(m: ChatMessage): nat {
    13 * WordCount(m.content, true) / 10 + 4
  }

  function EstimateTokens(messages: seq<ChatMessage>): nat {
    if messages == [] then 0 else EstimateMessage(messages[0]) + EstimateTokens(messages[1..])
  }

  // ----- Estimates count words -----

  ghost predicate IsWord(text: string) {
    text != "" && forall i :: 0 <= i < |text| ==> !IsWhitespace(text[i])
  }

  // The words with a single space between them.
  function Spaced(words: seq<string>): string {
    if words == [] then "" else if |words| == 1 then words[0] else words[0] + " " + Spaced(words[1..])
  }

  lemma {:induction false} OneWord(word: string)
    requires forall i :: 0 <= i < |word| ==> !IsWhitespace(word[i])
    ensures WordCount(word, false) == 0 && WordCount(word, true) == if word == "" then 0 else 1
  {
    if word != "" { OneWord(word[1..]); }
  }

  lemma {:induction false} SpaceParts(a: string, b: string, afterSpace: bool)
    ensures WordCount(a + " " + b, afterSpace) == WordCount(a, afterSpace) + WordCount(b, true)
  {
    var text := a + " " + b;
    if a == "" {
      assert text[0] == ' ' && text[1..] == b;
    } else {
      assert text[0] == a[0] && text[1..] == a[1..] + " " + b;
      SpaceParts(a[1..], b, IsWhitespace(a[0]));
    }
  }

  lemma {:induction false} CountsWords(words: seq<string>)
    requires forall i :: 0 <= i < |words| ==> IsWord(words[i])
    ensures WordCount(Spaced(words), true) == |words|
  {
    if words != [] {
      OneWord(words[0]);
      if |words| > 1 {
        CountsWords(words[1..]);
        SpaceParts(words[0], Spaced(words[1..]), true);
      }
    }
  }

  /**
   The estimate counts words, and nothing else: a message of n words is worth 4 tokens and 1.3 for each,
   rounded down, and further text after a space adds its own words.
   */
  lemma EstimateCountsWords(words: seq<string>, role: Role)
    requires forall i :: 0 <= i < |words| ==> IsWord(words[i])
    ensures EstimateMessage(ChatMessage(role, Spaced(words), None, None, None)) == 4 + 13 * |words| / 10
  {
    CountsWords(words);
  }

  lemma TextsAddUp(a: string, b: string, role: Role)
    ensures var both := EstimateMessage(ChatMessage(role, a + " " + b, None, None, None));
            var apart := EstimateMessage(ChatMessage(role, a, None, None, None))
                         + EstimateMessage(ChatMessage(role, b, None, None, None));
            both + 4 == apart || both + 3 == apart
  {
    SpaceParts(a, b, true);
  }

  // The tokens of the messages with one role.
  function RoleTokens(messages: seq<ChatMessage>, role: Role): nat {
    if messages == [] then 0
    else (if messages[0].role == role then EstimateMessage(messages[0]) else 0) + RoleTokens(messages[1..], role)
  }

  datatype Breakdown = Breakdown(total: nat, system: nat, user: nat, assistant: nat, tool: nat, messageCount: nat)

  method Analyze(messages: seq<ChatMessage>) returns (b: Breakdown)
    ensures b == Breakdown(EstimateTokens(messages), RoleTokens(messages, System), RoleTokens(messages, User),
                           RoleTokens(messages, Assistant), RoleTokens(messages, Tool), |messages|)
    ensures b.total == b.system + b.user + b.assistant + b.tool
  {
    b := Breakdown(0, 0, 0, 0, 0, |messages|);
    for i := 0 to |messages|
      invariant b.total + EstimateTokens(messages[i..]) == EstimateTokens(messages)
      invariant b.system + RoleTokens(messages[i..], System) == RoleTokens(messages, System)
      invariant b.user + RoleTokens(messages[i..], User) == RoleTokens(messages, User)
      invariant b.assistant + RoleTokens(messages[i..], Assistant) == RoleTokens(messages, Assistant)
      invariant b.tool + RoleTokens(messages[i..], Tool) == RoleTokens(messages, Tool)
      invariant b.total == b.system + b.user + b.assistant + b.tool && b.messageCount == |messages|
    {
      var tokens := EstimateMessage(messages[i]);
      b := b.(total := b.total + tokens);
      match messages[i].role {
        case System => b := b.(system := b.system + tokens);
        case User => b := b.(user := b.user + tokens);
        case Assistant => b := b.(assistant := b.assistant + tokens);
        case Tool => b := b.(tool := b.tool + tokens);
      }
    }
  }

  // ----- When to compact -----

  datatype Strategy = Summarize(keepRecent: nat) | Truncate(keepRecent: nat) | MoveToWorkspace

  // The threshold is a percentage of the context limit.
  datatype Monitor = Monitor(contextLimit: nat, thresholdPercent: nat)

  function SuggestCompaction(m: Monitor, messages: seq<ChatMessage>): Option<Strategy> {
    var tokens := EstimateTokens(messages);
    if tokens < m.contextLimit * m.thresholdPercent / 100 then None
    else if tokens * 100 > m.contextLimit * 95 then Some(Truncate(3))
    else if tokens * 100 > m.contextLimit * 85 then Some(Summarize(5))
    else Some(MoveToWorkspace)
  }

  // ----- What compaction does -----

  datatype CompactionResult = CompactionResult(
    turnsRemoved: nat, tokensBefore: nat, tokensAfter: nat, summaryWritten: bool)

  // The turns a strategy keeps; moving to a missing workspace falls back to truncation.
  function KeptTurns(strategy: Strategy, hasWorkspace: bool): nat {
    match strategy
    case Summarize(keep) => keep
    case Truncate(keep) => keep
    case MoveToWorkspace => if hasWorkspace then 10 else 5
  }

  // The turns left by the suggested compaction; without a suggestion, all of them.
  function TurnsAfterSuggestion(m: Monitor, messages: seq<ChatMessage>, hasWorkspace: bool, turns: nat): nat {
    var suggestion := SuggestCompaction(m, messages);
    if suggestion.None? then turns
    else
      var keep := KeptTurns(suggestion.value, hasWorkspace);
      if turns > keep then keep else turns
  }

  /** The fuller the context, the fewer turns the suggested compaction keeps. */
  lemma FullerKeepsLess(m: Monitor, less: seq<ChatMessage>, more: seq<ChatMessage>, hasWorkspace: bool, turns: nat)
    requires EstimateTokens(less) <= EstimateTokens(more)
    ensures TurnsAfterSuggestion(m, more, hasWorkspace, turns) <= TurnsAfterSuggestion(m, less, hasWorkspace, turns)
  {
    hide EstimateTokens;
    assert EstimateTokens(less) * 100 <= EstimateTokens(more) * 100;
  }

  /**
   When compaction is suggested and what it keeps: from the threshold on, ten turns with a workspace and
   five without; above 85 percent of the limit five; above 95 percent three.
   */
  lemma SuggestionKeeps(m: Monitor, messages: seq<ChatMessage>, hasWorkspace: bool, turns: nat)
    requires m.thresholdPercent <= 85 && turns > 10
    ensures var tokens := EstimateTokens(messages);
            TurnsAfterSuggestion(m, messages, hasWorkspace, turns)
            == if tokens * 100 > 95 * m.contextLimit then 3
               else if tokens * 100 > 85 * m.contextLimit then 5
               else if tokens < m.contextLimit * m.thresholdPercent / 100 then turns
               else if hasWorkspace then 10 else 5
  {
    hide EstimateTokens;
    ThresholdIsLower(m.contextLimit, m.thresholdPercent);
    var threshold := m.contextLimit * m.thresholdPercent / 100;
    assert EstimateTokens(messages) < threshold ==> EstimateTokens(messages) * 100 <= 85 * m.contextLimit;
  }

  lemma ThresholdIsLower(limit: nat, percent: nat)
    requires percent <= 85
    ensures limit * percent / 100 * 100 <= 85 * limit
  {
    var product := limit * percent;
    assert product <= 85 * limit;
    assert product / 100 * 100 <= product;
  }

  lemma {:induction false} EstimateAppend(a: seq<ChatMessage>, b: seq<ChatMessage>)
    ensures EstimateTokens(a + b) == EstimateTokens(a) + EstimateTokens(b)
  {
    if a == [] {
      assert a + b == b;
    } else {
      assert (a + b)[1..] == a[1..] + b;
      EstimateAppend(a[1..], b);
    }
  }

  lemma {:induction false} EstimateAtLeast(messages: seq<ChatMessage>)
    ensures EstimateTokens(messages) >= 4 * |messages|
  {
    if messages != [] {
      EstimateAtLeast(messages[1..]);
    }
  }

  /** Dropping turns lowers the estimate by what the dropped messages were worth: at least 4 tokens a turn. */
  lemma TruncationLowersEstimate(turns: seq<Turn>, keep: nat)
    ensures EstimateTokens(MessagesOf(KeepRecent(turns, keep)))
            + 4 * Dropped(turns, keep) <= EstimateTokens(MessagesOf(turns))
  {
    KeepRecentIsSuffix(turns, keep);
    var dropped := MessagesOf(turns[..Dropped(turns, keep)]);
    EstimateAppend(dropped, MessagesOf(KeepRecent(turns, keep)));
    EstimateAtLeast(dropped);
    AtLeastOneMessageEach(turns[..Dropped(turns, keep)]);
  }

  lemma {:induction false} AtLeastOneMessageEach(turns: seq<Turn>)
    ensures |MessagesOf(turns)| >= |turns|
  {
    if turns != [] {
      AtLeastOneMessageEach(turns[1..]);
    }
  }

  /**
   Compacts a thread in place. A summary is asked for only if there is something to summarize; if
   that fails, the thread is left as it was. `summaryOk` and `writeOk` say how the model and the
   workspace answer.
   */
  method Compact(thread: Thread, strategy: Strategy, hasWorkspace: bool, summaryOk: bool, writeOk: bool)
    returns (r: Option<CompactionResult>)
    modifies thread`turns
    ensures var keep := KeptTurns(strategy, hasWorkspace);
            var before := old(thread.turns);
            r.None? <==> strategy.Summarize? && |before| > keep && !summaryOk
    ensures r.None? ==> thread.turns == old(thread.turns)
    ensures r.Some? ==> thread.turns == KeepRecent(old(thread.turns), KeptTurns(strategy, hasWorkspace))
    ensures r.Some? ==>
              && r.value.turnsRemoved == Dropped(old(thread.turns), KeptTurns(strategy, hasWorkspace))
              && r.value.tokensBefore == EstimateTokens(MessagesOf(old(thread.turns)))
              && r.value.tokensAfter == EstimateTokens(MessagesOf(thread.turns))
              && r.value.tokensAfter + 4 * r.value.turnsRemoved <= r.value.tokensBefore
              && (r.value.summaryWritten <==>
                    hasWorkspace && writeOk && !strategy.Truncate? && r.value.turnsRemoved > 0)
  {
    ghost var before := thread.turns;
    var messages := thread.CollectMessages();
    var breakdown := Analyze(messages);
    var removed, written := 0, false;
    match strategy {
      case Summarize(keep) =>
        if |thread.turns| > keep {
          if !summaryOk { return None; }
          removed := |thread.turns| - keep;
          written := hasWorkspace && writeOk;
          thread.TruncateTurns(keep);
        }
      case Truncate(keep) =>
        var count := |thread.turns|;
        thread.TruncateTurns(keep);
        removed := count - |thread.turns|;
      case MoveToWorkspace =>
        if !hasWorkspace {
          var count := |thread.turns|;
          thread.TruncateTurns(5);
          removed := count - |thread.turns|;
        } else if |thread.turns| > 10 {
          removed := |thread.turns| - 10;
          written := writeOk;
          thread.TruncateTurns(10);
        }
    }
    var messagesAfter := thread.CollectMessages();
    var breakdownAfter := Analyze(messagesAfter);
    TruncationLowersEstimate(before, KeptTurns(strategy, hasWorkspace));
    r := Some(CompactionResult(removed, breakdown.total, breakdownAfter.total, written));
  }
}
