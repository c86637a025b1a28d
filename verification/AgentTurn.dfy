/**
 Laws of the agentic loop: a run is determined by its world, the tools it executes were sanctioned,
 and the context keeps the tool-call protocol through a whole turn with approvals.
 */
module AgentTurn {
  import opened AgentLoop
  import opened ChatThread
  import opened Messages
  import opened ThreadOps
  import opened Wrappers

  // ----- A run is determined -----

  lemma SameExchange(w: World, initial: seq<ChatMessage>, resumed: bool, a: LoopRun, b: LoopRun, j: nat)
    requires IsRun(w, initial, resumed, a) && IsRun(w, initial, resumed, b)
    requires j < |a.log| && j < |b.log| && a.log[..j] == b.log[..j]
    ensures a.log[j] == b.log[j]
  {
    hide React, Render;
    assert Follows(w, initial, resumed, a.log, j) && Follows(w, initial, resumed, b.log, j);
    if a.log[j].Block? {
      SameResults(w, initial, resumed, a, b, j);
      SameResults(w, initial, resumed, b, a, j);
    }
  }

  lemma SameResults(w: World, initial: seq<ChatMessage>, resumed: bool, a: LoopRun, b: LoopRun, j: nat)
    requires IsRun(w, initial, resumed, a) && IsRun(w, initial, resumed, b) && j < |a.log| && j < |b.log|
    requires a.log[j].Block? && b.log[j].Block? && a.log[j].calls == b.log[j].calls
    ensures |b.log[j].results| <= |a.log[j].results|
    ensures forall k :: 0 <= k < |b.log[j].results| ==> a.log[j].results[k] == b.log[j].results[k]
  {
    hide React, Render;
    assert Follows(w, initial, resumed, a.log, j) && Follows(w, initial, resumed, b.log, j);
    assert |b.log[j].results| <= |b.log[j].calls|;
    var k := |a.log[j].results|;
    if k < |b.log[j].results| {
      OpenMeansWaiting(w, initial, resumed, a, j);
    }
  }

  lemma OpenMeansWaiting(w: World, initial: seq<ChatMessage>, resumed: bool, run: LoopRun, j: nat)
    requires IsRun(w, initial, resumed, run) && j < |run.log| && Open(run.log[j])
    ensures j == |run.log| - 1
    ensures var k := |run.log[j].results|; !React(w, j + 1, k, run.log[j].calls[k]).Answers?
  {
    hide React, Render;
  }

  lemma {:induction false} SamePrefix(w: World, initial: seq<ChatMessage>, resumed: bool, a: LoopRun, b: LoopRun,
                                      j: nat)
    requires IsRun(w, initial, resumed, a) && IsRun(w, initial, resumed, b) && j <= |a.log| && j <= |b.log|
    ensures a.log[..j] == b.log[..j]
  {
    hide IsRun;
    if j > 0 {
      SamePrefix(w, initial, resumed, a, b, j - 1);
      SameExchange(w, initial, resumed, a, b, j - 1);
      assert a.log[..j] == a.log[..j - 1] + [a.log[j - 1]];
      assert b.log[..j] == b.log[..j - 1] + [b.log[j - 1]];
    }
  }

  // A run cannot end where another one goes on.
  lemma NotTheEnd(w: World, initial: seq<ChatMessage>, resumed: bool, log: seq<Exchange>, n: nat,
                  outcome: LoopOutcome)
    requires LogFollows(w, initial, resumed, log) && n < |log|
    ensures !EndsWith(w, initial, resumed, log[..n], outcome)
  {
    hide React, Render, BlockFollows, ToolsExecuted, TooManyIterations, InterruptedFailure, LlmFailure;
    assert Follows(w, initial, resumed, log, n);
    if n > 0 {
      assert !Open(log[n - 1]) && log[..n][n - 1] == log[n - 1];
    }
  }

  lemma NoLonger(w: World, initial: seq<ChatMessage>, resumed: bool, a: LoopRun, b: LoopRun)
    requires IsRun(w, initial, resumed, a) && IsRun(w, initial, resumed, b)
    ensures |b.log| <= |a.log|
  {
    hide React, Render, BlockFollows, ToolsExecuted, TooManyIterations, InterruptedFailure, LlmFailure;
    if |a.log| < |b.log| {
      var n := |a.log|;
      SamePrefix(w, initial, resumed, a, b, n);
      assert a.log == b.log[..n] by { assert a.log == a.log[..n]; }
      NotTheEnd(w, initial, resumed, b.log, n, a.outcome);
    }
  }

  /**
   What the model, the tools and the hooks do determines the whole run: its context, its outcome and
   its executions.
   */
  lemma RunIsDetermined(w: World, initial: seq<ChatMessage>, resumed: bool, a: LoopRun, b: LoopRun)
    requires IsRun(w, initial, resumed, a) && IsRun(w, initial, resumed, b)
    ensures a == b
  {
    hide React, Render, LogFollows, ToolsExecuted, TooManyIterations, InterruptedFailure, LlmFailure;
    NoLonger(w, initial, resumed, a, b);
    NoLonger(w, initial, resumed, b, a);
    SamePrefix(w, initial, resumed, a, b, |a.log|);
    assert a.log == a.log[..|a.log|] == b.log[..|b.log|] == b.log;
  }

  // ----- What a run executes -----

  // The call needed no approval, or was vouched for and is not destructive.
  ghost predicate MayRun(w: World, i: nat, k: nat, call: ToolCall) {
    w.needsApproval(i, k, call.name) ==> w.vouched(i, k, call.name) && !w.destructive(call)
  }

  // It runs with the arguments the model gave it, or with those the hooks put in their place.
  ghost predicate RunsWith(w: World, i: nat, k: nat, call: ToolCall, arguments: string) {
    && w.hook(i, k, call).Passed?
    && var given := w.hook(i, k, call).newParams;
    && arguments == if given.Some? && w.isJson(given.value) then given.value else call.arguments
  }

  // Execution e was one of the calls the model made, was allowed to run, and passed the hooks.
  ghost predicate Sanctioned(w: World, log: seq<Exchange>, e: Execution) {
    && 1 <= e.i <= |log| && log[e.i - 1].Block? && e.k < |log[e.i - 1].calls|
    && var call := log[e.i - 1].calls[e.k];
    && e.name == call.name && MayRun(w, e.i, e.k, call) && RunsWith(w, e.i, e.k, call, e.arguments)
  }

  lemma ExecutedIsSanctioned(w: World, i: nat, k: nat, call: ToolCall)
    ensures Executes(w, i, k, call) ==>
              MayRun(w, i, k, call) && RunsWith(w, i, k, call, ArgumentsAfterHook(w, i, k, call))
    ensures Asks(w, i, k, call) <==> !MayRun(w, i, k, call)
  {
  }

  predicate Before(a: Execution, b: Execution) {
    a.i < b.i || (a.i == b.i && a.k < b.k)
  }

  ghost predicate FromBlock(w: World, i: nat, calls: seq<ToolCall>, upto: nat, e: Execution)
    requires upto <= |calls|
  {
    && e.i == i && e.k < upto && Executes(w, i, e.k, calls[e.k])
    && e.name == calls[e.k].name && e.arguments == ArgumentsAfterHook(w, i, e.k, calls[e.k])
  }

  ghost predicate InOrder(x: seq<Execution>) {
    forall n, m :: 0 <= n < m < |x| ==> Before(x[n], x[m])
  }

  lemma {:induction false} BlockExecutionsAre(w: World, i: nat, calls: seq<ToolCall>, upto: nat)
    requires upto <= |calls|
    ensures forall e :: e in BlockExecutions(w, i, calls, upto) ==> FromBlock(w, i, calls, upto, e)
    ensures InOrder(BlockExecutions(w, i, calls, upto))
  {
    hide Executes, ArgumentsAfterHook;
    if upto > 0 {
      var shorter, k := BlockExecutions(w, i, calls, upto - 1), upto - 1;
      BlockExecutionsAre(w, i, calls, k);
      forall e | e in shorter ensures FromBlock(w, i, calls, upto, e) {
        assert FromBlock(w, i, calls, k, e);
      }
      assert forall n :: 0 <= n < |shorter| ==> shorter[n] in shorter;
    }
  }

  lemma {:induction false} ExecutionsAreSanctioned(w: World, log: seq<Exchange>)
    ensures forall e :: e in Executions(w, log) ==> Sanctioned(w, log, e)
    ensures InOrder(Executions(w, log))
  {
    hide Asks, Executes, ArgumentsAfterHook, BlockExecutions, Handled, MayRun, RunsWith;
    if log != [] {
      var n := |log|;
      var last, shorter := log[n - 1], log[..n - 1];
      ExecutionsAreSanctioned(w, shorter);
      var x := Executions(w, shorter);
      forall e | e in x ensures Sanctioned(w, log, e) {
        assert Sanctioned(w, shorter, e) && shorter[e.i - 1] == log[e.i - 1];
      }
      assert forall m :: 0 <= m < |x| ==> x[m] in x;
      if last.Block? && |last.results| <= |last.calls| {
        var y := BlockExecutions(w, n, last.calls, Handled(w, n, last));
        BlockExecutionsAre(w, n, last.calls, Handled(w, n, last));
        forall e | e in y ensures Sanctioned(w, log, e) {
          assert FromBlock(w, n, last.calls, Handled(w, n, last), e);
          ExecutedIsSanctioned(w, n, e.k, last.calls[e.k]);
        }
        assert forall m :: 0 <= m < |y| ==> y[m] in y;
      }
    }
  }

  /**
   Every tool the loop executes was sanctioned, each call runs at most once and in the order the
   model made them. The loop stops to ask exactly about a call that may not run, which comes after all
   of them.
   */
  lemma RunExecutesSanctioned(w: World, initial: seq<ChatMessage>, resumed: bool, run: LoopRun)
    requires IsRun(w, initial, resumed, run)
    ensures forall e :: e in run.executed ==> Sanctioned(w, run.log, e)
    ensures InOrder(run.executed)
    ensures run.outcome.NeedsApproval? ==>
              && |run.log| > 0 && Open(run.log[|run.log| - 1])
              && var last := run.log[|run.log| - 1];
              && run.outcome.pending.toolCallId == last.calls[|last.results|].id
              && !MayRun(w, |run.log|, |last.results|, last.calls[|last.results|])
              && forall e :: e in run.executed ==> Before(e, Execution(|run.log|, |last.results|, e.name, e.arguments))
    ensures forall j :: 0 <= j < |run.log| && run.log[j].Block? ==> AnsweredMayRun(w, j + 1, run.log[j])
  {
    NoneHeldBack(w, initial, resumed, run);
    hide MayRun, AnsweredMayRun;
    hide Render, LlmFailure, TooManyIterations, InterruptedFailure, ToolsExecuted, LogFollows;
    ExecutionsAreSanctioned(w, run.log);
    if run.outcome.NeedsApproval? {
      AskedCallIsNotExecuted(w, initial, resumed, run);
    }
  }

  // A call that has a result was not held back.
  ghost predicate AnsweredMayRun(w: World, i: nat, e: Exchange)
    requires e.Block?
  {
    |e.results| <= |e.calls| && forall k :: 0 <= k < |e.results| ==> MayRun(w, i, k, e.calls[k])
  }

  lemma NoneHeldBack(w: World, initial: seq<ChatMessage>, resumed: bool, run: LoopRun)
    requires IsRun(w, initial, resumed, run)
    ensures forall j :: 0 <= j < |run.log| && run.log[j].Block? ==> AnsweredMayRun(w, j + 1, run.log[j])
  {
    hide Render, EndsWith, Executions, Asks, MayRun;
    forall j | 0 <= j < |run.log| && run.log[j].Block? ensures AnsweredMayRun(w, j + 1, run.log[j]) {
      var e := run.log[j];
      assert Follows(w, initial, resumed, run.log, j);
      forall k | 0 <= k < |e.results| ensures MayRun(w, j + 1, k, e.calls[k]) {
        ExecutedIsSanctioned(w, j + 1, k, e.calls[k]);
      }
    }
  }

  lemma AskedCallIsNotExecuted(w: World, initial: seq<ChatMessage>, resumed: bool, run: LoopRun)
    requires IsRun(w, initial, resumed, run) && run.outcome.NeedsApproval?
    ensures |run.log| > 0 && Open(run.log[|run.log| - 1])
    ensures var last := run.log[|run.log| - 1];
            && run.outcome.pending.toolCallId == last.calls[|last.results|].id
            && !MayRun(w, |run.log|, |last.results|, last.calls[|last.results|])
            && forall e :: e in run.executed ==> Before(e, Execution(|run.log|, |last.results|, e.name, e.arguments))
  {
    hide Render, LogFollows, ToolsExecuted, BlockExecutions, MayRun, Executes, ArgumentsAfterHook;
    var n := |run.log|;
    var last := run.log[n - 1];
    ExecutedIsSanctioned(w, n, |last.results|, last.calls[|last.results|]);
    ExecutionsAreSanctioned(w, run.log[..n - 1]);
    BlockExecutionsAre(w, n, last.calls, |last.results|);
    assert Handled(w, n, last) == |last.results|;
    forall e | e in run.executed ensures Before(e, Execution(n, |last.results|, e.name, e.arguments)) {
      if e in Executions(w, run.log[..n - 1]) {
        assert Sanctioned(w, run.log[..n - 1], e);
      } else {
        assert FromBlock(w, n, last.calls, |last.results|, e);
      }
    }
  }

  // ----- Bounds of one run -----

  // Text-only replies come first, at most two of them.
  ghost predicate NudgesFirst(log: seq<Exchange>) {
    forall j :: 0 <= j < |log| && log[j].Nudged? ==> j < 2 && forall m :: 0 <= m < j ==> log[m].Nudged?
  }

  lemma EndsInText(w: World, initial: seq<ChatMessage>, resumed: bool, run: LoopRun)
    requires EndsWith(w, initial, resumed, run.log, run.outcome)
    requires run.outcome.Responded? && !ToolsExecuted(resumed, run.log)
    requires |run.log| > 0 ==> !run.log[|run.log| - 1].Block?
    ensures |run.log| >= 2
  {
    hide Render, React, ToolsExecuted;
  }

  /**
   The model is asked at most ten times in a run, each time only while neither the interrupt flag nor
   the cost guard says no. A text answers the user only after a tool ran, or from the third reply on.
   */
  lemma RunIsBounded(w: World, initial: seq<ChatMessage>, resumed: bool, run: LoopRun)
    requires IsRun(w, initial, resumed, run)
    ensures |run.log| <= 10
    ensures forall i :: 1 <= i <= |run.log| ==> !w.interrupted(i) && w.limit(i).None?
    ensures NudgesFirst(run.log) && (resumed ==> forall j :: 0 <= j < |run.log| ==> run.log[j].Block?)
    ensures run.outcome.Responded? ==> ToolsExecuted(resumed, run.log) || |run.log| == 2
  {
    hide Render, React, BlockFollows, LlmFailure, TooManyIterations, InterruptedFailure;
    forall i | 1 <= i <= |run.log| ensures i <= MAX_TOOL_ITERATIONS && !w.interrupted(i) && w.limit(i).None? {
      assert Follows(w, initial, resumed, run.log, i - 1);
    }
    forall j | 0 <= j < |run.log| && run.log[j].Nudged?
      ensures !resumed && j < 2 && forall m :: 0 <= m < j ==> run.log[m].Nudged?
    {
      assert Follows(w, initial, resumed, run.log, j);
      forall m | 0 <= m < j ensures run.log[m].Nudged? {
        assert run.log[..j][m] == run.log[m];
      }
    }
    var n := |run.log|;
    if n > 0 {
      assert !w.interrupted(n);
    }
    if run.outcome.Responded? && !ToolsExecuted(resumed, run.log) {
      assert n > 0 ==> !run.log[n - 1].Block?;
      EndsInText(w, initial, resumed, run);
    }
  }

  // ----- The tool-call protocol on messages -----

  // Message k is the r-th result of the calls made by message a.
  ghost predicate AnswersCall(messages: seq<ChatMessage>, a: nat, k: nat)
    requires a < k < |messages|
  {
    && messages[a].toolCalls.Some? && k - a - 1 < |messages[a].toolCalls.value|
    && var call := messages[a].toolCalls.value[k - a - 1];
    && messages[k].toolCallId == Some(call.id) && messages[k].name == Some(call.name)
    && forall m :: a < m < k ==> messages[m].role == Tool
  }

  // Every tool result directly follows the message that made its call, and in the order of the calls.
  ghost predicate ResultsAnswer(messages: seq<ChatMessage>) {
    forall k :: 0 <= k < |messages| && messages[k].role == Tool ==>
        exists a :: 0 <= a < k && AnswersCall(messages, a, k)
  }

  lemma AnswersCallIsLocal(messages: seq<ChatMessage>, more: seq<ChatMessage>, a: nat, k: nat)
    requires a < k < |messages| && AnswersCall(messages, a, k)
    ensures AnswersCall(messages + more, a, k)
  {
  }

  lemma AddMessage(messages: seq<ChatMessage>, m: ChatMessage)
    requires ResultsAnswer(messages)
    requires m.role == Tool ==> exists a :: 0 <= a < |messages| && AnswersCall(messages + [m], a, |messages|)
    ensures ResultsAnswer(messages + [m])
  {
    forall k | 0 <= k < |messages| && messages[k].role == Tool
      ensures exists a :: 0 <= a < k && AnswersCall(messages + [m], a, k)
    {
      var a :| 0 <= a < k && AnswersCall(messages, a, k);
      AnswersCallIsLocal(messages, [m], a, k);
    }
  }

  lemma {:induction false} ResultMessagesAre(calls: seq<ToolCall>, results: seq<string>)
    requires |results| <= |calls|
    ensures var messages := ResultMessages(calls, results);
            |messages| == |results| && forall k :: 0 <= k < |results| ==>
                messages[k] == ToolResult(calls[k].id, calls[k].name, results[k])
  {
    if results != [] {
      ResultMessagesAre(calls, results[..|results| - 1]);
    }
  }

  lemma RenderResult(content: Option<string>, calls: seq<ToolCall>, results: seq<string>, text: string)
    requires |results| < |calls|
    ensures RenderOne(Block(content, calls, results + [text]))
         == RenderOne(Block(content, calls, results)) + [ToolResult(calls[|results|].id, calls[|results|].name, text)]
  {
    hide AssistantWithToolCalls, ToolResult;
    assert (results + [text])[..|results|] == results;
    Associative([AssistantWithToolCalls(content, calls)], ResultMessages(calls, results),
                [ToolResult(calls[|results|].id, calls[|results|].name, text)]);
  }

  lemma BlockShape(before: seq<ChatMessage>, content: Option<string>, calls: seq<ToolCall>, results: seq<string>)
    requires |results| <= |calls|
    ensures var messages := before + RenderOne(Block(content, calls, results));
            && |messages| == |before| + 1 + |results|
            && messages[|before|] == AssistantWithToolCalls(content, calls)
            && forall m :: |before| < m < |messages| ==> messages[m].role == Tool
  {
    ResultMessagesAre(calls, results);
    hide ResultMessages, AssistantWithToolCalls;
    var answers := ResultMessages(calls, results);
    var messages := before + ([AssistantWithToolCalls(content, calls)] + answers);
    forall m | |before| < m < |messages| ensures messages[m].role == Tool {
      assert messages[m] == answers[m - |before| - 1];
    }
  }

  lemma AnswerFollows(messages: seq<ChatMessage>, a: nat, calls: seq<ToolCall>, answer: ChatMessage)
    requires a < |messages| && messages[a].toolCalls == Some(calls) && |messages| - a - 1 < |calls|
    requires forall m :: a < m < |messages| ==> messages[m].role == Tool
    requires var call := calls[|messages| - a - 1]; answer.toolCallId == Some(call.id) && answer.name == Some(call.name)
    ensures AnswersCall(messages + [answer], a, |messages|)
  {
  }

  lemma NextAnswersCall(before: seq<ChatMessage>, content: Option<string>, calls: seq<ToolCall>,
                        results: seq<string>, text: string)
    requires |results| < |calls|
    ensures var messages := before + RenderOne(Block(content, calls, results));
            var answer := ToolResult(calls[|results|].id, calls[|results|].name, text);
            |before| < |messages| && AnswersCall(messages + [answer], |before|, |messages|)
  {
    BlockShape(before, content, calls, results);
    hide RenderOne, AnswersCall;
    var messages := before + RenderOne(Block(content, calls, results));
    AnswerFollows(messages, |before|, calls, ToolResult(calls[|results|].id, calls[|results|].name, text));
  }

  // One more result after a block's first ones.
  lemma AddResult(before: seq<ChatMessage>, content: Option<string>, calls: seq<ToolCall>, results: seq<string>,
                  text: string)
    requires |results| < |calls|
    requires ResultsAnswer(before + RenderOne(Block(content, calls, results)))
    ensures ResultsAnswer(before + RenderOne(Block(content, calls, results + [text])))
  {
    var answer := ToolResult(calls[|results|].id, calls[|results|].name, text);
    var block := RenderOne(Block(content, calls, results));
    NextAnswersCall(before, content, calls, results, text);
    RenderResult(content, calls, results, text);
    hide ResultsAnswer, AnswersCall, RenderOne, ToolResult;
    Associative(before, block, [answer]);
    AddMessage(before + block, answer);
  }

  lemma {:induction false} AddExchange(before: seq<ChatMessage>, e: Exchange)
    requires ResultsAnswer(before) && (e.Block? ==> |e.results| <= |e.calls|)
    ensures ResultsAnswer(before + RenderOne(e))
    decreases if e.Block? then |e.results| else 0
  {
    hide ResultsAnswer;
    match e
    case Nudged(text) =>
      AddMessage(before, AssistantMessage(text));
      AddMessage(before + [AssistantMessage(text)], UserMessage(NUDGE));
      assert before + RenderOne(e) == before + [AssistantMessage(text)] + [UserMessage(NUDGE)];
    case Block(content, calls, results) =>
      if results == [] {
        AddMessage(before, AssistantWithToolCalls(content, calls));
        assert before + RenderOne(e) == before + [AssistantWithToolCalls(content, calls)];
      } else {
        var k := |results| - 1;
        AddExchange(before, Block(content, calls, results[..k]));
        AddResult(before, content, calls, results[..k], results[k]);
        assert results[..k] + [results[k]] == results;
      }
  }

  ghost predicate ResultsFit(log: seq<Exchange>) {
    forall j :: 0 <= j < |log| && log[j].Block? ==> |log[j].results| <= |log[j].calls|
  }

  lemma {:induction false} LogKeepsProtocol(before: seq<ChatMessage>, log: seq<Exchange>)
    requires ResultsAnswer(before) && ResultsFit(log)
    ensures ResultsAnswer(before + Render(log))
  {
    hide ResultsAnswer, RenderOne;
    if log == [] {
      assert before + Render(log) == before;
    } else {
      var n := |log| - 1;
      LogKeepsProtocol(before, log[..n]);
      AddExchange(before + Render(log[..n]), log[n]);
      Associative(before, Render(log[..n]), RenderOne(log[n]));
    }
  }

  // A transcript of a thread holds no tool messages.
  lemma {:induction false} TranscriptKeepsProtocol(turns: seq<Turn>)
    ensures ResultsAnswer(MessagesOf(turns))
    ensures forall k :: 0 <= k < |MessagesOf(turns)| ==> MessagesOf(turns)[k].role != Tool
  {
    if turns != [] {
      TranscriptKeepsProtocol(turns[1..]);
    }
  }

  // ----- A whole turn -----

  // One run of the loop, and the text the approved tool gave after it.
  datatype Leg = Leg(w: World, run: LoopRun, answer: string)

  // An approved call is answered after the messages it was stored with.
  function Resumed(pending: PendingApproval, answer: string): seq<ChatMessage> {
    pending.contextMessages + [ToolResult(pending.toolCallId, pending.toolName, answer)]
  }

  function StartOf(initial: seq<ChatMessage>, legs: seq<Leg>, t: nat): seq<ChatMessage>
    requires t < |legs|
  {
    if t > 0 && legs[t - 1].run.outcome.NeedsApproval?
        then Resumed(legs[t - 1].run.outcome.pending, legs[t - 1].answer) else initial
  }

  // Every run but the last asked for an approval, which was given.
  ghost predicate IsTurn(initial: seq<ChatMessage>, legs: seq<Leg>) {
    && |legs| > 0
    && (forall t :: 0 <= t < |legs| ==> IsRun(legs[t].w, StartOf(initial, legs, t), t > 0, legs[t].run))
    && (forall t :: 0 <= t < |legs| - 1 ==> legs[t].run.outcome.NeedsApproval?)
  }

  function AnswerLast(log: seq<Exchange>, text: string): seq<Exchange> {
    if log == [] || log[|log| - 1].Nudged? then log
    else
      var n := |log| - 1;
      log[..n] + [log[n].(results := log[n].results + [text])]
  }

  // The log of the turn as one.
  function WholeLog(legs: seq<Leg>): seq<Exchange>
    requires |legs| > 0
  {
    var n := |legs| - 1;
    if n == 0 then legs[0].run.log
    else AnswerLast(WholeLog(legs[..n]), legs[n - 1].answer) + legs[n].run.log
  }

  function OpenBlocks(log: seq<Exchange>): nat {
    if log == [] then 0 else OpenBlocks(log[..|log| - 1]) + if Open(log[|log| - 1]) then 1 else 0
  }

  // Did the run stop at the last call of its block?
  predicate AsksLast(run: LoopRun) {
    |run.log| > 0 && LastCallWaits(run.log[|run.log| - 1])
  }

  // Approvals that cut their block short: calls after the stored one are dropped.
  function Cuts(legs: seq<Leg>): nat
    requires |legs| > 0
  {
    var n := |legs| - 1;
    if n == 0 then 0 else Cuts(legs[..n]) + if AsksLast(legs[n - 1].run) then 0 else 1
  }

  predicate LastCallWaits(e: Exchange) {
    e.Block? && |e.results| + 1 == |e.calls|
  }

  lemma RenderAppendStep(a: seq<Exchange>, b: seq<Exchange>, e: Exchange)
    requires Render(a + b) == Render(a) + Render(b)
    ensures Render(a + (b + [e])) == Render(a) + Render(b + [e])
  {
    RenderGrows(a + b, e);
    RenderGrows(b, e);
    hide Render, RenderOne;
    Associative(a, b, [e]);
    Associative(Render(a), Render(b), RenderOne(e));
  }

  lemma {:induction false} RenderAppend(a: seq<Exchange>, b: seq<Exchange>)
    ensures Render(a + b) == Render(a) + Render(b)
  {
    hide RenderOne;
    if b == [] {
      assert a + b == a;
      assert Render(b) == [];
    } else {
      hide Render;
      var n := |b| - 1;
      RenderAppend(a, b[..n]);
      RenderAppendStep(a, b[..n], b[n]);
      assert b[..n] + [b[n]] == b;
    }
  }

  lemma {:induction false} OpenBlocksAppend(a: seq<Exchange>, b: seq<Exchange>)
    ensures OpenBlocks(a + b) == OpenBlocks(a) + OpenBlocks(b)
  {
    if b == [] {
      assert a + b == a;
    } else {
      var n := |b| - 1;
      OpenBlocksAppend(a, b[..n]);
      hide Open;
      assert (a + b)[..|a| + n] == a + b[..n];
    }
  }

  // Answering the call that waits and going on from there adds to the same log.
  lemma JoinLogs(initial: seq<ChatMessage>, log: seq<Exchange>, pending: PendingApproval, answer: string,
                 more: seq<Exchange>)
    requires |log| > 0 && Open(log[|log| - 1]) && pending.contextMessages == initial + Render(log)
    requires var last := log[|log| - 1];
             var call := last.calls[|last.results|];
             pending.toolCallId == call.id && pending.toolName == call.name
    ensures Resumed(pending, answer) + Render(more) == initial + Render(AnswerLast(log, answer) + more)
    ensures OpenBlocks(AnswerLast(log, answer) + more)
         == OpenBlocks(log) - (if LastCallWaits(log[|log| - 1]) then 1 else 0) + OpenBlocks(more)
  {
    AnsweredLast(log, answer);
    RenderAppend(AnswerLast(log, answer), more);
    OpenBlocksAppend(AnswerLast(log, answer), more);
    hide AnswerLast, Render, OpenBlocks, Open, LastCallWaits;
    var result := ToolResult(pending.toolCallId, pending.toolName, answer);
    Associative(initial, Render(log), [result]);
    Associative(initial, Render(log) + [result], Render(more));
  }

  lemma OpenBlocksGrow(front: seq<Exchange>, e: Exchange)
    ensures OpenBlocks(front + [e]) == OpenBlocks(front) + if Open(e) then 1 else 0
  {
    assert (front + [e])[..|front|] == front;
  }

  lemma RenderTail(front: seq<Exchange>, content: Option<string>, calls: seq<ToolCall>, results: seq<string>,
                   text: string)
    requires |results| < |calls|
    ensures Render(front + [Block(content, calls, results + [text])])
         == Render(front + [Block(content, calls, results)])
             + [ToolResult(calls[|results|].id, calls[|results|].name, text)]
    ensures OpenBlocks(front + [Block(content, calls, results + [text])])
         == OpenBlocks(front + [Block(content, calls, results)]) - (if |results| + 1 == |calls| then 1 else 0)
  {
    var less, more := Block(content, calls, results), Block(content, calls, results + [text]);
    OpenBlocksGrow(front, less);
    OpenBlocksGrow(front, more);
    RenderGrows(front, less);
    RenderGrows(front, more);
    RenderResult(content, calls, results, text);
    hide Render, RenderOne, ToolResult, OpenBlocks;
    Associative(Render(front), RenderOne(less), [ToolResult(calls[|results|].id, calls[|results|].name, text)]);
  }

  lemma AnsweredLast(log: seq<Exchange>, text: string)
    requires |log| > 0 && Open(log[|log| - 1])
    ensures var last := log[|log| - 1];
            var call := last.calls[|last.results|];
            Render(AnswerLast(log, text)) == Render(log) + [ToolResult(call.id, call.name, text)]
    ensures OpenBlocks(AnswerLast(log, text)) == OpenBlocks(log) - (if LastCallWaits(log[|log| - 1]) then 1 else 0)
  {
    hide Render, RenderOne, ToolResult, OpenBlocks;
    var n := |log| - 1;
    assert log[..n] + [log[n]] == log;
    RenderTail(log[..n], log[n].content, log[n].calls, log[n].results, text);
  }

  // The open blocks of one run: at most its last one, and none if it ended in neither a request nor auth mode.
  lemma {:induction false} ClosedPrefix(log: seq<Exchange>)
    requires forall j :: 0 <= j < |log| ==> !Open(log[j])
    ensures OpenBlocks(log) == 0
  {
    if log != [] { ClosedPrefix(log[..|log| - 1]); }
  }

  predicate Waits(run: LoopRun) {
    run.outcome.NeedsApproval? || (run.outcome.Responded? && run.outcome.auth.Some?)
  }

  lemma RunBlocks(w: World, initial: seq<ChatMessage>, resumed: bool, run: LoopRun)
    requires IsRun(w, initial, resumed, run)
    ensures ResultsFit(run.log)
    ensures OpenBlocks(run.log) == if Waits(run) then 1 else 0
    ensures Waits(run) <==> |run.log| > 0 && Open(run.log[|run.log| - 1])
    ensures run.outcome.NeedsApproval? ==>
              var last := run.log[|run.log| - 1];
              var (pending, call) := (run.outcome.pending, last.calls[|last.results|]);
              && pending.contextMessages == initial + Render(run.log)
              && pending.toolCallId == call.id && pending.toolName == call.name && pending.parameters == call.arguments
  {
    hide Render, React, ToolsExecuted, LlmFailure, TooManyIterations, InterruptedFailure;
    forall j | 0 <= j < |run.log| && run.log[j].Block? ensures |run.log[j].results| <= |run.log[j].calls| {
      assert Follows(w, initial, resumed, run.log, j);
    }
    if run.log != [] {
      ClosedPrefix(run.log[..|run.log| - 1]);
    }
    EndsClosed(w, initial, resumed, run);
  }

  lemma EndsClosed(w: World, initial: seq<ChatMessage>, resumed: bool, run: LoopRun)
    requires EndsWith(w, initial, resumed, run.log, run.outcome)
    ensures Waits(run) <==> |run.log| > 0 && Open(run.log[|run.log| - 1])
  {
    hide Render, React, ToolsExecuted;
  }

  // What holds of the log of a turn so far.
  ghost predicate TurnLog(initial: seq<ChatMessage>, legs: seq<Leg>) {
    && IsTurn(initial, legs)
    && var log := WholeLog(legs);
    && var last := legs[|legs| - 1];
    && StartOf(initial, legs, |legs| - 1) + Render(last.run.log) == initial + Render(log)
    && ResultsFit(log) && NudgesFirst(log)
    && OpenBlocks(log) == Cuts(legs) + (if Waits(last.run) then 1 else 0)
    && (last.run.log != [] ==> log != [] && log[|log| - 1] == last.run.log[|last.run.log| - 1])
  }

  lemma ShorterTurn(initial: seq<ChatMessage>, legs: seq<Leg>)
    requires IsTurn(initial, legs) && |legs| > 1
    ensures IsTurn(initial, legs[..|legs| - 1])
  {
    hide IsRun;
    var shorter := legs[..|legs| - 1];
    forall t | 0 <= t < |shorter| ensures IsRun(shorter[t].w, StartOf(initial, shorter, t), t > 0, shorter[t].run) {
      assert StartOf(initial, shorter, t) == StartOf(initial, legs, t);
    }
  }

  lemma NudgesStayFirst(log: seq<Exchange>, text: string, more: seq<Exchange>)
    requires |log| > 0 && log[|log| - 1].Block? && NudgesFirst(log)
    requires forall j :: 0 <= j < |more| ==> more[j].Block?
    ensures NudgesFirst(AnswerLast(log, text) + more)
  {
    var whole := AnswerLast(log, text) + more;
    forall j | 0 <= j < |whole| ensures whole[j].Nudged? <==> j < |log| && log[j].Nudged? {}
  }

  lemma FitTogether(log: seq<Exchange>, text: string, more: seq<Exchange>)
    requires |log| > 0 && Open(log[|log| - 1]) && ResultsFit(log) && ResultsFit(more)
    ensures ResultsFit(AnswerLast(log, text) + more)
  {
  }

  lemma {:induction false} TurnLogHolds(initial: seq<ChatMessage>, legs: seq<Leg>)
    requires IsTurn(initial, legs)
    ensures TurnLog(initial, legs)
  {
    hide IsRun, Render, ResultsFit, NudgesFirst, Waits, OpenBlocks, AnswerLast;
    var n := |legs| - 1;
    var run := legs[n].run;
    RunBlocks(legs[n].w, StartOf(initial, legs, n), n > 0, run);
    RunIsBounded(legs[n].w, StartOf(initial, legs, n), n > 0, run);
    if n > 0 {
      ShorterTurn(initial, legs);
      TurnLogHolds(initial, legs[..n]);
      JoinLeg(initial, legs);
    }
  }

  lemma JoinLeg(initial: seq<ChatMessage>, legs: seq<Leg>)
    requires IsTurn(initial, legs) && |legs| > 1 && TurnLog(initial, legs[..|legs| - 1])
    ensures TurnLog(initial, legs)
  {
    hide IsRun, Render, ResultsFit, NudgesFirst, OpenBlocks, AnswerLast, Resumed, Open, LastCallWaits;
    var n := |legs| - 1;
    var (asked, answer, run) := (legs[n - 1].run, legs[n - 1].answer, legs[n].run);
    RunBlocks(legs[n - 1].w, StartOf(initial, legs, n - 1), n > 1, asked);
    RunBlocks(legs[n].w, StartOf(initial, legs, n), true, run);
    RunIsBounded(legs[n].w, StartOf(initial, legs, n), true, run);
    var log := WholeLog(legs[..n]);
    assert legs[..n][n - 1] == legs[n - 1];
    assert StartOf(initial, legs[..n], n - 1) == StartOf(initial, legs, n - 1);
    assert log[|log| - 1] == asked.log[|asked.log| - 1];
    JoinLogs(initial, log, asked.outcome.pending, answer, run.log);
    OpenIsBlock(log[|log| - 1]);
    NudgesStayFirst(log, answer, run.log);
    FitTogether(log, answer, run.log);
    assert WholeLog(legs) == AnswerLast(log, answer) + run.log;
  }

  lemma OpenIsBlock(e: Exchange)
    requires Open(e)
    ensures e.Block?
  {
  }

  /**
   Through a whole turn, however many approvals interrupt it, the context is the initial messages and
   one log: at most two nudges, all before any tool calls, then blocks whose results answer a prefix
   of their calls. As many blocks are incomplete as approvals asked for a call that was not the last
   of its block, and the last one too if it still waits.
   */
  lemma TurnBuildsOneLog(initial: seq<ChatMessage>, legs: seq<Leg>)
    requires IsTurn(initial, legs)
    ensures var log := WholeLog(legs);
            var last := legs[|legs| - 1];
            && StartOf(initial, legs, |legs| - 1) + Render(last.run.log) == initial + Render(log)
            && NudgesFirst(log) && ResultsFit(log)
            && OpenBlocks(log) == Cuts(legs) + (if Waits(last.run) then 1 else 0)
  {
    TurnLogHolds(initial, legs);
  }

  // ----- Which blocks stay incomplete -----

  // Exchange j is the last one of a run that stopped at a call before the last of its block.
  ghost predicate CutAt(legs: seq<Leg>, j: nat) {
    exists t: nat :: t < |legs| - 1 && j + 1 == |WholeLog(legs[..t + 1])| && !AsksLast(legs[t].run)
  }

  lemma CutAtStep(legs: seq<Leg>, j: nat)
    requires |legs| > 1
    ensures var n := |legs| - 1;
            CutAt(legs, j) <==> CutAt(legs[..n], j) || (j + 1 == |WholeLog(legs[..n])| && !AsksLast(legs[n - 1].run))
  {
    var n := |legs| - 1;
    var shorter := legs[..n];
    forall t: nat | t < n ensures shorter[..t + 1] == legs[..t + 1] && shorter[t] == legs[t] {}
    if CutAt(legs, j) {
      var t: nat :| t < n && j + 1 == |WholeLog(legs[..t + 1])| && !AsksLast(legs[t].run);
      assert t < n - 1 ==> j + 1 == |WholeLog(shorter[..t + 1])| && !AsksLast(shorter[t].run);
    }
    if CutAt(shorter, j) {
      var t: nat :| t < n - 1 && j + 1 == |WholeLog(shorter[..t + 1])| && !AsksLast(shorter[t].run);
      assert j + 1 == |WholeLog(legs[..t + 1])| && !AsksLast(legs[t].run);
    }
    if j + 1 == |WholeLog(shorter)| && !AsksLast(legs[n - 1].run) {
      assert legs[..n - 1 + 1] == shorter;
    }
  }

  // A cut lies before the last run's own exchanges.
  lemma CutIsEarlier(legs: seq<Leg>, j: nat)
    requires |legs| > 0 && CutAt(legs, j)
    ensures j + |legs[|legs| - 1].run.log| < |WholeLog(legs)|
  {
    var t: nat :| t < |legs| - 1 && j + 1 == |WholeLog(legs[..t + 1])| && !AsksLast(legs[t].run);
    PrefixIsShorter(legs, t + 1);
  }

  lemma {:induction false} PrefixIsShorter(legs: seq<Leg>, n: nat)
    requires 1 <= n < |legs|
    ensures |WholeLog(legs[..n])| + |legs[|legs| - 1].run.log| <= |WholeLog(legs)|
  {
    WholeLogLength(legs);
    hide WholeLog;
    var shorter := legs[..|legs| - 1];
    if n < |shorter| {
      PrefixIsShorter(shorter, n);
      assert shorter[..n] == legs[..n];
    }
  }

  // A whole turn ends in the last run's open block if that run waits.
  lemma WaitingIsOpen(initial: seq<ChatMessage>, legs: seq<Leg>)
    requires IsTurn(initial, legs) && Waits(legs[|legs| - 1].run)
    ensures var log := WholeLog(legs);
            var own := legs[|legs| - 1].run.log;
            |log| > 0 && |own| > 0 && log[|log| - 1] == own[|own| - 1] && Open(log[|log| - 1])
  {
    TurnLogHolds(initial, legs);
    var n := |legs| - 1;
    RunBlocks(legs[n].w, StartOf(initial, legs, n), n > 0, legs[n].run);
  }

  lemma OwnExchanges(initial: seq<ChatMessage>, legs: seq<Leg>, j: nat)
    requires IsTurn(initial, legs) && j < |legs[|legs| - 1].run.log|
    ensures var run := legs[|legs| - 1].run; Open(run.log[j]) <==> j == |run.log| - 1 && Waits(run)
  {
    var n := |legs| - 1;
    RunBlocks(legs[n].w, StartOf(initial, legs, n), n > 0, legs[n].run);
    ClosedBefore(legs[n].w, StartOf(initial, legs, n), n > 0, legs[n].run);
  }

  lemma AnsweredExchange(log: seq<Exchange>, text: string, cut: bool, j: nat)
    requires j < |log| && Open(log[|log| - 1])
    requires Open(log[j]) <==> cut || j == |log| - 1
    requires cut ==> j < |log| - 1
    ensures |AnswerLast(log, text)| == |log|
    ensures Open(AnswerLast(log, text)[j]) <==> cut || (j == |log| - 1 && !LastCallWaits(log[|log| - 1]))
  {
    AnsweredOpen(log, text, j);
  }

  // The run before the last one asked, so the log so far ends in its open block.
  lemma AskedBlock(initial: seq<ChatMessage>, legs: seq<Leg>)
    requires IsTurn(initial, legs) && |legs| > 1
    ensures var log := WholeLog(legs[..|legs| - 1]);
            var asked := legs[|legs| - 2].run;
            && |log| > 0 && Open(log[|log| - 1]) && |asked.log| > 0
            && (AsksLast(asked) <==> LastCallWaits(log[|log| - 1]))
  {
    hide IsTurn, Open, LastCallWaits, WholeLog, Waits;
    AskedWaits(initial, legs);
    ShorterTurn(initial, legs);
    WaitingIsOpen(initial, legs[..|legs| - 1]);
  }

  lemma WholeLogJoins(legs: seq<Leg>)
    requires |legs| > 1
    ensures var n := |legs| - 1;
            WholeLog(legs) == AnswerLast(WholeLog(legs[..n]), legs[n - 1].answer) + legs[n].run.log
  {
  }

  // What the exchanges of the turn before its last run come to.
  lemma EarlierExchanges(initial: seq<ChatMessage>, legs: seq<Leg>, j: nat)
    requires IsTurn(initial, legs) && |legs| > 1 && j < |WholeLog(legs[..|legs| - 1])|
    requires var log := WholeLog(legs[..|legs| - 1]);
             Open(log[j]) <==> CutAt(legs[..|legs| - 1], j) || j == |log| - 1
    ensures j < |WholeLog(legs)| && (Open(WholeLog(legs)[j]) <==> CutAt(legs, j))
  {
    hide IsTurn, Open, WholeLog, CutAt, LastCallWaits, AsksLast, AnswerLast;
    var n := |legs| - 1;
    var shorter, log := legs[..n], WholeLog(legs[..n]);
    AskedBlock(initial, legs);
    if CutAt(shorter, j) { CutIsEarlier(shorter, j); }
    CutAtStep(legs, j);
    AnsweredExchange(log, legs[n - 1].answer, CutAt(shorter, j), j);
    WholeLogJoins(legs);
  }

  // Exchange j is incomplete exactly when it was cut, or is the last one and still waits.
  ghost predicate RightlyOpen(legs: seq<Leg>, j: nat)
    requires |legs| > 0 && j < |WholeLog(legs)|
  {
    Open(WholeLog(legs)[j]) <==> CutAt(legs, j) || (j == |WholeLog(legs)| - 1 && Waits(legs[|legs| - 1].run))
  }

  // The last run's own exchanges come at the end, after every cut.
  lemma OwnAreLast(legs: seq<Leg>, j: nat)
    requires |legs| > 0 && j < |WholeLog(legs)| && j + |legs[|legs| - 1].run.log| >= |WholeLog(legs)|
    ensures var own := legs[|legs| - 1].run.log;
            |own| <= |WholeLog(legs)| && WholeLog(legs)[j] == own[j - (|WholeLog(legs)| - |own|)]
    ensures !CutAt(legs, j)
  {
    if CutAt(legs, j) { CutIsEarlier(legs, j); }
  }

  lemma LastExchanges(initial: seq<ChatMessage>, legs: seq<Leg>, j: nat)
    requires IsTurn(initial, legs) && j < |WholeLog(legs)| && j + |legs[|legs| - 1].run.log| >= |WholeLog(legs)|
    ensures RightlyOpen(legs, j)
  {
    hide IsRun, Open, Waits, CutAt, WholeLog;
    OwnAreLast(legs, j);
    OwnExchanges(initial, legs, j - (|WholeLog(legs)| - |legs[|legs| - 1].run.log|));
  }

  // Where the last run has no exchanges of its own, it does not wait.
  lemma NothingWaits(initial: seq<ChatMessage>, legs: seq<Leg>)
    requires IsTurn(initial, legs) && legs[|legs| - 1].run.log == []
    ensures !Waits(legs[|legs| - 1].run)
  {
    hide IsRun, Open, Waits;
    if Waits(legs[|legs| - 1].run) { WaitingIsOpen(initial, legs); }
  }

  lemma EarlierAreRight(initial: seq<ChatMessage>, legs: seq<Leg>, j: nat)
    requires IsTurn(initial, legs) && |legs| > 1 && j < |WholeLog(legs[..|legs| - 1])|
    requires RightlyOpen(legs[..|legs| - 1], j)
    ensures j < |WholeLog(legs)| && RightlyOpen(legs, j)
  {
    hide IsTurn, Open, Waits, CutAt, WholeLog;
    AskedWaits(initial, legs);
    EarlierExchanges(initial, legs, j);
    WholeLogLength(legs);
    if legs[|legs| - 1].run.log == [] { NothingWaits(initial, legs); }
  }

  /** A block of a turn is incomplete exactly when an approval cut it short, or it is the last one and still waits. */
  lemma {:induction false} IncompleteExactly(initial: seq<ChatMessage>, legs: seq<Leg>, j: nat)
    requires IsTurn(initial, legs) && j < |WholeLog(legs)|
    ensures Open(WholeLog(legs)[j]) <==> CutAt(legs, j) || (j == |WholeLog(legs)| - 1 && Waits(legs[|legs| - 1].run))
  {
    var n := |legs| - 1;
    if n > 0 && j < |WholeLog(legs[..n])| {
      ShorterTurn(initial, legs);
      IncompleteExactly(initial, legs[..n], j);
      hide IsTurn, Open, Waits, CutAt, WholeLog;
      EarlierAreRight(initial, legs, j);
    } else {
      EndsInOwn(legs);
      hide IsTurn, Open, Waits, CutAt, WholeLog;
      LastExchanges(initial, legs, j);
    }
  }

  lemma EndsInOwn(legs: seq<Leg>)
    requires |legs| > 0
    ensures |WholeLog(legs)| == (if |legs| > 1 then |WholeLog(legs[..|legs| - 1])| else 0) + |legs[|legs| - 1].run.log|
  {
    if |legs| > 1 { WholeLogLength(legs); }
  }

  lemma WholeLogLength(legs: seq<Leg>)
    requires |legs| > 1
    ensures |WholeLog(legs)| == |WholeLog(legs[..|legs| - 1])| + |legs[|legs| - 1].run.log|
  {
  }

  lemma AskedWaits(initial: seq<ChatMessage>, legs: seq<Leg>)
    requires IsTurn(initial, legs) && |legs| > 1
    ensures var n := |legs| - 1;
            legs[..n][n - 1] == legs[n - 1] && Waits(legs[n - 1].run)
  {
    hide IsRun;
  }

  lemma AnsweredOpen(log: seq<Exchange>, text: string, j: nat)
    requires |log| > 0 && Open(log[|log| - 1]) && j < |log|
    ensures |AnswerLast(log, text)| == |log|
    ensures Open(AnswerLast(log, text)[j]) <==> Open(log[j]) && (j == |log| - 1 ==> !LastCallWaits(log[j]))
  {
  }

  // Within one run only the last exchange can be incomplete.
  lemma ClosedBefore(w: World, initial: seq<ChatMessage>, resumed: bool, run: LoopRun)
    requires IsRun(w, initial, resumed, run)
    ensures forall j :: 0 <= j < |run.log| - 1 ==> !Open(run.log[j])
  {
    hide Follows;
  }

  // The exchanges of a log that are over, when its last one may still wait.
  function Done(log: seq<Exchange>, waits: bool): int {
    if waits then |log| - 1 else |log|
  }

  lemma NoneOpenBefore(log: seq<Exchange>, waits: bool)
    requires waits ==> |log| > 0 && Open(log[|log| - 1])
    ensures 0 <= Done(log, waits)
    ensures OpenBlocks(log) == (if waits then 1 else 0) <==> forall j :: 0 <= j < Done(log, waits) ==> !Open(log[j])
  {
    hide Open;
    if waits {
      NoneOpen(log[..|log| - 1]);
    } else {
      NoneOpen(log);
    }
  }

  /**
   Every call is answered before the next request to the model exactly when each approval asked for
   the last call of its block; only a last block that still waits is left out of this.
   */
  lemma TurnIsCompleteExactly(initial: seq<ChatMessage>, legs: seq<Leg>)
    requires IsTurn(initial, legs)
    ensures var log := WholeLog(legs);
            (forall j :: 0 <= j < Done(log, Waits(legs[|legs| - 1].run)) ==> j < |log| && !Open(log[j]))
            <==> forall t :: 0 <= t < |legs| - 1 ==> AsksLast(legs[t].run)
  {
    hide IsRun, Open, Render, Waits, WholeLog, StartOf, OpenBlocks, Cuts;
    TurnBuildsOneLog(initial, legs);
    if Waits(legs[|legs| - 1].run) {
      WaitingIsOpen(initial, legs);
    }
    hide IsTurn, Render, Waits, Open, WholeLog, AsksLast, ResultsFit, NudgesFirst, StartOf, OpenBlocks, Cuts;
    NoneOpenBefore(WholeLog(legs), Waits(legs[|legs| - 1].run));
    NoCuts(legs);
  }

  lemma {:induction false} NoneOpen(log: seq<Exchange>)
    ensures OpenBlocks(log) == 0 <==> forall j :: 0 <= j < |log| ==> !Open(log[j])
  {
    hide Open;
    if log != [] {
      NoneOpen(log[..|log| - 1]);
    }
  }

  lemma {:induction false} NoCuts(legs: seq<Leg>)
    requires |legs| > 0
    ensures Cuts(legs) == 0 <==> forall t :: 0 <= t < |legs| - 1 ==> AsksLast(legs[t].run)
  {
    hide AsksLast;
    if |legs| > 1 {
      NoCuts(legs[..|legs| - 1]);
    }
  }

  lemma PrefixAnswers(messages: seq<ChatMessage>, n: nat)
    requires ResultsAnswer(messages) && n <= |messages|
    ensures ResultsAnswer(messages[..n])
  {
    forall k | 0 <= k < n && messages[..n][k].role == Tool
      ensures exists a :: 0 <= a < k && AnswersCall(messages[..n], a, k) {
      var a :| 0 <= a < k && AnswersCall(messages, a, k);
      assert AnswersCall(messages[..n], a, k);
    }
  }

  /**
   In every context the model sees during a turn, all of them prefixes of the last one, each tool
   result answers a call made directly before it, by id and name.
   */
  lemma TurnKeepsProtocol(turns: seq<Turn>, legs: seq<Leg>)
    requires IsTurn(MessagesOf(turns), legs)
    ensures var context := StartOf(MessagesOf(turns), legs, |legs| - 1) + Render(legs[|legs| - 1].run.log);
            ResultsAnswer(context) && forall n :: 0 <= n <= |context| ==> ResultsAnswer(context[..n])
  {
    hide Render, ResultsAnswer, NudgesFirst;
    TranscriptKeepsProtocol(turns);
    TurnBuildsOneLog(MessagesOf(turns), legs);
    LogKeepsProtocol(MessagesOf(turns), WholeLog(legs));
    var context := StartOf(MessagesOf(turns), legs, |legs| - 1) + Render(legs[|legs| - 1].run.log);
    forall n | 0 <= n <= |context| ensures ResultsAnswer(context[..n]) {
      PrefixAnswers(context, n);
    }
  }
}
