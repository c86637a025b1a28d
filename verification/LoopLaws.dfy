/**
 Where the results, the messages and the outcome of a run of the loop come from.
 */
module LoopLaws {
  import opened AgentLoop
  import opened AgentTurn
  import opened Messages
  import opened ThreadOps
  import opened Wrappers

  // ----- Results -----

  const INVALID_RESPONSE := "LLM error: Invalid response from agent: "

  // What the model is told about a call that ran.
  function Told(w: World, i: nat, e: Execution): string {
    match w.execute(i, e.k, e.name, e.arguments)
    case Ok(output) => w.wrap(e.name, output)
    case Err(error) => "Error: " + error
  }

  // The result of a call is the refusal of a hook, or what its one execution gave.
  ghost predicate ResultIsEarned(w: World, executed: seq<Execution>, i: nat, k: nat, call: ToolCall, result: string) {
    match w.hook(i, k, call)
    case Rejected(reason) => result == "Tool call rejected by hook: " + reason
    case Blocked(error) => result == "Tool call blocked by hook policy: " + error
    case Passed(_) =>
      exists e :: e in executed && e.i == i && e.k == k && e.name == call.name && result == Told(w, i, e)
  }

  lemma {:induction false} BlockExecutesAll(w: World, i: nat, calls: seq<ToolCall>, upto: nat, k: nat)
    requires k < upto <= |calls| && Executes(w, i, k, calls[k])
    ensures Execution(i, k, calls[k].name, ArgumentsAfterHook(w, i, k, calls[k])) in BlockExecutions(w, i, calls, upto)
  {
    hide Executes, ArgumentsAfterHook;
    if k < upto - 1 {
      BlockExecutesAll(w, i, calls, upto - 1, k);
    }
  }

  lemma {:induction false} LogExecutesAll(w: World, log: seq<Exchange>, j: nat, k: nat)
    requires j < |log| && log[j].Block? && |log[j].results| <= |log[j].calls| && k < Handled(w, j + 1, log[j])
    requires Executes(w, j + 1, k, log[j].calls[k])
    ensures var call := log[j].calls[k];
            Execution(j + 1, k, call.name, ArgumentsAfterHook(w, j + 1, k, call)) in Executions(w, log)
  {
    hide Executes, ArgumentsAfterHook, BlockExecutions, Handled;
    var n := |log| - 1;
    if j < n {
      assert log[..n][j] == log[j];
      LogExecutesAll(w, log[..n], j, k);
    } else {
      BlockExecutesAll(w, j + 1, log[j].calls, Handled(w, j + 1, log[j]), k);
    }
  }

  /**
   Every result the model is shown is the refusal of a hook, word for word, or the output or error of
   an execution of that very call: no call that passed the hooks is left out, none is told twice.
   */
  lemma ResultsAreEarned(w: World, initial: seq<ChatMessage>, resumed: bool, run: LoopRun, j: nat, k: nat)
    requires IsRun(w, initial, resumed, run)
    requires j < |run.log| && run.log[j].Block? && k < |run.log[j].results|
    ensures k < |run.log[j].calls|
    ensures ResultIsEarned(w, run.executed, j + 1, k, run.log[j].calls[k], run.log[j].results[k])
  {
    hide Render, EndsWith, Executions, BlockExecutions, Handled;
    assert Follows(w, initial, resumed, run.log, j);
    var call := run.log[j].calls[k];
    assert React(w, j + 1, k, call) == Answers(run.log[j].results[k]);
    if w.hook(j + 1, k, call).Passed? {
      LogExecutesAll(w, run.log, j, k);
      var e := Execution(j + 1, k, call.name, ArgumentsAfterHook(w, j + 1, k, call));
      assert e in run.executed;
    }
  }

  /**
   A run enters auth mode only through the two tools made for it, when such a call was executed, came
   back without error, and its output asks for a token.
   */
  lemma AuthModeIsEarned(w: World, initial: seq<ChatMessage>, resumed: bool, run: LoopRun)
    requires IsRun(w, initial, resumed, run) && run.outcome.Responded? && run.outcome.auth.Some?
    ensures exists e :: e in run.executed && (e.name == "tool_auth" || e.name == "tool_activate")
              && w.execute(e.i, e.k, e.name, e.arguments).Ok?
              && w.awaitsToken(w.execute(e.i, e.k, e.name, e.arguments).value)
                 == Some(AuthRequest(run.outcome.auth.value, run.outcome.response))
  {
    hide Render, LogFollows, Executions, BlockExecutions, ToolsExecuted;
    var j := |run.log| - 1;
    var k := |run.log[j].results|;
    var call := run.log[j].calls[k];
    assert React(w, j + 1, k, call).EntersAuth?;
    LogExecutesAll(w, run.log, j, k);
    var e := Execution(j + 1, k, call.name, ArgumentsAfterHook(w, j + 1, k, call));
    assert e in run.executed;
  }

  // An executed call is one of those its block handled.
  ghost predicate IsHandled(w: World, log: seq<Exchange>, e: Execution) {
    && 1 <= e.i <= |log| && log[e.i - 1].Block? && |log[e.i - 1].results| <= |log[e.i - 1].calls|
    && e.k < Handled(w, e.i, log[e.i - 1]) && FromBlock(w, e.i, log[e.i - 1].calls, |log[e.i - 1].calls|, e)
  }

  lemma {:induction false} ExecutionsAreHandled(w: World, log: seq<Exchange>)
    ensures forall e :: e in Executions(w, log) ==> IsHandled(w, log, e)
  {
    hide Executes, ArgumentsAfterHook, BlockExecutions, Handled;
    if log != [] {
      var n := |log|;
      var last, shorter := log[n - 1], log[..n - 1];
      ExecutionsAreHandled(w, shorter);
      forall e | e in Executions(w, shorter) ensures IsHandled(w, log, e) {
        assert IsHandled(w, shorter, e) && shorter[e.i - 1] == log[e.i - 1];
      }
      if last.Block? && |last.results| <= |last.calls| {
        BlockExecutionsAre(w, n, last.calls, Handled(w, n, last));
      }
    }
  }

  // A call that entered auth mode is the last one handled.
  lemma AuthCallIsLast(w: World, initial: seq<ChatMessage>, resumed: bool, run: LoopRun, e: Execution)
    requires LogFollows(w, initial, resumed, run.log) && IsHandled(w, run.log, e)
    requires React(w, e.i, e.k, run.log[e.i - 1].calls[e.k]).EntersAuth?
    ensures e.i == |run.log| && Open(run.log[e.i - 1]) && e.k == |run.log[e.i - 1].results|
  {
    hide Render, React;
    assert Follows(w, initial, resumed, run.log, e.i - 1);
  }

  /** Such an execution ends the run: nothing is executed after it, and its instructions are the response. */
  lemma {:induction false} AuthRequestEndsRun(w: World, initial: seq<ChatMessage>, resumed: bool, run: LoopRun,
                                              e: Execution, auth: AuthRequest)
    requires IsRun(w, initial, resumed, run) && e in run.executed
    requires e.name == "tool_auth" || e.name == "tool_activate"
    requires w.execute(e.i, e.k, e.name, e.arguments).Ok?
             && w.awaitsToken(w.execute(e.i, e.k, e.name, e.arguments).value) == Some(auth)
    ensures run.outcome == Responded(auth.instructions, Some(auth.extension))
    ensures e == run.executed[|run.executed| - 1]
  {
    ExecutionsAreHandled(w, run.log);
    hide Render, LogFollows, Executions, BlockExecutions, ToolsExecuted;
    AuthCallIsLast(w, initial, resumed, run, e);
    RunExecutesSanctioned(w, initial, resumed, run);
    var last := run.executed[|run.executed| - 1];
    assert last in run.executed && IsHandled(w, run.log, last);
    assert last == e || Before(e, last);
  }

  // ----- Messages -----

  // After the messages that asked for it comes the reply itself, as the assistant's message; a text is
  // followed by the prompt to use tools.
  ghost predicate ReplyFollows(context: seq<ChatMessage>, at: nat, reply: Reply) {
    at < |context|
    && match reply
       case Text(text) =>
         at + 1 < |context| && context[at] == AssistantMessage(text)
         && context[at + 1] == UserMessage("Please proceed and use the available tools to complete this task.")
       case Calls(content, calls) =>
         && context[at].role == Assistant && context[at].content == (if content.Some? then content.value else "")
         && context[at].toolCalls == (if calls == [] then None else Some(calls))
       case ModelError(_) => false
  }

  lemma {:induction false} RenderPrefix(log: seq<Exchange>, j: nat)
    requires j < |log|
    ensures |Render(log[..j])| + |RenderOne(log[j])| <= |Render(log)|
    ensures Render(log)[..|Render(log[..j])|] == Render(log[..j])
    ensures Render(log)[|Render(log[..j])|..][..|RenderOne(log[j])|] == RenderOne(log[j])
  {
    hide RenderOne;
    var n := |log| - 1;
    if j < n {
      RenderPrefix(log[..n], j);
      assert log[..n][..j] == log[..j] && log[..n][j] == log[j];
      var front, more := Render(log[..n]), RenderOne(log[n]);
      assert Render(log) == front + more;
      hide Render;
      SliceOfFront(front, more, |Render(log[..j])|, |RenderOne(log[j])|);
    } else {
      assert Render(log) == Render(log[..n]) + RenderOne(log[n]);
    }
  }

  lemma SliceOfFront<T>(front: seq<T>, more: seq<T>, at: nat, length: nat)
    requires at + length <= |front|
    ensures (front + more)[..at] == front[..at] && (front + more)[at..][..length] == front[at..][..length]
  {
  }

  /**
   The context a run builds starts with the initial messages, and after the messages of each request
   comes the reply to that request.
   */
  lemma RepliesAreRecorded(w: World, initial: seq<ChatMessage>, resumed: bool, run: LoopRun, j: nat)
    requires IsRun(w, initial, resumed, run) && j < |run.log|
    ensures var context := initial + Render(run.log);
            var asked := initial + Render(run.log[..j]);
            && asked <= context
            && ReplyFollows(context, |asked|, w.reply(j + 1, asked))
  {
    hide BlockFollows, EndsWith, Executions, MayAsk, ToolsExecuted;
    assert Follows(w, initial, resumed, run.log, j);
    RenderPrefix(run.log, j);
    hide Render, LogFollows;
    FirstOfExchange(initial, Render(run.log), |Render(run.log[..j])|, run.log[j]);
  }

  lemma FirstOfExchange(initial: seq<ChatMessage>, rendered: seq<ChatMessage>, at: nat, e: Exchange)
    requires at + |RenderOne(e)| <= |rendered| && rendered[at..][..|RenderOne(e)|] == RenderOne(e)
    ensures var context := initial + rendered;
            && initial + rendered[..at] <= context
            && (e.Nudged? ==> ReplyFollows(context, |initial| + at, Text(e.text)))
            && (e.Block? ==> ReplyFollows(context, |initial| + at, Calls(e.content, e.calls)))
  {
    hide ResultMessages;
    var context := initial + rendered;
    var length := |RenderOne(e)|;
    forall n | 0 <= n < length ensures context[|initial| + at + n] == RenderOne(e)[n] {
      assert rendered[at..][..length][n] == rendered[at + n];
    }
    assert context[|initial| + at + 0] == RenderOne(e)[0];
    if e.Nudged? { assert context[|initial| + at + 1] == RenderOne(e)[1]; }
  }

  // ----- Outcome -----

  /**
   A response is the model's own text for the context so far, given after a tool call or two prompts to
   use tools, or the instructions of an auth request. A run fails only when it has asked ten times, is
   interrupted, held back by the guard, or answered by an error, in this order, and says which it was.
   */
  lemma OutcomeIsEarned(w: World, initial: seq<ChatMessage>, resumed: bool, run: LoopRun)
    requires IsRun(w, initial, resumed, run)
    ensures var next, context := |run.log| + 1, initial + Render(run.log);
      && (run.outcome.Responded? && run.outcome.auth.None? ==>
            next <= 10 && !w.interrupted(next) && w.limit(next).None?
            && w.reply(next, context) == Text(run.outcome.response)
            && (resumed || next >= 3 || exists j :: 0 <= j < |run.log| && run.log[j].Block?))
      && (run.outcome.Failed? ==>
            if next > 10 then run.outcome.error == INVALID_RESPONSE + "Exceeded maximum tool iterations (10)"
            else if w.interrupted(next)
            then run.outcome.error == "Job error: Job " + w.threadId + " context error: Interrupted"
            else if w.limit(next).Some? then run.outcome.error == INVALID_RESPONSE + w.limit(next).value
            else w.reply(next, context) == ModelError(run.outcome.error))
  {
    hide Render, LogFollows;
  }
}
