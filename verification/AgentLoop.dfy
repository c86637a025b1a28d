/**
 The agentic loop: ask the model, run the tools it calls, feed the results back, until it answers.

 The model, the tools, the hooks, the cost guard and the interrupt flag are a `World` of arbitrary
 functions of the iteration and the position in the list of calls. A run of the loop is described by
 the log of its exchanges with the model, which determines the context it builds.
 */
module AgentLoop {
  import opened ChatThread
  import opened Messages
  import opened ThreadOps
  import opened Wrappers

  const MAX_TOOL_ITERATIONS: nat := 10

  const NUDGE := "Please proceed and use the available tools to complete this task."

  datatype Reply = Text(text: string) | Calls(content: Option<string>, calls: seq<ToolCall>) | ModelError(error: string)

  // What the hooks make of a call: rejected, blocked by another error, or passed on with arguments of their own.
  datatype HookVerdict = Rejected(reason: string) | Blocked(error: string) | Passed(newParams: Option<string>)

  datatype AuthRequest = AuthRequest(extension: string, instructions: string)

  datatype World = World(
    threadId: string,
    interrupted: nat -> bool,
    limit: nat -> Option<string>,
    reply: (nat, seq<ChatMessage>) -> Reply,
    needsApproval: (nat, nat, string) -> bool,
    vouched: (nat, nat, string) -> bool,
    destructive: ToolCall -> bool,
    hook: (nat, nat, ToolCall) -> HookVerdict,
    isJson: string -> bool,
    execute: (nat, nat, string, string) -> Result<string, string>,
    awaitsToken: string -> Option<AuthRequest>,
    wrap: (string, string) -> string,
    requestId: nat)

  // ----- One tool call -----

  // Auto-approval does not cover destructive arguments.
  predicate Asks(w: World, i: nat, k: nat, call: ToolCall) {
    w.needsApproval(i, k, call.name) && !(w.vouched(i, k, call.name) && !w.destructive(call))
  }

  predicate Executes(w: World, i: nat, k: nat, call: ToolCall) {
    !Asks(w, i, k, call) && w.hook(i, k, call).Passed?
  }

  // Hooks may replace the arguments by other JSON; the approval check saw the original ones.
  function ArgumentsAfterHook(w: World, i: nat, k: nat, call: ToolCall): string {
    match w.hook(i, k, call)
    case Passed(Some(params)) => if w.isJson(params) then params else call.arguments
    case _ => call.arguments
  }

  function DetectAuth(w: World, name: string, result: Result<string, string>): Option<AuthRequest> {
    if (name == "tool_auth" || name == "tool_activate") && result.Ok? then w.awaitsToken(result.value) else None
  }

  function ResultText(w: World, name: string, result: Result<string, string>): string {
    if result.Ok? then w.wrap(name, result.value) else "Error: " + result.error
  }

  // How the loop reacts to one call: ask the user, answer it, or enter auth mode.
  datatype Reaction = AsksUser | Answers(text: string) | EntersAuth(request: AuthRequest)

  function React(w: World, i: nat, k: nat, call: ToolCall): Reaction {
    if Asks(w, i, k, call) then AsksUser
    else match w.hook(i, k, call)
      case Rejected(reason) => Answers("Tool call rejected by hook: " + reason)
      case Blocked(error) => Answers("Tool call blocked by hook policy: " + error)
      case Passed(_) =>
        var result := w.execute(i, k, call.name, ArgumentsAfterHook(w, i, k, call));
        var auth := DetectAuth(w, call.name, result);
        if auth.Some? then EntersAuth(auth.value) else Answers(ResultText(w, call.name, result))
  }

  // ----- Exchanges and the context they build -----

  datatype Exchange = Nudged(text: string) | Block(content: Option<string>, calls: seq<ToolCall>, results: seq<string>)

  // The results answer the first calls, in order.
  function ResultMessages(calls: seq<ToolCall>, results: seq<string>): (messages: seq<ChatMessage>) {
    if results == [] || |results| > |calls| then []
    else
      var k := |results| - 1;
      ResultMessages(calls, results[..k]) + [ToolResult(calls[k].id, calls[k].name, results[k])]
  }

  function RenderOne(e: Exchange): seq<ChatMessage> {
    match e
    case Nudged(text) => [AssistantMessage(text), UserMessage(NUDGE)]
    case Block(content, calls, results) => [AssistantWithToolCalls(content, calls)] + ResultMessages(calls, results)
  }

  function Render(log: seq<Exchange>): seq<ChatMessage> {
    if log == [] then [] else Render(log[..|log| - 1]) + RenderOne(log[|log| - 1])
  }

  predicate Open(e: Exchange) {
    e.Block? && |e.results| < |e.calls|
  }

  // ----- What a run is -----

  // A tool executed with these arguments, for call k of the model's reply i.
  datatype Execution = Execution(i: nat, k: nat, name: string, arguments: string)

  datatype LoopRun = LoopRun(log: seq<Exchange>, outcome: LoopOutcome, executed: seq<Execution>)

  function LlmFailure(reason: string): LoopOutcome {
    Failed("LLM error: Invalid response from agent: " + reason)
  }

  function TooManyIterations(): LoopOutcome {
    LlmFailure("Exceeded maximum tool iterations (10)")
  }

  function InterruptedFailure(w: World): LoopOutcome {
    Failed("Job error: Job " + w.threadId + " context error: Interrupted")
  }

  // The turn so far holds a tool call.
  predicate ToolsExecuted(resumed: bool, log: seq<Exchange>) {
    resumed || exists j :: 0 <= j < |log| && log[j].Block?
  }

  // May the model be asked a further time?
  predicate MayAsk(w: World, i: nat) {
    i <= MAX_TOOL_ITERATIONS && !w.interrupted(i) && w.limit(i).None?
  }

  ghost predicate BlockFollows(w: World, i: nat, calls: seq<ToolCall>, results: seq<string>) {
    |results| <= |calls| && forall k :: 0 <= k < |results| ==> React(w, i, k, calls[k]) == Answers(results[k])
  }

  // Exchange j answers the model's reply to everything before it.
  ghost predicate Follows(w: World, initial: seq<ChatMessage>, resumed: bool, log: seq<Exchange>, j: nat)
    requires j < |log|
  {
    var context := initial + Render(log[..j]);
    && MayAsk(w, j + 1)
    && match log[j]
       case Nudged(text) => w.reply(j + 1, context) == Text(text) && !ToolsExecuted(resumed, log[..j]) && j + 1 < 3
       case Block(content, calls, results) =>
         && w.reply(j + 1, context) == Calls(content, calls)
         && BlockFollows(w, j + 1, calls, results)
  }

  ghost predicate LogFollows(w: World, initial: seq<ChatMessage>, resumed: bool, log: seq<Exchange>) {
    && (forall j :: 0 <= j < |log| ==> Follows(w, initial, resumed, log, j))
    && (forall j :: 0 <= j < |log| - 1 ==> !Open(log[j]))
  }

  // How the loop ends after its last exchange.
  ghost predicate EndsWith(w: World, initial: seq<ChatMessage>, resumed: bool, log: seq<Exchange>,
                           outcome: LoopOutcome) {
    var n, context := |log|, initial + Render(log);
    if n > 0 && Open(log[n - 1]) then
      var k := |log[n - 1].results|;
      var call := log[n - 1].calls[k];
      match React(w, n, k, call)
      case AsksUser =>
        outcome == NeedsApproval(PendingApproval(w.requestId, call.name, call.arguments, call.id, context))
      case EntersAuth(request) => outcome == Responded(request.instructions, Some(request.extension))
      case Answers(_) => false
    else
      if n >= MAX_TOOL_ITERATIONS then outcome == TooManyIterations()
         else if w.interrupted(n + 1) then outcome == InterruptedFailure(w)
         else if w.limit(n + 1).Some? then outcome == LlmFailure(w.limit(n + 1).value)
         else match w.reply(n + 1, context)
           case ModelError(error) => outcome == Failed(error)
           case Text(text) => (ToolsExecuted(resumed, log) || n + 1 >= 3) && outcome == Responded(text, None)
           case Calls(_, _) => false
  }

  // The executions of the first `upto` calls of a reply.
  function BlockExecutions(w: World, i: nat, calls: seq<ToolCall>, upto: nat): seq<Execution>
    requires upto <= |calls|
  {
    if upto == 0 then []
    else
      var k := upto - 1;
      BlockExecutions(w, i, calls, k)
      + if Executes(w, i, k, calls[k]) then [Execution(i, k, calls[k].name, ArgumentsAfterHook(w, i, k, calls[k]))]
          else []
  }

  // The calls of a block that the loop dealt with; where it entered auth mode, one more than it answered.
  function Handled(w: World, i: nat, e: Exchange): (n: nat)
    requires e.Block? && |e.results| <= |e.calls|
    ensures |e.results| <= n <= |e.calls|
  {
    if Open(e) && React(w, i, |e.results|, e.calls[|e.results|]).EntersAuth? then |e.results| + 1 else |e.results|
  }

  function Executions(w: World, log: seq<Exchange>): seq<Execution> {
    if log == [] then []
    else
      var n := |log|;
      var e := log[n - 1];
      Executions(w, log[..n - 1])
      + if e.Block? && |e.results| <= |e.calls| then BlockExecutions(w, n, e.calls, Handled(w, n, e)) else []
  }

  ghost predicate IsRun(w: World, initial: seq<ChatMessage>, resumed: bool, run: LoopRun) {
    && LogFollows(w, initial, resumed, run.log)
    && EndsWith(w, initial, resumed, run.log, run.outcome)
    && run.executed == Executions(w, run.log)
  }

  // ----- The loop -----

  lemma FollowsIsLocal(w: World, initial: seq<ChatMessage>, resumed: bool, log: seq<Exchange>, longer: seq<Exchange>,
                       j: nat)
    requires j < |log| <= |longer| && longer[..|log|] == log && Follows(w, initial, resumed, log, j)
    ensures Follows(w, initial, resumed, longer, j)
  {
    hide Render, BlockFollows, MayAsk, ToolsExecuted;
    assert longer[..j] == log[..j] by { assert longer[..|log|][..j] == log[..j]; }
    assert longer[j] == log[j] by { assert longer[..|log|][j] == log[j]; }
  }

  lemma LogGrows(w: World, initial: seq<ChatMessage>, resumed: bool, log: seq<Exchange>, e: Exchange)
    requires LogFollows(w, initial, resumed, log) && (|log| > 0 ==> !Open(log[|log| - 1]))
    requires Follows(w, initial, resumed, log + [e], |log|)
    ensures LogFollows(w, initial, resumed, log + [e])
  {
    hide Follows, Open;
    var longer := log + [e];
    assert longer[..|log|] == log;
    forall j | 0 <= j < |longer| ensures Follows(w, initial, resumed, longer, j) {
      if j < |log| { FollowsIsLocal(w, initial, resumed, log, longer, j); }
    }
  }

  lemma RenderGrows(log: seq<Exchange>, e: Exchange)
    ensures Render(log + [e]) == Render(log) + RenderOne(e)
    ensures (log + [e])[..|log|] == log
  {
    assert (log + [e])[..|log|] == log;
  }

  lemma ToolsExecutedGrows(resumed: bool, log: seq<Exchange>, e: Exchange)
    ensures ToolsExecuted(resumed, log + [e]) <==> ToolsExecuted(resumed, log) || e.Block?
  {
    var longer := log + [e];
    assert longer[|log|] == e;
    if ToolsExecuted(false, log) {
      var j :| 0 <= j < |log| && log[j].Block?;
      assert longer[j].Block?;
    }
  }

  // The executed calls of a reply, while it is worked on.
  lemma ExecutionsGrow(w: World, log: seq<Exchange>, e: Exchange)
    ensures Executions(w, log + [e])
         == Executions(w, log)
            + (if e.Block? && |e.results| <= |e.calls|
               then BlockExecutions(w, |log| + 1, e.calls, Handled(w, |log| + 1, e)) else [])
  {
    assert (log + [e])[..|log|] == log;
  }

  /** One call: the approval check, the hooks, and the execution. */
  method RunCall(w: World, i: nat, k: nat, call: ToolCall) returns (reaction: Reaction, executed: seq<Execution>)
    ensures reaction == React(w, i, k, call)
    ensures executed
         == if Executes(w, i, k, call) then [Execution(i, k, call.name, ArgumentsAfterHook(w, i, k, call))] else []
  {
    executed := [];
    if w.needsApproval(i, k, call.name) {
      var autoApproved := w.vouched(i, k, call.name);
      if autoApproved && w.destructive(call) {
        autoApproved := false;
      }
      if !autoApproved {
        return AsksUser, [];
      }
    }
    match w.hook(i, k, call) {
      case Rejected(reason) =>
        return Answers("Tool call rejected by hook: " + reason), [];
      case Blocked(error) =>
        return Answers("Tool call blocked by hook policy: " + error), [];
      case Passed(newParams) =>
        var arguments := call.arguments;
        if newParams.Some? && w.isJson(newParams.value) {
          arguments := newParams.value;
        }
        var result := w.execute(i, k, call.name, arguments);
        executed := [Execution(i, k, call.name, arguments)];
        var auth := DetectAuth(w, call.name, result);
        reaction := if auth.Some? then EntersAuth(auth.value) else Answers(ResultText(w, call.name, result));
    }
  }

  lemma NothingAnswered(w: World, i: nat, calls: seq<ToolCall>)
    ensures BlockFollows(w, i, calls, []) && ResultMessages(calls, []) == [] && BlockExecutions(w, i, calls, 0) == []
  {
  }

  lemma AllAnswered(w: World, i: nat, calls: seq<ToolCall>, results: seq<string>)
    requires |results| == |calls|
    ensures forall content :: Handled(w, i, Block(content, calls, results)) == |calls|
  {
  }

  // What the next call of a block executes, and how many calls are handled if the loop stops at it.
  lemma ExecutedOne(w: World, i: nat, calls: seq<ToolCall>, results: seq<string>)
    requires |results| < |calls|
    ensures var k := |results|;
            var here := Execution(i, k, calls[k].name, ArgumentsAfterHook(w, i, k, calls[k]));
            var ran := if Executes(w, i, k, calls[k]) then [here] else [];
            && BlockExecutions(w, i, calls, k + 1) == BlockExecutions(w, i, calls, k) + ran
            && (!React(w, i, k, calls[k]).Answers? ==>
                  forall content :: BlockExecutions(w, i, calls, Handled(w, i, Block(content, calls, results)))
                      == BlockExecutions(w, i, calls, k) + ran)
  {
    hide ArgumentsAfterHook;
  }

  lemma AnsweredOne(w: World, i: nat, calls: seq<ToolCall>, results: seq<string>, text: string)
    requires BlockFollows(w, i, calls, results) && |results| < |calls|
             && React(w, i, |results|, calls[|results|]) == Answers(text)
    ensures BlockFollows(w, i, calls, results + [text])
    ensures var call := calls[|results|];
            ResultMessages(calls, results + [text])
                == ResultMessages(calls, results) + [ToolResult(call.id, call.name, text)]
  {
    hide React;
    assert (results + [text])[..|results|] == results;
  }

  /** Works through the calls of one reply until one of them has to wait. */
  method RunCalls(w: World, i: nat, calls: seq<ToolCall>, before: seq<ChatMessage>)
    returns (results: seq<string>, context: seq<ChatMessage>, executed: seq<Execution>, stopped: Option<Reaction>)
    ensures BlockFollows(w, i, calls, results)
    ensures context == before + ResultMessages(calls, results)
    ensures stopped.None? ==> |results| == |calls|
    ensures stopped.Some? ==> |results| < |calls|
    ensures stopped.Some? ==> stopped.value == React(w, i, |results|, calls[|results|]) && !stopped.value.Answers?
    ensures |results| <= |calls|
    ensures forall content :: executed == BlockExecutions(w, i, calls, Handled(w, i, Block(content, calls, results)))
  {
    hide React, Executes, ArgumentsAfterHook, BlockExecutions, ResultMessages, BlockFollows, Handled;
    results, context, executed, stopped := [], before, [], None;
    NothingAnswered(w, i, calls);
    for k := 0 to |calls|
      invariant |results| == k && BlockFollows(w, i, calls, results)
      invariant context == before + ResultMessages(calls, results)
      invariant executed == BlockExecutions(w, i, calls, k)
    {
      var call := calls[k];
      var reaction, ran := RunCall(w, i, k, call);
      ExecutedOne(w, i, calls, results);
      executed := executed + ran;
      if !reaction.Answers? {
        stopped := Some(reaction);
        return;
      }
      AnsweredOne(w, i, calls, results, reaction.text);
      context := context + [ToolResult(call.id, call.name, reaction.text)];
      results := results + [reaction.text];
    }
    AllAnswered(w, i, calls, results);
  }

  lemma NothingYet(w: World, initial: seq<ChatMessage>, resumed: bool)
    ensures Executions(w, []) == [] && Render([]) == [] && LogFollows(w, initial, resumed, [])
    ensures ToolsExecuted(resumed, []) == resumed
  {
  }

  lemma NudgeAdds(w: World, initial: seq<ChatMessage>, resumed: bool, log: seq<Exchange>, text: string)
    requires LogFollows(w, initial, resumed, log) && (|log| > 0 ==> !Open(log[|log| - 1]))
    requires MayAsk(w, |log| + 1) && w.reply(|log| + 1, initial + Render(log)) == Text(text)
    requires !ToolsExecuted(resumed, log) && |log| + 1 < 3
    ensures var longer := log + [Nudged(text)];
            && LogFollows(w, initial, resumed, longer) && !ToolsExecuted(resumed, longer)
            && Render(longer) == Render(log) + [AssistantMessage(text), UserMessage(NUDGE)]
            && Executions(w, longer) == Executions(w, log)
  {
    hide Render, ToolsExecuted;
    var e := Nudged(text);
    RenderGrows(log, e);
    ToolsExecutedGrows(resumed, log, e);
    LogGrows(w, initial, resumed, log, e);
    ExecutionsGrow(w, log, e);
  }

  lemma BlockAdds(w: World, initial: seq<ChatMessage>, resumed: bool, log: seq<Exchange>,
                  content: Option<string>, calls: seq<ToolCall>, results: seq<string>)
    requires LogFollows(w, initial, resumed, log) && (|log| > 0 ==> !Open(log[|log| - 1]))
    requires MayAsk(w, |log| + 1) && w.reply(|log| + 1, initial + Render(log)) == Calls(content, calls)
    requires BlockFollows(w, |log| + 1, calls, results)
    ensures |results| <= |calls|
    ensures var e := Block(content, calls, results);
            var longer := log + [e];
            && LogFollows(w, initial, resumed, longer) && ToolsExecuted(resumed, longer)
            && Render(longer) == Render(log) + ([AssistantWithToolCalls(content, calls)]
               + ResultMessages(calls, results))
            && Executions(w, longer) == Executions(w, log)
               + BlockExecutions(w, |log| + 1, calls, Handled(w, |log| + 1, e))
  {
    hide Render, ToolsExecuted;
    var e := Block(content, calls, results);
    RenderGrows(log, e);
    ToolsExecutedGrows(resumed, log, e);
    LogGrows(w, initial, resumed, log, e);
    ExecutionsGrow(w, log, e);
  }

  method RunAgenticLoop(w: World, initial: seq<ChatMessage>, resumeAfterTool: bool)
    returns (run: LoopRun, context: seq<ChatMessage>)
    ensures IsRun(w, initial, resumeAfterTool, run)
    ensures context == initial + Render(run.log)
  {
    hide Follows, React, RenderOne, Render, Executions, Handled, BlockExecutions, BlockFollows;
    hide LogFollows, ResultMessages, ToolsExecuted, TooManyIterations, InterruptedFailure, LlmFailure;
    context := initial;
    var iteration, toolsExecuted := 0, resumeAfterTool;
    var log, executed := [], [];
    NothingYet(w, initial, resumeAfterTool);
    while true
      invariant iteration == |log| <= MAX_TOOL_ITERATIONS
      invariant LogFollows(w, initial, resumeAfterTool, log) && (|log| > 0 ==> !Open(log[|log| - 1]))
      invariant context == initial + Render(log)
      invariant toolsExecuted == ToolsExecuted(resumeAfterTool, log)
      invariant executed == Executions(w, log)
      decreases MAX_TOOL_ITERATIONS - iteration
    {
      iteration := iteration + 1;
      if iteration > MAX_TOOL_ITERATIONS {
        return LoopRun(log, TooManyIterations(), executed), context;
      }
      if w.interrupted(iteration) {
        return LoopRun(log, InterruptedFailure(w), executed), context;
      }
      if w.limit(iteration).Some? {
        return LoopRun(log, LlmFailure(w.limit(iteration).value), executed), context;
      }
      var e: Exchange;
      match w.reply(iteration, context) {
        case ModelError(error) =>
          return LoopRun(log, Failed(error), executed), context;
        case Text(text) =>
          if toolsExecuted || iteration >= 3 {
            return LoopRun(log, Responded(text, None), executed), context;
          }
          e := Nudged(text);
          context := context + [AssistantMessage(text), UserMessage(NUDGE)];
          NudgeAdds(w, initial, resumeAfterTool, log, text);
        case Calls(content, calls) =>
          toolsExecuted := true;
          context := context + [AssistantWithToolCalls(content, calls)];
          var results, stopped;
          var ran;
          results, context, ran, stopped := RunCalls(w, iteration, calls, context);
          executed := executed + ran;
          e := Block(content, calls, results);
          BlockAdds(w, initial, resumeAfterTool, log, content, calls, results);
          if stopped.Some? {
            log := log + [e];
            match stopped.value {
              case AsksUser =>
                var call := calls[|results|];
                var pending := PendingApproval(w.requestId, call.name, call.arguments, call.id, context);
                return LoopRun(log, NeedsApproval(pending), executed), context;
              case EntersAuth(request) =>
                return LoopRun(log, Responded(request.instructions, Some(request.extension)), executed), context;
            }
          }
      }
      log := log + [e];
    }
  }

}
