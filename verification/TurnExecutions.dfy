/**
 The tools a whole turn executes: those its runs of the loop execute, and the approved calls between
 them. Positions count through the log of the turn as one.
 */
module TurnExecutions {
  import opened AgentLoop
  import opened AgentTurn
  import opened ChatThread
  import opened Messages
  import opened ThreadOps

  function Moved(e: Execution, base: nat): Execution {
    e.(i := e.i + base)
  }

  function MovedAll(executed: seq<Execution>, base: nat): seq<Execution> {
    seq(|executed|, n requires 0 <= n < |executed| => Moved(executed[n], base))
  }

  // The approved call is the next one of the last block, and runs with the arguments it was stored with.
  function Approved(log: seq<Exchange>, pending: PendingApproval): Execution {
    Execution(|log|, if log != [] && log[|log| - 1].Block? then |log[|log| - 1].results| else 0,
              pending.toolName, pending.parameters)
  }

  function PendingOf(run: LoopRun): PendingApproval
    requires run.outcome.NeedsApproval?
  {
    run.outcome.pending
  }

  // Everything executed up to the end of the last run.
  function Executed(legs: seq<Leg>): seq<Execution>
    requires |legs| > 0 && forall t :: 0 <= t < |legs| - 1 ==> legs[t].run.outcome.NeedsApproval?
  {
    var n := |legs| - 1;
    if n == 0 then legs[0].run.executed
    else
      var log := WholeLog(legs[..n]);
      Executed(legs[..n]) + [Approved(log, PendingOf(legs[n - 1].run))] + MovedAll(legs[n].run.executed, |log|)
  }

  // ----- In order, each call at most once -----

  // The execution is of a call in the log.
  ghost predicate Fits(log: seq<Exchange>, e: Execution) {
    && 1 <= e.i <= |log| && log[e.i - 1].Block? && e.k < |log[e.i - 1].calls|
    && e.name == log[e.i - 1].calls[e.k].name
  }

  lemma FitsLater(log: seq<Exchange>, text: string, more: seq<Exchange>, e: Execution)
    requires Fits(log, e)
    ensures Fits(AnswerLast(log, text) + more, e)
  {
  }

  lemma FitsMoved(front: seq<Exchange>, more: seq<Exchange>, e: Execution)
    requires Fits(more, e)
    ensures Fits(front + more, Moved(e, |front|))
  {
    assert (front + more)[e.i + |front| - 1] == more[e.i - 1];
  }

  lemma JoinOrdered(first: seq<Execution>, asked: Execution, second: seq<Execution>)
    requires InOrder(first) && InOrder(second)
    requires forall e :: e in first ==> Before(e, asked)
    requires forall e :: e in second ==> 1 <= e.i
    ensures InOrder(first + [asked] + MovedAll(second, asked.i))
  {
    var joined := first + [asked] + MovedAll(second, asked.i);
    forall n, m | 0 <= n < m < |joined| ensures Before(joined[n], joined[m]) {
      if n < |first| { assert first[n] in first && Before(first[n], asked); }
      if m > |first| { assert second[m - |first| - 1] in second; }
      if m < |first| { assert Before(first[n], first[m]); }
      if n > |first| { assert Before(second[n - |first| - 1], second[m - |first| - 1]); }
    }
  }

  // What holds of everything executed so far; a call that waits comes after all of it.
  ghost predicate WellExecuted(legs: seq<Leg>, executed: seq<Execution>)
    requires |legs| > 0
  {
    && InOrder(executed)
    && (forall e :: e in executed ==> Fits(WholeLog(legs), e))
    && (legs[|legs| - 1].run.outcome.NeedsApproval? ==>
          var asked := Approved(WholeLog(legs), PendingOf(legs[|legs| - 1].run));
          Fits(WholeLog(legs), asked) && forall e :: e in executed ==> Before(e, asked))
  }

  // The same of one run.
  ghost predicate RunWellExecuted(run: LoopRun) {
    && InOrder(run.executed)
    && (forall e :: e in run.executed ==> Fits(run.log, e))
    && (run.outcome.NeedsApproval? ==>
          var asked := Approved(run.log, PendingOf(run));
          Fits(run.log, asked) && forall e :: e in run.executed ==> Before(e, asked))
  }

  lemma RunExecutesWell(w: World, initial: seq<ChatMessage>, resumed: bool, run: LoopRun)
    requires IsRun(w, initial, resumed, run)
    ensures RunWellExecuted(run)
  {
    RunExecutesSanctioned(w, initial, resumed, run);
    RunBlocks(w, initial, resumed, run);
    hide IsRun, InOrder;
    forall e | e in run.executed ensures Fits(run.log, e) {
      assert Sanctioned(w, run.log, e);
    }
  }

  // The last run's exchanges are the end of the turn's log.
  lemma LogEndsInRun(legs: seq<Leg>) returns (front: seq<Exchange>)
    requires |legs| > 0
    ensures WholeLog(legs) == front + legs[|legs| - 1].run.log
    ensures |legs| > 1 ==> front == AnswerLast(WholeLog(legs[..|legs| - 1]), legs[|legs| - 2].answer)
    ensures |legs| > 1 ==> |front| == |WholeLog(legs[..|legs| - 1])|
    ensures |legs| == 1 ==> front == []
  {
    front := if |legs| == 1 then [] else AnswerLast(WholeLog(legs[..|legs| - 1]), legs[|legs| - 2].answer);
  }

  lemma LaterAreMoved(first: seq<Execution>, asked: Execution, second: seq<Execution>, e: Execution)
    requires e in first + [asked] + MovedAll(second, asked.i)
    ensures e in first || e == asked || exists x :: x in second && e == Moved(x, asked.i)
  {
    var moved := MovedAll(second, asked.i);
    if e !in first && e != asked {
      var n :| 0 <= n < |moved| && moved[n] == e;
      assert second[n] in second;
    }
  }

  lemma AskedMoves(front: seq<Exchange>, run: LoopRun)
    requires run.outcome.NeedsApproval? && run.log != []
    ensures Approved(front + run.log, PendingOf(run)) == Moved(Approved(run.log, PendingOf(run)), |front|)
  {
    assert (front + run.log)[|front + run.log| - 1] == run.log[|run.log| - 1];
  }

  // One more run after an approved call.
  lemma NextRunExecutes(legs: seq<Leg>, first: seq<Execution>)
    requires |legs| > 1 && legs[|legs| - 2].run.outcome.NeedsApproval?
    requires WellExecuted(legs[..|legs| - 1], first) && RunWellExecuted(legs[|legs| - 1].run)
    ensures var asked := Approved(WholeLog(legs[..|legs| - 1]), PendingOf(legs[|legs| - 2].run));
            WellExecuted(legs, first + [asked] + MovedAll(legs[|legs| - 1].run.executed, asked.i))
  {
    var n := |legs| - 1;
    var shorter, run := legs[..n], legs[n].run;
    var log := WholeLog(shorter);
    var asked := Approved(log, PendingOf(legs[n - 1].run));
    assert shorter[n - 1] == legs[n - 1];
    var front := LogEndsInRun(legs);
    var whole := first + [asked] + MovedAll(run.executed, asked.i);
    hide WholeLog, AnswerLast, InOrder, MovedAll;
    JoinOrdered(first, asked, run.executed);
    FitsLater(log, legs[n - 1].answer, run.log, asked);
    forall e | e in whole
      ensures Fits(WholeLog(legs), e)
      ensures e.i <= asked.i || exists x :: x in run.executed && e == Moved(x, asked.i)
    {
      LaterAreMoved(first, asked, run.executed, e);
      if e in first {
        FitsLater(log, legs[n - 1].answer, run.log, e);
      } else if e != asked {
        var x :| x in run.executed && e == Moved(x, asked.i);
        FitsMoved(front, run.log, x);
      }
    }
    if run.outcome.NeedsApproval? {
      AskedMoves(front, run);
      FitsMoved(front, run.log, Approved(run.log, PendingOf(run)));
    }
  }

  lemma {:induction false} TurnExecutesWell(initial: seq<ChatMessage>, legs: seq<Leg>)
    requires IsTurn(initial, legs)
    ensures WellExecuted(legs, Executed(legs))
  {
    var n := |legs| - 1;
    RunExecutesWell(legs[n].w, StartOf(initial, legs, n), n > 0, legs[n].run);
    if n > 0 {
      ShorterTurn(initial, legs);
      TurnExecutesWell(initial, legs[..n]);
      hide IsRun, WellExecuted, RunWellExecuted, MovedAll, WholeLog;
      NextRunExecutes(legs, Executed(legs[..n]));
    }
  }

  // ----- Every execution was sanctioned or approved -----

  function Base(legs: seq<Leg>, t: nat): nat
    requires t < |legs|
  {
    if t == 0 then 0 else |WholeLog(legs[..t])|
  }

  // Run t of the loop executed it, as a call that needed no approval or was vouched for.
  ghost predicate ByLoop(legs: seq<Leg>, t: nat, x: Execution, e: Execution) {
    t < |legs| && x in legs[t].run.executed && Sanctioned(legs[t].w, legs[t].run.log, x) && e == Moved(x, Base(legs, t))
  }

  // It is the call that run t asked the user about, with the arguments the model gave it.
  ghost predicate ByApproval(legs: seq<Leg>, t: nat, e: Execution) {
    && t < |legs| - 1 && legs[t].run.outcome.NeedsApproval?
    && e == Approved(WholeLog(legs[..t + 1]), PendingOf(legs[t].run))
    && Asked(legs[t].w, legs[t].run, PendingOf(legs[t].run))
  }

  ghost predicate Asked(w: World, run: LoopRun, pending: PendingApproval) {
    && |run.log| > 0 && Open(run.log[|run.log| - 1])
    && var k := |run.log[|run.log| - 1].results|;
    && var call := run.log[|run.log| - 1].calls[k];
    && w.needsApproval(|run.log|, k, call.name) && (!w.vouched(|run.log|, k, call.name) || w.destructive(call))
    && pending.toolCallId == call.id && pending.toolName == call.name && pending.parameters == call.arguments
  }

  lemma AskedNeededApproval(w: World, initial: seq<ChatMessage>, resumed: bool, run: LoopRun)
    requires IsRun(w, initial, resumed, run) && run.outcome.NeedsApproval?
    ensures Asked(w, run, PendingOf(run))
  {
    hide Render, LogFollows, ToolsExecuted;
  }

  ghost predicate Legitimate(legs: seq<Leg>, e: Execution) {
    (exists t: nat, x: Execution :: ByLoop(legs, t, x, e)) || exists t: nat :: ByApproval(legs, t, e)
  }

  lemma StillLegitimate(legs: seq<Leg>, e: Execution)
    requires |legs| > 1 && Legitimate(legs[..|legs| - 1], e)
    ensures Legitimate(legs, e)
  {
    hide WholeLog, Sanctioned, Asked;
    var shorter := legs[..|legs| - 1];
    if t: nat, x: Execution :| ByLoop(shorter, t, x, e) {
      assert shorter[..t] == legs[..t];
      assert ByLoop(legs, t, x, e);
    } else {
      var t: nat :| ByApproval(shorter, t, e);
      assert shorter[..t + 1] == legs[..t + 1];
      assert ByApproval(legs, t, e);
    }
  }

  lemma {:induction false} TurnIsLegitimate(initial: seq<ChatMessage>, legs: seq<Leg>, e: Execution)
    requires IsTurn(initial, legs) && e in Executed(legs)
    ensures Legitimate(legs, e)
  {
    var n := |legs| - 1;
    var w, run, start := legs[n].w, legs[n].run, StartOf(initial, legs, n);
    RunExecutesSanctioned(w, start, n > 0, run);
    if n == 0 {
      assert Moved(e, 0) == e;
      assert ByLoop(legs, 0, e, e);
    } else {
      var shorter := legs[..n];
      var log := WholeLog(shorter);
      var asked := Approved(log, PendingOf(legs[n - 1].run));
      ShorterTurn(initial, legs);
      AskedNeededApproval(legs[n - 1].w, StartOf(initial, legs, n - 1), n > 1, legs[n - 1].run);
      hide IsRun, WholeLog, MovedAll, Asked, Sanctioned, InOrder;
      LaterAreMoved(Executed(shorter), asked, run.executed, e);
      if e in Executed(shorter) {
        TurnIsLegitimate(initial, shorter, e);
        StillLegitimate(legs, e);
      } else if e == asked {
        assert legs[..n - 1 + 1] == shorter;
        assert ByApproval(legs, n - 1, e);
      } else {
        var x :| x in run.executed && e == Moved(x, asked.i);
        assert ByLoop(legs, n, x, e);
      }
    }
  }

  /**
   Through a whole turn, each call the model makes is executed at most once, in the order of the calls,
   and only if it was sanctioned in its run of the loop, or is the very call a run asked the user about,
   unchanged. A call that still waits comes after all that was executed.
   */
  lemma TurnExecutesEachOnce(initial: seq<ChatMessage>, legs: seq<Leg>)
    requires IsTurn(initial, legs)
    ensures InOrder(Executed(legs))
    ensures forall e :: e in Executed(legs) ==> Fits(WholeLog(legs), e) && Legitimate(legs, e)
    ensures legs[|legs| - 1].run.outcome.NeedsApproval? ==>
              forall e :: e in Executed(legs) ==> Before(e, Approved(WholeLog(legs), PendingOf(legs[|legs| - 1].run)))
  {
    TurnExecutesWell(initial, legs);
    forall e | e in Executed(legs) ensures Legitimate(legs, e) {
      TurnIsLegitimate(initial, legs, e);
    }
  }
}
