/**
 Every run of submissions against one session: what becomes of each approval request.

 One submission is one step. The trace records, per thread, when a request is stored, executed or
 turned down, and when the thread is cut off from it by an interrupt, undo, redo, resume or clear.
 */
module ApprovalRuns {
  import opened Approval
  import opened ChatThread
  import opened Messages
  import opened ThreadOps
  import opened Undo
  import opened Wrappers

  datatype Event =
    | Stored(thread: nat, requestId: nat)
    | Executed(thread: nat, requestId: nat, tool: string, always: bool)
    | Dropped(thread: nat)

  datatype State = State(
    threads: Threads,
    managers: map<nat, Stacks>,
    autoApproved: set<string>,
    trace: seq<Event>)

  const START := State(map[], map[], {}, [])

  // What a message asks of the thread it is routed to. Answers have their own form; every other
  // message that leaves turns and requests alone is `Nothing`. In auth mode a text is taken as the
  // token, and `tokenRefused` tells whether the extension asks again.
  datatype Request =
    | Command(op: Op)
    | Respond(requestId: Option<nat>, approved: bool, always: bool, outcome: LoopOutcome)
    | OtherText
    | OtherCommand

  datatype Submission =
    | Open(thread: nat, messages: seq<ChatMessage>)
    | To(thread: nat, request: Request, tokenRefused: bool)

  function Manager(s: State, thread: nat): Stacks {
    if thread in s.managers then s.managers[thread] else NEW_STACKS
  }

  predicate IsText(request: Request) {
    request.OtherText? || (request.Command? && request.op.UserInput?)
  }

  // The event that a change of one thread amounts to, if any.
  function Trace(thread: nat, before: ThreadVal, after: ThreadVal): seq<Event> {
    if after.state == AwaitingApproval && after.pendingApproval.Some?
       && (before.state != AwaitingApproval || before.pendingApproval != after.pendingApproval)
    then [Stored(thread, after.pendingApproval.value.requestId)]
    else if before.state == AwaitingApproval && after.state != AwaitingApproval then [Dropped(thread)]
    else []
  }

  // A command on a thread and its undo manager.
  function Commanded(s: State, thread: nat, op: Op): State
    requires thread in s.threads
  {
    if op.Answer? then s
    else
      var after := Step(History(s.threads[thread], Manager(s, thread)), op);
      s.(threads := s.threads[thread := after.thread], managers := s.managers[thread := after.stacks],
         trace := s.trace + Trace(thread, s.threads[thread], after.thread))
  }

  // What an answer adds to the trace: the execution comes before whatever the turn stores next.
  function AnswerTrace(effect: Effect, always: bool, after: Threads): seq<Event> {
    match effect
    case Nothing => []
    case TurnedDown(thread) => [Dropped(thread)]
    case Ran(thread, request) =>
      [Executed(thread, request.requestId, request.toolName, always)]
      + if thread in after && after[thread].state == AwaitingApproval && after[thread].pendingApproval.Some?
        then [Stored(thread, after[thread].pendingApproval.value.requestId)] else []
  }

  ghost function Submit(s: State, m: Submission): State {
    match m
    case Open(thread, messages) =>
      if thread in s.threads then s
      else s.(threads := s.threads[thread := NEW_THREAD.(turns := TurnsFrom(messages, 0))])
    case To(thread, request, tokenRefused) =>
      if thread !in s.threads then s
      else
        var t := s.threads[thread];
        if t.pendingAuth.Some? && IsText(request) then
          s.(threads := s.threads[thread := if tokenRefused then t else t.(pendingAuth := None)])
        else
          var s := s.(threads := s.threads[thread := t.(pendingAuth := None)]);
          match request
          case Command(op) => Commanded(s, thread, op)
          case Respond(requestId, approved, always, outcome) =>
            var (threads, autoApproved, effect) :=
              AfterAnswer(s.threads, s.autoApproved, thread, requestId, approved, always, outcome);
            s.(threads := threads, autoApproved := autoApproved,
               trace := s.trace + AnswerTrace(effect, always, threads))
          case OtherText => s
          case OtherCommand => s
  }

  // ----- Fresh request ids -----

  function OutcomeOf(m: Submission): Option<LoopOutcome> {
    if m.To? && m.request.Command? && m.request.op.UserInput? then Some(m.request.op.outcome)
    else if m.To? && m.request.Respond? then Some(m.request.outcome)
    else None
  }

  // No request so far had this id.
  ghost predicate Unused(s: State, requestId: nat) {
    forall e :: e in s.trace && e.Stored? ==> e.requestId != requestId
  }

  ghost predicate IdsAreNew(s: State, m: Submission) {
    var outcome := OutcomeOf(m);
    outcome.Some? && outcome.value.NeedsApproval? ==> Unused(s, outcome.value.pending.requestId)
  }

  ghost predicate IsRun(states: seq<State>, submissions: seq<Submission>) {
    && |states| == |submissions| + 1 && states[0] == START
    && forall i :: 0 <= i < |submissions| ==>
         IdsAreNew(states[i], submissions[i]) && states[i + 1] == Submit(states[i], submissions[i])
  }

  // ----- What holds between submissions -----

  // The last event of a thread.
  function LastOn(trace: seq<Event>, thread: nat): Option<Event> {
    if trace == [] then None
    else if trace[|trace| - 1].thread == thread then Some(trace[|trace| - 1])
    else LastOn(trace[..|trace| - 1], thread)
  }

  // No thread is processing or completed, and one that waits has its request, stored by its last event.
  ghost predicate AtRest(t: ThreadVal, thread: nat, trace: seq<Event>) {
    && t.state != Processing && t.state != Completed
    && (t.state == AwaitingApproval ==>
          t.pendingApproval.Some? && LastOn(trace, thread) == Some(Stored(thread, t.pendingApproval.value.requestId)))
  }

  ghost predicate StoredOnce(trace: seq<Event>) {
    forall i, j :: 0 <= i < j < |trace| && trace[i].Stored? && trace[j].Stored? ==>
        trace[i].requestId != trace[j].requestId
  }

  // Among the events of its thread, an execution directly follows the storing of the same request.
  ghost predicate ExecutedRightly(trace: seq<Event>) {
    forall i :: 0 <= i < |trace| && trace[i].Executed? ==>
      LastOn(trace[..i], trace[i].thread) == Some(Stored(trace[i].thread, trace[i].requestId))
  }

  ghost predicate GrantsEarned(autoApproved: set<string>, trace: seq<Event>) {
    forall tool :: tool in autoApproved ==> exists e :: e in trace && e.Executed? && e.always && e.tool == tool
  }

  ghost predicate Sane(s: State) {
    && (forall thread :: thread in s.threads ==> AtRest(s.threads[thread], thread, s.trace))
    && StoredOnce(s.trace) && ExecutedRightly(s.trace) && GrantsEarned(s.autoApproved, s.trace)
  }

  // ----- One more event -----

  lemma LastOnGrows(trace: seq<Event>, e: Event, thread: nat)
    ensures LastOn(trace + [e], thread) == if e.thread == thread then Some(e) else LastOn(trace, thread)
  {
    assert (trace + [e])[..|trace|] == trace;
  }

  lemma {:induction false} LastOnIsThere(trace: seq<Event>, thread: nat) returns (at: nat)
    requires LastOn(trace, thread).Some?
    ensures at < |trace| && LastOn(trace, thread) == Some(trace[at]) && trace[at].thread == thread
    ensures forall i :: at < i < |trace| ==> trace[i].thread != thread
  {
    at := |trace| - 1;
    if trace[at].thread != thread {
      at := LastOnIsThere(trace[..at], thread);
    }
  }

  lemma TraceGrows(trace: seq<Event>, e: Event)
    requires StoredOnce(trace) && ExecutedRightly(trace)
    requires e.Stored? ==> forall earlier :: earlier in trace && earlier.Stored? ==> earlier.requestId != e.requestId
    requires e.Executed? ==> LastOn(trace, e.thread) == Some(Stored(e.thread, e.requestId))
    ensures StoredOnce(trace + [e]) && ExecutedRightly(trace + [e])
  {
    var longer := trace + [e];
    forall i | 0 <= i < |longer| && longer[i].Executed?
      ensures LastOn(longer[..i], longer[i].thread) == Some(Stored(longer[i].thread, longer[i].requestId))
    {
      if i < |trace| {
        assert longer[..i] == trace[..i];
      } else {
        assert longer[..i] == trace;
      }
    }
    forall i | 0 <= i < |trace| ensures trace[i] in trace {}
  }

  lemma GrantsStay(autoApproved: set<string>, trace: seq<Event>, e: Event)
    requires GrantsEarned(autoApproved, trace)
    ensures GrantsEarned(autoApproved, trace + [e])
    ensures e.Executed? && e.always ==> GrantsEarned(autoApproved + {e.tool}, trace + [e])
  {
    assert e == (trace + [e])[|trace|];
    forall tool | tool in autoApproved
      ensures exists x :: x in trace + [e] && x.Executed? && x.always && x.tool == tool
    {
      var x :| x in trace && x.Executed? && x.always && x.tool == tool;
      assert x in trace + [e];
    }
  }

  // A thread changes along with one event of its own.
  lemma ChangeWithEvent(s: State, thread: nat, t: ThreadVal, e: Event)
    requires Sane(s) && e.thread == thread
    requires t.state != Processing && t.state != Completed
    requires t.state == AwaitingApproval ==>
               t.pendingApproval.Some? && e == Stored(thread, t.pendingApproval.value.requestId)
    requires e.Stored? ==> Unused(s, e.requestId)
    requires e.Executed? ==> LastOn(s.trace, thread) == Some(Stored(thread, e.requestId))
    ensures Sane(s.(threads := s.threads[thread := t], trace := s.trace + [e]))
    ensures e.Executed? && e.always ==>
      Sane(s.(threads := s.threads[thread := t], trace := s.trace + [e], autoApproved := s.autoApproved + {e.tool}))
  {
    TraceGrows(s.trace, e);
    GrantsStay(s.autoApproved, s.trace, e);
    var threads := s.threads[thread := t];
    forall id | id in threads ensures AtRest(threads[id], id, s.trace + [e]) {
      LastOnGrows(s.trace, e, id);
    }
  }

  // A thread changes without waiting for anything new.
  lemma ChangeInSilence(s: State, thread: nat, t: ThreadVal)
    requires Sane(s) && AtRest(t, thread, s.trace)
    ensures Sane(s.(threads := s.threads[thread := t]))
  {
  }

  // ----- One submission -----

  // Of all commands only an accepted input makes a thread wait, and then for the request of its turn.
  lemma CommandedThread(h: History, op: Op)
    requires !op.Answer? && h.thread.state != Processing && h.thread.state != Completed
    ensures var after := Step(h, op).thread;
            && after.state != Processing && after.state != Completed
            && (after.state == AwaitingApproval ==>
                  || (h.thread.state == AwaitingApproval && after.pendingApproval == h.thread.pendingApproval)
                  || (h.thread.state != AwaitingApproval && op.UserInput? && op.outcome.NeedsApproval?
                      && after.pendingApproval == Some(op.outcome.pending)))
  {
    hide KeepRecent, Snapshot, MessagesOf, TurnsFrom, Checkpointed, Undone, Redone, Restored;
  }

  lemma CommandKeepsSane(s: State, thread: nat, op: Op)
    requires Sane(s) && thread in s.threads && s.threads[thread].pendingAuth.None?
    requires op.UserInput? && op.outcome.NeedsApproval? ==> Unused(s, op.outcome.pending.requestId)
    ensures Sane(Commanded(s, thread, op))
  {
    hide Step, Unused, StoredOnce, ExecutedRightly, GrantsEarned;
    if !op.Answer? {
      var before := s.threads[thread];
      assert AtRest(before, thread, s.trace);
      CommandedThread(History(before, Manager(s, thread)), op);
      var after := Step(History(before, Manager(s, thread)), op);
      var s' := s.(managers := s.managers[thread := after.stacks]);
      assert Sane(s');
      UnusedIsOfTrace(s, s');
      if Trace(thread, before, after.thread) == [] {
        ChangeInSilence(s', thread, after.thread);
        assert s.trace + [] == s.trace;
      } else {
        ChangeWithEvent(s', thread, after.thread, Trace(thread, before, after.thread)[0]);
      }
    }
  }

  lemma UnusedIsOfTrace(a: State, b: State)
    requires a.trace == b.trace
    ensures forall requestId :: Unused(a, requestId) == Unused(b, requestId)
  {
  }

  lemma AnsweredThread(t: ThreadVal, approved: bool, outcome: LoopOutcome)
    requires t.state == AwaitingApproval && t.pendingApproval.Some?
    ensures var after := Answered(t, approved, outcome);
            && after.state != Processing && after.state != Completed
            && (after.state == AwaitingApproval <==> approved && outcome.NeedsApproval?)
            && (after.state == AwaitingApproval ==> after.pendingApproval == Some(outcome.pending))
  {
  }

  lemma AnswerKeepsSane(s: State, addressed: nat, requestId: Option<nat>, approved: bool, always: bool,
                        outcome: LoopOutcome)
    requires Sane(s) && (outcome.NeedsApproval? ==> Unused(s, outcome.pending.requestId))
    ensures var (threads, autoApproved, effect) :=
            AfterAnswer(s.threads, s.autoApproved, addressed, requestId, approved, always, outcome);
            Sane(s.(threads := threads, autoApproved := autoApproved,
                    trace := s.trace + AnswerTrace(effect, always, threads)))
  {
    hide Resolve, Answered, Unused, StoredOnce, ExecutedRightly, GrantsEarned;
    var r := Resolve(s.threads, addressed, requestId);
    if r.Found? {
      FoundHolds(s.threads, addressed, requestId);
      var id, before := r.thread, s.threads[r.thread];
      var after, request := Answered(before, approved, outcome), before.pendingApproval.value;
      assert AtRest(before, id, s.trace);
      AnsweredThread(before, approved, outcome);
      if !approved {
        ChangeWithEvent(s, id, after, Dropped(id));
        assert s.autoApproved + {} == s.autoApproved;
      } else {
        var ran := Executed(id, request.requestId, request.toolName, always);
        var granted := s.autoApproved + if always then {request.toolName} else {};
        assert !always ==> granted == s.autoApproved;
        var between := if after.state == AwaitingApproval then after.(state := Idle) else after;
        ChangeWithEvent(s, id, between, ran);
        var middle := s.(threads := s.threads[id := between], trace := s.trace + [ran], autoApproved := granted);
        assert Sane(middle) && [ran] + [] == [ran];
        if after.state == AwaitingApproval {
          UnusedAfter(s, middle, ran, outcome.pending.requestId);
          ChangeWithEvent(middle, id, after, Stored(id, outcome.pending.requestId));
          assert middle.threads[id := after] == s.threads[id := after];
          assert s.trace + [ran] + [Stored(id, outcome.pending.requestId)]
              == s.trace + ([ran] + [Stored(id, outcome.pending.requestId)]);
        }
      }
    } else {
      assert s.trace + [] == s.trace;
    }
  }

  lemma UnusedAfter(a: State, b: State, e: Event, requestId: nat)
    requires Unused(a, requestId) && b.trace == a.trace + [e] && !e.Stored?
    ensures Unused(b, requestId)
  {
  }

  lemma SubmitKeepsSane(s: State, m: Submission)
    requires Sane(s) && IdsAreNew(s, m)
    ensures Sane(Submit(s, m))
  {
    hide AfterAnswer, AnswerTrace, Commanded, Unused, StoredOnce, ExecutedRightly, GrantsEarned;
    match m
    case Open(thread, messages) =>
      ChangeInSilence(s, thread, NEW_THREAD.(turns := TurnsFrom(messages, 0)));
    case To(thread, request, tokenRefused) =>
      if thread in s.threads {
        var t := s.threads[thread];
        assert AtRest(t, thread, s.trace);
        ChangeInSilence(s, thread, t);
        ChangeInSilence(s, thread, t.(pendingAuth := None));
        var cleared := s.(threads := s.threads[thread := t.(pendingAuth := None)]);
        UnusedIsOfTrace(s, cleared);
        if !(t.pendingAuth.Some? && IsText(request)) {
          match request
          case Command(op) => CommandKeepsSane(cleared, thread, op);
          case Respond(requestId, approved, always, outcome) =>
            AnswerKeepsSane(cleared, thread, requestId, approved, always, outcome);
          case OtherText =>
          case OtherCommand =>
        }
      }
  }

  // ----- Every run -----

  lemma {:induction false} RunStaysSane(states: seq<State>, submissions: seq<Submission>, n: nat)
    requires IsRun(states, submissions) && n < |states|
    ensures Sane(states[n])
  {
    if n > 0 {
      RunStaysSane(states, submissions, n - 1);
      assert states[n - 1 + 1] == Submit(states[n - 1], submissions[n - 1]);
      SubmitKeepsSane(states[n - 1], submissions[n - 1]);
    }
  }

  /** Between submissions no thread is processing, and a thread that waits for approval has its request. */
  lemma ThreadsRest(states: seq<State>, submissions: seq<Submission>, n: nat)
    requires IsRun(states, submissions) && n < |states|
    ensures forall thread :: thread in states[n].threads ==>
              var t := states[n].threads[thread];
              t.state != Processing && t.state != Completed && (t.state == AwaitingApproval ==> t.pendingApproval.Some?)
  {
    RunStaysSane(states, submissions, n);
    forall thread | thread in states[n].threads ensures AtRest(states[n].threads[thread], thread, states[n].trace) {}
  }

  lemma SaneRequestsDiffer(s: State)
    requires Sane(s)
    ensures RequestsDiffer(s.threads)
  {
    forall a, b | a in s.threads && b in s.threads && a != b && s.threads[a].state == AwaitingApproval
                  && s.threads[b].state == AwaitingApproval
                  && s.threads[a].pendingApproval.Some? && s.threads[b].pendingApproval.Some?
      ensures s.threads[a].pendingApproval.value.requestId != s.threads[b].pendingApproval.value.requestId
    {
      assert AtRest(s.threads[a], a, s.trace) && AtRest(s.threads[b], b, s.trace);
      var i := LastOnIsThere(s.trace, a);
      var j := LastOnIsThere(s.trace, b);
    }
  }

  /**
   An answer with a request id finds the one thread that waits for it, from any channel, and is never
   ambiguous.
   */
  lemma AnswersAreUnambiguous(states: seq<State>, submissions: seq<Submission>, n: nat, addressed: nat, requestId: nat)
    requires IsRun(states, submissions) && n < |states|
    ensures var r := Resolve(states[n].threads, addressed, Some(requestId));
            && !r.Ambiguous?
            && forall id :: r == Found(id) <==>
                 id in states[n].threads && HoldsApproval(states[n].threads[id], Some(requestId))
  {
    RunStaysSane(states, submissions, n);
    SaneRequestsDiffer(states[n]);
    AnswerFindsHolder(states[n].threads, addressed, requestId);
  }

  lemma ExecutedDiffer(trace: seq<Event>, i: nat, j: nat)
    requires StoredOnce(trace) && ExecutedRightly(trace)
    requires i < j < |trace| && trace[i].Executed? && trace[j].Executed?
    ensures trace[i].requestId != trace[j].requestId
  {
    var si := LastOnIsThere(trace[..i], trace[i].thread);
    var sj := LastOnIsThere(trace[..j], trace[j].thread);
    assert trace[si] == Stored(trace[i].thread, trace[i].requestId);
    assert trace[sj] == Stored(trace[j].thread, trace[j].requestId);
    assert trace[..j][i] == trace[i];
  }

  /**
   Each request executes at most once, and only while it is the latest one stored on its thread and
   nothing has cut the thread off from it: neither a later request, nor a rejection, an interrupt, an
   undo, a redo, a resume or a clear. A tool is auto-approved only by an answer that said so.
   */
  lemma ExecutedAtMostOnce(states: seq<State>, submissions: seq<Submission>, n: nat)
    requires IsRun(states, submissions) && n < |states|
    ensures var trace := states[n].trace;
      && (forall i, j :: 0 <= i < j < |trace| && trace[i].Executed? && trace[j].Executed? ==>
               trace[i].requestId != trace[j].requestId)
      && (forall i :: 0 <= i < |trace| && trace[i].Executed? ==>
            LastOn(trace[..i], trace[i].thread) == Some(Stored(trace[i].thread, trace[i].requestId)))
      && GrantsEarned(states[n].autoApproved, trace)
  {
    RunStaysSane(states, submissions, n);
    var trace := states[n].trace;
    forall i, j | 0 <= i < j < |trace| && trace[i].Executed? && trace[j].Executed?
      ensures trace[i].requestId != trace[j].requestId
    {
      ExecutedDiffer(trace, i, j);
    }
  }

  // The commands that cut a waiting thread off from its request.
  predicate CutsOff(s: State, thread: nat, op: Op) {
    || op.Interrupt? || op.Clear?
    || (op.UndoTurn? && Manager(s, thread).undo != [])
    || (op.RedoTurn? && Manager(s, thread).redo != [])
    || (op.Resume? && exists c :: c in Manager(s, thread).undo && c.id == op.checkpointId)
  }

  /** Of a thread that waits, exactly these commands drop the request; all others leave it waiting for the same one. */
  lemma CutOffExactly(s: State, thread: nat, op: Op, tokenRefused: bool)
    requires Sane(s) && thread in s.threads && s.threads[thread].state == AwaitingApproval
    requires !op.Answer? && (op.UserInput? ==> s.threads[thread].pendingAuth.None?)
    ensures var after := Submit(s, To(thread, Command(op), tokenRefused));
            if CutsOff(s, thread, op)
            then after.trace == s.trace + [Dropped(thread)] && after.threads[thread].state != AwaitingApproval
            else after.trace == s.trace && after.threads[thread].state == AwaitingApproval
                 && after.threads[thread].pendingApproval == s.threads[thread].pendingApproval
  {
    hide MessagesOf, TurnsFrom, KeepRecent, StoredOnce, ExecutedRightly, GrantsEarned, LastOn;
    assert AtRest(s.threads[thread], thread, s.trace);
    if op.Resume? {
      var undo := Manager(s, thread).undo;
      assert (exists c :: c in undo && c.id == op.checkpointId) <==> Position(undo, op.checkpointId) < |undo|;
    }
  }

  /** An approving answer that names a waiting request executes it, whichever thread of the session it was sent to. */
  lemma AnswerExecutes(s: State, addressed: nat, thread: nat, requestId: nat, always: bool, outcome: LoopOutcome,
                       tokenRefused: bool)
    requires Sane(s) && addressed in s.threads
    requires thread in s.threads && HoldsApproval(s.threads[thread], Some(requestId))
    ensures var after := Submit(s, To(addressed, Respond(Some(requestId), true, always, outcome), tokenRefused));
            && |after.trace| > |s.trace|
            && after.trace[..|s.trace| + 1]
               == s.trace + [Executed(thread, requestId, s.threads[thread].pendingApproval.value.toolName, always)]
  {
    hide Resolve, StoredOnce, ExecutedRightly, GrantsEarned, LastOn, Answered;
    SaneRequestsDiffer(s);
    var threads := s.threads[addressed := s.threads[addressed].(pendingAuth := None)];
    assert RequestsDiffer(threads);
    AnswerFindsHolder(threads, addressed, requestId);
    assert Resolve(threads, addressed, Some(requestId)) == Found(thread);
  }

  /**
   In auth mode a text never becomes part of the conversation: it changes no turn, no request and no other
   thread, and ends auth mode unless the token is refused.
   */
  lemma AuthTokenIsNoInput(s: State, thread: nat, request: Request, tokenRefused: bool)
    requires thread in s.threads && s.threads[thread].pendingAuth.Some?
    requires request.OtherText? || (request.Command? && request.op.UserInput?)
    ensures var after := Submit(s, To(thread, request, tokenRefused));
            var t := s.threads[thread];
            && after.threads.Keys == s.threads.Keys && after.managers == s.managers && after.trace == s.trace
            && (forall other :: other in s.threads && other != thread ==> after.threads[other] == s.threads[other])
            && after.threads[thread] == if tokenRefused then t else t.(pendingAuth := None)
  {
  }

  /** Every other message ends auth mode, unless what it runs enters it anew. */
  lemma CommandEndsAuthMode(s: State, thread: nat, op: Op, tokenRefused: bool)
    requires thread in s.threads && !op.UserInput? && !op.Answer?
    ensures Submit(s, To(thread, Command(op), tokenRefused)).threads[thread].pendingAuth == None
  {
    hide MessagesOf, TurnsFrom, KeepRecent;
  }

  /** Outside auth mode an input is refused exactly by a thread that waits for approval; otherwise it opens a turn. */
  lemma InputIsRefusedExactly(s: State, thread: nat, id: nat, input: string, compaction: Option<nat>,
                              outcome: LoopOutcome)
    requires Sane(s) && thread in s.threads && s.threads[thread].pendingAuth.None?
    ensures var after := Submit(s, To(thread, Command(UserInput(id, input, compaction, outcome)), false));
            var turns := after.threads[thread].turns;
            if s.threads[thread].state == AwaitingApproval then after.threads == s.threads && after.trace == s.trace
            else turns != [] && turns[|turns| - 1].userInput == input
  {
    hide MessagesOf, KeepRecent, StoredOnce, ExecutedRightly, GrantsEarned, LastOn, Snapshot;
    assert AtRest(s.threads[thread], thread, s.trace);
  }
}
