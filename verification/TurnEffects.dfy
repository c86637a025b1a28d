/**
 What the commands do to the turns and the transcript of a thread, said without the commands' own
 functions.
 */
module TurnEffects {
  import opened ChatThread
  import opened Decimal
  import opened Messages
  import opened ThreadOps
  import opened Timeline
  import opened Undo
  import opened Wrappers

  // ----- A turn and its outcome -----

  // The messages that a turn with this outcome adds to the transcript.
  function TurnWith(input: string, outcome: LoopOutcome): seq<ChatMessage> {
    match outcome
    case Responded(response, _) => [UserMessage(input), AssistantMessage(response)]
    case NeedsApproval(_) => [UserMessage(input)]
    case Failed(_) => [UserMessage(input)]
  }

  // The outcome is written down on the turn, and nothing else is.
  ghost predicate RecordsOutcome(before: Turn, after: Turn, outcome: LoopOutcome) {
    && after.number == before.number && after.userInput == before.userInput
    && match outcome
       case Responded(response, _) =>
         after.response == Some(response) && after.state == TurnCompleted && after.error == before.error
       case NeedsApproval(_) => after == before
       case Failed(error) =>
         after.response == before.response && after.state == TurnFailed && after.error == Some(error)
  }

  // Where the outcome leaves the thread.
  ghost predicate LeavesThread(before: ThreadVal, after: ThreadVal, outcome: LoopOutcome) {
    match outcome
    case Responded(_, auth) =>
      && after.state == Idle && after.pendingApproval == before.pendingApproval
      && after.pendingAuth == (if auth.Some? then auth else before.pendingAuth)
    case NeedsApproval(pending) =>
      after.state == AwaitingApproval && after.pendingApproval == Some(pending)
          && after.pendingAuth == before.pendingAuth
    case Failed(_) =>
      after.state == Idle && after.pendingApproval == before.pendingApproval && after.pendingAuth == before.pendingAuth
  }

  lemma LastTurnMessages(turns: seq<Turn>, last: Turn)
    ensures MessagesOf(turns + [last]) == MessagesOf(turns) + TurnMessages(last)
  {
    MessagesOfAppend(turns, [last]);
    assert [last][1..] == [] && MessagesOf([]) == [];
    assert MessagesOf([last]) == TurnMessages(last) + [];
  }

  lemma SettledRecords(t: ThreadVal, outcome: LoopOutcome)
    requires t.turns != []
    ensures var n := |t.turns| - 1;
            var after := Settled(t, outcome);
            && |after.turns| == |t.turns| && after.turns[..n] == t.turns[..n]
            && RecordsOutcome(t.turns[n], after.turns[n], outcome) && LeavesThread(t, after, outcome)
  {
  }

  // The transcript of a thread whose last turn was open and now has its outcome.
  lemma TranscriptOf(front: seq<Turn>, last: Turn, turns: seq<Turn>, outcome: LoopOutcome)
    requires |turns| == |front| + 1 && turns[..|front|] == front && last.response.None?
    requires RecordsOutcome(last, turns[|front|], outcome)
    ensures MessagesOf(turns) == MessagesOf(front) + TurnWith(last.userInput, outcome)
  {
    LastTurnMessages(front, turns[|front|]);
    hide MessagesOf;
    assert turns == front + [turns[|front|]];
  }

  lemma InputIsSettledTurn(h: History, id: nat, input: string, compaction: Option<nat>, outcome: LoopOutcome)
    requires h.thread.state == Idle || h.thread.state == Interrupted
    ensures var kept := if compaction.Some? then KeepRecent(h.thread.turns, compaction.value) else h.thread.turns;
            var turns := kept + [Turn(|kept|, input, None, TurnProcessing, None)];
            var begun := h.thread.(turns := turns, state := Processing);
            Step(h, UserInput(id, input, compaction, outcome)).thread == Settled(begun, outcome)
  {
    hide KeepRecent, Snapshot, Checkpointed, Settled;
  }

  /**
   An accepted input adds one turn after those that compaction left: with the input, the next number,
   and the outcome written down on it. The transcript gains the input, and the response exactly when
   there is one.
   */
  lemma InputAddsTurn(h: History, id: nat, input: string, compaction: Option<nat>, outcome: LoopOutcome)
    requires h.thread.state == Idle || h.thread.state == Interrupted
    ensures var kept := if compaction.Some? then KeepRecent(h.thread.turns, compaction.value) else h.thread.turns;
            var after := Step(h, UserInput(id, input, compaction, outcome));
            && |after.thread.turns| == |kept| + 1 && after.thread.turns[..|kept|] == kept
            && RecordsOutcome(Turn(|kept|, input, None, TurnProcessing, None), after.thread.turns[|kept|], outcome)
            && LeavesThread(h.thread, after.thread, outcome)
            && Now(after) == MessagesOf(kept) + TurnWith(input, outcome)
  {
    InputIsSettledTurn(h, id, input, compaction, outcome);
    hide MessagesOf, KeepRecent, Step, Settled, RecordsOutcome, TurnWith;
    var kept := if compaction.Some? then KeepRecent(h.thread.turns, compaction.value) else h.thread.turns;
    var turn := Turn(|kept|, input, None, TurnProcessing, None);
    var begun := h.thread.(turns := kept + [turn], state := Processing);
    SettledRecords(begun, outcome);
    assert begun.turns[..|kept|] == kept;
    TranscriptOf(kept, turn, Settled(begun, outcome).turns, outcome);
  }

  /**
   An approved answer finishes the open turn: it records the outcome there, and the transcript gains
   the response exactly when there is one. A rejection drops the request and leaves all turns alone.
   */
  lemma AnswerFinishesTurn(t: ThreadVal, approved: bool, outcome: LoopOutcome)
    requires t.state == AwaitingApproval && t.pendingApproval.Some? && t.turns != []
    ensures var n := |t.turns| - 1;
            var after := Answered(t, approved, outcome);
            && (approved ==>
                  && |after.turns| == |t.turns| && after.turns[..n] == t.turns[..n]
                  && RecordsOutcome(t.turns[n], after.turns[n], outcome)
                  && LeavesThread(t.(pendingApproval := None), after, outcome)
                  && (t.turns[n].response.None? ==>
                        MessagesOf(after.turns) == MessagesOf(t.turns[..n]) + TurnWith(t.turns[n].userInput, outcome)))
            && (!approved ==> after == t.(pendingApproval := None, state := Idle))
  {
    hide MessagesOf, Settled, RecordsOutcome, TurnWith;
    var n := |t.turns| - 1;
    if approved {
      SettledRecords(t.(pendingApproval := None, state := Processing), outcome);
      if t.turns[n].response.None? {
        TranscriptOf(t.turns[..n], t.turns[n], Answered(t, approved, outcome).turns, outcome);
      }
    }
  }

  /**
   An interrupt marks the open turn and the thread while it is processing or waiting; it takes no turn,
   message or request away. Any other thread it leaves as it is.
   */
  lemma InterruptMarksTurn(h: History)
    ensures h.thread.state != Processing && h.thread.state != AwaitingApproval ==> Step(h, Interrupt) == h
    ensures h.thread.state == Processing || h.thread.state == AwaitingApproval ==>
      var t, after := h.thread, Step(h, Interrupt).thread;
      && Step(h, Interrupt).stacks == h.stacks
      && after.state == Interrupted && after.pendingApproval == t.pendingApproval && |after.turns| == |t.turns|
      && (forall i :: 0 <= i < |t.turns| ==>
            after.turns[i] == if i == |t.turns| - 1 then t.turns[i].(state := TurnInterrupted) else t.turns[i])
      && MessagesOf(after.turns) == MessagesOf(t.turns)
  {
    var t, after := h.thread, Step(h, Interrupt).thread;
    if t.state == Processing || t.state == AwaitingApproval {
      RenumberIsInvisible(t.turns, after.turns);
    }
  }

  /** An undo, redo or resume that finds its checkpoint leaves the thread idle, with its requests as they were. */
  lemma RestoreLeavesIdle(h: History, op: Op)
    requires || (op.UndoTurn? && h.stacks.undo != []) || (op.RedoTurn? && h.stacks.redo != [])
             || (op.Resume? && exists c :: c in h.stacks.undo && c.id == op.checkpointId)
    ensures var after := Step(h, op).thread;
            && after.state == Idle && after.pendingApproval == h.thread.pendingApproval
            && after.pendingAuth == h.thread.pendingAuth
  {
    hide TurnsFrom, Snapshot;
    if op.Resume? {
      var c :| c in h.stacks.undo && c.id == op.checkpointId;
      var i :| 0 <= i < |h.stacks.undo| && h.stacks.undo[i] == c;
      assert Position(h.stacks.undo, op.checkpointId) < |h.stacks.undo|;
    }
  }

  /** A command that finds nothing to do changes nothing: neither the thread nor the undo manager. */
  lemma RefusedChangesNothing(h: History, op: Op)
    requires match op
             case UserInput(_, _, _, _) => h.thread.state != Idle && h.thread.state != Interrupted
             case Answer(_, _) => h.thread.state != AwaitingApproval || h.thread.pendingApproval.None?
             case Interrupt => h.thread.state != Processing && h.thread.state != AwaitingApproval
             case Compact(keep) => |h.thread.turns| <= keep
             case UndoTurn(_) => h.stacks.undo == []
             case RedoTurn(_) => h.stacks.redo == []
             case Resume(id) => forall c :: c in h.stacks.undo ==> c.id != id
             case Clear => false
    ensures Step(h, op) == h
  {
  }

  // ----- Starting over -----

  /** Clearing leaves one empty transcript and no way back or forth. */
  lemma ClearStartsOver(h: History)
    ensures var after := Step(h, Clear);
      && RowOf(after) == Row([[]], 0) && after.thread.turns == [] && after.thread.state == Idle
      && after.stacks.undo == [] && after.stacks.redo == [] && after.stacks.max == h.stacks.max
  {
    var after := Step(h, Clear);
    assert RowOf(after).cells == [[]];
  }

  lemma NothingToGoBackTo(h: History, op: Op)
    requires op.UndoTurn? || op.RedoTurn? || op.Resume?
    ensures Step(Step(h, Clear), op) == Step(h, Clear)
  {
    ClearStartsOver(h);
  }

  // ----- Turn numbers -----

  // Turns are numbered by their positions.
  ghost predicate Numbered(turns: seq<Turn>) {
    forall i :: 0 <= i < |turns| ==> turns[i].number == i
  }

  lemma {:induction false} RestoredAreNumbered(messages: seq<ChatMessage>, number: nat)
    ensures forall i :: 0 <= i < |TurnsFrom(messages, number)| ==> TurnsFrom(messages, number)[i].number == number + i
    decreases |messages|
  {
    if messages != [] {
      if messages[0].role != User {
        RestoredAreNumbered(messages[1..], number);
      } else if |messages| > 1 && messages[1].role == Assistant {
        RestoredAreNumbered(messages[2..], number + 1);
      } else {
        RestoredAreNumbered(messages[1..], number + 1);
      }
    }
  }

  lemma RestoreIsNumbered(t: ThreadVal, messages: seq<ChatMessage>)
    ensures Numbered(RestoreFrom(t, messages).turns)
  {
    RestoredAreNumbered(messages, 0);
  }

  lemma HistoryCommandKeepsNumbered(h: History, op: Op)
    requires Numbered(h.thread.turns) && (op.UndoTurn? || op.RedoTurn? || op.Resume?)
    ensures Numbered(Step(h, op).thread.turns)
  {
    hide Numbered, RestoreFrom, Snapshot;
    var after := Step(h, op);
    if after != h {
      var c: Checkpoint :=
        if op.UndoTurn? then Top(h.stacks.undo) else if op.RedoTurn? then Top(h.stacks.redo)
        else h.stacks.undo[Position(h.stacks.undo, op.checkpointId)];
      RestoreIsNumbered(h.thread, c.messages);
    }
  }

  lemma SettledIsNumbered(t: ThreadVal, outcome: LoopOutcome)
    requires Numbered(t.turns)
    ensures Numbered(Settled(t, outcome).turns)
  {
  }

  lemma RewriteKeepsNumbered(h: History, op: Op)
    requires Numbered(h.thread.turns) && (op.Answer? || op.Interrupt? || op.Compact? || op.Clear?)
    ensures Numbered(Step(h, op).thread.turns)
  {
    if op.Answer? {
      SettledIsNumbered(h.thread.(pendingApproval := None, state := Processing), op.outcome);
    }
    hide Settled;
  }

  lemma InputKeepsNumbered(h: History, op: Op)
    requires Numbered(h.thread.turns) && op.UserInput?
    ensures Numbered(Step(h, op).thread.turns)
  {
    hide MessagesOf, Snapshot, Checkpointed, Settled;
    if AcceptsInput(h.thread) {
      var c := AutoCompacted(h.thread, op.compaction);
      assert Numbered(c.turns);
      SettledIsNumbered(WithTurn(c, op.input), op.outcome);
    }
  }

  lemma StepKeepsNumbered(h: History, op: Op)
    requires Numbered(h.thread.turns)
    ensures Numbered(Step(h, op).thread.turns)
  {
    hide Step, Numbered;
    if op.UndoTurn? || op.RedoTurn? || op.Resume? {
      HistoryCommandKeepsNumbered(h, op);
    } else if op.UserInput? {
      InputKeepsNumbered(h, op);
    } else {
      RewriteKeepsNumbered(h, op);
    }
  }

  /** Through every run of commands, turns stay numbered by their positions. */
  lemma {:induction false} RunKeepsNumbered(h: History, ops: seq<Op>)
    requires Numbered(h.thread.turns)
    ensures Numbered(Run(h, ops).thread.turns)
    decreases |ops|
  {
    hide Step, Numbered;
    if ops != [] {
      StepKeepsNumbered(h, ops[0]);
      RunKeepsNumbered(Step(h, ops[0]), ops[1..]);
    }
  }

  // ----- Checkpoints -----

  // A checkpoint of the thread's transcript, at its next turn.
  ghost predicate Captures(c: Checkpoint, id: nat, turns: seq<Turn>, prefix: string) {
    && c.id == id && c.messages == MessagesOf(turns) && c.turnNumber == |turns| + 1
    && c.description == prefix + PrintNat(|turns| + 1)
  }

  /**
   An input keeps what its turn starts from as the newest checkpoint; an undo keeps what it leaves for
   a redo, and a redo for an undo.
   */
  lemma CommandsCapture(h: History, id: nat, input: string, compaction: Option<nat>, outcome: LoopOutcome)
    requires h.stacks.max > 0
    ensures AcceptsInput(h.thread) ==>
              var kept := if compaction.Some? then KeepRecent(h.thread.turns, compaction.value) else h.thread.turns;
              var stacks := Step(h, UserInput(id, input, compaction, outcome)).stacks;
              stacks.redo == [] && stacks.undo != [] && Captures(Top(stacks.undo), id, kept, "Before turn ")
    ensures h.stacks.undo != [] ==>
              var redo := Step(h, UndoTurn(id)).stacks.redo;
              redo != [] && redo[..|redo| - 1] == h.stacks.redo && Captures(Top(redo), id, h.thread.turns, "Turn ")
    ensures h.stacks.redo != [] ==>
              var undo := Step(h, RedoTurn(id)).stacks.undo;
              undo != [] && Captures(Top(undo), id, h.thread.turns, "Turn ")
  {
    hide MessagesOf, TurnsFrom, KeepRecent, Settled, PrintNat;
  }


  /** Resuming the checkpoint that an input made brings back the transcript the input started from. */
  lemma ResumeReturnsToStart(h: History, id: nat, input: string, compaction: Option<nat>, outcome: LoopOutcome)
    requires AcceptsInput(h.thread) && h.stacks.max > 0
    requires forall c :: c in h.stacks.undo ==> c.id != id
    ensures var kept := if compaction.Some? then KeepRecent(h.thread.turns, compaction.value) else h.thread.turns;
            var after := Step(h, UserInput(id, input, compaction, outcome));
            Now(Step(after, Resume(id))) == MessagesOf(kept)
  {
    hide KeepRecent, MessagesOf, TurnsFrom, Settled;
    var compacted := AutoCompacted(h.thread, compaction);
    var c := Snapshot(id, compacted, "Before turn ");
    var after := Step(h, UserInput(id, input, compaction, outcome));
    var undo := after.stacks.undo;
    assert undo[|undo| - 1] == c && forall i :: 0 <= i < |undo| - 1 ==> undo[i] in h.stacks.undo;
    assert Position(undo, id) == |undo| - 1;
    SnapshotIsSound(id, compacted, "Before turn ");
    RestoreShows(after.thread, c);
  }

  // ----- Hooked responses -----

  /** A response that a hook filters or refuses does not come through: what is shown does not depend on it. */
  lemma HookWithholds(response: string, other: string, hook: ResponseHook)
    ensures hook.Filtered? || hook.Refused? || hook.Replaced? ==>
              HookedResponse(response, hook) == HookedResponse(other, hook)
    ensures hook.Unchanged? ==> HookedResponse(response, hook) == response
    ensures hook.Replaced? ==> HookedResponse(response, hook) == hook.text
  {
  }
}
