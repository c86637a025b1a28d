/**
 The thread commands that touch history, and the timeline they move along.

 A history is the live thread with its undo manager. Its timeline is a row of transcripts with a
 cursor: the undo stack, the current transcript, and the redo stack reversed.
 */
module ThreadOps {
  import opened ChatThread
  import opened Decimal
  import opened Messages
  import opened Undo
  import opened Wrappers

  type Transcript = seq<ChatMessage>

  // What the agentic loop came back with; it may have entered auth mode for an extension.
  datatype LoopOutcome =
    | Responded(response: string, auth: Option<string>)
    | NeedsApproval(pending: PendingApproval)
    | Failed(error: string)

  datatype History = History(thread: ThreadVal, stacks: Stacks)

  // One submission. Ids of new checkpoints come with it; `compaction` is how many turns an
  // automatic compaction keeps, if one runs and succeeds.
  datatype Op =
    | UserInput(id: nat, input: string, compaction: Option<nat>, outcome: LoopOutcome)
    | Answer(approved: bool, outcome: LoopOutcome)
    | Interrupt
    | Compact(keep: nat)
    | UndoTurn(id: nat)
    | RedoTurn(id: nat)
    | Resume(checkpointId: nat)
    | Clear

  // ----- Thread-level effects -----

  predicate AcceptsInput(t: ThreadVal) {
    t.state == Idle || t.state == Interrupted
  }

  function AutoCompacted(t: ThreadVal, compaction: Option<nat>): ThreadVal {
    if compaction.Some? then t.(turns := KeepRecent(t.turns, compaction.value)) else t
  }

  function EnterAuth(t: ThreadVal, auth: Option<string>): ThreadVal {
    if auth.Some? then t.(pendingAuth := auth) else t
  }

  function Settled(t: ThreadVal, outcome: LoopOutcome): ThreadVal {
    match outcome
    case Responded(response, auth) => WithResponse(EnterAuth(t, auth), response)
    case NeedsApproval(pending) => WithRequest(t, pending)
    case Failed(error) => WithFailure(t, error)
  }

  // The request is taken off the thread before anything else happens.
  function Answered(t: ThreadVal, approved: bool, outcome: LoopOutcome): ThreadVal {
    if t.state != AwaitingApproval then t
    else if t.pendingApproval.None? then t
    else
      var taken := t.(pendingApproval := None);
      if approved then Settled(taken.(state := Processing), outcome) else WithoutRequest(taken)
  }

  function InterruptedThread(t: ThreadVal): ThreadVal {
    if t.state == Processing || t.state == AwaitingApproval then WithInterrupt(t) else t
  }

  function Snapshot(id: nat, t: ThreadVal, prefix: string): Checkpoint {
    var number := |t.turns| + 1;
    Checkpoint(id, number, MessagesOf(t.turns), prefix + PrintNat(number))
  }

  // ----- Submissions on a history -----

  function Step(h: History, op: Op): History {
    match op
    case UserInput(id, input, compaction, outcome) =>
      if !AcceptsInput(h.thread) then h else
      var compacted := AutoCompacted(h.thread, compaction);
      History(Settled(WithTurn(compacted, input), outcome),
              Checkpointed(h.stacks, Snapshot(id, compacted, "Before turn ")))
    case Answer(approved, outcome) => h.(thread := Answered(h.thread, approved, outcome))
    case Interrupt => h.(thread := InterruptedThread(h.thread))
    case Compact(keep) => h.(thread := h.thread.(turns := KeepRecent(h.thread.turns, keep)))
    case UndoTurn(id) =>
      var (stacks, c) := Undone(h.stacks, Snapshot(id, h.thread, "Turn "));
      if c.None? then h else History(RestoreFrom(h.thread, c.value.messages), stacks)
    case RedoTurn(id) =>
      var (stacks, c) := Redone(h.stacks, Snapshot(id, h.thread, "Turn "));
      if c.None? then h else History(RestoreFrom(h.thread, c.value.messages), stacks)
    case Resume(checkpointId) =>
      var (stacks, c) := Restored(h.stacks, checkpointId);
      if c.None? then h else History(RestoreFrom(h.thread, c.value.messages), stacks)
    case Clear =>
      History(h.thread.(turns := [], state := Idle), h.stacks.(undo := [], redo := []))
  }

  function Run(h: History, ops: seq<Op>): History
    decreases |ops|
  {
    if ops == [] then h else Run(Step(h, ops[0]), ops[1..])
  }

  // ----- The commands, on the live objects -----

  ghost function HistoryOf(thread: Thread, manager: UndoManager): History
    reads thread, manager
  {
    History(thread.View(), manager.View())
  }

  method Settle(thread: Thread, outcome: LoopOutcome)
    modifies thread
    ensures thread.View() == Settled(old(thread.View()), outcome)
  {
    match outcome {
      case Responded(response, auth) =>
        if auth.Some? {
          thread.pendingAuth := auth;
        }
        thread.CompleteTurn(response);
      case NeedsApproval(pending) => thread.AwaitApproval(pending);
      case Failed(error) => thread.FailTurn(error);
    }
  }

  // What safety checks and the command router make of an input before it can start a turn.
  datatype Screening = Clean | Invalid | Blocked | ExplicitCommand

  // What the hooks make of the final response.
  datatype ResponseHook = Unchanged | Filtered(reason: string) | Refused(error: string) | Replaced(text: string)

  function HookedResponse(response: string, hook: ResponseHook): string {
    match hook
    case Unchanged => response
    case Filtered(reason) => "[Response filtered: " + reason + "]"
    case Refused(error) => "[Response blocked by hook policy: " + error + "]"
    case Replaced(text) => text
  }

  function Hooked(outcome: LoopOutcome, hook: ResponseHook): LoopOutcome {
    match outcome
    case Responded(response, auth) => Responded(HookedResponse(response, hook), auth)
    case NeedsApproval(_) => outcome
    case Failed(_) => outcome
  }

  datatype InputResult =
    | TurnInProgress
    | WaitingForApproval
    | ThreadCompleted
    | InputInvalid
    | InputBlocked
    | HandledAsCommand
    | TurnRan

  // The thread's state is looked at first, then the input.
  function InputOutcome(state: ThreadState, screening: Screening): InputResult {
    match state
    case Processing => TurnInProgress
    case AwaitingApproval => WaitingForApproval
    case Completed => ThreadCompleted
    case _ =>
      match screening
      case Invalid => InputInvalid
      case Blocked => InputBlocked
      case ExplicitCommand => HandledAsCommand
      case Clean => TurnRan
  }

  method ProcessUserInput(thread: Thread, manager: UndoManager, id: nat, input: string, screening: Screening,
                          compaction: Option<nat>, outcome: LoopOutcome, hook: ResponseHook)
    returns (result: InputResult)
    modifies thread, manager
    ensures result == InputOutcome(old(thread.state), screening)
    ensures result.TurnRan? <==> (old(thread.state) == Idle || old(thread.state) == Interrupted) && screening.Clean?
    ensures HistoryOf(thread, manager)
         == if result.TurnRan?
            then Step(old(HistoryOf(thread, manager)), UserInput(id, input, compaction, Hooked(outcome, hook)))
            else old(HistoryOf(thread, manager))
  {
    hide MessagesOf, PrintNat, KeepRecent, WithTurn, Settled, Trimmed, HookedResponse;
    match thread.state {
      case Processing => return TurnInProgress;
      case AwaitingApproval => return WaitingForApproval;
      case Completed => return ThreadCompleted;
      case Idle | Interrupted =>
    }
    match screening {
      case Invalid => return InputInvalid;
      case Blocked => return InputBlocked;
      case ExplicitCommand => return HandledAsCommand;
      case Clean =>
    }
    if compaction.Some? {
      thread.TruncateTurns(compaction.value);
    }
    var messages := thread.CollectMessages();
    manager.AddCheckpoint(id, thread.TurnNumber(), messages, "Before turn " + PrintNat(thread.TurnNumber()));
    thread.StartTurn(input);
    Settle(thread, Hooked(outcome, hook));
    return TurnRan;
  }

  method ProcessUndo(thread: Thread, manager: UndoManager, id: nat) returns (undone: bool)
    modifies thread, manager
    ensures HistoryOf(thread, manager) == Step(old(HistoryOf(thread, manager)), UndoTurn(id))
    ensures undone == (old(manager.undoStack) != [])
  {
    if manager.undoStack == [] {
      return false;
    }
    var messages := thread.CollectMessages();
    var turn := thread.TurnNumber();
    var checkpoint := manager.Undo(id, turn, messages, "Turn " + PrintNat(turn));
    thread.RestoreFromMessages(checkpoint.value.messages);
    return true;
  }

  method ProcessRedo(thread: Thread, manager: UndoManager, id: nat) returns (redone: bool)
    modifies thread, manager
    ensures HistoryOf(thread, manager) == Step(old(HistoryOf(thread, manager)), RedoTurn(id))
    ensures redone == (old(manager.redoStack) != [])
  {
    if manager.redoStack == [] {
      return false;
    }
    var messages := thread.CollectMessages();
    var turn := thread.TurnNumber();
    var checkpoint := manager.Redo(id, turn, messages, "Turn " + PrintNat(turn));
    thread.RestoreFromMessages(checkpoint.value.messages);
    return true;
  }

  method ProcessResume(thread: Thread, manager: UndoManager, checkpointId: nat) returns (found: bool)
    modifies thread, manager
    ensures HistoryOf(thread, manager) == Step(old(HistoryOf(thread, manager)), Resume(checkpointId))
    ensures found <==> exists i :: 0 <= i < |old(manager.undoStack)| && old(manager.undoStack)[i].id == checkpointId
  {
    var checkpoint := manager.Restore(checkpointId);
    if checkpoint.None? {
      return false;
    }
    thread.RestoreFromMessages(checkpoint.value.messages);
    return true;
  }

  method ProcessInterrupt(thread: Thread, manager: UndoManager) returns (interrupted: bool)
    modifies thread
    ensures HistoryOf(thread, manager) == Step(old(HistoryOf(thread, manager)), Interrupt)
    ensures interrupted == (old(thread.state) == Processing || old(thread.state) == AwaitingApproval)
  {
    match thread.state {
      case Processing | AwaitingApproval =>
        thread.Interrupt();
        return true;
      case Idle | Completed | Interrupted =>
        return false;
    }
  }

  method ProcessClear(thread: Thread, manager: UndoManager)
    modifies thread, manager
    ensures HistoryOf(thread, manager) == Step(old(HistoryOf(thread, manager)), Clear)
  {
    thread.turns := [];
    thread.state := Idle;
    manager.Clear();
  }
}
