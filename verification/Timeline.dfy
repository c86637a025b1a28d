/**
 The simple reading of undo: one row of transcripts and a cursor. Every submission is one move on
 the row, so what undo and redo promise over whole runs follows from cursor arithmetic.
 */
module Timeline {
  import opened ChatThread
  import opened ThreadOps
  import opened Undo
  import opened Wrappers

  datatype Row = Row(cells: seq<Transcript>, cursor: nat)

  function Transcripts(stack: seq<Checkpoint>): (ts: seq<Transcript>)
    ensures |ts| == |stack|
  {
    seq(|stack|, i requires 0 <= i < |stack| => stack[i].messages)
  }

  function Reversed(stack: seq<Checkpoint>): (ts: seq<Transcript>)
    ensures |ts| == |stack|
  {
    seq(|stack|, i requires 0 <= i < |stack| => stack[|stack| - 1 - i].messages)
  }

  function Now(h: History): Transcript {
    MessagesOf(h.thread.turns)
  }

  function RowOf(h: History): (r: Row)
    ensures r.cursor < |r.cells|
  {
    Row(Transcripts(h.stacks.undo) + [Now(h)] + Reversed(h.stacks.redo), |h.stacks.undo|)
  }

  // ----- Moves of the cursor -----

  function Left(r: Row): Row {
    if r.cursor > 0 then r.(cursor := r.cursor - 1) else r
  }

  function Right(r: Row): Row {
    if r.cursor + 1 < |r.cells| then r.(cursor := r.cursor + 1) else r
  }

  // The future is cut, the past keeps at most `max` cells, and a new cell follows `start`.
  function Branch(r: Row, start: Transcript, next: Transcript, max: nat): Row
    requires r.cursor < |r.cells|
  {
    var past := Trimmed(r.cells[..r.cursor] + [start], max);
    Row(past + [next], |past|)
  }

  function Rewrite(r: Row, now: Transcript): Row
    requires r.cursor < |r.cells|
  {
    r.(cells := r.cells[r.cursor := now])
  }

  // A jump lands on an earlier cell and cuts what came after it.
  function Jump(r: Row, pos: nat): Row
    requires pos < |r.cells|
  {
    Row(r.cells[..pos + 1], pos)
  }

  // ----- What holds in every reachable history -----

  ghost predicate SoundCheckpoint(c: Checkpoint) {
    WellPaired(c.messages) && c.turnNumber == |TurnsFrom(c.messages, 0)| + 1
  }

  // Checkpoints hold restorable transcripts, and both stacks together stay within the limit.
  ghost predicate Sound(h: History) {
    && (forall i :: 0 <= i < |h.stacks.undo| ==> SoundCheckpoint(h.stacks.undo[i]))
    && (forall i :: 0 <= i < |h.stacks.redo| ==> SoundCheckpoint(h.stacks.redo[i]))
    && |h.stacks.undo| + |h.stacks.redo| <= h.stacks.max
  }

  lemma SnapshotIsSound(id: nat, t: ThreadVal, prefix: string)
    ensures SoundCheckpoint(Snapshot(id, t, prefix)) && Snapshot(id, t, prefix).messages == MessagesOf(t.turns)
  {
    MessagesAreWellPaired(t.turns);
    RestoreCountsTurns(t.turns, 0);
  }

  // A restore shows exactly the messages of a sound checkpoint.
  lemma RestoreShows(t: ThreadVal, c: Checkpoint)
    requires SoundCheckpoint(c)
    ensures MessagesOf(RestoreFrom(t, c.messages).turns) == c.messages
  {
    RoundTripIdentity(c.messages);
  }

  // ----- Each submission is one move -----

  /** Undo moves the cursor one cell left, or does nothing at the first cell. */
  lemma UndoMovesLeft(h: History, id: nat)
    requires Sound(h)
    ensures Sound(Step(h, UndoTurn(id))) && RowOf(Step(h, UndoTurn(id))) == Left(RowOf(h))
  {
    hide Snapshot, SoundCheckpoint, MessagesOf, TurnsFrom, Settled;
    if h.stacks.undo != [] {
      SnapshotIsSound(id, h.thread, "Turn ");
      RestoreShows(h.thread, Top(h.stacks.undo));
      var after := Step(h, UndoTurn(id));
      assert RowOf(after).cells == RowOf(h).cells by {
        forall i | 0 <= i < |RowOf(h).cells| ensures RowOf(after).cells[i] == RowOf(h).cells[i] {}
      }
    }
  }

  /** Redo moves the cursor one cell right, or does nothing at the last cell; it never evicts a cell. */
  lemma RedoMovesRight(h: History, id: nat)
    requires Sound(h)
    ensures Sound(Step(h, RedoTurn(id))) && RowOf(Step(h, RedoTurn(id))) == Right(RowOf(h))
  {
    hide Snapshot, SoundCheckpoint, MessagesOf, TurnsFrom, Settled;
    if h.stacks.redo != [] {
      SnapshotIsSound(id, h.thread, "Turn ");
      RestoreShows(h.thread, Top(h.stacks.redo));
      var after := Step(h, RedoTurn(id));
      assert RowOf(after).cells == RowOf(h).cells by {
        forall i | 0 <= i < |RowOf(h).cells| ensures RowOf(after).cells[i] == RowOf(h).cells[i] {}
      }
    }
  }

  /** An accepted input cuts the future and opens a cell after the transcript it started from. */
  lemma InputBranches(h: History, id: nat, input: string, compaction: Option<nat>, outcome: LoopOutcome)
    requires Sound(h) && AcceptsInput(h.thread)
    ensures var op := UserInput(id, input, compaction, outcome);
            Sound(Step(h, op))
            && RowOf(Step(h, op)) == Branch(RowOf(h), MessagesOf(AutoCompacted(h.thread, compaction).turns),
                                            Now(Step(h, op)), h.stacks.max)
  {
    hide Snapshot, SoundCheckpoint, MessagesOf, TurnsFrom, Settled, AutoCompacted;
    var compacted := AutoCompacted(h.thread, compaction);
    var c := Snapshot(id, compacted, "Before turn ");
    SnapshotIsSound(id, compacted, "Before turn ");
    var after := Step(h, UserInput(id, input, compaction, outcome));
    var pushed := h.stacks.undo + [c];
    assert Transcripts(pushed) == RowOf(h).cells[..|h.stacks.undo|] + [MessagesOf(compacted.turns)];
    assert after.stacks.undo == Trimmed(pushed, h.stacks.max) && after.stacks.redo == [];
    assert Transcripts(Trimmed(pushed, h.stacks.max)) == Trimmed(Transcripts(pushed), h.stacks.max);
  }

  /** Resuming jumps to the first checkpoint with the id and cuts everything after it. */
  lemma ResumeJumps(h: History, checkpointId: nat)
    requires Sound(h)
    ensures var pos := Position(h.stacks.undo, checkpointId);
            Sound(Step(h, Resume(checkpointId)))
            && RowOf(Step(h, Resume(checkpointId)))
               == if pos < |h.stacks.undo| then Jump(RowOf(h), pos) else RowOf(h)
  {
    hide SoundCheckpoint, MessagesOf, TurnsFrom, Position;
    var pos := Position(h.stacks.undo, checkpointId);
    if pos < |h.stacks.undo| {
      RestoreShows(h.thread, h.stacks.undo[pos]);
      var after := Step(h, Resume(checkpointId));
      assert RowOf(after).cells == RowOf(h).cells[..pos + 1];
    }
  }

  // Does the operation leave the undo manager alone?
  predicate RewritesNow(h: History, op: Op) {
    op.Answer? || op.Interrupt? || op.Compact? || (op.UserInput? && !AcceptsInput(h.thread))
  }

  /** Answers, interrupts and compactions rewrite the cell under the cursor and no other. */
  lemma RewriteStays(h: History, op: Op)
    requires Sound(h) && RewritesNow(h, op)
    ensures Sound(Step(h, op)) && Step(h, op).stacks == h.stacks
    ensures RowOf(Step(h, op)) == Rewrite(RowOf(h), Now(Step(h, op)))
  {
    hide SoundCheckpoint, MessagesOf, Answered, InterruptedThread, KeepRecent;
  }

  lemma StepKeepsSound(h: History, op: Op)
    requires Sound(h)
    ensures Sound(Step(h, op)) && Step(h, op).stacks.max == h.stacks.max
  {
    match op
    case UserInput(id, input, compaction, outcome) =>
      if AcceptsInput(h.thread) { InputBranches(h, id, input, compaction, outcome); }
    case UndoTurn(id) => UndoMovesLeft(h, id);
    case RedoTurn(id) => RedoMovesRight(h, id);
    case Resume(checkpointId) => ResumeJumps(h, checkpointId);
    case Answer(_, _) =>
    case Interrupt =>
    case Compact(_) =>
    case Clear =>
  }

  /** A thread with a new undo manager, whether new itself or hydrated from stored messages, is sound. */
  lemma NewManagersAreSound(thread: ThreadVal)
    ensures Sound(History(thread, NEW_STACKS)) && NEW_STACKS.max == 20
  {
  }

  /** In every run from a sound history, undo count plus redo count stays within the checkpoint limit. */
  lemma {:induction false} RunKeepsLimit(h: History, ops: seq<Op>)
    requires Sound(h)
    ensures var after := Run(h, ops);
            && Sound(after) && after.stacks.max == h.stacks.max
            && |after.stacks.undo| + |after.stacks.redo| <= h.stacks.max
    decreases |ops|
  {
    if ops != [] {
      StepKeepsSound(h, ops[0]);
      hide Step;
      RunKeepsLimit(Step(h, ops[0]), ops[1..]);
    }
  }

  /** A successful undo or redo conserves undo count plus redo count. */
  lemma UndoRedoConserveTotal(h: History, op: Op)
    requires Sound(h) && (op.UndoTurn? || op.RedoTurn?)
    ensures var after := Step(h, op);
            |after.stacks.undo| + |after.stacks.redo| == |h.stacks.undo| + |h.stacks.redo|
  {
  }

  // ----- j undos, then j redos -----

  function Undos(ids: seq<nat>): seq<Op> {
    seq(|ids|, i requires 0 <= i < |ids| => UndoTurn(ids[i]))
  }

  function Redos(ids: seq<nat>): seq<Op> {
    seq(|ids|, i requires 0 <= i < |ids| => RedoTurn(ids[i]))
  }

  lemma {:induction false} UndosMove(h: History, ids: seq<nat>)
    requires Sound(h) && |ids| <= |h.stacks.undo|
    ensures var after := Run(h, Undos(ids));
            Sound(after) && RowOf(after) == RowOf(h).(cursor := |h.stacks.undo| - |ids|)
    decreases |ids|
  {
    if ids != [] {
      UndoMovesLeft(h, ids[0]);
      assert Undos(ids)[1..] == Undos(ids[1..]);
      UndosMove(Step(h, UndoTurn(ids[0])), ids[1..]);
    }
  }

  lemma {:induction false} RedosMove(h: History, ids: seq<nat>)
    requires Sound(h) && |ids| <= |h.stacks.redo|
    ensures var after := Run(h, Redos(ids));
            Sound(after) && RowOf(after) == RowOf(h).(cursor := |h.stacks.undo| + |ids|)
    decreases |ids|
  {
    if ids != [] {
      RedoMovesRight(h, ids[0]);
      assert Redos(ids)[1..] == Redos(ids[1..]);
      RedosMove(Step(h, RedoTurn(ids[0])), ids[1..]);
    }
  }

  ghost predicate SameStack(a: seq<Checkpoint>, b: seq<Checkpoint>) {
    |a| == |b| && forall i :: 0 <= i < |a| ==> a[i].messages == b[i].messages && a[i].turnNumber == b[i].turnNumber
  }

  // Equal transcripts and equal stacks, up to checkpoint ids and descriptions.
  ghost predicate SameHistory(a: History, b: History) {
    Now(a) == Now(b) && SameStack(a.stacks.undo, b.stacks.undo) && SameStack(a.stacks.redo, b.stacks.redo)
  }

  // Sound histories are determined by their row, up to ids, descriptions and what a restore drops.
  lemma RowDeterminesHistory(a: History, b: History)
    requires Sound(a) && Sound(b) && RowOf(a) == RowOf(b)
    ensures SameHistory(a, b)
  {
    var cells, past := RowOf(a).cells, |a.stacks.undo|;
    assert |a.stacks.redo| == |b.stacks.redo|;
    assert cells[past] == Now(a) == Now(b);
    forall i | 0 <= i < past ensures a.stacks.undo[i].messages == b.stacks.undo[i].messages {
      assert RowOf(a).cells[i] == RowOf(b).cells[i];
    }
    forall i | 0 <= i < |a.stacks.redo| ensures a.stacks.redo[i].messages == b.stacks.redo[i].messages {
      var at := past + |a.stacks.redo| - i;
      assert RowOf(a).cells[at] == RowOf(b).cells[at];
    }
  }

  /** From every sound history, j undos and then j redos give back the same transcript and the same stacks. */
  lemma UndosThenRedos(h: History, undoIds: seq<nat>, redoIds: seq<nat>)
    requires Sound(h) && |undoIds| == |redoIds| <= |h.stacks.undo|
    ensures SameHistory(Run(Run(h, Undos(undoIds)), Redos(redoIds)), h)
  {
    hide Step;
    UndosMove(h, undoIds);
    var back := Run(h, Undos(undoIds));
    assert |back.stacks.redo| == |h.stacks.redo| + |undoIds| by {
      assert |RowOf(back).cells| == |RowOf(h).cells|;
    }
    RedosMove(back, redoIds);
    RowDeterminesHistory(Run(back, Redos(redoIds)), h);
  }

  // ----- n turns, then j undos -----

  // Only turns, and what can happen to the current turn; no other history command.
  predicate OnlyTalk(ops: seq<Op>) {
    forall i :: 0 <= i < |ops| ==> ops[i].UserInput? || ops[i].Answer? || ops[i].Interrupt? || ops[i].Compact?
  }

  // The transcripts the accepted turns started from, oldest first.
  function Starts(h: History, ops: seq<Op>): seq<Transcript>
    decreases |ops|
  {
    if ops == [] then []
    else
      (if ops[0].UserInput? && AcceptsInput(h.thread)
       then [MessagesOf(AutoCompacted(h.thread, ops[0].compaction).turns)]
       else [])
      + Starts(Step(h, ops[0]), ops[1..])
  }

  lemma TrimTwice<T>(a: seq<T>, b: seq<T>, max: nat)
    ensures Trimmed(Trimmed(a, max) + b, max) == Trimmed(a + b, max)
  {
    var once := Trimmed(a, max) + b;
    assert once == (a + b)[|a| + |b| - |once|..];
  }

  // One submission other than undo, redo, resume and clear adds at most its own start to the past.
  lemma TalkAddsStart(h: History, op: Op)
    requires Sound(h) && OnlyTalk([op])
    ensures var next := Step(h, op);
            Transcripts(next.stacks.undo) == Trimmed(Transcripts(h.stacks.undo) + Starts(h, [op]), h.stacks.max)
  {
    hide Snapshot, SoundCheckpoint, MessagesOf, TurnsFrom, Settled, AutoCompacted;
    var next, past := Step(h, op), Transcripts(h.stacks.undo);
    assert op == [op][0] && Starts(next, [op][1..]) == [];
    if op.UserInput? && AcceptsInput(h.thread) {
      InputBranches(h, op.id, op.input, op.compaction, op.outcome);
      assert RowOf(h).cells[..|past|] == past;
      assert Transcripts(next.stacks.undo) == RowOf(next).cells[..|next.stacks.undo|];
    } else {
      RewriteStays(h, op);
      assert past + [] == past;
    }
  }

  lemma StartsOfFirst(h: History, ops: seq<Op>)
    requires ops != []
    ensures Starts(h, ops) == Starts(h, [ops[0]]) + Starts(Step(h, ops[0]), ops[1..])
  {
    hide Step, MessagesOf, AutoCompacted;
    assert Starts(Step(h, ops[0]), [ops[0]][1..]) == [];
  }

  // The past after a run of turns: the earlier past and the starts, trimmed to the limit.
  lemma {:induction false} TalkExtendsPast(h: History, ops: seq<Op>)
    requires Sound(h) && OnlyTalk(ops)
    ensures var after := Run(h, ops);
            Sound(after) && after.stacks.max == h.stacks.max
            && Transcripts(after.stacks.undo) == Trimmed(Transcripts(h.stacks.undo) + Starts(h, ops), h.stacks.max)
    decreases |ops|
  {
    hide Step, Sound;
    if ops == [] {
      NothingTrimmed(h);
      assert Transcripts(h.stacks.undo) + [] == Transcripts(h.stacks.undo);
    } else {
      var op, next := ops[0], Step(h, ops[0]);
      StepKeepsSound(h, op);
      TalkExtendsPast(next, ops[1..]);
      TalkAddsStart(h, op);
      StartsOfFirst(h, ops);
      hide Starts, Transcripts, Trimmed;
      var past, start, rest := Transcripts(h.stacks.undo), Starts(h, [op]), Starts(next, ops[1..]);
      TrimTwice(past + start, rest, h.stacks.max);
      assert past + start + rest == past + (start + rest);
    }
  }

  lemma NothingTrimmed(h: History)
    requires Sound(h)
    ensures |h.stacks.undo| <= h.stacks.max
  {
  }

  /**
   After n turns and no other history command, j undos bring back exactly the transcript that turn
   n - j + 1 started from, for every j up to the smaller of n and the checkpoint limit.
   */
  lemma UndosReachTurnStart(h: History, ops: seq<Op>, ids: seq<nat>)
    requires Sound(h) && OnlyTalk(ops)
    requires 1 <= |ids| <= |Starts(h, ops)| && |ids| <= h.stacks.max
    ensures Now(Run(Run(h, ops), Undos(ids))) == Starts(h, ops)[|Starts(h, ops)| - |ids|]
  {
    hide Step, Sound, Starts, Undos;
    TalkExtendsPast(h, ops);
    var after, starts := Run(h, ops), Starts(h, ops);
    UndosMove(after, ids);
    var back := Run(after, Undos(ids));
    var at := |after.stacks.undo| - |ids|;
    assert Now(back) == RowOf(back).cells[at];
    assert RowOf(after).cells[at] == Transcripts(after.stacks.undo)[at];
  }

  /** Once those undos and the earlier ones are used up, the next one changes nothing. */
  lemma UndoBeyondLimit(h: History, ops: seq<Op>, ids: seq<nat>, id: nat)
    requires Sound(h) && OnlyTalk(ops)
    requires var past := |h.stacks.undo| + |Starts(h, ops)|;
             |ids| == if past < h.stacks.max then past else h.stacks.max
    ensures var back := Run(Run(h, ops), Undos(ids));
            Step(back, UndoTurn(id)) == back
  {
    hide Starts, Undos, Sound;
    TalkExtendsPast(h, ops);
    UndosMove(Run(h, ops), ids);
  }
}
