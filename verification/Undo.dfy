/**
 The undo manager: two stacks of checkpoints, trimmed to a limit.

 `Stacks` and its functions describe what the methods of `UndoManager` do in place. Fresh
 checkpoint ids come from the caller.
 */
module Undo {
  import opened Messages
  import opened Wrappers

  const DEFAULT_MAX_CHECKPOINTS: nat := 20

  datatype Checkpoint = Checkpoint(id: nat, turnNumber: nat, messages: seq<ChatMessage>, description: string)

  // Both stacks have their top at the end.
  datatype Stacks = Stacks(undo: seq<Checkpoint>, redo: seq<Checkpoint>, max: nat)

  const NEW_STACKS := Stacks([], [], DEFAULT_MAX_CHECKPOINTS)

  function Top(stack: seq<Checkpoint>): Checkpoint
    requires stack != []
  {
    stack[|stack| - 1]
  }

  function Popped(stack: seq<Checkpoint>): seq<Checkpoint>
    requires stack != []
  {
    stack[..|stack| - 1]
  }

  // The newest `max` entries survive a push.
  function Trimmed<T>(entries: seq<T>, max: nat): (kept: seq<T>)
    ensures |kept| == if |entries| > max then max else |entries|
  {
    if |entries| > max then entries[|entries| - max..] else entries
  }

  function WithUndo(s: Stacks, c: Checkpoint): Stacks {
    s.(undo := Trimmed(s.undo + [c], s.max))
  }

  function Checkpointed(s: Stacks, c: Checkpoint): Stacks {
    WithUndo(s.(redo := []), c)
  }

  function Undone(s: Stacks, current: Checkpoint): (Stacks, Option<Checkpoint>) {
    if s.undo == [] then (s, None)
    else (s.(undo := Popped(s.undo), redo := s.redo + [current]), Some(Top(s.undo)))
  }

  // The state is pushed before the redo entry is popped.
  function Redone(s: Stacks, current: Checkpoint): (Stacks, Option<Checkpoint>) {
    if s.redo == [] then (s, None)
    else (WithUndo(s, current).(redo := Popped(s.redo)), Some(Top(s.redo)))
  }

  // First entry with the id, or the length if there is none.
  function Position(stack: seq<Checkpoint>, id: nat): (pos: nat)
    ensures pos <= |stack|
    ensures pos < |stack| ==> stack[pos].id == id
    ensures forall i :: 0 <= i < pos ==> stack[i].id != id
  {
    if stack == [] || stack[0].id == id then 0 else 1 + Position(stack[1..], id)
  }

  function Restored(s: Stacks, id: nat): (Stacks, Option<Checkpoint>) {
    var pos := Position(s.undo, id);
    if pos == |s.undo| then (s, None) else (s.(undo := s.undo[..pos], redo := []), Some(s.undo[pos]))
  }

  class UndoManager {
    var undoStack: seq<Checkpoint>
    var redoStack: seq<Checkpoint>
    var maxCheckpoints: nat

    function View(): Stacks reads this {
      Stacks(undoStack, redoStack, maxCheckpoints)
    }

    constructor ()
      ensures View() == NEW_STACKS
    {
      undoStack, redoStack, maxCheckpoints := [], [], DEFAULT_MAX_CHECKPOINTS;
    }

    method PushUndo(c: Checkpoint)
      modifies this`undoStack
      ensures undoStack == Trimmed(old(undoStack) + [c], maxCheckpoints)
    {
      undoStack := undoStack + [c];
      ghost var pushed := undoStack;
      while |undoStack| > maxCheckpoints
        invariant |undoStack| >= if |pushed| > maxCheckpoints then maxCheckpoints else |pushed|
        invariant |undoStack| <= |pushed| && undoStack == pushed[|pushed| - |undoStack|..]
        decreases |undoStack|
      {
        undoStack := undoStack[1..];
      }
    }

    method AddCheckpoint(id: nat, turnNumber: nat, messages: seq<ChatMessage>, description: string)
      modifies this
      ensures View() == Checkpointed(old(View()), Checkpoint(id, turnNumber, messages, description))
    {
      redoStack := [];
      PushUndo(Checkpoint(id, turnNumber, messages, description));
    }

    method Undo(id: nat, currentTurn: nat, currentMessages: seq<ChatMessage>, description: string)
      returns (c: Option<Checkpoint>)
      modifies this
      ensures (View(), c) == Undone(old(View()), Checkpoint(id, currentTurn, currentMessages, description))
    {
      if undoStack == [] {
        return None;
      }
      redoStack := redoStack + [Checkpoint(id, currentTurn, currentMessages, description)];
      c := Some(Top(undoStack));
      undoStack := Popped(undoStack);
    }

    method Redo(id: nat, currentTurn: nat, currentMessages: seq<ChatMessage>, description: string)
      returns (c: Option<Checkpoint>)
      modifies this
      ensures (View(), c) == Redone(old(View()), Checkpoint(id, currentTurn, currentMessages, description))
    {
      if redoStack == [] {
        return None;
      }
      PushUndo(Checkpoint(id, currentTurn, currentMessages, description));
      c := Some(Top(redoStack));
      redoStack := Popped(redoStack);
    }

    method Restore(id: nat) returns (c: Option<Checkpoint>)
      modifies this
      ensures (View(), c) == Restored(old(View()), id)
    {
      var pos := 0;
      while pos < |undoStack| && undoStack[pos].id != id
        invariant pos <= |undoStack| && pos + Position(undoStack[pos..], id) == Position(undoStack, id)
      {
        pos := pos + 1;
      }
      if pos == |undoStack| {
        return None;
      }
      redoStack := [];
      ghost var all := undoStack;
      while |undoStack| > pos + 1
        invariant pos + 1 <= |undoStack| <= |all| && undoStack == all[..|undoStack|]
        invariant redoStack == [] && maxCheckpoints == old(maxCheckpoints)
      {
        undoStack := Popped(undoStack);
      }
      c := Some(Top(undoStack));
      undoStack := Popped(undoStack);
      assert undoStack == all[..pos];
    }

    method Clear()
      modifies this
      ensures View() == old(View()).(undo := [], redo := [])
    {
      undoStack, redoStack := [], [];
    }
  }
}
