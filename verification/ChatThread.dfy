/**
 A conversation thread: its turns, its state, and the two conversions between turns and messages.

 `ThreadVal` and its functions describe what the methods of `Thread` do in place.
 */
module ChatThread {
  import opened Messages
  import opened Wrappers

  datatype ThreadState = Idle | Processing | AwaitingApproval | Completed | Interrupted

  datatype TurnState = TurnProcessing | TurnCompleted | TurnFailed | TurnInterrupted

  datatype Turn = Turn(number: nat, userInput: string, response: Option<string>, state: TurnState,
      error: Option<string>)

  datatype PendingApproval = PendingApproval(
    requestId: nat,
    toolName: string,
    parameters: string,
    toolCallId: string,
    contextMessages: seq<ChatMessage>)

  datatype ThreadVal = ThreadVal(
    state: ThreadState,
    turns: seq<Turn>,
    pendingApproval: Option<PendingApproval>,
    pendingAuth: Option<string>)

  // ----- Turns and messages -----

  function NewTurn(number: nat, userInput: string): Turn {
    Turn(number, userInput, None, TurnProcessing, None)
  }

  function CompletedBy(t: Turn, response: string): Turn {
    t.(response := Some(response), state := TurnCompleted)
  }

  function TurnMessages(t: Turn): seq<ChatMessage> {
    [UserMessage(t.userInput)] + (if t.response.Some? then [AssistantMessage(t.response.value)] else [])
  }

  function MessagesOf(turns: seq<Turn>): seq<ChatMessage> {
    if turns == [] then [] else TurnMessages(turns[0]) + MessagesOf(turns[1..])
  }

  lemma MessagesOfFront(turns: seq<Turn>, i: nat)
    requires i < |turns|
    ensures MessagesOf(turns[i..]) == TurnMessages(turns[i]) + MessagesOf(turns[i + 1..])
  {
    assert turns[i..][1..] == turns[i + 1..];
  }

  lemma Associative<T>(a: seq<T>, b: seq<T>, c: seq<T>)
    ensures a + (b + c) == a + b + c
  {
  }

  // A user message opens a turn, an assistant message directly after it answers it; the rest is dropped.
  function TurnsFrom(messages: seq<ChatMessage>, number: nat): seq<Turn>
    decreases |messages|
  {
    if messages == [] then []
    else if messages[0].role != User then TurnsFrom(messages[1..], number)
    else
      var turn := NewTurn(number, messages[0].content);
      if |messages| > 1 && messages[1].role == Assistant
      then [CompletedBy(turn, messages[1].content)] + TurnsFrom(messages[2..], number + 1)
      else [turn] + TurnsFrom(messages[1..], number + 1)
  }

  // What the front of the messages becomes, and what is left of them.
  lemma TurnsFromFront(messages: seq<ChatMessage>, i: nat, number: nat)
    requires i < |messages|
    ensures messages[i].role != User ==> TurnsFrom(messages[i..], number) == TurnsFrom(messages[i + 1..], number)
    ensures messages[i].role == User && i + 1 < |messages| && messages[i + 1].role == Assistant ==>
              TurnsFrom(messages[i..], number)
              == [CompletedBy(NewTurn(number, messages[i].content), messages[i + 1].content)]
                 + TurnsFrom(messages[i + 2..], number + 1)
    ensures messages[i].role == User && !(i + 1 < |messages| && messages[i + 1].role == Assistant) ==>
              TurnsFrom(messages[i..], number)
              == [NewTurn(number, messages[i].content)] + TurnsFrom(messages[i + 1..], number + 1)
  {
    var rest := messages[i..];
    assert rest[1..] == messages[i + 1..];
    if |rest| > 1 { assert rest[2..] == messages[i + 2..]; }
  }

  lemma NoTurnsFromNothing()
    ensures forall number :: TurnsFrom([], number) == []
  {
  }

  function Renumber(turns: seq<Turn>): (renumbered: seq<Turn>)
    ensures |renumbered| == |turns|
  {
    seq(|turns|, i requires 0 <= i < |turns| => turns[i].(number := i))
  }

  function KeepRecent(turns: seq<Turn>, keep: nat): seq<Turn> {
    if |turns| > keep then Renumber(turns[|turns| - keep..]) else turns
  }

  // ----- Thread transitions -----

  const NEW_THREAD := ThreadVal(Idle, [], None, None)

  function SetLast(turns: seq<Turn>, last: Turn): seq<Turn>
    requires turns != []
  {
    turns[..|turns| - 1] + [last]
  }

  function Last(turns: seq<Turn>): Turn
    requires turns != []
  {
    turns[|turns| - 1]
  }

  function WithTurn(t: ThreadVal, userInput: string): ThreadVal {
    t.(turns := t.turns + [NewTurn(|t.turns|, userInput)], state := Processing)
  }

  function WithResponse(t: ThreadVal, response: string): ThreadVal {
    t.(turns := if t.turns == [] then [] else SetLast(t.turns, CompletedBy(Last(t.turns), response)), state := Idle)
  }

  function WithFailure(t: ThreadVal, error: string): ThreadVal {
    t.(turns := if t.turns == [] then [] else SetLast(t.turns,
        Last(t.turns).(error := Some(error), state := TurnFailed)),
       state := Idle)
  }

  function WithInterrupt(t: ThreadVal): ThreadVal {
    t.(turns := if t.turns == [] then [] else SetLast(t.turns, Last(t.turns).(state := TurnInterrupted)),
       state := Interrupted)
  }

  function WithRequest(t: ThreadVal, pending: PendingApproval): ThreadVal {
    t.(state := AwaitingApproval, pendingApproval := Some(pending))
  }

  function WithoutRequest(t: ThreadVal): ThreadVal {
    t.(pendingApproval := None, state := Idle)
  }

  function RestoreFrom(t: ThreadVal, messages: seq<ChatMessage>): ThreadVal {
    t.(turns := TurnsFrom(messages, 0), state := Idle)
  }

  class Thread {
    var state: ThreadState
    var turns: seq<Turn>
    var pendingApproval: Option<PendingApproval>
    var pendingAuth: Option<string>

    function View(): ThreadVal reads this {
      ThreadVal(state, turns, pendingApproval, pendingAuth)
    }

    constructor ()
      ensures View() == NEW_THREAD
    {
      state, turns, pendingApproval, pendingAuth := Idle, [], None, None;
    }

    // 1-indexed, for display.
    function TurnNumber(): nat reads this {
      |turns| + 1
    }

    method StartTurn(userInput: string)
      modifies this
      ensures View() == WithTurn(old(View()), userInput)
    {
      var number := |turns|;
      turns := turns + [NewTurn(number, userInput)];
      state := Processing;
    }

    method CompleteTurn(response: string)
      modifies this
      ensures View() == WithResponse(old(View()), response)
    {
      if turns != [] {
        turns := SetLast(turns, CompletedBy(Last(turns), response));
      }
      state := Idle;
    }

    method FailTurn(error: string)
      modifies this
      ensures View() == WithFailure(old(View()), error)
    {
      if turns != [] {
        turns := SetLast(turns, Last(turns).(error := Some(error), state := TurnFailed));
      }
      state := Idle;
    }

    method Interrupt()
      modifies this
      ensures View() == WithInterrupt(old(View()))
    {
      if turns != [] {
        turns := SetLast(turns, Last(turns).(state := TurnInterrupted));
      }
      state := Interrupted;
    }

    method AwaitApproval(pending: PendingApproval)
      modifies this
      ensures View() == WithRequest(old(View()), pending)
    {
      state := AwaitingApproval;
      pendingApproval := Some(pending);
    }

    method CollectMessages() returns (messages: seq<ChatMessage>)
      ensures messages == MessagesOf(turns)
    {
      messages := [];
      assert turns[0..] == turns && turns[|turns|..] == [] && MessagesOf([]) == [];
      hide MessagesOf, UserMessage, AssistantMessage;
      for i := 0 to |turns|
        invariant messages + MessagesOf(turns[i..]) == MessagesOf(turns)
      {
        MessagesOfFront(turns, i);
        ghost var before := messages;
        messages := messages + [UserMessage(turns[i].userInput)];
        if turns[i].response.Some? {
          messages := messages + [AssistantMessage(turns[i].response.value)];
        }
        assert messages == before + TurnMessages(turns[i]);
        Associative(before, TurnMessages(turns[i]), MessagesOf(turns[i + 1..]));
      }
    }

    method TruncateTurns(keep: nat)
      modifies this`turns
      ensures turns == KeepRecent(old(turns), keep)
    {
      if |turns| > keep {
        turns := turns[|turns| - keep..];
        ghost var drained := turns;
        for i := 0 to |turns|
          invariant |turns| == |drained|
          invariant forall j :: 0 <= j < |turns| ==> turns[j] == if j < i then drained[j].(number := j) else drained[j]
        {
          turns := turns[i := turns[i].(number := i)];
        }
      }
    }

    method RestoreFromMessages(messages: seq<ChatMessage>)
      modifies this
      ensures View() == RestoreFrom(old(View()), messages)
    {
      turns := [];
      state := Idle;
      var i, turnNumber := 0, 0;
      assert messages[0..] == messages && messages[|messages|..] == [];
      NoTurnsFromNothing();
      hide CompletedBy, NewTurn, TurnsFrom;
      while i < |messages|
        invariant i <= |messages|
        invariant state == Idle && pendingApproval == old(pendingApproval) && pendingAuth == old(pendingAuth)
        invariant turns + TurnsFrom(messages[i..], turnNumber) == TurnsFrom(messages, 0)
        decreases |messages| - i
      {
        TurnsFromFront(messages, i, turnNumber);
        var message := messages[i];
        i := i + 1;
        if message.role == User {
          var turn := NewTurn(turnNumber, message.content);
          if i < |messages| && messages[i].role == Assistant {
            turn := CompletedBy(turn, messages[i].content);
            i := i + 1;
          }
          Associative(turns, [turn], TurnsFrom(messages[i..], turnNumber + 1));
          turns := turns + [turn];
          turnNumber := turnNumber + 1;
        }
      }
    }
  }

  // ----- `messages` after `restore_from_messages` -----

  ghost predicate Plain(m: ChatMessage) {
    m == UserMessage(m.content) || m == AssistantMessage(m.content)
  }

  // Is message i allowed, given what came before it?
  ghost predicate PairedAt(messages: seq<ChatMessage>, afterUser: bool, i: nat)
    requires i < |messages|
  {
    Plain(messages[i]) && (messages[i].role == Assistant ==>
        (if i == 0 then afterUser else messages[i - 1].role == User))
  }

  ghost predicate PairedAfter(messages: seq<ChatMessage>, afterUser: bool) {
    forall i :: 0 <= i < |messages| ==> PairedAt(messages, afterUser, i)
  }

  // User/assistant messages, each assistant one directly after a user one.
  ghost predicate WellPaired(messages: seq<ChatMessage>) {
    PairedAfter(messages, false)
  }

  function RoundTrip(messages: seq<ChatMessage>): seq<ChatMessage> {
    MessagesOf(TurnsFrom(messages, 0))
  }

  // The turn numbers do not matter to the messages.
  lemma {:induction false} NumberingIsInvisible(messages: seq<ChatMessage>, n: nat, m: nat)
    ensures MessagesOf(TurnsFrom(messages, n)) == MessagesOf(TurnsFrom(messages, m))
    ensures |TurnsFrom(messages, n)| == |TurnsFrom(messages, m)|
    decreases |messages|
  {
    if messages != [] {
      if messages[0].role != User {
        NumberingIsInvisible(messages[1..], n, m);
      } else if |messages| > 1 && messages[1].role == Assistant {
        NumberingIsInvisible(messages[2..], n + 1, m + 1);
      } else {
        NumberingIsInvisible(messages[1..], n + 1, m + 1);
      }
    }
  }

  lemma {:induction false} RenumberIsInvisible(turns: seq<Turn>, renumbered: seq<Turn>)
    requires |turns| == |renumbered|
    requires forall i :: 0 <= i < |turns| ==>
               renumbered[i].userInput == turns[i].userInput && renumbered[i].response == turns[i].response
    ensures MessagesOf(turns) == MessagesOf(renumbered)
  {
    if turns != [] {
      RenumberIsInvisible(turns[1..], renumbered[1..]);
    }
  }

  lemma {:induction false} MessagesOfAppend(a: seq<Turn>, b: seq<Turn>)
    ensures MessagesOf(a + b) == MessagesOf(a) + MessagesOf(b)
  {
    if a == [] {
      assert a + b == b;
    } else {
      assert (a + b)[1..] == a[1..] + b;
      MessagesOfAppend(a[1..], b);
    }
  }

  // Only the role and the content of a message survive a restore.
  function Stripped(m: ChatMessage): ChatMessage {
    ChatMessage(m.role, m.content, None, None, None)
  }

  // The kept messages: user ones, and assistant ones whose predecessor is a user one.
  function Kept(messages: seq<ChatMessage>, afterUser: bool): seq<ChatMessage> {
    if messages == [] then []
    else
      var m := messages[0];
      (if m.role == User || (m.role == Assistant && afterUser) then [Stripped(m)] else [])
      + Kept(messages[1..], m.role == User)
  }

  /** What a round trip keeps, message by message. */
  lemma {:induction false} RoundTripKeeps(messages: seq<ChatMessage>, n: nat)
    ensures MessagesOf(TurnsFrom(messages, n)) == Kept(messages, false)
    decreases |messages|
  {
    if messages != [] {
      var rest := messages[1..];
      if messages[0].role != User {
        RoundTripKeeps(rest, n);
      } else if |messages| > 1 && messages[1].role == Assistant {
        RoundTripKeeps(messages[2..], n + 1);
        assert rest[1..] == messages[2..];
      } else {
        RoundTripKeeps(rest, n + 1);
      }
    }
  }

  lemma PairedTail(messages: seq<ChatMessage>, afterUser: bool)
    requires messages != []
    ensures PairedAfter(messages, afterUser)
       <==> PairedAt(messages, afterUser, 0) && PairedAfter(messages[1..], messages[0].role == User)
  {
    var rest, next := messages[1..], messages[0].role == User;
    forall i | 0 <= i < |rest| ensures PairedAt(rest, next, i) == PairedAt(messages, afterUser, i + 1) {
      assert rest[i] == messages[i + 1];
    }
    if PairedAfter(rest, next) && PairedAt(messages, afterUser, 0) {
      forall i | 0 <= i < |messages| ensures PairedAt(messages, afterUser, i) {
        if i > 0 { assert PairedAt(rest, next, i - 1); }
      }
    }
    if PairedAfter(messages, afterUser) {
      forall i | 0 <= i < |rest| ensures PairedAt(rest, next, i) {
        assert PairedAt(messages, afterUser, i + 1);
      }
    }
  }

  lemma {:induction false} KeptOfPaired(messages: seq<ChatMessage>, afterUser: bool)
    ensures Kept(messages, afterUser) == messages <==> PairedAfter(messages, afterUser)
    ensures |Kept(messages, afterUser)| <= |messages|
  {
    if messages != [] {
      var m, rest := messages[0], messages[1..];
      KeptOfPaired(rest, m.role == User);
      PairedTail(messages, afterUser);
      if m.role == User || (m.role == Assistant && afterUser) {
        assert Kept(messages, afterUser) == [Stripped(m)] + Kept(rest, m.role == User);
        assert messages == [m] + rest;
        assert Kept(messages, afterUser)[1..] == Kept(rest, m.role == User);
      }
    }
  }

  /** The round trip is the identity exactly on the well-paired sequences. */
  lemma RoundTripIdentity(messages: seq<ChatMessage>)
    ensures RoundTrip(messages) == messages <==> WellPaired(messages)
  {
    RoundTripKeeps(messages, 0);
    KeptOfPaired(messages, false);
  }

  /** Whatever a thread shows as its messages is well paired, so a restore brings it back exactly. */
  lemma {:induction false} MessagesAreWellPaired(turns: seq<Turn>)
    ensures WellPaired(MessagesOf(turns)) && RoundTrip(MessagesOf(turns)) == MessagesOf(turns)
  {
    if turns != [] {
      MessagesAreWellPaired(turns[1..]);
      var tail := MessagesOf(turns[1..]);
      StartsWithUser(turns[1..]);
      var messages := TurnMessages(turns[0]) + tail;
      var head := |TurnMessages(turns[0])|;
      forall i | 0 <= i < |messages| ensures PairedAt(messages, false, i) {
        if i >= head {
          assert PairedAt(tail, false, i - head);
          if i > head { assert messages[i - 1] == tail[i - 1 - head]; }
        }
      }
    }
    RoundTripIdentity(MessagesOf(turns));
  }

  lemma StartsWithUser(turns: seq<Turn>)
    ensures MessagesOf(turns) != [] ==> MessagesOf(turns)[0].role == User
  {
  }

  /** A second round trip changes nothing. */
  lemma RoundTripIdempotent(messages: seq<ChatMessage>)
    ensures RoundTrip(RoundTrip(messages)) == RoundTrip(messages)
  {
    MessagesAreWellPaired(TurnsFrom(messages, 0));
  }

  ghost predicate IsSubsequence<T>(a: seq<T>, b: seq<T>) {
    a == [] || (b != [] && ((a[0] == b[0] && IsSubsequence(a[1..], b[1..])) || IsSubsequence(a, b[1..])))
  }

  lemma {:induction false} KeptIsSubsequence(messages: seq<ChatMessage>, plain: seq<ChatMessage>, afterUser: bool)
    requires |plain| == |messages| && forall i :: 0 <= i < |messages| ==> plain[i] == Stripped(messages[i])
    ensures IsSubsequence(Kept(messages, afterUser), plain)
  {
    if messages != [] {
      var m := messages[0];
      KeptIsSubsequence(messages[1..], plain[1..], m.role == User);
      if m.role == User || (m.role == Assistant && afterUser) {
        assert Kept(messages, afterUser)[1..] == Kept(messages[1..], m.role == User);
      } else {
        assert Kept(messages, afterUser) == Kept(messages[1..], m.role == User);
      }
    }
  }

  /** A round trip yields a subsequence of its input, stripped to roles and contents. */
  lemma RoundTripIsSubsequence(messages: seq<ChatMessage>)
    ensures IsSubsequence(RoundTrip(messages), seq(|messages|, i requires 0 <= i < |messages| => Stripped(messages[i])))
  {
    RoundTripKeeps(messages, 0);
    KeptIsSubsequence(messages, seq(|messages|, i requires 0 <= i < |messages| => Stripped(messages[i])), false);
  }

  // Restoring a thread's own messages gives back as many turns.
  lemma {:induction false} RestoreCountsTurns(turns: seq<Turn>, n: nat)
    ensures |TurnsFrom(MessagesOf(turns), n)| == |turns|
  {
    if turns != [] {
      var messages := MessagesOf(turns);
      var tail := MessagesOf(turns[1..]);
      StartsWithUser(turns[1..]);
      RestoreCountsTurns(turns[1..], n + 1);
      if turns[0].response.Some? {
        assert messages[2..] == tail;
      } else {
        assert messages[1..] == tail;
      }
    }
  }

  // How many turns a truncation drops.
  function Dropped(turns: seq<Turn>, keep: nat): (n: nat)
    ensures n <= |turns|
  {
    if |turns| > keep then |turns| - keep else 0
  }

  lemma KeptTurnMessages(turns: seq<Turn>, keep: nat)
    ensures MessagesOf(KeepRecent(turns, keep)) == MessagesOf(turns[Dropped(turns, keep)..])
  {
    if |turns| > keep {
      var recent := turns[|turns| - keep..];
      RenumberIsInvisible(recent, Renumber(recent));
    } else {
      assert turns[0..] == turns;
    }
  }

  /** Truncation keeps a suffix of the transcript: the messages of the most recent turns. */
  lemma KeepRecentIsSuffix(turns: seq<Turn>, keep: nat)
    ensures MessagesOf(turns) == MessagesOf(turns[..Dropped(turns, keep)]) + MessagesOf(KeepRecent(turns, keep))
  {
    var cut := Dropped(turns, keep);
    assert turns == turns[..cut] + turns[cut..];
    MessagesOfAppend(turns[..cut], turns[cut..]);
    KeptTurnMessages(turns, keep);
  }
}
