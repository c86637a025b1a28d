/**
 Sessions and the answering of approval requests.

 A session owns its threads as values and looks for the one that holds the request being answered.
 */
module Approval {
  import opened ChatThread
  import opened ThreadOps
  import opened Wrappers

  type Threads = map<nat, ThreadVal>

  datatype Resolution = Found(thread: nat) | NotFound | Ambiguous(threads: set<nat>)

  predicate HoldsApproval(t: ThreadVal, requestId: Option<nat>) {
    && t.state == AwaitingApproval
    && t.pendingApproval.Some?
    && (requestId.Some? ==> t.pendingApproval.value.requestId == requestId.value)
  }

  // The threads that wait for an answer to this very request.
  function Holders(threads: Threads, requestId: nat): set<nat> {
    set id | id in threads && HoldsApproval(threads[id], Some(requestId))
  }

  // The addressed thread goes first; only a request id reaches beyond it, and only to a single holder.
  ghost function Resolve(threads: Threads, addressed: nat, requestId: Option<nat>): Resolution {
    if addressed in threads && HoldsApproval(threads[addressed], requestId) then Found(addressed)
    else if requestId.None? then NotFound
    else
      var holders := Holders(threads, requestId.value);
      if holders == {} then NotFound
      else if |holders| == 1 then (var id :| id in holders; Found(id))
      else Ambiguous(holders)
  }

  ghost predicate ListsOnce(list: seq<nat>, elements: set<nat>) {
    |list| == |elements| && forall id :: id in list <==> id in elements
  }

  lemma ListNothing()
    ensures ListsOnce([], {})
  {
  }

  lemma ListMore(list: seq<nat>, elements: set<nat>, id: nat)
    requires ListsOnce(list, elements) && id !in elements
    ensures ListsOnce(list + [id], elements + {id})
  {
  }

  lemma ListedOnce(list: seq<nat>, elements: set<nat>)
    requires ListsOnce(list, elements)
    ensures elements == set id | id in list
    ensures |list| == 1 ==> elements == {list[0]}
  {
    if |list| == 1 {
      assert list[0] in elements && |elements - {list[0]}| == 0;
      assert elements == {list[0]};
    }
  }

  datatype Reply = Accepted | ThreadNotFound | NoPendingApproval | MultiplePending | RequestIdMismatch

  // What an answer did: the request it executed or turned down, if any.
  datatype Effect = Nothing | Ran(thread: nat, request: PendingApproval) | TurnedDown(thread: nat)

  class Session {
    var threads: Threads
    var autoApproved: set<string>

    constructor ()
      ensures threads == map[] && autoApproved == {}
    {
      threads, autoApproved := map[], {};
    }

    method CollectHolders(requestId: nat) returns (candidates: seq<nat>)
      ensures ListsOnce(candidates, Holders(threads, requestId))
    {
      hide ListsOnce;
      candidates := [];
      var ids := threads.Keys;
      ghost var holders := Holders(threads, requestId);
      ListNothing();
      assert holders - ids == {};
      while ids != {}
        invariant ids <= threads.Keys
        invariant ListsOnce(candidates, holders - ids)
        decreases |ids|
      {
        var id :| id in ids;
        if HoldsApproval(threads[id], Some(requestId)) {
          ListMore(candidates, holders - ids, id);
          candidates := candidates + [id];
          assert holders - (ids - {id}) == (holders - ids) + {id};
        } else {
          assert holders - (ids - {id}) == holders - ids;
        }
        ids := ids - {id};
      }
      assert holders - ids == holders;
    }

    method ResolveApprovalThread(addressed: nat, requestId: Option<nat>) returns (r: Resolution)
      ensures r == Resolve(threads, addressed, requestId)
    {
      if addressed in threads && HoldsApproval(threads[addressed], requestId) {
        return Found(addressed);
      }
      if requestId.None? {
        return NotFound;
      }
      var candidates := CollectHolders(requestId.value);
      ListedOnce(candidates, Holders(threads, requestId.value));
      hide Holders;
      if |candidates| == 1 {
        return Found(candidates[0]);
      } else if candidates == [] {
        return NotFound;
      } else {
        return Ambiguous(set id | id in candidates);
      }
    }

    // The thread was found; take its request, check it, and run or drop it.
    method AnswerFound(id: nat, requestId: Option<nat>, approved: bool, always: bool, outcome: LoopOutcome)
      returns (reply: Reply, effect: Effect)
      modifies this
      ensures AnswerResult(threads, autoApproved, reply, effect)
           == AnswerAt(old(threads), old(autoApproved), id, requestId, approved, always, outcome)
    {
      hide Settled, WithResponse, WithFailure;
      if id !in threads {
        return ThreadNotFound, Nothing;
      }
      if threads[id].state != AwaitingApproval {
        return NoPendingApproval, Nothing;
      }
      var pending := threads[id].pendingApproval;
      threads := threads[id := threads[id].(pendingApproval := None)];
      if pending.None? {
        return NoPendingApproval, Nothing;
      }
      if requestId.Some? && requestId.value != pending.value.requestId {
        threads := threads[id := WithRequest(threads[id], pending.value)];
        return RequestIdMismatch, Nothing;
      }
      if approved {
        if always {
          autoApproved := autoApproved + {pending.value.toolName};
        }
        threads := threads[id := threads[id].(state := Processing)];
        threads := threads[id := Settled(threads[id], outcome)];
        return Accepted, Ran(id, pending.value);
      } else {
        threads := threads[id := WithoutRequest(threads[id])];
        return Accepted, TurnedDown(id);
      }
    }

    /** Answers a request: runs the approved tool and the rest of the turn, or drops the request. */
    method ProcessApproval(addressed: nat, requestId: Option<nat>, approved: bool, always: bool, outcome: LoopOutcome)
      returns (reply: Reply, effect: Effect)
      modifies this
      ensures (threads, autoApproved, effect)
           == AfterAnswer(old(threads), old(autoApproved), addressed, requestId, approved, always, outcome)
      ensures reply == ReplyTo(Resolve(old(threads), addressed, requestId))
    {
      hide Resolve, AnswerAt;
      var resolution := ResolveApprovalThread(addressed, requestId);
      match resolution {
        case NotFound => return NoPendingApproval, Nothing;
        case Ambiguous(_) => return MultiplePending, Nothing;
        case Found(id) =>
          FoundIsAnswered(threads, autoApproved, addressed, requestId, approved, always, outcome);
          reply, effect := AnswerFound(id, requestId, approved, always, outcome);
      }
    }
  }

  datatype AnswerResult = AnswerResult(threads: Threads, autoApproved: set<string>, reply: Reply, effect: Effect)

  function AnswerAt(threads: Threads, autoApproved: set<string>, id: nat, requestId: Option<nat>,
                    approved: bool, always: bool, outcome: LoopOutcome): AnswerResult {
    if id !in threads then AnswerResult(threads, autoApproved, ThreadNotFound, Nothing)
    else
      var pending := threads[id].pendingApproval;
      if threads[id].state != AwaitingApproval then AnswerResult(threads, autoApproved, NoPendingApproval, Nothing)
      else
        var taken := threads[id].(pendingApproval := None);
        if pending.None? then AnswerResult(threads[id := taken], autoApproved, NoPendingApproval, Nothing)
        else if requestId.Some? && requestId.value != pending.value.requestId then
          AnswerResult(threads[id := WithRequest(taken, pending.value)], autoApproved, RequestIdMismatch, Nothing)
        else if approved then
          AnswerResult(threads[id := Settled(taken.(state := Processing), outcome)],
                       if always then autoApproved + {pending.value.toolName} else autoApproved,
                       Accepted, Ran(id, pending.value))
        else
          AnswerResult(threads[id := WithoutRequest(taken)], autoApproved, Accepted, TurnedDown(id))
  }

  /** Once a thread is found, the checks that follow never fail: the answer is always accepted. */
  lemma FoundIsAnswered(threads: Threads, autoApproved: set<string>, addressed: nat, requestId: Option<nat>,
                        approved: bool, always: bool, outcome: LoopOutcome)
    requires Resolve(threads, addressed, requestId).Found?
    ensures var id := Resolve(threads, addressed, requestId).thread;
            var (after, granted, effect) :=
              AfterAnswer(threads, autoApproved, addressed, requestId, approved, always, outcome);
            AnswerAt(threads, autoApproved, id, requestId, approved, always, outcome)
                == AnswerResult(after, granted, Accepted, effect)
  {
    hide Resolve, Settled;
    FoundHolds(threads, addressed, requestId);
    assert autoApproved + {} == autoApproved;
  }

  // A thread that was found holds the request.
  lemma FoundHolds(threads: Threads, addressed: nat, requestId: Option<nat>)
    requires Resolve(threads, addressed, requestId).Found?
    ensures var id := Resolve(threads, addressed, requestId).thread;
            id in threads && HoldsApproval(threads[id], requestId)
  {
    if !(addressed in threads && HoldsApproval(threads[addressed], requestId)) {
      assert Resolve(threads, addressed, requestId).thread in Holders(threads, requestId.value);
    }
  }

  function ReplyTo(r: Resolution): Reply {
    match r
    case Found(_) => Accepted
    case NotFound => NoPendingApproval
    case Ambiguous(_) => MultiplePending
  }

  /**
   What answering means: a request is executed, or turned down, exactly when the lookup finds the
   thread that waits for it; the rest of that thread's turn follows, and every other thread stays as
   it was.
   */
  ghost function AfterAnswer(threads: Threads, autoApproved: set<string>, addressed: nat, requestId: Option<nat>,
                             approved: bool, always: bool, outcome: LoopOutcome): (Threads, set<string>, Effect) {
    var r := Resolve(threads, addressed, requestId);
    if r.Found? then
      FoundHolds(threads, addressed, requestId);
      var request := threads[r.thread].pendingApproval.value;
      (threads[r.thread := Answered(threads[r.thread], approved, outcome)],
       autoApproved + (if approved && always then {request.toolName} else {}),
       if approved then Ran(r.thread, request) else TurnedDown(r.thread))
    else (threads, autoApproved, Nothing)
  }

  // The request was waiting on its thread, is the one the answer names if it names one, and is answered
  // from its own thread if not.
  ghost predicate WasAskedFor(threads: Threads, addressed: nat, requestId: Option<nat>, id: nat,
                              request: PendingApproval) {
    && id in threads && threads[id].state == AwaitingApproval && threads[id].pendingApproval == Some(request)
    && (requestId.Some? ==> request.requestId == requestId.value)
    && (requestId.None? ==> id == addressed)
  }

  /**
   An answer runs a request only if it approves it, and turns one down only if it does not; in both cases
   the very request it names. It grants the tool exactly if it says so, and touches no other thread.
   */
  lemma AnswerMeansItsRequest(threads: Threads, autoApproved: set<string>, addressed: nat, requestId: Option<nat>,
                              approved: bool, always: bool, outcome: LoopOutcome)
    ensures var (after, granted, effect) :=
              AfterAnswer(threads, autoApproved, addressed, requestId, approved, always, outcome);
            match effect
            case Nothing => after == threads && granted == autoApproved
            case Ran(id, request) =>
              && approved && WasAskedFor(threads, addressed, requestId, id, request)
              && granted == (if always then autoApproved + {request.toolName} else autoApproved)
              && forall other :: other in threads && other != id ==> other in after && after[other] == threads[other]
            case TurnedDown(id) =>
              && !approved && granted == autoApproved
              && id in threads && threads[id].pendingApproval.Some?
              && WasAskedFor(threads, addressed, requestId, id, threads[id].pendingApproval.value)
              && id in after && after[id].state == Idle && after[id].pendingApproval.None?
              && after[id].turns == threads[id].turns
              && forall other :: other in threads && other != id ==> other in after && after[other] == threads[other]
  {
    hide Settled;
    if Resolve(threads, addressed, requestId).Found? { FoundHolds(threads, addressed, requestId); }
    assert autoApproved + {} == autoApproved;
  }

  /** A bare answer, without a request id, never reaches another thread than the addressed one. */
  lemma BareAnswerStaysHere(threads: Threads, addressed: nat)
    ensures Resolve(threads, addressed, None)
         == if addressed in threads && threads[addressed].state == AwaitingApproval
             && threads[addressed].pendingApproval.Some?
            then Found(addressed) else NotFound
  {
  }

  // No two waiting threads hold the same request.
  ghost predicate RequestsDiffer(threads: Threads) {
    forall a, b | a in threads && b in threads && a != b ::
      threads[a].state == AwaitingApproval && threads[b].state == AwaitingApproval
      && threads[a].pendingApproval.Some? && threads[b].pendingApproval.Some?
      ==> threads[a].pendingApproval.value.requestId != threads[b].pendingApproval.value.requestId
  }

  /**
   Where no two threads hold the same request, an answer with its id finds its one holder from
   anywhere, and is never ambiguous.
   */
  lemma AnswerFindsHolder(threads: Threads, addressed: nat, requestId: nat)
    requires RequestsDiffer(threads)
    ensures var r := Resolve(threads, addressed, Some(requestId));
            && !r.Ambiguous?
            && forall id :: r == Found(id) <==> id in threads && HoldsApproval(threads[id], Some(requestId))
  {
    var holders := Holders(threads, requestId);
    assert forall id :: id in holders <==> id in threads && HoldsApproval(threads[id], Some(requestId));
    if exists id :: id in holders {
      var id :| id in holders;
      forall other | other in holders ensures other == id {}
      assert holders == {id};
    }
  }
}
