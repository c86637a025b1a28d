/**
 The session manager: which thread a message goes to.

 Three maps have to agree: sessions by user, threads by key, and undo managers by thread. Thread ids
 are naturals; their canonical text and its parser come with the model, as does a fresh id for every
 step that may create a thread.
 */
module Routing {
  import opened Undo
  import opened Wrappers

  type User = string

  datatype Key = Key(user: User, channel: string, external: Option<string>)

  datatype SessionVal = SessionVal(threads: set<nat>, active: Option<nat>, lastActive: nat)

  datatype Routes = Routes(
    sessions: map<User, SessionVal>,
    threadMap: map<Key, nat>,
    managers: map<nat, Stacks>)

  const NO_ROUTES := Routes(map[], map[], map[])

  // Thread ids as text: one canonical form, and a parser that may accept others too.
  datatype IdText = IdText(canonical: nat -> string, parse: string -> Option<nat>)

  ghost predicate Lawful(ids: IdText) {
    forall id: nat :: ids.parse(ids.canonical(id)) == Some(id)
  }

  // ----- The operations on the three maps -----

  function WithSession(r: Routes, user: User, now: nat): Routes {
    if user in r.sessions then r else r.(sessions := r.sessions[user := SessionVal({}, None, now)])
  }

  function WithThread(r: Routes, user: User, thread: nat, now: nat): Routes
    requires user in r.sessions
  {
    var s := r.sessions[user];
    r.(sessions := r.sessions[user := SessionVal(s.threads + {thread}, Some(thread), now)])
  }

  function WithManager(r: Routes, thread: nat): Routes {
    if thread in r.managers then r else r.(managers := r.managers[thread := NEW_STACKS])
  }

  // A thread id from outside that no thread of the user has yet becomes one, routed by its canonical text.
  function Hydrated(ids: IdText, r: Routes, user: User, channel: string, external: string, now: nat): Routes {
    var id := ids.parse(external);
    if id.None? then r
    else
      var r := WithSession(r, user, now);
      if id.value in r.sessions[user].threads then r
      else
        var r := WithThread(r, user, id.value, now);
        var key := Key(user, channel, Some(ids.canonical(id.value)));
        WithManager(r.(threadMap := r.threadMap[key := id.value]), id.value)
  }

  predicate RoutedTo(r: Routes, key: Key) {
    key in r.threadMap && key.user in r.sessions && r.threadMap[key] in r.sessions[key.user].threads
  }

  function Resolved(r: Routes, key: Key, now: nat, newId: nat): (Routes, nat) {
    var r := WithSession(r, key.user, now);
    if RoutedTo(r, key) then (r, r.threadMap[key])
    else
      var r := WithThread(r, key.user, newId, now);
      (r.(threadMap := r.threadMap[key := newId], managers := r.managers[newId := NEW_STACKS]), newId)
  }

  // An incoming message is hydrated first, if it names a thread, and then resolved.
  function Delivered(ids: IdText, r: Routes, key: Key, now: nat, newId: nat): (Routes, nat) {
    var r := if key.external.Some? then Hydrated(ids, r, key.user, key.channel, key.external.value, now) else r;
    Resolved(r, key, now, newId)
  }

  // A session whose lock is taken is in use, and passed over.
  function StaleUsers(r: Routes, cutoff: nat, busy: set<User>): set<User> {
    set user | user in r.sessions && user !in busy && r.sessions[user].lastActive < cutoff
  }

  function ThreadsOf(r: Routes, users: set<User>): set<nat> {
    set user, id | user in users && user in r.sessions && id in r.sessions[user].threads :: id
  }

  // The threads of a stale session are looked up in a second try on its lock; where that fails, the
  // undo managers of its threads stay.
  function Pruned(r: Routes, cutoff: nat, busy: set<User>, busyLater: set<User>): Routes {
    var stale := StaleUsers(r, cutoff, busy);
    Routes(r.sessions - stale,
           map key | key in r.threadMap && key.user !in stale :: r.threadMap[key],
           r.managers - ThreadsOf(r, stale - busyLater))
  }

  datatype Move =
    | Deliver(key: Key, now: nat, newId: nat)
    | OpenThread(user: User, now: nat, newId: nat)
    | SwitchThread(user: User, thread: nat, now: nat)
    | AskManager(thread: nat)
    | Prune(cutoff: nat, busy: set<User>, busyLater: set<User>)

  function Step(ids: IdText, r: Routes, m: Move): Routes {
    match m
    case Deliver(key, now, newId) => Delivered(ids, r, key, now, newId).0
    case OpenThread(user, now, newId) => WithThread(WithSession(r, user, now), user, newId, now)
    case SwitchThread(user, thread, now) =>
      var r := WithSession(r, user, now);
      if thread in r.sessions[user].threads
      then r.(sessions := r.sessions[user := r.sessions[user].(active := Some(thread), lastActive := now)])
      else r
    case AskManager(thread) => WithManager(r, thread)
    case Prune(cutoff, busy, busyLater) => Pruned(r, cutoff, busy, busyLater)
  }

  function Run(ids: IdText, r: Routes, moves: seq<Move>): Routes
    decreases |moves|
  {
    if moves == [] then r else Run(ids, Step(ids, r, moves[0]), moves[1..])
  }

  // ----- The manager in place -----

  class SessionManager {
    var sessions: map<User, SessionVal>
    var threadMap: map<Key, nat>
    var managers: map<nat, Stacks>

    function View(): Routes reads this {
      Routes(sessions, threadMap, managers)
    }

    constructor ()
      ensures View() == NO_ROUTES
    {
      sessions, threadMap, managers := map[], map[], map[];
    }

    method GetOrCreateSession(user: User, now: nat)
      modifies this`sessions
      ensures View() == WithSession(old(View()), user, now)
    {
      if user !in sessions {
        sessions := sessions[user := SessionVal({}, None, now)];
      }
    }

    method CreateThread(user: User, now: nat, newId: nat)
      requires user in sessions
      modifies this`sessions
      ensures View() == WithThread(old(View()), user, newId, now)
    {
      var s := sessions[user];
      sessions := sessions[user := SessionVal(s.threads + {newId}, Some(newId), now)];
    }

    method MaybeHydrateThread(ids: IdText, user: User, channel: string, external: string, now: nat)
      modifies this
      ensures View() == Hydrated(ids, old(View()), user, channel, external, now)
    {
      var id := ids.parse(external);
      if id.None? {
        return;
      }
      GetOrCreateSession(user, now);
      if id.value in sessions[user].threads {
        return;
      }
      CreateThread(user, now, id.value);
      RegisterThread(ids, user, channel, id.value);
    }

    method RegisterThread(ids: IdText, user: User, channel: string, thread: nat)
      requires user in sessions
      modifies this`threadMap, this`managers
      ensures var key := Key(user, channel, Some(ids.canonical(thread)));
              View() == WithManager(old(View()).(threadMap := old(threadMap)[key := thread]), thread)
    {
      threadMap := threadMap[Key(user, channel, Some(ids.canonical(thread))) := thread];
      if thread !in managers {
        managers := managers[thread := NEW_STACKS];
      }
    }

    method ResolveThread(key: Key, now: nat, newId: nat) returns (thread: nat)
      modifies this
      ensures (View(), thread) == Resolved(old(View()), key, now, newId)
    {
      GetOrCreateSession(key.user, now);
      if key in threadMap {
        thread := threadMap[key];
        if thread in sessions[key.user].threads {
          return;
        }
      }
      CreateThread(key.user, now, newId);
      thread := newId;
      threadMap := threadMap[key := thread];
      managers := managers[thread := NEW_STACKS];
    }

    method Route(ids: IdText, key: Key, now: nat, newId: nat) returns (thread: nat)
      modifies this
      ensures (View(), thread) == Delivered(ids, old(View()), key, now, newId)
    {
      if key.external.Some? {
        MaybeHydrateThread(ids, key.user, key.channel, key.external.value, now);
      }
      thread := ResolveThread(key, now, newId);
    }

    method GetUndoManager(thread: nat) returns (stacks: Stacks)
      modifies this`managers
      ensures View() == WithManager(old(View()), thread) && stacks == managers[thread]
    {
      if thread !in managers {
        managers := managers[thread := NEW_STACKS];
      }
      stacks := managers[thread];
    }

    method FindStale(cutoff: nat, busy: set<User>) returns (stale: set<User>)
      ensures stale == StaleUsers(View(), cutoff, busy)
    {
      stale := {};
      var users := sessions.Keys;
      while users != {}
        invariant users <= sessions.Keys
        invariant stale == StaleUsers(View(), cutoff, busy) - users
        decreases |users|
      {
        var user :| user in users;
        if user !in busy && sessions[user].lastActive < cutoff {
          stale := stale + {user};
        }
        users := users - {user};
      }
      assert StaleUsers(View(), cutoff, busy) - users == StaleUsers(View(), cutoff, busy);
    }

    method CollectThreads(stale: set<User>, busy: set<User>) returns (threads: set<nat>)
      ensures threads == ThreadsOf(View(), stale - busy)
    {
      threads := {};
      var users := stale;
      while users != {}
        invariant users <= stale
        invariant threads == ThreadsOf(View(), stale - busy - users)
        decreases |users|
      {
        var user :| user in users;
        if user in sessions && user !in busy {
          threads := threads + sessions[user].threads;
        }
        users := users - {user};
      }
      assert stale - busy - users == stale - busy;
    }

    method PruneStaleSessions(cutoff: nat, busy: set<User>, busyLater: set<User>) returns (count: nat)
      modifies this
      ensures View() == Pruned(old(View()), cutoff, busy, busyLater)
      ensures count == |StaleUsers(old(View()), cutoff, busy)|
    {
      var stale := FindStale(cutoff, busy);
      var threads := CollectThreads(stale, busyLater);
      sessions := sessions - stale;
      threadMap := map key | key in threadMap && key.user !in stale :: threadMap[key];
      managers := managers - threads;
      count := |stale|;
    }
  }
}
