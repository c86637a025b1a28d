/**
 Message routing over whole runs of the session manager, one operation at a time.
 */
module RoutingRuns {
  import opened Routing
  import opened Wrappers

  // The thread a key names from outside, if it names one.
  function Named(ids: IdText, key: Key): Option<nat> {
    if key.external.Some? then ids.parse(key.external.value) else None
  }

  // No thread, no undo manager and no incoming text has the new id.
  ghost predicate IsNew(ids: IdText, r: Routes, m: Move) {
    m.Deliver? || m.OpenThread? ==>
      && (forall user :: user in r.sessions ==> m.newId !in r.sessions[user].threads)
      && m.newId !in r.managers
      && (m.Deliver? ==> Named(ids, m.key) != Some(m.newId))
  }

  ghost predicate AllNew(ids: IdText, r: Routes, moves: seq<Move>)
    decreases |moves|
  {
    moves == [] || (IsNew(ids, r, moves[0]) && AllNew(ids, Step(ids, r, moves[0]), moves[1..]))
  }

  // ----- What every operation keeps -----

  // Every route leads to a thread of its user's session.
  ghost predicate RoutesAreLive(r: Routes) {
    forall key :: key in r.threadMap ==> RoutedTo(r, key)
  }

  // Different keys of one user lead to different threads.
  ghost predicate RoutesAreDistinct(r: Routes) {
    forall a, b :: a in r.threadMap && b in r.threadMap && a != b && a.user == b.user ==>
        r.threadMap[a] != r.threadMap[b]
  }

  // A routed key that names a thread names one of the session, though not always the one it leads to.
  ghost predicate NamesAreKnown(ids: IdText, r: Routes) {
    forall key :: key in r.threadMap && Named(ids, key).Some? && key.user in r.sessions ==>
      Named(ids, key).value in r.sessions[key.user].threads
  }

  ghost predicate Sound(ids: IdText, r: Routes) {
    RoutesAreLive(r) && RoutesAreDistinct(r) && NamesAreKnown(ids, r)
  }

  lemma SessionKeepsSound(ids: IdText, r: Routes, user: User, now: nat)
    requires Sound(ids, r)
    ensures Sound(ids, WithSession(r, user, now))
  {
    var after := WithSession(r, user, now);
    forall key | key in after.threadMap ensures RoutedTo(after, key) {
      assert RoutedTo(r, key);
    }
  }

  // A thread that is new to the user's session, and a route to it under a key that it is named by or
  // that names a known thread.
  lemma NewRouteKeepsSound(ids: IdText, r: Routes, key: Key, thread: nat, now: nat)
    requires Sound(ids, r) && key.user in r.sessions && thread !in r.sessions[key.user].threads
    requires Named(ids, key).Some? ==>
               Named(ids, key).value == thread || Named(ids, key).value in r.sessions[key.user].threads
    ensures var after := WithThread(r, key.user, thread, now);
            Sound(ids, after.(threadMap := after.threadMap[key := thread]))
  {
    var grown := WithThread(r, key.user, thread, now);
    var after := grown.(threadMap := grown.threadMap[key := thread]);
    forall k | k in r.threadMap ensures RoutedTo(r, k) && (k.user == key.user ==> r.threadMap[k] != thread) {
      assert RoutedTo(r, k);
    }
    forall k | k in after.threadMap ensures RoutedTo(after, k) {}
  }

  lemma HydrateKeepsSound(ids: IdText, r: Routes, user: User, channel: string, external: string, now: nat)
    requires Lawful(ids) && Sound(ids, r)
    ensures var after := Hydrated(ids, r, user, channel, external, now);
            && Sound(ids, after)
            && (ids.parse(external).Some? ==>
                  user in after.sessions && ids.parse(external).value in after.sessions[user].threads)
  {
    hide Sound;
    var id := ids.parse(external);
    if id.Some? {
      SessionKeepsSound(ids, r, user, now);
      var r1 := WithSession(r, user, now);
      if id.value !in r1.sessions[user].threads {
        var key := Key(user, channel, Some(ids.canonical(id.value)));
        NewRouteKeepsSound(ids, r1, key, id.value, now);
        var r2 := WithThread(r1, user, id.value, now);
        ManagerIsNoRoute(ids, r2.(threadMap := r2.threadMap[key := id.value]),
            Hydrated(ids, r, user, channel, external, now));
      }
    }
  }

  lemma ManagerIsNoRoute(ids: IdText, a: Routes, b: Routes)
    requires a.sessions == b.sessions && a.threadMap == b.threadMap && Sound(ids, a)
    ensures Sound(ids, b)
  {
    forall key | key in b.threadMap ensures RoutedTo(b, key) {
      assert RoutedTo(a, key);
    }
  }

  lemma ResolveKeepsSound(ids: IdText, r: Routes, key: Key, now: nat, newId: nat)
    requires Sound(ids, r) && (key.user in r.sessions ==> newId !in r.sessions[key.user].threads)
    requires Named(ids, key).Some? ==> key.user in r.sessions && Named(ids, key).value in r.sessions[key.user].threads
    ensures var (after, thread) := Resolved(r, key, now, newId);
            Sound(ids, after) && RoutedTo(after, key) && after.threadMap[key] == thread
  {
    hide Sound;
    SessionKeepsSound(ids, r, key.user, now);
    var r1 := WithSession(r, key.user, now);
    if !RoutedTo(r1, key) {
      NewRouteKeepsSound(ids, r1, key, newId, now);
      var r2 := WithThread(r1, key.user, newId, now);
      ManagerIsNoRoute(ids, r2.(threadMap := r2.threadMap[key := newId]), Resolved(r, key, now, newId).0);
    }
  }

  lemma DeliverKeepsSound(ids: IdText, r: Routes, key: Key, now: nat, newId: nat)
    requires Lawful(ids) && Sound(ids, r) && IsNew(ids, r, Deliver(key, now, newId))
    ensures var (after, thread) := Delivered(ids, r, key, now, newId);
            Sound(ids, after) && RoutedTo(after, key) && after.threadMap[key] == thread
  {
    if key.external.Some? {
      HydrateKeepsSound(ids, r, key.user, key.channel, key.external.value, now);
      var hydrated := Hydrated(ids, r, key.user, key.channel, key.external.value, now);
      assert key.user in hydrated.sessions ==> newId !in hydrated.sessions[key.user].threads;
      hide Sound;
      ResolveKeepsSound(ids, hydrated, key, now, newId);
    } else {
      ResolveKeepsSound(ids, r, key, now, newId);
    }
  }

  lemma PruneKeepsSound(ids: IdText, r: Routes, cutoff: nat, busy: set<User>, busyLater: set<User>)
    requires Sound(ids, r)
    ensures Sound(ids, Pruned(r, cutoff, busy, busyLater))
  {
    var after := Pruned(r, cutoff, busy, busyLater);
    forall key | key in after.threadMap ensures RoutedTo(after, key) {
      assert RoutedTo(r, key);
    }
  }

  lemma ThreadKeepsSound(ids: IdText, r: Routes, after: Routes)
    requires Sound(ids, r) && after.threadMap == r.threadMap
    requires forall user :: user in r.sessions ==>
               user in after.sessions && r.sessions[user].threads <= after.sessions[user].threads
    ensures Sound(ids, after)
  {
    forall key | key in after.threadMap ensures RoutedTo(after, key) {
      assert RoutedTo(r, key);
    }
  }

  lemma StepKeepsSound(ids: IdText, r: Routes, m: Move)
    requires Lawful(ids) && Sound(ids, r) && IsNew(ids, r, m)
    ensures Sound(ids, Step(ids, r, m))
  {
    hide Sound, Lawful, Delivered, Pruned;
    match m
    case Deliver(key, now, newId) => DeliverKeepsSound(ids, r, key, now, newId);
    case Prune(cutoff, busy, busyLater) => PruneKeepsSound(ids, r, cutoff, busy, busyLater);
    case OpenThread(_, _, _) => ThreadKeepsSound(ids, r, Step(ids, r, m));
    case SwitchThread(_, _, _) => ThreadKeepsSound(ids, r, Step(ids, r, m));
    case AskManager(_) => ThreadKeepsSound(ids, r, Step(ids, r, m));
  }

  lemma {:induction false} RunKeepsSound(ids: IdText, r: Routes, moves: seq<Move>)
    requires Lawful(ids) && Sound(ids, r) && AllNew(ids, r, moves)
    ensures Sound(ids, Run(ids, r, moves))
    decreases |moves|
  {
    hide Sound, Step, IsNew, Lawful;
    if moves != [] {
      StepKeepsSound(ids, r, moves[0]);
      RunKeepsSound(ids, Step(ids, r, moves[0]), moves[1..]);
    }
  }

  /**
   In every run, each route leads to a live thread of its user's session, and no two keys of one user
   share a thread.
   */
  lemma RoutesStaySound(ids: IdText, moves: seq<Move>)
    requires Lawful(ids) && AllNew(ids, NO_ROUTES, moves)
    ensures var r := Run(ids, NO_ROUTES, moves);
      && (forall key :: key in r.threadMap ==>
            key.user in r.sessions && r.threadMap[key] in r.sessions[key.user].threads)
      && (forall a, b :: a in r.threadMap && b in r.threadMap && a != b && a.user == b.user ==>
               r.threadMap[a] != r.threadMap[b])
  {
    RunKeepsSound(ids, NO_ROUTES, moves);
    var r := Run(ids, NO_ROUTES, moves);
    forall key | key in r.threadMap ensures RoutedTo(r, key) {}
  }

  // ----- Routes are stable -----

  /** A message under a known key goes to its thread and changes nothing, not even the session's time of activity. */
  lemma KnownKeyChangesNothing(ids: IdText, r: Routes, key: Key, now: nat, newId: nat)
    requires Sound(ids, r) && key in r.threadMap
    ensures Delivered(ids, r, key, now, newId) == (r, r.threadMap[key])
  {
    assert RoutedTo(r, key);
  }

  ghost predicate Keeps(r: Routes, after: Routes, key: Key) {
    key in r.threadMap && key in after.threadMap && after.threadMap[key] == r.threadMap[key]
  }

  lemma HydrateKeepsRoutes(ids: IdText, r: Routes, key: Key, user: User, channel: string, external: string, now: nat)
    requires Lawful(ids) && Sound(ids, r) && key in r.threadMap
    ensures var after := Hydrated(ids, r, user, channel, external, now);
            && Keeps(r, after, key)
            && (forall u :: u in r.sessions ==>
                  u in after.sessions && r.sessions[u].threads <= after.sessions[u].threads)
  {
    assert RoutedTo(r, key);
    var id := ids.parse(external);
    if id.Some? {
      assert ids.parse(ids.canonical(id.value)) == id;
    }
  }

  lemma ResolveKeepsRoutes(r: Routes, key: Key, other: Key, now: nat, newId: nat)
    requires RoutedTo(r, key)
    ensures Keeps(r, Resolved(r, other, now, newId).0, key)
  {
  }

  lemma DeliverKeepsRoutes(ids: IdText, r: Routes, key: Key, other: Key, now: nat, newId: nat)
    requires Lawful(ids) && Sound(ids, r) && key in r.threadMap
    ensures Keeps(r, Delivered(ids, r, other, now, newId).0, key)
  {
    assert RoutedTo(r, key);
    hide Sound, Lawful, Hydrated, Resolved;
    if other.external.Some? {
      HydrateKeepsRoutes(ids, r, key, other.user, other.channel, other.external.value, now);
      var hydrated := Hydrated(ids, r, other.user, other.channel, other.external.value, now);
      ResolveKeepsRoutes(hydrated, key, other, now, newId);
    } else {
      ResolveKeepsRoutes(r, key, other, now, newId);
    }
  }

  lemma StepKeepsRoutes(ids: IdText, r: Routes, m: Move, key: Key)
    requires Lawful(ids) && Sound(ids, r) && IsNew(ids, r, m) && key in r.threadMap
    requires m.Prune? ==> key.user !in StaleUsers(r, m.cutoff, m.busy)
    ensures Keeps(r, Step(ids, r, m), key)
  {
    if m.Deliver? {
      DeliverKeepsRoutes(ids, r, key, m.key, m.now, m.newId);
    }
  }

  // The user's session is never stale when sessions are pruned.
  ghost predicate NeverPruned(ids: IdText, r: Routes, moves: seq<Move>, user: User)
    decreases |moves|
  {
    moves == []
    || ((moves[0].Prune? ==> user !in StaleUsers(r, moves[0].cutoff, moves[0].busy))
        && NeverPruned(ids, Step(ids, r, moves[0]), moves[1..], user))
  }

  lemma {:induction false} RunKeepsRoutes(ids: IdText, r: Routes, moves: seq<Move>, key: Key)
    requires Lawful(ids) && Sound(ids, r) && AllNew(ids, r, moves) && key in r.threadMap
             && NeverPruned(ids, r, moves, key.user)
    ensures Keeps(r, Run(ids, r, moves), key) && Sound(ids, Run(ids, r, moves))
    decreases |moves|
  {
    hide Sound, Step, IsNew, Lawful;
    if moves != [] {
      StepKeepsSound(ids, r, moves[0]);
      StepKeepsRoutes(ids, r, moves[0], key);
      RunKeepsRoutes(ids, Step(ids, r, moves[0]), moves[1..], key);
    }
  }

  /** A key that was resolved once resolves to the same thread ever after, until its user is pruned. */
  lemma ResolvingAgainIsStable(ids: IdText, before: seq<Move>, key: Key, now: nat, newId: nat, after: seq<Move>,
                               later: nat, laterId: nat)
    requires Lawful(ids) && AllNew(ids, NO_ROUTES, before)
    requires var r := Run(ids, NO_ROUTES, before);
             IsNew(ids, r, Deliver(key, now, newId))
             && AllNew(ids, Delivered(ids, r, key, now, newId).0, after)
             && NeverPruned(ids, Delivered(ids, r, key, now, newId).0, after, key.user)
    ensures var r := Run(ids, NO_ROUTES, before);
            var (first, thread) := Delivered(ids, r, key, now, newId);
            Delivered(ids, Run(ids, first, after), key, later, laterId) == (Run(ids, first, after), thread)
  {
    hide IsNew, Step, Delivered, Lawful;
    var r := Run(ids, NO_ROUTES, before);
    RunKeepsSound(ids, NO_ROUTES, before);
    DeliverKeepsSound(ids, r, key, now, newId);
    var first := Delivered(ids, r, key, now, newId).0;
    RunKeepsRoutes(ids, first, after, key);
    KnownKeyChangesNothing(ids, Run(ids, first, after), key, later, laterId);
  }

  /** Pruning takes away the sessions and routes of the stale users, all of them, and nothing of any other user. */
  lemma PruningIsLocal(ids: IdText, r: Routes, cutoff: nat, busy: set<User>, busyLater: set<User>, key: Key)
    requires Sound(ids, r)
    ensures var after := Pruned(r, cutoff, busy, busyLater);
      && (key.user in after.sessions <==>
            key.user in r.sessions && (key.user in busy || r.sessions[key.user].lastActive >= cutoff))
      && (key.user in after.sessions ==> after.sessions[key.user] == r.sessions[key.user])
      && (key in after.threadMap <==> key in r.threadMap && key.user in after.sessions)
      && (key in after.threadMap ==> after.threadMap[key] == r.threadMap[key])
  {
    if key in r.threadMap {
      assert RoutedTo(r, key);
    }
  }

  /** A message counts as activity exactly when it makes a thread: when its key is new, and not otherwise. */
  lemma ActivityIsNewThread(ids: IdText, r: Routes, key: Key, now: nat, newId: nat)
    requires Lawful(ids) && Sound(ids, r) && IsNew(ids, r, Deliver(key, now, newId))
    ensures var after := Delivered(ids, r, key, now, newId).0;
      && key.user in after.sessions
      && (key !in r.threadMap ==> after.sessions[key.user].lastActive == now)
      && (key in r.threadMap ==> key.user in r.sessions && after.sessions[key.user] == r.sessions[key.user])
  {
    if key in r.threadMap {
      assert RoutedTo(r, key);
      KnownKeyChangesNothing(ids, r, key, now, newId);
    } else if key.external.Some? {
      HydratedActivity(ids, r, key, now);
    }
  }

  // Hydrating routes at most the canonical key of the named thread, and then at the time of the message.
  lemma HydratedActivity(ids: IdText, r: Routes, key: Key, now: nat)
    requires key.external.Some? && key !in r.threadMap
    ensures var after := Hydrated(ids, r, key.user, key.channel, key.external.value, now);
            key in after.threadMap ==> key.user in after.sessions && after.sessions[key.user].lastActive == now
  {
  }

  /**
   So a session can be pruned right after a message: with a cutoff no later than that message, if its
   last new thread is older than the cutoff.
   */
  lemma SessionInUseIsPruned(ids: IdText, user: User, channel: string, late: nat, newId: nat, otherId: nat)
    requires newId != otherId && late >= 1
    ensures var key := Key(user, channel, None);
            var moves := [Deliver(key, 0, newId), Deliver(key, late, otherId), Prune(late, {}, {})];
            AllNew(ids, NO_ROUTES, moves) && user !in Run(ids, NO_ROUTES, moves).sessions
  {
    var key := Key(user, channel, None);
    var (a, b, c) := (Deliver(key, 0, newId), Deliver(key, late, otherId), Prune(late, {}, {}));
    var r1 := Step(ids, NO_ROUTES, a);
    assert r1 == Routes(map[user := SessionVal({} + {newId}, Some(newId), 0)], map[key := newId], r1.managers);
    assert Step(ids, r1, b) == r1;
    var r3 := Step(ids, r1, c);
    assert [a, b, c][1..] == [b, c] && [b, c][1..] == [c] && [c][1..] == [];
    assert Run(ids, r1, [b, c]) == Run(ids, r1, [c]) == Run(ids, r3, []);
    assert AllNew(ids, r1, [b, c]) by { assert AllNew(ids, r1, [c]) by { assert AllNew(ids, r3, []); } }
  }

  // A user whose session is pruned, and whose threads could be looked up.
  ghost predicate LosesManagers(r: Routes, user: User, cutoff: nat, busy: set<User>, busyLater: set<User>) {
    && user in r.sessions && r.sessions[user].lastActive < cutoff && user !in busy && user !in busyLater
  }

  /**
   Pruning takes exactly the undo managers of the threads that the pruned users own, as far as they could
   be looked up; every other one stays as it was.
   */
  lemma PruneTakesManagersExactly(r: Routes, cutoff: nat, busy: set<User>, busyLater: set<User>, thread: nat)
    ensures var after := Pruned(r, cutoff, busy, busyLater);
      && (thread in after.managers <==>
            thread in r.managers
            && forall user :: LosesManagers(r, user, cutoff, busy, busyLater) ==> thread !in r.sessions[user].threads)
      && (thread in after.managers ==> after.managers[thread] == r.managers[thread])
  {
    var stale := StaleUsers(r, cutoff, busy);
    if user :| LosesManagers(r, user, cutoff, busy, busyLater) && thread in r.sessions[user].threads {
      assert user in stale - busyLater;
    }
  }

  /** A thread that a message makes gets a new undo manager; one it is routed to already keeps what it has. */
  lemma NewThreadHasManager(ids: IdText, r: Routes, key: Key, now: nat, newId: nat)
    requires Lawful(ids) && Sound(ids, r) && IsNew(ids, r, Deliver(key, now, newId)) && key !in r.threadMap
    ensures var (after, thread) := Delivered(ids, r, key, now, newId);
      && thread in after.managers && key.user in after.sessions && after.sessions[key.user].active == Some(thread)
      && (thread !in r.managers ==> after.managers[thread].undo == [] && after.managers[thread].redo == [])
      && (thread in r.managers ==> after.managers[thread] == r.managers[thread])
  {
  }

  /**
   Switching to a thread of the session makes it the active one and counts as activity; it changes no route
   and no thread. Switching to any other thread changes nothing.
   */
  lemma SwitchKeepsRoutes(ids: IdText, r: Routes, user: User, thread: nat, now: nat)
    requires user in r.sessions
    ensures var after := Step(ids, r, SwitchThread(user, thread, now));
      && after.threadMap == r.threadMap && after.managers == r.managers && after.sessions.Keys == r.sessions.Keys
      && (forall u :: u in r.sessions ==> after.sessions[u].threads == r.sessions[u].threads)
      && (forall u :: u in r.sessions && u != user ==> after.sessions[u] == r.sessions[u])
      && if thread in r.sessions[user].threads
         then after.sessions[user].active == Some(thread) && after.sessions[user].lastActive == now
         else after == r
  {
  }

  /** A thread a user asks for is added to the session and becomes its active one; routes and managers stay. */
  lemma OpenAddsThread(ids: IdText, r: Routes, user: User, now: nat, newId: nat)
    ensures var after := Step(ids, r, OpenThread(user, now, newId));
            var before := if user in r.sessions then r.sessions[user].threads else {};
      && after.threadMap == r.threadMap && after.managers == r.managers
      && after.sessions.Keys == r.sessions.Keys + {user}
      && after.sessions[user].threads == before + {newId}
      && after.sessions[user].active == Some(newId) && after.sessions[user].lastActive == now
      && forall u :: u in r.sessions && u != user ==> after.sessions[u] == r.sessions[u]
  {
  }

  /** Only pruning ever takes an undo manager away or puts another in its place. */
  lemma ManagersAreKept(ids: IdText, r: Routes, m: Move, thread: nat)
    requires Lawful(ids) && IsNew(ids, r, m) && thread in r.managers && !m.Prune?
    ensures thread in Step(ids, r, m).managers && Step(ids, r, m).managers[thread] == r.managers[thread]
  {
  }

  // ----- Threads named from outside -----

  /**
   A message that names a thread by its canonical id goes to that very thread exactly when its key
   already leads there or the user has no such thread yet; otherwise it goes to a thread of its own.
   */
  lemma NamedThreadIsReached(ids: IdText, r: Routes, user: User, channel: string, id: nat, now: nat, newId: nat)
    requires Lawful(ids) && Sound(ids, r)
    requires IsNew(ids, r, Deliver(Key(user, channel, Some(ids.canonical(id))), now, newId))
    ensures var key := Key(user, channel, Some(ids.canonical(id)));
            Delivered(ids, r, key, now, newId).1 == id
            <==> ((key in r.threadMap && r.threadMap[key] == id) || user !in r.sessions
                  || id !in r.sessions[user].threads)
  {
    var key := Key(user, channel, Some(ids.canonical(id)));
    assert ids.parse(ids.canonical(id)) == Some(id);
    if key in r.threadMap {
      assert RoutedTo(r, key);
      KnownKeyChangesNothing(ids, r, key, now, newId);
    }
  }

  /** It does go elsewhere: sent again from another channel, a message that names the thread gets a new one. */
  lemma NamedThreadIsMissed(ids: IdText, user: User, channel: string, other: string, id: nat, newId: nat, otherId: nat)
    requires Lawful(ids) && channel != other && newId != id && otherId != id
    ensures var text := Some(ids.canonical(id));
            var first := Deliver(Key(user, channel, text), 0, newId);
            var r := Run(ids, NO_ROUTES, [first]);
            && AllNew(ids, NO_ROUTES, [first]) && Delivered(ids, NO_ROUTES, first.key, 0, newId).1 == id
            && IsNew(ids, r, Deliver(Key(user, other, text), 0, otherId))
            && Delivered(ids, r, Key(user, other, text), 0, otherId).1 == otherId
  {
    var text := Some(ids.canonical(id));
    var key := Key(user, channel, text);
    var first := Deliver(key, 0, newId);
    assert ids.parse(ids.canonical(id)) == Some(id);
    assert [first][1..] == [];
    var r := Step(ids, NO_ROUTES, first);
    assert Run(ids, r, []) == r && AllNew(ids, r, []);
    assert r.sessions[user].threads == {} + {id} && r.managers.Keys == {id};
    assert Key(user, other, text) !in r.threadMap;
  }
}
