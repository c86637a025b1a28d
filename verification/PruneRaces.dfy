/**
 Pruning while a message is delivered: both go through several lock regions, interleaved in any way.

 A session that was pruned lives on for the delivery that already holds it, so sessions are told apart
 from their users here: session s is the s-th one created, with its threads.
 */
module PruneRaces {
  import opened Routing
  import opened Wrappers

  // Where the delivery of a message stands. Hydration holds the named id, and both parts the session.
  datatype Delivery =
    | Resting
    | Named(key: Key, id: nat)
    | Checking(key: Key, id: nat, s: nat)
    | Adding(key: Key, id: nat, s: nat)
    | Registering(key: Key, id: nat, s: nat)
    | Tracking(key: Key, id: nat, s: nat)
    | Unresolved(key: Key)
    | LookingUp(key: Key, s: nat)
    | Creating(key: Key, s: nat)
    | Storing(key: Key, s: nat, thread: nat)

  // Where pruning stands: it has found stale users, or taken their sessions away already.
  datatype Pruning = Quiet | Scanned(stale: set<User>) | SessionsGone(stale: set<User>)

  // The session and the thread that a message was handed to.
  datatype Answer = Answer(key: Key, s: nat, thread: nat)

  datatype Shared = Shared(
    sessions: map<User, nat>,
    threads: seq<set<nat>>,
    threadMap: map<Key, nat>,
    delivery: Delivery,
    pruning: Pruning,
    answers: seq<Answer>)

  const NOTHING_SHARED := Shared(map[], [], map[], Resting, Quiet, [])

  // One lock region. Which users are stale, and the id of a new thread, come with the region.
  datatype Region =
    | Receive(key: Key)
    | Proceed(newId: nat)
    | Scan(stale: set<User>)
    | RemoveSessions
    | RemoveRoutes

  // The user's session, made if there is none.
  function WithSession(r: Shared, user: User): (Shared, nat) {
    if user in r.sessions then (r, r.sessions[user])
    else (r.(sessions := r.sessions[user := |r.threads|], threads := r.threads + [{}]), |r.threads|)
  }

  function WithThread(r: Shared, s: nat, thread: nat): Shared {
    if s < |r.threads| then r.(threads := r.threads[s := r.threads[s] + {thread}]) else r
  }

  predicate Holds(r: Shared, s: nat, thread: nat) {
    s < |r.threads| && thread in r.threads[s]
  }

  function Delivered(ids: IdText, r: Shared, newId: nat): Shared {
    match r.delivery
    case Resting => r
    case Named(key, id) =>
      var (r, s) := WithSession(r, key.user);
      r.(delivery := Checking(key, id, s))
    case Checking(key, id, s) => r.(delivery := if Holds(r, s, id) then Unresolved(key) else Adding(key, id, s))
    case Adding(key, id, s) => WithThread(r, s, id).(delivery := Registering(key, id, s))
    case Registering(key, id, s) =>
      r.(threadMap := r.threadMap[Key(key.user, key.channel, Some(ids.canonical(id))) := id],
         delivery := Tracking(key, id, s))
    case Tracking(key, id, s) =>
      r.(sessions := if key.user in r.sessions then r.sessions else r.sessions[key.user := s],
         delivery := Unresolved(key))
    case Unresolved(key) =>
      var (r, s) := WithSession(r, key.user);
      r.(delivery := LookingUp(key, s))
    case LookingUp(key, s) =>
      if key in r.threadMap && Holds(r, s, r.threadMap[key])
      then r.(delivery := Resting, answers := r.answers + [Answer(key, s, r.threadMap[key])])
      else r.(delivery := Creating(key, s))
    case Creating(key, s) => WithThread(r, s, newId).(delivery := Storing(key, s, newId))
    case Storing(key, s, thread) =>
      r.(threadMap := r.threadMap[key := thread], delivery := Resting, answers := r.answers + [Answer(key, s, thread)])
  }

  function Received(ids: IdText, key: Key): Delivery {
    var id := if key.external.Some? then ids.parse(key.external.value) else None;
    if id.Some? then Named(key, id.value) else Unresolved(key)
  }

  function Step(ids: IdText, r: Shared, region: Region): Shared {
    match region
    case Receive(key) => if r.delivery.Resting? then r.(delivery := Received(ids, key)) else r
    case Proceed(newId) => Delivered(ids, r, newId)
    case Scan(stale) => if r.pruning.Quiet? then r.(pruning := Scanned(stale * r.sessions.Keys)) else r
    case RemoveSessions =>
      if r.pruning.Scanned?
      then r.(sessions := r.sessions - r.pruning.stale, pruning := SessionsGone(r.pruning.stale)) else r
    case RemoveRoutes =>
      if r.pruning.SessionsGone?
      then r.(threadMap := map key | key in r.threadMap && key.user !in r.pruning.stale :: r.threadMap[key],
              pruning := Quiet)
      else r
  }

  function Run(ids: IdText, r: Shared, regions: seq<Region>): Shared
    decreases |regions|
  {
    if regions == [] then r else Run(ids, Step(ids, r, regions[0]), regions[1..])
  }

  // ----- A message is never handed to a thread that its session lacks -----

  ghost predicate HasSession(d: Delivery) {
    !d.Resting? && !d.Named? && !d.Unresolved?
  }

  ghost predicate Sound(r: Shared) {
    && (forall user :: user in r.sessions ==> r.sessions[user] < |r.threads|)
    && (HasSession(r.delivery) ==> r.delivery.s < |r.threads|)
    && (r.delivery.Storing? ==> Holds(r, r.delivery.s, r.delivery.thread))
    && (r.delivery.Registering? || r.delivery.Tracking? ==> Holds(r, r.delivery.s, r.delivery.id))
    && (forall a :: a in r.answers ==> Holds(r, a.s, a.thread))
  }

  // More sessions and more threads.
  ghost predicate Grows(r: Shared, after: Shared) {
    |r.threads| <= |after.threads| && forall s :: 0 <= s < |r.threads| ==> r.threads[s] <= after.threads[s]
  }

  lemma SessionIsMade(r: Shared, user: User)
    requires forall u :: u in r.sessions ==> r.sessions[u] < |r.threads|
    ensures var (after, s) := WithSession(r, user);
      && Grows(r, after) && user in after.sessions && after.sessions[user] == s
      && (forall u :: u in after.sessions ==> after.sessions[u] < |after.threads|)
      && (forall u :: u in r.sessions ==> u in after.sessions && after.sessions[u] == r.sessions[u])
      && after == r.(sessions := after.sessions, threads := after.threads)
  {
  }

  lemma ThreadIsMade(r: Shared, s: nat, thread: nat)
    requires s < |r.threads|
    ensures var after := WithThread(r, s, thread);
      && Grows(r, after) && |after.threads| == |r.threads| && Holds(after, s, thread)
      && after == r.(threads := after.threads)
  {
  }

  lemma AnswersStay(r: Shared, after: Shared)
    requires Grows(r, after) && forall a :: a in r.answers ==> Holds(r, a.s, a.thread)
    requires forall a :: a in after.answers ==> a in r.answers || Holds(after, a.s, a.thread)
    ensures forall a :: a in after.answers ==> Holds(after, a.s, a.thread)
  {
  }

  lemma GettingKeepsSound(ids: IdText, r: Shared, newId: nat)
    requires Sound(r) && (r.delivery.Named? || r.delivery.Unresolved?)
    ensures Sound(Delivered(ids, r, newId)) && Grows(r, Delivered(ids, r, newId))
  {
    SessionIsMade(r, r.delivery.key.user);
    hide WithSession, WithThread;
    AnswersStay(r, Delivered(ids, r, newId));
  }

  lemma MakingKeepsSound(ids: IdText, r: Shared, newId: nat)
    requires Sound(r) && (r.delivery.Adding? || r.delivery.Creating?)
    ensures Sound(Delivered(ids, r, newId)) && Grows(r, Delivered(ids, r, newId))
  {
    ThreadIsMade(r, r.delivery.s, if r.delivery.Adding? then r.delivery.id else newId);
    hide WithSession, WithThread;
    AnswersStay(r, Delivered(ids, r, newId));
  }

  lemma DeliveryKeepsSound(ids: IdText, r: Shared, newId: nat)
    requires Sound(r)
    ensures Sound(Delivered(ids, r, newId)) && Grows(r, Delivered(ids, r, newId))
  {
    if r.delivery.Named? || r.delivery.Unresolved? {
      GettingKeepsSound(ids, r, newId);
      hide Delivered, Sound, Grows;
    } else if r.delivery.Adding? || r.delivery.Creating? {
      MakingKeepsSound(ids, r, newId);
      hide Delivered, Sound, Grows;
    } else {
      hide WithSession, WithThread;
      AnswersStay(r, Delivered(ids, r, newId));
    }
  }

  lemma StepKeepsSound(ids: IdText, r: Shared, region: Region)
    requires Sound(r)
    ensures Sound(Step(ids, r, region)) && Grows(r, Step(ids, r, region))
  {
    if region.Proceed? { DeliveryKeepsSound(ids, r, region.newId); }
    hide Delivered;
  }

  lemma {:induction false} RunKeepsSound(ids: IdText, r: Shared, regions: seq<Region>)
    requires Sound(r)
    ensures Sound(Run(ids, r, regions))
    decreases |regions|
  {
    hide Step, Sound;
    if regions != [] {
      StepKeepsSound(ids, r, regions[0]);
      RunKeepsSound(ids, Step(ids, r, regions[0]), regions[1..]);
    }
  }

  /**
   However pruning interleaves with deliveries, every message is handed to a thread of the session it
   was given: a route that dangles is replaced before it is used.
   */
  lemma AnswersAreLive(ids: IdText, regions: seq<Region>)
    ensures var r := Run(ids, NOTHING_SHARED, regions);
            forall a :: a in r.answers ==> a.s < |r.threads| && a.thread in r.threads[a.s]
  {
    RunKeepsSound(ids, NOTHING_SHARED, regions);
    forall a | a in Run(ids, NOTHING_SHARED, regions).answers
      ensures Holds(Run(ids, NOTHING_SHARED, regions), a.s, a.thread) {}
  }

  // ----- Which routes dangle -----

  ghost predicate RouteLives(r: Shared, key: Key)
    requires key in r.threadMap
  {
    key.user in r.sessions && Holds(r, r.sessions[key.user], r.threadMap[key])
  }

  // Users whose sessions are gone and whose routes are about to go.
  function Leaving(p: Pruning): set<User> {
    if p.SessionsGone? then p.stale else {}
  }

  // Does pruning take the session away that a delivery holds?
  predicate TakesHeldSession(r: Shared, region: Region) {
    region.RemoveSessions? && r.pruning.Scanned?
    && !r.delivery.Resting? && !r.delivery.Named? && !r.delivery.Unresolved? && r.delivery.key.user in r.pruning.stale
  }

  // Apart from routes about to go, all are live, and the delivery holds its user's session.
  ghost predicate Lively(r: Shared) {
    && Sound(r)
    && (HasSession(r.delivery) ==>
          r.delivery.key.user in r.sessions && r.sessions[r.delivery.key.user] == r.delivery.s)
    && (forall key :: key in r.threadMap ==> RouteLives(r, key) || key.user in Leaving(r.pruning))
  }

  // Sessions and threads only grow, and routes stay or lead to a thread of the user's session.
  lemma GrowthKeepsLively(r: Shared, after: Shared)
    requires Lively(r) && Sound(after) && Grows(r, after) && after.pruning == r.pruning
    requires forall u :: u in r.sessions ==> u in after.sessions && after.sessions[u] == r.sessions[u]
    requires forall key :: key in after.threadMap ==>
               (key in r.threadMap && after.threadMap[key] == r.threadMap[key]) || RouteLives(after, key)
    requires HasSession(after.delivery) ==>
               var user := after.delivery.key.user; user in after.sessions && after.sessions[user] == after.delivery.s
    ensures Lively(after)
  {
    forall key | key in after.threadMap ensures RouteLives(after, key) || key.user in Leaving(after.pruning) {
      if !RouteLives(after, key) {
        assert RouteLives(r, key) || key.user in Leaving(r.pruning);
      }
    }
  }

  lemma DeliveryKeepsLively(ids: IdText, r: Shared, newId: nat)
    requires Lively(r)
    ensures Lively(Delivered(ids, r, newId))
  {
    var d, after := r.delivery, Delivered(ids, r, newId);
    DeliveryKeepsSound(ids, r, newId);
    if d.Named? || d.Unresolved? { SessionIsMade(r, d.key.user); }
    if d.Adding? { ThreadIsMade(r, d.s, d.id); }
    if d.Creating? { ThreadIsMade(r, d.s, newId); }
    hide WithSession, WithThread, Sound, Grows;
    if d.Registering? || d.Storing? { NewRouteLives(ids, r, newId); }
    hide Holds;
    GrowthKeepsLively(r, after);
  }

  // The route that a delivery stores leads to a thread of the session it holds.
  lemma NewRouteLives(ids: IdText, r: Shared, newId: nat)
    requires Lively(r) && (r.delivery.Registering? || r.delivery.Storing?)
    ensures var after := Delivered(ids, r, newId);
            forall key :: key in after.threadMap ==>
              (key in r.threadMap && after.threadMap[key] == r.threadMap[key]) || RouteLives(after, key)
  {
  }

  lemma PruningKeepsLively(ids: IdText, r: Shared, region: Region)
    requires Lively(r) && !TakesHeldSession(r, region) && !region.Proceed? && !region.Receive?
    ensures Lively(Step(ids, r, region))
  {
    var after := Step(ids, r, region);
    StepKeepsSound(ids, r, region);
    hide Sound;
    forall key | key in after.threadMap ensures RouteLives(after, key) || key.user in Leaving(after.pruning) {
      assert RouteLives(r, key) || key.user in Leaving(r.pruning);
    }
  }

  lemma StepKeepsLively(ids: IdText, r: Shared, region: Region)
    requires Lively(r) && !TakesHeldSession(r, region)
    ensures Lively(Step(ids, r, region))
  {
    if region.Proceed? {
      DeliveryKeepsLively(ids, r, region.newId);
      hide Lively, Delivered;
    } else if region.Receive? {
      StepKeepsSound(ids, r, region);
      hide Sound, Grows;
      forall key | key in r.threadMap ensures RouteLives(Step(ids, r, region), key) == RouteLives(r, key) {}
    } else {
      PruningKeepsLively(ids, r, region);
    }
  }

  // No session is taken away under a delivery that holds it.
  ghost predicate NoneTaken(ids: IdText, r: Shared, regions: seq<Region>)
    decreases |regions|
  {
    regions == [] || (!TakesHeldSession(r, regions[0]) && NoneTaken(ids, Step(ids, r, regions[0]), regions[1..]))
  }

  lemma {:induction false} RunKeepsLively(ids: IdText, r: Shared, regions: seq<Region>)
    requires Lively(r) && NoneTaken(ids, r, regions)
    ensures Lively(Run(ids, r, regions))
    decreases |regions|
  {
    hide Step, Lively, TakesHeldSession;
    if regions != [] {
      StepKeepsLively(ids, r, regions[0]);
      RunKeepsLively(ids, Step(ids, r, regions[0]), regions[1..]);
    }
  }

  /** As long as no session is taken away under a delivery that holds it, no route dangles once pruning is done. */
  lemma RoutesLiveAfterPruning(ids: IdText, regions: seq<Region>)
    requires NoneTaken(ids, NOTHING_SHARED, regions) && Run(ids, NOTHING_SHARED, regions).pruning.Quiet?
    ensures var r := Run(ids, NOTHING_SHARED, regions);
            forall key :: key in r.threadMap ==>
              key.user in r.sessions && Holds(r, r.sessions[key.user], r.threadMap[key])
  {
    RunKeepsLively(ids, NOTHING_SHARED, regions);
    var r := Run(ids, NOTHING_SHARED, regions);
    forall key | key in r.threadMap ensures RouteLives(r, key) {}
  }

  // A message under a new key is given the session, and then pruning takes it away.
  function Race(key: Key, newId: nat): seq<Region> {
    [Receive(key), Proceed(newId), Scan({key.user})] + [RemoveSessions, RemoveRoutes, Proceed(newId)]
    + [Proceed(newId), Proceed(newId)]
  }

  lemma {:induction false} RunAppend(ids: IdText, r: Shared, a: seq<Region>, b: seq<Region>)
    ensures Run(ids, r, a + b) == Run(ids, Run(ids, r, a), b)
    decreases |a|
  {
    hide Step;
    if a == [] {
      assert a + b == b;
    } else {
      assert (a + b)[1..] == a[1..] + b;
      RunAppend(ids, Step(ids, r, a[0]), a[1..], b);
    }
  }

  lemma RunTwo(ids: IdText, r: Shared, a: Region, b: Region)
    ensures Run(ids, r, [a, b]) == Step(ids, Step(ids, r, a), b)
  {
    hide Step;
    var r1 := Step(ids, r, a);
    assert [a, b][1..] == [b];
    assert Run(ids, r1, [b]) == Run(ids, Step(ids, r1, b), []);
  }

  lemma RunThree(ids: IdText, r: Shared, a: Region, b: Region, c: Region)
    ensures Run(ids, r, [a, b, c]) == Step(ids, Step(ids, Step(ids, r, a), b), c)
  {
    hide Step;
    assert [a, b, c][1..] == [b, c];
    RunTwo(ids, Step(ids, r, a), b, c);
  }

  // The message holds the session when it is found stale.
  lemma RaceStarts(ids: IdText, r: Shared, key: Key, newId: nat)
    requires r.delivery.Resting? && r.pruning.Quiet? && key.user in r.sessions && key.external.None?
    ensures var after := Run(ids, r, [Receive(key), Proceed(newId), Scan({key.user})]);
            && after.delivery == LookingUp(key, r.sessions[key.user]) && after.pruning == Scanned({key.user})
            && after.threadMap == r.threadMap
  {
    RunThree(ids, r, Receive(key), Proceed(newId), Scan({key.user}));
    hide Run;
    assert {key.user} * r.sessions.Keys == {key.user};
  }

  // Pruning finishes before the message has a thread.
  lemma RaceIsLost(ids: IdText, r: Shared, key: Key, s: nat, newId: nat)
    requires r.delivery == LookingUp(key, s) && r.pruning == Scanned({key.user}) && key !in r.threadMap
    ensures var after := Run(ids, r, [RemoveSessions, RemoveRoutes, Proceed(newId)]);
            after.delivery == Creating(key, s) && after.pruning.Quiet? && key.user !in after.sessions
  {
    RunThree(ids, r, RemoveSessions, RemoveRoutes, Proceed(newId));
  }

  /** Otherwise one can: from any quiet state, a new key of a user with a session comes to dangle. */
  lemma RouteCanDangle(ids: IdText, r: Shared, key: Key, newId: nat)
    requires r.delivery.Resting? && r.pruning.Quiet?
    requires key.user in r.sessions && key !in r.threadMap && key.external.None?
    ensures var after := Run(ids, r, Race(key, newId));
            && after.delivery.Resting? && after.pruning.Quiet?
            && key in after.threadMap && after.threadMap[key] == newId && key.user !in after.sessions
  {
    var a, b := [Receive(key), Proceed(newId), Scan({key.user})], [RemoveSessions, RemoveRoutes, Proceed(newId)];
    RunAppend(ids, r, a, b);
    RunAppend(ids, r, a + b, [Proceed(newId), Proceed(newId)]);
    RaceStarts(ids, r, key, newId);
    RaceIsLost(ids, Run(ids, r, a), key, r.sessions[key.user], newId);
    RunTwo(ids, Run(ids, r, a + b), Proceed(newId), Proceed(newId));
    hide Run;
  }
}
