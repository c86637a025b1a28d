/**
 Several clients share one guard: each checks, calls the model and records, region by region,
 in any interleaving. The hourly and daily limits are proved over whole runs.
 */
module GuardRuns {
  import opened Wrappers
  import opened CostGuard
  import opened Intervals

  // Where a client stands between its lock regions.
  datatype Phase =
    | Resting
    | PastFlag    // read the flag unset
    | PastBudget  // the budget region let it through
    | Allowed     // the check returned, the model call is under way
    | Charged     // its cost is recorded, its timestamp not yet

  datatype System = System(guard: GuardState, clients: seq<Phase>, now: int, log: seq<int>)

  datatype Action =
    | Tick(elapsed: nat)
    | ReadFlag(who: nat)
    | BudgetRegion(who: nat)
    | RateRegion(who: nat)
    | CallFails(who: nat)
    | CostRegion(who: nat, today: int, cost: nat)
    | ActionRegion(who: nat)
    | CountActions

  function Start(clients: nat, today: int, now: int): System {
    System(GuardState(0, today, [], false), seq(clients, _ => Resting), now, [])
  }

  predicate At(s: System, who: nat, phase: Phase) {
    who < |s.clients| && s.clients[who] == phase
  }

  function Move(s: System, who: nat, phase: Phase, g: GuardState): System
    requires who < |s.clients|
  {
    s.(guard := g, clients := s.clients[who := phase])
  }

  // One atomic region; an action whose client is not ready for it does nothing.
  function Step(cfg: Config, s: System, a: Action): System {
    match a
    case Tick(elapsed) => s.(now := s.now + elapsed)
    case ReadFlag(who) =>
      if At(s, who, Resting) && !s.guard.exceeded then Move(s, who, PastFlag, s.guard) else s
    case BudgetRegion(who) =>
      if !At(s, who, PastFlag) then s else
      var (g, refusal) := CheckBudget(cfg, s.guard);
      Move(s, who, if refusal.Some? then Resting else PastBudget, g)
    case RateRegion(who) =>
      if !At(s, who, PastBudget) then s else
      var (g, refusal) := CheckRate(cfg, s.guard, s.now);
      Move(s, who, if refusal.Some? then Resting else Allowed, g)
    case CallFails(who) =>
      if At(s, who, Allowed) then Move(s, who, Resting, s.guard) else s
    case CostRegion(who, today, cost) =>
      if At(s, who, Allowed) then Move(s, who, Charged, RecordCost(cfg, s.guard, today, cost)) else s
    case ActionRegion(who) =>
      if At(s, who, Charged)
      then Move(s, who, Resting, RecordAction(s.guard, s.now)).(log := s.log + [s.now])
      else s
    case CountActions =>
      s.(guard := s.guard.(window := Drain(s.guard.window, s.now - HOUR)))
  }

  function Run(cfg: Config, s: System, actions: seq<Action>): System
    decreases |actions|
  {
    if actions == [] then s else Run(cfg, Step(cfg, s, actions[0]), actions[1..])
  }

  /** Run without interference, a client's three check regions are the whole check. */
  lemma UnracedRegionsAreCheck(cfg: Config, s: System, who: nat)
    requires At(s, who, Resting)
    ensures var (g, refusal) := Check(cfg, s.guard, s.now);
            Run(cfg, s, [ReadFlag(who), BudgetRegion(who), RateRegion(who)])
            == Move(s, who, if refusal.None? then Allowed else Resting, g)
  {
    var actions := [ReadFlag(who), BudgetRegion(who), RateRegion(who)];
    var (g, refusal) := Check(cfg, s.guard, s.now);
    assert actions[1..][1..][1..] == [];
    var s1 := Step(cfg, s, actions[0]);
    var s2 := Step(cfg, s1, actions[1]);
    var s3 := Step(cfg, s2, actions[2]);
    assert Run(cfg, s1, actions[1..]) == Run(cfg, s2, actions[1..][1..]);
    assert Run(cfg, s2, actions[1..][1..]) == Run(cfg, s3, []);
    assert s3.clients == s.clients[who := if refusal.None? then Allowed else Resting];
  }

  // ----- Counting clients by phase -----

  function Count(clients: seq<Phase>, phases: set<Phase>): nat {
    if clients == [] then 0
    else (if clients[0] in phases then 1 else 0) + Count(clients[1..], phases)
  }

  lemma {:induction false} CountMoves(clients: seq<Phase>, phases: set<Phase>, who: nat, phase: Phase)
    requires who < |clients|
    ensures Count(clients[who := phase], phases)
         == Count(clients, phases) - (if clients[who] in phases then 1 else 0) + (if phase in phases then 1 else 0)
    ensures Count(clients, phases) <= |clients|
    ensures clients[who] !in phases ==> Count(clients, phases) < |clients|
  {
    CountBounded(clients[1..], phases);
    if who > 0 {
      assert clients[who := phase][1..] == clients[1..][who - 1 := phase];
      CountMoves(clients[1..], phases, who - 1, phase);
    } else {
      assert clients[who := phase][1..] == clients[1..];
    }
  }

  lemma {:induction false} CountBounded(clients: seq<Phase>, phases: set<Phase>)
    ensures Count(clients, phases) <= |clients|
  {
    if clients != [] {
      CountBounded(clients[1..], phases);
    }
  }

  lemma {:induction false} CountAtLeastOne(clients: seq<Phase>, phases: set<Phase>, who: nat)
    requires who < |clients| && clients[who] in phases
    ensures Count(clients, phases) >= 1
  {
    if who > 0 {
      CountAtLeastOne(clients[1..], phases, who - 1);
    }
  }

  lemma NobodyIn(clients: seq<Phase>, phases: set<Phase>, who: nat)
    requires who < |clients| && Count(clients, phases) == 0
    ensures clients[who] !in phases
  {
    if clients[who] in phases { CountAtLeastOne(clients, phases, who); }
  }

  lemma {:induction false} CountResting(k: nat, phases: set<Phase>)
    requires Resting !in phases
    ensures Count(seq(k, _ => Resting), phases) == 0
  {
    if k > 0 {
      assert seq(k, _ => Resting)[1..] == seq(k - 1, _ => Resting);
      CountResting(k - 1, phases);
    }
  }

  // ----- The hourly limit -----

  // Clients that hold a permission not yet turned into a timestamp.
  const PERMITTED: set<Phase> := {Allowed, Charged}

  // The window is the log without a prefix that has expired.
  ghost predicate WindowIsRecent(log: seq<int>, window: seq<int>, now: int) {
    && |window| <= |log|
    && window == log[|log| - |window|..]
    && (forall i :: 0 <= i < |log| - |window| ==> log[i] < now - HOUR)
  }

  ghost predicate LogIsPast(log: seq<int>, now: int) {
    Sorted(log) && (forall i :: 0 <= i < |log| ==> log[i] <= now)
  }

  // From every call of the past hour on, the log leaves room for the permitted clients.
  ghost predicate RecentRoom(log: seq<int>, now: int, permitted: nat, bound: nat) {
    forall i :: 0 <= i < |log| && log[i] >= now - HOUR ==> |log| - i + permitted <= bound
  }

  ghost predicate RateInvariant(s: System, k: nat, bound: nat) {
    && |s.clients| == k
    && LogIsPast(s.log, s.now)
    && WindowIsRecent(s.log, s.guard.window, s.now)
    && RecentRoom(s.log, s.now, Count(s.clients, PERMITTED), bound)
    && Spread(s.log, bound, HOUR)
  }

  lemma DrainKeepsWindow(log: seq<int>, window: seq<int>, now: int)
    requires WindowIsRecent(log, window, now)
    ensures WindowIsRecent(log, Drain(window, now - HOUR), now)
  {
    var kept := Drain(window, now - HOUR);
    DrainSplits(window, now - HOUR);
    var start := |log| - |window|;
    forall i | 0 <= i < |log| - |kept| ensures log[i] < now - HOUR {
      if i >= start { assert log[i] == window[i - start]; }
    }
  }

  // A check that passes saw fewer than `limit` recent calls, so one more permission fits.
  lemma PermissionFits(log: seq<int>, kept: seq<int>, now: int, limit: nat, permitted: nat, k: nat)
    requires WindowIsRecent(log, kept, now) && |kept| < limit && permitted < k
    ensures RecentRoom(log, now, permitted + 1, limit + k - 1)
  {
    forall i | 0 <= i < |log| && log[i] >= now - HOUR ensures |log| - i + permitted + 1 <= limit + k - 1 {
      assert i >= |log| - |kept|;
    }
  }

  // Turning a permission into a timestamp keeps every bound.
  lemma TimestampFits(log: seq<int>, now: int, permitted: nat, bound: nat)
    requires LogIsPast(log, now) && 1 <= permitted <= bound
    requires RecentRoom(log, now, permitted, bound) && Spread(log, bound, HOUR)
    ensures LogIsPast(log + [now], now)
    ensures RecentRoom(log + [now], now, permitted - 1, bound)
    ensures Spread(log + [now], bound, HOUR)
  {
    var longer := log + [now];
    forall i, j | 0 <= i && i + bound <= j < |longer| ensures longer[j] - longer[i] > HOUR {
      if j == |log| && log[i] >= now - HOUR {
        assert false;
      }
    }
  }

  lemma RateRegionKeeps(cfg: Config, s: System, who: nat, limit: U64, k: nat)
    requires cfg.maxActionsPerHour == Some(limit) && limit >= 1
    requires RateInvariant(s, k, limit + k - 1) && At(s, who, PastBudget)
    ensures RateInvariant(Step(cfg, s, RateRegion(who)), k, limit + k - 1)
  {
    var kept := Drain(s.guard.window, s.now - HOUR);
    DrainKeepsWindow(s.log, s.guard.window, s.now);
    CountMoves(s.clients, PERMITTED, who, Allowed);
    CountMoves(s.clients, PERMITTED, who, Resting);
    if |kept| < limit {
      PermissionFits(s.log, kept, s.now, limit, Count(s.clients, PERMITTED), k);
    }
  }

  lemma ActionRegionKeeps(cfg: Config, s: System, who: nat, k: nat, bound: nat)
    requires bound >= k && RateInvariant(s, k, bound) && At(s, who, Charged)
    ensures RateInvariant(Step(cfg, s, ActionRegion(who)), k, bound)
  {
    CountMoves(s.clients, PERMITTED, who, Resting);
    CountAtLeastOne(s.clients, PERMITTED, who);
    TimestampFits(s.log, s.now, Count(s.clients, PERMITTED), bound);
    var window := s.guard.window + [s.now];
    var log := s.log + [s.now];
    assert window == log[|log| - |window|..];
  }

  // Every other action leaves the log and the window alone and permits nobody new.
  lemma OtherRegionsKeep(cfg: Config, s: System, a: Action, k: nat, bound: nat)
    requires !a.RateRegion? && !a.ActionRegion?
    requires RateInvariant(s, k, bound)
    ensures RateInvariant(Step(cfg, s, a), k, bound)
  {
    if a.CountActions? {
      DrainKeepsWindow(s.log, s.guard.window, s.now);
    } else if !a.Tick? {
      NobodyNewPermitted(cfg, s, a);
      hide Step, Count, WindowIsRecent, LogIsPast, Spread;
    }
  }

  lemma NobodyNewPermitted(cfg: Config, s: System, a: Action)
    requires !a.RateRegion? && !a.ActionRegion? && !a.CountActions? && !a.Tick?
    ensures var after := Step(cfg, s, a);
            && |after.clients| == |s.clients| && after.log == s.log && after.now == s.now
               && after.guard.window == s.guard.window
            && Count(after.clients, PERMITTED) <= Count(s.clients, PERMITTED)
  {
    if a.who < |s.clients| {
      CountMoves(s.clients, PERMITTED, a.who, PastFlag);
      CountMoves(s.clients, PERMITTED, a.who, PastBudget);
      CountMoves(s.clients, PERMITTED, a.who, Resting);
      CountMoves(s.clients, PERMITTED, a.who, Charged);
    }
  }

  lemma RateStep(cfg: Config, s: System, a: Action, limit: U64, k: nat)
    requires cfg.maxActionsPerHour == Some(limit) && limit >= 1
    requires RateInvariant(s, k, limit + k - 1)
    ensures RateInvariant(Step(cfg, s, a), k, limit + k - 1)
  {
    if a.RateRegion? {
      if At(s, a.who, PastBudget) { RateRegionKeeps(cfg, s, a.who, limit, k); }
    } else if a.ActionRegion? {
      if At(s, a.who, Charged) { ActionRegionKeeps(cfg, s, a.who, k, limit + k - 1); }
    } else {
      OtherRegionsKeep(cfg, s, a, k, limit + k - 1);
    }
  }

  lemma {:induction false} RateRun(cfg: Config, s: System, actions: seq<Action>, limit: U64, k: nat)
    requires cfg.maxActionsPerHour == Some(limit) && limit >= 1
    requires RateInvariant(s, k, limit + k - 1)
    ensures RateInvariant(Run(cfg, s, actions), k, limit + k - 1)
    decreases |actions|
  {
    if actions != [] {
      RateStep(cfg, s, actions[0], limit, k);
      RateRun(cfg, Step(cfg, s, actions[0]), actions[1..], limit, k);
    }
  }

  lemma StartKeepsRate(k: nat, today: int, now: int, bound: nat)
    ensures RateInvariant(Start(k, today, now), k, bound)
  {
  }

  /**
   With k clients that each check and then record, every closed interval of one hour contains at
   most `limit + k - 1` recorded calls, whatever the interleaving.
   */
  lemma HourlyBound(cfg: Config, limit: U64, k: nat, today: int, start: int, actions: seq<Action>, lo: int)
    requires cfg.maxActionsPerHour == Some(limit) && limit >= 1 && k >= 1
    ensures CountWithin(Run(cfg, Start(k, today, start), actions).log, lo, lo + 3_600_000_000_000) <= limit + k - 1
  {
    var s := Start(k, today, start);
    StartKeepsRate(k, today, start, limit + k - 1);
    RateRun(cfg, s, actions, limit, k);
    SpreadBoundsInterval(Run(cfg, s, actions).log, limit + k - 1, HOUR, lo);
  }

  // ----- A zero limit records nothing -----

  lemma {:induction false} ZeroLimitRun(cfg: Config, s: System, actions: seq<Action>)
    requires cfg.maxActionsPerHour == Some(0)
    requires s.log == [] && Count(s.clients, PERMITTED) == 0
    ensures Run(cfg, s, actions).log == []
    decreases |actions|
  {
    if actions != [] {
      var a := actions[0];
      if !a.Tick? && !a.CountActions? && a.who < |s.clients| {
        CountMoves(s.clients, PERMITTED, a.who, PastFlag);
        CountMoves(s.clients, PERMITTED, a.who, PastBudget);
        CountMoves(s.clients, PERMITTED, a.who, Resting);
        NobodyIn(s.clients, PERMITTED, a.who);
      }
      ZeroLimitRun(cfg, Step(cfg, s, a), actions[1..]);
    }
  }

  /** An hourly limit of zero lets no client record anything. */
  lemma ZeroLimitRecordsNothing(cfg: Config, k: nat, today: int, start: int, actions: seq<Action>)
    requires cfg.maxActionsPerHour == Some(0)
    ensures Run(cfg, Start(k, today, start), actions).log == []
  {
    CountResting(k, PERMITTED);
    ZeroLimitRun(cfg, Start(k, today, start), actions);
  }

  // ----- A tripped guard -----

  ghost predicate AllResting(s: System) {
    forall i :: 0 <= i < |s.clients| ==> s.clients[i] == Resting
  }

  /**
   The flag is read before any date and cleared only by a record. So once it is set and no call is
   under way, no run ever charges or records again, however many days pass.
   */
  lemma {:induction false} TrippedGuardStaysShut(cfg: Config, s: System, actions: seq<Action>)
    requires s.guard.exceeded && AllResting(s)
    ensures var end := Run(cfg, s, actions);
            end.guard.exceeded && AllResting(end) && end.guard.total == s.guard.total && end.log == s.log
    decreases |actions|
  {
    if actions != [] {
      TrippedGuardStaysShut(cfg, Step(cfg, s, actions[0]), actions[1..]);
    }
  }

  // A client that read the flag before it was set and can still come to charge a call.
  ghost predicate CanStillCharge(cfg: Config, s: System, who: nat) {
    && who < |s.clients|
    && match s.clients[who]
       case Allowed => true
       case PastBudget => cfg.maxActionsPerHour != Some(0)
       case PastFlag =>
         cfg.maxActionsPerHour != Some(0)
         && (cfg.maxCostPerDayCents.Some? ==> ToCents(s.guard.total) < cfg.maxCostPerDayCents.value)
       case _ => false
  }

  // Some client can still charge a call, and a charge on a new day would not trip the flag at once.
  ghost predicate CanReopen(cfg: Config, s: System) {
    cfg.maxCostPerDayCents != Some(0) && exists who :: CanStillCharge(cfg, s, who)
  }

  lemma {:induction false} DrainAll(window: seq<int>, cutoff: int)
    requires forall i :: 0 <= i < |window| ==> window[i] < cutoff
    ensures Drain(window, cutoff) == []
  {
    if window != [] { DrainAll(window[1..], cutoff); }
  }

  lemma {:induction false} LateEnough(window: seq<int>, now: int) returns (elapsed: nat)
    ensures forall i :: 0 <= i < |window| ==> window[i] < now + elapsed - HOUR
  {
    elapsed := 0;
    if window != [] {
      var rest := LateEnough(window[1..], now);
      elapsed := rest + if window[0] < now + rest - HOUR then 0 else window[0] - (now + rest - HOUR) + 1;
      forall i | 0 <= i < |window| ensures window[i] < now + elapsed - HOUR {
        if i > 0 { assert window[i] == window[1..][i - 1]; }
      }
    }
  }

  lemma RunOne(cfg: Config, s: System, a: Action, rest: seq<Action>)
    ensures Run(cfg, s, [a] + rest) == Run(cfg, Step(cfg, s, a), rest)
  {
    hide Step;
    assert ([a] + rest)[1..] == rest;
  }

  lemma AllowedReopens(cfg: Config, s: System, who: nat) returns (actions: seq<Action>)
    requires cfg.maxCostPerDayCents != Some(0) && At(s, who, Allowed)
    ensures !Run(cfg, s, actions).guard.exceeded
  {
    var charge := CostRegion(who, s.guard.resetDate + 1, 0);
    actions := [charge] + [];
    RunOne(cfg, s, charge, []);
  }

  lemma PastBudgetReopens(cfg: Config, s: System, who: nat) returns (actions: seq<Action>)
    requires cfg.maxCostPerDayCents != Some(0) && cfg.maxActionsPerHour != Some(0) && At(s, who, PastBudget)
    ensures !Run(cfg, s, actions).guard.exceeded
  {
    var elapsed := LateEnough(s.guard.window, s.now);
    DrainAll(s.guard.window, s.now + elapsed - HOUR);
    var later := Step(cfg, s, Tick(elapsed));
    var allowed := Step(cfg, later, RateRegion(who));
    assert At(allowed, who, Allowed);
    var rest := AllowedReopens(cfg, allowed, who);
    actions := [Tick(elapsed)] + ([RateRegion(who)] + rest);
    RunOne(cfg, s, Tick(elapsed), [RateRegion(who)] + rest);
    RunOne(cfg, later, RateRegion(who), rest);
  }

  lemma SomeRunReopens(cfg: Config, s: System) returns (actions: seq<Action>)
    requires CanReopen(cfg, s)
    ensures !Run(cfg, s, actions).guard.exceeded
  {
    var who :| CanStillCharge(cfg, s, who);
    if At(s, who, Allowed) {
      actions := AllowedReopens(cfg, s, who);
    } else if At(s, who, PastBudget) {
      actions := PastBudgetReopens(cfg, s, who);
    } else {
      var through := Step(cfg, s, BudgetRegion(who));
      assert At(through, who, PastBudget);
      var rest := PastBudgetReopens(cfg, through, who);
      actions := [BudgetRegion(who)] + rest;
      RunOne(cfg, s, BudgetRegion(who), rest);
    }
  }

  lemma StaysShutStep(cfg: Config, s: System, a: Action)
    requires s.guard.exceeded && !CanReopen(cfg, s)
    ensures var after := Step(cfg, s, a); after.guard.exceeded && !CanReopen(cfg, after)
  {
    hide Drain;
    var after := Step(cfg, s, a);
    if cfg.maxCostPerDayCents != Some(0) {
      if a.CostRegion? { assert !CanStillCharge(cfg, s, a.who); }
      forall who ensures !CanStillCharge(cfg, after, who) {
        assert !CanStillCharge(cfg, s, who);
      }
    }
  }

  lemma {:induction false} StaysShut(cfg: Config, s: System, actions: seq<Action>)
    requires s.guard.exceeded && !CanReopen(cfg, s)
    ensures Run(cfg, s, actions).guard.exceeded
    decreases |actions|
  {
    hide Step, CanReopen;
    if actions != [] {
      StaysShutStep(cfg, s, actions[0]);
      StaysShut(cfg, Step(cfg, s, actions[0]), actions[1..]);
    }
  }

  ghost predicate Reopens(cfg: Config, s: System) {
    exists actions :: !Run(cfg, s, actions).guard.exceeded
  }

  /**
   A set flag is cleared in some run exactly when a client that checked before it was set can still
   charge a call, and the daily limit is not zero: the date alone never clears it.
   */
  lemma GuardReopensExactly(cfg: Config, s: System)
    requires s.guard.exceeded
    ensures Reopens(cfg, s) <==> CanReopen(cfg, s)
  {
    if CanReopen(cfg, s) {
      var actions := SomeRunReopens(cfg, s);
    } else {
      forall actions ensures Run(cfg, s, actions).guard.exceeded {
        StaysShut(cfg, s, actions);
      }
    }
  }

  // ----- The hourly bound is attained -----

  // `calls` timestamps at one instant; clients [done, permitted) hold a permission.
  function Crowd(k: nat, calls: nat, done: nat, permitted: nat, today: int, now: int): System {
    System(GuardState(0, today, seq(calls, _ => now), false),
           seq(k, i => if done <= i < permitted then Allowed else Resting), now, seq(calls, _ => now))
  }

  lemma {:induction false} RunAppend(cfg: Config, s: System, first: seq<Action>, second: seq<Action>)
    ensures Run(cfg, s, first + second) == Run(cfg, Run(cfg, s, first), second)
    decreases |first|
  {
    if first == [] {
      assert first + second == second;
    } else {
      assert (first + second)[1..] == first[1..] + second;
      RunAppend(cfg, Step(cfg, s, first[0]), first[1..], second);
    }
  }

  function Permit(who: nat): seq<Action> { [ReadFlag(who), BudgetRegion(who), RateRegion(who)] }
  function Finish(who: nat, today: int): seq<Action> { [CostRegion(who, today, 0), ActionRegion(who)] }

  lemma PermitNext(cfg: Config, k: nat, calls: nat, who: nat, today: int, now: int)
    requires cfg.maxCostPerDayCents.None? && cfg.maxActionsPerHour.Some? && calls < cfg.maxActionsPerHour.value
    requires who < k
    ensures Run(cfg, Crowd(k, calls, 0, who, today, now), Permit(who)) == Crowd(k, calls, 0, who + 1, today, now)
  {
    var s := Crowd(k, calls, 0, who, today, now);
    var s1 := Step(cfg, s, Permit(who)[0]);
    assert s1 == s.(clients := s.clients[who := PastFlag]);
    var s2 := Step(cfg, s1, Permit(who)[1]);
    assert s2 == s.(clients := s.clients[who := PastBudget]);
    var s3 := Step(cfg, s2, Permit(who)[2]);
    assert s3 == s.(clients := s.clients[who := Allowed]);
    assert s3.clients == Crowd(k, calls, 0, who + 1, today, now).clients;
    assert Permit(who)[1..][1..][1..] == [];
    assert Run(cfg, s1, Permit(who)[1..]) == Run(cfg, s2, Permit(who)[1..][1..]);
    assert Run(cfg, s2, Permit(who)[1..][1..]) == Run(cfg, s3, []);
  }

  lemma FinishNext(cfg: Config, k: nat, calls: nat, who: nat, permitted: nat, today: int, now: int)
    requires cfg.maxCostPerDayCents.None? && who < permitted <= k
    ensures Run(cfg, Crowd(k, calls, who, permitted, today, now), Finish(who, today))
         == Crowd(k, calls + 1, who + 1, permitted, today, now)
  {
    var s := Crowd(k, calls, who, permitted, today, now);
    var s1 := Step(cfg, s, Finish(who, today)[0]);
    assert s1 == s.(clients := s.clients[who := Charged]);
    var s2 := Step(cfg, s1, Finish(who, today)[1]);
    assert s2 == Crowd(k, calls + 1, who + 1, permitted, today, now) by {
      assert s2.clients == Crowd(k, calls + 1, who + 1, permitted, today, now).clients;
      assert s2.log == seq(calls + 1, _ => now);
    }
    assert Finish(who, today)[1..][1..] == [];
    assert Run(cfg, s1, Finish(who, today)[1..]) == Run(cfg, s2, []);
  }

  lemma {:induction false} PermitAll(cfg: Config, k: nat, calls: nat, count: nat, today: int, now: int)
    returns (actions: seq<Action>)
    requires cfg.maxCostPerDayCents.None? && cfg.maxActionsPerHour.Some? && calls < cfg.maxActionsPerHour.value
    requires count <= k
    ensures Run(cfg, Crowd(k, calls, 0, 0, today, now), actions) == Crowd(k, calls, 0, count, today, now)
  {
    actions := [];
    if count > 0 {
      var earlier := PermitAll(cfg, k, calls, count - 1, today, now);
      PermitNext(cfg, k, calls, count - 1, today, now);
      RunAppend(cfg, Crowd(k, calls, 0, 0, today, now), earlier, Permit(count - 1));
      actions := earlier + Permit(count - 1);
    }
  }

  lemma {:induction false} FinishAll(cfg: Config, k: nat, calls: nat, count: nat, permitted: nat, today: int, now: int)
    returns (actions: seq<Action>)
    requires cfg.maxCostPerDayCents.None? && count <= permitted <= k
    ensures Run(cfg, Crowd(k, calls, 0, permitted, today, now), actions)
            == Crowd(k, calls + count, count, permitted, today, now)
  {
    actions := [];
    if count > 0 {
      var earlier := FinishAll(cfg, k, calls, count - 1, permitted, today, now);
      FinishNext(cfg, k, calls + count - 1, count - 1, permitted, today, now);
      RunAppend(cfg, Crowd(k, calls, 0, permitted, today, now), earlier, Finish(count - 1, today));
      actions := earlier + Finish(count - 1, today);
    }
  }

  // `calls` calls, one after the other.
  lemma {:induction false} CallsInTurn(cfg: Config, k: nat, calls: nat, today: int, now: int)
    returns (actions: seq<Action>)
    requires cfg.maxCostPerDayCents.None? && cfg.maxActionsPerHour.Some? && calls <= cfg.maxActionsPerHour.value
    requires k >= 1
    ensures Run(cfg, Start(k, today, now), actions) == Crowd(k, calls, 0, 0, today, now)
  {
    actions := [];
    if calls == 0 {
      assert Start(k, today, now).clients == Crowd(k, 0, 0, 0, today, now).clients;
    } else {
      var earlier := CallsInTurn(cfg, k, calls - 1, today, now);
      PermitNext(cfg, k, calls - 1, 0, today, now);
      FinishNext(cfg, k, calls - 1, 0, 1, today, now);
      RunAppend(cfg, Crowd(k, calls - 1, 0, 0, today, now), Permit(0), Finish(0, today));
      RunAppend(cfg, Start(k, today, now), earlier, Permit(0) + Finish(0, today));
      actions := earlier + (Permit(0) + Finish(0, today));
      assert Crowd(k, calls, 1, 1, today, now).clients == Crowd(k, calls, 0, 0, today, now).clients;
    }
  }

  lemma {:induction false} CrowdCount(calls: nat, now: int)
    ensures CountWithin(seq(calls, _ => now), now, now + HOUR) == calls
  {
    if calls > 0 {
      assert seq(calls, _ => now)[..calls - 1] == seq(calls - 1, _ => now);
      CrowdCount(calls - 1, now);
    }
  }

  /** The hourly bound cannot be lowered: some interleaving records exactly `limit + k - 1` calls at once. */
  lemma HourlyBoundIsAttained(limit: U64, k: nat, today: int, now: int) returns (actions: seq<Action>)
    requires limit >= 1 && k >= 1
    ensures CountWithin(Run(Config(None, Some(limit)), Start(k, today, now), actions).log, now, now + HOUR)
            == limit + k - 1
  {
    var cfg := Config(None, Some(limit));
    var turns := CallsInTurn(cfg, k, limit - 1, today, now);
    var permits := PermitAll(cfg, k, limit - 1, k, today, now);
    var finishes := FinishAll(cfg, k, limit - 1, k, k, today, now);
    RunAppend(cfg, Start(k, today, now), turns, permits);
    RunAppend(cfg, Start(k, today, now), turns + permits, finishes);
    actions := turns + permits + finishes;
    CrowdCount(limit - 1 + k, now);
  }
}
