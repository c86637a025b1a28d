/**
 The daily budget over whole runs of several clients, and exactly when it holds.

 The total is compared in whole cents that have to fit 64 bits; beyond, they read as zero and the
 budget opens again. So the bound holds exactly when one call cannot carry a total from below the
 limit past 64-bit cents.
 */
module BudgetRuns {
  import opened Wrappers
  import opened CostGuard
  import opened GuardRuns

  const CENTS_END: nat := (U64_MAX + 1) * UNITS_PER_CENT

  ghost predicate CostsAtMost(actions: seq<Action>, most: nat) {
    forall i :: 0 <= i < |actions| && actions[i].CostRegion? ==> actions[i].cost <= most
  }

  // Clients that read the flag unset and may still charge a call.
  const UNDERWAY: set<Phase> := {PastFlag, PastBudget, Allowed}

  // A cent is 10^8 units of 10^-10 dollars.
  function InUnits(limit: U64): nat {
    limit * 100_000_000
  }

  // While the flag is unset the total is below the limit. Once it is set nobody new starts, and
  // there is room for one call of every client under way.
  ghost predicate BudgetInvariant(s: System, limit: U64, k: nat, most: nat) {
    && |s.clients| == k
    && (!s.guard.exceeded ==> s.guard.total < InUnits(limit))
    && (s.guard.exceeded ==> s.guard.total + Count(s.clients, UNDERWAY) * most < InUnits(limit) + k * most)
  }

  lemma FewerUnderway(total: nat, fewer: nat, more: nat, most: nat, bound: nat)
    requires fewer <= more && total + more * most < bound
    ensures total + fewer * most < bound
  {
    assert fewer * most <= more * most;
  }

  // An action that charges nothing and lets nobody start keeps the invariant.
  lemma UnchargedKeeps(s: System, after: System, limit: U64, k: nat, most: nat)
    requires BudgetInvariant(s, limit, k, most) && |after.clients| == k
    requires after.guard.total == s.guard.total && after.guard.exceeded == s.guard.exceeded
    requires s.guard.exceeded ==> Count(after.clients, UNDERWAY) <= Count(s.clients, UNDERWAY)
    ensures BudgetInvariant(after, limit, k, most)
  {
    if s.guard.exceeded {
      FewerUnderway(s.guard.total, Count(after.clients, UNDERWAY), Count(s.clients, UNDERWAY), most,
          InUnits(limit) + k * most);
    }
  }

  // A check trips the flag only if it is tripped already.
  lemma CheckTripsNothing(cfg: Config, g: GuardState, limit: U64)
    requires cfg.maxCostPerDayCents == Some(limit) && (!g.exceeded ==> g.total < InUnits(limit))
    ensures CheckBudget(cfg, g).0 == g
  {
    if !g.exceeded {
      TruncationIsExact(g.total, limit);
    }
  }

  lemma OthersKeepBudget(cfg: Config, s: System, a: Action, limit: U64, k: nat, most: nat)
    requires cfg.maxCostPerDayCents == Some(limit) && BudgetInvariant(s, limit, k, most) && !a.CostRegion?
    ensures BudgetInvariant(Step(cfg, s, a), limit, k, most)
  {
    CheckTripsNothing(cfg, s.guard, limit);
    if !a.Tick? && !a.CountActions? && a.who < k {
      CountMoves(s.clients, UNDERWAY, a.who, PastFlag);
      CountMoves(s.clients, UNDERWAY, a.who, PastBudget);
      CountMoves(s.clients, UNDERWAY, a.who, Allowed);
      CountMoves(s.clients, UNDERWAY, a.who, Resting);
    }
    hide BudgetInvariant, CheckBudget, Drain, Count;
    UnchargedKeeps(s, Step(cfg, s, a), limit, k, most);
  }

  // A charge from below the limit trips the flag exactly when it reaches the limit.
  lemma ChargeTripsExactly(cfg: Config, g: GuardState, today: int, cost: nat, limit: U64, most: nat)
    requires cfg.maxCostPerDayCents == Some(limit) && limit > 0 && InUnits(limit) + most <= CENTS_END && cost <= most
    requires !g.exceeded ==> g.total < InUnits(limit)
    ensures var after := RecordCost(cfg, g, today, cost);
            && (today == g.resetDate ==> after.total == g.total + cost)
            && (today != g.resetDate ==> after.total == cost)
            && (today != g.resetDate || !g.exceeded ==> (after.exceeded <==> after.total >= InUnits(limit)))
            && (today == g.resetDate && g.exceeded ==> after.exceeded)
  {
    if today != g.resetDate {
      TruncationIsExact(cost, limit);
    } else if !g.exceeded {
      TruncationIsExact(g.total + cost, limit);
    }
  }

  lemma OneCallMore(total: nat, cost: nat, underway: nat, limit: U64, k: nat, most: nat)
    requires total < InUnits(limit) && cost <= most && underway <= k && underway >= 1
    ensures total + cost + (underway - 1) * most < InUnits(limit) + k * most
  {
    assert (underway - 1) * most + most == underway * most;
    assert underway * most <= k * most;
  }

  lemma OneCallDone(total: nat, cost: nat, underway: nat, most: nat, bound: nat)
    requires total + underway * most < bound && cost <= most && underway >= 1
    ensures total + cost + (underway - 1) * most < bound
  {
    assert (underway - 1) * most + most == underway * most;
  }

  lemma ChargeKeepsBudget(cfg: Config, s: System, who: nat, today: int, cost: nat, limit: U64, k: nat, most: nat)
    requires cfg.maxCostPerDayCents == Some(limit) && limit > 0 && InUnits(limit) + most <= CENTS_END
    requires cost <= most && BudgetInvariant(s, limit, k, most)
    ensures BudgetInvariant(Step(cfg, s, CostRegion(who, today, cost)), limit, k, most)
  {
    if At(s, who, Allowed) {
      ChargeTripsExactly(cfg, s.guard, today, cost, limit, most);
      var underway := Count(s.clients, UNDERWAY);
      CountMoves(s.clients, UNDERWAY, who, Charged);
      CountAtLeastOne(s.clients, UNDERWAY, who);
      hide RecordCost, Count;
      if today != s.guard.resetDate {
        OneCallMore(0, cost, underway, limit, k, most);
      } else if !s.guard.exceeded {
        OneCallMore(s.guard.total, cost, underway, limit, k, most);
      } else {
        OneCallDone(s.guard.total, cost, underway, most, InUnits(limit) + k * most);
      }
    }
  }

  lemma {:induction false} BudgetRun(cfg: Config, s: System, actions: seq<Action>, limit: U64, k: nat, most: nat)
    requires cfg.maxCostPerDayCents == Some(limit) && limit > 0 && InUnits(limit) + most <= CENTS_END
    requires BudgetInvariant(s, limit, k, most) && CostsAtMost(actions, most)
    ensures BudgetInvariant(Run(cfg, s, actions), limit, k, most)
    decreases |actions|
  {
    hide Step, BudgetInvariant;
    if actions != [] {
      var a := actions[0];
      if a.CostRegion? {
        ChargeKeepsBudget(cfg, s, a.who, a.today, a.cost, limit, k, most);
      } else {
        OthersKeepBudget(cfg, s, a, limit, k, most);
      }
      BudgetRun(cfg, Step(cfg, s, a), actions[1..], limit, k, most);
    }
  }

  // ----- Nobody gets through -----

  // With a zero limit, or no client, nothing is ever charged.
  ghost predicate NobodyCharges(s: System) {
    s.guard.total == 0 && forall who :: 0 <= who < |s.clients| ==>
        s.clients[who] == Resting || s.clients[who] == PastFlag
  }

  lemma {:induction false} NothingIsCharged(cfg: Config, s: System, actions: seq<Action>)
    requires cfg.maxCostPerDayCents == Some(0) || |s.clients| == 0
    requires NobodyCharges(s)
    ensures NobodyCharges(Run(cfg, s, actions))
    decreases |actions|
  {
    if actions != [] {
      NothingIsCharged(cfg, Step(cfg, s, actions[0]), actions[1..]);
    }
  }

  // ----- Beyond 64-bit cents -----

  function Call(cost: nat): seq<Action> {
    [ReadFlag(0), BudgetRegion(0), RateRegion(0)] + [CostRegion(0, 0, cost), ActionRegion(0)]
  }

  // The first of k clients has spent `total` on day 0, the flag is unset and everybody rests.
  ghost predicate Spent(s: System, k: nat, total: nat) {
    && s.clients == seq(k, _ => Resting)
    && s.guard.total == total && s.guard.resetDate == 0 && !s.guard.exceeded
  }

  lemma RunTwo(cfg: Config, s: System, a: Action, b: Action)
    ensures Run(cfg, s, [a, b]) == Step(cfg, Step(cfg, s, a), b)
  {
    hide Step;
    var s1 := Step(cfg, s, a);
    assert [a, b][1..] == [b] && [b][1..] == [];
    assert Run(cfg, s1, [b]) == Run(cfg, Step(cfg, s1, b), []);
  }

  lemma RunThree(cfg: Config, s: System, a: Action, b: Action, c: Action)
    ensures Run(cfg, s, [a, b, c]) == Step(cfg, Step(cfg, Step(cfg, s, a), b), c)
  {
    hide Step;
    assert [a, b, c][1..] == [b, c];
    RunTwo(cfg, Step(cfg, s, a), b, c);
  }

  lemma CallRuns(cfg: Config, s: System, k: nat, total: nat, cost: nat)
    requires cfg.maxActionsPerHour.None? && cfg.maxCostPerDayCents.Some? && k >= 1
    requires Spent(s, k, total) && ToCents(total) < cfg.maxCostPerDayCents.value
             && ToCents(total + cost) < cfg.maxCostPerDayCents.value
    ensures Spent(Run(cfg, s, Call(cost)), k, total + cost)
  {
    RunAppend(cfg, s, [ReadFlag(0), BudgetRegion(0), RateRegion(0)], [CostRegion(0, 0, cost), ActionRegion(0)]);
    RunThree(cfg, s, ReadFlag(0), BudgetRegion(0), RateRegion(0));
    var allowed := Step(cfg, Step(cfg, Step(cfg, s, ReadFlag(0)), BudgetRegion(0)), RateRegion(0));
    hide Run, ToCents;
    assert allowed == s.(clients := s.clients[0 := Allowed]);
    RunTwo(cfg, allowed, CostRegion(0, 0, cost), ActionRegion(0));
    var after := Step(cfg, Step(cfg, allowed, CostRegion(0, 0, cost)), ActionRegion(0));
    assert after.clients == s.clients;
  }

  lemma CostsAppend(a: seq<Action>, b: seq<Action>, most: nat)
    requires CostsAtMost(a, most) && CostsAtMost(b, most)
    ensures CostsAtMost(a + b, most)
  {
  }

  // Calls of at most `most` reach any total below the limit.
  lemma {:induction false} SpendUpTo(cfg: Config, s: System, k: nat, most: nat, total: nat)
    returns (actions: seq<Action>)
    requires cfg.maxActionsPerHour.None? && cfg.maxCostPerDayCents.Some? && k >= 1 && most >= 1
    requires Spent(s, k, 0) && total < InUnits(cfg.maxCostPerDayCents.value)
    ensures CostsAtMost(actions, most) && Spent(Run(cfg, s, actions), k, total)
    decreases total
  {
    if total == 0 {
      actions := [];
    } else {
      var cost := if total < most then total else most;
      var earlier := SpendUpTo(cfg, s, k, most, total - cost);
      TruncationIsExact(total - cost, cfg.maxCostPerDayCents.value);
      TruncationIsExact(total, cfg.maxCostPerDayCents.value);
      CallRuns(cfg, Run(cfg, s, earlier), k, total - cost, cost);
      RunAppend(cfg, s, earlier, Call(cost));
      CostsAppend(earlier, Call(cost), most);
      actions := earlier + Call(cost);
    }
  }

  lemma BeyondReadsZero(total: nat)
    requires total >= CENTS_END
    ensures ToCents(total) == 0
  {
    assert total / UNITS_PER_CENT >= U64_MAX + 1;
  }

  // Beyond 64-bit cents every further call goes through.
  lemma {:induction false} SpendBeyond(cfg: Config, s: System, k: nat, most: nat, total: nat, calls: nat)
    returns (actions: seq<Action>)
    requires cfg.maxActionsPerHour.None? && cfg.maxCostPerDayCents.Some? && cfg.maxCostPerDayCents.value > 0 && k >= 1
    requires Spent(s, k, total) && total >= CENTS_END
    ensures CostsAtMost(actions, most) && Spent(Run(cfg, s, actions), k, total + calls * most)
    decreases calls
  {
    if calls == 0 {
      actions := [];
    } else {
      var earlier := SpendBeyond(cfg, s, k, most, total, calls - 1);
      var spent := total + (calls - 1) * most;
      assert spent + most == total + calls * most;
      BeyondReadsZero(spent);
      BeyondReadsZero(spent + most);
      CallRuns(cfg, Run(cfg, s, earlier), k, spent, most);
      RunAppend(cfg, s, earlier, Call(most));
      CostsAppend(earlier, Call(most), most);
      actions := earlier + Call(most);
    }
  }

  // One call carries the total past 64-bit cents, and the flag is never set.
  lemma BudgetCanBeBroken(limit: U64, k: nat, most: nat) returns (actions: seq<Action>)
    requires limit > 0 && k >= 1 && InUnits(limit) + most > CENTS_END
    ensures CostsAtMost(actions, most)
    ensures Run(Config(Some(limit), None), Start(k, 0, 0), actions).guard.total >= InUnits(limit) + k * most
  {
    var cfg, start := Config(Some(limit), None), Start(k, 0, 0);
    assert most >= 1 by { assert InUnits(limit) <= CENTS_END; }
    var below := InUnits(limit) - 1;
    var first := SpendUpTo(cfg, start, k, most, below);
    var s1 := Run(cfg, start, first);
    TruncationIsExact(below, limit);
    BeyondReadsZero(below + most);
    CallRuns(cfg, s1, k, below, most);
    RunAppend(cfg, start, first, Call(most));
    var s2 := Run(cfg, start, first + Call(most));
    var rest := SpendBeyond(cfg, s2, k, most, below + most, k);
    RunAppend(cfg, start, first + Call(most), rest);
    CostsAppend(first, Call(most), most);
    CostsAppend(first + Call(most), rest, most);
    actions := first + Call(most) + rest;
  }

  // ----- What was charged -----

  datatype Charge = Charge(date: int, cost: nat)

  // The charges of a run, in order.
  function Charges(cfg: Config, s: System, actions: seq<Action>): seq<Charge>
    decreases |actions|
  {
    if actions == [] then []
    else
      (if actions[0].CostRegion? && At(s, actions[0].who, Allowed) then [Charge(actions[0].today, actions[0].cost)]
          else [])
      + Charges(cfg, Step(cfg, s, actions[0]), actions[1..])
  }

  // The costs charged since the date last changed.
  function SpentSinceNewDate(charges: seq<Charge>): nat {
    if charges == [] then 0
    else
      var n := |charges| - 1;
      charges[n].cost + if n > 0 && charges[n - 1].date == charges[n].date then SpentSinceNewDate(charges[..n]) else 0
  }

  // The costs charged on a date.
  function SpentOn(charges: seq<Charge>, date: int): nat {
    if charges == [] then 0
    else
      var n := |charges| - 1;
      SpentOn(charges[..n], date) + if charges[n].date == date then charges[n].cost else 0
  }

  // The guard's date is that of the last charge, and its total what was charged since the date changed.
  ghost predicate KeepsAccount(g: GuardState, charges: seq<Charge>) {
    g.total == SpentSinceNewDate(charges) && (charges != [] ==> g.resetDate == charges[|charges| - 1].date)
  }

  lemma ChargeIsAccounted(cfg: Config, g: GuardState, charges: seq<Charge>, today: int, cost: nat)
    requires KeepsAccount(g, charges)
    ensures KeepsAccount(RecordCost(cfg, g, today, cost), charges + [Charge(today, cost)])
  {
    var longer := charges + [Charge(today, cost)];
    assert longer[..|charges|] == charges;
    if charges != [] { assert longer[|charges| - 1] == charges[|charges| - 1]; }
  }

  lemma OthersKeepAccount(cfg: Config, s: System, a: Action, charges: seq<Charge>)
    requires KeepsAccount(s.guard, charges) && !(a.CostRegion? && At(s, a.who, Allowed))
    ensures KeepsAccount(Step(cfg, s, a).guard, charges)
  {
    hide SpentSinceNewDate, Drain;
  }

  lemma {:induction false} RunKeepsAccount(cfg: Config, s: System, actions: seq<Action>, before: seq<Charge>)
    requires KeepsAccount(s.guard, before)
    ensures KeepsAccount(Run(cfg, s, actions).guard, before + Charges(cfg, s, actions))
    decreases |actions|
  {
    hide KeepsAccount, Step;
    if actions == [] {
      assert before + [] == before;
    } else {
      var a, next := actions[0], Step(cfg, s, actions[0]);
      var rest := Charges(cfg, next, actions[1..]);
      if a.CostRegion? && At(s, a.who, Allowed) {
        var charge := Charge(a.today, a.cost);
        ChargeStep(cfg, s, a);
        ChargeIsAccounted(cfg, s.guard, before, a.today, a.cost);
        RunKeepsAccount(cfg, next, actions[1..], before + [charge]);
        assert before + [charge] + rest == before + ([charge] + rest);
      } else {
        OthersKeepAccount(cfg, s, a, before);
        RunKeepsAccount(cfg, next, actions[1..], before);
        assert [] + rest == rest;
      }
    }
  }

  lemma ChargeStep(cfg: Config, s: System, a: Action)
    requires a.CostRegion? && At(s, a.who, Allowed)
    ensures Step(cfg, s, a).guard == RecordCost(cfg, s.guard, a.today, a.cost)
  {
  }

  /**
   In every run the guard's total is exactly what was charged since the date last changed, and its date
   that of the last charge.
   */
  lemma TotalIsWhatWasCharged(cfg: Config, k: nat, today: int, now: int, actions: seq<Action>)
    ensures var g := Run(cfg, Start(k, today, now), actions).guard;
            var charges := Charges(cfg, Start(k, today, now), actions);
            && g.total == SpentSinceNewDate(charges)
            && (charges != [] ==> g.resetDate == charges[|charges| - 1].date)
  {
    RunKeepsAccount(cfg, Start(k, today, now), actions, []);
    assert [] + Charges(cfg, Start(k, today, now), actions) == Charges(cfg, Start(k, today, now), actions);
  }

  /** Where dates only move forward, that is the sum of the last date's charges. */
  lemma {:induction false} DatesForwardMeansDay(charges: seq<Charge>)
    requires charges != [] && forall i, j :: 0 <= i < j < |charges| ==> charges[i].date <= charges[j].date
    ensures SpentSinceNewDate(charges) == SpentOn(charges, charges[|charges| - 1].date)
  {
    var n := |charges| - 1;
    var earlier, date := charges[..n], charges[n].date;
    if n > 0 {
      if charges[n - 1].date == date {
        DatesForwardMeansDay(earlier);
      } else {
        NothingSpentOn(earlier, date);
      }
    }
  }

  lemma {:induction false} NothingSpentOn(charges: seq<Charge>, date: int)
    requires forall i :: 0 <= i < |charges| ==> charges[i].date != date
    ensures SpentOn(charges, date) == 0
  {
    if charges != [] { NothingSpentOn(charges[..|charges| - 1], date); }
  }

  /** On a clock that moves forward, the spend reported for a date is the sum of that date's charges. */
  lemma SpendShownIsDay(cfg: Config, k: nat, start: int, now: int, actions: seq<Action>, today: int)
    requires var charges := Charges(cfg, Start(k, start, now), actions);
             && (forall i, j :: 0 <= i < j < |charges| ==> charges[i].date <= charges[j].date)
             && forall i :: 0 <= i < |charges| ==> charges[i].date <= today
    ensures SpendShown(Run(cfg, Start(k, start, now), actions).guard, today)
         == SpentOn(Charges(cfg, Start(k, start, now), actions), today)
  {
    TotalIsWhatWasCharged(cfg, k, start, now, actions);
    var charges := Charges(cfg, Start(k, start, now), actions);
    hide Run, Charges, Start;
    if charges != [] {
      if charges[|charges| - 1].date == today {
        DatesForwardMeansDay(charges);
      } else {
        NothingSpentOn(charges, today);
      }
    }
  }

  // ----- The bound -----

  // What was charged since the date last changed, in the end.
  function DaySpend(cfg: Config, k: nat, today: int, now: int, actions: seq<Action>): nat {
    SpentSinceNewDate(Charges(cfg, Start(k, today, now), actions))
  }

  // With k clients and calls of at most `most` units each, in no interleaving and across all day
  // changes do the day's charges reach the daily limit plus k calls.
  ghost predicate DailyBoundHolds(limit: U64, k: nat, most: nat) {
    forall cfg: Config, today: int, now: int, actions: seq<Action> ::
      cfg.maxCostPerDayCents == Some(limit) && CostsAtMost(actions, most) ==>
        var spent := DaySpend(cfg, k, today, now, actions);
        spent == 0 || spent < InUnits(limit) + k * most
  }

  lemma DailyBound(cfg: Config, limit: U64, k: nat, most: nat, today: int, now: int, actions: seq<Action>)
    requires cfg.maxCostPerDayCents == Some(limit) && CostsAtMost(actions, most)
    requires limit == 0 || k == 0 || InUnits(limit) + most <= CENTS_END
    ensures var spent := DaySpend(cfg, k, today, now, actions);
            spent == 0 || spent < InUnits(limit) + k * most
  {
    TotalIsWhatWasCharged(cfg, k, today, now, actions);
    hide Charges, SpentSinceNewDate;
    var s := Start(k, today, now);
    if limit == 0 || k == 0 {
      NothingIsCharged(cfg, s, actions);
    } else {
      assert BudgetInvariant(s, limit, k, most);
      BudgetRun(cfg, s, actions, limit, k, most);
      var end := Run(cfg, s, actions);
      assert k * most >= 0 && Count(end.clients, UNDERWAY) * most >= 0;
    }
  }

  /**
   The daily bound holds in every run exactly when the limit is zero, there is no client, or the
   limit and one call together stay within 64-bit cents.
   */
  lemma DailyBoundExactly(limit: U64, k: nat, most: nat)
    ensures DailyBoundHolds(limit, k, most) <==> limit == 0 || k == 0 || InUnits(limit) + most <= CENTS_END
  {
    if limit == 0 || k == 0 || InUnits(limit) + most <= CENTS_END {
      forall cfg: Config, today: int, now: int, actions: seq<Action>
        | cfg.maxCostPerDayCents == Some(limit) && CostsAtMost(actions, most)
        ensures var spent := DaySpend(cfg, k, today, now, actions);
                spent == 0 || spent < InUnits(limit) + k * most
      {
        DailyBound(cfg, limit, k, most, today, now, actions);
      }
    } else {
      var actions := BudgetCanBeBroken(limit, k, most);
      var cfg := Config(Some(limit), None);
      TotalIsWhatWasCharged(cfg, k, 0, 0, actions);
      assert k * most >= 0 && DaySpend(cfg, k, 0, 0, actions) >= InUnits(limit) + k * most;
    }
  }
}
