/**
 The cost guard: a daily budget and an hourly sliding window, shared by every agent thread.

 Each lock region of the program is one function on `GuardState`; the class runs the same
 regions in place. `GuardRuns` interleaves the regions of several clients.
 */
module CostGuard {
  import opened Intervals
  import opened Wrappers

  // Times are nanoseconds of one monotonic clock; money is counted in 10^-10 dollars.
  const HOUR: int := 3600 * 1_000_000_000
  const UNITS_PER_CENT: nat := 100_000_000
  const U64_MAX: nat := 0xFFFF_FFFF_FFFF_FFFF

  type U64 = n: nat | n <= U64_MAX

  datatype Config = Config(maxCostPerDayCents: Option<U64>, maxActionsPerHour: Option<U64>)

  datatype LimitExceeded =
    | DailyBudget(spentCents: nat, limitCents: nat)
    | HourlyRate(actions: nat, limit: nat)

  datatype GuardState = GuardState(total: nat, resetDate: int, window: seq<int>, exceeded: bool)

  // Whole cents, truncated. A cent count that does not fit 64 bits fails to parse and reads as 0.
  function ToCents(total: nat): nat {
    var cents := total / UNITS_PER_CENT;
    if cents <= U64_MAX then cents else 0
  }

  /** Whole-cent truncation decides `spent < limit` exactly, as long as the cents fit 64 bits. */
  lemma TruncationIsExact(total: nat, limitCents: U64)
    requires total < (U64_MAX + 1) * UNITS_PER_CENT
    ensures ToCents(total) < limitCents <==> total < limitCents * UNITS_PER_CENT
  {
    var cents := total / UNITS_PER_CENT;
    assert cents * UNITS_PER_CENT <= total < (cents + 1) * UNITS_PER_CENT;
  }

  // ----- Lock regions -----

  // The budget region of a check: an over-budget total trips the flag.
  function CheckBudget(cfg: Config, g: GuardState): (GuardState, Option<LimitExceeded>) {
    match cfg.maxCostPerDayCents
    case None => (g, None)
    case Some(limit) =>
      var spent := ToCents(g.total);
      if spent >= limit then (g.(exceeded := true), Some(DailyBudget(spent, limit))) else (g, None)
  }

  // Entries before the cutoff leave the window from the front.
  function Drain(window: seq<int>, cutoff: int): seq<int> {
    if window != [] && window[0] < cutoff then Drain(window[1..], cutoff) else window
  }

  // The rate region of a check.
  function CheckRate(cfg: Config, g: GuardState, now: int): (GuardState, Option<LimitExceeded>) {
    match cfg.maxActionsPerHour
    case None => (g, None)
    case Some(limit) =>
      var kept := Drain(g.window, now - HOUR);
      (g.(window := kept), if |kept| >= limit then Some(HourlyRate(|kept|, limit)) else None)
  }

  // The cost region of a record: a new date restarts the total and clears the flag first.
  function RecordCost(cfg: Config, g: GuardState, today: int, cost: nat): GuardState {
    var day := if today != g.resetDate then g.(total := 0, resetDate := today, exceeded := false) else g;
    var total := day.total + cost;
    var trips := cfg.maxCostPerDayCents.Some? && ToCents(total) >= cfg.maxCostPerDayCents.value;
    day.(total := total, exceeded := day.exceeded || trips)
  }

  // The window region of a record.
  function RecordAction(g: GuardState, now: int): GuardState {
    g.(window := g.window + [now])
  }

  // The whole check, when no other client runs between its regions.
  function Check(cfg: Config, g: GuardState, now: int): (GuardState, Option<LimitExceeded>) {
    if g.exceeded then
      (g, Some(DailyBudget(ToCents(g.total), if cfg.maxCostPerDayCents.Some? then cfg.maxCostPerDayCents.value else 0)))
    else
      var (g1, refusal) := CheckBudget(cfg, g);
      if refusal.Some? then (g1, refusal) else CheckRate(cfg, g1, now)
  }

  // ----- Draining the front is filtering by the cutoff -----

  function KeepFrom(s: seq<int>, cutoff: int): seq<int> {
    if s == [] then []
    else (if s[0] >= cutoff then [s[0]] else []) + KeepFrom(s[1..], cutoff)
  }

  lemma {:induction false} KeepFromAll(s: seq<int>, cutoff: int)
    requires forall i :: 0 <= i < |s| ==> s[i] >= cutoff
    ensures KeepFrom(s, cutoff) == s
  {
    if s != [] {
      KeepFromAll(s[1..], cutoff);
    }
  }

  /** On a sorted window the front drain keeps exactly the entries that are not older than the cutoff. */
  lemma {:induction false} DrainIsFilter(window: seq<int>, cutoff: int)
    requires Sorted(window)
    ensures Drain(window, cutoff) == KeepFrom(window, cutoff)
  {
    if window != [] {
      if window[0] < cutoff {
        DrainIsFilter(window[1..], cutoff);
      } else {
        KeepFromAll(window, cutoff);
      }
    }
  }

  /**
   A check passes exactly when the flag is unset, the total is below the daily limit and fewer than
   the hourly limit of timestamps are at most one hour old.
   */
  lemma CheckPassesExactly(cfg: Config, g: GuardState, now: int)
    requires Sorted(g.window) && g.total < (U64_MAX + 1) * UNITS_PER_CENT
    ensures Check(cfg, g, now).1.None? <==>
            && !g.exceeded
            && (cfg.maxCostPerDayCents.Some? ==> g.total < cfg.maxCostPerDayCents.value * UNITS_PER_CENT)
            && (cfg.maxActionsPerHour.Some? ==> |KeepFrom(g.window, now - HOUR)| < cfg.maxActionsPerHour.value)
  {
    DrainIsFilter(g.window, now - HOUR);
    if cfg.maxCostPerDayCents.Some? {
      TruncationIsExact(g.total, cfg.maxCostPerDayCents.value);
    }
  }

  /**
   A refusal tells why: the daily budget only with the flag set from then on, and the amount in whole
   cents; the hourly rate only with the flag unset, and the number of calls of the past hour. A check
   that passes leaves the flag and the total as they were.
   */
  lemma RefusalTells(cfg: Config, g: GuardState, now: int)
    requires Sorted(g.window)
    ensures var (after, refusal) := Check(cfg, g, now);
            var recent := KeepFrom(g.window, now - HOUR);
            && after.total == g.total && after.resetDate == g.resetDate
            && match refusal
               case None => after.exceeded == g.exceeded == false
               case Some(DailyBudget(spent, limit)) =>
                 && after.exceeded && after.window == g.window && spent == ToCents(g.total)
                 && limit == (if cfg.maxCostPerDayCents.Some? then cfg.maxCostPerDayCents.value else 0)
                 && (!g.exceeded ==> cfg.maxCostPerDayCents.Some? && spent >= limit)
               case Some(HourlyRate(calls, limit)) =>
                 && !after.exceeded && after.window == recent && calls == |recent|
                 && cfg.maxActionsPerHour == Some(limit) && calls >= limit
  {
    DrainIsFilter(g.window, now - HOUR);
  }

  // What the guard reports as spent on a date.
  function SpendShown(g: GuardState, today: int): nat {
    if today != g.resetDate then 0 else g.total
  }

  // What a drain drops is a prefix of expired entries.
  lemma {:induction false} DrainSplits(window: seq<int>, cutoff: int)
    ensures var kept := Drain(window, cutoff);
            |kept| <= |window| && kept == window[|window| - |kept|..]
            && (forall i :: 0 <= i < |window| - |kept| ==> window[i] < cutoff)
            && (kept != [] ==> kept[0] >= cutoff)
  {
    if window != [] && window[0] < cutoff {
      DrainSplits(window[1..], cutoff);
    }
  }

  // ----- The guard itself -----

  class Guard {
    const config: Config
    var total: nat
    var resetDate: int
    var window: seq<int>
    var exceeded: bool

    function State(): GuardState reads this {
      GuardState(total, resetDate, window, exceeded)
    }

    constructor (config: Config, today: int)
      ensures this.config == config && State() == GuardState(0, today, [], false)
    {
      this.config := config;
      total, resetDate, window, exceeded := 0, today, [], false;
    }

    method DrainExpired(now: int)
      modifies this`window
      ensures window == Drain(old(window), now - HOUR)
    {
      var cutoff := now - HOUR;
      while window != [] && window[0] < cutoff
        invariant Drain(window, cutoff) == Drain(old(window), cutoff)
        decreases |window|
      {
        window := window[1..];
      }
    }

    method CheckAllowed(now: int) returns (refusal: Option<LimitExceeded>)
      modifies this
      ensures (State(), refusal) == Check(config, old(State()), now)
    {
      if exceeded {
        var limit := 0;
        if config.maxCostPerDayCents.Some? {
          limit := config.maxCostPerDayCents.value;
        }
        return Some(DailyBudget(ToCents(total), limit));
      }
      if config.maxCostPerDayCents.Some? {
        var limit := config.maxCostPerDayCents.value;
        var spent := ToCents(total);
        if spent >= limit {
          exceeded := true;
          return Some(DailyBudget(spent, limit));
        }
      }
      if config.maxActionsPerHour.Some? {
        var limit := config.maxActionsPerHour.value;
        DrainExpired(now);
        if |window| >= limit {
          return Some(HourlyRate(|window|, limit));
        }
      }
      return None;
    }

    method RecordLlmCall(today: int, now: int, cost: nat)
      modifies this
      ensures State() == RecordAction(RecordCost(config, old(State()), today, cost), now)
    {
      if today != resetDate {
        total, resetDate, exceeded := 0, today, false;
      }
      total := total + cost;
      if config.maxCostPerDayCents.Some? {
        if ToCents(total) >= config.maxCostPerDayCents.value {
          exceeded := true;
        }
      }
      window := window + [now];
    }

    method DailySpend(today: int) returns (spend: nat)
      ensures spend == SpendShown(State(), today)
    {
      spend := if today != resetDate then 0 else total;
    }

    method ActionsThisHour(now: int) returns (count: nat)
      modifies this`window
      ensures window == Drain(old(window), now - HOUR) && count == |window|
    {
      DrainExpired(now);
      count := |window|;
    }
  }
}
