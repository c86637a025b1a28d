/**
 The fixed-window limiter in front of the HTTP webhook, and its bound over any minute.
 */
module WebhookLimiter {
  import opened Intervals
  import opened Wrappers

  const MINUTE: int := 60 * 1_000_000_000
  const MAX_REQUESTS_PER_MINUTE: nat := 60
  const U32_VALUES: nat := 0x1_0000_0000

  datatype LimiterState = LimiterState(windowStart: int, requestCount: nat)

  // The clock is read once for the elapsed time, and again if the window restarts.
  datatype Arrival = Arrival(checked: int, stamped: int)

  // The counter is 32 bits wide and wraps.
  function Admit(s: LimiterState, a: Arrival): (LimiterState, bool) {
    var began := if a.checked - s.windowStart >= MINUTE then LimiterState(a.stamped, 0) else s;
    var counted := began.(requestCount := (began.requestCount + 1) % U32_VALUES);
    (counted, counted.requestCount <= MAX_REQUESTS_PER_MINUTE)
  }

  class Limiter {
    var windowStart: int
    var requestCount: nat

    function State(): LimiterState reads this {
      LimiterState(windowStart, requestCount)
    }

    constructor (now: int)
      ensures State() == LimiterState(now, 0)
    {
      windowStart, requestCount := now, 0;
    }

    method HandleRequest(a: Arrival) returns (accepted: bool)
      modifies this
      ensures (State(), accepted) == Admit(old(State()), a)
    {
      if a.checked - windowStart >= MINUTE {
        windowStart := a.stamped;
        requestCount := 0;
      }
      requestCount := (requestCount + 1) % U32_VALUES;
      if requestCount > MAX_REQUESTS_PER_MINUTE {
        return false;
      }
      return true;
    }
  }

  // ----- Runs -----

  ghost predicate InOrder(start: int, arrivals: seq<Arrival>) {
    && (forall i :: 0 <= i < |arrivals| ==> start <= arrivals[i].checked <= arrivals[i].stamped)
    && (forall i, j :: 0 <= i < j < |arrivals| ==> arrivals[i].stamped <= arrivals[j].checked)
  }

  // Any n consecutive requests take at least a minute.
  ghost predicate Paced(arrivals: seq<Arrival>, n: nat)
    requires n >= 1
  {
    forall i, j :: 0 <= i && j == i + n - 1 < |arrivals| ==> arrivals[j].checked - arrivals[i].stamped >= MINUTE
  }

  function StateAfter(start: int, arrivals: seq<Arrival>): LimiterState {
    if arrivals == [] then LimiterState(start, 0)
    else Admit(StateAfter(start, arrivals[..|arrivals| - 1]), arrivals[|arrivals| - 1]).0
  }

  // Times of the accepted requests.
  function Accepted(start: int, arrivals: seq<Arrival>): seq<int> {
    if arrivals == [] then []
    else
      var earlier := arrivals[..|arrivals| - 1];
      var last := arrivals[|arrivals| - 1];
      Accepted(start, earlier) + (if Admit(StateAfter(start, earlier), last).1 then [last.checked] else [])
  }

  // A new window begins with arrival `at`, and none of the later ones begins another.
  ghost predicate BeginsAt(start: int, arrivals: seq<Arrival>, at: nat) {
    && at < |arrivals| && arrivals[at].checked - StateAfter(start, arrivals[..at]).windowStart >= 60_000_000_000
    && forall j :: at < j < |arrivals| ==> arrivals[j].checked - arrivals[at].stamped < 60_000_000_000
  }

  /**
   The window is the one that the last arrival a minute or more into its predecessor began, at the time
   it was stamped, or the first one; the counter counts its arrivals in 32 bits, refused ones included.
   */
  lemma {:induction false} WindowIsExact(start: int, arrivals: seq<Arrival>) returns (began: Option<nat>)
    ensures var s := StateAfter(start, arrivals);
      match began
      case Some(at) =>
        && BeginsAt(start, arrivals, at) && s.windowStart == arrivals[at].stamped
        && s.requestCount == (|arrivals| - at) % 0x1_0000_0000
      case None =>
        && (forall j :: 0 <= j < |arrivals| ==> arrivals[j].checked - start < 60_000_000_000)
        && s.windowStart == start && s.requestCount == |arrivals| % 0x1_0000_0000
  {
    if arrivals == [] { return None; }
    var n := |arrivals| - 1;
    var earlier := arrivals[..n];
    began := WindowIsExact(start, earlier);
    var s := StateAfter(start, earlier);
    if arrivals[n].checked - s.windowStart >= MINUTE {
      return Some(n);
    }
    match began {
      case Some(at) =>
        assert earlier[..at] == arrivals[..at] && earlier[at] == arrivals[at];
        forall j | at < j < |arrivals| ensures arrivals[j].checked - arrivals[at].stamped < 60_000_000_000 {
          if j < n { assert earlier[j] == arrivals[j]; }
        }
        CountsOneMore(n - at);
      case None =>
        forall j | 0 <= j < |arrivals| ensures arrivals[j].checked - start < 60_000_000_000 {
          if j < n { assert earlier[j] == arrivals[j]; }
        }
        CountsOneMore(n);
    }
  }

  lemma CountsOneMore(count: nat)
    ensures (count % U32_VALUES + 1) % U32_VALUES == (count + 1) % U32_VALUES
  {
  }

  /** A request is accepted exactly when its window, this one included, has counted at most 60. */
  lemma AcceptedExactly(start: int, arrivals: seq<Arrival>, last: Arrival)
    ensures |Accepted(start, arrivals + [last])|
         == |Accepted(start, arrivals)|
            + if StateAfter(start, arrivals + [last]).requestCount <= 60 then 1 else 0
  {
    assert (arrivals + [last])[..|arrivals|] == arrivals;
  }

  // The last `since` arrivals came in the current window, and the counter counts them unwrapped.
  ghost predicate WindowShape(s: LimiterState, start: int, arrivals: seq<Arrival>, since: nat) {
    && since <= |arrivals| && since < U32_VALUES
    && s.requestCount == since
    && (forall i :: |arrivals| - since <= i < |arrivals| ==> s.windowStart <= arrivals[i].stamped)
    && s.windowStart <= (if arrivals == [] then start else arrivals[|arrivals| - 1].stamped)
  }

  // The accepted times, split at the current window and at the one before it.
  ghost predicate AcceptedShape(s: LimiterState, accepted: seq<int>, inWindow: nat, began: int) {
    && inWindow <= MAX_REQUESTS_PER_MINUTE && inWindow <= |accepted| && began <= s.windowStart
    && (forall i :: 0 <= i < |accepted| ==> accepted[i] < s.windowStart + MINUTE)
    && (forall i :: 0 <= i < |accepted| - inWindow ==> accepted[i] < s.windowStart)
    && (forall i :: 0 <= i < |accepted| - inWindow - MAX_REQUESTS_PER_MINUTE ==> accepted[i] + MINUTE < began)
  }

  ghost predicate Apart(accepted: seq<int>) {
    Spread(accepted, 2 * MAX_REQUESTS_PER_MINUTE, MINUTE)
  }

  function Min(a: nat, b: nat): nat { if a < b then a else b }

  // A new window leaves the previous one wholly before its start.
  lemma OpensWindow(s: LimiterState, accepted: seq<int>, inWindow: nat, began: int, a: Arrival)
    requires AcceptedShape(s, accepted, inWindow, began)
    requires a.checked - s.windowStart >= MINUTE && a.checked <= a.stamped
    ensures AcceptedShape(LimiterState(a.stamped, 0), accepted, 0, a.checked)
  {
  }

  // One more accepted request keeps any two 120 places apart more than a minute apart.
  lemma AcceptsOne(s: LimiterState, accepted: seq<int>, inWindow: nat, began: int, time: int)
    requires AcceptedShape(s, accepted, inWindow, began) && Apart(accepted)
    requires inWindow < MAX_REQUESTS_PER_MINUTE && began <= time < s.windowStart + MINUTE
    ensures AcceptedShape(s, accepted + [time], inWindow + 1, began) && Apart(accepted + [time])
  {
  }

  lemma CountsArrival(s: LimiterState, start: int, earlier: seq<Arrival>, last: Arrival, since: nat)
    requires InOrder(start, earlier + [last]) && Paced(earlier + [last], U32_VALUES)
    requires WindowShape(s, start, earlier, since)
    ensures last.checked >= s.windowStart && (last.checked - s.windowStart < MINUTE ==> since + 1 < U32_VALUES)
    ensures WindowShape(Admit(s, last).0, start, earlier + [last],
                        if last.checked - s.windowStart >= MINUTE then 1 else since + 1)
  {
    var arrivals := earlier + [last];
    var n := |earlier|;
    assert arrivals[n] == last;
    if n > 0 {
      assert arrivals[n - 1] == earlier[n - 1];
    }
    if last.checked - s.windowStart < MINUTE {
      var first := arrivals[n - since];
      assert since > 0 ==> first == earlier[n - since];
      assert since + 1 < U32_VALUES;
    }
  }

  // One more request keeps the shape of the accepted times.
  lemma AdmitKeepsShape(s: LimiterState, accepted: seq<int>, since: nat, began: int, last: Arrival)
    returns (began': int)
    requires AcceptedShape(s, accepted, Min(since, MAX_REQUESTS_PER_MINUTE), began) && Apart(accepted)
    requires s.requestCount == since && (last.checked - s.windowStart < MINUTE ==> since + 1 < U32_VALUES)
    requires s.windowStart <= last.checked <= last.stamped
    ensures var (t, ok) := Admit(s, last);
            var longer := accepted + (if ok then [last.checked] else []);
            var since' := if last.checked - s.windowStart >= MINUTE then 1 else since + 1;
            Apart(longer) && AcceptedShape(t, longer, Min(since', MAX_REQUESTS_PER_MINUTE), began')
  {
    if last.checked - s.windowStart >= MINUTE {
      began' := last.checked;
      OpensWindow(s, accepted, Min(since, MAX_REQUESTS_PER_MINUTE), began, last);
      AcceptsOne(LimiterState(last.stamped, 0), accepted, 0, began', last.checked);
    } else {
      began' := began;
      if since < MAX_REQUESTS_PER_MINUTE {
        AcceptsOne(s, accepted, since, began, last.checked);
      } else {
        assert accepted + [] == accepted;
      }
    }
  }

  lemma {:induction false} WindowRun(start: int, arrivals: seq<Arrival>) returns (since: nat, began: int)
    requires InOrder(start, arrivals) && Paced(arrivals, U32_VALUES)
    ensures WindowShape(StateAfter(start, arrivals), start, arrivals, since)
    ensures AcceptedShape(StateAfter(start, arrivals), Accepted(start, arrivals),
            Min(since, MAX_REQUESTS_PER_MINUTE), began)
    ensures Apart(Accepted(start, arrivals))
  {
    if arrivals == [] {
      return 0, start;
    }
    var n := |arrivals| - 1;
    var earlier, last := arrivals[..n], arrivals[n];
    assert arrivals == earlier + [last];
    PrefixSuffices(arrivals, n);
    var before, beganBefore := WindowRun(start, earlier);
    var s := StateAfter(start, earlier);
    CountsArrival(s, start, earlier, last, before);
    since := if last.checked - s.windowStart >= MINUTE then 1 else before + 1;
    began := AdmitKeepsShape(s, Accepted(start, earlier), before, beganBefore, last);
  }

  lemma PrefixSuffices(arrivals: seq<Arrival>, n: nat)
    requires n <= |arrivals| && Paced(arrivals, U32_VALUES)
    ensures Paced(arrivals[..n], U32_VALUES)
  {
    var some := arrivals[..n];
    forall i, j | 0 <= i && j == i + U32_VALUES - 1 < n ensures some[j].checked - some[i].stamped >= MINUTE {
      assert arrivals[j].checked - arrivals[i].stamped >= MINUTE;
    }
  }

  lemma {:induction false} AcceptedInOrder(start: int, arrivals: seq<Arrival>)
    requires InOrder(start, arrivals)
    ensures var accepted := Accepted(start, arrivals);
            Sorted(accepted)
            && (accepted != [] ==> accepted[|accepted| - 1] <= arrivals[|arrivals| - 1].checked)
  {
    if arrivals != [] {
      var n := |arrivals| - 1;
      AcceptedInOrder(start, arrivals[..n]);
      if n > 0 { assert arrivals[n - 1].stamped <= arrivals[n].checked; }
    }
  }

  // How many requests of the closed minute from `lo` on are accepted.
  function AcceptedInMinute(start: int, arrivals: seq<Arrival>, lo: int): nat {
    CountWithin(Accepted(start, arrivals), lo, lo + 60_000_000_000)
  }

  // No closed interval of one minute contains more than 120 accepted requests.
  ghost predicate KeepsMinutes(start: int, arrivals: seq<Arrival>) {
    forall lo :: AcceptedInMinute(start, arrivals, lo) <= 120
  }

  /**
   Where the counter does not wrap within a window, each closed interval of one minute contains at
   most 120 accepted requests: no minute meets three windows.
   */
  lemma MinuteBound(start: int, arrivals: seq<Arrival>)
    requires InOrder(start, arrivals) && Paced(arrivals, U32_VALUES)
    ensures KeepsMinutes(start, arrivals)
  {
    hide InOrder, Paced, Accepted, StateAfter, WindowShape, AcceptedShape, CountWithin, Sorted, Spread;
    var since, began := WindowRun(start, arrivals);
    AcceptedInOrder(start, arrivals);
    forall lo ensures AcceptedInMinute(start, arrivals, lo) <= 2 * MAX_REQUESTS_PER_MINUTE {
      SpreadBoundsInterval(Accepted(start, arrivals), 2 * MAX_REQUESTS_PER_MINUTE, MINUTE, lo);
    }
  }

  // `first` requests at `start`, the others exactly one minute later.
  function Bursts(start: int, first: nat, count: nat): seq<Arrival> {
    seq(count, i => if i < first then Arrival(start, start) else Arrival(start + MINUTE, start + MINUTE))
  }

  // The state after the first `count` of two bursts of 60.
  function BurstState(start: int, count: nat): LimiterState {
    if count <= MAX_REQUESTS_PER_MINUTE then LimiterState(start, count)
    else LimiterState(start + MINUTE, count - MAX_REQUESTS_PER_MINUTE)
  }

  lemma BurstStep(start: int, count: nat)
    requires count < 2 * MAX_REQUESTS_PER_MINUTE
    ensures var time := if count < MAX_REQUESTS_PER_MINUTE then start else start + MINUTE;
            Admit(BurstState(start, count), Arrival(time, time)) == (BurstState(start, count + 1), true)
  {
  }

  lemma {:induction false} TwoBursts(start: int, count: nat)
    requires count <= 2 * MAX_REQUESTS_PER_MINUTE
    ensures var arrivals := Bursts(start, MAX_REQUESTS_PER_MINUTE, count);
            StateAfter(start, arrivals) == BurstState(start, count)
            && CountWithin(Accepted(start, arrivals), start, start + MINUTE) == count
  {
    if count > 0 {
      TwoBursts(start, count - 1);
      BurstStep(start, count - 1);
      var time := if count - 1 < MAX_REQUESTS_PER_MINUTE then start else start + MINUTE;
      var earlier := Bursts(start, MAX_REQUESTS_PER_MINUTE, count - 1);
      assert Bursts(start, MAX_REQUESTS_PER_MINUTE, count) == earlier + [Arrival(time, time)];
      AppendCounts(start, earlier, Arrival(time, time));
    }
  }

  // What the last request adds to the state and to the count of an interval that contains it.
  lemma AppendCounts(start: int, earlier: seq<Arrival>, last: Arrival)
    requires start <= last.checked <= start + MINUTE
    ensures var (s, ok) := Admit(StateAfter(start, earlier), last);
            StateAfter(start, earlier + [last]) == s
            && CountWithin(Accepted(start, earlier + [last]), start, start + MINUTE)
               == CountWithin(Accepted(start, earlier), start, start + MINUTE) + (if ok then 1 else 0)
  {
    assert (earlier + [last])[..|earlier|] == earlier;
    var longer := Accepted(start, earlier) + [last.checked];
    assert longer[..|longer| - 1] == Accepted(start, earlier);
    assert Accepted(start, earlier) + [] == Accepted(start, earlier);
  }

  /** The bound of 120 is attained: 60 requests now and 60 one minute later are all accepted. */
  lemma MinuteBoundIsAttained(start: int)
    ensures var arrivals := Bursts(start, MAX_REQUESTS_PER_MINUTE, 2 * MAX_REQUESTS_PER_MINUTE);
            InOrder(start, arrivals) && Paced(arrivals, U32_VALUES)
            && CountWithin(Accepted(start, arrivals), start, start + MINUTE) == 2 * MAX_REQUESTS_PER_MINUTE
  {
    TwoBursts(start, 2 * MAX_REQUESTS_PER_MINUTE);
  }

  // ----- Beyond the counter -----

  // How many of `count` requests at one instant are accepted, up to 60 past the wrap.
  function AcceptedOfBurst(count: nat): nat {
    Min(count, MAX_REQUESTS_PER_MINUTE) + (if count < U32_VALUES then 0 else count - U32_VALUES + 1)
  }

  lemma LongBurstStep(start: int, count: nat)
    requires count < U32_VALUES + MAX_REQUESTS_PER_MINUTE
    ensures var (s, ok) := Admit(LimiterState(start, count % U32_VALUES), Arrival(start, start));
            s == LimiterState(start, (count + 1) % U32_VALUES)
            && AcceptedOfBurst(count + 1) == AcceptedOfBurst(count) + (if ok then 1 else 0)
  {
    if count < U32_VALUES {
      assert count % U32_VALUES == count;
    } else {
      assert count % U32_VALUES == count - U32_VALUES;
    }
  }

  // 60 requests, and one minute later as many as make the counter wrap.
  lemma {:induction false} BurstThatWraps(start: int, later: nat)
    requires 1 <= later <= U32_VALUES
    ensures var arrivals := Bursts(start, MAX_REQUESTS_PER_MINUTE, MAX_REQUESTS_PER_MINUTE + later);
            StateAfter(start, arrivals) == LimiterState(start + MINUTE, later % U32_VALUES)
            && CountWithin(Accepted(start, arrivals), start, start + MINUTE)
               == MAX_REQUESTS_PER_MINUTE + AcceptedOfBurst(later)
  {
    var count := MAX_REQUESTS_PER_MINUTE + later;
    if later == 1 {
      TwoBursts(start, count);
    } else {
      BurstThatWraps(start, later - 1);
      LongBurstStep(start + MINUTE, later - 1);
      var earlier := Bursts(start, MAX_REQUESTS_PER_MINUTE, count - 1);
      var last := Arrival(start + MINUTE, start + MINUTE);
      assert Bursts(start, MAX_REQUESTS_PER_MINUTE, count) == earlier + [last];
      AppendCounts(start, earlier, last);
    }
  }

  // Arrivals in order, any n of them in a row a minute long, keep the bound.
  ghost predicate MinuteBoundHolds(n: nat)
    requires n >= 1
  {
    forall start: int, arrivals: seq<Arrival> ::
      InOrder(start, arrivals) && Paced(arrivals, n) ==> KeepsMinutes(start, arrivals)
  }

  // What n requests take, more of them take as well.
  lemma PacedByMore(start: int, arrivals: seq<Arrival>, n: nat, more: nat)
    requires 1 <= n <= more && InOrder(start, arrivals) && Paced(arrivals, n)
    ensures Paced(arrivals, more)
  {
    forall i, j | 0 <= i && j == i + more - 1 < |arrivals| ensures arrivals[j].checked - arrivals[i].stamped >= MINUTE {
      var k := i + n - 1;
      assert arrivals[k].checked - arrivals[i].stamped >= MINUTE;
      if k < j { assert arrivals[k].stamped <= arrivals[j].checked; }
    }
  }

  /**
   At most 120 requests pass in any minute, over all arrivals in order of which n in a row take at
   least a minute, exactly when n is at most 2^32. Beyond, the counter can wrap within a window.
   */
  lemma MinuteBoundExactly(n: nat)
    requires n >= 1
    ensures MinuteBoundHolds(n) <==> n <= 0x1_0000_0000
  {
    if n <= U32_VALUES {
      forall start: int, arrivals: seq<Arrival> | InOrder(start, arrivals) && Paced(arrivals, n)
        ensures KeepsMinutes(start, arrivals)
      {
        PacedByMore(start, arrivals, n, U32_VALUES);
        MinuteBound(start, arrivals);
      }
    } else {
      var arrivals := Bursts(0, MAX_REQUESTS_PER_MINUTE, MAX_REQUESTS_PER_MINUTE + U32_VALUES);
      BurstThatWraps(0, U32_VALUES);
      assert AcceptedInMinute(0, arrivals, 0) == 2 * MAX_REQUESTS_PER_MINUTE + 1;
      assert InOrder(0, arrivals) && Paced(arrivals, n);
    }
  }
}
