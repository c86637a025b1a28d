/**
 The workers of the scheduler over whole runs: when they stay within the cap, and when one of them
 drops out of the table.
 */
module JobRuns {
  import opened JobTable

  // A worker that runs and was not told to stop.
  ghost predicate Live(t: Table, handle: nat) {
    handle < |t.inserted| && handle !in t.ended && handle !in t.stopped
  }

  ghost predicate AllTracked(t: Table) {
    forall h :: Live(t, h) ==> Tracked(t, h)
  }

  // A cleaner is about to remove the entry of a worker that still runs.
  ghost predicate RemovesLive(t: Table, m: Move) {
    && m.CleanerMoves? && m.handle < |t.inserted| && m.handle in t.cleaners && t.cleaners[m.handle] == Removing
    && t.inserted[m.handle] in t.jobs && Live(t, t.jobs[t.inserted[m.handle]])
  }

  /**
   A running worker drops out of the table exactly when a cleaner removes an entry that looked
   finished to it and was scheduled again since.
   */
  lemma WorkerIsLostExactly(t: Table, m: Move)
    requires Sound(t) && AllTracked(t)
    ensures !AllTracked(Step(t, m)) <==> RemovesLive(t, m)
    ensures RemovesLive(t, m) ==> t.jobs[t.inserted[m.handle]] != m.handle
  {
    hide CanTransition;
    var after := Step(t, m);
    if RemovesLive(t, m) {
      var lost := t.jobs[t.inserted[m.handle]];
      assert EntrySound(t, t.inserted[m.handle]) && Tracked(t, lost);
      assert CleanerSound(t, m.handle);
      assert Live(after, lost) && !Tracked(after, lost);
    } else {
      forall h: nat | Live(after, h) ensures Tracked(after, h) {
        if h < |t.inserted| {
          assert Live(t, h) && Tracked(t, h);
        }
      }
    }
  }

  lemma LiveFit(t: Table, live: set<nat>)
    requires AllTracked(t) && forall h :: h in live ==> Live(t, h)
    ensures |live| <= |t.jobs|
  {
    forall h | h in live ensures Tracked(t, h) {}
    ImageSize(live, t.inserted, t.jobs.Keys);
  }

  // Distinct handles with distinct jobs among `jobs`.
  lemma {:induction false} ImageSize(live: set<nat>, inserted: seq<nat>, jobs: set<nat>)
    requires forall h :: h in live ==> h < |inserted| && inserted[h] in jobs
    requires forall a, b :: a in live && b in live && inserted[a] == inserted[b] ==> a == b
    ensures |live| <= |jobs|
  {
    if live != {} {
      var h :| h in live;
      ImageSize(live - {h}, inserted, jobs - {inserted[h]});
    }
  }

  // ----- No reuse of a job that still has a cleaner -----

  // A job that is scheduled has no cleaner left of an earlier time.
  ghost predicate ReusesNone(t: Table, m: Move) {
    m.Schedule? && CanSchedule(t, m.job) ==> forall h :: h in t.cleaners && h < |t.inserted| ==> t.inserted[h] != m.job
  }

  ghost predicate NoReuse(t: Table, moves: seq<Move>)
    decreases |moves|
  {
    moves == [] || (ReusesNone(t, moves[0]) && NoReuse(Step(t, moves[0]), moves[1..]))
  }

  ghost predicate OneCleaner(t: Table) {
    forall h :: h in t.cleaners && h < |t.inserted| && t.inserted[h] in t.jobs ==> t.jobs[t.inserted[h]] == h
  }

  lemma OneCleanerStays(t: Table, m: Move)
    requires OneCleaner(t) && ReusesNone(t, m)
    ensures OneCleaner(Step(t, m))
  {
    hide CanTransition;
  }

  lemma NotLost(t: Table, m: Move)
    requires Sound(t) && AllTracked(t) && OneCleaner(t)
    ensures AllTracked(Step(t, m))
  {
    WorkerIsLostExactly(t, m);
    hide AllTracked, Step, Live;
  }

  lemma {:induction false} NoReuseKeepsTracked(t: Table, moves: seq<Move>)
    requires Sound(t) && AllTracked(t) && OneCleaner(t) && NoReuse(t, moves)
    ensures AllTracked(Run(t, moves))
    decreases |moves|
  {
    if moves != [] {
      var m := moves[0];
      StepKeepsSound(t, m);
      NotLost(t, m);
      OneCleanerStays(t, m);
      hide Sound, AllTracked, OneCleaner, Step;
      NoReuseKeepsTracked(Step(t, m), moves[1..]);
    }
  }

  /** Where no job is scheduled again before its earlier cleaners are gone, the workers that run stay within the cap. */
  lemma LiveWorkersWithinCap(max: nat, moves: seq<Move>, live: set<nat>)
    requires NoReuse(NewTable(max), moves)
    requires forall h :: h in live ==> Live(Run(NewTable(max), moves), h)
    ensures |live| <= max
  {
    NoReuseKeepsTracked(NewTable(max), moves);
    RunKeepsSound(NewTable(max), moves);
    LiveFit(Run(NewTable(max), moves), live);
  }

  // ----- Jobs handed in once -----

  function Requests(moves: seq<Move>, job: nat): nat {
    if moves == [] then 0 else (if moves[0] == Schedule(job) then 1 else 0) + Requests(moves[1..], job)
  }

  ghost predicate OnlyOnce(t: Table, moves: seq<Move>) {
    forall job :: Requests(moves, job) <= if job in t.inserted then 0 else 1
  }

  lemma OnlyOnceStep(t: Table, moves: seq<Move>)
    requires moves != [] && OnlyOnce(t, moves)
    ensures ReusesNone(t, moves[0]) && OnlyOnce(Step(t, moves[0]), moves[1..])
  {
    hide CanTransition;
    var m := moves[0];
    if m.Schedule? {
      assert Requests(moves, m.job) >= 1;
      assert m.job !in t.inserted;
    }
    forall job ensures Requests(moves[1..], job) <= if job in Step(t, m).inserted then 0 else 1 {
      assert Requests(moves, job) <= if job in t.inserted then 0 else 1;
    }
  }

  lemma {:induction false} OnlyOnceReusesNone(t: Table, moves: seq<Move>)
    requires OnlyOnce(t, moves)
    ensures NoReuse(t, moves)
    decreases |moves|
  {
    if moves != [] {
      OnlyOnceStep(t, moves);
      hide Step, OnlyOnce;
      OnlyOnceReusesNone(Step(t, moves[0]), moves[1..]);
    }
  }

  // ----- Without the extra cleanup -----

  // A job in one of these states is never in progress again.
  predicate Over(state: JobState) {
    || state == Completed || state == Submitted || state == Accepted
    || state == Failed || state == Cancelled || state == Removed
  }

  // A cleaner whose entry is gone belongs to a job that is over.
  ghost predicate CleanersAreCurrent(t: Table) {
    && (forall h :: h in t.cleaners && h < |t.inserted| ==>
          var job := t.inserted[h];
          if job in t.jobs then t.jobs[job] == h else Over(Context(t.contexts, job)))
    && ContextsKnown(t)
  }

  lemma TransitionsStay(contexts: map<nat, JobState>, job: nat, to: JobState, other: nat)
    ensures var after := Transitioned(contexts, job, to);
      && (Over(Context(contexts, other)) ==> Over(Context(after, other)))
      && (Context(contexts, other) != NotCreated ==> Context(after, other) != NotCreated)
  {
  }

  lemma StoppedIsOver(contexts: map<nat, JobState>, job: nat)
    ensures Context(contexts, job) != NotCreated ==> Over(Context(Transitioned(contexts, job, Cancelled), job))
  {
  }

  lemma ScheduleStaysCurrent(t: Table, job: nat)
    requires CleanersAreCurrent(t) && CanSchedule(t, job)
    ensures CleanersAreCurrent(Scheduled(t, job)) && ReusesNone(t, Schedule(job))
  {
    assert !Over(Context(t.contexts, job));
  }

  lemma CleanerStaysCurrent(t: Table, handle: nat)
    requires CleanersAreCurrent(t) && handle < |t.inserted| && handle in t.cleaners
    ensures CleanersAreCurrent(CleanerMoved(t, handle))
  {
    hide Over, Context;
  }

  // Contexts move on, and one entry may go whose job is over by then.
  lemma ContextsStayCurrent(t: Table, after: Table, job: nat, to: JobState)
    requires CleanersAreCurrent(t) && after.inserted == t.inserted && after.cleaners == t.cleaners
    requires after.contexts == Transitioned(t.contexts, job, to)
    requires after.jobs == t.jobs
             || (job in t.jobs && after.jobs == t.jobs - {job} && Over(Context(after.contexts, job)))
    ensures CleanersAreCurrent(after)
  {
    forall h | 0 <= h < |t.inserted|
      ensures (Over(Context(t.contexts, t.inserted[h])) ==> Over(Context(after.contexts, t.inserted[h])))
              && (Context(t.contexts, t.inserted[h]) != NotCreated ==>
                       Context(after.contexts, t.inserted[h]) != NotCreated)
    {
      TransitionsStay(t.contexts, job, to, t.inserted[h]);
    }
    hide Over, Context, Transitioned;
  }

  lemma CurrentStays(t: Table, m: Move)
    requires Sound(t) && CleanersAreCurrent(t) && !m.CleanupFinished?
    ensures CleanersAreCurrent(Step(t, m)) && ReusesNone(t, m)
  {
    match m
    case Schedule(job) =>
      if CanSchedule(t, job) { ScheduleStaysCurrent(t, job); }
    case CleanerMoves(handle) =>
      if handle < |t.inserted| && handle in t.cleaners { CleanerStaysCurrent(t, handle); }
    case Stop(job) =>
      if job in t.jobs {
        EntriesHaveCleaners(t);
        StoppedIsOver(t.contexts, job);
        ContextsStayCurrent(t, Stopped(t, job), job, Cancelled);
      }
    case ContextMoves(job, to) =>
      hide Transitioned, CanTransition, Sound;
      ContextsStayCurrent(t, Step(t, m), job, to);
    case WorkerEnds(_) =>
  }

  lemma {:induction false} NoCleanupReusesNone(t: Table, moves: seq<Move>)
    requires Sound(t) && CleanersAreCurrent(t) && CleanupFinished !in moves
    ensures NoReuse(t, moves)
    decreases |moves|
  {
    if moves != [] {
      StepKeepsSound(t, moves[0]);
      CurrentStays(t, moves[0]);
      hide Step, Sound, CleanersAreCurrent;
      NoCleanupReusesNone(Step(t, moves[0]), moves[1..]);
    }
  }

  // Every job that was ever inserted has a context, or had one.
  ghost predicate ContextsKnown(t: Table) {
    forall h :: 0 <= h < |t.inserted| ==> Context(t.contexts, t.inserted[h]) != NotCreated
  }

  lemma ContextsStayKnown(t: Table, m: Move)
    requires ContextsKnown(t)
    ensures ContextsKnown(Step(t, m))
  {
    forall h | 0 <= h < |t.inserted| ensures Context(Step(t, m).contexts, t.inserted[h]) != NotCreated {
      if m.ContextMoves? { TransitionsStay(t.contexts, m.job, m.to, t.inserted[h]); }
      if m.Stop? { TransitionsStay(t.contexts, m.job, Cancelled, t.inserted[h]); }
    }
    hide CanTransition, Transitioned, CleanerMoved, Unfinished;
  }

  lemma {:induction false} ContextsKnownInRun(t: Table, moves: seq<Move>)
    requires ContextsKnown(t)
    ensures ContextsKnown(Run(t, moves))
    decreases |moves|
  {
    hide Step, ContextsKnown;
    if moves != [] {
      ContextsStayKnown(t, moves[0]);
      ContextsKnownInRun(Step(t, moves[0]), moves[1..]);
    }
  }

  lemma OverStaysOut(t: Table, m: Move, job: nat)
    requires job !in t.jobs && Over(Context(t.contexts, job))
    ensures job !in Step(t, m).jobs && Over(Context(Step(t, m).contexts, job))
  {
    if m.ContextMoves? { TransitionsStay(t.contexts, m.job, m.to, job); }
    if m.Stop? { TransitionsStay(t.contexts, m.job, Cancelled, job); }
    hide Transitioned;
  }

  lemma {:induction false} OverStaysOutInRun(t: Table, job: nat, moves: seq<Move>)
    requires job !in t.jobs && Over(Context(t.contexts, job))
    ensures job !in Run(t, moves).jobs
    decreases |moves|
  {
    hide Step, Over;
    if moves != [] {
      OverStaysOut(t, moves[0], job);
      OverStaysOutInRun(Step(t, moves[0]), job, moves[1..]);
    }
  }

  /** Stopping a tracked job is final: its context is cancelled or over, so it is never tracked again. */
  lemma StopIsFinal(max: nat, before: seq<Move>, job: nat, after: seq<Move>)
    requires job in Run(NewTable(max), before).jobs
    ensures job !in Run(Step(Run(NewTable(max), before), Stop(job)), after).jobs
  {
    var t := Run(NewTable(max), before);
    RunKeepsSound(NewTable(max), before);
    EntriesHaveCleaners(t);
    ContextsKnownInRun(NewTable(max), before);
    StoppedIsOver(t.contexts, job);
    OverStaysOutInRun(Step(t, Stop(job)), job, after);
  }

  // A job that was recovered stays in progress, or is over, as long as it does not get stuck again.
  lemma RecoveredStays(t: Table, m: Move, job: nat)
    requires m != ContextMoves(job, Stuck)
    requires Context(t.contexts, job) == InProgress || Over(Context(t.contexts, job))
    ensures var state := Context(Step(t, m).contexts, job); state == InProgress || Over(state)
  {
  }

  lemma {:induction false} RecoveredStaysInRun(t: Table, moves: seq<Move>, job: nat)
    requires ContextMoves(job, Stuck) !in moves
    requires Context(t.contexts, job) == InProgress || Over(Context(t.contexts, job))
    ensures var state := Context(Run(t, moves).contexts, job); state == InProgress || Over(state)
    decreases |moves|
  {
    hide Step, Over;
    if moves != [] {
      RecoveredStays(t, moves[0], job);
      RecoveredStaysInRun(Step(t, moves[0]), moves[1..], job);
    }
  }

  /**
   Recovering a stuck job and then scheduling it starts nothing, in every table and whatever happens in
   between, unless the job gets stuck again in between.
   */
  lemma RecoveredJobIsNotStarted(t: Table, job: nat, between: seq<Move>)
    requires Context(t.contexts, job) == Stuck && ContextMoves(job, Stuck) !in between
    ensures Context(Step(t, ContextMoves(job, InProgress)).contexts, job) == InProgress
    ensures var before := Run(Step(t, ContextMoves(job, InProgress)), between); Step(before, Schedule(job)) == before
  {
    RecoveredStaysInRun(Step(t, ContextMoves(job, InProgress)), between, job);
  }

  /** A job that is stuck when it is scheduled starts exactly when it is not tracked and there is room. */
  lemma StuckJobStartsExactly(t: Table, job: nat)
    requires Context(t.contexts, job) == Stuck
    ensures |Step(t, Schedule(job)).inserted| > |t.inserted| <==> job !in t.jobs && |t.jobs| < t.max
  {
  }

  // ----- Beyond the cap -----

  lemma {:induction false} RunAppend(t: Table, a: seq<Move>, b: seq<Move>)
    ensures Run(t, a + b) == Run(Run(t, a), b)
    decreases |a|
  {
    hide Step;
    if a == [] {
      assert a + b == b;
    } else {
      assert (a + b)[1..] == a[1..] + b;
      RunAppend(Step(t, a[0]), a[1..], b);
    }
  }

  lemma RunThree(t: Table, a: Move, b: Move, c: Move)
    ensures Run(t, [a, b, c]) == Step(Step(Step(t, a), b), c)
  {
    hide Step;
    var t1 := Step(t, a);
    var t2 := Step(t1, b);
    assert [a, b, c][1..] == [b, c] && [b, c][1..] == [c];
    assert Run(t1, [b, c]) == Run(t2, [c]) == Run(Step(t2, c), []);
  }

  lemma RunTwo(t: Table, a: Move, b: Move)
    ensures Run(t, [a, b]) == Step(Step(t, a), b)
  {
    hide Step;
    var t1 := Step(t, a);
    assert [a, b][1..] == [b];
    assert Run(t1, [b]) == Run(Step(t1, b), []);
  }

  lemma {:induction false} RequestsAppend(a: seq<Move>, b: seq<Move>, job: nat)
    ensures Requests(a + b, job) == Requests(a, job) + Requests(b, job)
  {
    if a == [] {
      assert a + b == b;
    } else {
      assert (a + b)[1..] == a[1..] + b;
      RequestsAppend(a[1..], b, job);
    }
  }

  lemma RequestsThree(a: Move, b: Move, c: Move, job: nat)
    ensures Requests([a, b, c], job)
         == (if a == Schedule(job) then 1 else 0) + (if b == Schedule(job) then 1 else 0)
             + (if c == Schedule(job) then 1 else 0)
  {
    assert [a, b, c][1..] == [b, c] && [b, c][1..] == [c] && [c][1..] == [];
    assert Requests([c], job) == if c == Schedule(job) then 1 else 0;
    assert Requests([b, c], job) == (if b == Schedule(job) then 1 else 0) + Requests([c], job);
  }

  // Job 0 runs and gets stuck; its cleaner sees it finished, the extra cleanup makes room, the job
  // runs again, and the old cleaner removes the new entry.
  const FIRST: seq<Move> := [ContextMoves(0, Pending), Schedule(0), CleanerMoves(0)]
  const SECOND: seq<Move> := [WorkerEnds(0), ContextMoves(0, Stuck), CleanerMoves(0)]
  const THIRD: seq<Move> := [CleanupFinished, Schedule(0), CleanerMoves(0)]

  function Lost(max: nat): Table {
    Table(max, map[], [0, 0], map[1 := Spawning], {0}, {}, map[0 := InProgress])
  }

  function Entered(max: nat): Table {
    Table(max, map[0 := 0], [0], map[0 := Looking], {}, {}, map[0 := InProgress])
  }

  function SeenFinished(max: nat): Table {
    Table(max, map[0 := 0], [0], map[0 := Removing], {0}, {}, map[0 := Stuck])
  }

  lemma FirstPart(max: nat)
    requires max >= 1
    ensures Run(NewTable(max), FIRST) == Entered(max)
  {
    RunThree(NewTable(max), ContextMoves(0, Pending), Schedule(0), CleanerMoves(0));
    hide Run;
    var t1 := Step(NewTable(max), ContextMoves(0, Pending));
    assert t1 == NewTable(max).(contexts := map[0 := Pending]);
    assert Step(t1, Schedule(0)) == Table(max, map[0 := 0], [0], map[0 := Spawning], {}, {}, map[0 := InProgress]);
  }

  lemma SecondPart(max: nat)
    ensures Run(Entered(max), SECOND) == SeenFinished(max)
  {
    RunThree(Entered(max), WorkerEnds(0), ContextMoves(0, Stuck), CleanerMoves(0));
    hide Run;
    var t1 := Step(Entered(max), WorkerEnds(0));
    assert t1 == Entered(max).(ended := {0});
    assert Step(t1, ContextMoves(0, Stuck)) == t1.(contexts := map[0 := Stuck]);
  }

  /**
   A stuck job whose ended worker is still tracked is reached in a run. Scheduling it then reports
   success and starts nothing.
   */
  lemma StuckJobIsReached(max: nat)
    requires max >= 1
    ensures var t := Run(NewTable(max), FIRST + SECOND);
            Context(t.contexts, 0) == Stuck && 0 in t.jobs && t.jobs[0] in t.ended && Step(t, Schedule(0)) == t
  {
    RunAppend(NewTable(max), FIRST, SECOND);
    hide Run;
    FirstPart(max);
    SecondPart(max);
  }

  lemma ThirdPart(max: nat)
    requires max >= 1
    ensures Run(SeenFinished(max), THIRD) == Lost(max)
  {
    RunThree(SeenFinished(max), CleanupFinished, Schedule(0), CleanerMoves(0));
    hide Run;
    var t1 := SeenFinished(max).(jobs := map[]);
    assert Step(SeenFinished(max), CleanupFinished) == t1;
    Reschedules(max, t1);
    var t2 := Step(t1, Schedule(0));
    assert Step(t2, CleanerMoves(0)) == t2.(jobs := map[], cleaners := map[1 := Spawning]);
  }

  lemma Reschedules(max: nat, t: Table)
    requires max >= 1 && t == SeenFinished(max).(jobs := map[])
    ensures Step(t, Schedule(0))
         == Table(max, map[0 := 1], [0, 0], map[0 := Removing, 1 := Spawning], {0}, {}, map[0 := InProgress])
  {
  }

  lemma WorkerIsLost(max: nat)
    requires max >= 1
    ensures Run(NewTable(max), FIRST + SECOND + THIRD) == Lost(max)
  {
    RunAppend(NewTable(max), FIRST, SECOND);
    RunAppend(NewTable(max), FIRST + SECOND, THIRD);
    hide Run;
    FirstPart(max);
    SecondPart(max);
    ThirdPart(max);
  }

  // Jobs 1 to `count`, created and scheduled one after the other.
  function Fill(count: nat): seq<Move> {
    if count == 0 then [] else Fill(count - 1) + [ContextMoves(count, Pending), Schedule(count)]
  }

  // The lost worker still runs, and so do those of jobs 1 to `count`.
  ghost predicate Filled(t: Table, max: nat, count: nat) {
    && t.max == max && |t.jobs| == count && (forall job :: job in t.jobs <==> 1 <= job <= count)
    && |t.inserted| == count + 2 && t.ended == {0} && t.stopped == {}
    && (forall job: nat :: job > count ==> Context(t.contexts, job) == NotCreated)
  }

  lemma FillOne(t: Table, max: nat, count: nat)
    requires 1 <= count <= max && Filled(t, max, count - 1)
    ensures Filled(Step(Step(t, ContextMoves(count, Pending)), Schedule(count)), max, count)
  {
    assert Context(t.contexts, count) == NotCreated;
    var t1 := Step(t, ContextMoves(count, Pending));
    assert t1.contexts == t.contexts[count := Pending];
    assert CanSchedule(t1, count);
    var t2 := Scheduled(t1, count);
    assert t2.contexts == t.contexts[count := InProgress];
    forall job: nat | job > count ensures Context(t2.contexts, job) == NotCreated {
      assert Context(t.contexts, job) == NotCreated;
    }
  }

  lemma {:induction false} FillUp(t: Table, max: nat, count: nat)
    requires count <= max && Filled(t, max, 0)
    ensures Filled(Run(t, Fill(count)), max, count)
  {
    if count > 0 {
      FillUp(t, max, count - 1);
      var before := Run(t, Fill(count - 1));
      RunAppend(t, Fill(count - 1), [ContextMoves(count, Pending), Schedule(count)]);
      RunTwo(before, ContextMoves(count, Pending), Schedule(count));
      FillOne(before, max, count);
    }
  }

  lemma {:induction false} FillRequests(count: nat, job: nat)
    ensures Requests(Fill(count), job) == if 1 <= job <= count then 1 else 0
  {
    if count > 0 {
      FillRequests(count - 1, job);
      RequestsAppend(Fill(count - 1), [ContextMoves(count, Pending), Schedule(count)], job);
      var last := [ContextMoves(count, Pending), Schedule(count)];
      assert last[1..] == [Schedule(count)] && [Schedule(count)][1..] == [];
      assert Requests([Schedule(count)], job) == if count == job then 1 else 0;
      assert Requests(last, job) == Requests([Schedule(count)], job);
    }
  }

  lemma FewRequests(max: nat, job: nat)
    ensures Requests(FIRST + SECOND + THIRD + Fill(max), job) <= 2
  {
    hide Requests;
    FillRequests(max, job);
    RequestsAppend(FIRST + SECOND + THIRD, Fill(max), job);
    RequestsAppend(FIRST + SECOND, THIRD, job);
    RequestsAppend(FIRST, SECOND, job);
    RequestsThree(ContextMoves(0, Pending), Schedule(0), CleanerMoves(0), job);
    RequestsThree(WorkerEnds(0), ContextMoves(0, Stuck), CleanerMoves(0), job);
    RequestsThree(CleanupFinished, Schedule(0), CleanerMoves(0), job);
  }

  lemma AllFilled(max: nat)
    requires max >= 1
    ensures Filled(Run(NewTable(max), FIRST + SECOND + THIRD + Fill(max)), max, max)
  {
    hide Run, Fill;
    WorkerIsLost(max);
    RunAppend(NewTable(max), FIRST + SECOND + THIRD, Fill(max));
    FillUp(Lost(max), max, max);
  }

  lemma CapIsExceeded(max: nat) returns (moves: seq<Move>, live: set<nat>)
    requires max >= 1
    ensures forall job :: Requests(moves, job) <= 2
    ensures |live| == max + 1 && forall h :: h in live ==> Live(Run(NewTable(max), moves), h)
  {
    hide Run, Fill, Requests;
    moves := FIRST + SECOND + THIRD + Fill(max);
    AllFilled(max);
    forall job ensures Requests(moves, job) <= 2 {
      FewRequests(max, job);
    }
    live := Handles(max + 1);
    HandlesCount(max + 1);
  }

  function Handles(last: nat): set<nat> {
    if last == 0 then {} else Handles(last - 1) + {last}
  }

  lemma {:induction false} HandlesCount(last: nat)
    ensures |Handles(last)| == last && forall h :: h in Handles(last) <==> 1 <= h <= last
  {
    if last > 0 {
      HandlesCount(last - 1);
    }
  }

  // ----- The cap -----

  // In every run that hands each job to the scheduler at most `times` times, and calls the extra
  // cleanup only if `cleanups`, at most `max` workers run at once.
  ghost predicate CapHolds(max: nat, times: nat, cleanups: bool) {
    forall moves: seq<Move>, live: set<nat> ::
      (forall job :: Requests(moves, job) <= times) && (cleanups || CleanupFinished !in moves)
      && (forall h :: h in live ==> Live(Run(NewTable(max), moves), h))
      ==> |live| <= max
  }

  lemma NothingRuns(moves: seq<Move>, live: set<nat>)
    requires forall h :: h in live ==> Live(Run(NewTable(0), moves), h)
    ensures live == {}
  {
    NothingInserted(NewTable(0), moves);
    assert forall h :: !Live(Run(NewTable(0), moves), h);
  }

  lemma {:induction false} NothingInserted(t: Table, moves: seq<Move>)
    requires t.max == 0 && t.inserted == []
    ensures Run(t, moves).inserted == []
    decreases |moves|
  {
    if moves != [] {
      MaxIsFixed(t, moves[0]);
      NothingInserted(Step(t, moves[0]), moves[1..]);
    }
  }

  /**
   The running workers stay within the cap in every run exactly when the cap is zero, no job is handed
   in twice, or the extra cleanup is never called.
   */
  lemma CapHoldsExactly(max: nat, times: nat, cleanups: bool)
    ensures CapHolds(max, times, cleanups) <==> max == 0 || times <= 1 || !cleanups
  {
    if max == 0 || times <= 1 || !cleanups {
      forall moves: seq<Move>, live: set<nat>
        | (forall job :: Requests(moves, job) <= times) && (cleanups || CleanupFinished !in moves)
          && (forall h :: h in live ==> Live(Run(NewTable(max), moves), h))
        ensures |live| <= max
      {
        if max == 0 {
          NothingRuns(moves, live);
        } else {
          if times <= 1 {
            OnlyOnceReusesNone(NewTable(max), moves);
          } else {
            NoCleanupReusesNone(NewTable(max), moves);
          }
          LiveWorkersWithinCap(max, moves, live);
        }
      }
    } else {
      var moves, live := CapIsExceeded(max);
      assert forall job :: Requests(moves, job) <= times;
    }
  }
}
