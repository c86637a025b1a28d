/**
 The scheduler's job table, the workers it tracks, and one cleaner task per insertion.

 Each insertion makes a new handle. A cleaner belongs to the handle it was spawned for, but looks
 up and removes entries by job: first it looks under the read lock, then it removes under the write
 lock, and anything may happen in between.
 */
module JobTable {
  // A cleaner is about to be spawned, polling, or about to remove what it found finished.
  datatype Phase = Spawning | Looking | Removing

  // The state of a job's context, from before its creation to after its removal.
  datatype JobState =
    | NotCreated
    | Pending
    | InProgress
    | Completed
    | Submitted
    | Accepted
    | Failed
    | Stuck
    | Cancelled
    | Removed

  predicate CanTransition(from: JobState, to: JobState) {
    match from
    case NotCreated => to == Pending
    case Pending => to == InProgress || to == Cancelled || to == Removed
    case InProgress => to == Completed || to == Failed || to == Stuck || to == Cancelled || to == Removed
    case Completed => to == Submitted || to == Failed || to == Removed
    case Submitted => to == Accepted || to == Failed || to == Removed
    case Stuck => to == InProgress || to == Failed || to == Cancelled || to == Removed
    case Accepted => to == Removed
    case Failed => to == Removed
    case Cancelled => to == Removed
    case Removed => false
  }

  // Handle h is the h-th insertion, of job inserted[h]. A stopped worker was told to end and aborted.
  datatype Table = Table(
    max: nat,
    jobs: map<nat, nat>,
    inserted: seq<nat>,
    cleaners: map<nat, Phase>,
    ended: set<nat>,
    stopped: set<nat>,
    contexts: map<nat, JobState>)

  function NewTable(max: nat): Table {
    Table(max, map[], [], map[], {}, {}, map[])
  }

  function Context(contexts: map<nat, JobState>, job: nat): JobState {
    if job in contexts then contexts[job] else NotCreated
  }

  // One lock region, one act of a worker, or one transition of a job's context.
  datatype Move =
    | Schedule(job: nat)
    | WorkerEnds(handle: nat)
    | CleanerMoves(handle: nat)
    | Stop(job: nat)
    | CleanupFinished
    | ContextMoves(job: nat, to: JobState)

  function Transitioned(contexts: map<nat, JobState>, job: nat, to: JobState): map<nat, JobState> {
    if CanTransition(Context(contexts, job), to) then contexts[job := to] else contexts
  }

  predicate CanSchedule(t: Table, job: nat) {
    job !in t.jobs && |t.jobs| < t.max && CanTransition(Context(t.contexts, job), InProgress)
  }

  function Scheduled(t: Table, job: nat): Table {
    var handle := |t.inserted|;
    t.(jobs := t.jobs[job := handle], inserted := t.inserted + [job], cleaners := t.cleaners[handle := Spawning],
       contexts := t.contexts[job := InProgress])
  }

  function Unfinished(jobs: map<nat, nat>, ended: set<nat>): map<nat, nat> {
    map job | job in jobs && jobs[job] !in ended :: jobs[job]
  }

  predicate LooksFinished(t: Table, job: nat) {
    job !in t.jobs || t.jobs[job] in t.ended
  }

  function CleanerMoved(t: Table, handle: nat): Table
    requires handle < |t.inserted| && handle in t.cleaners
  {
    var job := t.inserted[handle];
    match t.cleaners[handle]
    case Spawning => t.(cleaners := t.cleaners[handle := Looking])
    case Looking => if LooksFinished(t, job) then t.(cleaners := t.cleaners[handle := Removing]) else t
    case Removing => t.(jobs := t.jobs - {job}, cleaners := t.cleaners - {handle})
  }

  function Stopped(t: Table, job: nat): Table
    requires job in t.jobs
  {
    t.(jobs := t.jobs - {job}, stopped := t.stopped + ({t.jobs[job]} - t.ended),
       contexts := Transitioned(t.contexts, job, Cancelled))
  }

  function Step(t: Table, m: Move): Table {
    match m
    case Schedule(job) => if CanSchedule(t, job) then Scheduled(t, job) else t
    case WorkerEnds(handle) => if handle < |t.inserted| then t.(ended := t.ended + {handle}) else t
    case CleanerMoves(handle) => if handle < |t.inserted| && handle in t.cleaners then CleanerMoved(t, handle) else t
    case Stop(job) => if job in t.jobs then Stopped(t, job) else t
    case CleanupFinished => t.(jobs := Unfinished(t.jobs, t.ended))
    case ContextMoves(job, to) => t.(contexts := Transitioned(t.contexts, job, to))
  }

  function Run(t: Table, moves: seq<Move>): Table
    decreases |moves|
  {
    if moves == [] then t else Run(Step(t, moves[0]), moves[1..])
  }

  // ----- The scheduler in place -----

  datatype ScheduleResult = Ok | MaxJobsExceeded | Refused

  class Scheduler {
    const max: nat
    var jobs: map<nat, nat>
    var inserted: seq<nat>
    var cleaners: map<nat, Phase>
    var ended: set<nat>
    var stopped: set<nat>
    var contexts: map<nat, JobState>

    function View(): Table reads this {
      Table(max, jobs, inserted, cleaners, ended, stopped, contexts)
    }

    constructor (max: nat)
      ensures View() == NewTable(max)
    {
      this.max := max;
      jobs, inserted, cleaners, ended, stopped, contexts := map[], [], map[], {}, {}, map[];
    }

    // A job that is already tracked is left alone, and that is no error.
    method Schedule(job: nat) returns (r: ScheduleResult)
      modifies this
      ensures View() == Step(old(View()), Move.Schedule(job))
      ensures r.Ok? <==> job in jobs
      ensures r.MaxJobsExceeded? <==> job !in old(jobs) && |old(jobs)| >= max
    {
      if job in jobs {
        return Ok;
      }
      if |jobs| >= max {
        return MaxJobsExceeded;
      }
      if !CanTransition(Context(contexts, job), InProgress) {
        return Refused;
      }
      contexts := contexts[job := InProgress];
      var handle := |inserted|;
      inserted := inserted + [job];
      jobs := jobs[job := handle];
      cleaners := cleaners[handle := Spawning];
      return Ok;
    }

    method Stop(job: nat)
      modifies this`jobs, this`stopped, this`contexts
      ensures View() == Step(old(View()), Move.Stop(job))
    {
      if job in jobs {
        var handle := jobs[job];
        jobs := jobs - {job};
        if handle !in ended {
          stopped := stopped + {handle};
        }
        contexts := Transitioned(contexts, job, Cancelled);
      }
    }

    method MoveCleaner(handle: nat)
      requires handle < |inserted| && handle in cleaners
      modifies this`jobs, this`cleaners
      ensures View() == Step(old(View()), CleanerMoves(handle))
    {
      var job := inserted[handle];
      match cleaners[handle] {
        case Spawning => cleaners := cleaners[handle := Looking];
        case Looking =>
          var finished := if job in jobs then jobs[job] in ended else true;
          if finished {
            cleaners := cleaners[handle := Removing];
          }
        case Removing =>
          jobs := jobs - {job};
          cleaners := cleaners - {handle};
      }
    }

    method FinishedJobs() returns (finished: seq<nat>)
      ensures forall id :: id in finished <==> id in jobs && jobs[id] in ended
    {
      finished := [];
      var ids := jobs.Keys;
      while ids != {}
        invariant ids <= jobs.Keys
        invariant forall id :: id in finished <==> id in jobs.Keys - ids && jobs[id] in ended
        decreases |ids|
      {
        var id :| id in ids;
        if jobs[id] in ended {
          finished := finished + [id];
        }
        ids := ids - {id};
      }
    }

    // The finished jobs are listed first and removed after.
    method CleanupFinished()
      modifies this`jobs
      ensures View() == Step(old(View()), Move.CleanupFinished)
    {
      var finished := FinishedJobs();
      for i := 0 to |finished|
        invariant jobs.Keys <= old(jobs).Keys
        invariant forall id :: id in old(jobs) && id !in finished ==> id in jobs
        invariant forall id :: id in jobs ==> jobs[id] == old(jobs)[id]
        invariant forall k :: 0 <= k < i ==> finished[k] !in jobs
      {
        jobs := jobs - {finished[i]};
      }
      assert jobs == Unfinished(old(jobs), ended);
    }
  }

  // ----- What every interleaving keeps -----

  ghost predicate Tracked(t: Table, handle: nat) {
    handle < |t.inserted| && t.inserted[handle] in t.jobs && t.jobs[t.inserted[handle]] == handle
  }

  // An entry belongs to the latest insertion of its job, and the cleaner of that insertion is there.
  ghost predicate EntrySound(t: Table, job: nat)
    requires job in t.jobs
  {
    var h := t.jobs[job];
    && h < |t.inserted| && t.inserted[h] == job && h in t.cleaners
    && forall later :: h < later < |t.inserted| ==> t.inserted[later] != job
  }

  // A cleaner that is about to remove its own entry has seen it finished.
  ghost predicate CleanerSound(t: Table, h: nat)
    requires h in t.cleaners
  {
    h < |t.inserted| && (t.cleaners[h] == Removing && Tracked(t, h) ==> h in t.ended)
  }

  ghost predicate Sound(t: Table) {
    && |t.jobs| <= t.max
    && (forall job :: job in t.jobs ==> EntrySound(t, job))
    && (forall h :: h in t.cleaners ==> CleanerSound(t, h))
  }

  lemma FewerEntries(a: map<nat, nat>, b: map<nat, nat>)
    requires a.Keys <= b.Keys
    ensures |a| <= |b|
  {
    assert |a.Keys| <= |b.Keys| by {
      SubsetSize(a.Keys, b.Keys);
    }
  }

  lemma {:induction false} SubsetSize(a: set<nat>, b: set<nat>)
    requires a <= b
    ensures |a| <= |b|
  {
    if a != {} {
      var x :| x in a;
      SubsetSize(a - {x}, b - {x});
    }
  }

  lemma ScheduleKeepsSound(t: Table, job: nat)
    requires Sound(t) && CanSchedule(t, job)
    ensures Sound(Scheduled(t, job))
  {
    var after := Scheduled(t, job);
    assert after.jobs.Keys == t.jobs.Keys + {job};
    forall other | other in after.jobs ensures EntrySound(after, other) {
      if other != job { assert EntrySound(t, other); }
    }
    forall h | h in after.cleaners ensures CleanerSound(after, h) {
      if h != |t.inserted| { assert CleanerSound(t, h); }
    }
  }

  // Fewer entries, more ended workers, and the cleaners of the entries that are left: all stays sound.
  lemma RemovalKeepsSound(t: Table, after: Table)
    requires Sound(t) && after.max == t.max && after.inserted == t.inserted && t.ended <= after.ended
    requires forall job :: job in after.jobs ==> job in t.jobs && after.jobs[job] == t.jobs[job]
    requires forall job :: job in after.jobs ==> after.jobs[job] in after.cleaners
    requires forall h :: h in after.cleaners ==>
               h in t.cleaners && (after.cleaners[h] == Removing && t.cleaners[h] != Removing ==>
                   LooksFinished(t, t.inserted[h]))
    ensures Sound(after)
  {
    FewerEntries(after.jobs, t.jobs);
    forall job | job in after.jobs ensures EntrySound(after, job) {
      assert EntrySound(t, job);
    }
    forall h | h in after.cleaners ensures CleanerSound(after, h) {
      assert CleanerSound(t, h);
    }
  }

  lemma EntriesHaveCleaners(t: Table)
    requires Sound(t)
    ensures forall job :: job in t.jobs ==>
              t.jobs[job] in t.cleaners && t.jobs[job] < |t.inserted| && t.inserted[t.jobs[job]] == job
    ensures forall h :: h in t.cleaners ==> h < |t.inserted|
  {
    forall job | job in t.jobs
      ensures t.jobs[job] in t.cleaners && t.jobs[job] < |t.inserted| && t.inserted[t.jobs[job]] == job
    {
      assert EntrySound(t, job);
    }
    forall h | h in t.cleaners ensures h < |t.inserted| {
      assert CleanerSound(t, h);
    }
  }

  // A cleaner that only moves on changes no entry.
  lemma PollKeepsSound(t: Table, handle: nat)
    requires Sound(t) && handle < |t.inserted| && handle in t.cleaners && t.cleaners[handle] != Removing
    ensures Sound(CleanerMoved(t, handle))
  {
    EntriesHaveCleaners(t);
    var after := CleanerMoved(t, handle);
    assert after.jobs == t.jobs && after.cleaners.Keys == t.cleaners.Keys;
    hide Sound, LooksFinished, CleanerMoved;
    RemovalKeepsSound(t, after);
  }

  lemma RemoveKeepsSound(t: Table, handle: nat)
    requires Sound(t) && handle < |t.inserted| && handle in t.cleaners && t.cleaners[handle] == Removing
    ensures Sound(CleanerMoved(t, handle))
  {
    EntriesHaveCleaners(t);
    hide Sound, LooksFinished;
    var after := CleanerMoved(t, handle);
    assert after.jobs == t.jobs - {t.inserted[handle]} && after.cleaners == t.cleaners - {handle};
    hide CleanerMoved;
    RemovalKeepsSound(t, after);
  }

  lemma OthersKeepSound(t: Table, m: Move)
    requires Sound(t) && !m.Schedule? && !m.CleanerMoves?
    ensures Sound(Step(t, m))
  {
    EntriesHaveCleaners(t);
    hide Sound, LooksFinished, CanTransition;
    RemovalKeepsSound(t, Step(t, m));
  }

  lemma StepKeepsSound(t: Table, m: Move)
    requires Sound(t)
    ensures Sound(Step(t, m)) && Step(t, m).max == t.max
  {
    MaxIsFixed(t, m);
    hide Sound, CleanerMoved, Scheduled, CanSchedule;
    if m.Schedule? {
      if CanSchedule(t, m.job) { ScheduleKeepsSound(t, m.job); }
    } else if m.CleanerMoves? {
      if m.handle < |t.inserted| && m.handle in t.cleaners {
        if t.cleaners[m.handle] == Removing { RemoveKeepsSound(t, m.handle); } else { PollKeepsSound(t, m.handle); }
      }
    } else {
      OthersKeepSound(t, m);
    }
  }

  lemma MaxIsFixed(t: Table, m: Move)
    ensures Step(t, m).max == t.max
  {
  }

  lemma {:induction false} RunKeepsSound(t: Table, moves: seq<Move>)
    requires Sound(t)
    ensures Sound(Run(t, moves)) && Run(t, moves).max == t.max
    decreases |moves|
  {
    if moves != [] {
      StepKeepsSound(t, moves[0]);
      RunKeepsSound(Step(t, moves[0]), moves[1..]);
    }
  }

  /**
   In every interleaving the table stays within the cap, and every entry still has the cleaner of its
   own, latest insertion.
   */
  lemma TableStaysWithinCap(max: nat, moves: seq<Move>)
    ensures var t := Run(NewTable(max), moves);
      && |t.jobs| <= max
      && forall job :: job in t.jobs ==>
           var h := t.jobs[job];
           && h < |t.inserted| && t.inserted[h] == job && h in t.cleaners
           && forall later :: h < later < |t.inserted| ==> t.inserted[later] != job
  {
    RunKeepsSound(NewTable(max), moves);
    var t := Run(NewTable(max), moves);
    forall job | job in t.jobs ensures EntrySound(t, job) {}
  }

  // ----- No finished entry keeps its place -----

  // How far the entry of a finished worker is on its way out.
  ghost function Progress(t: Table, handle: nat): nat {
    if !Tracked(t, handle) || handle !in t.cleaners then 3
    else match t.cleaners[handle]
      case Spawning => 0
      case Looking => 1
      case Removing => 2
  }

  lemma OwnMoveProgresses(t: Table, handle: nat)
    requires Sound(t) && handle < |t.inserted| && handle in t.ended && handle in t.cleaners
    ensures Progress(t, handle) < 3 ==> Progress(CleanerMoved(t, handle), handle) > Progress(t, handle)
    ensures Progress(CleanerMoved(t, handle), handle) >= Progress(t, handle)
  {
    hide Sound;
  }

  lemma OtherCleanerLeavesIt(t: Table, handle: nat, other: nat)
    requires Sound(t) && handle < |t.inserted| && other < |t.inserted| && other in t.cleaners && other != handle
    ensures Progress(CleanerMoved(t, other), handle) >= Progress(t, handle)
  {
    hide Sound;
  }

  // No move sets it back, and each move of its own cleaner brings it on.
  lemma ProgressIsMade(t: Table, m: Move, handle: nat)
    requires Sound(t) && handle < |t.inserted| && handle in t.ended
    ensures var after := Step(t, m);
      && handle < |after.inserted| && handle in after.ended
      && Progress(after, handle) >= Progress(t, handle)
      && (m == CleanerMoves(handle) && Progress(t, handle) < 3 ==> Progress(after, handle) > Progress(t, handle))
  {
    if m.CleanerMoves? {
      if m.handle < |t.inserted| && m.handle in t.cleaners {
        if m.handle == handle { OwnMoveProgresses(t, handle); } else { OtherCleanerLeavesIt(t, handle, m.handle); }
      }
      hide Sound, Unfinished;
    } else {
      hide Sound, CleanerMoved;
    }
  }

  function OwnMoves(moves: seq<Move>, handle: nat): nat {
    if moves == [] then 0 else (if moves[0] == CleanerMoves(handle) then 1 else 0) + OwnMoves(moves[1..], handle)
  }

  lemma {:induction false} ProgressOverRun(t: Table, moves: seq<Move>, handle: nat)
    requires Sound(t) && handle < |t.inserted| && handle in t.ended
    ensures Progress(Run(t, moves), handle) >= 3
            || Progress(Run(t, moves), handle) >= Progress(t, handle) + OwnMoves(moves, handle)
    decreases |moves|
  {
    if moves != [] {
      StepKeepsSound(t, moves[0]);
      ProgressIsMade(t, moves[0], handle);
      ProgressOverRun(Step(t, moves[0]), moves[1..], handle);
    }
  }

  /**
   However the moves interleave, three moves of its own cleaner free the entry of a worker that has
   ended: no finished entry leaks capacity.
   */
  lemma EndedEntryIsFreed(max: nat, before: seq<Move>, after: seq<Move>, handle: nat)
    requires var t := Run(NewTable(max), before); handle < |t.inserted| && handle in t.ended
    requires OwnMoves(after, handle) >= 3
    ensures !Tracked(Run(Run(NewTable(max), before), after), handle)
  {
    var t := Run(NewTable(max), before);
    RunKeepsSound(NewTable(max), before);
    ProgressOverRun(t, after, handle);
    RunKeepsSound(t, after);
  }
}
