/** Runs of the scheduler loop: ticks in their sections, the runs it starts, edits of the
    schedule store at any moment, runs that panic, and restarts. */
module SchedulerLoop {
  import opened Wrappers
  import opened CronDispatch

  // The instants one successful tick answers for: after lo, up to hi.
  datatype Window = Window(lo: int, hi: int)

  // A claimed schedule on its way to its run; `at` is the occurrence it is claimed for.
  datatype Dispatch = Dispatch(id: string, window: Window, at: int)

  datatype Loop =
    | Sleeping
    | Snapshotted(now: int, paused: bool, busy: set<string>)
    | Dispatching(queue: seq<Dispatch>)

  // runs: the spawned runs by task. stranded: schedules whose run panicked in this process.
  // windows and log: the successful ticks and the dispatches so far. since: when this process
  // started, with `before` ticks of earlier ones.
  datatype State = State(
    clock: int,
    since: int,
    lastTick: int,
    stored: seq<Schedule>,
    active: set<string>,
    runs: map<nat, string>,
    stranded: set<string>,
    loop: Loop,
    windows: seq<Window>,
    before: nat,
    log: seq<Dispatch>)

  datatype Step =
    | Advance(to: int)
    | Wake(paused: bool)
    | ClaimDue(readable: bool, saving: Write)
    | DispatchNext(task: nat)
    | Finish(task: nat)
    | Panic(task: nat)
    | Edit(schedules: seq<Schedule>)
    | Restart

  function Start(clock: int, stored: seq<Schedule>): State {
    State(clock, clock, clock, stored, {}, map[], {}, Sleeping, [], 0, [])
  }

  // Schedules draw unique ids, so a store that is edited holds no id twice.
  predicate Enabled(s: State, step: Step) {
    match step
    case Advance(_) => true
    case Wake(_) => s.loop.Sleeping?
    case ClaimDue(_, _) => s.loop.Snapshotted?
    case DispatchNext(task) => s.loop.Dispatching? && s.loop.queue != [] && task !in s.runs
    case Finish(task) => task in s.runs
    case Panic(task) => task in s.runs
    case Edit(schedules) => UniqueIds(schedules)
    case Restart => true
  }

  function Queue(due: seq<Schedule>, window: Window, next: Next): (queue: seq<Dispatch>)
    ensures |queue| == |due|
    ensures forall i | 0 <= i < |due| :: queue[i].id == due[i].id && queue[i].window == window
  {
    seq(|due|, i requires 0 <= i < |due| =>
      Dispatch(due[i].id, window,
               match next(due[i].cron, window.lo) case Some(at) => at case None => window.hi))
  }

  // A failed claim keeps the window, also when it stored its stamps.
  function AfterClaim(s: State, readable: bool, saving: Write, next: Next): State
    requires s.loop.Snapshotted?
  {
    var now := s.loop.now;
    var claim := ClaimDueSchedules(s.stored, readable, saving, s.loop.paused, s.loop.busy, s.lastTick, now, next);
    match claim.due
    case Err(_) => s.(stored := claim.stored, loop := Sleeping)
    case Ok(due) =>
      var window := Window(s.lastTick, now);
      s.(stored := claim.stored, lastTick := now, windows := s.windows + [window],
         loop := LoopOn(Queue(due, window, next)))
  }

  // The loop with this queue in front of it.
  function LoopOn(queue: seq<Dispatch>): Loop {
    if queue == [] then Sleeping else Dispatching(queue)
  }

  // The schedule is marked active, then its run is spawned.
  function AfterDispatch(s: State, task: nat): State
    requires s.loop.Dispatching? && s.loop.queue != []
  {
    var d := s.loop.queue[0];
    s.(active := s.active + {d.id}, runs := s.runs[task := d.id], log := s.log + [d], loop := LoopOn(s.loop.queue[1..]))
  }

  // A run that panics never gets to give its schedule free.
  function After(s: State, step: Step, next: Next): State
    requires Enabled(s, step)
  {
    match step
    case Advance(to) => s.(clock := to)
    case Wake(paused) => s.(loop := Snapshotted(s.clock, paused, s.active))
    case ClaimDue(readable, saving) => AfterClaim(s, readable, saving, next)
    case DispatchNext(task) => AfterDispatch(s, task)
    case Finish(task) => s.(active := s.active - {s.runs[task]}, runs := s.runs - {task})
    case Panic(task) => s.(stranded := s.stranded + {s.runs[task]}, runs := s.runs - {task})
    case Edit(schedules) => s.(stored := schedules)
    case Restart =>
      s.(since := s.clock, before := |s.windows|, lastTick := s.clock, active := {}, runs := map[], stranded := {},
         loop := Sleeping)
  }

  // ---------- Runs ----------

  predicate Possible(s: State, steps: seq<Step>, next: Next)
    decreases |steps|
  {
    steps == [] || (Enabled(s, steps[0]) && Possible(After(s, steps[0], next), steps[1..], next))
  }

  function Final(s: State, steps: seq<Step>, next: Next): State
    requires Possible(s, steps, next)
    decreases |steps|
  {
    if steps == [] then s else Final(After(s, steps[0], next), steps[1..], next)
  }

  // What waits for dispatch.
  function Pending(s: State): seq<Dispatch> {
    if s.loop.Dispatching? then s.loop.queue else []
  }

  // What was dispatched or waits to be.
  function Claimed(s: State): seq<Dispatch> {
    s.log + Pending(s)
  }

  function Selecting(s: State, next: Next): seq<Schedule>
    requires s.loop.Snapshotted?
  {
    Selection(s.stored, s.loop.paused, s.loop.busy, s.lastTick, s.loop.now, next)
  }

  // ---------- What holds in every run ----------

  predicate IsIn(at: int, window: Window) {
    window.lo < at <= window.hi
  }

  // The active schedules are those with a run and those whose run panicked; no schedule has
  // two runs.
  ghost predicate RunsMatch(s: State) {
    && s.active == s.runs.Values + s.stranded && s.runs.Values !! s.stranded
    && (forall a, b | a in s.runs && b in s.runs && a != b :: s.runs[a] != s.runs[b])
    && (s.loop.Snapshotted? ==> s.active <= s.loop.busy)
  }

  // The queue waits for schedules that are neither active nor queued twice.
  ghost predicate QueueMatches(queue: seq<Dispatch>, active: set<string>, lastTick: int) {
    && (forall i, j | 0 <= i < j < |queue| :: queue[i].id != queue[j].id)
    && forall i | 0 <= i < |queue| ::
         queue[i].id !in active && IsIn(queue[i].at, queue[i].window) && queue[i].window.hi == lastTick
  }

  ghost predicate Inv(s: State) {
    && UniqueIds(s.stored) && RunsMatch(s) && QueueMatches(Pending(s), s.active, s.lastTick)
    && forall i | 0 <= i < |s.log| :: IsIn(s.log[i].at, s.log[i].window)
  }

  // A fresh queue waits for inactive schedules, each once, with occurrences in the window.
  lemma ClaimQueue(s: State, next: Next, fires: (string, int) -> bool)
    requires Inv(s) && IsNextOf(next, fires) && s.loop.Snapshotted?
    ensures QueueMatches(Queue(Selecting(s, next), Window(s.lastTick, s.loop.now), next), s.active, s.loop.now)
  {
    var due := Selecting(s, next);
    SelectionMembers(s.stored, s.loop.paused, s.loop.busy, s.lastTick, s.loop.now, next);
    hide Selection;
    forall i | 0 <= i < |due|
      ensures Selected(due[i], s.loop.paused, s.loop.busy, s.lastTick, s.loop.now, next)
    {
      assert due[i] in due;
    }
  }

  lemma ClaimInv(s: State, readable: bool, saving: Write, next: Next, fires: (string, int) -> bool)
    requires Inv(s) && IsNextOf(next, fires) && s.loop.Snapshotted?
    ensures Inv(AfterClaim(s, readable, saving, next))
  {
    var now := s.loop.now;
    var claim := ClaimDueSchedules(s.stored, readable, saving, s.loop.paused, s.loop.busy, s.lastTick, now, next);
    assert UniqueIds(claim.stored);
    if claim.due.Ok? {
      ClaimQueue(s, next, fires);
      hide UniqueIds, QueueMatches, IsNextOf, ClaimDueSchedules;
      assert claim.due.value == Selecting(s, next);
    }
  }

  lemma StartedValues(runs: map<nat, string>, task: nat, id: string)
    requires task !in runs
    ensures runs[task := id].Values == runs.Values + {id}
  {
    var more := runs[task := id];
    assert more[task] == id;
    forall x | x in runs.Values ensures x in more.Values {
      var t :| t in runs && runs[t] == x;
      assert more[t] == x;
    }
  }

  lemma FinishedValues(runs: map<nat, string>, task: nat)
    requires task in runs && forall a, b | a in runs && b in runs && a != b :: runs[a] != runs[b]
    ensures (runs - {task}).Values == runs.Values - {runs[task]}
  {
    var rest := runs - {task};
    forall x | x in runs.Values && x != runs[task] ensures x in rest.Values {
      var t :| t in runs && runs[t] == x;
      assert rest[t] == x;
    }
  }

  lemma DispatchInv(s: State, task: nat)
    requires Inv(s) && s.loop.Dispatching? && s.loop.queue != [] && task !in s.runs
    ensures Inv(AfterDispatch(s, task))
  {
    hide UniqueIds;
    var s' := AfterDispatch(s, task);
    var d := s.loop.queue[0];
    StartedValues(s.runs, task, d.id);
    assert RunsMatch(s');
    assert forall i | 0 <= i < |Pending(s')| :: Pending(s')[i] == s.loop.queue[i + 1];
    assert QueueMatches(Pending(s'), s'.active, s'.lastTick);
  }

  lemma StepInv(s: State, step: Step, next: Next, fires: (string, int) -> bool)
    requires Inv(s) && IsNextOf(next, fires) && Enabled(s, step)
    ensures Inv(After(s, step, next))
  {
    match step
    case ClaimDue(readable, saving) => ClaimInv(s, readable, saving, next, fires);
    case DispatchNext(task) => DispatchInv(s, task);
    case Finish(task) => FinishedValues(s.runs, task);
    case Panic(task) => FinishedValues(s.runs, task);
    case _ =>
  }

  lemma {:induction false} RunInv(s: State, steps: seq<Step>, next: Next, fires: (string, int) -> bool)
    requires Inv(s) && IsNextOf(next, fires) && Possible(s, steps, next)
    ensures Inv(Final(s, steps, next))
    decreases |steps|
  {
    if steps == [] {
    } else {
      hide Inv, Enabled, After;
      StepInv(s, steps[0], next, fires);
      RunInv(After(s, steps[0], next), steps[1..], next, fires);
    }
  }

  // What every run of the loop reaches.
  ghost predicate Reachable(s: State, next: Next) {
    exists clock: int, stored, steps ::
      UniqueIds(stored) && Possible(Start(clock, stored), steps, next) && s == Final(Start(clock, stored), steps, next)
  }

  lemma ReachableInv(s: State, next: Next, fires: (string, int) -> bool)
    requires Reachable(s, next) && IsNextOf(next, fires)
    ensures Inv(s)
  {
    var clock: int, stored, steps :|
      UniqueIds(stored) && Possible(Start(clock, stored), steps, next) && s == Final(Start(clock, stored), steps, next);
    StartInv(clock, stored);
    RunInv(Start(clock, stored), steps, next, fires);
  }

  // No schedule has two runs in flight, none that is about to start has one, and a schedule is
  // held back exactly while it has a run or after one of its runs panicked.
  lemma OneRunPerSchedule(s: State, next: Next, fires: (string, int) -> bool)
    requires Reachable(s, next) && IsNextOf(next, fires)
    ensures forall a, b | a in s.runs && b in s.runs && s.runs[a] == s.runs[b] :: a == b
    ensures forall i | 0 <= i < |Pending(s)| :: Pending(s)[i].id !in s.active
    ensures forall id :: id in s.active <==> id in s.runs.Values || id in s.stranded
  {
    ReachableInv(s, next, fires);
  }

  // A claim appends its schedules, in their stored order, to what is dispatched or waits;
  // nothing else adds to it, and only a restart loses what still waits.
  lemma DispatchesAreConserved(s: State, step: Step, next: Next)
    requires Enabled(s, step)
    ensures var s' := After(s, step, next);
            && (step.Restart? ==> Claimed(s') == s.log)
            && (!step.Restart? && !step.ClaimDue? ==> Claimed(s') == Claimed(s))
            && (step.ClaimDue? ==> Claimed(s') == s.log + NewQueue(s, step, next))
  {
    if step.DispatchNext? {
      assert [s.loop.queue[0]] + s.loop.queue[1..] == s.loop.queue;
    }
  }

  // Whether a claim goes through, and what it queues.
  predicate Succeeds(s: State, step: Step, next: Next)
    requires s.loop.Snapshotted? && step.ClaimDue?
  {
    ClaimDueSchedules(s.stored, step.readable, step.saving, s.loop.paused, s.loop.busy, s.lastTick, s.loop.now,
        next).due.Ok?
  }

  function NewQueue(s: State, step: Step, next: Next): seq<Dispatch>
    requires s.loop.Snapshotted? && step.ClaimDue?
  {
    if Succeeds(s, step, next) then Queue(Selecting(s, next), Window(s.lastTick, s.loop.now), next) else []
  }

  // What a claim does to the store, the window and the queue.
  lemma ClaimEffect(s: State, step: Step, next: Next)
    requires s.loop.Snapshotted? && step.ClaimDue?
    ensures var s' := After(s, step, next);
            && s'.stored == ClaimDueSchedules(s.stored, step.readable, step.saving, s.loop.paused, s.loop.busy,
                                              s.lastTick, s.loop.now, next).stored
            && (Succeeds(s, step, next) ==>
                 && s'.stored == Stamped(s.stored, Ids(Selecting(s, next)), s.loop.now)
                 && s'.loop == LoopOn(Queue(Selecting(s, next), Window(s.lastTick, s.loop.now), next))
                 && s'.lastTick == s.loop.now)
            && (!Succeeds(s, step, next) ==> s' == s.(stored := s'.stored, loop := Sleeping))
            && s'.log == s.log && s'.active == s.active && s'.clock == s.clock && s'.runs == s.runs
  {
    if Selecting(s, next) == [] {
      assert Stamped(s.stored, {}, s.loop.now) == s.stored;
      assert Ids(Selecting(s, next)) == {};
    }
  }

  // A schedule whose run panicked is not dispatched again before a restart.
  lemma {:induction false} StrandedForGood(s: State, steps: seq<Step>, next: Next, fires: (string, int) -> bool,
                                           id: string)
    requires Inv(s) && IsNextOf(next, fires) && Possible(s, steps, next) && id in s.stranded
    requires Restart !in steps
    ensures var end := Final(s, steps, next);
            && id in end.stranded && s.log <= end.log
            && forall k | |s.log| <= k < |end.log| :: end.log[k].id != id
    decreases |steps|
  {
    if steps == [] {
    } else {
      assert steps[0] in steps && forall x | x in steps[1..] :: x in steps;
      StrandedStep(s, steps[0], next, id);
      hide After, Enabled;
      StepInv(s, steps[0], next, fires);
      hide Inv;
      StrandedForGood(After(s, steps[0], next), steps[1..], next, fires, id);
    }
  }

  lemma StrandedStep(s: State, step: Step, next: Next, id: string)
    requires Inv(s) && Enabled(s, step) && id in s.stranded && step != Restart
    ensures var s' := After(s, step, next);
            && id in s'.stranded
            && (s'.log == s.log || exists d: Dispatch :: d.id != id && s'.log == s.log + [d])
  {
    if step.DispatchNext? {
      var d := s.loop.queue[0];
      assert Pending(s)[0] == d;
      assert After(s, step, next).log == s.log + [d];
    }
  }

  // A schedule is dispatched for its first occurrence in the window.
  lemma DispatchedForFirst(s: State, next: Next, fires: (string, int) -> bool, i: nat)
    requires IsNextOf(next, fires) && s.loop.Snapshotted?
    requires i < |Selection(s.stored, s.loop.paused, s.loop.busy, s.lastTick, s.loop.now, next)|
    ensures var schedule := Selection(s.stored, s.loop.paused, s.loop.busy, s.lastTick, s.loop.now, next)[i];
            var d := Queue(Selection(s.stored, s.loop.paused, s.loop.busy, s.lastTick, s.loop.now, next),
                           Window(s.lastTick, s.loop.now), next)[i];
            && d.id == schedule.id && IsIn(d.at, d.window) && fires(schedule.cron, d.at)
            && forall t | s.lastTick < t < d.at :: !fires(schedule.cron, t)
  {
    var due := Selection(s.stored, s.loop.paused, s.loop.busy, s.lastTick, s.loop.now, next);
    SelectionMembers(s.stored, s.loop.paused, s.loop.busy, s.lastTick, s.loop.now, next);
    assert due[i] in due;
  }

  // ---------- When no occurrence is dispatched twice ----------

  // No occurrence of one schedule is there twice.
  ghost predicate Distinct(all: seq<Dispatch>) {
    forall i, j | 0 <= i < j < |all| && all[i].id == all[j].id :: all[i].at != all[j].at
  }

  // The claim selects a schedule of which it queues an occurrence that was dispatched before:
  // the last tick is before it again, the cron fires at it and at nothing in between.
  ghost predicate Repeats(s: State, step: Step, next: Next, fires: (string, int) -> bool) {
    step.ClaimDue? && s.loop.Snapshotted? && Succeeds(s, step, next)
    && exists i, k | 0 <= i < |Selecting(s, next)| && 0 <= k < |s.log| ::
         TakesAgain(s, Selecting(s, next)[i], s.log[k], fires)
  }

  ghost predicate TakesAgain(s: State, schedule: Schedule, d: Dispatch, fires: (string, int) -> bool)
    requires s.loop.Snapshotted?
  {
    && d.id == schedule.id && s.lastTick < d.at <= s.loop.now && fires(schedule.cron, d.at)
    && forall t | s.lastTick < t < d.at :: !fires(schedule.cron, t)
  }

  // A claim queues a given occurrence of a selected schedule again if and only if the last tick
  // is before it and nothing fires strictly between them.
  lemma QueuedAgainExactly(s: State, next: Next, fires: (string, int) -> bool, i: nat, d: Dispatch)
    requires IsNextOf(next, fires) && s.loop.Snapshotted? && i < |Selecting(s, next)|
    requires d.id == Selecting(s, next)[i].id
    ensures var queued := Queue(Selecting(s, next), Window(s.lastTick, s.loop.now), next)[i];
            queued.at == d.at <==> TakesAgain(s, Selecting(s, next)[i], d, fires)
  {
    DispatchedForFirst(s, next, fires, i);
  }

  // Each claim keeps the occurrences distinct exactly when it repeats none.
  lemma ClaimDistinctExactly(s: State, step: Step, next: Next, fires: (string, int) -> bool)
    requires Inv(s) && IsNextOf(next, fires) && Enabled(s, step) && Distinct(Claimed(s))
    ensures Distinct(Claimed(After(s, step, next))) <==> !Repeats(s, step, next, fires)
  {
    DispatchesAreConserved(s, step, next);
    if step.ClaimDue? && Succeeds(s, step, next) {
      assert Claimed(s) == s.log;
      QueueDistinctExactly(s, step, next, fires);
    } else if step.Restart? {
      assert forall i | 0 <= i < |s.log| :: Claimed(s)[i] == s.log[i];
    } else if step.ClaimDue? {
      assert Claimed(s) == s.log;
    }
  }

  lemma QueueDistinctExactly(s: State, step: Step, next: Next, fires: (string, int) -> bool)
    requires Inv(s) && IsNextOf(next, fires) && s.loop.Snapshotted? && step.ClaimDue? && Succeeds(s, step, next)
    requires Distinct(s.log)
    ensures Distinct(s.log + NewQueue(s, step, next)) <==> !Repeats(s, step, next, fires)
  {
    ClaimQueue(s, next, fires);
    var due := Selecting(s, next);
    var queue := NewQueue(s, step, next);
    forall i, k | 0 <= i < |due| && 0 <= k < |s.log| && s.log[k].id == due[i].id
      ensures queue[i].at == s.log[k].at <==> TakesAgain(s, due[i], s.log[k], fires)
    {
      QueuedAgainExactly(s, next, fires, i, s.log[k]);
    }
    assert |queue| == |due| && forall i | 0 <= i < |due| :: queue[i].id == due[i].id;
    assert forall i, j | 0 <= i < j < |queue| :: queue[i].id != queue[j].id;
    hide Inv, IsNextOf, Selecting, Queue, Succeeds, QueueMatches;
    if Repeats(s, step, next, fires) {
      var i, k :| 0 <= i < |due| && 0 <= k < |s.log| && TakesAgain(s, due[i], s.log[k], fires);
      var all := s.log + queue;
      assert all[k] == s.log[k] && all[|s.log| + i] == queue[i];
    } else {
      JoinedDistinct(s.log, queue);
    }
  }

  lemma JoinedDistinct(log: seq<Dispatch>, queue: seq<Dispatch>)
    requires Distinct(log) && forall i, j | 0 <= i < j < |queue| :: queue[i].id != queue[j].id
    requires forall k, i | 0 <= k < |log| && 0 <= i < |queue| && log[k].id == queue[i].id :: log[k].at != queue[i].at
    ensures Distinct(log + queue)
  {
    var all := log + queue;
    assert forall j | |log| <= j < |all| :: all[j] == queue[j - |log|];
  }

  ghost predicate DistinctThroughout(s: State, steps: seq<Step>, next: Next)
    requires Possible(s, steps, next)
    decreases |steps|
  {
    Distinct(Claimed(s)) && (steps == [] || DistinctThroughout(After(s, steps[0], next), steps[1..], next))
  }

  ghost predicate NeverRepeats(s: State, steps: seq<Step>, next: Next, fires: (string, int) -> bool)
    requires Possible(s, steps, next)
    decreases |steps|
  {
    || steps == []
    || (!Repeats(s, steps[0], next, fires)
        && NeverRepeats(After(s, steps[0], next), steps[1..], next, fires))
  }

  lemma {:induction false} DistinctRunExactly(s: State, steps: seq<Step>, next: Next, fires: (string, int) -> bool)
    requires Inv(s) && Distinct(Claimed(s)) && IsNextOf(next, fires) && Possible(s, steps, next)
    ensures DistinctThroughout(s, steps, next) <==> NeverRepeats(s, steps, next, fires)
    decreases |steps|
  {
    if steps == [] {
    } else {
      var s1 := After(s, steps[0], next);
      StepInv(s, steps[0], next, fires);
      ClaimDistinctExactly(s, steps[0], next, fires);
      hide Inv, After, Enabled, Repeats, Distinct;
      if Distinct(Claimed(s1)) {
        DistinctRunExactly(s1, steps[1..], next, fires);
      }
    }
  }

  // Over any run at all, with failures, edits, panics, restarts and any clock: no occurrence is
  // ever claimed twice if and only if no claim finds the last tick before an occurrence that
  // was dispatched and would be the first to fire.
  lemma NoRepeatExactly(clock: int, stored: seq<Schedule>, steps: seq<Step>, next: Next, fires: (string, int) -> bool)
    requires UniqueIds(stored) && IsNextOf(next, fires) && Possible(Start(clock, stored), steps, next)
    ensures DistinctThroughout(Start(clock, stored), steps, next) <==>
              NeverRepeats(Start(clock, stored), steps, next, fires)
  {
    StartInv(clock, stored);
    DistinctRunExactly(Start(clock, stored), steps, next, fires);
  }

  lemma StartInv(clock: int, stored: seq<Schedule>)
    requires UniqueIds(stored)
    ensures Inv(Start(clock, stored))
  {
    assert Start(clock, stored).runs.Values == {};
  }

  // ---------- What a clock that behaves gives ----------

  // The last tick is not before any occurrence dispatched for the schedules the claim selects.
  ghost predicate IsLater(s: State, step: Step, next: Next) {
    step.ClaimDue? && s.loop.Snapshotted? ==>
      forall i, k | 0 <= i < |Selecting(s, next)| && 0 <= k < |s.log| ::
        s.log[k].id == Selecting(s, next)[i].id ==> s.log[k].at <= s.lastTick
  }

  ghost predicate LaterRun(s: State, steps: seq<Step>, next: Next)
    requires Possible(s, steps, next)
    decreases |steps|
  {
    steps == [] || (IsLater(s, steps[0], next) && LaterRun(After(s, steps[0], next), steps[1..], next))
  }

  // Of one schedule, the earlier dispatch is for the earlier occurrence.
  ghost predicate Increasing(all: seq<Dispatch>) {
    forall i, j | 0 <= i < j < |all| && all[i].id == all[j].id :: all[i].at < all[j].at
  }

  lemma IncreasingStep(s: State, step: Step, next: Next, fires: (string, int) -> bool)
    requires Inv(s) && IsNextOf(next, fires) && Enabled(s, step) && Increasing(Claimed(s)) && IsLater(s, step, next)
    ensures Increasing(Claimed(After(s, step, next)))
  {
    DispatchesAreConserved(s, step, next);
    if step.ClaimDue? {
      ClaimQueue(s, next, fires);
      assert Claimed(s) == s.log;
      hide Inv, After, IsNextOf, Selecting;
      var queue := NewQueue(s, step, next);
      var all := s.log + queue;
      assert forall j | |s.log| <= j < |all| :: all[j] == queue[j - |s.log|];
    } else if step.Restart? {
      assert forall i | 0 <= i < |s.log| :: Claimed(s)[i] == s.log[i];
    }
  }

  lemma {:induction false} IncreasingRun(s: State, steps: seq<Step>, next: Next, fires: (string, int) -> bool)
    requires Inv(s) && Increasing(Claimed(s)) && IsNextOf(next, fires)
    requires Possible(s, steps, next) && LaterRun(s, steps, next)
    ensures Increasing(Claimed(Final(s, steps, next)))
    decreases |steps|
  {
    if steps == [] {
    } else {
      StepInv(s, steps[0], next, fires);
      IncreasingStep(s, steps[0], next, fires);
      hide Inv, After, Enabled, IsLater, Increasing;
      IncreasingRun(After(s, steps[0], next), steps[1..], next, fires);
    }
  }

  // Then the occurrences dispatched for one schedule are strictly later and later ones, across
  // ticks, failures, edits, panics and restarts.
  lemma NoOccurrenceTwice(clock: int, stored: seq<Schedule>, steps: seq<Step>, next: Next,
                          fires: (string, int) -> bool, i: nat, j: nat)
    requires UniqueIds(stored) && IsNextOf(next, fires) && Possible(Start(clock, stored), steps, next)
    requires LaterRun(Start(clock, stored), steps, next)
    requires var log := Final(Start(clock, stored), steps, next).log; i < j < |log| && log[i].id == log[j].id
    ensures var log := Final(Start(clock, stored), steps, next).log; log[i].at < log[j].at
  {
    StartInv(clock, stored);
    IncreasingRun(Start(clock, stored), steps, next, fires);
    var end := Final(Start(clock, stored), steps, next);
    assert Claimed(end)[i] == end.log[i] && Claimed(end)[j] == end.log[j];
  }

  // A successful tick, or a new process, does not start before the last tick.
  predicate IsForward(s: State, step: Step) {
    && (step.ClaimDue? && s.loop.Snapshotted? ==> s.lastTick <= s.loop.now)
    && (step.Restart? ==> s.lastTick <= s.clock)
  }

  ghost predicate ForwardRun(s: State, steps: seq<Step>, next: Next)
    requires Possible(s, steps, next)
    decreases |steps|
  {
    steps == [] || (IsForward(s, steps[0]) && ForwardRun(After(s, steps[0], next), steps[1..], next))
  }

  // Nothing was dispatched for an occurrence past the last tick.
  ghost predicate LogBefore(s: State) {
    forall i | 0 <= i < |Claimed(s)| :: Claimed(s)[i].at <= s.lastTick
  }

  lemma LogBeforeStep(s: State, step: Step, next: Next, fires: (string, int) -> bool)
    requires Inv(s) && IsNextOf(next, fires) && Enabled(s, step) && IsForward(s, step) && LogBefore(s)
    ensures IsLater(s, step, next) && LogBefore(After(s, step, next))
  {
    if step.ClaimDue? {
      LogBeforeClaim(s, step, next, fires);
    } else {
      DispatchesAreConserved(s, step, next);
      assert forall i | 0 <= i < |s.log| :: Claimed(s)[i] == s.log[i];
      hide Inv, IsNextOf, Claimed;
    }
  }

  lemma LogBeforeClaim(s: State, step: Step, next: Next, fires: (string, int) -> bool)
    requires Inv(s) && IsNextOf(next, fires) && Enabled(s, step) && IsForward(s, step) && LogBefore(s) && step.ClaimDue?
    ensures IsLater(s, step, next) && LogBefore(After(s, step, next))
  {
    assert Claimed(s) == s.log;
    DispatchesAreConserved(s, step, next);
    ClaimQueue(s, next, fires);
    var queue := NewQueue(s, step, next);
    var s' := After(s, step, next);
    assert s'.lastTick == if Succeeds(s, step, next) then s.loop.now else s.lastTick;
    hide Inv, IsNextOf, After, Selecting, Succeeds, Queue;
    var all := s.log + queue;
    assert forall j | |s.log| <= j < |all| :: all[j] == queue[j - |s.log|];
  }

  // Ticks that go forward are later than everything dispatched.
  lemma {:induction false} ForwardIsLater(s: State, steps: seq<Step>, next: Next, fires: (string, int) -> bool)
    requires Inv(s) && LogBefore(s) && IsNextOf(next, fires) && Possible(s, steps, next) && ForwardRun(s, steps, next)
    ensures LaterRun(s, steps, next)
    decreases |steps|
  {
    if steps == [] {
    } else {
      StepInv(s, steps[0], next, fires);
      LogBeforeStep(s, steps[0], next, fires);
      hide Inv, After, Enabled, IsLater, LogBefore;
      ForwardIsLater(After(s, steps[0], next), steps[1..], next, fires);
    }
  }

  ghost predicate MonotoneRun(s: State, steps: seq<Step>, next: Next)
    requires Possible(s, steps, next)
    decreases |steps|
  {
    || steps == []
    || ((steps[0].Advance? ==> s.clock <= steps[0].to)
        && MonotoneRun(After(s, steps[0], next), steps[1..], next))
  }

  predicate TicksBehindClock(s: State) {
    s.lastTick <= s.clock && (s.loop.Snapshotted? ==> s.lastTick <= s.loop.now <= s.clock)
  }

  // A clock that does not go back makes every tick a forward one.
  lemma {:induction false} MonotoneIsForward(s: State, steps: seq<Step>, next: Next)
    requires TicksBehindClock(s) && Possible(s, steps, next) && MonotoneRun(s, steps, next)
    ensures ForwardRun(s, steps, next)
    decreases |steps|
  {
    if steps == [] {
    } else {
      MonotoneIsForward(After(s, steps[0], next), steps[1..], next);
    }
  }

  // ---------- Windows ----------

  // The windows follow each other, and those of this process without a gap.
  ghost predicate Tiled(windows: seq<Window>, before: nat, since: int, lastTick: int) {
    && before <= |windows| && since <= lastTick
    && (forall i | 0 <= i < |windows| :: windows[i].lo <= windows[i].hi <= lastTick)
    && (forall i, j | 0 <= i < j < |windows| :: windows[i].hi <= windows[j].lo)
    && (forall i | 0 <= i < before :: windows[i].hi <= since)
    && (forall i, j | before <= i < j < |windows| && j == i + 1 :: windows[i].hi == windows[j].lo)
    && (before < |windows| ==> windows[before].lo == since)
    && lastTick == if before == |windows| then since else windows[|windows| - 1].hi
  }

  lemma TilesGrow(windows: seq<Window>, before: nat, since: int, lastTick: int, now: int)
    requires Tiled(windows, before, since, lastTick) && lastTick <= now
    ensures Tiled(windows + [Window(lastTick, now)], before, since, now)
  {}

  ghost predicate Gapless(s: State) {
    Tiled(s.windows, s.before, s.since, s.lastTick)
  }

  lemma GaplessStep(s: State, step: Step, next: Next)
    requires Gapless(s) && Enabled(s, step) && IsForward(s, step)
    ensures Gapless(After(s, step, next))
  {
    if step.ClaimDue? && s.lastTick <= s.loop.now {
      TilesGrow(s.windows, s.before, s.since, s.lastTick, s.loop.now);
    }
  }

  lemma {:induction false} GaplessRun(s: State, steps: seq<Step>, next: Next)
    requires Gapless(s) && Possible(s, steps, next) && ForwardRun(s, steps, next)
    ensures Gapless(Final(s, steps, next))
    decreases |steps|
  {
    if steps == [] {
    } else {
      GaplessStep(s, steps[0], next);
      hide Gapless, Enabled, After, IsForward;
      GaplessRun(After(s, steps[0], next), steps[1..], next);
    }
  }

  // Every instant since the process started, up to the last successful tick, lies in exactly
  // one window: failed ticks lose nothing and no instant is answered for twice.
  lemma EveryInstantOnce(clock: int, stored: seq<Schedule>, steps: seq<Step>, next: Next, t: int)
    requires Possible(Start(clock, stored), steps, next) && ForwardRun(Start(clock, stored), steps, next)
    requires var s := Final(Start(clock, stored), steps, next); s.since < t <= s.lastTick
    ensures var s := Final(Start(clock, stored), steps, next);
            && (exists i | 0 <= i < |s.windows| :: IsIn(t, s.windows[i]))
            && forall i, j | 0 <= i < j < |s.windows| :: !(IsIn(t, s.windows[i]) && IsIn(t, s.windows[j]))
  {
    GaplessRun(Start(clock, stored), steps, next);
    var s := Final(Start(clock, stored), steps, next);
    CoveringWindow(s, t, |s.windows|);
  }

  lemma {:induction false} CoveringWindow(s: State, t: int, n: nat)
    requires Gapless(s) && s.before < n <= |s.windows| && s.since < t <= s.windows[n - 1].hi
    ensures exists i | s.before <= i < n :: IsIn(t, s.windows[i])
  {
    if t > s.windows[n - 1].lo {
      assert IsIn(t, s.windows[n - 1]);
    } else {
      CoveringWindow(s, t, n - 1);
    }
  }

  // Over any run without a restart and without a successful tick the window stays open where
  // it was, and the next successful tick answers for all of it.
  lemma {:induction false} FailedTicksKeepWindow(s: State, steps: seq<Step>, next: Next)
    requires Possible(s, steps, next) && Restart !in steps
    ensures |Final(s, steps, next).windows| >= |s.windows|
    ensures |Final(s, steps, next).windows| == |s.windows| ==> Final(s, steps, next).lastTick == s.lastTick
    decreases |steps|
  {
    if steps == [] {
    } else {
      assert steps[0] in steps && forall x | x in steps[1..] :: x in steps;
      FailedTicksKeepWindow(After(s, steps[0], next), steps[1..], next);
    }
  }

  lemma NextTickAnswersForAll(s: State, steps: seq<Step>, next: Next, claim: Step)
    requires Possible(s, steps, next) && Restart !in steps && |Final(s, steps, next).windows| == |s.windows|
    requires claim.ClaimDue? && Enabled(Final(s, steps, next), claim)
    ensures var end := Final(s, steps, next);
            Succeeds(end, claim, next) ==>
              After(end, claim, next).windows == end.windows + [Window(s.lastTick, end.loop.now)]
  {
    FailedTicksKeepWindow(s, steps, next);
  }

  // ---------- A clock that goes back ----------

  // A schedule that fires once, at 95, under a clock set back after its tick.
  function OnceAt95(cron: string, after: int): Option<int> {
    if after < 95 then Some(95) else None
  }

  function ClockSetBack(): seq<Step> {
    [Advance(100), Wake(false), ClaimDue(true, Written), DispatchNext(0), Finish(0)]
    + ([Advance(90), Wake(false), ClaimDue(true, Written)]
       + [Advance(110), Wake(false), ClaimDue(true, Written), DispatchNext(1)])
  }

  // Set back past an occurrence, the clock makes the loop dispatch that occurrence again:
  // the tick that sees the earlier time claims nothing but moves the window back.
  lemma ClockSetBackRepeats(schedule: Schedule)
    requires schedule.enabled
    ensures var s := Start(80, [schedule]);
            && Possible(s, ClockSetBack(), OnceAt95)
            && var log := Final(s, ClockSetBack(), OnceAt95).log;
               |log| == 2 && log[0].id == log[1].id && log[0].at == log[1].at == 95
               && log[0].window == Window(80, 100) && log[1].window == Window(90, 110)
  {
    var s := Start(80, [schedule]);
    var s1 := FirstTick(s, schedule);
    var s2 := BackTick(s1);
    var s3 := SecondTick(s2);
    var a := [Advance(100), Wake(false), ClaimDue(true, Written), DispatchNext(0), Finish(0)];
    var b := [Advance(90), Wake(false), ClaimDue(true, Written)];
    var c := [Advance(110), Wake(false), ClaimDue(true, Written), DispatchNext(1)];
    hide Possible, Final;
    TwoParts(s1, b, c, OnceAt95);
    TwoParts(s, a, b + c, OnceAt95);
  }

  lemma {:induction false} TwoParts(s: State, a: seq<Step>, b: seq<Step>, next: Next)
    requires Possible(s, a, next) && Possible(Final(s, a, next), b, next)
    ensures Possible(s, a + b, next) && Final(s, a + b, next) == Final(Final(s, a, next), b, next)
    decreases |a|
  {
    if a == [] {
      assert a + b == b;
    } else {
      assert (a + b)[1..] == a[1..] + b;
      TwoParts(After(s, a[0], next), a[1..], b, next);
    }
  }

  lemma FirstTick(s: State, schedule: Schedule) returns (end: State)
    requires s == Start(80, [schedule]) && schedule.enabled
    ensures var steps := [Advance(100), Wake(false), ClaimDue(true, Written), DispatchNext(0), Finish(0)];
            Possible(s, steps, OnceAt95) && end == Final(s, steps, OnceAt95)
    ensures end.loop == Sleeping && end.active == {} && end.runs == map[] && end.lastTick == 100
    ensures |end.stored| == 1 && end.stored[0].enabled && end.stored[0].id == schedule.id
    ensures end.log == [Dispatch(schedule.id, Window(80, 100), 95)]
  {
    var s1 := After(s, Advance(100), OnceAt95);
    var s2 := After(s1, Wake(false), OnceAt95);
    assert DueSchedules([schedule], false, 80, 100, OnceAt95) == [schedule];
    assert Inactive([schedule], {}) == [schedule];
    var s3 := After(s2, ClaimDue(true, Written), OnceAt95);
    assert s3.loop == Dispatching([Dispatch(schedule.id, Window(80, 100), 95)]);
    var s4 := After(s3, DispatchNext(0), OnceAt95);
    end := After(s4, Finish(0), OnceAt95);
    OneMore(s4, Finish(0), [], end);
    OneMore(s3, DispatchNext(0), [Finish(0)], end);
    OneMore(s2, ClaimDue(true, Written), [DispatchNext(0), Finish(0)], end);
    OneMore(s1, Wake(false), [ClaimDue(true, Written), DispatchNext(0), Finish(0)], end);
    OneMore(s, Advance(100), [Wake(false), ClaimDue(true, Written), DispatchNext(0), Finish(0)], end);
  }

  lemma OneMore(s: State, step: Step, rest: seq<Step>, end: State)
    requires Enabled(s, step) && Possible(After(s, step, OnceAt95), rest, OnceAt95)
    requires Final(After(s, step, OnceAt95), rest, OnceAt95) == end
    ensures Possible(s, [step] + rest, OnceAt95) && Final(s, [step] + rest, OnceAt95) == end
  {
    assert ([step] + rest)[1..] == rest;
  }

  lemma BackTick(s: State) returns (end: State)
    requires s.loop == Sleeping && s.lastTick == 100
    ensures var steps := [Advance(90), Wake(false), ClaimDue(true, Written)];
            Possible(s, steps, OnceAt95) && end == Final(s, steps, OnceAt95)
    ensures end.loop == Sleeping && end.lastTick == 90 && end.active == s.active && end.runs == s.runs
    ensures end.stored == s.stored && end.log == s.log
  {
    var s1 := After(s, Advance(90), OnceAt95);
    var s2 := After(s1, Wake(false), OnceAt95);
    var due := Selection(s.stored, false, s.active, 100, 90, OnceAt95);
    assert due != [] ==> due[0] in due;
    SelectionMembers(s.stored, false, s.active, 100, 90, OnceAt95);
    end := After(s2, ClaimDue(true, Written), OnceAt95);
    OneMore(s2, ClaimDue(true, Written), [], end);
    OneMore(s1, Wake(false), [ClaimDue(true, Written)], end);
    OneMore(s, Advance(90), [Wake(false), ClaimDue(true, Written)], end);
  }

  lemma SecondTick(s: State) returns (end: State)
    requires s.loop == Sleeping && s.lastTick == 90 && s.active == {} && s.runs == map[]
    requires |s.stored| == 1 && s.stored[0].enabled
    ensures var steps := [Advance(110), Wake(false), ClaimDue(true, Written), DispatchNext(1)];
            Possible(s, steps, OnceAt95) && end == Final(s, steps, OnceAt95)
    ensures end.log == s.log + [Dispatch(s.stored[0].id, Window(90, 110), 95)]
  {
    var s1 := After(s, Advance(110), OnceAt95);
    var s2 := After(s1, Wake(false), OnceAt95);
    assert s.stored == [s.stored[0]];
    assert DueSchedules([s.stored[0]], false, 90, 110, OnceAt95) == [s.stored[0]];
    assert Inactive([s.stored[0]], {}) == [s.stored[0]];
    var s3 := After(s2, ClaimDue(true, Written), OnceAt95);
    assert s3.loop == Dispatching([Dispatch(s.stored[0].id, Window(90, 110), 95)]);
    end := After(s3, DispatchNext(1), OnceAt95);
    OneMore(s3, DispatchNext(1), [], end);
    OneMore(s2, ClaimDue(true, Written), [DispatchNext(1)], end);
    OneMore(s1, Wake(false), [ClaimDue(true, Written), DispatchNext(1)], end);
    OneMore(s, Advance(110), [Wake(false), ClaimDue(true, Written), DispatchNext(1)], end);
  }
}
