/** Several instances of the application at once: each may acquire the scheduler lock and then
    runs the scheduler loop on the one schedule store, for as long as it lives. */
module Instances {
  import opened Wrappers
  import opened CronDispatch
  import L = SchedulerLock
  import S = SchedulerLoop

  // A loop and the token of the lock it was started under. The clock, the store and the log in
  // its own state are stale; they are shared by all.
  datatype Instance = Instance(token: nat, own: S.State)

  datatype Joint = Joint(lock: L.State, stored: seq<Schedule>, log: seq<S.Dispatch>, loops: map<nat, Instance>)

  // What process p's loop works on.
  function View(j: Joint, p: nat): S.State
    requires p in j.loops
  {
    j.loops[p].own.(clock := j.lock.clock, stored := j.stored, log := j.log)
  }

  // ---------- Steps ----------

  // A loop begins once its process has acquired the lock, and dies with it; nothing else ends
  // it, also when the lock is lost.
  datatype Step =
    | LockStep(step: L.Step)
    | Begin(p: nat)
    | LoopStep(p: nat, section: S.Step)
    | Edit(schedules: seq<Schedule>)

  predicate IsSection(step: S.Step) {
    step.Wake? || step.ClaimDue? || step.DispatchNext?
  }

  predicate Enabled(j: Joint, step: Step) {
    match step
    case LockStep(step) => L.Enabled(j.lock, step)
    case Begin(p) =>
      var q := L.At(j.lock, p);
      q.Owner? && q.acquired && L.Holds(q) && (p in j.loops ==> j.loops[p].token != q.token)
    case LoopStep(p, step) =>
      p in j.loops && (IsSection(step) || step.Finish? || step.Panic?) && S.Enabled(View(j, p), step)
    case Edit(schedules) => UniqueIds(schedules)
  }

  function After(j: Joint, step: Step, next: Next): Joint
    requires Enabled(j, step)
  {
    match step
    case LockStep(step) =>
      j.(lock := L.After(j.lock, step), loops := if step.Crash? then j.loops - {step.p} else j.loops)
    case Begin(p) => j.(loops := j.loops[p := Instance(L.At(j.lock, p).token, S.Start(j.lock.clock, j.stored))])
    case LoopStep(p, step) =>
      var r := S.After(View(j, p), step, next);
      j.(stored := r.stored, log := r.log, loops := j.loops[p := j.loops[p].(own := r)])
    case Edit(schedules) => j.(stored := schedules)
  }

  predicate Possible(j: Joint, steps: seq<Step>, next: Next)
    decreases |steps|
  {
    steps == [] || (Enabled(j, steps[0]) && Possible(After(j, steps[0], next), steps[1..], next))
  }

  function Final(j: Joint, steps: seq<Step>, next: Next): Joint
    requires Possible(j, steps, next)
    decreases |steps|
  {
    if steps == [] then j else Final(After(j, steps[0], next), steps[1..], next)
  }

  // Any leftover lock file and any store, no process in flight.
  ghost predicate Init(j: Joint) {
    L.Init(j.lock) && UniqueIds(j.stored) && j.log == [] && j.loops == map[]
  }

  // ---------- When the lock does its work ----------

  // The loop's process has not begun to drop the lock the loop was started under.
  predicate StillHolds(j: Joint, p: nat) {
    p in j.loops && L.Holds(L.At(j.lock, p)) && L.At(j.lock, p).token == j.loops[p].token
  }

  // Holders heartbeat in time, unlinks take what was read, and a loop does not go on after its
  // process began to drop the lock.
  ghost predicate Guarded(j: Joint, step: Step)
    requires Enabled(j, step)
  {
    && L.Timely(j.lock)
    && (step.LockStep? ==> L.Settled(j.lock, step.step))
    && (step.LoopStep? && IsSection(step.section) ==> StillHolds(j, step.p))
  }

  ghost predicate GuardedRun(j: Joint, steps: seq<Step>, next: Next)
    requires Possible(j, steps, next)
    decreases |steps|
  {
    steps == [] || (Guarded(j, steps[0]) && GuardedRun(After(j, steps[0], next), steps[1..], next))
  }

  // ---------- Then all instances are one loop ----------

  // The two states differ at most in the bookkeeping of windows.
  predicate Alike(a: S.State, b: S.State) {
    && a.clock == b.clock && a.lastTick == b.lastTick && a.stored == b.stored && a.active == b.active
    && a.runs == b.runs && a.stranded == b.stranded && a.loop == b.loop && a.log == b.log
  }

  lemma AlikeStep(a: S.State, b: S.State, step: S.Step, next: Next)
    requires Alike(a, b) && S.Enabled(b, step) && !step.Restart?
    ensures S.Enabled(a, step) && Alike(S.After(a, step, next), S.After(b, step, next))
  {}

  // One loop stands for all: it shares the clock, the store and the log, and it is the loop of
  // the only process that may still go on with one.
  ghost predicate StandsFor(a: S.State, j: Joint, leader: Option<nat>) {
    && a.clock == j.lock.clock && a.stored == j.stored && a.log == j.log
    && (leader.Some? ==> leader.value in j.loops && Alike(a, View(j, leader.value)))
    && (forall p | p in j.loops :: StillHolds(j, p) ==> leader == Some(p))
    && (forall p | p in j.loops :: j.loops[p].token in j.lock.tokens)
  }

  ghost predicate Sound(j: Joint) {
    L.Inv(j.lock) && L.Exclusive(j.lock)
  }

  // The steps of the one loop for a step of an instance, and whose loop it is then.
  function Abstract(j: Joint, step: Step, leader: Option<nat>): (seq<S.Step>, Option<nat>) {
    match step
    case LockStep(step) =>
      (if step.Tick? then [S.Advance(j.lock.clock + step.ms)] else [],
       if step.Crash? && leader == Some(step.p) then None else leader)
    case Begin(p) => ([S.Restart], Some(p))
    case LoopStep(p, step) => (if leader == Some(p) then [step] else [], leader)
    case Edit(schedules) => ([S.Edit(schedules)], leader)
  }

  lemma SoundStep(j: Joint, step: Step, next: Next)
    requires Sound(j) && Enabled(j, step) && Guarded(j, step)
    ensures Sound(After(j, step, next))
  {
    if step.LockStep? {
      L.StepInv(j.lock, step.step);
      L.ExclusiveStep(j.lock, step.step);
    }
  }

  // A process holds under a known token only if it did so before.
  lemma HoldsBefore(lock: L.State, step: L.Step, p: nat)
    requires L.Enabled(lock, step) && L.Holds(L.At(L.After(lock, step), p))
    requires L.At(L.After(lock, step), p).token in lock.tokens
    ensures L.Holds(L.At(lock, p)) && L.At(lock, p).token == L.At(L.After(lock, step), p).token
  {}

  lemma LockStandsFor(a: S.State, j: Joint, step: L.Step, leader: Option<nat>, next: Next)
    requires StandsFor(a, j, leader) && L.Enabled(j.lock, step) && !step.Tick?
    ensures StandsFor(a, After(j, LockStep(step), next), Abstract(j, LockStep(step), leader).1)
  {
    var j' := After(j, LockStep(step), next);
    var leader' := Abstract(j, LockStep(step), leader).1;
    assert j'.lock.clock == j.lock.clock && j.lock.tokens <= j'.lock.tokens;
    forall p | p in j'.loops && StillHolds(j', p) ensures leader' == Some(p) {
      HoldsBefore(j.lock, step, p);
      assert StillHolds(j, p);
    }
  }

  lemma TickStandsFor(a: S.State, j: Joint, ms: nat, leader: Option<nat>, next: Next)
    requires StandsFor(a, j, leader)
    ensures StandsFor(a.(clock := j.lock.clock + ms), After(j, LockStep(L.Tick(ms)), next), leader)
  {
    var j' := After(j, LockStep(L.Tick(ms)), next);
    forall p | p in j'.loops && StillHolds(j', p) ensures leader == Some(p) {
      assert StillHolds(j, p);
    }
  }

  // Nobody else holds the lock when a loop begins.
  lemma BeginStandsFor(a: S.State, j: Joint, p: nat, leader: Option<nat>, next: Next)
    requires Sound(j) && StandsFor(a, j, leader) && Enabled(j, Begin(p))
    ensures StandsFor(S.After(a, S.Restart, next), After(j, Begin(p), next), Some(p))
  {
    var j' := After(j, Begin(p), next);
    forall q | q in j'.loops && StillHolds(j', q) ensures q == p {
      L.OneHolder(j.lock, p, q);
    }
    assert L.FileOfOwner(j.lock, L.At(j.lock, p));
  }

  lemma LoopStandsFor(a: S.State, j: Joint, p: nat, step: S.Step, leader: Option<nat>, next: Next)
    requires StandsFor(a, j, leader) && Enabled(j, LoopStep(p, step)) && Guarded(j, LoopStep(p, step))
    ensures leader == Some(p) ==>
              S.Enabled(a, step) && StandsFor(S.After(a, step, next), After(j, LoopStep(p, step), next), leader)
    ensures leader != Some(p) ==> StandsFor(a, After(j, LoopStep(p, step), next), leader)
  {
    var j' := After(j, LoopStep(p, step), next);
    hide L.At, L.Timely;
    forall q | q in j'.loops && StillHolds(j', q) ensures leader == Some(q) {
      assert StillHolds(j, q);
    }
    if leader == Some(p) {
      AlikeStep(a, View(j, p), step, next);
      KeepsClock(View(j, p), step, next);
      hide S.After, S.Enabled;
    } else {
      assert !IsSection(step);
    }
  }

  lemma KeepsClock(s: S.State, step: S.Step, next: Next)
    requires S.Enabled(s, step) && !step.Advance?
    ensures S.After(s, step, next).clock == s.clock
  {}

  lemma StandsForStep(a: S.State, j: Joint, step: Step, leader: Option<nat>, next: Next)
    requires Sound(j) && StandsFor(a, j, leader) && Enabled(j, step) && Guarded(j, step)
    ensures var (steps, leader') := Abstract(j, step, leader);
            && |steps| <= 1
            && (steps == [] ==> StandsFor(a, After(j, step, next), leader'))
            && (steps != [] ==>
                 && S.Enabled(a, steps[0]) && (steps[0].Advance? ==> a.clock <= steps[0].to)
                 && StandsFor(S.After(a, steps[0], next), After(j, step, next), leader'))
  {
    match step
    case LockStep(lockStep) =>
      if lockStep.Tick? {
        TickStandsFor(a, j, lockStep.ms, leader, next);
      } else {
        LockStandsFor(a, j, lockStep, leader, next);
      }
    case Begin(p) => BeginStandsFor(a, j, p, leader, next);
    case LoopStep(p, loopStep) => LoopStandsFor(a, j, p, loopStep, leader, next);
    case Edit(schedules) => EditStandsFor(a, j, schedules, leader, next);
  }

  lemma EditStandsFor(a: S.State, j: Joint, schedules: seq<Schedule>, leader: Option<nat>, next: Next)
    requires StandsFor(a, j, leader) && UniqueIds(schedules)
    ensures StandsFor(a.(stored := schedules), After(j, Edit(schedules), next), leader)
  {
    var j' := After(j, Edit(schedules), next);
    forall p | p in j'.loops && StillHolds(j', p) ensures leader == Some(p) {
      assert StillHolds(j, p);
    }
  }

  // Every guarded run of all instances together is a run of one loop with a clock that does not
  // go back, in which every takeover is a restart.
  lemma {:induction false} Refines(a: S.State, j: Joint, steps: seq<Step>, leader: Option<nat>, next: Next)
    returns (one: seq<S.Step>)
    requires Sound(j) && StandsFor(a, j, leader) && Possible(j, steps, next) && GuardedRun(j, steps, next)
    ensures S.Possible(a, one, next) && S.MonotoneRun(a, one, next)
    ensures S.Final(a, one, next).log == Final(j, steps, next).log
    ensures S.Final(a, one, next).stored == Final(j, steps, next).stored
    decreases |steps|
  {
    if steps == [] {
      one := [];
    } else {
      StandsForStep(a, j, steps[0], leader, next);
      SoundStep(j, steps[0], next);
      var (piece, leader') := Abstract(j, steps[0], leader);
      hide Sound, StandsFor, Enabled, After, Guarded, Abstract, S.Enabled, S.After;
      var rest := Refines(if piece == [] then a else S.After(a, piece[0], next),
                          After(j, steps[0], next), steps[1..], leader', next);
      one := piece + rest;
      assert piece == [] ==> one == rest;
      assert piece != [] ==> one[0] == piece[0] && one[1..] == rest;
    }
  }

  // So schedules never fire twice across instances: in every guarded run the occurrences that
  // all loops dispatch for one schedule strictly increase.
  lemma NeverDoubleFires(j: Joint, steps: seq<Step>, next: Next, fires: (string, int) -> bool, i: nat, k: nat)
    requires Init(j) && IsNextOf(next, fires) && Possible(j, steps, next) && GuardedRun(j, steps, next)
    requires var log := Final(j, steps, next).log; i < k < |log| && log[i].id == log[k].id
    ensures var log := Final(j, steps, next).log; log[i].at < log[k].at
  {
    var a := S.Start(j.lock.clock, j.stored);
    L.InitInv(j.lock);
    assert Sound(j) && StandsFor(a, j, None);
    var one := Refines(a, j, steps, None, next);
    S.StartInv(j.lock.clock, j.stored);
    S.MonotoneIsForward(a, one, next);
    S.ForwardIsLater(a, one, next, fires);
    S.NoOccurrenceTwice(j.lock.clock, j.stored, one, next, fires, i, k);
  }

  // ---------- When it does not ----------

  // A loop whose process lost the lock goes on: whatever another loop dispatched, its claim
  // queues again exactly when its own last tick lies before that and nothing fires in between.
  lemma LostLoopFiresAgainExactly(j: Joint, p: nat, next: Next, fires: (string, int) -> bool, i: nat, d: S.Dispatch)
    requires IsNextOf(next, fires) && p in j.loops && View(j, p).loop.Snapshotted?
    requires i < |S.Selecting(View(j, p), next)| && d in j.log && d.id == S.Selecting(View(j, p), next)[i].id
    ensures var s := View(j, p);
            S.Queue(S.Selecting(s, next), S.Window(s.lastTick, s.loop.now), next)[i].at == d.at <==>
              S.TakesAgain(s, S.Selecting(s, next)[i], d, fires)
  {
    S.QueuedAgainExactly(View(j, p), next, fires, i, d);
  }

  function OneTick(p: nat, task: nat): seq<Step> {
    [LoopStep(p, S.Wake(false)), LoopStep(p, S.ClaimDue(true, Written)), LoopStep(p, S.DispatchNext(task))]
  }

  // The loop sleeps and is about to fire the only schedule for this occurrence.
  predicate AboutToFire(j: Joint, p: nat, schedule: Schedule, at: int, next: Next) {
    && p in j.loops && j.stored == [schedule] && schedule.enabled
    && (var s := View(j, p);
        && s.loop.Sleeping? && schedule.id !in s.active && s.runs == map[]
        && next(schedule.cron, s.lastTick) == Some(at) && at <= s.clock)
  }

  lemma Fires(j: Joint, p: nat, schedule: Schedule, at: int, next: Next)
    requires AboutToFire(j, p, schedule, at, next)
    ensures Possible(j, OneTick(p, 0), next)
    ensures var end := Final(j, OneTick(p, 0), next);
            && |end.log| == |j.log| + 1 && end.log[..|j.log|] == j.log
            && end.log[|j.log|].id == schedule.id && end.log[|j.log|].at == at
            && end.lock == j.lock && end.stored == [schedule.(lastRun := Some(j.lock.clock))]
            && end.loops.Keys == j.loops.Keys && forall q | q in j.loops && q != p :: end.loops[q] == j.loops[q]
  {
    var s := View(j, p);
    FiresAlone(s, schedule, at, next);
    var s1 := S.After(s, S.Wake(false), next);
    var s2 := S.After(s1, S.ClaimDue(true, Written), next);
    LoopMoves(j, p, S.Wake(false), next);
    var j1 := After(j, LoopStep(p, S.Wake(false)), next);
    LoopMoves(j1, p, S.ClaimDue(true, Written), next);
    var j2 := After(j1, LoopStep(p, S.ClaimDue(true, Written)), next);
    LoopMoves(j2, p, S.DispatchNext(0), next);
    var j3 := After(j2, LoopStep(p, S.DispatchNext(0)), next);
    assert j3.loops.Keys == j.loops.Keys && forall q | q in j.loops && q != p :: j3.loops[q] == j.loops[q];
    hide S.After, After, Possible, Final, AboutToFire;
    Ahead(j2, LoopStep(p, S.DispatchNext(0)), [], j3, next);
    Ahead(j1, LoopStep(p, S.ClaimDue(true, Written)), [LoopStep(p, S.DispatchNext(0))], j3, next);
    Ahead(j, LoopStep(p, S.Wake(false)),
          [LoopStep(p, S.ClaimDue(true, Written)), LoopStep(p, S.DispatchNext(0))], j3, next);
  }

  lemma LoopMoves(j: Joint, p: nat, step: S.Step, next: Next)
    requires p in j.loops && IsSection(step) && S.Enabled(View(j, p), step)
    ensures Enabled(j, LoopStep(p, step))
    ensures var j' := After(j, LoopStep(p, step), next);
            && p in j'.loops && View(j', p) == S.After(View(j, p), step, next)
            && j'.lock == j.lock && j'.log == View(j', p).log && j'.stored == View(j', p).stored
            && j'.loops.Keys == j.loops.Keys && forall q | q in j.loops && q != p :: j'.loops[q] == j.loops[q]
  {
    KeepsClock(View(j, p), step, next);
  }

  lemma Ahead(j: Joint, step: Step, rest: seq<Step>, end: Joint, next: Next)
    requires Enabled(j, step)
    requires if rest == [] then After(j, step, next) == end
             else Possible(After(j, step, next), rest, next) && Final(After(j, step, next), rest, next) == end
    ensures Possible(j, [step] + rest, next) && Final(j, [step] + rest, next) == end
  {
    assert ([step] + rest)[1..] == rest;
  }

  lemma FiresAlone(s: S.State, schedule: Schedule, at: int, next: Next)
    requires s.stored == [schedule] && schedule.enabled && s.loop.Sleeping? && schedule.id !in s.active
    requires s.runs == map[] && next(schedule.cron, s.lastTick) == Some(at) && at <= s.clock
    ensures var s1 := S.After(s, S.Wake(false), next);
            var s2 := S.After(s1, S.ClaimDue(true, Written), next);
            && s2.loop == S.Dispatching([S.Dispatch(schedule.id, S.Window(s.lastTick, s.clock), at)])
            && s2.stored == [schedule.(lastRun := Some(s.clock))] && s2.log == s.log && s2.clock == s.clock
            && s2.runs == map[]
            && var s3 := S.After(s2, S.DispatchNext(0), next);
               && s3.log == s.log + [S.Dispatch(schedule.id, S.Window(s.lastTick, s.clock), at)]
               && s3.stored == s2.stored
  {
    assert DueSchedules([schedule], false, s.lastTick, s.clock, next) == [schedule];
    assert Inactive([schedule], s.active) == [schedule];
    assert Stamped([schedule], Ids([schedule]), s.clock) == [schedule.(lastRun := Some(s.clock))] by {
      assert [schedule][0].id in Ids([schedule]);
    }
  }

  // Two loops about to fire for the same occurrence both do, whoever holds the lock.
  lemma TwoLoopsFireTwice(j: Joint, p: nat, q: nat, schedule: Schedule, at: int, next: Next)
    requires p != q && AboutToFire(j, p, schedule, at, next) && AboutToFire(j, q, schedule, at, next)
    ensures var steps := OneTick(p, 0) + OneTick(q, 0);
            && Possible(j, steps, next)
            && var log := Final(j, steps, next).log;
               |log| == |j.log| + 2 && log[|j.log|].id == log[|j.log| + 1].id && log[|j.log|].at == log[|j.log| + 1].at
  {
    Fires(j, p, schedule, at, next);
    var mid := Final(j, OneTick(p, 0), next);
    var stamped := schedule.(lastRun := Some(j.lock.clock));
    assert AboutToFire(mid, q, stamped, at, next);
    Fires(mid, q, stamped, at, next);
    var end := Final(mid, OneTick(q, 0), next);
    assert end.log[|j.log|] == end.log[..|mid.log|][|j.log|];
    hide Possible, Final, AboutToFire;
    TwoParts(j, OneTick(p, 0), OneTick(q, 0), next);
  }

  // And so it comes once two processes have the lock: both loops begin, and at the next
  // occurrence both fire.
  lemma LostLockFiresTwice(j: Joint, schedule: Schedule, at: int, ms: nat, next: Next)
    requires L.BothHold(j.lock) && j.loops == map[] && j.stored == [schedule] && schedule.enabled
    requires next(schedule.cron, j.lock.clock) == Some(at) && at <= j.lock.clock + ms
    ensures var steps := [Begin(1), Begin(2), LockStep(L.Tick(ms))] + (OneTick(1, 0) + OneTick(2, 0));
            && Possible(j, steps, next)
            && var log := Final(j, steps, next).log;
               |log| == |j.log| + 2 && log[|j.log|].id == log[|j.log| + 1].id && log[|j.log|].at == log[|j.log| + 1].at
  {
    var begun := [Begin(1), Begin(2), LockStep(L.Tick(ms))];
    var j1 := After(j, Begin(1), next);
    var j2 := After(j1, Begin(2), next);
    var j3 := After(j2, LockStep(L.Tick(ms)), next);
    assert AboutToFire(j3, 1, schedule, at, next) && AboutToFire(j3, 2, schedule, at, next);
    assert Enabled(j, Begin(1)) && Enabled(j1, Begin(2)) && Enabled(j2, LockStep(L.Tick(ms)));
    hide After, Enabled, Possible, Final, AboutToFire;
    Ahead(j2, LockStep(L.Tick(ms)), [], j3, next);
    Ahead(j1, Begin(2), [LockStep(L.Tick(ms))], j3, next);
    Ahead(j, Begin(1), [Begin(2), LockStep(L.Tick(ms))], j3, next);
    TwoLoopsFireTwice(j3, 1, 2, schedule, at, next);
    TwoParts(j, begun, OneTick(1, 0) + OneTick(2, 0), next);
  }

  lemma {:induction false} TwoParts(j: Joint, a: seq<Step>, b: seq<Step>, next: Next)
    requires Possible(j, a, next) && Possible(Final(j, a, next), b, next)
    ensures Possible(j, a + b, next) && Final(j, a + b, next) == Final(Final(j, a, next), b, next)
    decreases |a|
  {
    if a == [] {
      assert a + b == b;
    } else {
      assert (a + b)[1..] == a[1..] + b;
      TwoParts(After(j, a[0], next), a[1..], b, next);
    }
  }
}
