/** The scheduler's lease lock: one canonical path, the inodes behind it, one clock and any
    number of processes that create, heartbeat, judge, rename, drop and crash. */
module SchedulerLock {
  import opened Wrappers

  // What a reader makes of a lock file. A truncated or half-written record is unreadable.
  datatype Content = Unreadable | Record(token: nat, heartbeat: nat)

  datatype File = File(content: Content, mtime: nat)

  // Where an owner is with its record. `Resting(false)`: a failed write ended its heartbeats.
  datatype Phase = Created | Resting(beating: bool) | Sampled(now: nat) | Truncated(now: nat) | Stopping

  // beat: the stamp of the last heartbeat written in full; before the first, the creation time.
  // Refused: a file at the path kept the process from creating its own, and it is to read.
  // Unlinking: the process decided, from what it read, to take that inode off the path;
  // UnlinkingUnseen: it could read nothing there and is about to unlink whatever there is.
  datatype Process =
    | Idle
    | Owner(inode: nat, token: nat, beat: nat, acquired: bool, phase: Phase)
    | Refused
    | Unlinking(inode: nat)
    | UnlinkingUnseen

  datatype State = State(
    clock: nat,
    lease: nat,
    path: Option<nat>,
    files: map<nat, File>,
    tokens: set<nat>,
    processes: map<nat, Process>)

  function At(s: State, p: nat): Process {
    if p in s.processes then s.processes[p] else Idle
  }

  function FileAt(s: State, inode: nat): File {
    if inode in s.files then s.files[inode] else File(Unreadable, 0)
  }

  function Move(s: State, p: nat, q: Process): State {
    s.(processes := s.processes[p := q])
  }

  // An owner keeps the lock until it starts to drop it.
  predicate Holds(q: Process) {
    q.Owner? && !q.phase.Stopping?
  }

  predicate IsUnlinking(q: Process) {
    q.Unlinking? || q.UnlinkingUnseen?
  }

  // record_is_fresh saturates at zero; file_is_fresh fails on a file from the future.
  predicate IsFresh(clock: nat, lease: nat, file: File) {
    match file.content
    case Record(_, heartbeat) => clock <= heartbeat + lease
    case Unreadable => file.mtime <= clock <= file.mtime + lease
  }

  // ---------- Steps ----------

  datatype Step =
    | Tick(ms: nat)
    | Create(p: nat, inode: nat, token: nat)
    | Sample(p: nat)
    | Truncate(p: nat)
    | Write(p: nat)
    | Fail(p: nat)
    | Refuse(p: nat)
    | FindFresh(p: nat)
    | Judge(p: nat)
    | JudgeUnseen(p: nat)
    | Unlink(p: nat)
    | Stop(p: nat)
    | ReadToken(p: nat)
    | Crash(p: nat)

  predicate Enabled(s: State, step: Step) {
    match step
    case Tick(_) => true
    case Create(p, inode, token) => At(s, p) == Idle && s.path == None && inode !in s.files && token !in s.tokens
    case Sample(p) => At(s, p).Owner? && (At(s, p).phase == Created || At(s, p).phase == Resting(true))
    case Truncate(p) => At(s, p).Owner? && At(s, p).phase.Sampled?
    case Write(p) => At(s, p).Owner? && At(s, p).phase.Truncated?
    case Fail(p) =>
      At(s, p).Owner? && (At(s, p).phase.Sampled? || At(s, p).phase.Truncated? || At(s, p).phase == Resting(true))
    case Refuse(p) => At(s, p) == Idle && s.path.Some?
    case FindFresh(p) => At(s, p) == Refused && s.path.Some? && IsFresh(s.clock, s.lease, FileAt(s, s.path.value))
    case Judge(p) => At(s, p) == Refused && s.path.Some? && !IsFresh(s.clock, s.lease, FileAt(s, s.path.value))
    case JudgeUnseen(p) => At(s, p) == Refused
    case Unlink(p) => IsUnlinking(At(s, p))
    case Stop(p) => At(s, p).Owner? && At(s, p).acquired && At(s, p).phase.Resting?
    case ReadToken(p) => At(s, p).Owner? && At(s, p).phase == Stopping
    case Crash(p) => true
  }

  function AfterCreate(s: State, p: nat, inode: nat, token: nat): State {
    Move(s, p, Owner(inode, token, s.clock, false, Created)).(
      path := Some(inode),
      files := s.files[inode := File(Unreadable, s.clock)],
      tokens := s.tokens + {token})
  }

  function AfterSample(s: State, p: nat): State
    requires At(s, p).Owner?
  {
    Move(s, p, At(s, p).(phase := Sampled(s.clock)))
  }

  // Emptying a file that is empty already is no modification.
  function AfterTruncate(s: State, p: nat): State
    requires At(s, p).Owner? && At(s, p).phase.Sampled?
  {
    var q := At(s, p);
    var before := FileAt(s, q.inode);
    var file := if before.content.Record? then File(Unreadable, s.clock) else before;
    Move(s, p, q.(phase := Truncated(q.phase.now))).(files := s.files[q.inode := file])
  }

  function AfterWrite(s: State, p: nat): State
    requires At(s, p).Owner? && At(s, p).phase.Truncated?
  {
    var q := At(s, p);
    Move(s, p, q.(beat := q.phase.now, acquired := true, phase := Resting(true))).(
      files := s.files[q.inode := File(Record(q.token, q.phase.now), s.clock)])
  }

  // A failed heartbeat ends the heartbeats, also one that was written and not synced; a failed
  // first record ends the acquisition.
  function AfterFail(s: State, p: nat): State
    requires At(s, p).Owner?
  {
    Move(s, p, if At(s, p).acquired then At(s, p).(phase := Resting(false)) else Idle)
  }

  function AfterJudge(s: State, p: nat): State
    requires s.path.Some?
  {
    Move(s, p, Unlinking(s.path.value))
  }

  // Renaming the stale file away, or removing the own file: both act on the path alone.
  function AfterUnlink(s: State, p: nat): State {
    Move(s, p, Idle).(path := None)
  }

  function AfterStop(s: State, p: nat): State
    requires At(s, p).Owner?
  {
    Move(s, p, At(s, p).(phase := Stopping))
  }

  function AfterReadToken(s: State, p: nat): State
    requires At(s, p).Owner?
  {
    if s.path.Some? && OwnRecord(FileAt(s, s.path.value), At(s, p).token)
    then Move(s, p, Unlinking(s.path.value))
    else Move(s, p, Idle)
  }

  predicate OwnRecord(file: File, token: nat) {
    file.content.Record? && file.content.token == token
  }

  function After(s: State, step: Step): State
    requires Enabled(s, step)
  {
    match step
    case Tick(ms) => s.(clock := s.clock + ms)
    case Create(p, inode, token) => AfterCreate(s, p, inode, token)
    case Sample(p) => AfterSample(s, p)
    case Truncate(p) => AfterTruncate(s, p)
    case Write(p) => AfterWrite(s, p)
    case Fail(p) => AfterFail(s, p)
    case Refuse(p) => Move(s, p, Refused)
    case FindFresh(p) => Move(s, p, Idle)
    case Judge(p) => AfterJudge(s, p)
    case JudgeUnseen(p) => Move(s, p, UnlinkingUnseen)
    case Unlink(p) => AfterUnlink(s, p)
    case Stop(p) => AfterStop(s, p)
    case ReadToken(p) => AfterReadToken(s, p)
    case Crash(p) => Move(s, p, Idle)
  }

  // ---------- What holds in every run ----------

  // An owner's file carries its own last full heartbeat, or was emptied after it.
  predicate FileOfOwner(s: State, q: Process)
    requires q.Owner?
  {
    var file := FileAt(s, q.inode);
    && q.inode in s.files && q.token in s.tokens && q.beat <= s.clock
    && (q.phase.Sampled? || q.phase.Truncated? ==> q.beat <= q.phase.now <= s.clock)
    && match file.content
       case Record(token, heartbeat) => token == q.token && heartbeat == q.beat
       case Unreadable => q.beat <= file.mtime <= s.clock
  }

  ghost predicate OwnersMatch(s: State) {
    forall p: nat | At(s, p).Owner? :: FileOfOwner(s, At(s, p))
  }

  ghost predicate OwnersDiffer(s: State) {
    forall p: nat, q: nat | At(s, p).Owner? && At(s, q).Owner? && p != q ::
      At(s, p).inode != At(s, q).inode && At(s, p).token != At(s, q).token
  }

  // A token is found only where its owner wrote it.
  ghost predicate TokensMatch(s: State) {
    forall i | i in s.files && s.files[i].content.Record? ::
      && s.files[i].content.token in s.tokens
      && forall p: nat | At(s, p).Owner? :: s.files[i].content.token == At(s, p).token ==> i == At(s, p).inode
  }

  ghost predicate PathsMatch(s: State) {
    && (s.path.Some? ==> s.path.value in s.files)
    && forall p: nat | At(s, p).Unlinking? :: At(s, p).inode in s.files
  }

  ghost predicate Inv(s: State) {
    OwnersMatch(s) && OwnersDiffer(s) && TokensMatch(s) && PathsMatch(s)
  }

  // Any leftovers, no process in flight.
  ghost predicate Init(s: State) {
    && s.processes == map[]
    && (s.path.Some? ==> s.path.value in s.files)
    && forall i | i in s.files && s.files[i].content.Record? :: s.files[i].content.token in s.tokens
  }

  lemma InitInv(s: State)
    requires Init(s)
    ensures Inv(s)
  {}

  // A process that stops owning, or only changes its phase.
  lemma MoveInv(s: State, p: nat, q: Process)
    requires Inv(s)
    requires q.Unlinking? ==> q.inode in s.files
    requires q.Owner? ==> At(s, p).Owner? && At(s, p) == q.(phase := At(s, p).phase)
                          && (q.phase.Sampled? || q.phase.Truncated? ==> q.beat <= q.phase.now <= s.clock)
    ensures Inv(Move(s, p, q))
  {
    var s' := Move(s, p, q);
    assert forall x: nat :: At(s', x) == if x == p then q else At(s, x);
    assert forall i: nat :: FileAt(s', i) == FileAt(s, i);
    assert OwnersMatch(s');
  }

  lemma CreateInv(s: State, step: Step)
    requires Inv(s) && step.Create? && Enabled(s, step)
    ensures Inv(After(s, step))
  {
    var s' := After(s, step);
    assert forall x: nat :: At(s', x) == if x == step.p then At(s', step.p) else At(s, x);
    assert forall i: nat | i != step.inode :: FileAt(s', i) == FileAt(s, i);
    assert forall x: nat | At(s, x).Owner? :: FileOfOwner(s, At(s, x));
    assert OwnersMatch(s') && OwnersDiffer(s');
  }

  // An owner changes its own file only.
  lemma RewriteInv(s: State, step: Step)
    requires Inv(s) && (step.Truncate? || step.Write?) && Enabled(s, step)
    ensures Inv(After(s, step))
  {
    var s' := After(s, step);
    var q := At(s, step.p);
    assert FileOfOwner(s, q);
    assert forall x: nat :: At(s', x) == if x == step.p then At(s', step.p) else At(s, x);
    assert forall i: nat | i != q.inode :: FileAt(s', i) == FileAt(s, i);
    assert forall x: nat | At(s, x).Owner? :: FileOfOwner(s, At(s, x));
    assert OwnersMatch(s') && OwnersDiffer(s');
  }

  lemma TickInv(s: State, step: Step)
    requires Inv(s) && step.Tick?
    ensures Inv(After(s, step))
  {
    var s' := After(s, step);
    assert forall x: nat :: At(s', x) == At(s, x);
    assert forall i: nat :: FileAt(s', i) == FileAt(s, i);
    assert forall x: nat | At(s, x).Owner? :: FileOfOwner(s, At(s, x));
    assert OwnersMatch(s') && OwnersDiffer(s');
  }

  lemma StepInv(s: State, step: Step)
    requires Inv(s) && Enabled(s, step)
    ensures Inv(After(s, step))
  {
    if step.Tick? {
      TickInv(s, step);
    } else if step.Create? {
      CreateInv(s, step);
    } else if step.Truncate? || step.Write? {
      RewriteInv(s, step);
    } else {
      assert At(s, step.p).Owner? ==> FileOfOwner(s, At(s, step.p));
      MoveInv(s, step.p, At(After(s, step), step.p));
      if step.Unlink? {
        var moved := Move(s, step.p, Idle);
        assert forall x: nat :: At(moved.(path := None), x) == At(moved, x);
        assert forall i: nat :: FileAt(moved.(path := None), i) == FileAt(moved, i);
        assert forall x: nat | At(moved, x).Owner? :: FileOfOwner(moved, At(moved, x));
        assert OwnersMatch(moved.(path := None)) && OwnersDiffer(moved.(path := None));
      }
    }
  }

  predicate Possible(s: State, steps: seq<Step>)
    decreases |steps|
  {
    steps == [] || (Enabled(s, steps[0]) && Possible(After(s, steps[0]), steps[1..]))
  }

  function Final(s: State, steps: seq<Step>): State
    requires Possible(s, steps)
    decreases |steps|
  {
    if steps == [] then s else Final(After(s, steps[0]), steps[1..])
  }

  ghost predicate IsRun(s: State, run: seq<Step>, end: State) {
    Possible(s, run) && Final(s, run) == end
  }

  lemma Extend(s: State, run: seq<Step>, mid: State, step: Step)
    requires IsRun(s, run, mid) && Enabled(mid, step)
    ensures IsRun(s, run + [step], After(mid, step))
  {
    OneStep(mid, step);
    TwoParts(s, run, [step]);
  }

  lemma Join(s: State, run: seq<Step>, mid: State, more: seq<Step>, end: State)
    requires IsRun(s, run, mid) && IsRun(mid, more, end)
    ensures IsRun(s, run + more, end)
  {
    TwoParts(s, run, more);
  }

  lemma {:induction false} TwoParts(s: State, a: seq<Step>, b: seq<Step>)
    requires Possible(s, a) && Possible(Final(s, a), b)
    ensures Possible(s, a + b) && Final(s, a + b) == Final(Final(s, a), b)
    decreases |a|
  {
    if a == [] {
      assert a + b == b;
    } else {
      assert (a + b)[1..] == a[1..] + b;
      TwoParts(After(s, a[0]), a[1..], b);
    }
  }

  lemma OneStep(s: State, step: Step)
    requires Enabled(s, step)
    ensures Possible(s, [step]) && Final(s, [step]) == After(s, step)
  {
    assert [step][1..] == [];
  }

  // ---------- An owner that lost the path ----------

  predicate Evicted(s: State, q: Process) {
    q.Owner? && s.path != Some(q.inode)
  }

  predicate IsStepOf(step: Step, p: nat) {
    !step.Tick? && step.p == p
  }

  // The canonical lock as every reader sees it.
  function Canonical(s: State): Option<File> {
    match s.path
    case None => None
    case Some(inode) => Some(FileAt(s, inode))
  }

  // No heartbeat, stop or drop of an owner that lost the path touches the lock there.
  lemma EvictedStepIsHarmless(s: State, step: Step, p: nat)
    requires Inv(s) && Enabled(s, step) && IsStepOf(step, p) && Evicted(s, At(s, p))
    ensures After(s, step).path == s.path && Canonical(After(s, step)) == Canonical(s)
    ensures !At(After(s, step), p).Unlinking? && !At(After(s, step), p).UnlinkingUnseen?
    ensures At(After(s, step), p).Owner? ==> At(After(s, step), p).inode == At(s, p).inode
  {
    assert FileOfOwner(s, At(s, p));
  }

  // An inode that left the path never comes back.
  lemma OffPathStays(s: State, step: Step, inode: nat)
    requires Inv(s) && Enabled(s, step) && inode in s.files && s.path != Some(inode)
    ensures inode in After(s, step).files && After(s, step).path != Some(inode)
  {}

  // The steps of a run that process p took, up to the first at which it owns nothing.
  predicate OwnsThroughout(s: State, steps: seq<Step>, p: nat)
    requires Possible(s, steps)
    decreases |steps|
  {
    At(s, p).Owner? && (steps == [] || OwnsThroughout(After(s, steps[0]), steps[1..], p))
  }

  // Over any run at all: once p lost the path, then however long it keeps its handle and
  // whatever the others do, p's next step leaves the lock at the path as it is.
  lemma {:induction false} EvictedOwnerIsHarmless(s: State, steps: seq<Step>, p: nat, step: Step)
    requires Inv(s) && Evicted(s, At(s, p)) && Possible(s, steps) && OwnsThroughout(s, steps, p)
    requires Enabled(Final(s, steps), step) && IsStepOf(step, p)
    ensures Inv(Final(s, steps)) && Evicted(Final(s, steps), At(Final(s, steps), p))
    ensures var end := Final(s, steps);
            After(end, step).path == end.path && Canonical(After(end, step)) == Canonical(end)
    decreases |steps|
  {
    if steps == [] {
      EvictedStepIsHarmless(s, step, p);
    } else {
      assert FileOfOwner(s, At(s, p));
      StepInv(s, steps[0]);
      OffPathStays(s, steps[0], At(s, p).inode);
      KeepsInode(s, steps[0], p);
      EvictedOwnerIsHarmless(After(s, steps[0]), steps[1..], p, step);
    }
  }

  lemma KeepsInode(s: State, step: Step, p: nat)
    requires Enabled(s, step) && At(s, p).Owner? && At(After(s, step), p).Owner?
    ensures At(After(s, step), p).inode == At(s, p).inode
  {}

  // ---------- At most one holder ----------

  // Every process that holds the lock heartbeat within the lease.
  ghost predicate Timely(s: State) {
    forall p: nat | Holds(At(s, p)) :: s.clock <= At(s, p).beat + s.lease
  }

  // What is taken off the path is what was read there: nothing, if nothing could be read.
  predicate Settled(s: State, step: Step) {
    step.Unlink? ==>
      || s.path == None
      || (At(s, step.p).Unlinking? && s.path == Some(At(s, step.p).inode))
  }

  // The holders' file is at the path and nobody is about to take it off.
  ghost predicate Exclusive(s: State) {
    && (forall p: nat | Holds(At(s, p)) :: s.path == Some(At(s, p).inode))
    && (forall p: nat, q: nat | At(s, p).Unlinking? && Holds(At(s, q)) :: At(s, p).inode != At(s, q).inode)
  }

  lemma OneHolder(s: State, p: nat, q: nat)
    requires Inv(s) && Exclusive(s) && Holds(At(s, p)) && Holds(At(s, q))
    ensures p == q
  {}

  // The mtime covers the file while its record cannot be read, before the first record and
  // in the middle of every heartbeat.
  lemma TimelyFileIsFresh(s: State, p: nat)
    requires Inv(s) && Timely(s) && Holds(At(s, p))
    ensures IsFresh(s.clock, s.lease, FileAt(s, At(s, p).inode))
  {
    assert FileOfOwner(s, At(s, p));
  }

  lemma ExclusiveStep(s: State, step: Step)
    requires Inv(s) && Exclusive(s) && Timely(s) && Enabled(s, step) && Settled(s, step)
    ensures Exclusive(After(s, step))
  {
    var s' := After(s, step);
    assert forall x: nat | !IsStepOf(step, x) :: At(s', x) == At(s, x);
    if step.Unlink? {
      assert forall x: nat :: !Holds(At(s, x));
    } else if step.Judge? {
      forall p: nat | Holds(At(s, p)) ensures At(s, p).inode != s.path.value {
        TimelyFileIsFresh(s, p);
      }
    } else if step.ReadToken? {
      assert FileOfOwner(s, At(s, step.p));
    } else if step.Create? {
      assert forall x: nat :: !Holds(At(s, x));
    }
    forall p: nat | Holds(At(s', p))
      ensures s'.path == Some(At(s', p).inode)
      ensures forall q: nat | At(s', q).Unlinking? :: At(s', q).inode != At(s', p).inode
    {
      assert IsStepOf(step, p) || At(s', p) == At(s, p);
      assert !step.Create? ==> Holds(At(s, p)) && At(s', p).inode == At(s, p).inode;
      forall q: nat | At(s', q).Unlinking? ensures At(s', q).inode != At(s', p).inode {
        assert At(s', q) == At(s, q) || step == Judge(q) || step == ReadToken(q);
      }
    }
  }

  // Every state from which a step is taken is timely, and every file taken off the path is
  // the one that was read there.
  ghost predicate TimelyRun(s: State, steps: seq<Step>)
    requires Possible(s, steps)
    decreases |steps|
  {
    steps == [] || (Timely(s) && Settled(s, steps[0]) && TimelyRun(After(s, steps[0]), steps[1..]))
  }

  lemma {:induction false} TimelyRunIsExclusive(s: State, steps: seq<Step>)
    requires Inv(s) && Exclusive(s) && Possible(s, steps) && TimelyRun(s, steps)
    ensures Inv(Final(s, steps)) && Exclusive(Final(s, steps))
    decreases |steps|
  {
    if steps == [] {
    } else {
      StepInv(s, steps[0]);
      ExclusiveStep(s, steps[0]);
      TimelyRunIsExclusive(After(s, steps[0]), steps[1..]);
    }
  }

  // From any leftovers, every timely run leaves at most one process holding the lock.
  lemma AtMostOneHolder(s: State, steps: seq<Step>, p: nat, q: nat)
    requires Init(s) && Possible(s, steps) && TimelyRun(s, steps)
    requires Holds(At(Final(s, steps), p)) && Holds(At(Final(s, steps), q))
    ensures p == q && Final(s, steps).path == Some(At(Final(s, steps), p).inode)
  {
    InitInv(s);
    TimelyRunIsExclusive(s, steps);
    OneHolder(Final(s, steps), p, q);
  }

  // Reading and taking off are one step: nothing happens in between.
  predicate AtOnce(steps: seq<Step>) {
    forall i | 0 <= i < |steps| && steps[i].Unlink? ::
      i > 0 && IsReadOf(steps[i - 1], steps[i].p)
  }

  predicate IsReadOf(step: Step, p: nat) {
    step == Judge(p) || step == JudgeUnseen(p) || step == ReadToken(p)
  }

  // Every state is timely, and a read finds nothing only where there is nothing.
  ghost predicate TimelyThroughout(s: State, steps: seq<Step>)
    requires Possible(s, steps)
    decreases |steps|
  {
    steps == [] || (&& Timely(s) && (steps[0].JudgeUnseen? ==> s.path == None)
                    && TimelyThroughout(After(s, steps[0]), steps[1..]))
  }

  lemma {:induction false} AtOnceIsSettled(s: State, steps: seq<Step>)
    requires Possible(s, steps) && TimelyThroughout(s, steps) && AtOnce(steps)
    ensures TimelyRun(s, steps)
    decreases |steps|
  {
    if steps == [] {
    } else {
      var s1 := After(s, steps[0]);
      var rest := steps[1..];
      assert !steps[0].Unlink?;
      if rest != [] && rest[0].Unlink? {
        assert steps[1] == rest[0];
        var s2 := After(s1, rest[0]);
        assert Settled(s1, rest[0]);
        forall i | 0 <= i < |rest[1..]| && rest[1..][i].Unlink?
          ensures i > 0 && IsReadOf(rest[1..][i - 1], rest[1..][i].p)
        {
          assert rest[1..][i] == steps[i + 2] && steps[i + 1] == rest[i];
        }
        AtOnceIsSettled(s2, rest[1..]);
      } else {
        forall i | 0 <= i < |rest| && rest[i].Unlink?
          ensures i > 0 && IsReadOf(rest[i - 1], rest[i].p)
        {
          assert rest[i] == steps[i + 1];
        }
        AtOnceIsSettled(s1, rest);
      }
    }
  }

  // At that grain heartbeats within the lease are all that mutual exclusion needs.
  lemma AtMostOneHolderAtOnce(s: State, steps: seq<Step>, p: nat, q: nat)
    requires Init(s) && Possible(s, steps) && TimelyThroughout(s, steps) && AtOnce(steps)
    requires Holds(At(Final(s, steps), p)) && Holds(At(Final(s, steps), q))
    ensures p == q
  {
    AtOnceIsSettled(s, steps);
    AtMostOneHolder(s, steps, p, q);
  }

  // ---------- Where exclusion ends ----------

  // A readable lock can be judged stale exactly when its holder is late.
  lemma StolenExactlyWhenLate(s: State, p: nat, contender: nat)
    requires Inv(s) && Exclusive(s) && Holds(At(s, p)) && At(s, contender) == Refused
    requires FileAt(s, At(s, p).inode).content.Record?
    ensures Enabled(s, Judge(contender)) <==> s.clock > At(s, p).beat + s.lease
  {
    assert FileOfOwner(s, At(s, p));
  }

  ghost predicate AtMostOne(s: State) {
    forall p: nat, q: nat | Holds(At(s, p)) && Holds(At(s, q)) :: p == q
  }

  ghost predicate SafeFrom(s: State) {
    forall steps: seq<Step> | Possible(s, steps) && TimelyRun(s, steps) :: AtMostOne(Final(s, steps))
  }

  // From an unlink on, every timely run keeps at most one holder exactly when nobody holds the
  // lock at the unlink, and so it is when it takes what was read.
  lemma UnlinkSafeExactly(s: State, p: nat)
    requires Inv(s) && Exclusive(s) && Timely(s) && Enabled(s, Unlink(p))
    ensures SafeFrom(After(s, Unlink(p))) <==> forall q: nat :: !Holds(At(s, q))
    ensures Settled(s, Unlink(p)) ==> forall q: nat :: !Holds(At(s, q))
  {
    var s' := After(s, Unlink(p));
    assert forall q: nat :: At(s', q) == if q == p then Idle else At(s, q);
    StepInv(s, Unlink(p));
    if q: nat :| Holds(At(s, q)) {
      assert At(s, p).Unlinking? ==> At(s, p).inode != At(s, q).inode;
      UnlinkedThenCreated(s', p, q);
    } else {
      assert Exclusive(s');
      forall steps: seq<Step> | Possible(s', steps) && TimelyRun(s', steps) ensures AtMostOne(Final(s', steps)) {
        TimelyRunIsExclusive(s', steps);
        ExclusiveHasOne(Final(s', steps));
      }
    }
  }

  lemma ExclusiveHasOne(s: State)
    requires Inv(s) && Exclusive(s)
    ensures AtMostOne(s)
  {
    forall p: nat, q: nat | Holds(At(s, p)) && Holds(At(s, q)) ensures p == q {
      OneHolder(s, p, q);
    }
  }

  // With the path free and a holder around, the next creation makes a second one.
  lemma UnlinkedThenCreated(s: State, p: nat, q: nat)
    requires Timely(s) && s.path == None && At(s, p) == Idle && Holds(At(s, q))
    ensures !SafeFrom(s)
  {
    var inode := FreshNat(s.files.Keys);
    var token := FreshNat(s.tokens);
    var create := Create(p, inode, token);
    OneStep(s, create);
    assert TimelyRun(s, [create]);
    var end := Final(s, [create]);
    assert Holds(At(end, p)) && At(end, q) == At(s, q);
    assert !AtMostOne(end);
  }

  // In every state of the run the inode is at the path.
  predicate StaysAtPath(s: State, steps: seq<Step>, inode: nat)
    requires Possible(s, steps)
    decreases |steps|
  {
    s.path == Some(inode) && (steps == [] || StaysAtPath(After(s, steps[0]), steps[1..], inode))
  }

  predicate NotBy(steps: seq<Step>, p: nat) {
    forall i | 0 <= i < |steps| :: !IsStepOf(steps[i], p)
  }

  // Over any run between reading the path and taking it off, by a contender or by a drop: the
  // unlink removes what was read exactly when that stayed at the path all the time, and
  // another process's file exactly when it did not and the path is not free.
  lemma {:induction false} UnlinkTakesWhatWasRead(s: State, steps: seq<Step>, p: nat, inode: nat)
    requires Inv(s) && At(s, p) == Unlinking(inode)
    requires Possible(s, steps) && NotBy(steps, p)
    ensures var end := Final(s, steps);
            && Inv(end) && At(end, p) == Unlinking(inode)
            && (s.path == Some(inode) ==> (end.path == Some(inode) <==> StaysAtPath(s, steps, inode)))
            && (s.path != Some(inode) ==> end.path != Some(inode))
            && (Settled(end, Unlink(p)) <==> end.path == Some(inode) || end.path == None)
    decreases |steps|
  {
    if steps == [] {
    } else {
      StepInv(s, steps[0]);
      if s.path != Some(inode) {
        OffPathStays(s, steps[0], inode);
      }
      assert !IsStepOf(steps[0], p);
      assert NotBy(steps[1..], p) by {
        assert forall i | 0 <= i < |steps[1..]| :: steps[1..][i] == steps[i + 1];
      }
      UnlinkTakesWhatWasRead(After(s, steps[0]), steps[1..], p, inode);
    }
  }

  // A drop that is held up after reading its own token, and a contender that takes the lock
  // over meanwhile.
  function LateDrop(lease: nat, p: nat, q: nat, inode: nat, token: nat): seq<Step> {
    [ReadToken(p), Tick(lease + 1), Refuse(q), Judge(q)] + Taking(q, inode, token) + [Unlink(p)]
  }

  // Then the drop takes the other's new lock away.
  lemma LateDropTakesTheLock(s: State, p: nat, q: nat, inode: nat, token: nat)
    requires Inv(s) && At(s, p).Owner? && At(s, p).phase == Stopping && s.path == Some(At(s, p).inode)
    requires FileAt(s, At(s, p).inode).content.Record?
    requires q != p && At(s, q) == Idle && inode !in s.files && token !in s.tokens
    ensures Possible(s, LateDrop(s.lease, p, q, inode, token))
    ensures var end := Final(s, LateDrop(s.lease, p, q, inode, token));
            && At(end, q) == Owner(inode, token, end.clock, true, Resting(true)) && inode in end.files
            && end.path == None
  {
    var wait := [ReadToken(p), Tick(s.lease + 1), Refuse(q), Judge(q)];
    assert FileOfOwner(s, At(s, p));
    var s1 := After(s, ReadToken(p));
    assert At(s1, p) == Unlinking(s.path.value);
    WaitAndJudge(s1, q);
    OneStep(s, ReadToken(p));
    hide After, Taking, Possible, Final, Inv, Enabled, OwnRecord, Stamp;
    Join(s, [ReadToken(p)], s1, [Tick(s.lease + 1), Refuse(q), Judge(q)],
         Final(s1, [Tick(s.lease + 1), Refuse(q), Judge(q)]));
    assert wait == [ReadToken(p)] + [Tick(s.lease + 1), Refuse(q), Judge(q)];
    TakingTakes(Final(s, wait), q, inode, token);
    Join(s, wait, Final(s, wait), Taking(q, inode, token), Final(Final(s, wait), Taking(q, inode, token)));
    var late := Final(s, wait + Taking(q, inode, token));
    assert IsUnlinking(At(late, p));
    assert Enabled(late, Unlink(p)) by {
      UnlinkEnabled(late, p);
    }
    Extend(s, wait + Taking(q, inode, token), late, Unlink(p));
    UnlinkFreesPath(late, p);
  }

  lemma UnlinkEnabled(s: State, p: nat)
    requires IsUnlinking(At(s, p))
    ensures Enabled(s, Unlink(p))
  {}

  lemma UnlinkFreesPath(s: State, p: nat)
    requires Enabled(s, Unlink(p))
    ensures var r := After(s, Unlink(p));
            && r.path == None && r.clock == s.clock && r.files == s.files
            && forall q: nat | q != p :: At(r, q) == At(s, q)
  {}

  // One lease later whatever record or file is at the path now is stale.
  lemma WaitAndJudge(s: State, q: nat)
    requires s.path.Some? && At(s, q) == Idle && Stamp(FileAt(s, s.path.value)) <= s.clock
    ensures var steps := [Tick(s.lease + 1), Refuse(q), Judge(q)];
            && Possible(s, steps)
            && var end := Final(s, steps);
               && end == s.(clock := s.clock + s.lease + 1, processes := end.processes)
               && At(end, q) == Unlinking(s.path.value) && forall r: nat | r != q :: At(end, r) == At(s, r)
  {
    hide Possible, Final;
    var s1 := After(s, Tick(s.lease + 1));
    var s2 := After(s1, Refuse(q));
    var s3 := After(s2, Judge(q));
    assert forall r: nat | r != q :: At(s3, r) == At(s, r);
    OneStep(s, Tick(s.lease + 1));
    Extend(s, [Tick(s.lease + 1)], s1, Refuse(q));
    Extend(s, [Tick(s.lease + 1)] + [Refuse(q)], s2, Judge(q));
    assert [Tick(s.lease + 1), Refuse(q), Judge(q)] == [Tick(s.lease + 1)] + [Refuse(q)] + [Judge(q)];
  }

  // The slower of two contenders renames the faster one's new lock away and creates its own.
  function BothTake(ids: Ids): seq<Step> {
    Taking(2, ids.inode, ids.token) + Taking(1, ids.inode1, ids.token1)
  }

  // What the two are about to draw.
  datatype Ids = Ids(inode: nat, inode1: nat, token: nat, token1: nat)

  predicate Unused(s: State, ids: Ids) {
    && ids.inode !in s.files && ids.inode1 !in s.files && ids.inode != ids.inode1
    && ids.token !in s.tokens && ids.token1 !in s.tokens && ids.token != ids.token1
  }

  // From the rename of what was judged to the first record.
  function Taking(p: nat, inode: nat, token: nat): seq<Step> {
    [Unlink(p)] + ([Create(p, inode, token)] + Recording(p))
  }

  function Recording(p: nat): seq<Step> {
    [Sample(p)] + ([Truncate(p)] + [Write(p)])
  }

  lemma RecordingRecords(s: State, p: nat)
    requires At(s, p).Owner? && At(s, p).phase == Created
    ensures Possible(s, Recording(p))
    ensures var q := At(s, p);
            var end := Final(s, Recording(p));
            && end == s.(processes := end.processes,
                 files := s.files[q.inode := File(Record(q.token, s.clock), s.clock)])
            && At(end, p) == q.(beat := s.clock, acquired := true, phase := Resting(true))
            && forall r: nat | r != p :: At(end, r) == At(s, r)
  {
    var s1 := After(s, Sample(p));
    var s2 := After(s1, Truncate(p));
    OneStep(s, Sample(p));
    OneStep(s1, Truncate(p));
    OneStep(s2, Write(p));
    hide Possible, Final;
    TwoParts(s1, [Truncate(p)], [Write(p)]);
    TwoParts(s, [Sample(p)], [Truncate(p)] + [Write(p)]);
  }

  lemma TakingTakes(s: State, p: nat, inode: nat, token: nat)
    requires IsUnlinking(At(s, p)) && inode !in s.files && token !in s.tokens
    ensures var steps := Taking(p, inode, token);
            && Possible(s, steps)
            && var end := Final(s, steps);
               && At(end, p) == Owner(inode, token, s.clock, true, Resting(true))
               && end.path == Some(inode) && end.clock == s.clock && end.lease == s.lease
               && end.tokens == s.tokens + {token} && end.files.Keys == s.files.Keys + {inode}
               && forall q: nat | q != p :: At(end, q) == At(s, q)
  {
    var s1 := After(s, Unlink(p));
    var s2 := After(s1, Create(p, inode, token));
    OneStep(s, Unlink(p));
    OneStep(s1, Create(p, inode, token));
    RecordingRecords(s2, p);
    hide Possible, Final, Recording;
    TwoParts(s1, [Create(p, inode, token)], Recording(p));
    TwoParts(s, [Unlink(p)], [Create(p, inode, token)] + Recording(p));
  }

  // Two contenders about to unlink, and nobody else around.
  ghost predicate TwoUnlinking(s: State, ids: Ids) {
    && IsUnlinking(At(s, 1)) && IsUnlinking(At(s, 2)) && (forall q: nat | q != 1 && q != 2 :: At(s, q) == Idle)
    && Unused(s, ids)
  }

  // Both acquire the lock, with both heartbeats stamped at this very moment.
  ghost predicate BothHold(s: State) {
    && Timely(s) && Holds(At(s, 1)) && Holds(At(s, 2)) && At(s, 1).acquired && At(s, 2).acquired
  }

  lemma BothTakeIt(s: State, ids: Ids)
    requires TwoUnlinking(s, ids)
    ensures Possible(s, BothTake(ids)) && BothHold(Final(s, BothTake(ids)))
  {
    hide Taking, Possible, Final;
    var first, second := Taking(2, ids.inode, ids.token), Taking(1, ids.inode1, ids.token1);
    TakingTakes(s, 2, ids.inode, ids.token);
    var s1 := Final(s, first);
    assert At(s1, 1) == At(s, 1);
    TakingTakes(s1, 1, ids.inode1, ids.token1);
    TwoParts(s, first, second);
    TimelyPair(Final(s1, second));
  }

  lemma TimelyPair(s: State)
    requires forall q: nat | q != 1 && q != 2 :: At(s, q) == Idle
    requires At(s, 1).Owner? && At(s, 2).Owner? && At(s, 1).beat == s.clock && At(s, 2).beat == s.clock
    ensures Timely(s)
  {}

  // Any start with a lock file that is judged stale.
  ghost predicate StaleStart(s: State) {
    Init(s) && s.path.Some? && !IsFresh(s.clock, s.lease, FileAt(s, s.path.value))
  }

  // With the judgement and the rename apart, two processes that judged the same stale leftover
  // acquire the lock.
  lemma LateRenameTakesTheLock(s: State, ids: Ids)
    requires StaleStart(s) && Unused(s, ids)
    ensures var steps := [Refuse(1), Refuse(2), Judge(1), Judge(2)] + BothTake(ids);
            Possible(s, steps) && BothHold(Final(s, steps))
  {
    var steps := [Refuse(1), Refuse(2), Judge(1), Judge(2)];
    var s1 := After(s, Refuse(1));
    var s2 := After(s1, Refuse(2));
    var s3 := After(s2, Judge(1));
    var s4 := After(s3, Judge(2));
    assert TwoUnlinking(s4, ids);
    OneStep(s, Refuse(1));
    Extend(s, [Refuse(1)], s1, Refuse(2));
    Extend(s, [Refuse(1)] + [Refuse(2)], s2, Judge(1));
    Extend(s, [Refuse(1)] + [Refuse(2)] + [Judge(1)], s3, Judge(2));
    assert steps == [Refuse(1)] + [Refuse(2)] + [Judge(1)] + [Judge(2)];
    hide Possible, Final, After, BothTake, TwoUnlinking, BothHold;
    BothTakeIt(s4, ids);
    TwoParts(s, steps, BothTake(ids));
  }

  // The same for two contenders whose creation was refused and who then find no file, since a
  // third one took it away.
  function FindNothing(): seq<Step> {
    [Refuse(1), Refuse(2), Refuse(3), Judge(3)] + [Unlink(3), JudgeUnseen(1), JudgeUnseen(2)]
  }

  lemma UnseenRenameTakesTheLock(s: State, ids: Ids)
    requires StaleStart(s) && Unused(s, ids)
    ensures var steps := FindNothing() + BothTake(ids);
            Possible(s, steps) && BothHold(Final(s, steps))
  {
    ThreeRefused(s);
    var s4 := Final(s, [Refuse(1), Refuse(2), Refuse(3), Judge(3)]);
    NothingThere(s4);
    hide Possible, Final, After, BothTake, BothHold;
    var s7 := Final(s4, [Unlink(3), JudgeUnseen(1), JudgeUnseen(2)]);
    TwoParts(s, [Refuse(1), Refuse(2), Refuse(3), Judge(3)], [Unlink(3), JudgeUnseen(1), JudgeUnseen(2)]);
    BothTakeIt(s7, ids);
    TwoParts(s, FindNothing(), BothTake(ids));
  }

  lemma ThreeRefused(s: State)
    requires StaleStart(s)
    ensures var steps := [Refuse(1), Refuse(2), Refuse(3), Judge(3)];
            && Possible(s, steps)
            && Final(s, steps) == s.(processes := map[1 := Refused, 2 := Refused, 3 := Unlinking(s.path.value)])
  {
    hide Possible, Final;
    var s1 := After(s, Refuse(1));
    var s2 := After(s1, Refuse(2));
    var s3 := After(s2, Refuse(3));
    OneStep(s, Refuse(1));
    Extend(s, [Refuse(1)], s1, Refuse(2));
    Extend(s, [Refuse(1)] + [Refuse(2)], s2, Refuse(3));
    Extend(s, [Refuse(1)] + [Refuse(2)] + [Refuse(3)], s3, Judge(3));
    assert [Refuse(1), Refuse(2), Refuse(3), Judge(3)] == [Refuse(1)] + [Refuse(2)] + [Refuse(3)] + [Judge(3)];
  }

  lemma NothingThere(s: State)
    requires s.processes.Keys == {1, 2, 3} && At(s, 1) == At(s, 2) == Refused && At(s, 3).Unlinking?
    ensures var steps := [Unlink(3), JudgeUnseen(1), JudgeUnseen(2)];
            && Possible(s, steps)
            && Final(s, steps) == s.(
                 path := None, processes := map[1 := UnlinkingUnseen, 2 := UnlinkingUnseen, 3 := Idle])
  {
    hide Possible, Final;
    var s1 := After(s, Unlink(3));
    var s2 := After(s1, JudgeUnseen(1));
    OneStep(s, Unlink(3));
    Extend(s, [Unlink(3)], s1, JudgeUnseen(1));
    Extend(s, [Unlink(3)] + [JudgeUnseen(1)], s2, JudgeUnseen(2));
    assert [Unlink(3), JudgeUnseen(1), JudgeUnseen(2)] == [Unlink(3)] + [JudgeUnseen(1)] + [JudgeUnseen(2)];
  }

  // ---------- Reclaiming ----------

  // The time stamp a reader goes by.
  function Stamp(file: File): nat {
    match file.content
    case Record(_, heartbeat) => heartbeat
    case Unreadable => file.mtime
  }

  // A lock nobody keeps up is taken over exactly from the first moment past its lease (a
  // record from the future has to be waited for; an unreadable file from the future not), or
  // at once by a contender that can read neither its record nor its mtime.
  lemma ReclaimableExactly(s: State, p: nat, ms: nat)
    requires s.path.Some? && At(s, p) == Idle
    ensures var file := FileAt(s, s.path.value);
            Enabled(After(After(s, Tick(ms)), Refuse(p)), Judge(p)) <==>
              || s.clock + ms > Stamp(file) + s.lease
              || (file.content.Unreadable? && s.clock + ms < file.mtime)
    ensures Enabled(After(After(s, Tick(ms)), Refuse(p)), JudgeUnseen(p))
  {}

  // A crashed owner blocks the others for one lease at most.
  lemma CrashedLockIsTaken(s: State, p: nat, q: nat, inode: nat, token: nat)
    requires Inv(s) && At(s, p).Owner? && s.path == Some(At(s, p).inode)
    requires q != p && At(s, q) == Idle && inode !in s.files && token !in s.tokens
    ensures var steps := [Crash(p), Tick(s.lease + 1), Refuse(q), Judge(q)] + Taking(q, inode, token);
            && Possible(s, steps)
            && At(Final(s, steps), q) == Owner(inode, token, s.clock + s.lease + 1, true, Resting(true))
            && Final(s, steps).path == Some(inode)
  {
    assert FileOfOwner(s, At(s, p));
    var wait := [Crash(p), Tick(s.lease + 1), Refuse(q), Judge(q)];
    var s1 := After(s, Crash(p));
    OneStep(s, Crash(p));
    WaitAndJudge(s1, q);
    hide After, Possible, Final, Taking;
    TwoParts(s, [Crash(p)], [Tick(s.lease + 1), Refuse(q), Judge(q)]);
    assert wait == [Crash(p)] + [Tick(s.lease + 1), Refuse(q), Judge(q)];
    TakingTakes(Final(s, wait), q, inode, token);
    TwoParts(s, wait, Taking(q, inode, token));
  }
}
