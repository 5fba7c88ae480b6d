/** Cancellations that are signalled and not recorded, and the runs that nothing can end. */
module LostCancellation {
  import opened Wrappers
  import opened RunLifecycle
  import opened ResumeSafety
  import opened StrandedEntry

  // ---------- When a signalled cancellation is recorded ----------

  predicate NotBy(steps: seq<Step>, e: nat) {
    forall i | 0 <= i < |steps| :: steps[i].task != e
  }

  predicate Records(steps: seq<Step>, e: nat) {
    && steps != []
    && ((steps[0].Record? && steps[0].task == e && !steps[0].saved.Unwritten?) || Records(steps[1..], e))
  }

  // No further run has e record its cancellation.
  ghost predicate NeverRecords(s: State, e: nat) {
    forall steps: seq<Step> | Possible(s, steps) :: !Records(steps, e)
  }

  // The signalled cancellation of a new run can be recorded in some further run exactly when
  // the claim is free at the one moment it is tried for: nothing waits for it.
  lemma RecordedWhenFree(s: State, e: nat)
    requires Enabled(s, LockRecording(e))
    ensures NeverRecords(After(s, LockRecording(e)), e) <==> s.claim != None
  {
    var locked := After(s, LockRecording(e));
    if s.claim == None {
      assert Enabled(locked, Record(e, Written));
      var steps := [Record(e, Written)];
      assert Possible(locked, steps) by {
        assert steps[1..] == [];
      }
      assert steps[0] == Record(e, Written) && Records(steps, e);
    } else {
      forall steps: seq<Step> | Possible(locked, steps) ensures !Records(steps, e) {
        LeavingNeverRecords(locked, steps, e);
      }
    }
  }

  predicate PastRecording(p: Task) {
    p == NewRecorded || p == NewDone || p == Gone
  }

  lemma {:induction false} LeavingNeverRecords(s: State, steps: seq<Step>, e: nat)
    requires Possible(s, steps)
    requires PastRecording(At(s, e))
    ensures !Records(steps, e)
    decreases |steps|
  {
    if steps == [] {
    } else {
      LeavingStep(s, steps[0], e);
      hide Enabled, After, PastRecording;
      LeavingNeverRecords(After(s, steps[0]), steps[1..], e);
    }
  }

  lemma LeavingStep(s: State, step: Step, e: nat)
    requires PastRecording(At(s, e)) && Enabled(s, step)
    ensures PastRecording(At(After(s, step), e)) && !(step.Record? && step.task == e)
  {
    if step.task != e {
      MovesOnlyItself(s, step, e);
    }
  }

  // Once the claim was free, others come in as they like until the record is written: it is
  // then the one that was there when the claim was taken, marked exactly if the write is done,
  // reported or not.
  lemma {:induction false} RecordedAsClaimed(s: State, steps: seq<Step>, e: nat, saved: Write)
    requires Inv(s) && At(s, e) == NewRecording && Possible(s, steps) && NotBy(steps, e)
    ensures var end := Final(s, steps);
            && Inv(end) && At(end, e) == NewRecording && end.record == s.record
            && After(end, Record(e, saved)).record ==
                 if !saved.Unwritten? && s.record.Some? then Some(MarkCancelled(s.record.value, false)) else s.record
    ensures s.record.Some? ==> MarkedFrom(s.record.value, MarkCancelled(s.record.value, false), false)
    decreases |steps|
  {
    if steps == [] {
      hide MarkCancelled;
      assert s.record.Some? && KeptByCancel(s.record.value.status, false) ==>
          MarkCancelled(s.record.value, false) == s.record.value by {
        MarkKeeps(s);
      }
      if s.record.Some? {
        MarkClosesSteps(s.record.value, false);
      }
    } else {
      StepInv(s, steps[0]);
      assert steps[0].task != e;
      MovesOnlyItself(s, steps[0], e);
      ClaimedRecordStays(s, steps[0], e);
      assert NotBy(steps[1..], e) by {
        assert forall i | 0 <= i < |steps[1..]| :: steps[1..][i] == steps[i + 1];
      }
      RecordedAsClaimed(After(s, steps[0]), steps[1..], e, saved);
    }
  }

  lemma MarkKeeps(s: State)
    ensures s.record.Some? && KeptByCancel(s.record.value.status, false) ==>
              MarkCancelled(s.record.value, false) == s.record.value
  {}

  // Only who holds the claim writes the record.
  lemma ClaimedRecordStays(s: State, step: Step, e: nat)
    requires Inv(s) && Enabled(s, step) && HoldsClaim(At(s, e)) && step.task != e
    ensures After(s, step).record == s.record
  {
    hide HasRunningStep, MarkCancelled, HasOpenStep;
    assert s.claim == Some(e);
    assert !HoldsClaim(At(s, step.task));
  }

  // ---------- Runs that nothing can end ----------

  // The record says Running and no execution may write it any more.
  ghost predicate LeftRunning(s: State) {
    && s.record.Some? && s.record.value.status.Running?
    && forall t: nat :: !Registered(At(s, t)) && !InExecutor(At(s, t))
  }

  // An abort on its way to clean, whatever the steps: its receiver was gone, or it decided to.
  predicate CleansAnyway(p: Task) {
    p.AbortSending? || p.AbortForgetting? || p == AbortInspecting(true) || p.AbortCleaning? || p.AbortRecording?
  }

  // Some abort can still end the record: one on its way, one that would find the sender of a
  // gone execution, or one that looks at the steps when none is running.
  ghost predicate CanStillEnd(s: State)
    requires s.record.Some?
  {
    || s.entry.Active?
    || (exists t: nat :: CleansAnyway(At(s, t)))
    || (!HasRunningStep(s.record.value) && (s.entry == Absent || exists t: nat :: At(s, t) == AbortInspecting(false)))
  }

  ghost predicate LeftForGood(s: State) {
    LeftRunning(s) && !CanStillEnd(s)
  }

  // The answers a call may get from then on.
  predicate IsNo(p: Task) {
    && (p.AbortDone? ==> p.outcome.Unavailable? || p.outcome.Signalled?)
    && (p.DeleteDone? ==> !p.deleted)
  }

  lemma OwnStepForGood(s: State, step: Step)
    requires Known(s) && LeftForGood(s) && Enabled(s, step)
    ensures var s' := After(s, step);
            var p := At(s', step.task);
            && s'.record == s.record && s'.entry == s.entry
            && !Registered(p) && !InExecutor(p) && !CleansAnyway(p) && IsNo(p)
            && (p == AbortInspecting(false) && At(s, step.task) != p ==> s.entry == Absent)
  {
    var p := At(s, step.task);
    assert s.born && !Registered(p) && !InExecutor(p) && !CleansAnyway(p) && p != ResumeReady;
    assert p == AbortInspecting(false) ==> HasRunningStep(s.record.value);
    StepForGood(s, step);
  }

  lemma StepForGood(s: State, step: Step)
    requires s.born && s.record.Some? && s.record.value.status.Running? && !s.entry.Active? && Enabled(s, step)
    requires var p := At(s, step.task);
             && !Registered(p) && !InExecutor(p) && !CleansAnyway(p) && p != ResumeReady
             && (p == AbortInspecting(false) ==> HasRunningStep(s.record.value))
    ensures var s' := After(s, step);
            var p := At(s', step.task);
            && s'.record == s.record && s'.entry == s.entry
            && !Registered(p) && !InExecutor(p) && !CleansAnyway(p) && IsNo(p)
            && (p == AbortInspecting(false) && At(s, step.task) != p ==> s.entry == Absent)
  {
    hide MarkCancelled, HasRunningStep, HasOpenStep;
  }

  lemma LeftForGoodStep(s: State, step: Step)
    requires Known(s) && LeftForGood(s) && Enabled(s, step)
    ensures LeftForGood(After(s, step)) && After(s, step).record == s.record
    ensures IsNo(At(After(s, step), step.task))
  {
    OwnStepForGood(s, step);
    var s' := After(s, step);
    hide Known, Enabled, After, HasRunningStep;
    forall t: nat
      ensures !Registered(At(s', t)) && !InExecutor(At(s', t)) && !CleansAnyway(At(s', t))
      ensures At(s', t) == AbortInspecting(false) ==> At(s, t) == AbortInspecting(false) || s.entry == Absent
    {
      if t != step.task {
        MovesOnlyItself(s, step, t);
      }
    }
  }

  lemma {:induction false} LeftForGoodStays(s: State, steps: seq<Step>)
    requires Known(s) && LeftForGood(s) && Possible(s, steps)
    ensures Known(Final(s, steps)) && LeftForGood(Final(s, steps)) && Final(s, steps).record == s.record
    decreases |steps|
  {
    if steps == [] {
    } else {
      KnownStep(s, steps[0]);
      LeftForGoodStep(s, steps[0]);
      hide Enabled, After, Known, LeftForGood;
      LeftForGoodStays(After(s, steps[0]), steps[1..]);
    }
  }

  predicate HasAnswered(p: Task) {
    p.AbortDone? || p.DeleteDone?
  }

  // A call that has answered takes no further step.
  lemma DoneStays(s: State, step: Step)
    requires Enabled(s, step)
    ensures !HasAnswered(At(s, step.task))
  {}

  lemma {:induction false} AnswersOnlyNo(s: State, steps: seq<Step>, t: nat)
    requires Known(s) && LeftForGood(s)
    requires Possible(s, steps)
    ensures At(Final(s, steps), t) == At(s, t) || IsNo(At(Final(s, steps), t))
    decreases |steps|
  {
    if steps == [] {
    } else {
      KnownStep(s, steps[0]);
      LeftForGoodStep(s, steps[0]);
      var s1 := After(s, steps[0]);
      if t != steps[0].task {
        MovesOnlyItself(s, steps[0], t);
      } else {
        DoneStays(s, steps[0]);
      }
      hide Enabled, After, Known, LeftForGood;
      AnswersOnlyNo(s1, steps[1..], t);
    }
  }

  // Without one of those the record stays for good: over any run nobody executes it, every
  // abort that ends answers that it is unavailable or signalled, and no deletion succeeds.
  lemma LeftRunningForGood(s: State, steps: seq<Step>, t: nat)
    requires Reachable(s) && LeftForGood(s) && Possible(s, steps)
    ensures var end := Final(s, steps);
            && end.record == s.record && LeftRunning(end)
            && (At(end, t) == At(s, t) || IsNo(At(end, t)))
  {
    ReachableKnown(s);
    hide Possible, Final, HasRunningStep, Reachable, Known;
    LeftForGoodStays(s, steps);
    AnswersOnlyNo(s, steps, t);
  }

  // ---------- Runs that some abort can end ----------

  // With nothing locked, one abort alone can end the record from where it is.
  predicate CanEndBy(s: State, t: nat) {
    && s.record.Some? && s.record.value.status.Running? && s.mutex == None && s.claim == None
    && match At(s, t)
       case NotStarted =>
         if s.entry.Active? then At(s, s.entry.exec) == Gone
         else s.entry == Absent && !HasRunningStep(s.record.value)
       case AbortSending(x) => At(s, x) == Gone
       case AbortInspecting(receiverGone) => receiverGone || !HasRunningStep(s.record.value)
       case p => p.AbortForgetting? || p.AbortCleaning?
  }

  function NextCleaning(p: Task, t: nat): Step {
    match p
    case AbortSending(_) => AbortSend(t)
    case AbortForgetting => AbortForget(t)
    case AbortInspecting(_) => AbortInspect(t)
    case AbortCleaning => AbortClaim(t)
    case AbortRecording => AbortRecord(t, Written)
    case _ => AbortTake(t)
  }

  function CleaningLeft(p: Task): nat {
    match p
    case NotStarted => 5
    case AbortSending(_) => 4
    case AbortForgetting => 3
    case AbortInspecting(_) => 2
    case _ => 1
  }

  lemma CleaningStep(s: State, t: nat)
    requires CanEndBy(s, t) && !At(s, t).AbortCleaning?
    ensures var step := NextCleaning(At(s, t), t);
            && Enabled(s, step) && After(s, step).record == s.record
            && CanEndBy(After(s, step), t) && CleaningLeft(At(After(s, step), t)) < CleaningLeft(At(s, t))
  {
    hide HasRunningStep, MarkCancelled;
  }

  lemma {:induction false} EndsRecord(s: State, t: nat) returns (steps: seq<Step>)
    requires CanEndBy(s, t)
    ensures Possible(s, steps) && Final(s, steps).record != s.record
    decreases CleaningLeft(At(s, t))
  {
    if At(s, t).AbortCleaning? {
      CleanedUp(s, t);
      var s1 := AfterAbortClaim(s, t);
      steps := [AbortClaim(t), AbortRecord(t, Written)];
      hide LeadsTo, Possible, Final, AfterAbortClaim, AfterAbortRecord;
      ChainOf([s, s1, AfterAbortRecord(s1, t, Written)], steps);
    } else {
      CleaningStep(s, t);
      var step := NextCleaning(At(s, t), t);
      hide Enabled, After, CanEndBy;
      var rest := EndsRecord(After(s, step), t);
      steps := [step] + rest;
      assert steps[1..] == rest;
    }
  }

  // The step by which the holder of the claim gives it up.
  function GivingUp(p: Task, c: nat): Step {
    match p
    case ResumeClaimed => CheckResume(c, false)
    case McpClaimed => CheckMcp(c, false)
    case DeleteClaimed => DeleteRecord(c)
    case _ => Exit(c)
  }

  // No execution comes up while the record says Running.
  lemma LeftRunningStep(s: State, step: Step)
    requires Known(s) && LeftRunning(s) && Enabled(s, step) && After(s, step).record == s.record
    ensures LeftRunning(After(s, step))
  {
    NoExecutionStarts(s, step);
    var s' := After(s, step);
    hide Known, Enabled, After;
    forall t: nat ensures !Registered(At(s', t)) && !InExecutor(At(s', t)) {
      if t != step.task {
        MovesOnlyItself(s, step, t);
      }
    }
  }

  lemma NoExecutionStarts(s: State, step: Step)
    requires Known(s) && LeftRunning(s) && Enabled(s, step)
    ensures var p := At(After(s, step), step.task); !Registered(p) && !InExecutor(p)
  {
    var p := At(s, step.task);
    assert s.born && !Registered(p) && !InExecutor(p) && p != ResumeReady;
    if IsCallerStep(step) {
      CallerNeverRegisters(s, step);
      CallerNeverExecutes(s, step);
    } else {
      NothingStarts(s, step);
    }
  }

  lemma CallerNeverExecutes(s: State, step: Step)
    requires Enabled(s, step) && IsCallerStep(step)
    ensures !InExecutor(At(After(s, step), step.task))
  {
    hide Cancel, HasRunningStep;
    CancelTouchesRecord(s);
  }

  lemma NothingStarts(s: State, step: Step)
    requires s.born && s.record.Some? && s.record.value.status.Running? && Enabled(s, step) && !IsCallerStep(step)
    requires var p := At(s, step.task); !Registered(p) && !InExecutor(p) && p != ResumeReady
    ensures var p := At(After(s, step), step.task); !Registered(p) && !InExecutor(p)
  {
    hide HasRunningStep, MarkCancelled;
  }

  // What freeing the locks leaves alone.
  predicate Same(s: State, r: State, t: nat) {
    r.record == s.record && r.entry == s.entry && At(r, t) == At(s, t)
  }

  lemma GivesUpClaim(s: State, c: nat)
    requires Known(s) && LeftRunning(s) && s.claim == Some(c) && !At(s, c).AbortRecording?
    ensures var step := GivingUp(At(s, c), c);
            && Enabled(s, step) && step.task == c && After(s, step).claim == None && After(s, step).record == s.record
            && After(s, step).entry == s.entry
  {
    var p := At(s, c);
    assert HoldsClaim(p) && !Registered(p) && !InExecutor(p) && p != ResumeReady;
    hide MarkCancelled, HasRunningStep, HasOpenStep;
  }

  lemma FreesClaim(s: State, t: nat) returns (steps: seq<Step>)
    requires Known(s) && LeftRunning(s) && !HoldsClaim(At(s, t))
    requires s.claim.Some? ==> !At(s, s.claim.value).AbortRecording?
    ensures Possible(s, steps) && Final(s, steps).claim == None && Same(s, Final(s, steps), t)
    ensures LeftRunning(Final(s, steps))
  {
    if s.claim == None {
      steps := [];
    } else {
      var c := s.claim.value;
      GivesUpClaim(s, c);
      assert HoldsClaim(At(s, c));
      var step := GivingUp(At(s, c), c);
      MovesOnlyItself(s, step, t);
      LeftRunningStep(s, step);
      hide Enabled, After, Known, LeftRunning;
      steps := [step];
      assert steps[1..] == [];
    }
  }

  // A deletion that entered finds the record running and leaves.
  lemma LeavesDeletion(s: State, d: nat)
    requires At(s, d) == DeleteEntered && s.claim == None && s.record.Some? && s.record.value.status.Running?
    ensures var steps := [DeleteClaim(d), DeleteRecord(d)];
            && Possible(s, steps)
            && var end := Final(s, steps);
               && end == s.(tasks := end.tasks, mutex := None) && At(end, d) == DeleteDone(false)
               && forall t: nat | t != d :: At(end, t) == At(s, t)
  {
    var s1 := Move(s, d, DeleteClaimed).(claim := Some(d));
    var s2 := Move(s1, d, DeleteDone(false)).(claim := None, mutex := None);
    assert LeadsTo(s, DeleteClaim(d), s1) && LeadsTo(s1, DeleteRecord(d), s2);
    hide LeadsTo, Possible, Final;
    ChainOf([s, s1, s2], [DeleteClaim(d), DeleteRecord(d)]);
  }

  lemma FreesLocks(s: State, t: nat) returns (steps: seq<Step>)
    requires Known(s) && LeftRunning(s) && !HoldsClaim(At(s, t)) && !HoldsMutex(At(s, t))
    requires s.claim.Some? ==> !At(s, s.claim.value).AbortRecording?
    ensures Possible(s, steps)
    ensures Final(s, steps).claim == None && Final(s, steps).mutex == None && Same(s, Final(s, steps), t)
    ensures Known(Final(s, steps)) && LeftRunning(Final(s, steps))
  {
    steps := FreesClaim(s, t);
    KnownRun(s, steps);
    var s1 := Final(s, steps);
    if s1.mutex.Some? {
      var d := s1.mutex.value;
      assert HoldsMutex(At(s1, d)) && !HoldsClaim(At(s1, d));
      assert At(s1, t) == At(s, t);
      LeavesDeletion(s1, d);
      assert LeftRunning(Final(s1, [DeleteClaim(d), DeleteRecord(d)]));
      hide Known, Possible, Final;
      TwoParts(s, steps, [DeleteClaim(d), DeleteRecord(d)]);
      steps := steps + [DeleteClaim(d), DeleteRecord(d)];
      KnownRun(s, steps);
    }
  }

  // Who can end it, before anything is unlocked.
  lemma SomeoneEnds(s: State) returns (t: nat)
    requires LeftRunning(s) && CanStillEnd(s) && forall x: nat :: !At(s, x).AbortRecording?
    ensures var p := At(s, t);
            || CleansAnyway(p)
            || (p == AbortInspecting(false) && !HasRunningStep(s.record.value))
            || (p.NotStarted? && (s.entry.Active? || (s.entry == Absent && !HasRunningStep(s.record.value))))
  {
    if x: nat :| CleansAnyway(At(s, x)) {
      t := x;
    } else if s.entry.Active? || s.entry == Absent {
      t := FreshNat(s.tasks.Keys);
    } else {
      t :| At(s, t) == AbortInspecting(false);
    }
  }

  lemma EndsUnlocked(s: State, t: nat) returns (steps: seq<Step>)
    requires Known(s) && LeftRunning(s) && s.mutex == None && s.claim == None && !At(s, t).AbortRecording?
    requires var p := At(s, t);
             || CleansAnyway(p)
             || (p == AbortInspecting(false) && !HasRunningStep(s.record.value))
             || (p.NotStarted? && (s.entry.Active? || (s.entry == Absent && !HasRunningStep(s.record.value))))
    ensures Possible(s, steps) && Final(s, steps).record != s.record
  {
    assert s.entry.Active? ==> At(s, s.entry.exec) == Gone;
    if At(s, t).AbortSending? && At(s, At(s, t).exec) != Gone {
      var x := At(s, t).exec;
      assert HadSender(At(s, x)) && HoldsClaim(ResumeClosing);
      assert At(s, x) == NewDone;
      var s1 := Move(s, x, Gone);
      assert LeadsTo(s, Exit(x), s1) && At(s1, t) == At(s, t) && At(s1, x) == Gone;
      hide Known, Possible, Final, LeadsTo;
      var rest := EndsRecord(s1, t);
      steps := Ahead(s, Exit(x), s1, rest);
    } else {
      steps := EndsRecord(s, t);
    }
  }

  lemma EndsLeftRunning(s: State) returns (steps: seq<Step>)
    requires Known(s) && LeftRunning(s) && CanStillEnd(s)
    ensures Possible(s, steps) && Final(s, steps).record != s.record
  {
    if x: nat :| At(s, x).AbortRecording? {
      RecordingEnds(s, x);
      steps := [AbortRecord(x, Written)];
    } else {
      var t := SomeoneEnds(s);
      var free := FreesLocks(s, t);
      var s1 := Final(s, free);
      var rest := EndsUnlocked(s1, t);
      hide Known, Possible, Final;
      TwoParts(s, free, rest);
      steps := free + rest;
    }
  }

  lemma RecordingEnds(s: State, t: nat)
    requires At(s, t).AbortRecording? && s.record.Some? && s.record.value.status.Running?
    ensures var steps := [AbortRecord(t, Written)]; Possible(s, steps) && Final(s, steps).record != s.record
  {
    var s1 := AfterAbortRecord(s, t, Written);
    assert LeadsTo(s, AbortRecord(t, Written), s1) && s1.record != s.record;
    hide Possible, Final, LeadsTo;
    ChainOf([s, s1], [AbortRecord(t, Written)]);
  }

  // Some further run ends the record exactly when one of those is there: with the entry of a
  // panicked execution in the registry a running step does not matter.
  lemma EndableExactly(s: State)
    requires Reachable(s) && LeftRunning(s)
    ensures (exists steps: seq<Step> :: Possible(s, steps) && Final(s, steps).record != s.record) <==> CanStillEnd(s)
  {
    ReachableKnown(s);
    if CanStillEnd(s) {
      var steps := EndsLeftRunning(s);
    } else {
      forall steps: seq<Step> | Possible(s, steps) ensures Final(s, steps).record == s.record {
        LeftForGoodStays(s, steps);
      }
    }
  }

  // Every process start with a stored Running record is such a state, and there a running step
  // decides.
  lemma CrashLeavesRunning(s: State)
    requires Init(s) && s.record.Some? && s.record.value.status.Running?
    ensures Reachable(s) && LeftRunning(s) && (CanStillEnd(s) <==> !HasRunningStep(s.record.value))
  {
    assert Final(s, []) == s && Possible(s, []);
  }

  // The one execution of a run that panics leaves such a state, and its entry counts as before:
  // with its sender still in the registry the record can be ended whatever its steps are.
  lemma PanicLeavesRunning(s: State, e: nat)
    requires Reachable(s) && Registered(At(s, e)) && s.record.Some? && s.record.value.status.Running?
    requires forall t: nat | t != e :: !InExecutor(At(s, t))
    ensures var s' := After(s, Panic(e));
            && Reachable(s') && LeftRunning(s')
            && s'.record == s.record && (CanStillEnd(s') <==> CanStillEnd(s))
  {
    ReachableInv(s);
    ReachableNext(s, Panic(e));
    PanicLeaves(s, e);
    hide Reachable, Inv, HasRunningStep;
    SameAborts(s, e);
    assert After(s, Panic(e)) == AfterPanic(s, e);
    hide CanStillEnd, After, NobodyRegistered;
  }

  lemma SameAborts(s: State, e: nat)
    requires Registered(At(s, e)) && s.record.Some?
    ensures AfterPanic(s, e).record == s.record && (CanStillEnd(AfterPanic(s, e)) <==> CanStillEnd(s))
    ensures forall t: nat :: At(AfterPanic(s, e), t) == if t == e then Gone else At(s, t)
  {
    var s' := AfterPanic(s, e);
    assert forall t: nat :: At(s', t) == if t == e then Gone else At(s, t);
    hide At, HasRunningStep;
  }

  // ---------- A lost cancellation ----------

  // A new run is announced, saves a checkpoint, is aborted, and leaves its executor.
  function SignalSteps(run: Run, saved: Run): seq<Step> {
    [StartNew(0, run), Announce(0), Save(0, saved), AbortTake(1), AbortSend(1), BreakOff(0)]
  }

  // A resume holds the claim while the run tries to record, and is then refused.
  function RefusalSteps(): seq<Step> {
    [ClaimResume(2), LockRecording(0), Remove(0), Exit(0), CheckResume(2, true)]
  }

  // A refused resume that holds the claim at that moment loses the cancellation: the abort
  // was answered with Signalled, yet the record stays Running with nobody left to end it.
  lemma CancellationCanBeLost(s: State, run: Run, saved: Run)
    requires Init(s) && !s.born && run.status == Running && saved.status == Running
    requires forall id | id in run.steps :: run.steps[id] == StepPending
    ensures var steps := SignalSteps(run, saved) + RefusalSteps();
            var end := Final(s, steps);
            && Possible(s, steps)
            && At(end, 1) == AbortDone(Signalled) && end.record == Some(saved)
            && LeftRunning(end) && (HasRunningStep(saved) ==> LeftForGood(end))
  {
    hide Possible, Final, SignalSteps, RefusalSteps, LeftRunning, LeftForGood, Init;
    TwoParts(s, SignalSteps(run, saved), RefusalSteps());
    SignalledNewRun(s, run, saved);
    RefusalLosesIt(Final(s, SignalSteps(run, saved)), saved);
  }

  predicate OnlyThree(s: State) {
    s.born && s.tasks.Keys <= {0, 1, 2}
  }

  // Where the signal leaves the run: cancelled, not yet recorded.
  predicate SignalledRun(s: State, saved: Run) {
    && s.record == Some(saved) && s.entry == Cancelling && s.mutex == None && s.claim == None && OnlyThree(s)
    && At(s, 0) == NewAborted && At(s, 1) == AbortDone(Signalled) && At(s, 2) == NotStarted
  }

  lemma SignalledNewRun(s: State, run: Run, saved: Run)
    requires Init(s) && !s.born && run.status == Running
    requires forall id | id in run.steps :: run.steps[id] == StepPending
    ensures Possible(s, SignalSteps(run, saved)) && SignalledRun(Final(s, SignalSteps(run, saved)), saved)
  {
    hide Possible, Final, LeadsTo, Init, At, SignalledRun, OnlyThree,
         AfterStartNew, AfterAnnounce, AfterSave, AfterAbortTake, AfterAbortSend, AfterBreakOff;
    var s1 := AfterStartNew(s, 0, run);
    var s2 := AfterAnnounce(s1, 0);
    var s3 := AfterSave(s2, 0, saved);
    var s4 := AfterAbortTake(s3, 1);
    var s5 := AfterAbortSend(s4, 1);
    AnnouncedNewRun(s, run, saved);
    AbortedNewRun(s3, saved);
    ChainOf([s, s1, s2, s3, s4, s5, AfterBreakOff(s5, 0)], SignalSteps(run, saved));
  }

  lemma AnnouncedNewRun(s: State, run: Run, saved: Run)
    requires Init(s) && !s.born && run.status == Running
    requires forall id | id in run.steps :: run.steps[id] == StepPending
    ensures var s1 := AfterStartNew(s, 0, run);
            var s2 := AfterAnnounce(s1, 0);
            var s3 := AfterSave(s2, 0, saved);
            && LeadsTo(s, StartNew(0, run), s1) && LeadsTo(s1, Announce(0), s2) && LeadsTo(s2, Save(0, saved), s3)
            && s3.record == Some(saved) && s3.entry == Active(0) && s3.mutex == None && s3.claim == Some(0)
            && At(s3, 0) == NewRunning(true) && At(s3, 1) == NotStarted && At(s3, 2) == NotStarted && OnlyThree(s3)
  {
    hide HasRunningStep, MarkCancelled;
  }

  lemma AbortedNewRun(s: State, saved: Run)
    requires s.record == Some(saved) && s.entry == Active(0) && s.mutex == None && s.claim == Some(0) && OnlyThree(s)
    requires At(s, 0) == NewRunning(true) && At(s, 1) == NotStarted && At(s, 2) == NotStarted
    ensures var s1 := AfterAbortTake(s, 1);
            var s2 := AfterAbortSend(s1, 1);
            && LeadsTo(s, AbortTake(1), s1) && LeadsTo(s1, AbortSend(1), s2)
            && LeadsTo(s2, BreakOff(0), AfterBreakOff(s2, 0)) && SignalledRun(AfterBreakOff(s2, 0), saved)
  {
    hide HasRunningStep, MarkCancelled;
    var s1 := AfterAbortTake(s, 1);
    assert LeadsTo(s, AbortTake(1), s1);
    assert s1 == Move(s, 1, AbortSending(0)).(entry := Cancelling);
    assert At(s1, 0) == NewRunning(true) && At(s1, 1) == AbortSending(0) && At(s1, 2) == NotStarted;
    NoticedAbort(s1, saved);
  }

  lemma NoticedAbort(s: State, saved: Run)
    requires s.record == Some(saved) && s.entry == Cancelling && s.mutex == None && s.claim == Some(0) && OnlyThree(s)
    requires At(s, 0) == NewRunning(true) && At(s, 1) == AbortSending(0) && At(s, 2) == NotStarted
    ensures var s2 := AfterAbortSend(s, 1);
            && LeadsTo(s, AbortSend(1), s2)
            && LeadsTo(s2, BreakOff(0), AfterBreakOff(s2, 0)) && SignalledRun(AfterBreakOff(s2, 0), saved)
  {
    hide HasRunningStep, MarkCancelled;
    assert AfterAbortSend(s, 1) == Move(s, 1, AbortDone(Signalled)).(signalled := s.signalled + {0});
  }

  lemma RefusalLosesIt(s: State, saved: Run)
    requires SignalledRun(s, saved) && saved.status == Running
    ensures Possible(s, RefusalSteps())
    ensures var end := Final(s, RefusalSteps());
            && At(end, 1) == AbortDone(Signalled) && end.record == Some(saved)
            && LeftRunning(end) && (HasRunningStep(saved) ==> LeftForGood(end))
  {
    hide Possible, Final, LeadsTo, SignalledRun, LeftRunning, LeftForGood, OnlyThree,
         AfterClaimResume, AfterLockRecording, AfterRemove, AfterExit, AfterCheckResume;
    var s1 := AfterClaimResume(s, 2);
    var s2 := AfterLockRecording(s1, 0);
    var s3 := AfterRemove(s2, 0);
    var s4 := AfterExit(s3, 0);
    RefusedRecording(s, saved);
    LeavingRun(s2, saved);
    ChainOf([s, s1, s2, s3, s4, AfterCheckResume(s4, 2, true)], RefusalSteps());
  }

  lemma RefusedRecording(s: State, saved: Run)
    requires SignalledRun(s, saved)
    ensures var s1 := AfterClaimResume(s, 2);
            var s2 := AfterLockRecording(s1, 0);
            && LeadsTo(s, ClaimResume(2), s1) && LeadsTo(s1, LockRecording(0), s2)
            && s2.record == Some(saved) && s2.mutex == None && OnlyThree(s2)
            && At(s2, 0) == NewRecorded && At(s2, 1) == AbortDone(Signalled) && At(s2, 2) == ResumeClaimed
  {
    hide HasRunningStep, MarkCancelled;
  }

  lemma LeavingRun(s: State, saved: Run)
    requires s.record == Some(saved) && s.mutex == None && saved.status == Running && OnlyThree(s)
    requires At(s, 0) == NewRecorded && At(s, 1) == AbortDone(Signalled) && At(s, 2) == ResumeClaimed
    ensures var s3 := AfterRemove(s, 0);
            var s4 := AfterExit(s3, 0);
            var s5 := AfterCheckResume(s4, 2, true);
            && LeadsTo(s, Remove(0), s3) && LeadsTo(s3, Exit(0), s4) && LeadsTo(s4, CheckResume(2, true), s5)
            && At(s5, 1) == AbortDone(Signalled) && s5.record == Some(saved)
            && LeftRunning(s5) && (HasRunningStep(saved) ==> LeftForGood(s5))
  {
    hide AfterRemove, AfterExit, AfterCheckResume, LeadsTo, LeftRunning, LeftForGood, At;
    LeavingRegistry(s);
    RefusedResume(AfterExit(AfterRemove(s, 0), 0));
  }

  lemma LeavingRegistry(s: State)
    requires s.mutex == None && OnlyThree(s)
    requires At(s, 0) == NewRecorded && At(s, 1) == AbortDone(Signalled) && At(s, 2) == ResumeClaimed
    ensures var s1 := AfterRemove(s, 0);
            var s2 := AfterExit(s1, 0);
            && LeadsTo(s, Remove(0), s1) && LeadsTo(s1, Exit(0), s2)
            && s2.record == s.record && s2.entry == Absent && s2.mutex == None && OnlyThree(s2)
            && At(s2, 0) == Gone && At(s2, 1) == AbortDone(Signalled) && At(s2, 2) == ResumeClaimed
  {
    hide HasRunningStep, MarkCancelled;
  }

  lemma RefusedResume(s: State)
    requires s.record.Some? && s.record.value.status.Running? && s.entry == Absent && s.mutex == None && OnlyThree(s)
    requires At(s, 0) == Gone && At(s, 1) == AbortDone(Signalled) && At(s, 2) == ResumeClaimed
    ensures var s1 := AfterCheckResume(s, 2, true);
            && LeadsTo(s, CheckResume(2, true), s1) && At(s1, 1) == AbortDone(Signalled) && s1.record == s.record
            && LeftRunning(s1) && (HasRunningStep(s.record.value) ==> LeftForGood(s1))
  {
    hide HasRunningStep, MarkCancelled;
    assert At(AfterCheckResume(s, 2, true), 2) == Gone;
  }
}
