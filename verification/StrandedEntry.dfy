/** Registry entries that nobody removes: what a panic of an execution leaves behind, and exactly
    when no further run can free the run again. */
module StrandedEntry {
  import opened Wrappers
  import opened RunLifecycle
  import opened ResumeSafety

  // ---------- Whose the entry is ----------

  // A sender in the registry was neither sent nor is it aimed at, and it is the registered
  // execution's own; behind a cancelling mark that one was signalled or is about to be.
  ghost predicate SendersFit(s: State) {
    && (s.entry.Active? ==>
         && s.entry.exec !in s.signalled
         && (forall t: nat :: At(s, t) != AbortSending(s.entry.exec))
         && forall e: nat | Registered(At(s, e)) :: e == s.entry.exec)
    && (s.entry.Cancelling? ==>
         forall e: nat | Registered(At(s, e)) :: e in s.signalled || exists t: nat :: At(s, t) == AbortSending(e))
  }

  // At most one execution has an entry to remove.
  lemma RegisteredOnce(s: State, e: nat, x: nat)
    requires Inv(s) && Registered(At(s, e)) && Registered(At(s, x))
    ensures e == x
  {
    assert NewActive(At(s, e)) ==> NewRunGuarded(s, e);
    assert NewActive(At(s, x)) ==> NewRunGuarded(s, x);
    if ResumeRegistered(At(s, e)) {
      RegisteredAlone(s, e, x);
    }
  }

  lemma BecomesRegistered(s: State, step: Step)
    requires SendersStarted(s) && Enabled(s, step) && Registered(At(After(s, step), step.task))
    ensures Registered(At(s, step.task)) || After(s, step).entry == Active(step.task)
    ensures !Registered(At(s, step.task)) ==> step.Announce? || (step.Register? && s.entry == Absent)
  {
    assert !HadSender(At(s, step.task)) ==> step.task !in s.signalled && step.task !in s.hungUp;
    hide Cancel, HasRunningStep, SendersStarted, AfterAbortTake, AfterAbortSend, AfterAbortForget, AfterAbortInspect,
         AfterAbortClaim, AfterAbortRecord, AfterDeleteEnter, AfterDeleteClaim, AfterDeleteRecord;
    CancelTouchesRecord(s);
    if IsCallerStep(step) {
      CallerNeverRegisters(s, step);
    }
  }

  lemma CallerNeverRegisters(s: State, step: Step)
    requires Enabled(s, step) && IsCallerStep(step)
    ensures !Registered(At(After(s, step), step.task))
  {
    hide Cancel, HasRunningStep;
    CancelTouchesRecord(s);
  }

  // How an entry goes.
  lemma EntryGoes(s: State, step: Step)
    requires Enabled(s, step) && After(s, step).entry != s.entry
    ensures || step.Remove? || step.AbortForget?
            || (step.AbortTake? && s.entry.Active? && After(s, step).entry == Cancelling
                && At(After(s, step), step.task) == AbortSending(s.entry.exec))
            || (After(s, step).entry == Active(step.task) && Registered(At(After(s, step), step.task))
                && !Registered(At(s, step.task)) && (step.Announce? || (step.Register? && s.entry == Absent)))
    ensures step.Remove? || step.AbortForget? ==> After(s, step).entry == Absent
  {
    hide Cancel, HasRunningStep;
    CancelTouchesRecord(s);
  }

  // A send to an execution that is not gone arrives.
  lemma SendArrives(s: State, step: Step, e: nat)
    requires Enabled(s, step) && At(s, step.task) == AbortSending(e) && At(s, e) != Gone
    ensures e in After(s, step).signalled
  {
    hide Cancel, HasRunningStep;
  }

  lemma SignalledStays(s: State, step: Step)
    requires Enabled(s, step)
    ensures s.signalled <= After(s, step).signalled
  {
    hide Cancel, HasRunningStep;
    CancelTouchesRecord(s);
  }

  // An execution that registers was never signalled and nobody aims at it.
  lemma FreshSender(s: State, step: Step)
    requires Known(s) && Enabled(s, step) && (step.Announce? || (step.Register? && s.entry == Absent))
    ensures step.task !in s.signalled && After(s, step).signalled == s.signalled
    ensures forall t: nat :: At(After(s, step), t) != AbortSending(step.task)
    ensures NobodyRegistered(s)
  {
    var x := step.task;
    assert !HadSender(At(s, x));
    forall t: nat ensures At(After(s, step), t) != AbortSending(x) {
      MovesOnlyItself(s, step, t);
      assert At(s, t) != AbortSending(x);
    }
    forall e: nat ensures !Registered(At(s, e)) {
      NobodyBefore(s, step, e);
    }
  }

  lemma NobodyBefore(s: State, step: Step, e: nat)
    requires Inv(s) && Enabled(s, step) && (step.Announce? || (step.Register? && s.entry == Absent))
    ensures !Registered(At(s, e))
  {
    var x := step.task;
    assert NewActive(At(s, x)) ==> NewRunGuarded(s, x);
    assert NewActive(At(s, e)) ==> NewRunGuarded(s, e);
    assert step.Register? ==> s.claim == Some(x);
    assert ResumeRegistered(At(s, e)) ==> s.claim == Some(e);
  }

  lemma SendersFitStep(s: State, step: Step)
    requires Known(s) && SendersFit(s) && Enabled(s, step)
    ensures SendersFit(After(s, step))
  {
    var s' := After(s, step);
    if s'.entry == s.entry {
      SameEntryFits(s, step);
    } else {
      EntryGoes(s, step);
      if step.AbortTake? {
        TakenFits(s, step);
      } else if s'.entry.Active? {
        FreshSender(s, step);
        forall e: nat ensures e == step.task || !Registered(At(s', e)) {
          MovesOnlyItself(s, step, e);
        }
      }
    }
  }

  // Taking the sender leaves the mark and aims at its execution.
  lemma TakenFits(s: State, step: Step)
    requires Known(s) && SendersFit(s) && Enabled(s, step) && step.AbortTake? && s.entry.Active?
    requires At(After(s, step), step.task) == AbortSending(s.entry.exec) && After(s, step).entry == Cancelling
    ensures SendersFit(After(s, step))
  {
    var s' := After(s, step);
    forall e: nat | Registered(At(s', e))
      ensures e in s'.signalled || exists t: nat :: At(s', t) == AbortSending(e)
    {
      MovesOnlyItself(s, step, e);
      assert At(s', step.task) == AbortSending(e);
    }
  }

  lemma SameEntryFits(s: State, step: Step)
    requires Known(s) && SendersFit(s) && Enabled(s, step) && After(s, step).entry == s.entry
    ensures SendersFit(After(s, step))
  {
    var s' := After(s, step);
    SenderChanges(s, step);
    SignalledStays(s, step);
    forall e: nat | Registered(At(s', e))
      ensures s.entry.Active? ==> e == s.entry.exec
      ensures s.entry.Cancelling? ==> e in s'.signalled || exists t: nat :: At(s', t) == AbortSending(e)
    {
      MovesOnlyItself(s, step, e);
      if e == step.task && !Registered(At(s, e)) {
        BecomesRegistered(s, step);
      } else if s.entry.Cancelling? && e !in s.signalled {
        StillAimed(s, step, e);
      }
    }
    if s.entry.Active? {
      forall t: nat ensures At(s', t) != AbortSending(s.entry.exec) {
        MovesOnlyItself(s, step, t);
        if t == step.task && At(s', t).AbortSending? {
          EntryTaken(s, step);
        }
      }
    }
  }

  lemma EntryTaken(s: State, step: Step)
    requires Enabled(s, step) && At(After(s, step), step.task).AbortSending?
    ensures After(s, step).entry == Cancelling
  {
    hide Cancel, HasRunningStep;
    CancelTouchesRecord(s);
  }

  lemma StillAimed(s: State, step: Step, e: nat)
    requires SendersFit(s) && Enabled(s, step) && s.entry.Cancelling? && e !in s.signalled
    requires Registered(At(s, e)) && Registered(At(After(s, step), e))
    ensures e in After(s, step).signalled || exists t: nat :: At(After(s, step), t) == AbortSending(e)
  {
    var t: nat :| At(s, t) == AbortSending(e);
    MovesOnlyItself(s, step, t);
    if step.task == t {
      OnlySends(s, step);
      SendArrives(s, step, e);
    } else {
      assert At(After(s, step), t) == AbortSending(e);
    }
  }

  lemma OnlySends(s: State, step: Step)
    requires Enabled(s, step) && At(s, step.task).AbortSending?
    ensures step == AbortSend(step.task)
  {}

  lemma {:induction false} SendersFitRun(s: State, steps: seq<Step>)
    requires Known(s) && SendersFit(s) && Possible(s, steps)
    ensures Known(Final(s, steps)) && SendersFit(Final(s, steps))
    decreases |steps|
  {
    if steps == [] {
    } else {
      hide Known, SendersFit, Enabled, After;
      KnownStep(s, steps[0]);
      SendersFitStep(s, steps[0]);
      SendersFitRun(After(s, steps[0]), steps[1..]);
    }
  }

  lemma KnownStep(s: State, step: Step)
    requires Known(s) && Enabled(s, step)
    ensures Known(After(s, step))
  {
    hide Enabled, After, Known;
    KnownRun(s, [step]);
    assert Possible(s, [step]) && Final(s, [step]) == After(s, step) by {
      assert [step][1..] == [];
    }
  }

  lemma ReachableFits(s: State)
    requires Reachable(s)
    ensures Known(s) && SendersFit(s)
  {
    var start: State, steps :| Init(start) && Possible(start, steps) && s == Final(start, steps);
    InitInv(start);
    SendersFitRun(start, steps);
  }

  // ---------- Entries that stay ----------

  ghost predicate NobodyRegistered(s: State) {
    forall t: nat :: !Registered(At(s, t))
  }

  // A cancelling mark that nobody is to remove.
  ghost predicate Stranded(s: State) {
    s.entry == Cancelling && NobodyRegistered(s) && NoAbortUnderWay(s)
  }

  lemma StrandedStep(s: State, step: Step)
    requires Known(s) && Stranded(s) && Enabled(s, step)
    ensures Stranded(After(s, step))
  {
    var s' := After(s, step);
    assert step.Announce? ==> NewRunGuarded(s, step.task);
    assert s'.entry == s.entry by {
      if s'.entry != s.entry {
        EntryGoes(s, step);
        NotUnderWay(s, step);
      }
    }
    forall t: nat ensures !Registered(At(s', t)) && !At(s', t).AbortSending? && !At(s', t).AbortForgetting? {
      MovesOnlyItself(s, step, t);
      if t == step.task {
        StaysAside(s, step);
      }
    }
  }

  lemma NotUnderWay(s: State, step: Step)
    requires Stranded(s) && Enabled(s, step)
    ensures !step.Remove? && !step.AbortForget?
  {
    assert !Registered(At(s, step.task)) && !At(s, step.task).AbortForgetting?;
  }

  lemma StaysAside(s: State, step: Step)
    requires Known(s) && Stranded(s) && Enabled(s, step) && !step.Announce?
    ensures var p := At(After(s, step), step.task);
            !Registered(p) && !p.AbortSending? && !p.AbortForgetting?
  {
    assert !Registered(At(s, step.task)) && !At(s, step.task).AbortSending?;
    if Registered(At(After(s, step), step.task)) {
      BecomesRegistered(s, step);
    }
    SenderChanges(s, step);
    if At(After(s, step), step.task).AbortForgetting? {
      BecomesForgetting(s, step);
    }
  }

  lemma {:induction false} StrandedStays(s: State, steps: seq<Step>)
    requires Known(s) && Stranded(s) && Possible(s, steps)
    ensures Known(Final(s, steps)) && Stranded(Final(s, steps))
    decreases |steps|
  {
    if steps == [] {
    } else {
      hide Known, Stranded, Enabled, After;
      KnownStep(s, steps[0]);
      StrandedStep(s, steps[0]);
      StrandedStays(After(s, steps[0]), steps[1..]);
    }
  }

  // Such a mark stays over any run: every abort is answered as signalled, and every deletion
  // and every registration is refused.
  lemma StrandedForGood(s: State, steps: seq<Step>, t: nat)
    requires Reachable(s) && Stranded(s) && Possible(s, steps)
    ensures var end := Final(s, steps);
            && end.entry == Cancelling && end.mutex == None && NobodyRegistered(end)
            && (Enabled(end, AbortTake(t)) ==> At(After(end, AbortTake(t)), t) == AbortDone(Signalled))
            && (Enabled(end, DeleteEnter(t)) ==> At(After(end, DeleteEnter(t)), t) == DeleteDone(false))
            && (Enabled(end, Register(t)) ==> At(After(end, Register(t)), t) == Gone)
  {
    ReachableKnown(s);
    StrandedStays(s, steps);
    hide Possible, Final, Reachable;
    RefusedByMark(Final(s, steps), t);
  }

  lemma RefusedByMark(s: State, t: nat)
    requires s.entry == Cancelling && s.mutex == None
    ensures Enabled(s, AbortTake(t)) ==> At(After(s, AbortTake(t)), t) == AbortDone(Signalled)
    ensures Enabled(s, DeleteEnter(t)) ==> At(After(s, DeleteEnter(t)), t) == DeleteDone(false)
    ensures Enabled(s, Register(t)) ==> At(After(s, Register(t)), t) == Gone
  {}

  // ---------- Entries that can go ----------

  // The next step of a registered execution towards the removal of its entry.
  function Leaving(p: Task, e: nat): Step
    requires Registered(p)
  {
    if InExecutor(p) then Return(e)
    else if p.NewAborted? then LockRecording(e)
    else if p.NewRecording? || p.ResumeAborted? then Record(e, Written)
    else Remove(e)
  }

  function StepsLeft(p: Task): nat {
    if p.NewAborted? then 3 else if p.NewRecording? || p.ResumeAborted? || InExecutor(p) then 2 else 1
  }

  lemma LeavingStep(s: State, e: nat)
    requires Registered(At(s, e)) && s.mutex == None
    ensures var step := Leaving(At(s, e), e);
            && Enabled(s, step) && After(s, step).mutex == None
            && (step.Remove? ==> After(s, step).entry == Absent)
            && (!step.Remove? ==>
                 Registered(At(After(s, step), e)) && StepsLeft(At(After(s, step), e)) < StepsLeft(At(s, e)))
  {
    hide MarkCancelled, HasRunningStep;
  }

  lemma {:induction false} LeavesRegistry(s: State, e: nat) returns (steps: seq<Step>)
    requires Registered(At(s, e)) && s.mutex == None
    ensures Possible(s, steps) && Final(s, steps).entry == Absent
    decreases StepsLeft(At(s, e))
  {
    LeavingStep(s, e);
    var step := Leaving(At(s, e), e);
    hide Enabled, After, Registered;
    if step.Remove? {
      steps := [step];
      assert steps[1..] == [];
    } else {
      var rest := LeavesRegistry(After(s, step), e);
      steps := [step] + rest;
      assert steps[1..] == rest;
    }
  }

  // An abort about to forget removes whatever entry there is.
  lemma ForgettingFrees(s: State, t: nat) returns (steps: seq<Step>)
    requires At(s, t).AbortForgetting? && s.mutex == None
    ensures Possible(s, steps) && Final(s, steps).entry == Absent
  {
    steps := [AbortForget(t)];
    assert LeadsTo(s, AbortForget(t), AfterAbortForget(s, t)) && AfterAbortForget(s, t).entry == Absent;
    hide Possible, Final, LeadsTo, AfterAbortForget;
    ChainOf([s, AfterAbortForget(s, t)], steps);
  }

  // One whose receiver is gone comes to that.
  lemma MissingFrees(s: State, t: nat) returns (steps: seq<Step>)
    requires At(s, t).AbortSending? && At(s, At(s, t).exec) == Gone && s.mutex == None
    ensures Possible(s, steps) && Final(s, steps).entry == Absent
  {
    var s1 := Move(s, t, AbortForgetting);
    assert LeadsTo(s, AbortSend(t), s1);
    var rest := ForgettingFrees(s1, t);
    steps := Ahead(s, AbortSend(t), s1, rest);
  }

  lemma Ahead(s: State, step: Step, mid: State, rest: seq<Step>) returns (steps: seq<Step>)
    requires LeadsTo(s, step, mid) && Possible(mid, rest)
    ensures steps == [step] + rest && Possible(s, steps) && Final(s, steps) == Final(mid, rest)
  {
    steps := [step] + rest;
    assert steps[1..] == rest;
  }

  lemma SendingFrees(s: State, t: nat) returns (steps: seq<Step>)
    requires Known(s) && NobodyRegistered(s) && At(s, t).AbortSending? && s.mutex == None
    ensures Possible(s, steps) && Final(s, steps).entry == Absent
  {
    var x := At(s, t).exec;
    assert HadSender(At(s, x)) && !Registered(At(s, x));
    if At(s, x) == Gone {
      steps := MissingFrees(s, t);
    } else {
      var s1 := AfterExit(s, x);
      assert LeadsTo(s, Exit(x), s1) && At(s1, x) == Gone && At(s1, t) == At(s, t) && s1.mutex == None;
      hide AfterExit, LeadsTo, Possible, Final, Known;
      var rest := MissingFrees(s1, t);
      steps := Ahead(s, Exit(x), s1, rest);
    }
  }

  // A new abort takes the sender of an execution that is gone.
  lemma TakingFrees(s: State) returns (steps: seq<Step>)
    requires s.entry.Active? && At(s, s.entry.exec) == Gone && s.mutex == None
    ensures Possible(s, steps) && Final(s, steps).entry == Absent
  {
    var t := FreshNat(s.tasks.Keys);
    var s1 := Move(s, t, AbortSending(s.entry.exec)).(entry := Cancelling);
    assert LeadsTo(s, AbortTake(t), s1) && At(s1, s.entry.exec) == Gone;
    var rest := MissingFrees(s1, t);
    steps := Ahead(s, AbortTake(t), s1, rest);
  }

  lemma FreesEntry(s: State) returns (steps: seq<Step>)
    requires Known(s) && !Stranded(s)
    ensures Possible(s, steps) && Final(s, steps).entry == Absent
  {
    if s.entry == Absent {
      steps := [];
    } else if e: nat :| Registered(At(s, e)) {
      assert s.mutex == None;
      steps := LeavesRegistry(s, e);
    } else if s.entry.Active? {
      assert s.mutex == None;
      steps := TakingFrees(s);
    } else {
      assert s.mutex == None;
      var t: nat :| At(s, t).AbortSending? || At(s, t).AbortForgetting?;
      if At(s, t).AbortForgetting? {
        steps := ForgettingFrees(s, t);
      } else {
        steps := SendingFrees(s, t);
      }
    }
  }

  ghost predicate NeverFree(s: State) {
    forall steps: seq<Step> | Possible(s, steps) :: Final(s, steps).entry != Absent
  }

  // No further run removes the entry exactly when it is a cancelling mark with no execution and
  // no abort on its way that would.
  lemma StrandedExactly(s: State)
    requires Reachable(s)
    ensures NeverFree(s) <==> Stranded(s)
  {
    ReachableKnown(s);
    if Stranded(s) {
      forall steps: seq<Step> | Possible(s, steps) ensures Final(s, steps).entry != Absent {
        StrandedStays(s, steps);
      }
    } else {
      var steps := FreesEntry(s);
    }
  }

  // ---------- What a panic leaves ----------

  lemma ReachableNext(s: State, step: Step)
    requires Reachable(s) && Enabled(s, step)
    ensures Reachable(After(s, step))
  {
    var start: State, steps :| Init(start) && Possible(start, steps) && s == Final(start, steps);
    hide Init, Enabled, After;
    assert [step][1..] == [];
    TwoParts(start, steps, [step]);
    assert Possible(start, steps + [step]) && Final(start, steps + [step]) == After(s, step);
  }

  // A panicking execution strands its entry for good exactly when the entry is a cancelling
  // mark and no abort is under way, and that is when the execution was signalled.
  lemma PanicStrandsExactly(s: State, e: nat)
    requires Reachable(s) && Registered(At(s, e))
    ensures Enabled(s, Panic(e)) && After(s, Panic(e)).entry == s.entry
    ensures NeverFree(After(s, Panic(e))) <==> s.entry == Cancelling && NoAbortUnderWay(s)
    ensures s.entry != Absent && NoAbortUnderWay(s) ==>
              (NeverFree(After(s, Panic(e))) <==> e in s.signalled)
  {
    ReachableFits(s);
    ReachableNext(s, Panic(e));
    PanicLeaves(s, e);
    StrandedExactly(After(s, Panic(e)));
    if s.entry != Absent && NoAbortUnderWay(s) {
      SignalledWhenMarked(s, e);
    }
    hide Known, Reachable, NeverFree, Possible, Final, SendersFit, After, Enabled;
  }

  lemma PanicLeaves(s: State, e: nat)
    requires Inv(s) && Registered(At(s, e))
    ensures Enabled(s, Panic(e))
    ensures var s' := After(s, Panic(e));
            && s'.entry == s.entry && NobodyRegistered(s') && (NoAbortUnderWay(s') <==> NoAbortUnderWay(s))
  {
    var s' := AfterPanic(s, e);
    assert forall t: nat :: At(s', t) == if t == e then Gone else At(s, t);
    forall t: nat ensures !Registered(At(s', t)) {
      if t != e && Registered(At(s, t)) {
        RegisteredOnce(s, e, t);
      }
    }
  }

  lemma SignalledWhenMarked(s: State, e: nat)
    requires SendersFit(s) && Registered(At(s, e)) && NoAbortUnderWay(s) && s.entry != Absent
    ensures s.entry == Cancelling <==> e in s.signalled
  {
    assert s.entry.Cancelling? ==> e in s.signalled || exists t: nat :: At(s, t) == AbortSending(e);
  }

  // It happens: any failed run can come to a resume that panics after its abort.
  lemma StrandingIsReached(s: State, run: Run)
    requires Init(s) && s.record == Some(run) && run.status.Failed?
    ensures exists end: State :: Reachable(end) && Stranded(end)
  {
    InitReady(s, run);
    ResumeRuns(s, 0, run);
    var s1 := Final(s, ResumeSteps(0));
    assert forall x: nat | x != 0 :: At(s1, x) == NotStarted;
    hide Possible, Final, ResumeSteps, Init, Reachable;
    PanicAfterAbort(s1);
    var steps := [AbortTake(1), AbortSend(1), Panic(0)];
    TwoParts(s, ResumeSteps(0), steps);
    ReachedFrom(s, ResumeSteps(0) + steps);
    assert Stranded(Final(s1, steps));
  }

  lemma PanicAfterAbort(s: State)
    requires s.entry == Active(0) && s.mutex == None && At(s, 0) == ResumeRunning
    requires forall x: nat | x != 0 :: At(s, x) == NotStarted
    ensures var steps := [AbortTake(1), AbortSend(1), Panic(0)];
            Possible(s, steps) && Stranded(Final(s, steps))
  {
    var s1 := Move(s, 1, AbortSending(0)).(entry := Cancelling);
    var s2 := Move(s1, 1, AbortDone(Signalled)).(signalled := s.signalled + {0});
    SignalledResume(s);
    var s3 := AfterPanic(s2, 0);
    PanickedResume(s2);
    OnlyMarkLeft(s3);
    hide LeadsTo, Possible, Final, AfterPanic, At, Stranded, Move;
    ChainOf([s, s1, s2, s3], [AbortTake(1), AbortSend(1), Panic(0)]);
  }

  lemma OnlyMarkLeft(s: State)
    requires s.entry == Cancelling
    requires forall x: nat :: At(s, x) == Gone || At(s, x) == AbortDone(Signalled) || At(s, x) == NotStarted
    ensures Stranded(s)
  {}

  lemma PanickedResume(s: State)
    requires At(s, 0) == ResumeRunning
    ensures var s1 := AfterPanic(s, 0);
            && LeadsTo(s, Panic(0), s1) && s1.entry == s.entry
            && forall x: nat :: At(s1, x) == if x == 0 then Gone else At(s, x)
  {}

  lemma SignalledResume(s: State)
    requires s.entry == Active(0) && s.mutex == None && At(s, 0) == ResumeRunning && At(s, 1) == NotStarted
    ensures var s1 := Move(s, 1, AbortSending(0)).(entry := Cancelling);
            var s2 := Move(s1, 1, AbortDone(Signalled)).(signalled := s.signalled + {0});
            && LeadsTo(s, AbortTake(1), s1) && LeadsTo(s1, AbortSend(1), s2)
            && forall x: nat :: At(s2, x) == if x == 1 then AbortDone(Signalled) else At(s, x)
  {
    hide HasRunningStep, MarkCancelled;
    assert At(Move(s, 1, AbortSending(0)).(entry := Cancelling), 0) == ResumeRunning;
  }

  function AbortSteps(t: nat): seq<Step> {
    [AbortTake(t), AbortSend(t), AbortForget(t), AbortInspect(t), AbortClaim(t), AbortRecord(t, Written)]
  }

  // Otherwise one abort frees the run, and cancels a record that says Running whatever its
  // steps are.
  lemma OneAbortCleans(s: State, t: nat)
    requires Reachable(s) && s.entry.Active? && At(s, s.entry.exec) == Gone && s.claim == None
    requires s.record.Some? && s.record.value.status.Running? && At(s, t) == NotStarted
    ensures Possible(s, AbortSteps(t))
    ensures var end := Final(s, AbortSteps(t));
            && end.entry == Absent && end.claim == None && At(end, t) == AbortDone(Cleaned)
            && end.record == Some(MarkCancelled(s.record.value, false))
            && CancelledFrom(s.record.value, end.record.value)
  {
    EntryUnlocks(s);
    hide Reachable;
    var s2 := Move(s, t, AbortForgetting).(entry := Cancelling);
    TakenFromGone(s, t);
    ForgottenToClean(s2, t);
    hide Possible, Final, LeadsTo, MarkCancelled, AfterAbortTake, AfterAbortSend, AfterAbortForget,
         AfterAbortInspect, AfterAbortClaim, AfterAbortRecord, At, CancelledFrom;
    var s1 := AfterAbortTake(s, t);
    var s3 := AfterAbortForget(s2, t);
    var s4 := AfterAbortInspect(s3, t);
    var s5 := AfterAbortClaim(s4, t);
    CleanedUp(s4, t);
    MarkClosesSteps(s.record.value, false);
    ChainOf([s, s1, s2, s3, s4, s5, AfterAbortRecord(s5, t, Written)], AbortSteps(t));
  }

  lemma EntryUnlocks(s: State)
    requires Reachable(s) && s.entry != Absent
    ensures s.mutex == None
  {
    ReachableInv(s);
  }

  lemma TakenFromGone(s: State, t: nat)
    requires s.entry.Active? && At(s, s.entry.exec) == Gone && s.mutex == None && At(s, t) == NotStarted
    ensures var s1 := AfterAbortTake(s, t);
            var s2 := AfterAbortSend(s1, t);
            && LeadsTo(s, AbortTake(t), s1) && LeadsTo(s1, AbortSend(t), s2)
            && s2 == Move(s, t, AbortForgetting).(entry := Cancelling)
  {
    var s1 := AfterAbortTake(s, t);
    assert s1 == Move(s, t, AbortSending(s.entry.exec)).(entry := Cancelling);
    assert At(s1, s.entry.exec) == Gone;
    assert AfterAbortSend(s1, t) == Move(s1, t, AbortForgetting);
    assert s1.tasks[t := AbortForgetting] == s.tasks[t := AbortForgetting];
  }

  lemma ForgottenToClean(s: State, t: nat)
    requires At(s, t) == AbortForgetting && s.mutex == None && s.record.Some? && s.record.value.status.Running?
    ensures var s1 := AfterAbortForget(s, t);
            var s2 := AfterAbortInspect(s1, t);
            && LeadsTo(s, AbortForget(t), s1) && LeadsTo(s1, AbortInspect(t), s2)
            && At(s2, t) == AbortCleaning && s2.record == s.record && s2.claim == s.claim && s2.entry == Absent
  {
    hide HasRunningStep;
    assert AfterAbortForget(s, t) == Move(DropEntry(s), t, AbortInspecting(true));
  }

  lemma CleanedUp(s: State, t: nat)
    requires s.record.Some? && s.record.value.status.Running? && s.claim == None && At(s, t) == AbortCleaning
    ensures var s1 := AfterAbortClaim(s, t);
            var s2 := AfterAbortRecord(s1, t, Written);
            && LeadsTo(s, AbortClaim(t), s1) && LeadsTo(s1, AbortRecord(t, Written), s2)
            && s2.record == Some(MarkCancelled(s.record.value, false)) && s2.record != s.record
            && s2.entry == s.entry && s2.claim == None && At(s2, t) == AbortDone(Cleaned)
  {
    hide HasRunningStep, CloseSteps;
  }
}
