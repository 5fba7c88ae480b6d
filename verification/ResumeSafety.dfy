/** Who may cancel a resume: the registry's entries over whole runs, and exactly when a resume
    can be broken off though nobody signalled it. */
module ResumeSafety {
  import opened Wrappers
  import opened RunLifecycle

  // ---------- Registry entries ----------

  // Control points of an execution that registered and will still remove its entry.
  predicate Registered(p: Task) {
    p == NewRunning(true) || p.NewReturned? || p.NewAborted? || p.NewRecording? || p.NewRecorded? || ResumeRegistered(p)
  }

  // A sender in the registry is that of an execution that will remove it, and a cancelling
  // mark is there only while some execution will remove it; so it is until one panics.
  ghost predicate EntryOwned(s: State) {
    && (s.entry.Active? ==> Registered(At(s, s.entry.exec)))
    && (s.entry.Cancelling? ==> exists e: nat :: Registered(At(s, e)))
  }

  // A step moves the one who takes it.
  lemma MovesOnlyItself(s: State, step: Step, x: nat)
    requires Enabled(s, step)
    ensures x != step.task ==> At(After(s, step), x) == At(s, x)
  {
    if IsCallerStep(step) {
      CallerMoves(s, step, x);
    } else {
      ExecutionMoves(s, step, x);
    }
  }

  // Steps of aborts and deletions.
  predicate IsCallerStep(step: Step) {
    || step.AbortTake? || step.AbortSend? || step.AbortForget? || step.AbortInspect? || step.AbortClaim?
    || step.AbortRecord?
    || step.DeleteEnter? || step.DeleteClaim? || step.DeleteRecord?
  }

  lemma CallerMoves(s: State, step: Step, x: nat)
    requires Enabled(s, step) && IsCallerStep(step)
    ensures x != step.task ==> At(After(s, step), x) == At(s, x)
  {
    CancelTouchesRecord(s);
    hide Enabled, Cancel, HasRunningStep, AfterStartNew, AfterAnnounce, AfterReturn, AfterRemove, AfterExit,
         AfterBreakOff, AfterLockRecording, AfterRecord, AfterClaimResume, AfterCheckResume, AfterRegister,
         AfterClaimMcp, AfterCheckMcp;
  }

  lemma ExecutionMoves(s: State, step: Step, x: nat)
    requires Enabled(s, step) && !IsCallerStep(step)
    ensures x != step.task ==> At(After(s, step), x) == At(s, x)
  {
    CancelTouchesRecord(s);
    hide Enabled, Cancel, HasRunningStep, AfterAbortTake, AfterAbortSend, AfterAbortForget, AfterAbortInspect,
         AfterAbortClaim, AfterAbortRecord, AfterDeleteEnter, AfterDeleteClaim, AfterDeleteRecord;
  }

  // A registered execution stays so until it removes the entry or panics.
  lemma StaysRegistered(s: State, step: Step, e: nat)
    requires Enabled(s, step) && Registered(At(s, e))
    ensures Registered(At(After(s, step), e)) || step == Remove(e) || step == Panic(e)
    ensures step == Panic(e) ==> At(After(s, step), e) == Gone
  {
    if step.task != e {
      MovesOnlyItself(s, step, e);
    } else {
      OwnRegisteredStep(s, step);
    }
  }

  lemma OwnRegisteredStep(s: State, step: Step)
    requires Enabled(s, step) && Registered(At(s, step.task))
    ensures Registered(At(After(s, step), step.task)) || step.Remove? || step.Panic?
    ensures step.Panic? ==> At(After(s, step), step.task) == Gone
  {
    hide Cancel, AfterStartNew, AfterAnnounce, AfterExit, AfterClaimResume, AfterCheckResume, AfterRegister,
         AfterClaimMcp, AfterCheckMcp, AfterAbortTake, AfterAbortSend, AfterAbortForget, AfterAbortInspect,
         AfterAbortClaim, AfterAbortRecord, AfterDeleteEnter, AfterDeleteClaim, AfterDeleteRecord;
    CancelTouchesRecord(s);
  }

  lemma EntryChanges(s: State, step: Step)
    requires Enabled(s, step)
    ensures var s' := After(s, step);
            || s'.entry == s.entry || s'.entry == Absent
            || (s'.entry == Active(step.task) && Registered(At(s', step.task)))
            || (s'.entry == Cancelling && s.entry.Active? && step.AbortTake?)
    ensures step.Remove? ==> After(s, step).entry == Absent
    ensures step.Panic? ==> After(s, step).entry == s.entry
  {
    hide Cancel, HasRunningStep;
    CancelTouchesRecord(s);
  }

  lemma EntryOwnedStep(s: State, step: Step)
    requires EntryOwned(s) && Enabled(s, step) && !step.Panic?
    ensures EntryOwned(After(s, step))
  {
    EntryChanges(s, step);
    var s' := After(s, step);
    if s'.entry != Absent && s'.entry != Active(step.task) {
      var e: nat := if s.entry.Active? then s.entry.exec else (var x: nat :| Registered(At(s, x)); x);
      StaysRegistered(s, step, e);
    }
  }

  predicate NoPanic(steps: seq<Step>) {
    steps == [] || (!steps[0].Panic? && NoPanic(steps[1..]))
  }

  lemma {:induction false} EntryOwnedRun(s: State, steps: seq<Step>)
    requires EntryOwned(s) && Possible(s, steps) && NoPanic(steps)
    ensures EntryOwned(Final(s, steps))
    decreases |steps|
  {
    if steps == [] {
    } else {
      hide EntryOwned, Enabled, After;
      EntryOwnedStep(s, steps[0]);
      EntryOwnedRun(After(s, steps[0]), steps[1..]);
    }
  }

  // Over any run in which no execution panics no entry is ever stranded: while the registry
  // knows the run, some execution is still to remove it.
  lemma OwnedUnlessPanicked(start: State, steps: seq<Step>)
    requires Init(start) && Possible(start, steps) && NoPanic(steps) && Final(start, steps).entry != Absent
    ensures exists e: nat :: Registered(At(Final(start, steps), e))
  {
    EntryOwnedRun(start, steps);
  }

  // With panics, a sender in the registry is that of an execution that registered and is on
  // its way or gone.
  ghost predicate EntryKnown(s: State) {
    s.entry.Active? ==> Registered(At(s, s.entry.exec)) || At(s, s.entry.exec) == Gone
  }

  lemma EntryKnownStep(s: State, step: Step)
    requires EntryKnown(s) && Enabled(s, step)
    ensures EntryKnown(After(s, step))
  {
    EntryChanges(s, step);
    if After(s, step).entry == s.entry && s.entry.Active? {
      MovesOnlyItself(s, step, s.entry.exec);
      if Registered(At(s, s.entry.exec)) {
        StaysRegistered(s, step, s.entry.exec);
      }
    }
  }

  // An execution loses its sender unsignalled only to an abort that forgets a failed send.
  lemma OnlyForgettingHangsUp(s: State, step: Step, e: nat)
    requires Reachable(s) && Enabled(s, step)
    requires InExecutor(At(s, e)) && e !in s.hungUp && e in After(s, step).hungUp
    ensures step.AbortForget? && s.entry == Active(e)
  {
    ReachableInv(s);
    HangingUp(s, step, e);
    if step.Remove? {
      RemovesOwnEntry(s, step.task, e);
    }
  }

  lemma HangingUp(s: State, step: Step, e: nat)
    requires Enabled(s, step) && e !in s.hungUp && e in After(s, step).hungUp
    ensures s.entry == Active(e) && (step.AbortForget? || step.Remove?)
  {
    hide Cancel, HasRunningStep;
    CancelTouchesRecord(s);
  }

  lemma RemovesOwnEntry(s: State, x: nat, e: nat)
    requires Reachable(s) && Inv(s) && Enabled(s, Remove(x)) && s.entry == Active(e)
    ensures !InExecutor(At(s, e))
  {
    ReachableKnown(s);
    assert NewActive(At(s, x)) ==> NewRunGuarded(s, x);
    assert NewActive(At(s, e)) ==> NewRunGuarded(s, e);
  }

  // ---------- Senders ----------

  // Control points of an execution that has had a sender, and of what is over.
  predicate HadSender(p: Task) {
    Registered(p) || p.NewDone? || p.ResumeClosing? || p.Gone?
  }

  // Senders are fired, dropped and aimed at only after their execution registered.
  ghost predicate SendersStarted(s: State) {
    && (forall e: nat | e in s.signalled || e in s.hungUp :: HadSender(At(s, e)))
    && forall t: nat | At(s, t).AbortSending? :: HadSender(At(s, At(s, t).exec))
  }

  lemma HadSenderStays(s: State, step: Step, e: nat)
    requires Enabled(s, step) && HadSender(At(s, e))
    ensures HadSender(At(After(s, step), e))
  {
    if Registered(At(s, e)) {
      StaysRegistered(s, step, e);
    } else {
      MovesOnlyItself(s, step, e);
    }
  }

  lemma SenderChanges(s: State, step: Step)
    requires Enabled(s, step)
    ensures var s' := After(s, step);
            && (forall e: nat | e in s'.signalled && e !in s.signalled ::
                 step.AbortSend? && At(s, step.task) == AbortSending(e))
            && (forall e: nat | e in s'.hungUp && e !in s.hungUp :: s.entry == Active(e))
            && (At(s', step.task).AbortSending? ==>
                 step.AbortTake? && s.entry == Active(At(s', step.task).exec))
  {
    hide Cancel, HasRunningStep;
    CancelTouchesRecord(s);
  }

  lemma SendersStartedStep(s: State, step: Step)
    requires EntryKnown(s) && SendersStarted(s) && Enabled(s, step)
    ensures SendersStarted(After(s, step))
  {
    SenderChanges(s, step);
    var s' := After(s, step);
    forall e: nat | e in s'.signalled || e in s'.hungUp ensures HadSender(At(s', e)) {
      assert HadSender(At(s, e));
      HadSenderStays(s, step, e);
    }
    forall t: nat | At(s', t).AbortSending? ensures HadSender(At(s', At(s', t).exec)) {
      MovesOnlyItself(s, step, t);
      var e := At(s', t).exec;
      assert HadSender(At(s, e));
      HadSenderStays(s, step, e);
    }
  }

  // A resume that is about to register found a failed record, and nobody wrote it since.
  ghost predicate ReadyIsFailed(s: State) {
    forall e: nat | At(s, e) == ResumeReady :: s.record.Some? && s.record.value.status.Failed?
  }

  // Only who holds the claim changes the record.
  lemma WritersHoldClaim(s: State, step: Step)
    requires Enabled(s, step) && After(s, step).record != s.record
    ensures HoldsClaim(At(s, step.task)) || (step.StartNew? && s.claim == None)
  {
    hide MarkCancelled, HasRunningStep;
  }

  lemma BecomesReady(s: State, step: Step)
    requires Enabled(s, step) && At(After(s, step), step.task) == ResumeReady
    ensures s.record.Some? && s.record.value.status.Failed? && After(s, step).record == s.record
  {
    hide Cancel, HasRunningStep;
    CancelTouchesRecord(s);
  }

  lemma ReadyIsFailedStep(s: State, step: Step)
    requires Inv(s) && ReadyIsFailed(s) && Enabled(s, step)
    ensures ReadyIsFailed(After(s, step))
  {
    var s' := After(s, step);
    forall e: nat | At(s', e) == ResumeReady ensures s'.record.Some? && s'.record.value.status.Failed? {
      if e == step.task {
        BecomesReady(s, step);
      } else {
        MovesOnlyItself(s, step, e);
        assert HoldsClaim(At(s, e));
        if s'.record != s.record {
          WritersHoldClaim(s, step);
        }
      }
    }
  }

  // What every reachable state has beside the invariant.
  ghost predicate Known(s: State) {
    Inv(s) && EntryKnown(s) && SendersStarted(s) && ReadyIsFailed(s)
  }

  lemma {:induction false} KnownRun(s: State, steps: seq<Step>)
    requires Known(s) && Possible(s, steps)
    ensures Known(Final(s, steps))
    decreases |steps|
  {
    if steps == [] {
    } else {
      hide Inv, EntryKnown, SendersStarted, ReadyIsFailed, Enabled, After;
      StepInv(s, steps[0]);
      EntryKnownStep(s, steps[0]);
      SendersStartedStep(s, steps[0]);
      ReadyIsFailedStep(s, steps[0]);
      KnownRun(After(s, steps[0]), steps[1..]);
    }
  }

  lemma ReachableKnown(s: State)
    requires Reachable(s)
    ensures Known(s)
  {
    var start: State, steps :| Init(start) && Possible(start, steps) && s == Final(start, steps);
    InitInv(start);
    KnownRun(start, steps);
  }

  // ---------- When a resume is safe ----------

  // An abort took a sender and has neither sent nor forgotten it yet.
  ghost predicate NoAbortUnderWay(s: State) {
    forall t: nat :: !At(s, t).AbortSending? && !At(s, t).AbortForgetting?
  }

  // The registered resume is the only one an abort aims at, and nobody is about to remove its entry.
  ghost predicate Protected(s: State, e: nat) {
    && ResumeRegistered(At(s, e)) && e !in s.hungUp
    && (s.entry == Active(e) || s.entry == Cancelling)
    && forall t: nat :: !At(s, t).AbortForgetting? && (At(s, t).AbortSending? ==> At(s, t).exec == e)
  }

  lemma RegisteredIsProtected(s: State, e: nat)
    requires Known(s) && Enabled(s, Register(e)) && s.entry == Absent && NoAbortUnderWay(s)
    ensures Protected(After(s, Register(e)), e)
  {
    var s' := After(s, Register(e));
    assert s' == Move(s, e, ResumeRunning).(entry := Active(e));
    assert forall t: nat | t != e :: At(s', t) == At(s, t);
    assert e in s.hungUp ==> HadSender(At(s, e));
  }

  // A forgotten send is one to an execution that is gone.
  lemma BecomesForgetting(s: State, step: Step)
    requires Enabled(s, step) && At(After(s, step), step.task).AbortForgetting?
    ensures step.AbortSend? && At(s, step.task).AbortSending? && At(s, At(s, step.task).exec) == Gone
  {
    hide Cancel, HasRunningStep;
    CancelTouchesRecord(s);
  }

  // Two different executions never both have an entry to remove while one of them is a resume.
  lemma RegisteredAlone(s: State, e: nat, x: nat)
    requires Inv(s) && ResumeRegistered(At(s, e))
    ensures x != e ==> !Registered(At(s, x)) && !NewActive(At(s, x))
  {
    assert HoldsClaim(At(s, e));
    assert NewActive(At(s, x)) ==> NewRunGuarded(s, x);
  }

  lemma ProtectedStep(s: State, step: Step, e: nat)
    requires Known(s) && Protected(s, e) && Enabled(s, step) && step != Remove(e) && step != Panic(e)
    ensures Protected(After(s, step), e)
  {
    var s' := After(s, step);
    StaysRegistered(s, step, e);
    KeepsResume(s, step, e);
    EntryChanges(s, step);
    SenderChanges(s, step);
    RegisteredAlone(s, e, step.task);
    KeepsEntry(s, step, e);
    HangsUpOthers(s, step, e);
    hide Inv, Enabled, After, Registered, HadSender;
    forall t: nat
      ensures !At(s', t).AbortForgetting? && (At(s', t).AbortSending? ==> At(s', t).exec == e)
    {
      MovesOnlyItself(s, step, t);
      if At(s', t).AbortForgetting? && t == step.task {
        BecomesForgetting(s, step);
      }
    }
  }

  lemma KeepsResume(s: State, step: Step, e: nat)
    requires Enabled(s, step) && ResumeRegistered(At(s, e)) && step != Remove(e) && step != Panic(e)
    ensures ResumeRegistered(At(After(s, step), e))
  {
    MovesOnlyItself(s, step, e);
    if step.task == e {
      hide Cancel, HasRunningStep, AfterAbortTake, AfterAbortSend, AfterAbortForget, AfterAbortInspect, AfterAbortClaim,
           AfterAbortRecord, AfterDeleteEnter, AfterDeleteClaim, AfterDeleteRecord;
      CancelTouchesRecord(s);
    }
  }

  // Who may put the entry away: the removing execution, or an abort that forgets.
  lemma KeepsEntry(s: State, step: Step, e: nat)
    requires Inv(s) && Protected(s, e) && Enabled(s, step) && step != Remove(e) && step != Panic(e)
    ensures var s' := After(s, step); s'.entry == Active(e) || s'.entry == Cancelling
  {
    RegisteredAlone(s, e, step.task);
    assert s.born by {
      assert !Unborn(At(s, e));
    }
    hide Cancel, HasRunningStep;
    CancelTouchesRecord(s);
  }

  lemma HangsUpOthers(s: State, step: Step, e: nat)
    requires Inv(s) && Protected(s, e) && Enabled(s, step) && step != Remove(e) && step != Panic(e)
    ensures e !in After(s, step).hungUp
  {
    RegisteredAlone(s, e, step.task);
    hide Cancel, HasRunningStep;
    CancelTouchesRecord(s);
  }

  // A resume that gave its entry back never registers again.
  predicate IsOver(p: Task) {
    p.ResumeClosing? || p.Gone?
  }

  lemma IsOverStays(s: State, step: Step, e: nat)
    requires Enabled(s, step) && IsOver(At(s, e))
    ensures IsOver(At(After(s, step), e))
  {
    MovesOnlyItself(s, step, e);
  }

  lemma EndIsOver(s: State, e: nat)
    requires ResumeRegistered(At(s, e))
    ensures Enabled(s, Remove(e)) ==> IsOver(At(After(s, Remove(e)), e))
    ensures Enabled(s, Panic(e)) ==> IsOver(At(After(s, Panic(e)), e))
  {}

  lemma {:induction false} ProtectedRun(s: State, steps: seq<Step>, e: nat)
    requires Known(s) && (Protected(s, e) || IsOver(At(s, e))) && Possible(s, steps)
    ensures Known(Final(s, steps)) && (Protected(Final(s, steps), e) || IsOver(At(Final(s, steps), e)))
    decreases |steps|
  {
    if steps == [] {
    } else {
      hide Inv, EntryKnown, SendersStarted, ReadyIsFailed, Enabled, After;
      KnownRun(s, [steps[0]]);
      assert Possible(s, [steps[0]]) && Final(s, [steps[0]]) == After(s, steps[0]) by {
        assert [steps[0]][1..] == [];
      }
      if IsOver(At(s, e)) {
        IsOverStays(s, steps[0], e);
      } else if steps[0] == Remove(e) || steps[0] == Panic(e) {
        EndIsOver(s, e);
      } else {
        ProtectedStep(s, steps[0], e);
      }
      ProtectedRun(After(s, steps[0]), steps[1..], e);
    }
  }

  // If no abort is under way when a resume registers, then over any further run its sender is
  // never dropped while it is registered, and it leaves its executor early only if it was
  // signalled.
  lemma SafeResume(s: State, e: nat, steps: seq<Step>)
    requires Reachable(s) && Enabled(s, Register(e)) && s.entry == Absent && NoAbortUnderWay(s)
    requires Possible(After(s, Register(e)), steps)
    ensures var end := Final(After(s, Register(e)), steps);
            && (ResumeRegistered(At(end, e)) ==> e !in end.hungUp)
            && (Enabled(end, BreakOff(e)) ==> e in end.signalled)
  {
    ReachableKnown(s);
    RegisteredIsProtected(s, e);
    RegisterKnown(s, e);
    hide Known;
    ProtectedRun(After(s, Register(e)), steps, e);
  }

  lemma RegisterKnown(s: State, e: nat)
    requires Known(s) && Enabled(s, Register(e))
    ensures Known(After(s, Register(e)))
  {
    StepInv(s, Register(e));
    EntryKnownStep(s, Register(e));
    SendersStartedStep(s, Register(e));
    ReadyIsFailedStep(s, Register(e));
  }

  // ---------- When it is not ----------

  // Its sender dropped, the resume notices and cancels the failed record.
  lemma HungUpIsCancelled(s: State, e: nat)
    requires At(s, e) == ResumeRunning && e in s.hungUp && s.record.Some? && s.record.value.status.Failed?
    ensures var steps := [BreakOff(e), Record(e, Written)];
            && Possible(s, steps) && Final(s, steps).signalled == s.signalled
            && Final(s, steps).record.Some? && Final(s, steps).record.value.status == Cancelled
  {
    hide HasRunningStep, HasOpenStep;
    var s1 := AfterBreakOff(s, e);
    assert s1 == Move(s, e, ResumeAborted) && LeadsTo(s, BreakOff(e), s1);
    var s2 := AfterRecord(s1, e, Written);
    assert LeadsTo(s1, Record(e, Written), s2);
    hide LeadsTo, Possible, Final;
    ChainOf([s, s1, s2], [BreakOff(e), Record(e, Written)]);
  }

  // An abort about to forget drops the sender that is in the registry by then.
  lemma ForgettingHangsUp(s: State, e: nat, t: nat)
    requires At(s, t).AbortForgetting? && At(s, e) == ResumeRunning && s.entry == Active(e) && s.mutex == None
    ensures var end := After(s, AbortForget(t));
            && LeadsTo(s, AbortForget(t), end) && e in end.hungUp && At(end, e) == ResumeRunning
            && end.record == s.record && end.signalled == s.signalled
  {
    assert AfterAbortForget(s, t) == Move(DropEntry(s), t, AbortInspecting(true));
  }

  // Where the resume is left with its sender dropped and everything else as it was.
  predicate HungUp(s: State, steps: seq<Step>, e: nat) {
    && Possible(s, steps)
    && (var end := Final(s, steps);
        && At(end, e) == ResumeRunning && e in end.hungUp
        && end.record == s.record && end.signalled == s.signalled)
  }

  lemma ForgettingAtOnce(s: State, e: nat, t: nat)
    requires At(s, t).AbortForgetting? && At(s, e) == ResumeRunning && s.entry == Active(e) && s.mutex == None
    ensures HungUp(s, [AbortForget(t)], e)
  {
    ForgettingHangsUp(s, e, t);
    hide Possible, Final, After, LeadsTo;
    ChainOf([s, After(s, AbortForget(t))], [AbortForget(t)]);
  }

  // A send to an execution that is gone fails.
  lemma SendingHangsUp(s: State, e: nat, t: nat)
    requires At(s, t).AbortSending? && At(s, At(s, t).exec) == Gone
    requires At(s, e) == ResumeRunning && s.entry == Active(e) && s.mutex == None
    ensures HungUp(s, [AbortSend(t)] + [AbortForget(t)], e)
  {
    var s1 := Move(s, t, AbortForgetting);
    assert AfterAbortSend(s, t) == s1 && LeadsTo(s, AbortSend(t), s1);
    assert At(s1, t).AbortForgetting? && At(s1, e) == ResumeRunning;
    ForgettingAtOnce(s1, e, t);
    hide Possible, Final, After, LeadsTo;
    ChainOf([s, s1], [AbortSend(t)]);
    TwoParts(s, [AbortSend(t)], [AbortForget(t)]);
  }

  // Whom such an abort aims at: an execution that is gone or about to be.
  lemma AimedAtTheEnd(s: State, e: nat, t: nat)
    requires Known(s) && Enabled(s, Register(e)) && s.entry == Absent && At(s, t).AbortSending?
    ensures var x := At(s, t).exec; x != e && x != t && (At(s, x) == Gone || At(s, x) == NewDone)
  {
    var x := At(s, t).exec;
    assert HadSender(At(s, x)) && HoldsClaim(At(s, e));
    assert NewActive(At(s, x)) ==> NewRunGuarded(s, x);
  }

  lemma ExitsFirst(s: State, e: nat, x: nat, t: nat)
    requires At(s, x) == NewDone && At(s, t) == AbortSending(x) && At(s, e) == ResumeRunning
    ensures var end := After(s, Exit(x));
            && LeadsTo(s, Exit(x), end) && end == s.(tasks := end.tasks)
            && At(end, x) == Gone && At(end, t) == AbortSending(x) && At(end, e) == ResumeRunning
  {}

  // An abort that is under way when the resume registers can still drop its sender.
  lemma ExposedHangsUp(s: State, e: nat, t: nat) returns (steps: seq<Step>)
    requires Known(s) && Enabled(s, Register(e)) && s.entry == Absent
    requires At(s, t).AbortSending? || At(s, t).AbortForgetting?
    ensures HungUp(After(s, Register(e)), steps, e)
  {
    var s1 := After(s, Register(e));
    assert s1 == Move(s, e, ResumeRunning).(entry := Active(e));
    assert At(s1, t) == At(s, t) && At(s1, e) == ResumeRunning && s1.mutex == None;
    if At(s, t).AbortForgetting? {
      ForgettingAtOnce(s1, e, t);
      steps := [AbortForget(t)];
    } else {
      AimedAtTheEnd(s, e, t);
      var x := At(s, t).exec;
      assert At(s1, x) == At(s, x);
      hide Known;
      steps := [AbortSend(t)] + [AbortForget(t)];
      if At(s, x) == Gone {
        SendingHangsUp(s1, e, t);
      } else {
        ExitsFirst(s1, e, x, t);
        SendingHangsUp(After(s1, Exit(x)), e, t);
        hide Possible, Final, After, LeadsTo;
        ChainOf([s1, After(s1, Exit(x))], [Exit(x)]);
        TwoParts(s1, [Exit(x)], steps);
        steps := [Exit(x)] + steps;
      }
    }
  }

  lemma UnsignalledBefore(s: State, e: nat)
    requires Known(s) && Enabled(s, Register(e)) && s.entry == Absent
    ensures var s1 := After(s, Register(e));
            && e !in s1.signalled && s1.record == s.record && s.record.Some? && s.record.value.status.Failed?
  {
    assert e in s.signalled ==> HadSender(At(s, e));
  }

  // A possible continuation that cancels the record through a resume nobody signalled.
  predicate CancelledUnsignalled(s: State, e: nat, steps: seq<Step>) {
    && Possible(s, steps) && e !in Final(s, steps).signalled
    && Final(s, steps).record.Some? && Final(s, steps).record.value.status == Cancelled
  }

  // The resume's executor can be left although nobody signalled it.
  predicate LeavesUnsignalled(s: State, e: nat, steps: seq<Step>) {
    Possible(s, steps) && Enabled(Final(s, steps), BreakOff(e)) && e !in Final(s, steps).signalled
  }

  // It notices, and the failed record is cancelled.
  lemma ExposedResume(s: State, e: nat, t: nat) returns (steps: seq<Step>)
    requires Reachable(s) && Enabled(s, Register(e)) && s.entry == Absent
    requires At(s, t).AbortSending? || At(s, t).AbortForgetting?
    ensures LeavesUnsignalled(After(s, Register(e)), e, steps)
    ensures CancelledUnsignalled(After(s, Register(e)), e, steps + [BreakOff(e), Record(e, Written)])
  {
    ReachableKnown(s);
    UnsignalledBefore(s, e);
    var s1 := After(s, Register(e));
    steps := ExposedHangsUp(s, e, t);
    HungUpIsCancelled(Final(s1, steps), e);
    hide Known, Possible, Final, After;
    TwoParts(s1, steps, [BreakOff(e), Record(e, Written)]);
  }

  // A resume is safe exactly when no abort is under way at the moment it registers.
  lemma SafeExactly(s: State, e: nat)
    requires Reachable(s) && Enabled(s, Register(e)) && s.entry == Absent
    ensures NoAbortUnderWay(s) <==> forall steps: seq<Step> :: !LeavesUnsignalled(After(s, Register(e)), e, steps)
  {
    hide Inv, Enabled, After;
    if NoAbortUnderWay(s) {
      forall steps: seq<Step> ensures !LeavesUnsignalled(After(s, Register(e)), e, steps) {
        if Possible(After(s, Register(e)), steps) {
          SafeResume(s, e, steps);
        }
      }
    } else {
      var t: nat :| At(s, t).AbortSending? || At(s, t).AbortForgetting?;
      var steps := ExposedResume(s, e, t);
    }
  }

  // ---------- Such a moment is reached ----------

  // Any failed run can come to a resume that registers while an abort of an earlier resume
  // still has to send.
  lemma ExposureIsReached(s: State, run: Run)
    requires Init(s) && s.record == Some(run) && run.status.Failed?
    ensures exists end: State ::
              Reachable(end) && Enabled(end, Register(2)) && end.entry == Absent && !NoAbortUnderWay(end)
  {
    hide Possible, Final, ResumeSteps, LateAbort, At, Between, Reachable;
    InitReady(s, run);
    ResumeRuns(s, 0, run);
    var s1 := Final(s, ResumeSteps(0));
    ResumeIsOver(s1, run);
    var s2 := Final(s1, LateAbort());
    BetweenReady(s2, run);
    ResumeChecks(s2, 2, run);
    var s3 := Final(s2, [ClaimResume(2), CheckResume(2, true)]);
    TwoParts(s1, LateAbort(), [ClaimResume(2), CheckResume(2, true)]);
    TwoParts(s, ResumeSteps(0), LateAbort() + [ClaimResume(2), CheckResume(2, true)]);
    ReachedFrom(s, ResumeSteps(0) + (LateAbort() + [ClaimResume(2), CheckResume(2, true)]));
    StillSending(s2, s3, run);
  }

  lemma ReachedFrom(s: State, steps: seq<Step>)
    requires Init(s) && Possible(s, steps)
    ensures Reachable(Final(s, steps))
  {}

  lemma StillSending(s: State, end: State, run: Run)
    requires Between(s, run, NotStarted) && At(end, 1) == At(s, 1)
    ensures !NoAbortUnderWay(end)
  {
    assert At(end, 1).AbortSending?;
  }

  lemma ResumeChecks(s: State, e: nat, run: Run)
    requires Ready(s, e, run)
    ensures var steps := [ClaimResume(e), CheckResume(e, true)];
            && Possible(s, steps)
            && var end := Final(s, steps);
               && end.record == s.record && end.entry == Absent && Enabled(end, Register(e))
               && forall x: nat | x != e :: At(end, x) == At(s, x)
  {
    hide HasRunningStep, MarkCancelled;
    var s1 := AfterClaimResume(s, e);
    var s2 := AfterCheckResume(s1, e, true);
    assert LeadsTo(s, ClaimResume(e), s1);
    assert At(s1, e) == ResumeClaimed && LeadsTo(s1, CheckResume(e, true), s2);
    assert At(s2, e) == ResumeReady;
    hide LeadsTo, Possible, Final;
    ChainOf([s, s1, s2], [ClaimResume(e), CheckResume(e, true)]);
  }

  function ResumeSteps(e: nat): seq<Step> {
    [ClaimResume(e), CheckResume(e, true), Register(e)]
  }

  // The abort takes the sender of the first resume and sends only after the next one started.
  function LateAbort(): seq<Step> {
    [AbortTake(1), Return(0), Remove(0), Exit(0)]
  }

  // A failed run that a resume can take up.
  predicate Ready(s: State, e: nat, run: Run) {
    && s.record == Some(run) && run.status.Failed? && s.entry == Absent && s.claim == None && s.mutex == None
    && At(s, e) == NotStarted
  }

  lemma InitReady(s: State, run: Run)
    requires Init(s) && s.record == Some(run) && run.status.Failed?
    ensures Ready(s, 0, run) && At(s, 1) == NotStarted && At(s, 2) == NotStarted
  {}

  lemma ResumeRuns(s: State, e: nat, run: Run)
    requires Ready(s, e, run)
    ensures Possible(s, ResumeSteps(e))
    ensures var end := Final(s, ResumeSteps(e));
            && end.record == s.record && end.entry == Active(e) && end.claim == Some(e) && end.mutex == None
            && end.signalled == s.signalled && At(end, e) == ResumeRunning
            && forall x: nat | x != e :: At(end, x) == At(s, x)
  {
    hide Possible, Final, HasRunningStep, MarkCancelled;
    var s1 := AfterClaimResume(s, e);
    var s2 := AfterCheckResume(s1, e, true);
    var s3 := AfterRegister(s2, e);
    assert LeadsTo(s, ClaimResume(e), s1);
    assert At(s1, e) == ResumeClaimed && LeadsTo(s1, CheckResume(e, true), s2);
    assert At(s2, e) == ResumeReady && LeadsTo(s2, Register(e), s3);
    hide LeadsTo;
    ChainOf([s, s1, s2, s3], ResumeSteps(e));
  }

  // The first resume is over, the abort still has to send, the next resume is at `next`.
  predicate Between(s: State, run: Run, next: Task) {
    && s.record == Some(run) && s.mutex == None && s.signalled == {}
    && At(s, 0) == Gone && At(s, 1) == AbortSending(0) && At(s, 2) == next
  }

  lemma BetweenReady(s: State, run: Run)
    requires Between(s, run, NotStarted) && s.entry == Absent && s.claim == None && run.status.Failed?
    ensures Ready(s, 2, run)
  {}

  lemma ResumeIsOver(s: State, run: Run)
    requires s.record == Some(run) && s.entry == Active(0) && s.claim == Some(0) && s.mutex == None && s.signalled == {}
    requires At(s, 0) == ResumeRunning && At(s, 1) == NotStarted && At(s, 2) == NotStarted
    ensures Possible(s, LateAbort())
    ensures var end := Final(s, LateAbort());
            Between(end, run, NotStarted) && end.entry == Absent && end.claim == None
  {
    TakesSender(s);
    hide AfterAbortTake, AfterReturn, AfterRemove, AfterExit, LeadsTo, At, Possible, Final;
    var s1 := AfterAbortTake(s, 1);
    ResumeLeaves(s1);
    var s2 := AfterReturn(s1, 0);
    var s3 := AfterRemove(s2, 0);
    ChainOf([s, s1, s2, s3, AfterExit(s3, 0)], LateAbort());
  }

  lemma TakesSender(s: State)
    requires s.entry == Active(0) && s.mutex == None
    requires At(s, 0) == ResumeRunning && At(s, 1) == NotStarted && At(s, 2) == NotStarted
    ensures var s1 := AfterAbortTake(s, 1);
            && LeadsTo(s, AbortTake(1), s1) && s1 == s.(tasks := s1.tasks, entry := Cancelling)
            && At(s1, 0) == ResumeRunning && At(s1, 1) == AbortSending(0) && At(s1, 2) == NotStarted
  {
    assert AfterAbortTake(s, 1) == Move(s, 1, AbortSending(0)).(entry := Cancelling);
  }

  lemma ResumeLeaves(s: State)
    requires At(s, 0) == ResumeRunning && s.mutex == None && s.entry == Cancelling
    ensures var s1 := AfterReturn(s, 0);
            var s2 := AfterRemove(s1, 0);
            var s3 := AfterExit(s2, 0);
            && LeadsTo(s, Return(0), s1) && LeadsTo(s1, Remove(0), s2) && LeadsTo(s2, Exit(0), s3)
            && s3.record == s.record && s3.mutex == None && s3.signalled == s.signalled
            && s3.entry == Absent && s3.claim == None && At(s3, 0) == Gone
            && forall x: nat | x != 0 :: At(s3, x) == At(s, x)
  {
    var s1 := AfterReturn(s, 0);
    assert s1 == Move(s, 0, ResumeReturned);
    var s2 := AfterRemove(s1, 0);
    assert s2 == Move(s1, 0, ResumeClosing).(entry := Absent);
    assert AfterExit(s2, 0) == Move(s2, 0, Gone).(claim := None);
  }
}
