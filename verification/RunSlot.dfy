/** The engine's sections on one run, written as they change the shared state in place, each
    proved to be the step of RunLifecycle that carries its name. */
module RunSlots {
  import opened Wrappers
  import opened RunLifecycle

  class RunSlot {
    var record: Option<Run>
    var entry: Entry
    var mutex: Option<nat>
    var claim: Option<nat>
    ghost var writer: Writer
    ghost var born: bool
    ghost var tasks: map<nat, Task>
    ghost var signalled: set<nat>
    ghost var hungUp: set<nat>

    ghost function View(): State
      reads this
    {
      State(record, writer, born, entry, mutex, claim, tasks, signalled, hungUp)
    }

    // A process start on whatever is stored.
    constructor (stored: Option<Run>)
      ensures Init(View()) && record == stored
    {
      record, entry, mutex, claim := stored, Absent, None, None;
      writer, born, tasks, signalled, hungUp := Executor, stored.Some?, map[], {}, {};
    }

    // Taking an entry out of the registry; a sender nobody took is dropped with it.
    method RemoveEntry()
      modifies `entry, `hungUp
      ensures View() == DropEntry(old(View()))
    {
      if entry.Active? {
        hungUp := hungUp + {entry.exec};
      }
      entry := Absent;
    }

    // The record afterwards: marked if there is one and the save is done, as before otherwise.
    static ghost predicate CancelsRecord(before: Option<Run>, after: Option<Run>, cancelFailed: bool, saved: Write) {
      if before.None? || saved.Unwritten? then after == before
      else after.Some? && MarkedFrom(before.value, after.value, cancelFailed)
    }

    // Loading, marking and saving under the claim.
    method CancelRecord(cancelFailed: bool, saved: Write) returns (ok: bool)
      modifies `record, `writer
      ensures View() == Cancel(old(View()), cancelFailed, saved)
      ensures ok <==>
                && old(record).Some?
                && (saved.Written?
                    || (saved.Unreported? && KeptByCancel(old(record).value.status, cancelFailed)))
      ensures CancelsRecord(old(record), record, cancelFailed, saved)
    {
      if record.None? || saved.Unwritten? {
        return false;
      }
      if KeptByCancel(record.value.status, cancelFailed) {
        return true;
      }
      var run := MarkRunCancelledInner(record.value, cancelFailed);
      record, writer := Some(run), Canceller;
      ok := saved.Written?;
    }

    // resume_run: a run with any entry is already executing.
    method RegisterResume(e: nat) returns (registered: bool)
      requires Enabled(View(), Register(e))
      modifies this
      ensures View() == AfterRegister(old(View()), e)
      ensures registered <==> old(entry) == Absent
    {
      registered := entry == Absent;
      if registered {
        entry := Active(e);
        tasks := tasks[e := ResumeRunning];
      } else {
        claim := None;
        tasks := tasks[e := Gone];
      }
    }

    // run_plan: the claim is tried once; without it the cancellation is not recorded.
    method RecordAbortedRun(e: nat, saved: Write) returns (locked: bool)
      requires Enabled(View(), LockRecording(e))
      modifies this
      ensures var mid := AfterLockRecording(old(View()), e);
              View() == if old(claim) == None then AfterRecord(mid, e, saved) else mid
      ensures locked <==> old(claim) == None
      ensures if locked then CancelsRecord(old(record), record, false, saved) else record == old(record)
    {
      locked := claim == None;
      if locked {
        claim := Some(e);
        tasks := tasks[e := NewRecording];
        var _ := CancelRecord(false, saved);
        claim := None;
      }
      tasks := tasks[e := NewRecorded];
    }

    // abort_run, registry section: the sender found is left as a cancelling mark.
    method TakeSender(t: nat) returns (sender: Option<nat>, answered: bool)
      requires Enabled(View(), AbortTake(t))
      modifies this
      ensures View() == AfterAbortTake(old(View()), t)
      ensures sender.Some? <==> old(entry).Active?
      ensures sender.Some? ==> old(entry) == Active(sender.value) && entry == Cancelling
      ensures answered <==> old(entry) == Cancelling
      ensures sender.None? ==> entry == old(entry)
    {
      sender, answered := None, false;
      if entry.Active? {
        sender := Some(entry.exec);
        tasks := tasks[t := AbortSending(entry.exec)];
        entry := Cancelling;
      } else if entry.Cancelling? {
        answered := true;
        tasks := tasks[t := AbortDone(Signalled)];
      } else {
        tasks := tasks[t := AbortInspecting(false)];
      }
    }

    // abort_run, after a failed send.
    method ForgetSender(t: nat)
      requires Enabled(View(), AbortForget(t))
      modifies this
      ensures View() == AfterAbortForget(old(View()), t) && entry == Absent
    {
      RemoveEntry();
      tasks := tasks[t := AbortInspecting(true)];
    }

    // abort_run, without a signal: whether a stored record is a leftover to clean.
    method IsLeftover(t: nat, receiverGone: bool) returns (leftover: bool)
      requires At(View(), t) == AbortInspecting(receiverGone)
      modifies this
      ensures View() == AfterAbortInspect(old(View()), t)
      ensures leftover <==> At(View(), t) == AbortCleaning
    {
      leftover := false;
      if record.Some? && record.value.status.Running? {
        var running := AnyRunning(record.value);
        leftover := receiverGone || !running;
      }
      tasks := tasks[t := if leftover then AbortCleaning else AbortDone(Unavailable)];
    }

    static method AnyRunning(run: Run) returns (any: bool)
      ensures any <==> HasRunningStep(run)
    {
      var todo := run.steps.Keys;
      any := false;
      while todo != {} && !any
        invariant todo <= run.steps.Keys
        invariant any ==> HasRunningStep(run)
        invariant !any ==> forall id | id in run.steps && id !in todo :: !run.steps[id].StepRunning?
        decreases todo
      {
        var id :| id in todo;
        any := run.steps[id].StepRunning?;
        todo := todo - {id};
      }
    }

    // abort_run, cleaning a leftover under the claim.
    method CleanLeftover(t: nat, saved: Write) returns (cleaned: bool)
      requires Enabled(View(), AbortClaim(t))
      modifies this
      ensures var mid := AfterAbortClaim(old(View()), t);
              View() == if old(claim) == None then AfterAbortRecord(mid, t, saved) else mid
      ensures cleaned <==> old(claim) == None && CancelSucceeds(old(View()), false, saved)
      ensures if old(claim) == None then CancelsRecord(old(record), record, false, saved) else record == old(record)
    {
      cleaned := false;
      if claim == None {
        claim := Some(t);
        tasks := tasks[t := AbortRecording];
        assert View() == AfterAbortClaim(old(View()), t);
        cleaned := CancelRecord(false, saved);
        claim := None;
        tasks := tasks[t := AbortDone(if cleaned then Cleaned else AbortFailed)];
      } else {
        tasks := tasks[t := AbortDone(AbortFailed)];
      }
    }

    // delete_run, with the registry locked from the first line to the last.
    method DeleteRun(t: nat) returns (deleted: bool)
      requires Enabled(View(), DeleteEnter(t))
      modifies this
      ensures var entered := AfterDeleteEnter(old(View()), t);
              View() == if old(entry) != Absent then entered
                        else if old(claim) != None then AfterDeleteClaim(entered, t)
                        else AfterDeleteRecord(AfterDeleteClaim(entered, t), t)
      ensures deleted <==> old(record).Some? && !old(record).value.status.Running?
                           && old(entry) == Absent && old(claim) == None
      ensures record == if deleted then None else old(record)
    {
      deleted := false;
      if entry != Absent {
        tasks := tasks[t := DeleteDone(false)];
        return;
      }
      mutex := Some(t);
      tasks := tasks[t := DeleteEntered];
      if claim != None {
        mutex := None;
        tasks := tasks[t := DeleteDone(false)];
        return;
      }
      claim := Some(t);
      tasks := tasks[t := DeleteClaimed];
      deleted := DeleteClaimedRecord(t);
    }

    method DeleteClaimedRecord(t: nat) returns (deleted: bool)
      requires Enabled(View(), DeleteRecord(t))
      modifies this
      ensures View() == AfterDeleteRecord(old(View()), t)
      ensures deleted <==> old(record).Some? && !old(record).value.status.Running?
      ensures record == if deleted then None else old(record)
    {
      deleted := record.Some? && !record.value.status.Running?;
      if deleted {
        record := None;
      }
      claim, mutex := None, None;
      tasks := tasks[t := DeleteDone(deleted)];
    }
  }
}
