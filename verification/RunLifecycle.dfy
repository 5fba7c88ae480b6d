/** One run under every interleaving of execution, resume, abort and delete.

    The shared state is the stored record, the cancellation registry with its mutex, and the
    run's lifecycle claim (an exclusive lock that every contender only tries to take). Each
    step is one section of the source between two points where other tasks may run. */
module RunLifecycle {
  import opened Wrappers

  // ---------- The record ----------

  datatype StepStatus =
    StepPending | StepRunning | StepSucceeded | StepFailed | StepSkipped | StepCancelled | StepWaiting | StepUnknown

  datatype RunStatus = Running | Succeeded | Failed(stepId: string) | WaitingForHuman(stepId: string) | Cancelled

  datatype Run = Run(status: RunStatus, steps: map<string, StepStatus>)

  predicate IsOpen(status: StepStatus) {
    status.StepPending? || status.StepRunning? || status.StepWaiting?
  }

  predicate HasOpenStep(run: Run) {
    exists id :: id in run.steps && IsOpen(run.steps[id])
  }

  predicate HasRunningStep(run: Run) {
    exists id :: id in run.steps && run.steps[id].StepRunning?
  }

  function CloseSteps(steps: map<string, StepStatus>): map<string, StepStatus> {
    map id | id in steps :: if IsOpen(steps[id]) then StepCancelled else steps[id]
  }

  // A cancellation leaves these records alone.
  predicate KeptByCancel(status: RunStatus, cancelFailed: bool) {
    status.Succeeded? || status.Cancelled? || (!cancelFailed && status.Failed?)
  }

  function MarkCancelled(run: Run, cancelFailed: bool): Run {
    if KeptByCancel(run.status, cancelFailed) then run else Run(Cancelled, CloseSteps(run.steps))
  }

  // A cancelled record step by step: what was pending, running or waiting is cancelled, and
  // whatever came to an end is as it was.
  ghost predicate CancelledFrom(before: Run, after: Run) {
    && after.status == Cancelled && after.steps.Keys == before.steps.Keys
    && forall id | id in before.steps ::
         match before.steps[id]
         case StepPending => after.steps[id] == StepCancelled
         case StepRunning => after.steps[id] == StepCancelled
         case StepWaiting => after.steps[id] == StepCancelled
         case ended => after.steps[id] == ended
  }

  // A succeeded or cancelled record stays, and a failed one unless its resume is aborted.
  ghost predicate MarkedFrom(before: Run, after: Run, cancelFailed: bool) {
    match before.status
    case Succeeded => after == before
    case Cancelled => after == before
    case Failed(_) => if cancelFailed then CancelledFrom(before, after) else after == before
    case Running => CancelledFrom(before, after)
    case WaitingForHuman(_) => CancelledFrom(before, after)
  }

  method MarkRunCancelledInner(stored: Run, cancelFailed: bool) returns (run: Run)
    ensures run == MarkCancelled(stored, cancelFailed)
    ensures MarkedFrom(stored, run, cancelFailed)
  {
    run := stored;
    if run.status.Succeeded? || run.status.Cancelled? || (!cancelFailed && run.status.Failed?) {
      return;
    }
    var todo := run.steps.Keys;
    while todo != {}
      invariant todo <= run.steps.Keys == stored.steps.Keys
      invariant run.status == stored.status
      invariant forall id | id in stored.steps ::
        run.steps[id] == if id in todo then stored.steps[id] else CloseSteps(stored.steps)[id]
      decreases todo
    {
      var id :| id in todo;
      if IsOpen(run.steps[id]) {
        run := run.(steps := run.steps[id := StepCancelled]);
      }
      todo := todo - {id};
    }
    assert run.steps == CloseSteps(stored.steps);
    run := run.(status := Cancelled);
  }

  // What a cancellation writes: which records it leaves alone, and what it makes of each step
  // of the others, which have no open step then.
  lemma MarkClosesSteps(run: Run, cancelFailed: bool)
    ensures var marked := MarkCancelled(run, cancelFailed);
            && MarkedFrom(run, marked, cancelFailed)
            && (!KeptByCancel(run.status, cancelFailed) ==> CancelledFrom(run, marked) && !HasOpenStep(marked))
  {}

  // The record the executor saves when the operator rejects an approval.
  function Rejected(run: Run, stepId: string): Run
    requires stepId in run.steps
  {
    Run(Cancelled, run.steps[stepId := StepFailed])
  }

  // A rejected approval stores Cancelled without closing the other steps.
  lemma RejectionKeepsOpenSteps(run: Run, stepId: string)
    requires stepId in run.steps
    ensures !HasOpenStep(Rejected(run, stepId))
       <==> forall id | id in run.steps && id != stepId :: !IsOpen(run.steps[id])
  {
    var rejected := Rejected(run, stepId);
    if id :| id in run.steps && id != stepId && IsOpen(run.steps[id]) {
      assert id in rejected.steps && IsOpen(rejected.steps[id]);
    }
  }

  lemma RejectionExample()
    ensures var run := Run(Running, map["ask" := StepWaiting, "send" := StepPending]);
            && Rejected(run, "ask") == Run(Cancelled, map["ask" := StepFailed, "send" := StepPending])
            && HasOpenStep(Rejected(run, "ask"))
  {
    var rejected := Rejected(Run(Running, map["ask" := StepWaiting, "send" := StepPending]), "ask");
    assert "send" in rejected.steps && IsOpen(rejected.steps["send"]);
  }

  // ---------- Tasks ----------

  datatype AbortOutcome = Signalled | Cleaned | Unavailable | AbortFailed

  // Control points of the tasks that meet on the run. A new run gives up its claim when its
  // executor ends; a resume keeps it to the end of the call. Executions from the MCP server
  // never register. An execution that is Gone, at its end or by a panic, has dropped its
  // cancellation receiver.
  datatype Task =
    | NotStarted
    | NewRunning(announced: bool) | NewReturned | NewAborted | NewRecording | NewRecorded | NewDone
    | ResumeClaimed | ResumeReady | ResumeRunning | ResumeReturned | ResumeAborted | ResumeRecorded | ResumeClosing
    | McpClaimed | McpRunning
    | Gone
    | AbortSending(exec: nat) | AbortForgetting | AbortInspecting(receiverGone: bool) | AbortCleaning | AbortRecording
    | AbortDone(outcome: AbortOutcome)
    | DeleteEntered | DeleteClaimed | DeleteDone(deleted: bool)

  // The registry's entry for the run: none, the sender of a live execution, or a taken sender.
  datatype Entry = Absent | Active(exec: nat) | Cancelling

  // Who wrote the record last.
  datatype Writer = Executor | Canceller

  // born: the record has existed. mutex: who keeps the registry locked.
  // claim: who holds the lifecycle claim. signalled, hungUp: the executions whose
  // cancellation sender was fired, or dropped unfired.
  datatype State = State(
    record: Option<Run>,
    writer: Writer,
    born: bool,
    entry: Entry,
    mutex: Option<nat>,
    claim: Option<nat>,
    tasks: map<nat, Task>,
    signalled: set<nat>,
    hungUp: set<nat>)

  function At(s: State, t: nat): Task {
    if t in s.tasks then s.tasks[t] else NotStarted
  }

  function Move(s: State, t: nat, p: Task): State {
    s.(tasks := s.tasks[t := p])
  }

  // An execution on its way, at whatever point.
  predicate IsExecution(p: Task) {
    || p.NewRunning? || p.NewReturned? || p.NewAborted? || p.NewRecording? || p.NewRecorded? || p.NewDone?
    || p.ResumeClaimed? || p.ResumeReady? || p.ResumeRunning? || p.ResumeReturned? || p.ResumeAborted?
    || p.ResumeRecorded? || p.ResumeClosing? || p.McpClaimed? || p.McpRunning?
  }

  // The executor runs and may save checkpoints.
  predicate InExecutor(p: Task) {
    p.NewRunning? || p.ResumeRunning? || p.McpRunning?
  }

  predicate HoldsClaim(p: Task) {
    InExecutor(p) || p.NewRecording? || p.ResumeClaimed? || p.ResumeReady?
    || p.ResumeReturned? || p.ResumeAborted? || p.ResumeRecorded? || p.ResumeClosing?
    || p.McpClaimed? || p.AbortRecording? || p.DeleteClaimed?
  }

  predicate HoldsMutex(p: Task) {
    p.DeleteEntered? || p.DeleteClaimed?
  }

  // ---------- Steps ----------

  datatype Step =
    | StartNew(task: nat, run: Run)
    | Announce(task: nat)
    | Save(task: nat, run: Run)
    | Return(task: nat)
    | Remove(task: nat)
    | Exit(task: nat)
    | Panic(task: nat)
    | BreakOff(task: nat)
    | LockRecording(task: nat)
    | Record(task: nat, saved: Write)
    | ClaimResume(task: nat)
    | CheckResume(task: nat, accepted: bool)
    | Register(task: nat)
    | ClaimMcp(task: nat)
    | CheckMcp(task: nat, accepted: bool)
    | AbortTake(task: nat)
    | AbortSend(task: nat)
    | AbortForget(task: nat)
    | AbortInspect(task: nat)
    | AbortClaim(task: nat)
    | AbortRecord(task: nat, saved: Write)
    | DeleteEnter(task: nat)
    | DeleteClaim(task: nat)
    | DeleteRecord(task: nat)

  predicate Enabled(s: State, step: Step) {
    match step
    case StartNew(e, run) =>
      !s.born && s.claim == None && At(s, e) == NotStarted
      && run.status == Running && forall id | id in run.steps :: run.steps[id] == StepPending
    case Announce(e) => At(s, e) == NewRunning(false) && s.mutex == None
    case Save(e, _) => InExecutor(At(s, e))
    case Return(e) => InExecutor(At(s, e))
    case Remove(e) =>
      s.mutex == None
      && (var p := At(s, e); p.NewReturned? || p.NewRecorded? || p.ResumeReturned? || p.ResumeRecorded?)
    case Exit(e) => At(s, e) == NewDone || At(s, e) == ResumeClosing
    case Panic(e) => IsExecution(At(s, e))
    case BreakOff(e) =>
      (At(s, e).NewRunning? || At(s, e).ResumeRunning?) && (e in s.signalled || e in s.hungUp)
    case LockRecording(e) => At(s, e) == NewAborted
    case Record(e, _) => At(s, e) == NewRecording || At(s, e) == ResumeAborted
    case ClaimResume(e) => At(s, e) == NotStarted && s.claim == None
    case CheckResume(e, _) => At(s, e) == ResumeClaimed
    case Register(e) => At(s, e) == ResumeReady && s.mutex == None
    case ClaimMcp(e) => At(s, e) == NotStarted && s.claim == None
    case CheckMcp(e, _) => At(s, e) == McpClaimed
    case AbortTake(t) => At(s, t) == NotStarted && s.mutex == None
    case AbortSend(t) => At(s, t).AbortSending?
    case AbortForget(t) => At(s, t).AbortForgetting? && s.mutex == None
    case AbortInspect(t) => At(s, t).AbortInspecting?
    case AbortClaim(t) => At(s, t).AbortCleaning?
    case AbortRecord(t, _) => At(s, t).AbortRecording?
    case DeleteEnter(t) => At(s, t) == NotStarted && s.mutex == None
    case DeleteClaim(t) => At(s, t) == DeleteEntered
    case DeleteRecord(t) => At(s, t) == DeleteClaimed
  }

  // Removing an entry drops a sender that is still in it, which its receiver notices.
  function DropEntry(s: State): State {
    s.(entry := Absent, hungUp := if s.entry.Active? then s.hungUp + {s.entry.exec} else s.hungUp)
  }

  // Loading, marking and saving under the claim; a failed load or save changes nothing, one
  // that only reports a failure stores the marked record.
  function Cancel(s: State, cancelFailed: bool, saved: Write): State {
    if s.record.Some? && !saved.Unwritten? && !KeptByCancel(s.record.value.status, cancelFailed) then
      s.(record := Some(MarkCancelled(s.record.value, cancelFailed)), writer := Canceller)
    else s
  }

  // Whether that succeeds; a record that is kept is not saved again.
  predicate CancelSucceeds(s: State, cancelFailed: bool, saved: Write) {
    s.record.Some? && (saved.Written? || (saved.Unreported? && KeptByCancel(s.record.value.status, cancelFailed)))
  }

  function AfterStartNew(s: State, e: nat, run: Run): State {
    Move(s, e, NewRunning(false)).(record := Some(run), writer := Executor, born := true, claim := Some(e))
  }

  function AfterAnnounce(s: State, e: nat): State {
    Move(s, e, NewRunning(true)).(entry := Active(e))
  }

  function AfterSave(s: State, e: nat, run: Run): State {
    s.(record := Some(run), writer := Executor)
  }

  function AfterReturn(s: State, e: nat): State {
    match At(s, e)
     case NewRunning(announced) => Move(s, e, if announced then NewReturned else NewDone).(claim := None)
     case McpRunning => Move(s, e, Gone).(claim := None)
     case _ => Move(s, e, ResumeReturned)
  }

  function AfterRemove(s: State, e: nat): State {
    Move(DropEntry(s), e, if At(s, e).NewReturned? || At(s, e).NewRecorded? then NewDone else ResumeClosing)
  }

  function AfterExit(s: State, e: nat): State {
    if At(s, e).ResumeClosing? then Move(s, e, Gone).(claim := None) else Move(s, e, Gone)
  }

  // Unwinding drops the receiver and frees the claim, and nothing removes the entry.
  function AfterPanic(s: State, e: nat): State {
    Move(s, e, Gone).(claim := if HoldsClaim(At(s, e)) then None else s.claim)
  }

  function AfterBreakOff(s: State, e: nat): State {
    if At(s, e).ResumeRunning? then Move(s, e, ResumeAborted) else Move(s, e, NewAborted).(claim := None)
  }

  function AfterLockRecording(s: State, e: nat): State {
    if s.claim == None then Move(s, e, NewRecording).(claim := Some(e)) else Move(s, e, NewRecorded)
  }

  function AfterRecord(s: State, e: nat, saved: Write): State {
    if At(s, e).ResumeAborted? then Move(Cancel(s, true, saved), e, ResumeRecorded)
    else Move(Cancel(s, false, saved), e, NewRecorded).(claim := None)
  }

  function AfterClaimResume(s: State, e: nat): State {
    Move(s, e, ResumeClaimed).(claim := Some(e))
  }

  function AfterCheckResume(s: State, e: nat, accepted: bool): State {
    if s.record.Some? && s.record.value.status.Failed? && accepted then Move(s, e, ResumeReady)
    else Move(s, e, Gone).(claim := None)
  }

  function AfterRegister(s: State, e: nat): State {
    if s.entry == Absent then Move(s, e, ResumeRunning).(entry := Active(e))
    else Move(s, e, Gone).(claim := None)
  }

  function AfterClaimMcp(s: State, e: nat): State {
    Move(s, e, McpClaimed).(claim := Some(e))
  }

  // Over MCP a failed run is resumed, or one that waits for an answer continued.
  function AfterCheckMcp(s: State, e: nat, accepted: bool): State {
    if s.record.Some? && (s.record.value.status.Failed? || s.record.value.status.WaitingForHuman?) && accepted
    then Move(s, e, McpRunning)
    else Move(s, e, Gone).(claim := None)
  }

  function AfterAbortTake(s: State, t: nat): State {
    match s.entry
     case Active(e) => Move(s, t, AbortSending(e)).(entry := Cancelling)
     case Cancelling => Move(s, t, AbortDone(Signalled))
     case Absent => Move(s, t, AbortInspecting(false))
  }

  function AfterAbortSend(s: State, t: nat): State {
    var e := if At(s, t).AbortSending? then At(s, t).exec else 0;
    if At(s, e) != Gone then Move(s, t, AbortDone(Signalled)).(signalled := s.signalled + {e})
    else Move(s, t, AbortForgetting)
  }

  function AfterAbortForget(s: State, t: nat): State {
    Move(DropEntry(s), t, AbortInspecting(true))
  }

  function AfterAbortInspect(s: State, t: nat): State {
    var gone := At(s, t).AbortInspecting? && At(s, t).receiverGone;
    if s.record.Some? && s.record.value.status.Running? && (gone || !HasRunningStep(s.record.value))
    then Move(s, t, AbortCleaning)
    else Move(s, t, AbortDone(Unavailable))
  }

  function AfterAbortClaim(s: State, t: nat): State {
    if s.claim == None then Move(s, t, AbortRecording).(claim := Some(t))
    else Move(s, t, AbortDone(AbortFailed))
  }

  function AfterAbortRecord(s: State, t: nat, saved: Write): State {
    var done := if CancelSucceeds(s, false, saved) then Cleaned else AbortFailed;
    Move(Cancel(s, false, saved), t, AbortDone(done)).(claim := None)
  }

  function AfterDeleteEnter(s: State, t: nat): State {
    if s.entry == Absent then Move(s, t, DeleteEntered).(mutex := Some(t))
    else Move(s, t, DeleteDone(false))
  }

  function AfterDeleteClaim(s: State, t: nat): State {
    if s.claim == None then Move(s, t, DeleteClaimed).(claim := Some(t))
    else Move(s, t, DeleteDone(false)).(mutex := None)
  }

  function AfterDeleteRecord(s: State, t: nat): State {
    var released := s.(claim := None, mutex := None);
    if s.record.Some? && !s.record.value.status.Running? then Move(released, t, DeleteDone(true)).(record := None)
    else Move(released, t, DeleteDone(false))
  }

  function After(s: State, step: Step): State {
    match step
    case StartNew(e, run) => AfterStartNew(s, e, run)
    case Announce(e) => AfterAnnounce(s, e)
    case Save(e, run) => AfterSave(s, e, run)
    case Return(e) => AfterReturn(s, e)
    case Remove(e) => AfterRemove(s, e)
    case Exit(e) => AfterExit(s, e)
    case Panic(e) => AfterPanic(s, e)
    case BreakOff(e) => AfterBreakOff(s, e)
    case LockRecording(e) => AfterLockRecording(s, e)
    case Record(e, saved) => AfterRecord(s, e, saved)
    case ClaimResume(e) => AfterClaimResume(s, e)
    case CheckResume(e, accepted) => AfterCheckResume(s, e, accepted)
    case Register(e) => AfterRegister(s, e)
    case ClaimMcp(e) => AfterClaimMcp(s, e)
    case CheckMcp(e, accepted) => AfterCheckMcp(s, e, accepted)
    case AbortTake(t) => AfterAbortTake(s, t)
    case AbortSend(t) => AfterAbortSend(s, t)
    case AbortForget(t) => AfterAbortForget(s, t)
    case AbortInspect(t) => AfterAbortInspect(s, t)
    case AbortClaim(t) => AfterAbortClaim(s, t)
    case AbortRecord(t, saved) => AfterAbortRecord(s, t, saved)
    case DeleteEnter(t) => AfterDeleteEnter(s, t)
    case DeleteClaim(t) => AfterDeleteClaim(s, t)
    case DeleteRecord(t) => AfterDeleteRecord(s, t)
  }

  // ---------- Invariant ----------

  // The claim and the mutex are held by exactly the tasks whose control points say so.
  ghost predicate LocksMatch(s: State) {
    && (forall t: nat :: HoldsClaim(At(s, t)) <==> s.claim == Some(t))
    && (forall t: nat :: HoldsMutex(At(s, t)) <==> s.mutex == Some(t))
    && (s.mutex.Some? ==> s.entry == Absent)
  }

  // A new run whose registry entry, if announced, is still to be removed.
  predicate NewActive(p: Task) {
    p.NewRunning? || p.NewReturned? || p.NewAborted? || p.NewRecording? || p.NewRecorded?
  }

  // A resume that has registered.
  predicate ResumeRegistered(p: Task) {
    p.ResumeRunning? || p.ResumeReturned? || p.ResumeAborted? || p.ResumeRecorded?
  }

  // What a task can be before the run exists.
  predicate Unborn(p: Task) {
    || p.NotStarted? || p.ResumeClaimed? || p.McpClaimed? || p.Gone? || p.AbortInspecting? || p.AbortDone?
    || p.DeleteEntered? || p.DeleteClaimed? || p.DeleteDone?
  }

  // Before the run exists only refused calls have met it, and only started executions
  // have a sender anywhere.
  ghost predicate BirthMatches(s: State) {
    && (s.record.Some? ==> s.born)
    && (!s.born ==> s.entry == Absent && forall t: nat :: Unborn(At(s, t)))
    && (forall e: nat | e in s.signalled || e in s.hungUp :: !At(s, e).NotStarted?)
    && (forall t: nat :: At(s, t).AbortSending? ==> !At(s, At(s, t).exec).NotStarted?)
    && (s.entry.Active? ==> !At(s, s.entry.exec).NotStarted?)
  }

  predicate EntryOfNewRun(p: Task, entry: Entry, e: nat) {
    if p == NewRunning(false) then entry == Absent
    else if p == NewRunning(true) || p == NewReturned then entry == Active(e) || entry == Cancelling
    else entry == Cancelling
  }

  // While the new run is active nobody else has a sender or removes its entry, and an abort
  // that took its sender left the cancelling mark.
  ghost predicate NewRunGuarded(s: State, e: nat) {
    && (forall t: nat | t != e :: !NewActive(At(s, t)) && !ResumeRegistered(At(s, t)) && !At(s, t).AbortForgetting?)
    && (forall t: nat :: At(s, t).AbortSending? ==> At(s, t).exec == e && s.entry == Cancelling)
    && e !in s.hungUp
    && (e in s.signalled ==> s.entry == Cancelling)
    && EntryOfNewRun(At(s, e), s.entry, e)
  }

  ghost predicate NewRunsGuarded(s: State) {
    forall e: nat | NewActive(At(s, e)) :: NewRunGuarded(s, e)
  }

  // A record last written by a cancellation is a closed one.
  ghost predicate CancellationsClosed(s: State) {
    s.record.Some? && s.writer.Canceller? ==> s.record.value.status == Cancelled && !HasOpenStep(s.record.value)
  }

  ghost predicate Inv(s: State) {
    LocksMatch(s) && BirthMatches(s) && NewRunsGuarded(s) && CancellationsClosed(s)
  }

  // A process start: any stored record, nothing in flight.
  ghost predicate Init(s: State) {
    && (s.born <==> s.record.Some?) && s.writer == Executor
    && s.entry == Absent && s.mutex == None && s.claim == None
    && s.tasks == map[] && s.signalled == {} && s.hungUp == {}
  }

  lemma InitInv(s: State)
    requires Init(s)
    ensures Inv(s)
  {}

  // A control point that is neither in the new run's active part nor holds a sender.
  predicate Quiet(p: Task) {
    !NewActive(p) && !p.AbortForgetting? && !p.AbortSending? && !p.NotStarted?
  }

  // A task may move to a quiet control point while it keeps, takes or gives up the claim.
  lemma QuietMove(s: State, t: nat, p: Task, claim: Option<nat>)
    requires Inv(s)
    requires Quiet(p) && (s.born || Unborn(p)) && (ResumeRegistered(p) ==> ResumeRegistered(At(s, t)))
    requires HoldsMutex(p) <==> HoldsMutex(At(s, t))
    requires if HoldsClaim(p) then claim == Some(t) && (s.claim == None || s.claim == claim)
             else claim == if s.claim == Some(t) then None else s.claim
    ensures Inv(Move(s, t, p).(claim := claim))
  {
    var s' := Move(s, t, p).(claim := claim);
    QuietLocks(s, t, p, claim);
    QuietGuards(s, t, p, claim, s.mutex);
    assert BirthMatches(s') by {
      assert forall x: nat :: At(s', x) == if x == t then p else At(s, x);
    }
    hide LocksMatch, BirthMatches, NewRunsGuarded, HasOpenStep;
    assert CancellationsClosed(s');
  }

  lemma QuietLocks(s: State, t: nat, p: Task, claim: Option<nat>)
    requires LocksMatch(s)
    requires HoldsMutex(p) <==> HoldsMutex(At(s, t))
    requires if HoldsClaim(p) then claim == Some(t) && (s.claim == None || s.claim == claim)
             else claim == if s.claim == Some(t) then None else s.claim
    ensures LocksMatch(Move(s, t, p).(claim := claim))
  {
    var s' := Move(s, t, p).(claim := claim);
    assert HoldsClaim(At(s, t)) <==> s.claim == Some(t);
    assert forall x: nat :: At(s', x) == if x == t then p else At(s, x);
    hide HoldsClaim, HoldsMutex, At;
  }

  lemma QuietGuards(s: State, t: nat, p: Task, claim: Option<nat>, mutex: Option<nat>)
    requires NewRunsGuarded(s) && Quiet(p) && (ResumeRegistered(p) ==> ResumeRegistered(At(s, t)))
    ensures NewRunsGuarded(Move(s, t, p).(claim := claim, mutex := mutex))
  {
    var s' := Move(s, t, p).(claim := claim, mutex := mutex);
    assert forall x: nat :: At(s', x) == if x == t then p else At(s, x);
    hide At;
    forall e: nat | NewActive(At(s', e))
      ensures NewRunGuarded(s', e)
    {
      assert NewRunGuarded(s, e);
    }
  }

  lemma CancelInv(s: State, cancelFailed: bool, saved: Write)
    requires Inv(s)
    ensures Inv(Cancel(s, cancelFailed, saved))
  {
    if s.record.Some? && !KeptByCancel(s.record.value.status, cancelFailed) {
      MarkClosesSteps(s.record.value, cancelFailed);
    }
    hide HasOpenStep, MarkCancelled;
    var s' := Cancel(s, cancelFailed, saved);
    assert forall x: nat :: At(s', x) == At(s, x);
    assert LocksMatch(s') && BirthMatches(s') && CancellationsClosed(s');
    forall e: nat | NewActive(At(s', e))
      ensures NewRunGuarded(s', e)
    {
      assert NewRunGuarded(s, e);
    }
    assert Inv(s');
  }

  lemma StartNewInv(s: State, e: nat, run: Run)
    requires Inv(s) && Enabled(s, StartNew(e, run))
    ensures Inv(AfterStartNew(s, e, run))
  {}

  lemma AnnounceInv(s: State, e: nat)
    requires Inv(s) && Enabled(s, Announce(e))
    ensures Inv(AfterAnnounce(s, e))
  {}

  lemma SaveInv(s: State, e: nat, run: Run)
    requires Inv(s) && Enabled(s, Save(e, run))
    ensures Inv(AfterSave(s, e, run))
  {}

  lemma ReturnInv(s: State, e: nat)
    requires Inv(s) && Enabled(s, Return(e))
    ensures Inv(AfterReturn(s, e))
  {
    assert HoldsClaim(At(s, e));
    if At(s, e) == NewRunning(true) {
      ReturnAnnouncedInv(s, e);
    } else if At(s, e).NewRunning? {
      QuietMove(s, e, NewDone, None);
    } else if At(s, e).McpRunning? {
      QuietMove(s, e, Gone, None);
    } else {
      QuietMove(s, e, ResumeReturned, s.claim);
    }
  }

  lemma ReturnAnnouncedInv(s: State, e: nat)
    requires Inv(s) && At(s, e) == NewRunning(true)
    ensures Inv(Move(s, e, NewReturned).(claim := None))
  {}

  lemma RemoveInv(s: State, e: nat)
    requires Inv(s) && Enabled(s, Remove(e))
    ensures Inv(AfterRemove(s, e))
  {}

  lemma ExitInv(s: State, e: nat)
    requires Inv(s) && Enabled(s, Exit(e))
    ensures Inv(AfterExit(s, e))
  {
    QuietMove(s, e, Gone, if At(s, e).ResumeClosing? then None else s.claim);
  }

  lemma PanicInv(s: State, e: nat)
    requires Inv(s) && Enabled(s, Panic(e))
    ensures Inv(AfterPanic(s, e))
  {
    assert HoldsClaim(At(s, e)) <==> s.claim == Some(e);
    QuietMove(s, e, Gone, if HoldsClaim(At(s, e)) then None else s.claim);
  }

  lemma BreakOffInv(s: State, e: nat)
    requires Inv(s) && Enabled(s, BreakOff(e))
    ensures Inv(AfterBreakOff(s, e))
  {}

  lemma LockRecordingInv(s: State, e: nat)
    requires Inv(s) && Enabled(s, LockRecording(e))
    ensures Inv(AfterLockRecording(s, e))
  {}

  lemma RecordInv(s: State, e: nat, saved: Write)
    requires Inv(s) && Enabled(s, Record(e, saved))
    ensures Inv(AfterRecord(s, e, saved))
  {
    hide Cancel;
    CancelKeepsTasks(s, At(s, e).ResumeAborted?, saved);
    CancelInv(s, At(s, e).ResumeAborted?, saved);
    var c := Cancel(s, At(s, e).ResumeAborted?, saved);
    if At(s, e).ResumeAborted? {
      QuietMove(c, e, ResumeRecorded, s.claim);
    } else {
      NewRecordedInv(c, e);
    }
  }

  // Marking never touches anything but the record.
  lemma CancelTouchesRecord(s: State)
    ensures forall cancelFailed: bool, saved: Write :: var c := Cancel(s, cancelFailed, saved);
      c == s.(record := c.record, writer := c.writer) && (c.record.Some? <==> s.record.Some?)
  {
    hide MarkCancelled;
  }

  lemma CancelKeepsTasks(s: State, cancelFailed: bool, saved: Write)
    ensures var c := Cancel(s, cancelFailed, saved);
            c == s.(record := c.record, writer := c.writer) && (c.record.Some? <==> s.record.Some?)
  {}

  lemma NewRecordedInv(s: State, e: nat)
    requires Inv(s) && At(s, e) == NewRecording
    ensures Inv(Move(s, e, NewRecorded).(claim := None))
  {}

  lemma ClaimResumeInv(s: State, e: nat)
    requires Inv(s) && Enabled(s, ClaimResume(e))
    ensures Inv(AfterClaimResume(s, e))
  {
    QuietMove(s, e, ResumeClaimed, Some(e));
  }

  lemma CheckResumeInv(s: State, e: nat, accepted: bool)
    requires Inv(s) && Enabled(s, CheckResume(e, accepted))
    ensures Inv(AfterCheckResume(s, e, accepted))
  {
    assert HoldsClaim(At(s, e));
    if s.record.Some? {
      QuietMove(s, e, ResumeReady, s.claim);
    }
    QuietMove(s, e, Gone, None);
  }

  lemma RegisterInv(s: State, e: nat)
    requires Inv(s) && Enabled(s, Register(e))
    ensures Inv(AfterRegister(s, e))
  {}

  lemma CheckMcpInv(s: State, e: nat, accepted: bool)
    requires Inv(s) && Enabled(s, CheckMcp(e, accepted))
    ensures Inv(AfterCheckMcp(s, e, accepted))
  {
    assert HoldsClaim(At(s, e));
    if AfterCheckMcp(s, e, accepted).claim == None {
      QuietMove(s, e, Gone, None);
    } else {
      QuietMove(s, e, McpRunning, Some(e));
    }
  }

  lemma ClaimMcpInv(s: State, e: nat)
    requires Inv(s) && Enabled(s, ClaimMcp(e))
    ensures Inv(AfterClaimMcp(s, e))
  {
    QuietMove(s, e, McpClaimed, Some(e));
  }

  lemma AbortTakeInv(s: State, t: nat)
    requires Inv(s) && Enabled(s, AbortTake(t))
    ensures Inv(AfterAbortTake(s, t))
  {
    if s.entry.Active? {
      AbortTakeActiveInv(s, t);
    } else {
      QuietMove(s, t, if s.entry.Cancelling? then AbortDone(Signalled) else AbortInspecting(false), s.claim);
    }
  }

  lemma AbortTakeActiveInv(s: State, t: nat)
    requires Inv(s) && Enabled(s, AbortTake(t)) && s.entry.Active?
    ensures Inv(Move(s, t, AbortSending(s.entry.exec)).(entry := Cancelling))
  {}

  lemma AbortSendInv(s: State, t: nat)
    requires Inv(s) && Enabled(s, AbortSend(t))
    ensures Inv(AfterAbortSend(s, t))
  {
    var e := At(s, t).exec;
    if At(s, e) == Gone {
      AbortMissedInv(s, t);
    } else {
      SignalInv(s, t);
    }
  }

  lemma SignalInv(s: State, t: nat)
    requires Inv(s) && At(s, t).AbortSending?
    ensures Inv(Move(s, t, AbortDone(Signalled)).(signalled := s.signalled + {At(s, t).exec}))
  {
    QuietMove(s, t, AbortDone(Signalled), s.claim);
  }

  lemma AbortMissedInv(s: State, t: nat)
    requires Inv(s) && At(s, t).AbortSending? && At(s, At(s, t).exec) == Gone
    ensures Inv(Move(s, t, AbortForgetting))
  {}

  lemma AbortForgetInv(s: State, t: nat)
    requires Inv(s) && Enabled(s, AbortForget(t))
    ensures Inv(AfterAbortForget(s, t))
  {}

  lemma AbortInspectInv(s: State, t: nat)
    requires Inv(s) && Enabled(s, AbortInspect(t))
    ensures Inv(AfterAbortInspect(s, t))
  {
    hide HasRunningStep;
    if s.record.Some? {
      QuietMove(s, t, AbortCleaning, s.claim);
    }
    QuietMove(s, t, AbortDone(Unavailable), s.claim);
  }

  lemma AbortClaimInv(s: State, t: nat)
    requires Inv(s) && Enabled(s, AbortClaim(t))
    ensures Inv(AfterAbortClaim(s, t))
  {
    assert s.born;
    QuietMove(s, t, if s.claim == None then AbortRecording else AbortDone(AbortFailed),
              if s.claim == None then Some(t) else s.claim);
  }

  lemma AbortRecordInv(s: State, t: nat, saved: Write)
    requires Inv(s) && Enabled(s, AbortRecord(t, saved))
    ensures Inv(AfterAbortRecord(s, t, saved))
  {
    hide Cancel;
    assert HoldsClaim(At(s, t));
    CancelKeepsTasks(s, false, saved);
    CancelInv(s, false, saved);
    QuietMove(Cancel(s, false, saved), t,
              AbortDone(if CancelSucceeds(s, false, saved) then Cleaned else AbortFailed), None);
  }

  lemma DeleteEnterInv(s: State, t: nat)
    requires Inv(s) && Enabled(s, DeleteEnter(t))
    ensures Inv(AfterDeleteEnter(s, t))
  {
    if s.entry == Absent {
      DeleteEnteredInv(s, t);
    } else {
      QuietMove(s, t, DeleteDone(false), s.claim);
    }
  }

  lemma DeleteEnteredInv(s: State, t: nat)
    requires Inv(s) && Enabled(s, DeleteEnter(t)) && s.entry == Absent
    ensures Inv(Move(s, t, DeleteEntered).(mutex := Some(t)))
  {
    var s' := Move(s, t, DeleteEntered).(mutex := Some(t));
    DeleteEnteredLocks(s, t);
    QuietGuards(s, t, DeleteEntered, s.claim, s'.mutex);
    hide LocksMatch, NewRunsGuarded, HasOpenStep;
  }

  lemma DeleteEnteredLocks(s: State, t: nat)
    requires LocksMatch(s) && Enabled(s, DeleteEnter(t)) && s.entry == Absent
    ensures LocksMatch(Move(s, t, DeleteEntered).(mutex := Some(t)))
  {
    assert !HoldsClaim(At(s, t));
    assert forall x: nat :: At(Move(s, t, DeleteEntered), x) == if x == t then DeleteEntered else At(s, x);
    hide At;
  }

  lemma DeleteClaimInv(s: State, t: nat)
    requires Inv(s) && Enabled(s, DeleteClaim(t))
    ensures Inv(AfterDeleteClaim(s, t))
  {
    if s.claim == None {
      QuietMove(s, t, DeleteClaimed, Some(t));
    } else {
      DeleteRefusedInv(s, t, s.claim);
    }
  }

  // Leaving a deletion frees the registry and, when held, the claim.
  lemma DeleteRefusedInv(s: State, t: nat, claim: Option<nat>)
    requires Inv(s) && HoldsMutex(At(s, t))
    requires claim == if HoldsClaim(At(s, t)) then None else s.claim
    ensures Inv(Move(s, t, DeleteDone(false)).(claim := claim, mutex := None))
  {}

  lemma DeleteRecordInv(s: State, t: nat)
    requires Inv(s) && Enabled(s, DeleteRecord(t))
    ensures Inv(AfterDeleteRecord(s, t))
  {
    if s.record.Some? && !s.record.value.status.Running? {
      DeletedInv(s, t);
    } else {
      DeleteRefusedInv(s, t, None);
    }
  }

  lemma DeletedInv(s: State, t: nat)
    requires Inv(s) && At(s, t) == DeleteClaimed
    ensures Inv(Move(s, t, DeleteDone(true)).(claim := None, mutex := None, record := None))
  {}

  lemma StepInv(s: State, step: Step)
    requires Inv(s) && Enabled(s, step)
    ensures Inv(After(s, step))
  {
    match step
    case StartNew(e, run) => StartNewInv(s, e, run);
    case Announce(e) => AnnounceInv(s, e);
    case Save(e, run) => SaveInv(s, e, run);
    case Return(e) => ReturnInv(s, e);
    case Remove(e) => RemoveInv(s, e);
    case Exit(e) => ExitInv(s, e);
    case Panic(e) => PanicInv(s, e);
    case BreakOff(e) => BreakOffInv(s, e);
    case LockRecording(e) => LockRecordingInv(s, e);
    case Record(e, saved) => RecordInv(s, e, saved);
    case ClaimResume(e) => ClaimResumeInv(s, e);
    case CheckResume(e, accepted) => CheckResumeInv(s, e, accepted);
    case Register(e) => RegisterInv(s, e);
    case ClaimMcp(e) => ClaimMcpInv(s, e);
    case CheckMcp(e, accepted) => CheckMcpInv(s, e, accepted);
    case AbortTake(t) => AbortTakeInv(s, t);
    case AbortSend(t) => AbortSendInv(s, t);
    case AbortForget(t) => AbortForgetInv(s, t);
    case AbortInspect(t) => AbortInspectInv(s, t);
    case AbortClaim(t) => AbortClaimInv(s, t);
    case AbortRecord(t, saved) => AbortRecordInv(s, t, saved);
    case DeleteEnter(t) => DeleteEnterInv(s, t);
    case DeleteClaim(t) => DeleteClaimInv(s, t);
    case DeleteRecord(t) => DeleteRecordInv(s, t);
  }

  // ---------- Runs ----------

  // Every step is possible where it is taken.
  predicate Possible(s: State, steps: seq<Step>)
    decreases |steps|
  {
    steps == [] || (Enabled(s, steps[0]) && Possible(After(s, steps[0]), steps[1..]))
  }

  function Final(s: State, steps: seq<Step>): State
    decreases |steps|
  {
    if steps == [] then s else Final(After(s, steps[0]), steps[1..])
  }

  lemma {:induction false} RunInv(s: State, steps: seq<Step>)
    requires Inv(s) && Possible(s, steps)
    ensures Inv(Final(s, steps))
    decreases |steps|
  {
    if steps == [] {
    } else {
      StepInv(s, steps[0]);
      RunInv(After(s, steps[0]), steps[1..]);
    }
  }

  ghost predicate Reachable(s: State) {
    exists start: State, steps :: Init(start) && Possible(start, steps) && s == Final(start, steps)
  }

  lemma ReachableInv(s: State)
    requires Reachable(s)
    ensures Inv(s)
  {
    var start: State, steps :| Init(start) && Possible(start, steps) && s == Final(start, steps);
    InitInv(start);
    RunInv(start, steps);
  }

  // An execution that was aborted, or is about to notice, and has not recorded it yet.
  predicate CancellationPending(s: State, e: nat) {
    var p := At(s, e);
    || p.NewAborted? || p.NewRecording? || p.ResumeAborted?
    || (e in s.signalled && (p.NewRunning? || p.ResumeRunning?))
  }

  // The record is deleted only by a deletion, never while any other task holds the claim and
  // never while a signalled cancellation is still to be recorded.
  lemma DeletionIsSafe(s: State, step: Step)
    requires Reachable(s) && Enabled(s, step)
    requires s.record.Some? && After(s, step).record.None?
    ensures step.DeleteRecord? && At(After(s, step), step.task) == DeleteDone(true)
    ensures forall x: nat :: HoldsClaim(At(s, x)) <==> x == step.task
    ensures forall e: nat :: !InExecutor(At(s, e)) && !CancellationPending(s, e)
  {
    ReachableInv(s);
    DeletionStep(s, step);
    assert HoldsMutex(At(s, step.task));
    forall e: nat
      ensures !InExecutor(At(s, e)) && !CancellationPending(s, e)
    {
      assert NewActive(At(s, e)) ==> NewRunGuarded(s, e);
      assert HoldsClaim(At(s, e)) ==> e == step.task;
    }
  }

  // A deletion answers that it deleted exactly when it did.
  lemma DeletionAnswers(s: State, step: Step)
    requires Enabled(s, step) && (step.DeleteEnter? || step.DeleteClaim? || step.DeleteRecord?)
    ensures At(After(s, step), step.task) == DeleteDone(true) <==> s.record.Some? && After(s, step).record.None?
  {}

  lemma DeletionStep(s: State, step: Step)
    requires s.record.Some? && Enabled(s, step) && After(s, step).record.None?
    ensures step.DeleteRecord? && At(s, step.task) == DeleteClaimed
    ensures At(After(s, step), step.task) == DeleteDone(true)
  {
    if step.Record? || step.AbortRecord? {
      hide Cancel;
      CancelKeepsTasks(s, true, step.saved);
      CancelKeepsTasks(s, false, step.saved);
    }
  }

  // At most one execution may write the record at any moment.
  lemma OneExecution(s: State, a: nat, b: nat)
    requires Reachable(s)
    requires InExecutor(At(s, a)) && InExecutor(At(s, b))
    ensures a == b
  {
    ReachableInv(s);
  }

  // How a step may change a stored record without deleting it: as a checkpoint of the one
  // execution, or as a cancellation of a record that is not finished. A failed record is
  // cancelled by aborting its own resume and by nothing else.
  lemma RecordChanges(s: State, step: Step)
    requires Reachable(s) && Enabled(s, step) && s.record.Some? && After(s, step).record.Some?
    requires s.record != After(s, step).record
    ensures
      var before, after := s.record.value, After(s, step).record.value;
      || (step.Save? && InExecutor(At(s, step.task)) && after == step.run && After(s, step).writer.Executor?)
      || (&& (step.Record? || step.AbortRecord?) && After(s, step).writer.Canceller?
          && !before.status.Succeeded? && !before.status.Cancelled?
          && (before.status.Failed? ==> step.Record? && At(s, step.task) == ResumeAborted)
          && CancelledFrom(before, after) && !HasOpenStep(after))
  {
    ReachableInv(s);
    RecordWriters(s, step);
    if !step.Save? {
      hide HasOpenStep;
      var cancelFailed := step.Record? && At(s, step.task).ResumeAborted?;
      MarkClosesSteps(s.record.value, cancelFailed);
    }
  }

  lemma RecordWriters(s: State, step: Step)
    requires Inv(s) && Enabled(s, step) && s.record.Some? && After(s, step).record.Some?
    requires s.record != After(s, step).record
    ensures step.Save? || step.Record? || step.AbortRecord?
    ensures !step.Save? ==>
      var cancelFailed := step.Record? && At(s, step.task).ResumeAborted?;
      && After(s, step).record == Some(MarkCancelled(s.record.value, cancelFailed))
      && !KeptByCancel(s.record.value.status, cancelFailed)
  {
    hide MarkCancelled, HasOpenStep, HasRunningStep;
    assert !step.StartNew?;
  }

  // A new run stores its first record and holds the claim; only the saves of executors make a
  // record where there is none.
  lemma RecordBegins(s: State, step: Step)
    requires Reachable(s) && Enabled(s, step)
    ensures s.record.None? && After(s, step).record.Some? ==> step.StartNew? || step.Save?
    ensures step.StartNew? || step.Save? ==> After(s, step).record == Some(step.run) && After(s, step).writer.Executor?
    ensures step.StartNew? ==> s.record.None? && After(s, step).claim == Some(step.task)
  {
    RecordComes(s, step);
    ReachableInv(s);
    hide After, Enabled;
  }

  lemma RecordComes(s: State, step: Step)
    requires Enabled(s, step)
    ensures s.record.None? && After(s, step).record.Some? ==> step.StartNew? || step.Save?
    ensures step.StartNew? || step.Save? ==> After(s, step).record == Some(step.run) && After(s, step).writer.Executor?
    ensures step.StartNew? ==> !s.born && After(s, step).claim == Some(step.task)
  {
    hide MarkCancelled, HasOpenStep, HasRunningStep;
  }

  predicate IsSaveOrDelete(step: Step) {
    step.Save? || step.DeleteRecord?
  }

  predicate NoneSavesOrDeletes(steps: seq<Step>) {
    steps == [] || (!IsSaveOrDelete(steps[0]) && NoneSavesOrDeletes(steps[1..]))
  }

  // Over any stretch of any run without a checkpoint or a deletion, a succeeded or already
  // cancelled record stays exactly as it is, whatever aborts and resumes do meanwhile.
  lemma {:induction false} FinishedStays(s: State, steps: seq<Step>)
    requires Inv(s) && Possible(s, steps)
    requires s.record.Some? && (s.record.value.status.Succeeded? || s.record.value.status.Cancelled?)
    requires NoneSavesOrDeletes(steps)
    ensures Final(s, steps).record == s.record
    decreases |steps|
  {
    if steps == [] {
    } else {
      StepInv(s, steps[0]);
      RecordStays(s, steps[0]);
      FinishedStays(After(s, steps[0]), steps[1..]);
    }
  }

  lemma RecordStays(s: State, step: Step)
    requires Inv(s) && Enabled(s, step) && !IsSaveOrDelete(step)
    requires s.record.Some? && (s.record.value.status.Succeeded? || s.record.value.status.Cancelled?)
    ensures After(s, step).record == s.record
  {
    hide HasRunningStep, MarkCancelled;
    if After(s, step).record.None? {
      DeletionStep(s, step);
    } else if After(s, step).record != s.record {
      RecordWriters(s, step);
    }
  }

  // A cancelled record that a cancellation wrote has no pending, running or waiting step.
  lemma CancelledIsClosed(s: State)
    requires Reachable(s) && s.record.Some? && s.writer == Canceller
    ensures s.record.value.status == Cancelled && !HasOpenStep(s.record.value)
  {
    ReachableInv(s);
  }

  // A new run leaves its executor early only because an abort fired its own sender.
  lemma NewRunBrokenOffBySignal(s: State, e: nat)
    requires Reachable(s) && Enabled(s, BreakOff(e)) && At(s, e).NewRunning?
    ensures e in s.signalled && s.entry == Cancelling
  {
    ReachableInv(s);
    assert NewRunGuarded(s, e);
  }

  // ---------- Runs of given steps ----------

  // One possible step and where it leads.
  predicate LeadsTo(s: State, step: Step, after: State) {
    Enabled(s, step) && After(s, step) == after
  }

  // Steps one after another, with the states between them.
  lemma {:induction false} ChainOf(states: seq<State>, steps: seq<Step>)
    requires |states| == |steps| + 1
    requires forall i | 0 <= i < |steps| :: LeadsTo(states[i], steps[i], states[i + 1])
    ensures Possible(states[0], steps) && Final(states[0], steps) == states[|steps|]
    decreases |steps|
  {
    if steps == [] {
    } else {
      assert LeadsTo(states[0], steps[0], states[1]);
      hide Enabled, After;
      forall i | 0 <= i < |steps[1..]| ensures LeadsTo(states[1..][i], steps[1..][i], states[1..][i + 1]) {
        assert LeadsTo(states[i + 1], steps[i + 1], states[i + 2]);
      }
      ChainOf(states[1..], steps[1..]);
    }
  }

  lemma {:induction false} TwoParts(s: State, a: seq<Step>, b: seq<Step>)
    ensures Possible(s, a + b) <==> Possible(s, a) && Possible(Final(s, a), b)
    ensures Final(s, a + b) == Final(Final(s, a), b)
    decreases |a|
  {
    if a == [] {
      assert a + b == b;
    } else {
      assert (a + b)[1..] == a[1..] + b;
      TwoParts(After(s, a[0]), a[1..], b);
    }
  }
}
