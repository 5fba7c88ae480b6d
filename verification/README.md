# INXM Local: verified protocols and algorithms

INXM Local is a desktop application whose background scheduler, MCP server and run engine
share state on disk. This project models its small concurrent protocols, its stored state
machines and its byte and text algorithms in Dafny, and proves what they are for: mutual
exclusion under leases, at-most-once dispatch, safe deletion, single-flight work, crash-safe
commits, and exact inverses.

`dafny verify dfyconfig.toml` checks everything. Each file is one module:

- `SchedulerLock.dfy` is the cross-process lease lock as steps over inodes, one canonical
  path, a clock and any number of processes; `LockDirectory.dfy` is the acquisition, heartbeat
  and drop code working in place, with failing file operations and with the other processes'
  steps between its own.
- `CronDispatch.dfy` is the selection and claim of due schedules; `SchedulerLoop.dfy` is the
  loop around it over whole runs with failures, edits of the store, panics and restarts;
  `Scheduler.dfy` is the loop in place, with other code between its sections; `Instances.dfy`
  joins lock and loop for any number of processes.
- `RunLifecycle.dfy` is one run under every interleaving of execution, resume, abort and
  delete, with panics; `ResumeSafety.dfy` is which resumes an abort can reach;
  `StrandedEntry.dfy` is the registry entries that stay; `LostCancellation.dfy` is the aborts
  that are not recorded and the runs that cannot be ended;
  `RunSlot.dfy` is the engine's sections as they change the shared state.
- `DetachedWork.dfy` is the registry of in-flight MCP work.
- `PlanStore.dfy`, `Imports.dfy`, `RepairCommit.dfy` and `PlanEdits.dfy` are the versioned plan
  store, plan imports, repair patches with their journalled commit, and plan-edit proposals.
- `Checksum.dfy` and `Png.dfy` are the screenshot writer with an independent decoder, and
  `Division.dfy` is CRC-32 as the division of polynomials it is defined by.
- `Inspector.dfy` is the JSON formatter and `Lexing.dfy` the tokens it keeps.
- `ShellEnv.dfy`, `Utf8.dfy`, `PathMerge.dfy`, `Dependencies.dfy`, `Console.dfy` and `Activity.dfy` are the
  text, graph and bounded-buffer algorithms.

A protocol is a state datatype, a step datatype, a predicate that says when a step can be
taken and a function that takes it. Theorems quantify over every sequence of possible steps,
so over every interleaving. Where the source changes fields in place, a class does the same
and its methods are proved equal to the step functions. Clocks, fresh identifiers, failures of
reads and writes, crashes and the order of concurrent steps are parameters or steps.

## What the proofs found

Some promises of the documentation hold only under a condition. The code is modelled as it
is; the condition is proved, and a lemma shows what happens without it.

- The lease lock keeps excluding two holders after an unlink if and only if nobody holds the
  lock at that moment (`SchedulerLock.UnlinkSafeExactly`). An unlink removes what its process
  read exactly when that stayed at the path in between (`SchedulerLock.UnlinkTakesWhatWasRead`);
  otherwise a late rename, a rename after a vanished file or a drop that was held up takes
  another's lock (`SchedulerLock.LateRenameTakesTheLock`,
  `SchedulerLock.UnseenRenameTakesTheLock`, `SchedulerLock.LateDropTakesTheLock`).
- A signalled abort of a new run can still be recorded if and only if the lifecycle claim is
  free at the one moment it is tried for; a resume that is about to be refused can hold it
  (`LostCancellation.RecordedWhenFree`, `LostCancellation.CancellationCanBeLost`).
- A registered execution that panics leaves its entry in the registry. If no abort is under
  way, the entry stays for good if and only if the execution had been signalled
  (`StrandedEntry.PanicStrandsExactly`): from then on every abort is answered as signalled and
  every deletion and resume is refused (`StrandedEntry.StrandedForGood`). Otherwise one abort
  frees the run and cancels a Running record whatever its steps are
  (`StrandedEntry.OneAbortCleans`).
- A run left Running without an execution, by a lost abort, a crash or a panic, can be ended if
  and only if the registry holds a sender, an abort is on its way to clean it, or no step in
  its record is running and an abort can look at it (`LostCancellation.EndableExactly`).
  Otherwise the record stays as it is for good (`LostCancellation.LeftRunningForGood`,
  `LostCancellation.CrashLeavesRunning`, `LostCancellation.PanicLeavesRunning`).
- Schedules never fire twice across instances while holders heartbeat in time, unlinks take
  what was read and no loop outlives the drop of its lock (`Instances.NeverDoubleFires`). A
  loop that lost the lock goes on and fires again (`Instances.LostLockFiresTwice`,
  `Instances.LostLoopFiresAgainExactly`).
- A resume leaves its executor only when it was signalled if and only if, when it registers,
  no abort is between taking a sender and removing the entry
  (`ResumeSafety.SafeExactly`). Otherwise that abort can drop the resume's sender and have
  its failed record cancelled (`ResumeSafety.ExposedResume`), and such a moment can be reached
  (`ResumeSafety.ExposureIsReached`).
- A rejected approval stores Cancelled without closing later steps
  (`RunLifecycle.RejectionKeepsOpenSteps`).
- The loop dispatches an occurrence again exactly when it claims with its last tick set back
  before that occurrence and nothing fires in between (`SchedulerLoop.NoRepeatExactly`,
  `SchedulerLoop.QueuedAgainExactly`).
- A scheduled run that panics keeps its schedule active: it is not dispatched again before the
  next restart (`SchedulerLoop.StrandedForGood`).
- An unreadable catalog or base plan, or an approval that was stored and reported as failed,
  leaves a patch approved (`RepairCommit.UnreadableInputsStrand`, `RepairCommit.ApplyExactly`).
  A commit that fails under its journal is rolled back to pending, and then the storage never
  opens again (`RepairCommit.RolledBackCommitSticks`, `RepairCommit.StuckForever`). Proposals
  stay pending, applied or rejected exactly while no apply does one of these
  (`RepairCommit.SettledExactly`).
- A commit whose last sync fails is rolled back although all of it is written: the patch is
  pending with its plan current, can never be applied, and can be rejected
  (`RepairCommit.UnreportedExactly`, `RepairCommit.RejectedThoughLanded`,
  `RepairCommit.AstrayForGood`).
- A commit is all or nothing while its journal can be read. A journal set aside between the
  plan write and the mark leaves a patch approved for good whose plan is current
  (`RepairCommit.UnreadableAfterCrash`, `RepairCommit.ApprovedAstrayForGood`).
- Plan edits stay pending, applied or rejected, with no rejected one ever current, exactly while
  no apply loses the report of its approval or of its save, leaves its mark unwritten or fails
  without being rolled back (`PlanEdits.SettledExactly`); a stuck repair journal refuses them
  altogether (`PlanEdits.StuckRefusesEdits`).
- A write that fails between a plan snapshot and the current plan blocks its lineage for
  every later import, until one repeats the very plan that was interrupted
  (`Imports.InterruptedAppendBlocks`, `Imports.BlockedForGood`,
  `Imports.AppendToBlockedExactly`).
- The formatter keeps the tokens of a text if and only if no two bare tokens are held apart
  by whitespace alone, as they never are in valid JSON (`Lexing.FormatKeepsTokensExactly`).
- The PNG writer and the marker search hold for exactly the inputs named in their lemmas:
  lengths that fit 32 bits, nonempty data, markers that do not overlap themselves.
- A console's note stays in every further run if and only if every close that looked before
  it agrees on it (`Console.NoteStaysExactly`); two closes at once can let the second note
  win (`Console.SecondCloseCanWin`), although the comment says the first one does.

## Model

| member | source | states |
|---|---|---|
| SchedulerLock.AtMostOneHolder | src/app/scheduler_lock.rs:43-147 | from any leftovers, in every run whose holders heartbeat within the lease and whose unlinks take what was read (nothing where no file was seen), at most one process holds the lock, and its file is at the path |
| SchedulerLock.AtMostOneHolderAtOnce | src/app/scheduler_lock.rs:55-72 | with reading and unlinking as one step, heartbeats within the lease are all that exclusion needs |
| SchedulerLock.TimelyFileIsFresh | src/app/scheduler_lock.rs:158-168 | a timely holder's file is judged fresh in every phase: by its record, and by its mtime while new or truncated |
| SchedulerLock.ExclusiveStep | src/app/scheduler_lock.rs:53-77 | every step of every process keeps the holders' file at the path with nobody about to unlink it |
| SchedulerLock.StepInv | src/app/scheduler_lock.rs:84-147 | every step keeps: distinct inodes and tokens per owner, an owner's file holds its own last full heartbeat or was emptied after it, tokens only where their owner wrote them |
| SchedulerLock.EvictedOwnerIsHarmless | src/app/scheduler_lock.rs:65-72 | over any run, once an owner lost the path none of its later heartbeats or stops, nor a drop that reads its token from then on, changes the path or the record there |
| SchedulerLock.EvictedStepIsHarmless | src/app/scheduler_lock.rs:105-130 | the same for one step, which also does not decide to unlink |
| SchedulerLock.OffPathStays | src/app/scheduler_lock.rs:88-92 | an inode that left the path never comes back |
| SchedulerLock.AtOnceIsSettled | src/app/scheduler_lock.rs:55-66 | if every unlink follows its own read at once, it takes what was read |
| SchedulerLock.StolenExactlyWhenLate | src/app/scheduler_lock.rs:158-160 | a readable held lock can be judged stale if and only if its holder is past its lease |
| SchedulerLock.UnlinkSafeExactly | src/app/scheduler_lock.rs:65-72 | from an unlink on, every timely run keeps at most one holder if and only if nobody holds the lock at the unlink, which is so whenever it takes what was read |
| SchedulerLock.UnlinkTakesWhatWasRead | src/app/scheduler_lock.rs:55-72 | over any run between reading the path and unlinking, by a contender or a drop, the unlink removes what was read if and only if that stayed at the path all the time; once gone it never comes back |
| SchedulerLock.LateDropTakesTheLock | src/app/scheduler_lock.rs:177-190 | a drop held up for a lease after reading its own token takes away the lock another process acquired meanwhile |
| SchedulerLock.LateRenameTakesTheLock | src/app/scheduler_lock.rs:55-66 | from every start with a stale lock file, a run in which a late rename gives two processes the lock with fresh heartbeats |
| SchedulerLock.UnseenRenameTakesTheLock | src/app/scheduler_lock.rs:53-72 | from every start with a stale lock file, a run in which two processes are refused, a third takes the file away, and the two renames after reads that saw nothing give both the lock with fresh heartbeats |
| SchedulerLock.ReclaimableExactly | src/app/scheduler_lock.rs:158-168 | after waiting a given time a lock nobody keeps up can be judged stale by its record or mtime exactly when its stamp plus the lease has passed, or its unreadable file is from the future; a file of which neither can be read is always judged stale |
| SchedulerLock.CrashedLockIsTaken | src/app/scheduler_lock.rs:53-77 | after a crash any other process acquires the lock one lease later, with its own record at the path |
| LockDirectories.LockDirectory.Acquire | src/app/scheduler_lock.rs:43-81 | the bounded loop, with any steps of others in between and any operation failing, is a run of the machine, a rename after a read that saw no file included; it answers Acquired with the own record written, Held with the fresh lock's holder, WouldBlock or a failure only when an operation failed; alone and untroubled it is Held exactly for a fresh lock and otherwise Acquired |
| LockDirectories.LockDirectory.TakeAway | src/app/scheduler_lock.rs:55-73 | one refused attempt: a fresh lock is left alone and its holder answered, otherwise the path is free afterwards unless the rename failed, also when the file changed or appeared after the reading |
| LockDirectories.LockDirectory.CreateLock | src/app/scheduler_lock.rs:84-103 | creating the file and writing the first record makes the process the owner of a readable record of its own; when a write fails it owns nothing and its leftover file is as far as the writing came |
| LockDirectories.LockDirectory.WriteRecord | src/app/scheduler_lock.rs:140-147 | stamp, truncate and write, with others in between, leave the own record with the stamp taken first; a failed truncation leaves the file as it was, a failed write leaves it unreadable |
| LockDirectories.LockDirectory.Drop | src/app/scheduler_lock.rs:177-190 | the drop, with others between its steps, is a run of the machine that never unlinks for an owner already evicted; undisturbed it frees the path exactly when its own readable record is there and changes no file |
| CronDispatch.ClaimIsExact | src/app/engine.rs:2950-3004 | a claim that is written stamps exactly the enabled inactive schedules with an occurrence after the last tick and not after now, none when paused, and changes nothing else; it takes exactly those when the write is reported |
| CronDispatch.ClaimFailsExactly | src/app/engine.rs:2957-2984 | a claim fails exactly when the store cannot be read, or its write fails or is reported as failed while something is due; it then leaves the store as it was but for the stamps of an unreported write |
| CronDispatch.StampsDoNotCount | src/app/engine.rs:2987-3004 | the same schedules are selected whatever was stamped, so a claim that stamped and failed takes them when it is tried again |
| CronDispatch.DueExactlyWhenFiring | src/app/schedule_store.rs:71-76 | with next_occurrence the least instant strictly after, a schedule is due if and only if it is enabled and fires in the window |
| CronDispatch.SelectionIsExact | src/app/engine.rs:2987-3004 | the two filters keep every selected schedule as often as it is stored and no other |
| CronDispatch.SelectionKeepsOrder | src/app/engine.rs:2958-2961 | splitting the store splits the selection, so claims keep the stored order |
| SchedulerLoop.NoOccurrenceTwice | src/app/engine.rs:2772-2945 | over any run in which no claim comes with the last tick before an occurrence dispatched for a schedule it selects, with failures, edits, panics and restarts, the occurrences dispatched for one schedule strictly increase |
| SchedulerLoop.NoRepeatExactly | src/app/engine.rs:2987-3004 | over any run, no occurrence is dispatched or queued twice at any moment if and only if no claim selects a schedule with a dispatched occurrence after the last tick, not after now, at which its cron still fires with nothing firing before it |
| SchedulerLoop.QueuedAgainExactly | src/app/engine.rs:2998-3004 | a claim queues a selected schedule for an occurrence already dispatched if and only if that condition holds for it |
| SchedulerLoop.ClaimDistinctExactly | src/app/engine.rs:2987-3004 | the same for one step: a claim keeps all occurrences distinct if and only if it repeats none |
| SchedulerLoop.ForwardIsLater | src/app/engine.rs:2830-2832 | a run in which no claim and no restart finds the clock before the last tick meets the hypothesis of NoOccurrenceTwice |
| SchedulerLoop.OneRunPerSchedule | src/app/engine.rs:2782-2850 | no two runs in flight belong to one schedule, none waits for dispatch while it is active, and the active schedules are exactly those with a run or stranded by a run that panicked |
| SchedulerLoop.StrandedForGood | src/app/engine.rs:2885-2942 | a schedule whose run panicked stays active and is not dispatched again in any run without a restart |
| SchedulerLoop.EveryInstantOnce | src/app/engine.rs:2830-2832 | every instant from the process start to the last successful tick lies in exactly one claimed window |
| SchedulerLoop.FailedTicksKeepWindow | src/app/engine.rs:2813-2830 | over any stretch without a restart and without a successful claim the window's start stays where it is |
| SchedulerLoop.NextTickAnswersForAll | src/app/engine.rs:2813-2832 | the next successful claim after any number of failed ones takes the whole window since the last successful one |
| SchedulerLoop.DispatchesAreConserved | src/app/engine.rs:2834-2945 | dispatched and waiting schedules together change only by a claim, in stored order; only a restart loses waiting ones |
| SchedulerLoop.DispatchedForFirst | src/app/engine.rs:2998-3002 | a schedule is claimed for its first occurrence in the window |
| SchedulerLoop.StepInv | src/app/engine.rs:2776-2945 | every section of the loop, every finished or panicked run, edit and restart keeps the active set, the queue, the log and the windows consistent |
| SchedulerLoop.MonotoneIsForward | src/app/engine.rs:2773-2778 | a clock that does not go back makes every run a forward one |
| SchedulerLoop.ClockSetBackRepeats | src/app/engine.rs:2987-3004 | an example of the failing condition: for every enabled schedule, a run with the clock set back that dispatches one occurrence twice |
| Schedulers.Scheduler.Tick | src/app/engine.rs:2776-2945 | one tick in place, with clock changes, edits, finished and panicked runs between its sections, is a run of the machine whose log changes only by a successful claim; undisturbed it leaves exactly the claimed schedules stamped, active and started |
| Schedulers.Scheduler.Snapshot | src/app/engine.rs:2776-2812 | waking takes the clock, the paused flag and the active set of that moment |
| Schedulers.Scheduler.Claim | src/app/engine.rs:2813-2832 | the claim in place succeeds exactly when the claim step does, and then moves the last tick |
| Schedulers.Scheduler.StartAll | src/app/engine.rs:2834-2905 | the dispatch loop, with other code in between, starts one run per queued schedule, in order |
| Schedulers.Scheduler.StartRun | src/app/engine.rs:2834-2887 | one activation and one started run, the first of the queue |
| Schedulers.Scheduler.FinishRun | src/app/engine.rs:2929-2942 | a finished run gives its schedule free and nothing else |
| Instances.NeverDoubleFires | src/app/engine.rs:1581-1599 | from any leftover lock file and store, in every run of any number of processes whose holders heartbeat in time, whose unlinks take what was read and whose loops do not go on after the drop began, the occurrences all loops dispatch for one schedule strictly increase |
| Instances.Refines | src/app/engine.rs:1588-1599 | every such run of all instances is a run of one loop with a clock that does not go back, every takeover a restart |
| Instances.LostLoopFiresAgainExactly | src/app/engine.rs:2987-3004 | whatever another loop dispatched, a loop's claim queues it again if and only if its own last tick lies before it with nothing firing in between |
| Instances.TwoLoopsFireTwice | src/app/engine.rs:2772-2945 | two loops about to fire one schedule for the same occurrence both dispatch it |
| Instances.LostLockFiresTwice | src/app/engine.rs:1588-1599 | once two processes have acquired the lock, both loops begin and fire the next occurrence |
| RunLifecycle.DeletionIsSafe | src/app/engine.rs:4223-4245 | in every reachable state the record is removed only by a deletion that alone holds the claim, with no executor running and no signalled cancellation still to be recorded |
| RunLifecycle.RecordChanges | src/app/engine.rs:4256-4285 | any other change of the record is a checkpoint of the running executor, or a cancellation of an unfinished record after which its status and every open step are cancelled and every other step is as before; a failed record is cancelled only by aborting its own resume |
| RunLifecycle.RecordBegins | src/executor/mod.rs:147-166 | a new run stores its first record under the claim, and nothing but an executor's save makes a record where there is none |
| RunLifecycle.FinishedStays | src/app/engine.rs:4262-4267 | over any stretch without a checkpoint or deletion a succeeded or cancelled record stays exactly as it is |
| RunLifecycle.CancelledIsClosed | src/app/engine.rs:4269-4284 | a record last written by a cancellation is Cancelled with no step pending, running or waiting |
| RunLifecycle.OneExecution | src/storage/runs.rs:321-350 | at most one execution may write the record at any moment |
| RunLifecycle.StepInv | src/app/engine.rs:4040-4440 | every step of every task keeps the locks, the registry entry, the guards of a new run and the closedness of cancelled records |
| RunLifecycle.MarkRunCancelledInner | src/app/engine.rs:4256-4285 | the marking loop leaves a record that is kept as it is, and otherwise cancels its status and every open step and keeps every other step |
| RunLifecycle.MarkClosesSteps | src/app/engine.rs:4269-4284 | marking a record that is not kept stores the status cancelled, the same steps, every pending, running or waiting one cancelled and every other one as it was |
| RunLifecycle.NewRunBrokenOffBySignal | src/app/engine.rs:4090-4094 | a new run is broken off only after an abort fired its own sender, with the cancelling mark in the registry |
| LostCancellation.RecordedWhenFree | src/app/engine.rs:4147-4156 | after the one try for the claim, some further run records the signalled cancellation of a new run if and only if the claim was free |
| LostCancellation.RecordedAsClaimed | src/app/engine.rs:4247-4285 | once the claim is taken for it, whatever others do until the write, the record is the one of that moment, and has its open steps cancelled exactly if the write is done, reported or not |
| LostCancellation.CancellationCanBeLost | src/app/engine.rs:4147-4163 | for every new run and every checkpoint it saved, a run after which an abort was answered as signalled and the record stays Running with no execution, for good if a step in it is running |
| LostCancellation.LeftRunningForGood | src/app/engine.rs:4180-4245 | over any run from a Running record that has no execution and meets none of the conditions of EndableExactly, the record never changes, nobody executes it, every call that ends answers unavailable or signalled and no deletion succeeds |
| LostCancellation.EndableExactly | src/app/engine.rs:4180-4220 | for every reachable Running record without an execution: some further run ends it if and only if the registry holds a sender, an abort is on its way to clean it, or no step is running and the entry is absent or an abort is about to look |
| LostCancellation.CrashLeavesRunning | src/app/engine.rs:4205-4214 | every process start with a stored Running record is in that state, and can end it if and only if no step in it is running |
| LostCancellation.PanicLeavesRunning | src/app/engine.rs:4192-4214 | a panic of the one execution of a Running record leads to that state, and its entry and the aborts on their way count as before |
| ResumeSafety.OwnedUnlessPanicked | src/app/engine.rs:4120-4124 | over any run without a panic, while the registry knows the run some execution is still to remove its entry |
| StrandedEntry.StrandedExactly | src/app/engine.rs:4180-4203 | for every reachable state: no further run removes the entry if and only if it is a cancelling mark with no registered execution and no abort that took a sender and has not finished |
| StrandedEntry.PanicStrandsExactly | src/app/engine.rs:4120-4156 | a panic of a registered execution strands its entry for good if and only if it is a cancelling mark and no abort is under way; with none under way that is when the execution was signalled |
| StrandedEntry.StrandedForGood | src/app/engine.rs:4180-4245 | over any further run the mark stays, no execution registers, every abort is answered as signalled and every deletion and registration is refused |
| StrandedEntry.StrandingIsReached | src/app/engine.rs:4180-4203 | from every failed record a run leads to such a mark |
| StrandedEntry.OneAbortCleans | src/app/engine.rs:4192-4220 | with the sender of a gone execution in the registry one abort removes the entry and cancels a Running record and all its open steps, whatever its steps are |
| ResumeSafety.OnlyForgettingHangsUp | src/app/engine.rs:4197-4203 | a running execution loses its sender unsignalled only to an abort that removes the entry after its own send failed |
| ResumeSafety.SafeResume | src/app/engine.rs:4353-4360 | if no abort is between taking a sender and removing the entry when a resume registers, then over any further run it is never hung up on while registered, and leaves its executor early only if it was signalled |
| ResumeSafety.SafeExactly | src/app/engine.rs:4196-4203 | for every reachable registration: no such abort is under way if and only if no further run makes the resume leave its executor unsignalled |
| ResumeSafety.ExposedResume | src/app/engine.rs:4196-4203 | for every reachable registration with such an abort under way, a further run in which the resume is cancelled, record included, though nobody signalled it |
| ResumeSafety.ExposureIsReached | src/app/engine.rs:4180-4203 | from every failed record a run leads to a resume that registers while an abort of an earlier resume still has to send |
| RunLifecycle.RejectionKeepsOpenSteps | src/executor/mod.rs:699-727 | a rejected approval leaves no open step if and only if every other step was finished |
| RunLifecycle.RejectionExample | src/executor/mod.rs:699-727 | a rejected approval that stores Cancelled with a pending step |
| RunSlots.RunSlot.TakeSender | src/app/engine.rs:4180-4196 | the registry section of an abort takes the sender and leaves the cancelling mark, answers an earlier abort, or finds nothing |
| RunSlots.RunSlot.ForgetSender | src/app/engine.rs:4197-4203 | after a failed send the entry is removed |
| RunSlots.RunSlot.IsLeftover | src/app/engine.rs:4205-4214 | a Running record is a leftover when the receiver is gone or no step is running |
| RunSlots.RunSlot.AnyRunning | src/app/engine.rs:4209-4212 | the search finds a running step if and only if there is one |
| RunSlots.RunSlot.CleanLeftover | src/app/engine.rs:4213-4218 | a leftover is cancelled under the claim, with its open steps cancelled and every other one kept, or the abort fails; a save that stores the record and reports an error does both |
| RunSlots.RunSlot.DeleteRun | src/app/engine.rs:4223-4245 | a run is deleted if and only if it is stored, not running, unregistered and unclaimed; otherwise the record stays |
| RunSlots.RunSlot.RecordAbortedRun | src/app/engine.rs:4144-4155 | an aborted new run is recorded as cancelled, with its open steps, under the claim if it is free, and not at all otherwise |
| RunSlots.RunSlot.RegisterResume | src/app/engine.rs:4353-4360 | a resume registers if and only if the run has no entry |
| RunSlots.RunSlot.CancelRecord | src/app/engine.rs:4256-4285 | loading, marking and saving change the record as the cancellation step does: a kept record stays, any other has its status and every open step cancelled and every other step kept; it succeeds exactly when the record is kept or its save is done and reported |
| DetachedWork.OneWorkPerKey | src/app/mcp_server.rs:920-979 | at most one work of a key is open, and the registry entry is its own |
| DetachedWork.CallJoinsOrStarts | src/app/mcp_server.rs:922-936 | a call joins the open work of its key, or starts one if and only if there is none |
| DetachedWork.SameOutcome | src/app/mcp_server.rs:981-992 | all callers of one channel get the one outcome of its one worker |
| DetachedWork.WorkerAnswers | src/app/mcp_server.rs:949-992 | from any reachable state, over any run after a worker ended: what is published on its channel and what any caller of it receives is the very outcome it returned, or the error that names its panic |
| DetachedWork.OutcomeIsFinal | src/app/mcp_server.rs:973-976 | a published outcome never changes in any further run |
| DetachedWork.PublicationArrives | src/app/mcp_server.rs:973-977 | publishing reaches the channel even after every caller hung up |
| DetachedWork.ProgressIsCounted | src/app/mcp_server.rs:942-979 | whatever callers do and however the worker ends, the publisher's three steps alone bring a work to its end, each exactly once |
| DetachedWork.PublisherCanStep | src/app/mcp_server.rs:949-978 | while a work is open its publisher's next step can be taken |
| DetachedWork.NoStrandedKey | src/app/mcp_server.rs:942-979 | after the publisher's remaining steps the key no longer belongs to the work and everybody waiting can be answered |
| DetachedWork.SwappedLosesExactly | src/app/mcp_server.rs:973-977 | in every reachable state in which a work is to be published: if its key were removed first, its outcome would be lost if and only if no caller is waiting |
| DetachedWork.StepInv | src/app/mcp_server.rs:914-992 | every step keeps registry, channels and callers in agreement |
| DetachedWork.InFlight.Join | src/app/mcp_server.rs:920-979 | the locked section joins the key's channel or inserts a new one |
| DetachedWork.InFlight.Finish | src/app/mcp_server.rs:949-978 | the publisher sends what the worker returned, or the error that names its panic, to its own channel, and then removes exactly its key |
| DetachedWork.InFlight.Receive | src/app/mcp_server.rs:981-991 | a caller is answered exactly when the outcome is published, with that outcome |
| PlanStore.SaveExactly | src/storage/plans.rs:40-70 | without a fault a save succeeds if and only if the plan is the current one or its successor and its version is not taken by another plan; a failed one changes nothing |
| PlanStore.SaveKeeps | src/storage/plans.rs:130-152 | whatever write fails, no stored (id, version) is changed or removed and no other lineage is touched |
| PlanStore.SaveFits | src/storage/plans.rs:40-194 | every save keeps snapshots under their own id and version and the current plan among them |
| PlanStore.SaveMoves | src/storage/plans.rs:154-188 | whatever write fails, a save changes no current plan but its own lineage's, only to the saved plan and only to a higher version |
| PlanStore.OrphanBlocksExactly | src/storage/plans.rs:130-152 | a next version is refused if and only if another plan's snapshot has taken it |
| PlanStore.PlanFiles.SavePlan | src/storage/plans.rs:40-70 | the save in place computes the specified save and keeps every stored version |
| PlanStore.PlanFiles.ClaimVersion | src/storage/plans.rs:130-152 | an absent version is claimed, an identical one retried, another one refused |
| PlanStore.PlanFiles.Advance | src/storage/plans.rs:154-188 | the current plan advances only from the expected predecessor |
| Imports.ResolvesExactly | src/app/engine.rs:5098-5174 | when each of the six answers is given, by the lineages whose current names are alike up to ASCII case, whose ids are answered too; rejected, ambiguous and overflowing imports leave the store as it is, and nothing else fails |
| Imports.MatchingExactly | src/app/engine.rs:5108-5114 | a lineage matches an import if and only if its current plan has a name of the same length with the same character, or the other case of the same ASCII letter, at each position |
| Imports.NewLineage | src/app/engine.rs:5116-5146 | an import whose name is like no current one, or a duplicate, becomes version 1 of a fresh lineage with its own provenance: generation 0, no parent, and of the imported metadata nothing but the intent |
| Imports.RaisesOneLineage | src/app/engine.rs:5148-5172 | a new version raises the one lineage of a name alike by exactly 1, keeps its local metadata but for the time, and leaves every other lineage alone |
| Imports.NothingOverwritten | src/app/engine.rs:5098-5174 | over any sequence of imports, with writes failing anywhere, no stored (id, version) is overwritten |
| Imports.VersionsCountAppends | src/app/engine.rs:5098-5174 | over any sequence without write failures a lineage's version counts exactly the imports appended to it, its provenance never changes and its current version stays the highest |
| Imports.InterruptedAppendBlocks | src/storage/plans.rs:68-70 | an append whose write fails between snapshot and current plan blocks its lineage with an orphaned next version |
| Imports.BlockedForGood | src/storage/plans.rs:130-152 | over any sequence of imports, with any faults, that never repeats the orphaned plan, the lineage stays blocked and exactly as it is |
| Imports.AppendToBlockedExactly | src/app/engine.rs:5148-5172 | at any time an append to a blocked lineage succeeds if and only if it repeats the orphaned plan |
| Imports.ResolveImportConflict | src/app/engine.rs:5098-5174 | the import in place computes the specified resolution, with the ids of the lineages of that name, and keeps every stored version |
| RepairCommit.ApplyExactly | src/app/engine.rs:4505-4562 | for an apply of a pending patch, with any write failing or taking effect and reporting an error, those of the rollback included: exactly when it succeeds, when it leaves a journal, when the storage cannot be opened any more, and the status the patch ends with |
| RepairCommit.AppliesTheEdit | src/repair/mod.rs:571-624 | the plan an apply answers with, and the one a failed commit leaves in its journal, has the name and body of the edit and all else from the base, which was current, but for the next version, the time and the parent; an answered one is current and stored |
| RepairCommit.ApplyKeepsProposal | src/app/engine.rs:4514-4557 | an apply changes nothing of a pending proposal but its status and the time of its approval, which is there unless it is pending again |
| RepairCommit.SettledExactly | src/app/engine.rs:4505-4589 | over any sequence, every proposal is pending, applied or rejected between any two calls if and only if no apply loses the report of its approval, cannot read its inputs, fails under its journal, or fails before it without being rolled back |
| RepairCommit.FailedApplyCanBeRejected | src/app/engine.rs:4549-4560 | after a failed apply of a pending patch it can be rejected if and only if it was never approved, or was rolled back with its inputs read and no journal left |
| RepairCommit.AppliedAtMostOnce | src/app/engine.rs:4505-4589 | over any sequence of applies, rejections, saves and openings, with any write failing or failing to report, crashes and unreadable journals, a patch becomes a plan at most once, an applied one exactly once, and a rejected one only if it was lost with a journal set aside or left unreported by a rolled-back commit |
| RepairCommit.UnreportedExactly | src/storage/mod.rs:615-624 | an apply leaves a patch that never landed pending, landed and without a journal if and only if its commit ran through, syncing the journal's removal failed, the process lived and the rollback was written |
| RepairCommit.RejectedThoughLanded | src/app/engine.rs:4567-4589 | such a patch can be rejected, though it landed and its plan has moved past the version it is for |
| RepairCommit.ReportIsLost | src/storage/mod.rs:615-624 | there are such applies: a plan with one pending patch for it meets the condition |
| RepairCommit.AstrayForGood | src/repair/mod.rs:504-640 | a patch whose plan landed without its mark stays so over any sequence: every apply of it fails, it never lands again, and a pending one can be rejected whenever the storage opens |
| RepairCommit.CrashIsAllOrNothing | src/storage/mod.rs:464-625 | after a crash anywhere in an apply and any number of crashing recoveries that can read the journal, the patch is applied exactly when its journal was written, and otherwise nothing changed |
| RepairCommit.UnreadableAfterCrash | src/storage/mod.rs:503-519 | if the last opening cannot read the journal instead, it opens, and the patch is landed but not applied exactly when its plan was written and its mark was not; otherwise it is applied and landed, or neither |
| RepairCommit.SetAsideInv | src/storage/mod.rs:296-320 | setting a journal aside at any moment keeps the storage consistent and lets it open, and loses its patch exactly in that gap |
| RepairCommit.ApprovedAstrayForGood | src/repair/mod.rs:504-640 | such a patch that is approved stays approved and unchanged over any sequence of calls: it can neither be applied nor rejected |
| RepairCommit.CompleteInv | src/storage/mod.rs:578-625 | completing a journal, cut short after any of its writes, keeps the storage consistent; it succeeds exactly when all writes happen, the last sync too, and the patch was not put back to pending; the journal goes, the patch is marked exactly when those writes happen |
| RepairCommit.CommitInv | src/storage/mod.rs:420-477 | a commit succeeds exactly when its checks pass, the version is free and all five writes happen and are synced; how far it gets decides whether its journal is left and its patch marked; if it does not start it changes no patch and no current plan |
| RepairCommit.UnreadableInputsStrand | src/app/engine.rs:4539-4548 | an unreadable catalog or base plan leaves the patch approved, and it cannot be rejected any more |
| RepairCommit.RolledBackCommitSticks | src/storage/mod.rs:464-477 | an apply leaves a storage that does not open if and only if its commit fails under its journal and is rolled back, and then the next call fails |
| RepairCommit.StuckForever | src/storage/mod.rs:487-549 | from then on every call fails, over any sequence in which the journal can be read; setting it aside opens the storage again |
| RepairCommit.ApplyKeepsOthers | src/repair/mod.rs:504-640 | an apply touches no other proposal and removes no stored plan |
| RepairCommit.Storage.ApplyProposal | src/app/engine.rs:4505-4562 | the apply in place, its approval, commit and rollback, computes the specified apply |
| RepairCommit.Storage.Reject | src/app/engine.rs:4567-4589 | the rejection in place computes the specified one, which changes exactly a pending patch |
| RepairCommit.RejectExactly | src/app/engine.rs:4567-4589 | which of the five answers a rejection gives, and that it leaves the storage as opened but for the status, the time and the reason of that one pending patch |
| RepairCommit.Storage.CommitRepair | src/storage/mod.rs:420-477 | the commit in place computes the specified commit |
| RepairCommit.Storage.CompleteTransaction | src/storage/mod.rs:578-625 | the completion in place computes the specified completion |
| RepairCommit.Storage.OpenStorage | src/storage/mod.rs:479-549 | opening completes a journal that is left |
| RepairCommit.Storage.SetJournalAside | src/storage/mod.rs:296-320 | an unreadable journal is set aside and nothing of it is completed |
| PlanEdits.ApplyExactly | src/app/engine.rs:4640-4688 | with its status writes succeeding, a pending edit is applied exactly when the save reports success and stays pending otherwise |
| PlanEdits.AnswersExactly | src/app/engine.rs:4640-4688 | settled or unknown edits are refused and left alone; the plan is answered exactly when its save and both writes of the status are done and reported |
| PlanEdits.RejectExactly | src/app/engine.rs:4693-4717 | which of the five answers a rejection gives, and that nothing but the status, the time and the reason of that one pending edit changes |
| PlanEdits.LandsAtMostOnce | src/app/engine.rs:4640-4717 | over any sequence with any write failing, an edit becomes the current plan at most once, and an applied one's lineage never falls behind it |
| PlanEdits.SettledExactly | src/app/engine.rs:4640-4717 | over any sequence, every edit is pending, applied or rejected between any two calls and none that was not applied ever became current, if and only if no apply loses the report of its approval or of its save, leaves its mark unwritten, or fails without being rolled back |
| PlanEdits.StuckRefusesEdits | src/storage/mod.rs:487-549 | while a repair journal sticks, over any sequence of calls, every apply and rejection of an edit is refused and changes nothing |
| PlanEdits.RejectedThoughCurrent | src/app/engine.rs:4669-4685 | an edit whose save stored the plan but reported an error can be rejected with its plan current; applying it again repairs it |
| PlanEdits.EditStore.ApplyPlanEdit | src/app/engine.rs:4640-4688 | the apply in place computes the specified apply |
| PlanEdits.EditStore.RejectPlanEdit | src/app/engine.rs:4693-4717 | the rejection in place computes the specified one, which changes exactly a pending edit |
| Png.SavePngRoundTrip | src/app/debug_shot.rs:64-101 | decoding the saved bytes, with every CRC checked by polynomial division, gives back the image if and only if both dimensions and the data length fit their 32-bit fields (section 3 of RFC 2083) |
| Png.NoRowsNotDecodable | src/app/debug_shot.rs:64-121 | an image without rows is saved as a file that does not decode |
| Png.ZlibRoundTrip | src/app/debug_shot.rs:103-121 | an inflater for stored blocks undoes the writer if and only if the data is not empty (section 3.2.4 of RFC 1951) |
| Png.ZlibBlocks | src/app/debug_shot.rs:103-121 | the stream has exactly ceil(n/65535) blocks with only the last final, and n + 5*ceil(n/65535) + 6 bytes (section 2.2 of RFC 1950) |
| Png.ReadChunkRoundTrip | src/app/debug_shot.rs:92-100 | a chunk whose length fits reads back with its type, its data and what follows, its CRC being the remainder of the division |
| Png.DamagedChunkRejected | src/app/debug_shot.rs:92-100 | a chunk with up to four consecutive bytes of type or data changed is refused by that check |
| Png.UnfilterRows | src/app/debug_shot.rs:66-73 | rows with filter type 0 unfilter to exactly their pixels |
| Png.ChunkCount | src/app/debug_shot.rs:68-107 | chunking gives the fewest pieces, all but the last full |
| Png.Chunks | src/app/debug_shot.rs:68-107 | the pieces are nonempty, no longer than the size and join to the whole |
| Division.CrcByDivision | src/app/debug_shot.rs:123-128 | the CRC the writer computes byte by byte is the reflected complement of the remainder, over GF(2), of the message bits, lowest first, times x^32 and with the first 32 complemented, modulo the polynomial with the exponents 32, 26, 23, 22, 16, 12, 11, 10, 8, 7, 5, 4, 2, 1, 0 (section 3.4 of RFC 2083) |
| Checksum.BurstDetected | src/app/debug_shot.rs:123-128 | two messages of equal length that differ only inside four consecutive bytes have different CRC-32 values (section 3.4 of RFC 2083) |
| Checksum.WindowChangesCrc | src/app/debug_shot.rs:123-128 | the same for two different windows in one message |
| Checksum.ShiftLinear | src/app/debug_shot.rs:123-128 | one shift of the register is linear over GF(2) |
| Checksum.ShiftInjective | src/app/debug_shot.rs:123-128 | one shift loses no information |
| Checksum.CrcFoldInjective | src/app/debug_shot.rs:123-128 | the register after any message determines the register before it |
| Checksum.CrcFoldOfWindow | src/app/debug_shot.rs:123-128 | feeding up to four bytes equals mixing them in at once and shifting afterwards |
| Checksum.AdlerClosedForm | src/app/debug_shot.rs:130-137 | both halves of Adler-32 equal their closed forms (section 2.2 of RFC 1950) |
| Checksum.AdlerStep | src/app/debug_shot.rs:132-136 | both sums stay below the modulus, with every intermediate value a 32-bit one |
| Inspector.FormatIsCanonical | src/app/inspector.rs:35-80 | two texts format alike if and only if they are equal up to whitespace outside string literals |
| Inspector.Layout | src/app/inspector.rs:35-80 | what each character adds to the text formatted so far: the line breaks at brackets and commas, two blanks for every open bracket, one blank after a colon, nothing for outside whitespace |
| Inspector.DepthCounts | src/app/inspector.rs:35-80 | the indentation counts the brackets that are open outside literals |
| Inspector.EscapedExactly | src/app/inspector.rs:41-50 | a character is escaped if and only if it is in a literal after an odd number of backslashes |
| Inspector.QuotedExactly | src/app/inspector.rs:41-56 | a quotation mark that is not escaped begins or ends a literal, and nothing else does |
| Inspector.FormatKeepsSolid | src/app/inspector.rs:35-80 | formatting from any scanner state changes no character but whitespace outside string literals |
| Lexing.FormatKeepsTokensExactly | src/app/inspector.rs:35-80 | formatting keeps the list of tokens (section 2 of RFC 8259) if and only if no two bare tokens are held apart by whitespace alone |
| Lexing.FormatMarks | src/app/inspector.rs:35-80 | from any scanner state the tokens of the formatted text begin exactly where those of the text without outside whitespace do |
| Lexing.BarePairExample | src/app/inspector.rs:35-80 | two numbers held apart by a blank are joined by the formatter |
| Inspector.FormatOfSolid | src/app/inspector.rs:35-80 | a text formats like the same text without whitespace outside literals |
| Inspector.FormatIdempotent | src/app/inspector.rs:35-80 | formatting twice equals formatting once |
| Inspector.PrettyPreservingNumbers | src/app/inspector.rs:35-80 | the loop computes the format and keeps all but outside whitespace |
| ShellEnv.ParseRoundTrip | src/hostenv.rs:622-646 | noise, marker, line break, printed list, marker and anything else parse to the list, for both delimiters |
| ShellEnv.ParseFailsExactly | src/hostenv.rs:622-646 | a parse fails exactly for want of a first marker, of a second one after it, or of a variable between the two; otherwise it gives the variables between the first two |
| ShellEnv.ParseEntryExactly | src/hostenv.rs:638-641 | an entry is a variable if and only if it is well-formed text with a nonempty name without '=', '=' and a value |
| Utf8.ValidUtf8Exactly | src/hostenv.rs:639 | bytes pass as text if and only if they are the encoding of code points that are no surrogates (section 3 of RFC 3629) |
| ShellEnv.EarlyStop | src/hostenv.rs:545-563 | stopping the read at the second marker gives the answer of reading to the end, for every way the output arrives, if and only if the marker does not overlap itself |
| ShellEnv.UniqueFirstByte | src/hostenv.rs:545-563 | a marker whose first byte appears once does not overlap itself |
| ShellEnv.ParseSettled | src/hostenv.rs:622-646 | two occurrences of such a marker settle the result whatever follows |
| ShellEnv.OverlapStopsEarly | src/hostenv.rs:554-556 | every marker that overlaps itself has an output on which the early stop changes the answer |
| ShellEnv.FindBytes | src/hostenv.rs:605-609 | the first occurrence, or none when there is none |
| ShellEnv.CaptureOutput | src/hostenv.rs:545-563 | the reading loop computes the specified capture |
| PathMerge.MergeIdempotent | src/hostenv.rs:673-718 | applying the updates and merging again yields no updates, in both orders |
| PathMerge.MergedPath | src/hostenv.rs:696-715 | the merged PATH is the duplicate-free union of both lists in first-occurrence order without empty entries |
| PathMerge.InheritedKept | src/hostenv.rs:683-694 | no inherited variable except PATH changes |
| PathMerge.OnlyImportableAppears | src/hostenv.rs:683-694 | a variable that appears has the value of a shell entry that is listed and no proxy with credentials |
| PathMerge.ImportedExactly | src/hostenv.rs:683-694 | every variable except PATH has its inherited value, or else that of its last importable shell entry, or none |
| PathMerge.ImportablePresent | src/hostenv.rs:683-694 | every importable variable of the shell is set afterwards, to its inherited value or else to an importable entry of its own name, the last one |
| PathMerge.ProxyVarExactly | src/hostenv.rs:648-650 | a variable is one of a proxy if and only if its name ends in _PROXY, each letter in either case |
| PathMerge.CredentialsExactly | src/hostenv.rs:652-659 | a proxy address has credentials if and only if, after its first ://, an at-sign comes before any path, query or fragment mark |
| PathMerge.RefusedProxies | src/hostenv.rs:683-694 | a listed variable is refused only if it is one of the eight proxy variables and its address has credentials |
| PathMerge.DedupIsFirstOccurrences | src/hostenv.rs:704-709 | the list built entry by entry is the list of first occurrences |
| PathMerge.EqualPaths | src/hostenv.rs:704-709 | doubled and trailing separators and inner "." components do not make paths different |
| PathMerge.DifferentPaths | src/hostenv.rs:704-709 | otherwise the components decide, and whether the path is rooted or begins with "." |
| PathMerge.PathStable | src/hostenv.rs:696-709 | merging the shell's path into the merged path changes nothing |
| PathMerge.MergeShellEnv | src/hostenv.rs:673-718 | the loop over the entries computes the specified merge |
| Dependencies.TransitivelyDependsOn | examples/export_dogfooding.rs:392-410 | the worklist search ends on every graph and finds a target if and only if a chain of at least one dependency leads to it |
| Dependencies.ClosedShutsOut | examples/export_dogfooding.rs:392-410 | from a closed explored set no chain leads to a target |
| Console.SplitExactly | src/app/console.rs:133-134 | the pieces of a text join to it again and hold no line feed |
| Console.TrimsExactly | src/app/console.rs:134 | only carriage returns at the end of a line go |
| Console.LinesExactly | src/app/console.rs:131-134 | a text becomes one line of its stream for every piece, without the carriage returns at its end |
| Console.CompileConsole.Push | src/app/console.rs:131-162 | the buffer is the last 2000 lines ever pushed, and dropped plus kept is all of them |
| Console.CompileConsole.Close | src/app/console.rs:172-187 | the first of two closes in a row wins and the second changes nothing |
| Console.CompileConsole.Tail | src/app/activity.rs:191-198 | the last lines of the buffer are the last lines ever pushed |
| Console.CompileConsole.constructor | src/app/console.rs:106-127 | a new console holds its header line |
| Console.NoteStaysExactly | src/app/console.rs:172-187 | a settled note stays over every further run of closes if and only if every close that looked before it was settled brings the same note |
| Console.SettlesOnce | src/app/console.rs:172-187 | over any run a close settles its note at most once, and is over then; it looks once, first of all (LooksOnce) |
| Console.SecondCloseCanWin | src/app/console.rs:172-187 | two closes that look before either settles leave the second note |
| Activity.RunningAreLiveGuards | src/app/activity.rs:112-136 | in every run the running entries are exactly the live guards and ids strictly decrease from front to back |
| Activity.CompletionsConserved | src/app/activity.rs:163-166 | in every run, completions taken plus pending are as many as the activities begun by the MCP server that ended, and taking leaves none pending |
| Activity.ListedAsBegun | src/app/activity.rs:114-136 | in every run a listed activity has the origin and kind it was begun with |
| Activity.FinishExactly | src/app/activity.rs:174-217 | a finish ends exactly its own entry, drops only finished ones and leaves at most 24 or a running oldest one |
| Activity.EvictsExactly | src/app/activity.rs:202-210 | which entries an eviction keeps |
| Activity.RunInv | src/app/activity.rs:112-217 | every run of starts, finishes and takings keeps the ledger consistent |
| Activity.ActivityRegistry.StartActivity | src/app/activity.rs:114-136 | a start puts a running entry with a new id in front |
| Activity.ActivityRegistry.FinishActivity | src/app/activity.rs:174-217 | a finish closes an open console with the note of its outcome, leaves a closed one its own, and keeps the last 80 lines ever pushed to it |
| Activity.ActivityRegistry.Trim | src/app/activity.rs:202-210 | the loop computes the eviction |
| Activity.ActivityRegistry.TakeMcpCompletions | src/app/activity.rs:161-166 | taking returns what is pending and leaves none |

## Left out

- AtMostOneHolder: the lock is safe for holders that have not begun to drop it; reading a record and, when it cannot be read, its mtime are one step.
- EveryInstantOnce: slots missed while the application was closed are not caught up, as the source says; the window starts with the process.
- NoOccurrenceTwice: about one process at a time with restarts in between; several at once are the subject of NeverDoubleFires.
- NeverDoubleFires: runs in flight of a process that dropped the lock are not counted, and all processes read one clock.
- PanicStrandsExactly: only executions panic; aborts and deletions do not, and the receiver, claim and guards of an execution that ends go in one step.
- DeletionIsSafe: one process shares the registry; an execution in a second process is kept off only by the lifecycle claim.
- CancelledIsClosed: holds for what a cancellation writes; the executor's own save of a rejected approval is covered by RejectionKeepsOpenSteps.
- CrashLeavesRunning: a crash is a new start of the machine with the stored record, not a step of it.
- AppliedAtMostOnce: crashes are those of the process; a file operation that took effect stays in effect, also if the power fails later.
- SetAsideInv: a journal that can be neither read nor renamed stays in place in the source; here setting it aside succeeds.
- ResolvesExactly: the ids of same-name plans are a set; their sorting and the skipping of unreadable records are not modelled.
- MergeIdempotent: Windows rules for variable names, separators and joining are not modelled.
- CaptureOutput: the timeout and the killing of the shell are not modelled; each read is one event.
- Close: a console in one thread; two threads are the subject of NoteStaysExactly and SecondCloseCanWin.
- The executor's steps, the repair operation on a plan and the plan validator: a run writes arbitrary checkpoints, an operation succeeds with any plan or fails.
- Runs started over MCP: the machine has their resumes and continuations; their start registers nothing.
- Cron parsing: a cron expression is any set of instants with a least next one.
- Update gate and poisoned locks: a tick they refuse does nothing.
- The console's log file, repaint hooks, logging, telemetry and timestamps shown only.
- Record-id validation, deletion of plans and the listing order of stores: easy members.
- Views, documentation rendering, HTTP and CLI transports, OAuth, path confinement and the single-instance guard.
