/** The lock's own code as it works on the directory in place: acquisition, heartbeat and drop
    of one process, with steps of the others wherever they may come in and with file operations
    that fail. Every call is shown to be a run of the SchedulerLock machine. */
module LockDirectories {
  import opened Wrappers
  import opened SchedulerLock

  const ACQUIRE_ATTEMPTS: nat := 8

  datatype LockAcquisition = Acquired | Held(holder: Option<nat>) | WouldBlock | Failed

  // How far writing a record gets.
  datatype Writing = Synced | NotTruncated | NotWritten | NotSynced

  // How the file operations of one attempt go: all well but for the first record's writing, or
  // one of the others failing for another reason than a file that is or is not there.
  datatype Operations = Working(first: Writing) | CreateFails | ReadsFail | RenameFails

  // The others neither act for p nor draw its fresh inode and token.
  predicate LeavesAlone(step: Step, p: nat, inode: nat, token: nat) {
    !IsStepOf(step, p) && (step.Create? ==> step.inode != inode && step.token != token)
  }

  predicate AllLeaveAlone(steps: seq<Step>, p: nat, inode: nat, token: nat) {
    forall i | 0 <= i < |steps| :: LeavesAlone(steps[i], p, inode, token)
  }

  // The holder named is whose record is in the file, and nobody if there is none.
  predicate IsHolder(holder: Option<nat>, file: File) {
    && (file.content.Record? ==> holder == Some(file.content.token))
    && (file.content.Unreadable? ==> holder == None)
  }

  ghost predicate Alone(others: nat -> seq<Step>) {
    forall n: nat :: others(n) == []
  }

  ghost predicate Untroubled(io: nat -> Operations) {
    forall n: nat :: io(n) == Working(Synced)
  }

  // Whom a reader reports as the holder.
  function Holder(file: File): Option<nat> {
    match file.content
    case Record(token, _) => Some(token)
    case Unreadable => None
  }

  // What the others' steps cannot change for p.
  lemma AloneStep(s: State, step: Step, p: nat, inode: nat, token: nat)
    requires Inv(s) && Enabled(s, step) && LeavesAlone(step, p, inode, token)
    ensures At(After(s, step), p) == At(s, p)
    ensures inode !in s.files && token !in s.tokens ==>
              inode !in After(s, step).files && token !in After(s, step).tokens
    ensures At(s, p).Owner? ==> FileAt(After(s, step), At(s, p).inode) == FileAt(s, At(s, p).inode)
    ensures Evicted(s, At(s, p)) ==> Evicted(After(s, step), At(s, p))
  {
    assert At(s, p).Owner? ==> FileOfOwner(s, At(s, p));
  }

  // The owner after its record was written as far as given.
  function AfterWriting(q: Process, now: nat, writing: Writing): Process
    requires q.Owner?
  {
    match writing
    case Synced => q.(beat := now, acquired := true, phase := Resting(true))
    case NotSynced => q.(beat := now, acquired := true, phase := Resting(false))
    case _ => if q.acquired then q.(phase := Resting(false)) else Idle
  }

  class LockDirectory {
    const lease: nat
    var clock: nat
    var path: Option<nat>
    var files: map<nat, File>
    var tokens: set<nat>
    var processes: map<nat, Process>

    function View(): State
      reads this
    {
      State(clock, lease, path, files, tokens, processes)
    }

    constructor (leftovers: State)
      requires Init(leftovers)
      ensures View() == leftovers
    {
      lease := leftovers.lease;
      clock, path, files := leftovers.clock, leftovers.path, leftovers.files;
      tokens, processes := leftovers.tokens, leftovers.processes;
    }

    method Perform(step: Step)
      requires Enabled(View(), step)
      modifies this
      ensures View() == After(old(View()), step)
    {
      var s := After(View(), step);
      clock, path, files, tokens, processes := s.clock, s.path, s.files, s.tokens, s.processes;
    }

    // The steps of other processes, those that are possible when they come.
    method Meanwhile(steps: seq<Step>, p: nat, inode: nat, token: nat) returns (ghost run: seq<Step>)
      requires Inv(View()) && AllLeaveAlone(steps, p, inode, token)
      modifies this
      ensures IsRun(old(View()), run, View()) && Inv(View())
      ensures At(View(), p) == At(old(View()), p)
      ensures old(inode !in files && token !in tokens) ==> inode !in files && token !in tokens
      ensures At(View(), p).Owner? ==> FileAt(View(), At(View(), p).inode) == FileAt(old(View()), At(View(), p).inode)
      ensures steps == [] ==> View() == old(View())
      ensures Evicted(old(View()), At(View(), p)) ==> Evicted(View(), At(View(), p))
      ensures forall i | 0 <= i < |run| :: !IsStepOf(run[i], p)
    {
      run := [];
      for i := 0 to |steps|
        invariant IsRun(old(View()), run, View()) && Inv(View())
        invariant At(View(), p) == At(old(View()), p) && (i == 0 ==> View() == old(View()))
        invariant old(inode !in files && token !in tokens) ==> inode !in files && token !in tokens
        invariant At(View(), p).Owner? ==>
          FileAt(View(), At(View(), p).inode) == FileAt(old(View()), At(View(), p).inode)
        invariant Evicted(old(View()), At(View(), p)) ==> Evicted(View(), At(View(), p))
        invariant forall k | 0 <= k < |run| :: !IsStepOf(run[k], p)
      {
        if Enabled(View(), steps[i]) {
          AloneStep(View(), steps[i], p, inode, token);
          StepInv(View(), steps[i]);
          Extend(old(View()), run, View(), steps[i]);
          Perform(steps[i]);
          run := run + [steps[i]];
        }
      }
    }

    // write_record: the stamp is taken first, then the file is emptied, then written and synced.
    // A failure ends the heartbeats, or the acquisition when it was the first record.
    method WriteRecord(p: nat, sampled: seq<Step>, emptied: seq<Step>, inode: nat, token: nat, writing: Writing)
      returns (ghost run: seq<Step>)
      requires Inv(View()) && Enabled(View(), Sample(p))
      requires AllLeaveAlone(sampled, p, inode, token) && AllLeaveAlone(emptied, p, inode, token)
      modifies this
      ensures IsRun(old(View()), run, View()) && Inv(View())
      ensures At(View(), p) == AfterWriting(At(old(View()), p), old(clock), writing)
      ensures var q := At(old(View()), p);
              match writing
              case NotTruncated => FileAt(View(), q.inode) == FileAt(old(View()), q.inode)
              case NotWritten => FileAt(View(), q.inode).content == Unreadable
              case _ => FileAt(View(), q.inode).content == Record(q.token, old(clock))
    {
      var q := processes[p];
      ghost var s := View();
      var now := clock;
      processes := processes[p := q.(phase := Sampled(now))];
      run := Taken(s, [], s, Sample(p));
      run := Interleaved(s, run, sampled, p, inode, token);
      ghost var mid := View();
      if writing.NotTruncated? {
        GiveUp(p);
        run := Taken(s, run, mid, Fail(p));
        return;
      }
      Empty(p);
      run := Taken(s, run, mid, Truncate(p));
      run := Interleaved(s, run, emptied, p, inode, token);
      run := WriteContent(s, run, p, now, writing);
    }

    // Into the emptied file.
    method WriteContent(ghost s: State, ghost run: seq<Step>, p: nat, now: nat, writing: Writing)
      returns (ghost more: seq<Step>)
      requires IsRun(s, run, View()) && Inv(View())
      requires At(View(), p).Owner? && At(View(), p).phase == Truncated(now) && !writing.NotTruncated?
      modifies `files, `processes
      ensures IsRun(s, more, View()) && Inv(View())
      ensures var q := At(old(View()), p);
              && At(View(), p) == AfterWriting(q, now, writing)
              && FileAt(View(), q.inode)
                 == if writing.NotWritten? then FileAt(old(View()), q.inode) else File(Record(q.token, now), clock)
    {
      ghost var mid := View();
      if writing.NotWritten? {
        GiveUp(p);
        more := Taken(s, run, mid, Fail(p));
        return;
      }
      var q := processes[p];
      files := files[q.inode := File(Record(q.token, now), clock)];
      processes := processes[p := q.(beat := now, acquired := true, phase := Resting(true))];
      more := Taken(s, run, mid, Write(p));
      if writing.NotSynced? {
        mid := View();
        GiveUp(p);
        more := Taken(s, more, mid, Fail(p));
      }
    }

    // A write error: no heartbeat follows it, and a first record that failed owns nothing.
    method GiveUp(p: nat)
      requires Enabled(View(), Fail(p))
      modifies `processes
      ensures View() == After(old(View()), Fail(p))
    {
      var q := processes[p];
      processes := processes[p := if q.acquired then q.(phase := Resting(false)) else Idle];
    }

    method Empty(p: nat)
      requires Inv(View()) && Enabled(View(), Truncate(p))
      modifies `files, `processes
      ensures View() == After(old(View()), Truncate(p))
      ensures FileAt(View(), At(View(), p).inode).content == Unreadable
    {
      var q := processes[p];
      assert FileOfOwner(View(), q);
      var file := files[q.inode];
      if file.content.Record? {
        file := File(Unreadable, clock);
      }
      files := files[q.inode := file];
      processes := processes[p := q.(phase := Truncated(q.phase.now))];
    }

    // Others between two steps of an owner.
    method Interleaved(ghost s: State, ghost run: seq<Step>, steps: seq<Step>, p: nat, inode: nat, token: nat)
      returns (ghost more: seq<Step>)
      requires IsRun(s, run, View()) && Inv(View()) && AllLeaveAlone(steps, p, inode, token) && At(View(), p).Owner?
      modifies this
      ensures IsRun(s, more, View()) && Inv(View())
      ensures At(View(), p) == At(old(View()), p)
      ensures FileAt(View(), At(View(), p).inode) == FileAt(old(View()), At(View(), p).inode)
      ensures steps == [] ==> View() == old(View())
      ensures Evicted(old(View()), At(View(), p)) ==> Evicted(View(), At(View(), p))
      ensures forall i | 0 <= i < |more| :: (i < |run| && more[i] == run[i]) || !IsStepOf(more[i], p)
    {
      ghost var mid := View();
      ghost var taken := Meanwhile(steps, p, inode, token);
      Join(s, run, mid, taken, View());
      more := run + taken;
    }

    // acquire_with_timing. Others may come in before each attempt, after a refused creation,
    // between the judgement and the rename, and while the first record is written.
    method Acquire(p: nat, inode: nat, token: nat, others: nat -> seq<Step>, io: nat -> Operations)
      returns (result: LockAcquisition, ghost run: seq<Step>)
      requires Inv(View()) && At(View(), p) == Idle && inode !in files && token !in tokens
      requires forall n: nat :: AllLeaveAlone(others(n), p, inode, token)
      modifies this
      ensures IsRun(old(View()), run, View()) && Inv(View())
      ensures match result
              case Acquired =>
                && At(View(), p).Owner? && Holds(At(View(), p)) && At(View(), p).acquired
                && At(View(), p).inode == inode && At(View(), p).token == token
                && FileAt(View(), inode).content == Record(token, At(View(), p).beat)
              case Held(holder) =>
                && At(View(), p) == Idle && path.Some? && IsFresh(clock, lease, FileAt(View(), path.value))
                && IsHolder(holder, FileAt(View(), path.value))
              case _ => At(View(), p) == Idle
      ensures Untroubled(io) ==> result != Failed
      ensures Alone(others) && Untroubled(io) ==>
        if old(path).Some? && IsFresh(old(clock), lease, FileAt(old(View()), old(path).value))
        then result.Held? && IsHolder(result.holder, FileAt(old(View()), old(path).value))
        else result == Acquired
    {
      ghost var s := View();
      run := [];
      for attempt := 0 to ACQUIRE_ATTEMPTS
        invariant IsRun(s, run, View()) && Inv(View())
        invariant At(View(), p) == Idle && inode !in files && token !in tokens
        invariant Alone(others) && Untroubled(io) && attempt == 0 ==> View() == s
        invariant Alone(others) && Untroubled(io) && attempt == 1 ==>
          path == None && s.path.Some? && !IsFresh(s.clock, s.lease, FileAt(s, s.path.value))
        invariant Alone(others) && Untroubled(io) ==> attempt <= 1
      {
        run := Interleave(s, run, others(5 * attempt), p, inode, token);
        if io(attempt).CreateFails? {
          return Failed, run;
        }
        if path == None {
          var first := if io(attempt).Working? then io(attempt).first else Synced;
          run := CreateLock(s, run, others(5 * attempt + 1), others(5 * attempt + 2), p, inode, token, first);
          return if first.Synced? then Acquired else Failed, run;
        }
        run := RefuseCreation(s, run, p);
        run := Interleave(s, run, others(5 * attempt + 3), p, inode, token);
        var answer;
        answer, run := TakeAway(s, run, others(5 * attempt + 4), p, inode, token,
                                !io(attempt).ReadsFail?, !io(attempt).RenameFails?);
        if answer.Some? {
          return answer.value, run;
        }
      }
      result := WouldBlock;
    }

    // create_new finds a file there.
    method RefuseCreation(ghost s: State, ghost run: seq<Step>, p: nat) returns (ghost more: seq<Step>)
      requires IsRun(s, run, View()) && Inv(View()) && At(View(), p) == Idle && path.Some?
      modifies `processes
      ensures IsRun(s, more, View()) && Inv(View()) && At(View(), p) == Refused
    {
      ghost var mid := View();
      processes := processes[p := Refused];
      more := Taken(s, run, mid, Refuse(p));
    }

    // After a refused creation: a fresh lock is left alone, anything else is renamed away, also
    // when nothing could be read.
    method TakeAway(ghost s: State, ghost run: seq<Step>, judged: seq<Step>, p: nat, inode: nat, token: nat,
                    readable: bool, renames: bool)
      returns (answer: Option<LockAcquisition>, ghost more: seq<Step>)
      requires IsRun(s, run, View()) && Inv(View()) && AllLeaveAlone(judged, p, inode, token)
      requires At(View(), p) == Refused && inode !in files && token !in tokens
      modifies this
      ensures IsRun(s, more, View()) && Inv(View())
      ensures At(View(), p) == Idle && inode !in files && token !in tokens
      ensures if old(path).Some? && readable && IsFresh(old(clock), lease, FileAt(old(View()), old(path).value))
              then View() == old(View()).(processes := processes)
                   && answer.Some? && answer.value.Held?
                   && IsHolder(answer.value.holder, FileAt(old(View()), old(path).value))
              else if renames then answer == None && path == None else answer == Some(Failed)
    {
      ghost var mid := View();
      if path.Some? && readable {
        var file := FileAt(View(), path.value);
        if IsFresh(clock, lease, file) {
          processes := processes[p := Idle];
          more := Taken(s, run, mid, FindFresh(p));
          return Some(Held(Holder(file))), more;
        }
        processes := processes[p := Unlinking(path.value)];
        more := Taken(s, run, mid, Judge(p));
      } else {
        processes := processes[p := UnlinkingUnseen];
        more := Taken(s, run, mid, JudgeUnseen(p));
      }
      more := Interleave(s, more, judged, p, inode, token);
      more := RenameAway(s, more, p, renames);
      answer := if renames then None else Some(Failed);
    }

    method RenameAway(ghost s: State, ghost run: seq<Step>, p: nat, renames: bool) returns (ghost more: seq<Step>)
      requires IsRun(s, run, View()) && Inv(View()) && Enabled(View(), Unlink(p))
      modifies `path, `processes
      ensures IsRun(s, more, View()) && Inv(View()) && At(View(), p) == Idle
      ensures more == run + [if renames then Unlink(p) else Crash(p)]
      ensures path == if renames then None else old(path)
    {
      ghost var mid := View();
      processes := processes[p := Idle];
      if renames {
        path := None;
        more := Taken(s, run, mid, Unlink(p));
      } else {
        more := Taken(s, run, mid, Crash(p));
      }
    }

    // create_lock, once the path is found free. When the first record fails the file stays and
    // nobody owns it.
    method CreateLock(ghost s: State, ghost run: seq<Step>, sampled: seq<Step>, emptied: seq<Step>,
                      p: nat, inode: nat, token: nat, writing: Writing)
      returns (ghost more: seq<Step>)
      requires IsRun(s, run, View()) && Inv(View()) && Enabled(View(), Create(p, inode, token))
      requires AllLeaveAlone(sampled, p, inode, token) && AllLeaveAlone(emptied, p, inode, token)
      modifies this
      ensures IsRun(s, more, View()) && Inv(View())
      ensures At(View(), p) == if writing.Synced? then Owner(inode, token, old(clock), true, Resting(true)) else Idle
      ensures FileAt(View(), inode).content
           == if writing.NotTruncated? || writing.NotWritten? then Unreadable else Record(token, old(clock))
    {
      ghost var mid := View();
      path, files := Some(inode), files[inode := File(Unreadable, clock)];
      tokens, processes := tokens + {token}, processes[p := Owner(inode, token, clock, false, Created)];
      more := Taken(s, run, mid, Create(p, inode, token));
      mid := View();
      ghost var rest := WriteRecord(p, sampled, emptied, inode, token, writing);
      Join(s, more, mid, rest, View());
      more := more + rest;
      if writing.NotSynced? {
        mid := View();
        processes := processes[p := Idle];
        more := Taken(s, more, mid, Crash(p));
      }
    }

    method Interleave(ghost s: State, ghost run: seq<Step>, steps: seq<Step>, p: nat, inode: nat, token: nat)
      returns (ghost more: seq<Step>)
      requires IsRun(s, run, View()) && Inv(View()) && AllLeaveAlone(steps, p, inode, token)
      requires inode !in files && token !in tokens
      modifies this
      ensures IsRun(s, more, View()) && Inv(View())
      ensures At(View(), p) == At(old(View()), p) && inode !in files && token !in tokens
      ensures steps == [] ==> View() == old(View())
    {
      ghost var mid := View();
      ghost var taken := Meanwhile(steps, p, inode, token);
      Join(s, run, mid, taken, View());
      more := run + taken;
    }

    // Drop: the heartbeats are over, the token is read, and only the own file is removed. An
    // owner that lost the path before removes nothing, whatever the others do meanwhile.
    method Drop(p: nat, stopped: seq<Step>, seen: seq<Step>) returns (ghost run: seq<Step>)
      requires Inv(View()) && Enabled(View(), Stop(p))
      requires var q := At(View(), p);
               AllLeaveAlone(stopped, p, q.inode, q.token) && AllLeaveAlone(seen, p, q.inode, q.token)
      modifies this
      ensures IsRun(old(View()), run, View()) && Inv(View()) && At(View(), p) == Idle
      ensures Evicted(old(View()), At(old(View()), p)) ==> Unlink(p) !in run
      ensures stopped == [] && seen == [] ==>
        && files == old(files)
        && path == if old(path) == Some(At(old(View()), p).inode) && FileAt(View(), old(path).value).content.Record?
                   then None else old(path)
    {
      ghost var s := View();
      var q := processes[p];
      run := StopBeats(p);
      hide Inv, IsRun;
      run := Interleaved(s, run, stopped, p, q.inode, q.token);
      var own;
      own, run := ReadOwnToken(s, run, p);
      if own {
        run := Unlinked(s, run, seen, p, q.inode, q.token);
      }
    }

    method StopBeats(p: nat) returns (ghost run: seq<Step>)
      requires Inv(View()) && Enabled(View(), Stop(p))
      modifies `processes
      ensures run == [Stop(p)] && IsRun(old(View()), run, View()) && Inv(View())
      ensures At(View(), p) == At(old(View()), p).(phase := Stopping)
    {
      ghost var s := View();
      processes := processes[p := processes[p].(phase := Stopping)];
      run := Taken(s, [], s, Stop(p));
    }

    // Whether the record at the path is the own one.
    method ReadOwnToken(ghost s: State, ghost run: seq<Step>, p: nat) returns (own: bool, ghost more: seq<Step>)
      requires IsRun(s, run, View()) && Inv(View()) && At(View(), p).Owner? && At(View(), p).phase == Stopping
      modifies `processes
      ensures IsRun(s, more, View()) && Inv(View()) && more == run + [ReadToken(p)]
      ensures own <==> path == Some(At(old(View()), p).inode) && FileAt(View(), path.value).content.Record?
      ensures At(View(), p) == if own then Unlinking(path.value) else Idle
    {
      ghost var mid := View();
      var q := processes[p];
      assert FileOfOwner(mid, q);
      own := path.Some? && OwnRecord(FileAt(View(), path.value), q.token);
      processes := processes[p := if own then Unlinking(path.value) else Idle];
      more := Taken(s, run, mid, ReadToken(p));
    }

    method Unlinked(ghost s: State, ghost run: seq<Step>, seen: seq<Step>, p: nat, inode: nat, token: nat)
      returns (ghost more: seq<Step>)
      requires IsRun(s, run, View()) && Inv(View()) && Enabled(View(), Unlink(p))
      requires AllLeaveAlone(seen, p, inode, token)
      modifies this
      ensures IsRun(s, more, View()) && Inv(View()) && At(View(), p) == Idle && path == None
      ensures seen == [] ==> files == old(files)
    {
      ghost var mid := View();
      ghost var others := Meanwhile(seen, p, inode, token);
      Join(s, run, mid, others, View());
      more := RenameAway(s, run + others, p, true);
    }

    // Bookkeeping: the last step led from `mid` to the present state.
    ghost method Taken(s: State, run: seq<Step>, mid: State, step: Step) returns (more: seq<Step>)
      requires IsRun(s, run, mid) && Inv(mid) && Enabled(mid, step) && View() == After(mid, step)
      ensures more == run + [step] && IsRun(s, more, View()) && Inv(View())
    {
      StepInv(mid, step);
      Extend(s, run, mid, step);
      more := run + [step];
    }
  }
}
