/** The scheduler loop as it works in place, in the sections between which other code may run:
    edits of the store, finished and panicked runs, and the passing of time. */
module Schedulers {
  import opened Wrappers
  import opened CronDispatch
  import opened SchedulerLoop

  ghost predicate Undisturbed(others: nat -> seq<Step>) {
    forall n: nat :: others(n) == []
  }

  ghost predicate IsRun(s: State, run: seq<Step>, end: State, next: Next) {
    Possible(s, run, next) && Final(s, run, next) == end
  }

  lemma Extend(s: State, run: seq<Step>, mid: State, step: Step, next: Next)
    requires IsRun(s, run, mid, next) && Enabled(mid, step)
    ensures IsRun(s, run + [step], After(mid, step, next), next)
  {
    var rest := [step][1..];
    assert rest == [];
    assert Possible(After(mid, step, next), rest, next);
    assert Final(After(mid, step, next), rest, next) == After(mid, step, next);
    TwoParts(s, run, [step], next);
  }

  class Scheduler {
    const next: Next
    var clock: int
    var lastTick: int
    var stored: seq<Schedule>
    var active: set<string>
    var runs: map<nat, string>
    var loop: Loop
    ghost var stranded: set<string>
    ghost var since: int
    ghost var before: nat
    ghost var windows: seq<Window>
    ghost var log: seq<Dispatch>

    ghost function View(): State
      reads this
    {
      State(clock, since, lastTick, stored, active, runs, stranded, loop, windows, before, log)
    }

    constructor (next: Next, clock: int, stored: seq<Schedule>)
      ensures View() == Start(clock, stored) && this.next == next
    {
      this.next, this.clock, lastTick, this.stored := next, clock, clock, stored;
      active, runs, loop := {}, map[], Sleeping;
      stranded, since, before, windows, log := {}, clock, 0, [], [];
    }

    // The time, the pause setting and the active set are read.
    method Snapshot(paused: bool)
      requires loop.Sleeping?
      modifies `loop
      ensures View() == After(old(View()), Wake(paused), next)
    {
      loop := Snapshotted(clock, paused, active);
    }

    // The claim, under the mutation gate; a failed one keeps the window.
    method Claim(readable: bool, saving: Write) returns (claimed: bool)
      requires loop.Snapshotted?
      modifies `stored, `lastTick, `windows, `loop
      ensures View() == After(old(View()), ClaimDue(readable, saving), next)
      ensures claimed <==> Succeeds(old(View()), ClaimDue(readable, saving), next)
    {
      var now := loop.now;
      var claim := ClaimDueSchedules(stored, readable, saving, loop.paused, loop.busy, lastTick, now, next);
      stored := claim.stored;
      claimed := claim.due.Ok?;
      if claimed {
        var window := Window(lastTick, now);
        lastTick, windows := now, windows + [window];
        loop := LoopOn(Queue(claim.due.value, window, next));
      } else {
        loop := Sleeping;
      }
    }

    // One schedule is marked active, then its run is spawned.
    method StartRun(task: nat)
      requires Enabled(View(), DispatchNext(task))
      modifies `active, `runs, `log, `loop
      ensures View() == After(old(View()), DispatchNext(task), next)
    {
      var d := loop.queue[0];
      active := active + {d.id};
      runs := runs[task := d.id];
      log := log + [d];
      loop := LoopOn(loop.queue[1..]);
    }

    // A finished run makes its schedule available again.
    method FinishRun(task: nat)
      requires task in runs
      modifies `active, `runs
      ensures View() == After(old(View()), Finish(task), next)
    {
      active := active - {runs[task]};
      runs := runs - {task};
    }

    // What other code does, as far as it is possible when it comes; the loop's own steps are not.
    method Meanwhile(steps: seq<Step>, tasks: nat) returns (ghost run: seq<Step>)
      requires forall task | task in runs :: task < tasks
      modifies this
      ensures IsRun(old(View()), run, View(), next)
      ensures loop == old(loop) && lastTick == old(lastTick) && log == old(log)
      ensures forall task | task in runs :: task < tasks
      ensures steps == [] ==> View() == old(View())
    {
      run := [];
      for i := 0 to |steps|
        invariant IsRun(old(View()), run, View(), next)
        invariant loop == old(loop) && lastTick == old(lastTick) && log == old(log)
        invariant forall task | task in runs :: task < tasks
        invariant i == 0 ==> View() == old(View())
      {
        ghost var mid := View();
        var step := steps[i];
        var possible := true;
        match step {
          case Advance(to) => clock := to;
          case Edit(schedules) =>
            possible := UniqueIds(schedules);
            if possible {
              stored := schedules;
            }
          case Finish(task) =>
            possible := task in runs;
            if possible {
              FinishRun(task);
            }
          case Panic(task) =>
            possible := task in runs;
            if possible {
              stranded := stranded + {runs[task]};
              runs := runs - {task};
            }
          case _ => possible := false;
        }
        if possible {
          Extend(old(View()), run, mid, step, next);
          run := run + [step];
        }
      }
    }

    // One tick, with other code between its sections: a run of the machine that ends asleep.
    // Undisturbed, a failed claim leaves all but the stamps of an unreported save, and a
    // successful one stamps the store, moves the window and starts one run per claimed schedule.
    method Tick(paused: bool, readable: bool, saving: Write, tasks: nat, others: nat -> seq<Step>)
      returns (claimed: bool, ghost run: seq<Step>)
      requires loop.Sleeping? && forall task | task in runs :: task < tasks
      modifies this
      ensures IsRun(old(View()), run, View(), next) && loop.Sleeping?
      ensures lastTick == if claimed then old(clock) else old(lastTick)
      ensures !claimed ==> log == old(log)
      ensures Undisturbed(others) ==>
        var due := Selection(old(stored), paused, old(active), old(lastTick), clock, next);
        var claim := ClaimDueSchedules(old(stored), readable, saving, paused, old(active), old(lastTick), clock, next);
        && clock == old(clock) && (claimed <==> claim.due.Ok?)
        && stored == claim.stored
        && (!claimed ==> View() == old(View()).(stored := claim.stored))
        && (claimed ==>
             && stored == Stamped(old(stored), Ids(due), clock)
             && active == old(active) + Ids(due)
             && log == old(log) + Queue(due, Window(old(lastTick), clock), next))
    {
      hide ClaimDueSchedules, Selection, Stamped, Queue;
      ghost var s := View();
      Snapshot(paused);
      Extend(s, [], s, Wake(paused), next);
      ghost var mid := View();
      ghost var more := Meanwhile(others(0), tasks);
      TwoParts(s, [Wake(paused)], more, next);
      run := [Wake(paused)] + more;
      mid := View();
      claimed := Claim(readable, saving);
      ClaimEffect(mid, ClaimDue(readable, saving), next);
      Extend(s, run, mid, ClaimDue(readable, saving), next);
      run := run + [ClaimDue(readable, saving)];
      ghost var claimedState := View();
      QueueIds(Selection(mid.stored, paused, mid.loop.busy, mid.lastTick, mid.loop.now, next),
          Window(mid.lastTick, mid.loop.now), next);
      more := StartAll(tasks, others);
      TwoParts(s, run, more, next);
      run := run + more;
    }

    // Dispatching what was claimed, one by one.
    method StartAll(tasks: nat, others: nat -> seq<Step>) returns (ghost run: seq<Step>)
      requires forall task | task in runs :: task < tasks
      requires !loop.Snapshotted? && (loop.Dispatching? ==> loop.queue != [])
      modifies this
      ensures IsRun(old(View()), run, View(), next) && loop.Sleeping?
      ensures lastTick == old(lastTick) && log == old(log) + old(Pending(View()))
      ensures Undisturbed(others) ==>
        && clock == old(clock) && stored == old(stored)
        && active == old(active) + DispatchIds(old(Pending(View())))
        && (old(Pending(View())) == [] ==> View() == old(View()))
    {
      ghost var s := View();
      ghost var queue := Pending(View());
      var n := 0;
      run := [];
      while loop.Dispatching?
        invariant n <= |queue| && Pending(View()) == queue[n..] && loop == LoopOn(queue[n..])
        invariant IsRun(s, run, View(), next)
        invariant lastTick == s.lastTick && log == s.log + queue[..n]
        invariant forall task | task in runs :: task < tasks + n
        invariant Undisturbed(others) ==>
          clock == s.clock && stored == s.stored && active == s.active + DispatchIds(queue[..n])
        invariant n == 0 ==> View() == s
        decreases |queue| - n
      {
        hide DispatchIds, LoopOn, IsRun;
        run := StartOne(s, run, others(n + 1), tasks + n, queue, n);
        n := n + 1;
      }
      assert queue[..n] == queue;
    }

    // Other code first, then the next run of the queue.
    method StartOne(ghost s: State, ghost run: seq<Step>, others: seq<Step>, task: nat, ghost queue: seq<Dispatch>,
                    ghost n: nat)
      returns (ghost more: seq<Step>)
      requires IsRun(s, run, View(), next) && n < |queue| && loop == Dispatching(queue[n..])
      requires forall t | t in runs :: t < task
      modifies this
      ensures IsRun(s, more, View(), next)
      ensures loop == LoopOn(queue[n + 1..]) && Pending(View()) == queue[n + 1..]
      ensures lastTick == old(lastTick)
      ensures log == old(log) + [queue[n]] && queue[..n + 1] == queue[..n] + [queue[n]]
      ensures forall t | t in runs :: t < task + 1
      ensures DispatchIds(queue[..n + 1]) == DispatchIds(queue[..n]) + {queue[n].id}
      ensures others == [] ==> clock == old(clock) && stored == old(stored) && active == old(active) + {queue[n].id}
    {
      hide Possible, Final, After, DispatchIds;
      ghost var taken := Meanwhile(others, task);
      TwoParts(s, run, taken, next);
      ghost var mid := View();
      StartNext(task, queue, n);
      Extend(s, run + taken, mid, DispatchNext(task), next);
      more := run + taken + [DispatchNext(task)];
    }

    method StartNext(task: nat, ghost queue: seq<Dispatch>, ghost n: nat)
      requires n < |queue| && loop == Dispatching(queue[n..]) && task !in runs
      modifies `active, `runs, `log, `loop
      ensures Enabled(old(View()), DispatchNext(task)) && View() == After(old(View()), DispatchNext(task), next)
      ensures loop == LoopOn(queue[n + 1..]) && runs == old(runs)[task := queue[n].id]
      ensures log == old(log) + [queue[n]] && queue[..n + 1] == queue[..n] + [queue[n]]
      ensures active == old(active) + {queue[n].id}
      ensures DispatchIds(queue[..n + 1]) == DispatchIds(queue[..n]) + {queue[n].id}
    {
      assert queue[n..][0] == queue[n] && queue[n..][1..] == queue[n + 1..];
      StartRun(task);
      DispatchIdsGrow(queue, n);
    }
  }

  ghost function DispatchIds(queue: seq<Dispatch>): set<string> {
    set i | 0 <= i < |queue| :: queue[i].id
  }

  lemma DispatchIdsGrow(queue: seq<Dispatch>, n: nat)
    requires n < |queue|
    ensures DispatchIds(queue[..n + 1]) == DispatchIds(queue[..n]) + {queue[n].id}
  {
    var more := queue[..n + 1];
    forall id ensures id in DispatchIds(more) <==> id in DispatchIds(queue[..n]) + {queue[n].id} {
      if id in DispatchIds(queue[..n]) {
        var k :| 0 <= k < n && queue[..n][k].id == id;
        assert more[k].id == id;
      }
      assert more[n].id == queue[n].id;
    }
  }

  lemma QueueIds(due: seq<Schedule>, window: Window, next: Next)
    ensures DispatchIds(Queue(due, window, next)) == Ids(due)
  {
    var queue := Queue(due, window, next);
    forall id ensures id in DispatchIds(queue) <==> id in Ids(due) {
      if id in Ids(due) {
        var k :| 0 <= k < |due| && due[k].id == id;
        assert queue[k].id == id;
      }
    }
  }
}
