/** The background scheduler: each tick claims the enabled schedules that fire between the last
    tick and now, dispatches them one by one, and never lets one schedule run twice at once.
    A cron expression is any set of instants, known to the loop through its next occurrence. */
module CronDispatch {
  import opened Wrappers

  datatype Schedule = Schedule(id: string, plan: string, cron: string, enabled: bool, lastRun: Option<int>)

  type Next = (string, int) -> Option<int>

  // `next` gives the least firing instant strictly after its argument.
  ghost predicate IsNextOf(next: Next, fires: (string, int) -> bool) {
    forall cron: string, after: int ::
      match next(cron, after)
      case Some(at) => after < at && fires(cron, at) && forall t | after < t < at :: !fires(cron, t)
      case None => forall t | after < t :: !fires(cron, t)
  }

  predicate IsDue(schedule: Schedule, lastTick: int, now: int, next: Next) {
    schedule.enabled && match next(schedule.cron, lastTick) case Some(at) => at <= now case None => false
  }

  function DueSchedules(schedules: seq<Schedule>, paused: bool, lastTick: int, now: int, next: Next): seq<Schedule> {
    if paused || schedules == [] then []
    else (if IsDue(schedules[0], lastTick, now, next) then [schedules[0]] else [])
         + DueSchedules(schedules[1..], paused, lastTick, now, next)
  }

  function Inactive(schedules: seq<Schedule>, active: set<string>): seq<Schedule> {
    if schedules == [] then []
    else (if schedules[0].id in active then [] else [schedules[0]]) + Inactive(schedules[1..], active)
  }

  function Ids(schedules: seq<Schedule>): set<string> {
    set i | 0 <= i < |schedules| :: schedules[i].id
  }

  function Stamped(schedules: seq<Schedule>, claimed: set<string>, now: int): seq<Schedule> {
    seq(|schedules|, i requires 0 <= i < |schedules| =>
      if schedules[i].id in claimed then schedules[i].(lastRun := Some(now)) else schedules[i])
  }

  // The store a claim leaves, and what it takes.
  datatype Claim = Claim(stored: seq<Schedule>, due: Result<seq<Schedule>, ()>)

  // Reading or writing the store may fail, also after it was written; with nothing due nothing
  // is written.
  function ClaimDueSchedules(stored: seq<Schedule>, readable: bool, saving: Write, paused: bool,
                             active: set<string>, lastTick: int, now: int, next: Next): Claim {
    if !readable then Claim(stored, Err(()))
    else
      var due := Inactive(DueSchedules(stored, paused, lastTick, now, next), active);
      if due == [] then Claim(stored, Ok([]))
      else Claim(if saving.Unwritten? then stored else Stamped(stored, Ids(due), now),
                 if saving.Written? then Ok(due) else Err(()))
  }

  // ---------- What a claim takes ----------

  predicate UniqueIds(schedules: seq<Schedule>) {
    forall i, j | 0 <= i < j < |schedules| :: schedules[i].id != schedules[j].id
  }

  // It fires after the last tick and not after now.
  ghost predicate FiresIn(schedule: Schedule, lastTick: int, now: int, fires: (string, int) -> bool) {
    exists t :: lastTick < t <= now && fires(schedule.cron, t)
  }

  lemma DueExactlyWhenFiring(schedule: Schedule, lastTick: int, now: int, next: Next, fires: (string, int) -> bool)
    requires IsNextOf(next, fires)
    ensures IsDue(schedule, lastTick, now, next) <==> schedule.enabled && FiresIn(schedule, lastTick, now, fires)
  {
    var _ := next(schedule.cron, lastTick);
  }

  // A tick's selection, schedule by schedule.
  predicate Selected(schedule: Schedule, paused: bool, active: set<string>, lastTick: int, now: int, next: Next) {
    !paused && schedule.id !in active && IsDue(schedule, lastTick, now, next)
  }

  function Selection(schedules: seq<Schedule>, paused: bool, active: set<string>, lastTick: int, now: int, next: Next)
    : seq<Schedule>
  {
    Inactive(DueSchedules(schedules, paused, lastTick, now, next), active)
  }

  lemma SelectionStep(schedules: seq<Schedule>, paused: bool, active: set<string>, lastTick: int, now: int, next: Next)
    requires schedules != []
    ensures Selection(schedules, paused, active, lastTick, now, next)
         == (if Selected(schedules[0], paused, active, lastTick, now, next) then [schedules[0]] else [])
            + Selection(schedules[1..], paused, active, lastTick, now, next)
  {
    var rest := DueSchedules(schedules[1..], paused, lastTick, now, next);
    if !paused && IsDue(schedules[0], lastTick, now, next) {
      assert ([schedules[0]] + rest)[1..] == rest;
    } else {
      assert DueSchedules(schedules, paused, lastTick, now, next) == rest;
    }
  }

  // The selection keeps every selected schedule, as often as it is stored, and no other.
  lemma {:induction false} SelectionIsExact(schedules: seq<Schedule>, paused: bool, active: set<string>,
                                            lastTick: int, now: int, next: Next, schedule: Schedule)
    ensures multiset(Selection(schedules, paused, active, lastTick, now, next))[schedule]
         == if Selected(schedule, paused, active, lastTick, now, next) then multiset(schedules)[schedule] else 0
  {
    if schedules == [] {
    } else {
      SelectionStep(schedules, paused, active, lastTick, now, next);
      SelectionIsExact(schedules[1..], paused, active, lastTick, now, next, schedule);
      assert schedules == [schedules[0]] + schedules[1..];
    }
  }

  // Splitting the store splits the selection, so the stored order is kept.
  lemma {:induction false} SelectionKeepsOrder(a: seq<Schedule>, b: seq<Schedule>, paused: bool, active: set<string>,
                                               lastTick: int, now: int, next: Next)
    ensures Selection(a + b, paused, active, lastTick, now, next)
         == Selection(a, paused, active, lastTick, now, next) + Selection(b, paused, active, lastTick, now, next)
  {
    if a == [] {
      assert a + b == b;
    } else {
      assert (a + b)[1..] == a[1..] + b;
      SelectionStep(a + b, paused, active, lastTick, now, next);
      SelectionStep(a, paused, active, lastTick, now, next);
      SelectionKeepsOrder(a[1..], b, paused, active, lastTick, now, next);
    }
  }

  lemma SelectionMembers(schedules: seq<Schedule>, paused: bool, active: set<string>, lastTick: int, now: int,
                         next: Next)
    ensures var due := Selection(schedules, paused, active, lastTick, now, next);
            && (forall s :: s in due <==> s in schedules && Selected(s, paused, active, lastTick, now, next))
            && (UniqueIds(schedules) ==> UniqueIds(due))
  {
    var due := Selection(schedules, paused, active, lastTick, now, next);
    forall s ensures s in due <==> s in schedules && Selected(s, paused, active, lastTick, now, next) {
      SelectionIsExact(schedules, paused, active, lastTick, now, next, s);
      assert s in due <==> s in multiset(due);
      assert s in schedules <==> s in multiset(schedules);
    }
    if UniqueIds(schedules) {
      SelectionUnique(schedules, paused, active, lastTick, now, next);
    }
  }

  lemma {:induction false} SelectionUnique(schedules: seq<Schedule>, paused: bool, active: set<string>,
                                           lastTick: int, now: int, next: Next)
    requires UniqueIds(schedules)
    ensures UniqueIds(Selection(schedules, paused, active, lastTick, now, next))
  {
    if schedules == [] {
    } else {
      hide Selection, Selected;
      SelectionStep(schedules, paused, active, lastTick, now, next);
      var rest := Selection(schedules[1..], paused, active, lastTick, now, next);
      SelectionUnique(schedules[1..], paused, active, lastTick, now, next);
      forall i | 0 <= i < |rest| ensures rest[i].id != schedules[0].id {
        SelectionIsExact(schedules[1..], paused, active, lastTick, now, next, rest[i]);
        assert rest[i] in multiset(rest) && rest[i] in multiset(schedules[1..]);
      }
    }
  }

  // A claim that can be read and written takes exactly the enabled, inactive schedules that
  // fire in the window, stamps those and changes nothing else; one whose write is not reported
  // stamps the same and takes none.
  lemma ClaimIsExact(stored: seq<Schedule>, saving: Write, paused: bool, active: set<string>, lastTick: int, now: int,
                     next: Next, fires: (string, int) -> bool)
    requires IsNextOf(next, fires) && UniqueIds(stored) && !saving.Unwritten?
    ensures var r := ClaimDueSchedules(stored, true, saving, paused, active, lastTick, now, next);
            && |r.stored| == |stored|
            && (forall i | 0 <= i < |stored| ::
                  r.stored[i] == if Takes(stored[i], paused, active, lastTick, now, fires)
                                 then stored[i].(lastRun := Some(now)) else stored[i])
            && (saving.Written? ==>
                 && r.due.Ok? && UniqueIds(r.due.value)
                 && forall s :: s in r.due.value <==> s in stored && Takes(s, paused, active, lastTick, now, fires))
  {
    var due := Selection(stored, paused, active, lastTick, now, next);
    SelectionMembers(stored, paused, active, lastTick, now, next);
    forall s ensures s in due <==> s in stored && Takes(s, paused, active, lastTick, now, fires) {
      DueExactlyWhenFiring(s, lastTick, now, next, fires);
    }
    forall i | 0 <= i < |stored|
      ensures stored[i].id in Ids(due) <==> stored[i] in due
    {
      if stored[i].id in Ids(due) {
        var k :| 0 <= k < |due| && due[k].id == stored[i].id;
        assert due[k] in stored;
      }
    }
    hide Takes, Selection;
  }

  ghost predicate Takes(schedule: Schedule, paused: bool, active: set<string>, lastTick: int, now: int,
                        fires: (string, int) -> bool) {
    !paused && schedule.enabled && schedule.id !in active && FiresIn(schedule, lastTick, now, fires)
  }

  // A claim fails only for a store that cannot be read or a due claim whose write fails or goes
  // unreported, and then the store keeps its schedules but for the stamps of an unreported one.
  lemma ClaimFailsExactly(stored: seq<Schedule>, readable: bool, saving: Write, paused: bool, active: set<string>,
                          lastTick: int, now: int, next: Next)
    ensures var r := ClaimDueSchedules(stored, readable, saving, paused, active, lastTick, now, next);
            && (r.due.Err? <==>
                 || !readable
                 || (!saving.Written? && exists s :: s in stored && Selected(s, paused, active, lastTick, now, next)))
            && (r.due.Err? && (saving.Unreported? ==> !readable) ==> r.stored == stored)
  {
    var due := Selection(stored, paused, active, lastTick, now, next);
    SelectionMembers(stored, paused, active, lastTick, now, next);
    if due != [] {
      assert due[0] in due;
    }
  }

  // Stamps do not count in a selection: the same schedules are taken whatever was stamped, so a
  // claim that stamped and failed takes them when it is tried again.
  lemma {:induction false} StampsDoNotCount(stored: seq<Schedule>, stamped: set<string>, at: int, paused: bool,
                                            active: set<string>, lastTick: int, now: int, next: Next)
    ensures Selection(Stamped(stored, stamped, at), paused, active, lastTick, now, next)
         == Stamped(Selection(stored, paused, active, lastTick, now, next), stamped, at)
    decreases |stored|
  {
    var after := Stamped(stored, stamped, at);
    if stored == [] {
    } else {
      assert after[1..] == Stamped(stored[1..], stamped, at);
      SelectionStep(stored, paused, active, lastTick, now, next);
      SelectionStep(after, paused, active, lastTick, now, next);
      StampsDoNotCount(stored[1..], stamped, at, paused, active, lastTick, now, next);
      StampedParts(if Selected(stored[0], paused, active, lastTick, now, next) then [stored[0]] else [],
                   Selection(stored[1..], paused, active, lastTick, now, next), stamped, at);
      hide Selection;
    }
  }

  lemma StampedParts(a: seq<Schedule>, b: seq<Schedule>, stamped: set<string>, at: int)
    ensures Stamped(a + b, stamped, at) == Stamped(a, stamped, at) + Stamped(b, stamped, at)
  {}
}
