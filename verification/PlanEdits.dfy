/** Plan-edit proposals: a whole plan waits for approval and is then saved as the next version. */
module PlanEdits {
  import opened Wrappers
  import opened PlanStore
  import RepairCommit

  type Status = RepairCommit.Status

  datatype Edit = Edit(plan: Plan, status: Status, approvedAt: Option<int>, rejectedAt: Option<int>,
                       reason: Option<string>)

  // landed: whose plan became current, once for each time it happened.
  datatype World = World(plans: Lineages, edits: map<string, Edit>, landed: multiset<string>)

  datatype Failure = NotOpened | NotFound | AlreadyApplied | WasRejected | NotPending | Trouble

  // What meets an apply: whether the storage opens, how the writes of the approval and of the
  // applied mark go, where the save of the plan goes wrong, and whether the rollback is written.
  datatype Apply = Apply(now: int, opens: bool, approves: Write, fault: Fault, marks: Write, restores: bool)

  datatype Answer<T> = Answer(world: World, result: Result<T, Failure>)

  function SetEdit(w: World, id: string, edit: Edit): World {
    w.(edits := w.edits[id := edit])
  }

  function SavePlan(w: World, id: string, plan: Plan, fault: Fault): World {
    var after := Save(w.plans, plan, fault).store;
    var lands := Of(w.plans, plan.metadata.id).current != Of(after, plan.metadata.id).current;
    w.(plans := after, landed := if lands then w.landed + multiset{id} else w.landed)
  }

  function ApplyEdit(w: World, id: string, call: Apply): Answer<Plan> {
    if !call.opens then Answer(w, Err(NotOpened))
    else if id !in w.edits then Answer(w, Err(NotFound))
    else
      var edit := w.edits[id];
      if edit.status.Applied? then Answer(w, Err(AlreadyApplied))
      else if edit.status.Rejected? then Answer(w, Err(WasRejected))
      else if edit.status.Pending? && call.approves.Unwritten? then Answer(w, Err(Trouble))
      else
        var approved := if edit.status.Pending?
          then edit.(status := RepairCommit.Approved, approvedAt := Some(call.now)) else edit;
        var w1 := SavePlan(SetEdit(w, id, approved), id, edit.plan, call.fault);
        if edit.status.Pending? && call.approves.Unreported? then Answer(SetEdit(w, id, approved), Err(Trouble))
        else if Save(w.plans, edit.plan, call.fault).ok then
          if call.marks.Unwritten? then Answer(w1, Err(Trouble))
          else Answer(SetEdit(w1, id, approved.(status := RepairCommit.Applied)),
                      if call.marks.Written? then Ok(edit.plan) else Err(Trouble))
        else if edit.status.Pending? && call.restores then
          Answer(SetEdit(w1, id, approved.(status := RepairCommit.Pending, approvedAt := None)), Err(Trouble))
        else Answer(w1, Err(Trouble))
  }

  function RejectEdit(w: World, id: string, now: int, reason: Option<string>, opens: bool, saved: Write): Answer<()> {
    if !opens then Answer(w, Err(NotOpened))
    else if id !in w.edits then Answer(w, Err(NotFound))
    else
      var edit := w.edits[id];
      if !edit.status.Pending? then Answer(w, Err(NotPending))
      else if saved.Unwritten? then Answer(w, Err(Trouble))
      else Answer(SetEdit(w, id, edit.(status := RepairCommit.Rejected, rejectedAt := Some(now), reason := reason)),
                  if saved.Written? then Ok(()) else Err(Trouble))
  }

  // ---------- One apply ----------

  // Whether the store takes the proposed plan as its next (or present) current one.
  predicate Fitting(w: World, plan: Plan) {
    var lineage := Of(w.plans, plan.metadata.id);
    var v := plan.metadata.version;
    && (match lineage.current
        case None => v == 1
        case Some(c) => c == plan || (v <= 0xFFFF_FFFF && v == c.metadata.version + 1))
    && (v in lineage.snapshots ==> lineage.snapshots[v] == plan)
  }

  predicate IsCurrent(w: World, plan: Plan) {
    Of(w.plans, plan.metadata.id).current == Some(plan)
  }

  // With its status writes succeeding, an apply of a pending edit applies it exactly when the
  // save reports success, and otherwise leaves it pending; the plan is current afterwards
  // exactly when the save got that far.
  lemma ApplyExactly(w: World, id: string, call: Apply)
    requires Fits(w.plans) && id in w.edits && w.edits[id].status.Pending?
    requires call.opens && call.approves.Written? && call.marks.Written? && call.restores
    ensures var r := ApplyEdit(w, id, call);
            var plan := w.edits[id].plan;
            && id in r.world.edits && (r.result.Ok? <==> r.world.edits[id].status.Applied?)
            && (r.result.Ok? ==> r.world.edits[id].approvedAt == Some(call.now) && r.result.value == plan)
            && (r.result.Err? ==> r.result == Err(Trouble))
            && (r.result.Err? <==> r.world.edits[id] == w.edits[id].(approvedAt := None))
            && (r.result.Ok? ==> IsCurrent(r.world, plan))
            && (call.fault == NoFault ==> (r.result.Ok? <==> Fitting(w, plan)))
            && (r.result.Err? && !IsCurrent(w, plan) ==>
                 (IsCurrent(r.world, plan) <==> call.fault == AfterCurrent && Fitting(w, plan)))
  {
    SaveExactly(w.plans, w.edits[id].plan);
  }

  // What an apply answers in every case: an edit that cannot be applied is refused and left as it
  // is, and otherwise the plan is answered exactly when its save and both writes of the status
  // are done and reported.
  lemma AnswersExactly(w: World, id: string, call: Apply)
    ensures var r := ApplyEdit(w, id, call);
            && (r.result == Err(NotOpened) <==> !call.opens)
            && (r.result == Err(NotFound) <==> call.opens && id !in w.edits)
            && (call.opens && id in w.edits ==>
                 var edit := w.edits[id];
                 && (r.result == Err(AlreadyApplied) <==> edit.status.Applied?)
                 && (r.result == Err(WasRejected) <==> edit.status.Rejected?)
                 && (edit.status.Applied? || edit.status.Rejected? ==> r.world == w)
                 && (r.result.Ok? ==> r.result.value == edit.plan)
                 && (r.result.Ok? <==>
                      && (edit.status.Approved? || (edit.status.Pending? && call.approves.Written?))
                      && Save(w.plans, edit.plan, call.fault).ok && call.marks.Written?)
                 && r.result != Err(NotPending))
  {}

  // A rejection changes exactly a pending edit, in its status, its time and its reason.
  lemma RejectExactly(w: World, id: string, now: int, reason: Option<string>, opens: bool, saved: Write)
    ensures var r := RejectEdit(w, id, now, reason, opens, saved);
            var known := opens && id in w.edits;
            var pending := known && w.edits[id].status == RepairCommit.Pending;
            && (r.result == Err(NotOpened) <==> !opens)
            && (r.result == Err(NotFound) <==> opens && !known)
            && (r.result == Err(NotPending) <==> known && !pending)
            && (r.result == Err(Trouble) <==> pending && saved != Written)
            && (r.result == Ok(()) <==> pending && saved == Written)
            && (if pending && saved != Unwritten then
                  && id in r.world.edits
                  && var p, q := w.edits[id], r.world.edits[id];
                     && q == Edit(p.plan, RepairCommit.Rejected, p.approvedAt, Some(now), reason)
                     && r.world == w.(edits := w.edits[id := q])
                else r.world == w)
  {}

  // A save whose only trouble is the report stores the plan, and saving it again succeeds.
  lemma UnreportedSave(store: Lineages, plan: Plan, fault: Fault)
    requires Fits(store) && Of(store, plan.metadata.id).current != Some(plan) && Save(store, plan, NoFault).ok
    ensures var saved := Save(store, plan, AfterCurrent);
            && !saved.ok && Of(saved.store, plan.metadata.id).current == Some(plan)
            && Save(saved.store, plan, fault) == Saved(saved.store, true)
  {}

  // An apply that failed although the plan is stored can still be rejected, and then the
  // rejected proposal's plan is the current one; applying it again is what repairs it.
  lemma RejectedThoughCurrent(w: World, id: string, now: int, reason: Option<string>, again: Apply)
    requires Fits(w.plans) && id in w.edits && w.edits[id].status.Pending? && !IsCurrent(w, w.edits[id].plan)
    requires Fitting(w, w.edits[id].plan) 
    requires again.opens && again.approves.Written? && again.marks.Written?
    ensures var failed := ApplyEdit(w, id, Apply(now, true, Written, AfterCurrent, Written, true));
            var rejected := RejectEdit(failed.world, id, now, reason, true, Written);
            && failed.result.Err? && rejected.result.Ok?
            && rejected.world.edits[id].status.Rejected? && IsCurrent(rejected.world, w.edits[id].plan)
            && ApplyEdit(failed.world, id, again).result.Ok?
            && ApplyEdit(failed.world, id, again).world.landed == failed.world.landed
  {
    SaveExactly(w.plans, w.edits[id].plan);
    UnreportedSave(w.plans, w.edits[id].plan, again.fault);
    hide Save, Fits, Fitting;
  }

  // ---------- Any sequence of calls ----------

  datatype Call =
    | ApplyCall(id: string, apply: Apply)
    | RejectCall(id: string, now: int, reason: Option<string>, opens: bool, saved: Write)
    | SaveCall(plan: Plan, fault: Fault)

  function Do(w: World, call: Call): World {
    match call
    case ApplyCall(id, apply) => ApplyEdit(w, id, apply).world
    case RejectCall(id, now, reason, opens, saved) => RejectEdit(w, id, now, reason, opens, saved).world
    case SaveCall(plan, fault) => w.(plans := Save(w.plans, plan, fault).store)
  }

  function Run(w: World, calls: seq<Call>): World
    decreases |calls|
  {
    if calls == [] then w else Run(Do(w, calls[0]), calls[1..])
  }

  // The lineage has reached the version a plan asks for.
  predicate Reached(w: World, plan: Plan) {
    var current := Of(w.plans, plan.metadata.id).current;
    current.Some? && current.value.metadata.version >= plan.metadata.version
  }

  // An edit landed at most once, and from then on its lineage is at its version or past it.
  ghost predicate Inv(w: World) {
    && Fits(w.plans)
    && forall id | id in w.edits ::
         && w.landed[id] <= 1
         && (w.landed[id] == 1 || w.edits[id].status.Applied? ==> Reached(w, w.edits[id].plan))
  }

  lemma SavePlanInv(w: World, id: string, plan: Plan, fault: Fault)
    requires Inv(w) && id in w.edits && w.edits[id].plan == plan
    ensures var w1 := SavePlan(w, id, plan, fault);
            && Inv(w1)
            && (Save(w.plans, plan, fault).ok ==> Reached(w1, plan))
  {
    SaveFits(w.plans, plan, fault);
    var w1 := SavePlan(w, id, plan, fault);
    SaveMoves(w.plans, plan, fault, plan.metadata.id);
    forall x | x in w1.edits
      ensures w1.landed[x] <= 1
      ensures w1.landed[x] == 1 || w1.edits[x].status.Applied? ==> Reached(w1, w1.edits[x].plan)
    {
      SaveMoves(w.plans, plan, fault, w.edits[x].plan.metadata.id);
    }
  }

  lemma ApplyInv(w: World, id: string, call: Apply)
    requires Inv(w) && id in w.edits && (w.edits[id].status.Pending? || w.edits[id].status.Approved?)
    ensures Inv(ApplyEdit(w, id, call).world) && ApplyEdit(w, id, call).world.edits.Keys == w.edits.Keys
  {
    hide Save, Reached, Fits, Of;
    var edit := w.edits[id];
    var approved := if edit.status.Pending?
      then edit.(status := RepairCommit.Approved, approvedAt := Some(call.now)) else edit;
    ReachedAlike(w, SetEdit(w, id, approved));
    assert Inv(SetEdit(w, id, approved));
    SavePlanInv(SetEdit(w, id, approved), id, edit.plan, call.fault);
    var w1 := SavePlan(SetEdit(w, id, approved), id, edit.plan, call.fault);
    ReachedAlike(w1, ApplyEdit(w, id, call).world);
    ReachedAlike(w, ApplyEdit(w, id, call).world);
  }

  lemma ReachedAlike(a: World, b: World)
    ensures a.plans == b.plans ==> forall plan :: Reached(a, plan) == Reached(b, plan)
  {}

  lemma DoInv(w: World, call: Call)
    requires Inv(w)
    ensures Inv(Do(w, call)) && Do(w, call).edits.Keys == w.edits.Keys
  {
    hide Save;
    match call
    case ApplyCall(id, apply) =>
      if id in w.edits && (w.edits[id].status.Pending? || w.edits[id].status.Approved?) {
        ApplyInv(w, id, apply);
      }
    case RejectCall(id, now, reason, opens, saved) =>
    case SaveCall(plan, fault) =>
      SaveFits(w.plans, plan, fault);
      forall x | x in w.edits
        ensures Reached(w, w.edits[x].plan) ==> Reached(Do(w, call), w.edits[x].plan)
      {
        SaveMoves(w.plans, plan, fault, w.edits[x].plan.metadata.id);
      }
  }

  lemma {:induction false} RunInv(w: World, calls: seq<Call>)
    requires Inv(w)
    ensures Inv(Run(w, calls)) && Run(w, calls).edits.Keys == w.edits.Keys
    decreases |calls|
  {
    if calls == [] {
    } else {
      hide Inv, Do;
      DoInv(w, calls[0]);
      RunInv(Do(w, calls[0]), calls[1..]);
    }
  }

  // Over any sequence of applies, rejections and other saves, with any write failing: an edit
  // becomes the current plan at most once, and once applied its lineage never falls back
  // behind it.
  lemma LandsAtMostOnce(w: World, calls: seq<Call>, id: string)
    requires Fits(w.plans) && id in w.edits && w.landed == multiset{}
    requires forall x | x in w.edits :: w.edits[x].status.Pending?
    ensures var end := Run(w, calls);
            && id in end.edits && end.landed[id] <= 1
            && (end.edits[id].status.Applied? ==> Reached(end, end.edits[id].plan))
  {
    RunInv(w, calls);
  }

  // ---------- When proposals stay actionable ----------

  // Every edit is pending, applied or rejected, and only applied ones ever landed.
  ghost predicate Settled(w: World) {
    forall id | id in w.edits ::
      && !w.edits[id].status.Approved?
      && (w.edits[id].status.Pending? || w.edits[id].status.Rejected? ==> w.landed[id] == 0)
  }

  // A save that stores the plan as a new current one and reports an error.
  predicate LosesReport(w: World, plan: Plan, fault: Fault) {
    fault.AfterCurrent? && Fitting(w, plan) && !IsCurrent(w, plan)
  }

  // The applies after which it is not so: an approval whose write goes unreported, a mark that
  // is not written, a failed save that is not rolled back, and one that landed unreported.
  predicate Unsettles(w: World, call: Call) {
    && call.ApplyCall? && call.apply.opens && call.id in w.edits && w.edits[call.id].status.Pending?
    && (var plan := w.edits[call.id].plan;
        || call.apply.approves.Unreported?
        || (call.apply.approves.Written? &&
            if Save(w.plans, plan, call.apply.fault).ok then call.apply.marks.Unwritten?
            else !call.apply.restores || LosesReport(w, plan, call.apply.fault)))
  }

  ghost predicate SettledThroughout(w: World, calls: seq<Call>)
    decreases |calls|
  {
    Settled(w) && (calls == [] || SettledThroughout(Do(w, calls[0]), calls[1..]))
  }

  predicate NeverUnsettles(w: World, calls: seq<Call>)
    decreases |calls|
  {
    calls == [] || (!Unsettles(w, calls[0]) && NeverUnsettles(Do(w, calls[0]), calls[1..]))
  }

  // Between any two calls every edit is pending, applied or rejected, and none that was rejected
  // ever became current, exactly when no call is one of those.
  lemma {:induction false} SettledExactly(w: World, calls: seq<Call>)
    requires Inv(w) && Settled(w)
    ensures SettledThroughout(w, calls) <==> NeverUnsettles(w, calls)
    decreases |calls|
  {
    if calls == [] {
    } else {
      hide Inv, Do, Settled, Unsettles;
      DoInv(w, calls[0]);
      SettledStep(w, calls[0]);
      if Settled(Do(w, calls[0])) {
        SettledExactly(Do(w, calls[0]), calls[1..]);
      }
    }
  }

  lemma SettledStep(w: World, call: Call)
    requires Inv(w) && Settled(w)
    ensures Settled(Do(w, call)) <==> !Unsettles(w, call)
  {
    if call.ApplyCall? && call.id in w.edits && w.edits[call.id].status.Pending? {
      SettledApply(w, call.id, call.apply);
    }
  }

  lemma SettledApply(w: World, id: string, call: Apply)
    requires Inv(w) && Settled(w) && id in w.edits && w.edits[id].status.Pending?
    ensures Settled(ApplyEdit(w, id, call).world) <==> !Unsettles(w, ApplyCall(id, call))
  {
    if !Save(w.plans, w.edits[id].plan, call.fault).ok {
      LandsUnreported(w, w.edits[id].plan, call.fault);
    }
    ApplyEffect(w, id, call);
    hide Save, Inv, ApplyEdit, Of, LosesReport;
    var r := ApplyEdit(w, id, call).world;
    assert forall x | x in w.edits && x != id :: r.edits[x] == w.edits[x] && r.landed[x] == w.landed[x];
  }

  // Where an apply leaves a pending edit.
  function StatusAfter(w: World, id: string, call: Apply): Status
    requires id in w.edits
  {
    if !call.opens || call.approves.Unwritten? then RepairCommit.Pending
    else if call.approves.Unreported? then RepairCommit.Approved
    else if Save(w.plans, w.edits[id].plan, call.fault).ok then
      if call.marks.Unwritten? then RepairCommit.Approved else RepairCommit.Applied
    else if call.restores then RepairCommit.Pending else RepairCommit.Approved
  }

  lemma ApplyEffect(w: World, id: string, call: Apply)
    requires id in w.edits && w.edits[id].status.Pending?
    ensures var r := ApplyEdit(w, id, call).world;
            var plan := w.edits[id].plan;
            var lands := Of(w.plans, plan.metadata.id).current
                         != Of(Save(w.plans, plan, call.fault).store, plan.metadata.id).current;
            && r.edits.Keys == w.edits.Keys && (forall x | x in w.edits && x != id :: r.edits[x] == w.edits[x])
            && r.edits[id].status == StatusAfter(w, id, call)
            && r.landed == if call.opens && call.approves.Written? && lands then w.landed + multiset{id} else w.landed
  {
    hide Save, Of;
  }

  // A failed save lands exactly if it loses its report.
  lemma LandsUnreported(w: World, plan: Plan, fault: Fault)
    requires Fits(w.plans) && !Save(w.plans, plan, fault).ok
    ensures Of(w.plans, plan.metadata.id).current != Of(Save(w.plans, plan, fault).store, plan.metadata.id).current <==>
              LosesReport(w, plan, fault)
  {
    SaveExactly(w.plans, plan);
  }

  // While a repair journal sticks, the storage refuses every apply and rejection of an edit too.
  lemma StuckRefusesEdits(w: World, repairs: RepairCommit.World, calls: seq<RepairCommit.Call>, id: string, call: Apply,
                          now: int, reason: Option<string>, saved: Write)
    requires RepairCommit.Inv(repairs) && RepairCommit.Stuck(repairs) && RepairCommit.UnreadableCall !in calls
    requires call.opens == RepairCommit.Open(RepairCommit.Run(repairs, calls), RepairCommit.ALL_COMPLETED).ok
    ensures ApplyEdit(w, id, call) == Answer(w, Err(NotOpened))
    ensures RejectEdit(w, id, now, reason, call.opens, saved) == Answer(w, Err(NotOpened))
  {
    RepairCommit.RunInv(repairs, calls);
    RepairCommit.OpenInv(RepairCommit.Run(repairs, calls), RepairCommit.ALL_COMPLETED);
  }

  // ---------- The proposals as they are overwritten in place ----------

  class EditStore {
    const files: PlanFiles
    var edits: map<string, Edit>
    ghost var landed: multiset<string>

    ghost function View(): World
      reads this, files
    {
      World(files.lineages, edits, landed)
    }

    constructor (files: PlanFiles)
      ensures this.files == files && edits == map[] && landed == multiset{}
    {
      this.files := files;
      edits, landed := map[], multiset{};
    }

    // apply_plan_edit_in_storage.
    method ApplyPlanEdit(id: string, call: Apply) returns (result: Result<Plan, Failure>)
      modifies this, files
      ensures Answer(View(), result) == ApplyEdit(old(View()), id, call)
    {
      if !call.opens {
        return Err(NotOpened);
      }
      if id !in edits {
        return Err(NotFound);
      }
      var edit := edits[id];
      if edit.status.Applied? {
        return Err(AlreadyApplied);
      }
      if edit.status.Rejected? {
        return Err(WasRejected);
      }
      var wasPending := edit.status.Pending?;
      if wasPending {
        if call.approves.Unwritten? {
          return Err(Trouble);
        }
        edit := edit.(status := RepairCommit.Approved, approvedAt := Some(call.now));
      }
      edits := edits[id := edit];
      if wasPending && call.approves.Unreported? {
        return Err(Trouble);
      }
      ghost var before := Of(files.lineages, edit.plan.metadata.id).current;
      var saved := files.SavePlan(edit.plan, call.fault);
      if before != Of(files.lineages, edit.plan.metadata.id).current {
        landed := landed + multiset{id};
      }
      if saved {
        if !call.marks.Unwritten? {
          edits := edits[id := edit.(status := RepairCommit.Applied)];
        }
        if call.marks.Written? {
          return Ok(edit.plan);
        }
      } else if wasPending && call.restores {
        edits := edits[id := edit.(status := RepairCommit.Pending, approvedAt := None)];
      }
      result := Err(Trouble);
    }

    // reject_plan_edit_in_storage.
    method RejectPlanEdit(id: string, now: int, reason: Option<string>, opens: bool, saved: Write)
      returns (result: Result<(), Failure>)
      modifies `edits
      ensures Answer(View(), result) == RejectEdit(old(View()), id, now, reason, opens, saved)
    {
      if !opens {
        return Err(NotOpened);
      }
      if id !in edits {
        return Err(NotFound);
      }
      if !edits[id].status.Pending? {
        return Err(NotPending);
      }
      if saved.Unwritten? {
        return Err(Trouble);
      }
      edits := edits[id := edits[id].(status := RepairCommit.Rejected, rejectedAt := Some(now), reason := reason)];
      result := if saved.Written? then Ok(()) else Err(Trouble);
    }
  }
}
