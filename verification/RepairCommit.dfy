/** Repair patches: approval, the apply with its journalled commit, rollback, rejection, and
    the recovery that runs whenever the storage is recovered. */
module RepairCommit {
  import opened Wrappers
  import opened PlanStore

  datatype Status = Pending | Approved | Applied | Rejected

  datatype Patch = Patch(
    planId: string,
    planVersion: nat,
    status: Status,
    approvedAt: Option<int>,
    rejectedAt: Option<int>,
    reason: Option<string>)

  datatype Journal = Journal(patchId: string, planId: string, base: nat, next: Plan)

  // landed: whose patch became a plan's current version, once for each time it happened.
  // lost: whose journal was set aside after that, before the patch was marked.
  // unreported: whose whole commit was written but reported as failed, and then rolled back.
  datatype World = World(plans: Lineages, patches: map<string, Patch>, journal: Option<Journal>,
                         landed: multiset<string>, lost: set<string>, unreported: set<string>)

  datatype Done = Done(world: World, ok: bool)

  function WithStatus(w: World, id: string, status: Status): World
    requires id in w.patches
  {
    w.(patches := w.patches[id := w.patches[id].(status := status)])
  }

  // ---------- Commit and recovery ----------

  // The last actions of a commit, of which only the first `writes` succeed: the plan becomes
  // current, the patch is marked, the journal is removed, the removal is synced.
  const ALL_COMPLETED: nat := 4

  function PublishPlan(w: World, j: Journal): World {
    var again := Of(w.plans, j.planId).current == Some(j.next);
    w.(plans := AdvanceCurrent(w.plans, j.next, Some(j.base), NoFault).store,
       landed := if again then w.landed else w.landed + multiset{j.patchId})
  }

  predicate JournalFits(w: World, j: Journal) {
    && j.next.metadata.id == j.planId
    && j.next.metadata.version == (if j.base < U32_MAX then j.base + 1 else U32_MAX)
  }

  predicate PatchFits(w: World, j: Journal) {
    j.patchId in w.patches && w.patches[j.patchId].planId == j.planId && w.patches[j.patchId].planVersion == j.base
  }

  // complete_repair_transaction.
  function Complete(w: World, j: Journal, writes: nat): Done {
    if !JournalFits(w, j) then Done(w, false)
    else
      var claimed := ClaimSnapshot(w.plans, j.next, NoFault);
      var w1 := w.(plans := claimed.store);
      if !claimed.ok || !AdvanceCurrent(w1.plans, j.next, Some(j.base), NoFault).ok then Done(w1, false)
      else if writes == 0 && Of(w1.plans, j.planId).current != Some(j.next) then Done(w1, false)
      else MarkPatch(PublishPlan(w1, j), j, writes)
  }

  // What follows once the plan is current.
  function MarkPatch(w: World, j: Journal, writes: nat): Done {
    if !PatchFits(w, j) then Done(w, false)
    else
      var status := w.patches[j.patchId].status;
      if status.Pending? || status.Rejected? then Done(w, false)
      else if writes <= 1 && status.Approved? then Done(w, false)
      else
        var marked := WithStatus(w, j.patchId, Applied);
        if writes <= 2 then Done(marked, false) else Done(marked.(journal := None), writes >= ALL_COMPLETED)
  }

  // Opening the storage completes a journal that is left; without that it does not open.
  function Open(w: World, writes: nat): Done {
    match w.journal
    case None => Done(w, true)
    case Some(j) => Complete(w, j, writes)
  }

  // Opening with a journal that cannot be read or parsed sets it aside, completing nothing.
  function SetAside(w: World): World {
    match w.journal
    case None => w
    case Some(j) =>
      w.(journal := None,
         lost := if j.patchId in w.patches && !w.patches[j.patchId].status.Applied?
                    && Of(w.plans, j.planId).current == Some(j.next)
                 then w.lost + {j.patchId} else w.lost)
  }

  // commit_repair on a recovered storage: the snapshot, the journal, then its completion.
  const ALL_COMMITTED: nat := 6

  // Everything is written, but syncing the journal's removal fails.
  const NOT_SYNCED: nat := 5

  function Commit(w: World, id: string, next: Plan, writes: nat): Done
    requires id in w.patches
  {
    var patch := w.patches[id];
    var current := Of(w.plans, patch.planId).current;
    if !patch.status.Approved? || patch.planId != next.metadata.id
       || patch.planVersion >= U32_MAX || next.metadata.version != patch.planVersion + 1
       || current.None? || current.value.metadata.version != patch.planVersion
    then Done(w, false)
    else
      var claimed := ClaimSnapshot(w.plans, next, if writes == 0 then BeforeSnapshot else NoFault);
      var w1 := w.(plans := claimed.store);
      if !claimed.ok || writes <= 1 then Done(w1, false)
      else
        var j := Journal(id, patch.planId, patch.planVersion, next);
        Complete(w1.(journal := Some(j)), j, writes - 2)
  }

  // ---------- Calls ----------

  datatype Failure = NotOpened | NotFound | AlreadyApplied | WasRejected | NotPending | Trouble | Died

  // What meets an apply: the time, how the write of its approval goes, whether its reads
  // succeed, what the patch's operation makes of the plan (None when it or the validation
  // fails), how many of the commit's actions succeed, whether the process dies where it
  // stops, and whether the rollback is written.
  datatype Apply = Apply(
    now: int, approves: Write, catalogReads: bool, planReads: bool,
    edited: Option<(string, string)>, writes: nat, dies: bool, restores: bool)

  datatype Answer<T> = Answer(world: World, result: Result<T, Failure>)

  function NextPlan(plan: Plan, name: string, body: string, now: int): Plan {
    Plan(plan.metadata.(
           version := plan.metadata.version + 1, updatedAt := now,
           provenance := plan.metadata.provenance.(parentPlanId := Some(plan.metadata.id),
                                                   parentVersion := Some(plan.metadata.version))),
         name, body)
  }

  // repair::apply_patch: only the current plan may be patched.
  function ApplyTo(w: World, id: string, plan: Plan, call: Apply): (r: (Done, Option<Plan>))
    requires id in w.patches
    ensures r.0.ok <==> r.1.Some?
  {
    if Of(w.plans, w.patches[id].planId).current != Some(plan) || plan.metadata.version >= U32_MAX || call.edited.None?
    then (Done(w, false), None)
    else
      var next := NextPlan(plan, call.edited.value.0, call.edited.value.1, call.now);
      var done := Commit(w, id, next, call.writes);
      (done, if done.ok then Some(next) else None)
  }

  predicate PlanLoads(w: World, patch: Patch, call: Apply) {
    call.planReads && patch.planVersion in Of(w.plans, patch.planId).snapshots
  }

  function ApplyOpened(w: World, id: string, call: Apply): Answer<Plan> {
    if id !in w.patches then Answer(w, Err(NotFound))
    else
      var patch := w.patches[id];
      if patch.status.Applied? then Answer(w, Err(AlreadyApplied))
      else if patch.status.Rejected? then Answer(w, Err(WasRejected))
      else if patch.status.Pending? && call.approves.Unwritten? then Answer(w, Err(Trouble))
      else
        var w1 := if patch.status.Pending?
                  then w.(patches := w.patches[id := patch.(status := Approved, approvedAt := Some(call.now))])
                  else w;
        if patch.status.Pending? && call.approves.Unreported? then Answer(w1, Err(Trouble))
        else if !call.catalogReads || !PlanLoads(w, patch, call)
          then Answer(w1, Err(if call.dies then Died else Trouble))
        else
          var (done, plan) := ApplyTo(w1, id, Of(w.plans, patch.planId).snapshots[patch.planVersion], call);
          if done.ok then Answer(done.world, Ok(plan.value))
          else if call.dies then Answer(done.world, Err(Died))
          else if patch.status.Pending? && call.restores && id in done.world.patches
              then Answer(Restored(done.world, id), Err(Trouble))
          else Answer(done.world, Err(Trouble))
  }

  // The rollback puts the proposal back to pending, even one whose commit was all written.
  function Restored(w: World, id: string): World
    requires id in w.patches
  {
    w.(patches := w.patches[id := w.patches[id].(status := Pending, approvedAt := None)],
       unreported := if w.journal.None? && w.patches[id].status.Applied? then w.unreported + {id} else w.unreported)
  }

  function ApplyPatch(w: World, id: string, call: Apply): Answer<Plan> {
    var recovered := Open(w, ALL_COMPLETED);
    if !recovered.ok then Answer(recovered.world, Err(NotOpened)) else ApplyOpened(recovered.world, id, call)
  }

  function RejectPatch(w: World, id: string, now: int, reason: Option<string>, saved: Write): Answer<()> {
    var recovered := Open(w, ALL_COMPLETED);
    if !recovered.ok then Answer(recovered.world, Err(NotOpened))
    else if id !in recovered.world.patches then Answer(recovered.world, Err(NotFound))
    else
      var patch := recovered.world.patches[id];
      if !patch.status.Pending? then Answer(recovered.world, Err(NotPending))
      else if saved.Unwritten? then Answer(recovered.world, Err(Trouble))
      else Answer(recovered.world.(patches := recovered.world.patches[id :=
                    patch.(status := Rejected, rejectedAt := Some(now), reason := reason)]),
                  if saved.Written? then Ok(()) else Err(Trouble))
  }

  // Any other save of a plan: an import, an edit.
  function SaveOther(w: World, plan: Plan, fault: Fault): Answer<()> {
    var recovered := Open(w, ALL_COMPLETED);
    if !recovered.ok then Answer(recovered.world, Err(NotOpened))
    else
      var saved := Save(recovered.world.plans, plan, fault);
      Answer(recovered.world.(plans := saved.store), if saved.ok then Ok(()) else Err(Trouble))
  }

  // ---------- Invariant ----------

  // The plan has moved past the version the patch is for.
  predicate Overtaken(w: World, patch: Patch) {
    var current := Of(w.plans, patch.planId).current;
    current.Some? && current.value.metadata.version > patch.planVersion
  }

  // Its plan became current, and it is not marked.
  predicate Astray(w: World, id: string) {
    id in w.lost || id in w.unreported
  }

  // Without a journal a patch has landed once when it is applied or astray and never otherwise.
  predicate LandedFits(w: World, id: string) {
    id in w.patches ==>
      if Astray(w, id) then w.landed[id] == 1 && !w.patches[id].status.Applied? && Overtaken(w, w.patches[id])
      else w.landed[id] == if w.patches[id].status.Applied? then 1 else 0
  }

  // A journal's plan is stored and either current already, landed once, or next in line.
  predicate JournalInv(w: World, j: Journal) {
    && JournalFits(w, j) && PatchFits(w, j) && j.base < U32_MAX
    && (var lineage := Of(w.plans, j.planId);
        && j.next.metadata.version in lineage.snapshots && lineage.snapshots[j.next.metadata.version] == j.next
        && lineage.current.Some?
        && if lineage.current.value == j.next then w.landed[j.patchId] == 1
           else lineage.current.value.metadata.version == j.base && w.landed[j.patchId] == 0
                && !w.patches[j.patchId].status.Applied?)
    && !w.patches[j.patchId].status.Rejected? && !Astray(w, j.patchId)
  }

  predicate IsUnderWay(w: World, id: string) {
    w.journal.Some? && w.journal.value.patchId == id
  }

  ghost predicate Inv(w: World) {
    && Fits(w.plans)
    && (forall id | id in w.patches && !IsUnderWay(w, id) :: LandedFits(w, id))
    && (w.journal.Some? ==> JournalInv(w, w.journal.value))
  }

  // Any store and any proposals, none of them under way.
  ghost predicate Init(w: World) {
    && Fits(w.plans) && w.journal.None? && w.lost == {} && w.unreported == {}
    && forall id | id in w.patches :: w.landed[id] == if w.patches[id].status.Applied? then 1 else 0
  }

  // A storage whose journal belongs to a patch put back to pending.
  predicate Stuck(w: World) {
    w.journal.Some? && w.journal.value.patchId in w.patches && w.patches[w.journal.value.patchId].status.Pending?
  }

  // The journal's plan becomes current, once.
  lemma PublishInv(w: World)
    requires Inv(w) && w.journal.Some?
    ensures var j := w.journal.value;
            && ClaimSnapshot(w.plans, j.next, NoFault) == Saved(w.plans, true)
            && AdvanceCurrent(w.plans, j.next, Some(j.base), NoFault).ok
            && Inv(PublishPlan(w, j)) && PublishPlan(w, j).landed[j.patchId] == 1
            && Of(PublishPlan(w, j).plans, j.planId).current == Some(j.next)
  {
    var j := w.journal.value;
    assert j.planId in w.plans && LineageFits(w.plans[j.planId], j.planId);
    var r := PublishPlan(w, j);
    assert Fits(r.plans);
    hide Fits;
    assert forall id | id in w.patches && !IsUnderWay(w, id) :: LandedFits(w, id);
    assert forall id | id in r.patches && !IsUnderWay(r, id) :: LandedFits(r, id);
  }

  // Then its patch is marked, then the journal goes.
  lemma MarkInv(w: World)
    requires Inv(w) && w.journal.Some? && !Stuck(w)
    requires Of(w.plans, w.journal.value.planId).current == Some(w.journal.value.next)
    ensures var r := WithStatus(w, w.journal.value.patchId, Applied);
            Inv(r) && Inv(r.(journal := None)) && !Stuck(r)
  {
    var j := w.journal.value;
    var r := WithStatus(w, j.patchId, Applied);
    hide Fits;
    assert forall id | id in w.patches && !IsUnderWay(w, id) :: LandedFits(w, id);
    assert forall id | id in r.patches && !IsUnderWay(r, id) :: LandedFits(r, id);
    assert LandedFits(r, j.patchId);
    assert forall id | id in r.patches :: LandedFits(r.(journal := None), id);
  }

  // Where a completion that is cut short or cannot go on leaves the storage.
  lemma CompleteShape(w: World, j: Journal, writes: nat)
    requires JournalFits(w, j) && PatchFits(w, j)
    requires ClaimSnapshot(w.plans, j.next, NoFault) == Saved(w.plans, true)
    requires AdvanceCurrent(w.plans, j.next, Some(j.base), NoFault).ok
    ensures var published := PublishPlan(w, j);
            var marked := WithStatus(published, j.patchId, Applied);
            var status := w.patches[j.patchId].status;
            var done := Complete(w, j, writes);
            && (done.ok <==> writes >= ALL_COMPLETED && (status.Approved? || status.Applied?))
            && (status.Approved? || status.Applied? ==>
                 && (writes > 2 ==> done.world == marked.(journal := None))
                 && (writes == 2 ==> done.world == marked)
                 && (writes < 2 ==>
                      || done.world == w || done.world == published
                      || (done.world == marked && status.Applied?)))
            && (status.Pending? || status.Rejected? ==> done.world == w || done.world == published)
  {
    hide ClaimSnapshot, AdvanceCurrent;
  }

  lemma CompleteInv(w: World, writes: nat)
    requires Inv(w) && w.journal.Some?
    ensures var done := Complete(w, w.journal.value, writes);
            && Inv(done.world) && w.journal.value.patchId in done.world.patches
            && (done.ok <==> writes >= ALL_COMPLETED && !Stuck(w))
            && done.world.journal == (if writes > 2 && !Stuck(w) then None else w.journal)
            && (writes >= 2 && !Stuck(w) ==> done.world.patches[w.journal.value.patchId].status.Applied?)
            && (writes < 2 ==> done.world.patches == w.patches)
            && (writes > 2 && !Stuck(w) ==> Overtaken(done.world, done.world.patches[w.journal.value.patchId]))
            && (Stuck(done.world) <==> Stuck(w))
            && done.world.patches.Keys == w.patches.Keys
  {
    var j := w.journal.value;
    PublishInv(w);
    CompleteShape(w, j, writes);
    var published := PublishPlan(w, j);
    assert published == w.(plans := published.plans, landed := published.landed);
    assert Stuck(published) <==> Stuck(w);
    if !Stuck(w) {
      MarkInv(published);
    }
    hide Complete, Fits, AdvanceCurrent, PublishPlan;
  }

  // From any storage and with any journal, a completion that succeeds was one of a plan that is
  // the next version of its base, for a patch of that base; it leaves the plan current, the
  // patch applied and no journal.
  lemma CompletionIsSound(w: World, j: Journal, writes: nat)
    requires Complete(w, j, writes).ok
    ensures var after := Complete(w, j, writes).world;
            && j.next.metadata.id == j.planId
            && j.next.metadata.version == (if j.base + 1 <= 0xFFFF_FFFF then j.base + 1 else 0xFFFF_FFFF)
            && j.patchId in w.patches && j.patchId in after.patches
            && w.patches[j.patchId].planId == j.planId && w.patches[j.patchId].planVersion == j.base
            && after.patches[j.patchId] == w.patches[j.patchId].(status := Applied)
            && Of(after.plans, j.planId).current == Some(j.next) && after.journal == None
  {}

  // The commit passes its checks, claims the version and writes its journal.
  predicate Starts(w: World, id: string, next: Plan, writes: nat)
    requires id in w.patches
  {
    var patch := w.patches[id];
    var lineage := Of(w.plans, patch.planId);
    var v := next.metadata.version;
    && patch.status.Approved? && patch.planId == next.metadata.id
    && v == patch.planVersion + 1 <= 0xFFFF_FFFF
    && lineage.current.Some? && lineage.current.value.metadata.version == patch.planVersion
    && (v in lineage.snapshots ==> lineage.snapshots[v] == next)
    && writes >= 2
  }

  // How far a commit that starts gets: its journal stays until all is written, and the patch
  // is marked when the mark is.
  predicate CommitReaches(w: World, id: string, next: Plan, writes: nat)
    requires id in w.patches
  {
    var r := Commit(w, id, next, writes).world;
    && r.journal == (if writes >= NOT_SYNCED then None
                     else Some(Journal(id, w.patches[id].planId, w.patches[id].planVersion, next)))
    && !Stuck(r) && id in r.patches
    && (writes >= NOT_SYNCED ==> Overtaken(r, r.patches[id]))
    && r.patches[id].status == (if writes >= 4 then Applied else Approved)
  }

  lemma CommitInv(w: World, id: string, next: Plan, writes: nat)
    requires Inv(w) && w.journal.None? && id in w.patches
    ensures var done := Commit(w, id, next, writes);
            && Inv(done.world) && done.world.patches.Keys == w.patches.Keys
            && (done.ok <==> Starts(w, id, next, writes) && writes >= ALL_COMMITTED)
            && (Starts(w, id, next, writes) ==> CommitReaches(w, id, next, writes))
            && (!Starts(w, id, next, writes) ==>
                 && done.world.patches == w.patches && done.world.landed == w.landed && done.world.journal.None?
                 && forall p :: Of(done.world.plans, p).current == Of(w.plans, p).current)
  {
    if Starts(w, id, next, writes) {
      CommitStarted(w, id, next, writes);
    } else {
      CommitDeclined(w, id, next, writes);
    }
  }

  lemma CommitDeclined(w: World, id: string, next: Plan, writes: nat)
    requires Inv(w) && w.journal.None? && id in w.patches && !Starts(w, id, next, writes)
    ensures var done := Commit(w, id, next, writes);
            && !done.ok && Inv(done.world)
            && done.world.patches == w.patches && done.world.landed == w.landed && done.world.journal.None?
            && forall p :: Of(done.world.plans, p).current == Of(w.plans, p).current
  {
    var fault := if writes == 0 then BeforeSnapshot else NoFault;
    if 1 <= next.metadata.version <= U32_MAX {
      ClaimFits(w, next, fault);
    }
    assert Commit(w, id, next, writes).world == w
      || Commit(w, id, next, writes).world == w.(plans := ClaimSnapshot(w.plans, next, fault).store);
    hide Inv, ClaimSnapshot;
  }

  lemma CommitStarted(w: World, id: string, next: Plan, writes: nat)
    requires Inv(w) && w.journal.None? && id in w.patches && Starts(w, id, next, writes)
    ensures var done := Commit(w, id, next, writes);
            && Inv(done.world) && done.world.patches.Keys == w.patches.Keys
            && (done.ok <==> writes >= ALL_COMMITTED)
            && CommitReaches(w, id, next, writes)
  {
    hide Complete;
    var patch := w.patches[id];
    ClaimFits(w, next, NoFault);
    var w1 := w.(plans := ClaimSnapshot(w.plans, next, NoFault).store);
    var j := Journal(id, patch.planId, patch.planVersion, next);
    assert Commit(w, id, next, writes) == Complete(w1.(journal := Some(j)), j, writes - 2);
    JournalledInv(w1, j);
    hide Inv;
    CompleteInv(w1.(journal := Some(j)), writes - 2);
  }

  lemma JournalledInv(w: World, j: Journal)
    requires Inv(w) && w.journal.None? && PatchFits(w, j) && w.patches[j.patchId].status.Approved?
    requires j.next.metadata.id == j.planId && j.next.metadata.version == j.base + 1 <= U32_MAX
    requires var lineage := Of(w.plans, j.planId);
             && j.base + 1 in lineage.snapshots && lineage.snapshots[j.base + 1] == j.next
             && lineage.current.Some? && lineage.current.value.metadata.version == j.base
    ensures Inv(w.(journal := Some(j))) && !Stuck(w.(journal := Some(j)))
  {
    assert LandedFits(w, j.patchId);
    var w1 := w.(journal := Some(j));
    assert JournalInv(w1, j);
    assert forall x | x in w1.patches && !IsUnderWay(w1, x) :: LandedFits(w, x);
    assert forall x | x in w1.patches && !IsUnderWay(w1, x) :: LandedFits(w1, x);
  }

  lemma ClaimFits(w: World, plan: Plan, fault: Fault)
    requires Inv(w) && w.journal.None? && 1 <= plan.metadata.version <= U32_MAX
    ensures var claimed := ClaimSnapshot(w.plans, plan, fault);
            && Inv(w.(plans := claimed.store))
            && forall p :: Of(claimed.store, p).current == Of(w.plans, p).current
  {
    var claimed := ClaimSnapshot(w.plans, plan, fault);
    assert Fits(claimed.store);
    var w1 := w.(plans := claimed.store);
    assert forall id | id in w1.patches :: LandedFits(w, id);
    assert forall id | id in w1.patches :: LandedFits(w1, id);
  }

  // ---------- One apply ----------

  // The plan a call would commit, when it gets that far.
  predicate Commits(w: World, id: string, call: Apply)
    requires id in w.patches
  {
    var patch := w.patches[id];
    var lineage := Of(w.plans, patch.planId);
    && patch.planVersion in lineage.snapshots
    && lineage.current == Some(lineage.snapshots[patch.planVersion])
    && patch.planVersion < 0xFFFF_FFFF && call.edited.Some?
    && (var next := NextPlan(lineage.current.value, call.edited.value.0, call.edited.value.1, call.now);
        && (next.metadata.version in lineage.snapshots ==> lineage.snapshots[next.metadata.version] == next)
        && call.writes >= 2)
  }

  // The approval is written and everything can be read.
  predicate Prepared(w: World, id: string, call: Apply)
    requires id in w.patches
  {
    call.approves.Written? && call.catalogReads && PlanLoads(w, w.patches[id], call)
  }

  predicate RollsBack(call: Apply) {
    !call.dies && call.restores
  }

  // Where an apply leaves a pending patch.
  function StatusAfter(w: World, id: string, call: Apply): Status
    requires id in w.patches
  {
    if call.approves.Unwritten? then Pending
    else if !Prepared(w, id, call) then Approved
    else if Commits(w, id, call) && call.writes >= ALL_COMMITTED then Applied
    else if RollsBack(call) then Pending
    else if Commits(w, id, call) && call.writes >= 4 then Applied
    else Approved
  }

  // What a proposal proposes, and whether and why it was rejected.
  predicate SameProposal(p: Patch, q: Patch) {
    q.planId == p.planId && q.planVersion == p.planVersion && q.rejectedAt == p.rejectedAt && q.reason == p.reason
  }

  // An apply of a pending patch on an opened storage, in every case: what it answers, and
  // whether the proposal ends applied, pending, stuck or left approved.
  lemma ApplyExactly(w: World, id: string, call: Apply)
    requires Inv(w) && w.journal.None? && id in w.patches && w.patches[id].status.Pending?
    ensures var r := ApplyOpened(w, id, call);
            var committed := Prepared(w, id, call) && Commits(w, id, call);
            && Inv(r.world) && id in r.world.patches && r.world.patches.Keys == w.patches.Keys
            && (r.result.Ok? <==> committed && call.writes >= ALL_COMMITTED)
            && (r.world.journal.Some? <==> committed && call.writes < NOT_SYNCED)
            && (Stuck(r.world) <==> r.world.journal.Some? && RollsBack(call))
            && r.world.patches[id].status == StatusAfter(w, id, call)
  {
    if !call.approves.Unwritten? {
      ApprovedInv(w, id, call.now);
      if Prepared(w, id, call) {
        PreparedInv(w, id, call);
        hide ApplyTo, Inv, Commits;
      } else {
        hide Inv, Commits;
      }
    }
  }

  // An approved proposal is left as it is, or marked as applied.
  predicate OnlyMarked(w: World, id: string, after: World)
    requires id in w.patches
  {
    && id in after.patches
    && (after.patches[id] == w.patches[id]
        || (w.patches[id].status.Approved? && after.patches[id] == w.patches[id].(status := Applied)))
  }

  lemma CommitOnlyMarks(w: World, id: string, next: Plan, writes: nat)
    requires id in w.patches
    ensures OnlyMarked(w, id, Commit(w, id, next, writes).world)
  {
    if w.patches[id].status.Approved? && writes >= 2 {
      var j := Journal(id, w.patches[id].planId, w.patches[id].planVersion, next);
      var claimed := ClaimSnapshot(w.plans, next, NoFault);
      CompleteOnlyMarks(w.(plans := claimed.store, journal := Some(j)), j, writes - 2);
      hide Complete, ClaimSnapshot;
    }
  }

  lemma CompleteOnlyMarks(w: World, j: Journal, writes: nat)
    requires j.patchId in w.patches && w.patches[j.patchId].status.Approved?
    ensures OnlyMarked(w, j.patchId, Complete(w, j, writes).world)
  {
    hide ClaimSnapshot, AdvanceCurrent, Of;
  }

  // The proposal stays what it is; the time of its approval is there unless it is pending again.
  lemma ApplyKeepsProposal(w: World, id: string, call: Apply)
    requires id in w.patches && w.patches[id].status.Pending?
    ensures var r := ApplyOpened(w, id, call).world;
            && id in r.patches && SameProposal(w.patches[id], r.patches[id])
            && r.patches[id].approvedAt ==
                 (if !r.patches[id].status.Pending? then Some(call.now)
                  else if call.approves.Unwritten? then w.patches[id].approvedAt else None)
  {
    var patch := w.patches[id];
    var w1 := w.(patches := w.patches[id := patch.(status := Approved, approvedAt := Some(call.now))]);
    if PlanLoads(w, patch, call) && call.edited.Some? {
      var plan := Of(w.plans, patch.planId).snapshots[patch.planVersion];
      CommitOnlyMarks(w1, id, NextPlan(plan, call.edited.value.0, call.edited.value.1, call.now), call.writes);
    }
    hide Commit, Of, NextPlan;
  }

  // The attempt of an apply that is prepared, and what its rollback would leave.
  function Attempt(w: World, id: string, call: Apply): World
    requires id in w.patches && Prepared(w, id, call)
  {
    var patch := w.patches[id];
    var w1 := w.(patches := w.patches[id := patch.(status := Approved, approvedAt := Some(call.now))]);
    ApplyTo(w1, id, Of(w.plans, patch.planId).snapshots[patch.planVersion], call).0.world
  }

  lemma PreparedInv(w: World, id: string, call: Apply)
    requires Inv(w) && w.journal.None? && id in w.patches && w.patches[id].status.Pending? && Prepared(w, id, call)
    ensures var r := Attempt(w, id, call);
            && Inv(r) && r.patches.Keys == w.patches.Keys && !Stuck(r)
            && (ApplyOpened(w, id, call).result.Ok? <==> Commits(w, id, call) && call.writes >= ALL_COMMITTED)
            && (r.journal.Some? <==> Commits(w, id, call) && call.writes < NOT_SYNCED)
            && r.patches[id].status == (if Commits(w, id, call) && call.writes >= 4 then Applied else Approved)
            && Inv(Restored(r, id)) && (Stuck(Restored(r, id)) <==> r.journal.Some?)
  {
    var patch := w.patches[id];
    var w1 := w.(patches := w.patches[id := patch.(status := Approved, approvedAt := Some(call.now))]);
    ApprovedInv(w, id, call.now);
    var plan := Of(w.plans, patch.planId).snapshots[patch.planVersion];
    assert LineageFits(w.plans[patch.planId], patch.planId);
    ApplyToInv(w1, id, plan, call);
    assert Commits(w, id, call) == Commits(w1, id, call);
    hide ApplyTo, Inv, Commits;
    RestoredInv(Attempt(w, id, call), id);
  }

  lemma ApprovedInv(w: World, id: string, now: int)
    requires Inv(w) && w.journal.None? && id in w.patches && w.patches[id].status.Pending?
    ensures Inv(w.(patches := w.patches[id := w.patches[id].(status := Approved, approvedAt := Some(now))]))
  {
    assert LandedFits(w, id);
    var w1 := w.(patches := w.patches[id := w.patches[id].(status := Approved, approvedAt := Some(now))]);
    assert forall x | x in w1.patches :: LandedFits(w, x);
    assert forall x | x in w1.patches :: LandedFits(w1, x);
  }

  lemma RestoredInv(w: World, id: string)
    requires Inv(w) && id in w.patches
    requires w.journal.None? ==>
               !w.patches[id].status.Rejected? && (w.patches[id].status.Applied? ==> Overtaken(w, w.patches[id]))
    requires w.journal.Some? ==> w.journal.value.patchId == id
    ensures Inv(Restored(w, id)) && (w.journal.Some? <==> Stuck(Restored(w, id)))
  {
    var w1 := Restored(w, id);
    assert forall x | x in w1.patches && !IsUnderWay(w, x) :: LandedFits(w, x);
    assert forall x | x in w1.patches && !IsUnderWay(w1, x) :: LandedFits(w1, x);
  }

  lemma ApplyToInv(w: World, id: string, plan: Plan, call: Apply)
    requires Inv(w) && w.journal.None? && id in w.patches && w.patches[id].status.Approved?
    requires plan.metadata.id == w.patches[id].planId && plan.metadata.version == w.patches[id].planVersion
    requires w.patches[id].planVersion in Of(w.plans, w.patches[id].planId).snapshots
    requires Of(w.plans, w.patches[id].planId).snapshots[w.patches[id].planVersion] == plan
    ensures var done := ApplyTo(w, id, plan, call).0;
            && Inv(done.world) && done.world.patches.Keys == w.patches.Keys && !Stuck(done.world)
            && (done.ok <==> Commits(w, id, call) && call.writes >= ALL_COMMITTED)
            && (done.world.journal.Some? <==> Commits(w, id, call) && call.writes < NOT_SYNCED)
            && (done.world.journal.Some? ==> done.world.journal.value.patchId == id)
            && (!Commits(w, id, call) ==> done.world.patches == w.patches)
            && (Commits(w, id, call) ==>
                 done.world.patches[id].status == if call.writes >= 4 then Applied else Approved)
            && (Commits(w, id, call) && call.writes >= NOT_SYNCED ==> Overtaken(done.world, done.world.patches[id]))
  {
    if Of(w.plans, w.patches[id].planId).current == Some(plan) && plan.metadata.version < U32_MAX && call.edited.Some? {
      var next := NextPlan(plan, call.edited.value.0, call.edited.value.1, call.now);
      CommitInv(w, id, next, call.writes);
    }
  }

  // The edited plan: what the operation made of the base, as its next version at this time,
  // with the base as its parent and everything else of its metadata kept.
  predicate EditOf(base: Plan, next: Plan, call: Apply) {
    && call.edited == Some((next.name, next.body))
    && next.metadata.id == base.metadata.id && next.metadata.version == base.metadata.version + 1
    && next.metadata.updatedAt == call.now && next.metadata.intent == base.metadata.intent
    && next.metadata.provenance.parentPlanId == Some(base.metadata.id)
    && next.metadata.provenance.parentVersion == Some(base.metadata.version)
    && next.metadata.provenance.createdAt == base.metadata.provenance.createdAt
    && next.metadata.provenance.compiledBy == base.metadata.provenance.compiledBy
    && next.metadata.provenance.draft == base.metadata.provenance.draft
    && next.metadata.provenance.solutionDesign == base.metadata.provenance.solutionDesign
  }

  // A plan is stored as its lineage's current one.
  predicate Published(w: World, plan: Plan) {
    && plan.metadata.id in w.plans && w.plans[plan.metadata.id].current == Some(plan)
    && plan.metadata.version in w.plans[plan.metadata.id].snapshots
    && w.plans[plan.metadata.id].snapshots[plan.metadata.version] == plan
  }

  // What an apply answers when nothing is applied: a proposal that is settled is refused and left
  // as it is, and from its approval on the call dies or is troubled.
  lemma AnswersExactly(w: World, id: string, call: Apply)
    ensures var o := Open(w, ALL_COMPLETED);
            var r := ApplyPatch(w, id, call);
            var known := o.ok && id in o.world.patches;
            && (r.result == Err(NotOpened) <==> !o.ok)
            && (r.result == Err(NotFound) <==> o.ok && !known)
            && (r.result == Err(AlreadyApplied) <==> known && o.world.patches[id].status.Applied?)
            && (r.result == Err(WasRejected) <==> known && o.world.patches[id].status.Rejected?)
            && (r.result in {Err(AlreadyApplied), Err(WasRejected)} ==> r.world == o.world)
            && r.result != Err(NotPending)
            && (r.result == Err(Died) ==> call.dies)
            && (r.result == Err(Trouble) && call.dies ==>
                 o.world.patches[id].status.Pending? && !call.approves.Written?)
  {
    hide Open, ApplyTo, PlanLoads, Restored;
  }

  // A rejection answers for each way it can go wrong, and what it leaves otherwise is the storage
  // as opened with the time and the reason in that one proposal.
  lemma RejectExactly(w: World, id: string, now: int, reason: Option<string>, saved: Write)
    ensures var o := Open(w, ALL_COMPLETED);
            var r := RejectPatch(w, id, now, reason, saved);
            var known := o.ok && id in o.world.patches;
            var pending := known && o.world.patches[id].status == Pending;
            && (r.result == Err(NotOpened) <==> !o.ok)
            && (r.result == Err(NotFound) <==> o.ok && !known)
            && (r.result == Err(NotPending) <==> known && !pending)
            && (r.result == Err(Trouble) <==> pending && saved != Written)
            && (r.result == Ok(()) <==> pending && saved == Written)
            && (if pending && saved != Unwritten then
                  && id in r.world.patches
                  && var p, q := o.world.patches[id], r.world.patches[id];
                     && q == Patch(p.planId, p.planVersion, Rejected, p.approvedAt, Some(now), reason)
                     && r.world == o.world.(patches := o.world.patches[id := q])
                else r.world == o.world)
  {}

  // The plan an apply answers with is the edit of the patch's base, which was the current plan,
  // and it is published; the plan a failed commit leaves in its journal is the edit too.
  lemma AppliesTheEdit(w: World, id: string, call: Apply)
    requires Inv(w)
    ensures var o := Open(w, ALL_COMPLETED);
            var r := ApplyPatch(w, id, call);
            && (r.result.Ok? ==> o.ok && id in o.world.patches)
            && (o.ok && id in o.world.patches && (r.result.Ok? || r.world.journal.Some?) ==>
                 && Of(o.world.plans, o.world.patches[id].planId).current.Some?
                 && var base := Of(o.world.plans, o.world.patches[id].planId).current.value;
                    && base.metadata.id == o.world.patches[id].planId
                    && base.metadata.version == o.world.patches[id].planVersion
                    && (r.result.Ok? ==> EditOf(base, r.result.value, call) && Published(r.world, r.result.value))
                    && (r.world.journal.Some? ==> EditOf(base, r.world.journal.value.next, call)))
  {
    OpenInv(w, ALL_COMPLETED);
    var o := Open(w, ALL_COMPLETED);
    if o.ok && id in o.world.patches {
      OpenedAppliesTheEdit(o.world, id, call);
    }
    hide Open, ApplyOpened, Inv, EditOf, Published;
  }

  lemma OpenedAppliesTheEdit(w: World, id: string, call: Apply)
    requires Inv(w) && w.journal.None? && id in w.patches
    ensures var r := ApplyOpened(w, id, call);
            var patch := w.patches[id];
            r.result.Ok? || r.world.journal.Some? ==>
              && Of(w.plans, patch.planId).current.Some?
              && var base := Of(w.plans, patch.planId).current.value;
                 && base.metadata.id == patch.planId && base.metadata.version == patch.planVersion
                 && (r.result.Ok? ==> EditOf(base, r.result.value, call) && Published(r.world, r.result.value))
                 && (r.world.journal.Some? ==> EditOf(base, r.world.journal.value.next, call))
  {
    var patch := w.patches[id];
    var approved := patch.(status := Approved, approvedAt := Some(call.now));
    var w1 := if patch.status.Pending? then w.(patches := w.patches[id := approved]) else w;
    if (patch.status.Pending? || patch.status.Approved?) && PlanLoads(w, patch, call) {
      var plan := Of(w.plans, patch.planId).snapshots[patch.planVersion];
      assert LineageFits(w.plans[patch.planId], patch.planId);
      if patch.status.Pending? {
        ApprovedInv(w, id, call.now);
      }
      AttemptsTheEdit(w1, id, plan, call);
    }
    hide ApplyTo, Inv, EditOf, Published;
  }

  lemma AttemptsTheEdit(w: World, id: string, plan: Plan, call: Apply)
    requires Inv(w) && w.journal.None? && id in w.patches && w.patches[id].status.Approved?
    requires plan.metadata.id == w.patches[id].planId
    ensures var r := ApplyTo(w, id, plan, call);
            r.0.ok || r.0.world.journal.Some? ==>
              && Of(w.plans, plan.metadata.id).current == Some(plan)
              && (r.1.Some? ==> EditOf(plan, r.1.value, call) && Published(r.0.world, r.1.value))
              && (r.0.world.journal.Some? ==> EditOf(plan, r.0.world.journal.value.next, call))
  {
    if Of(w.plans, w.patches[id].planId).current == Some(plan) && plan.metadata.version < U32_MAX && call.edited.Some? {
      var next := NextPlan(plan, call.edited.value.0, call.edited.value.1, call.now);
      CommitInv(w, id, next, call.writes);
      if Commit(w, id, next, call.writes).ok {
        CommitPublishes(w, id, next, call.writes);
      }
      NextIsEdit(plan, call);
      hide Commit, Inv, Published, Starts, NextPlan, EditOf, Of;
    }
  }

  lemma NextIsEdit(base: Plan, call: Apply)
    requires call.edited.Some?
    ensures EditOf(base, NextPlan(base, call.edited.value.0, call.edited.value.1, call.now), call)
    ensures NextPlan(base, call.edited.value.0, call.edited.value.1, call.now).metadata.id == base.metadata.id
  {}

  lemma CommitPublishes(w: World, id: string, next: Plan, writes: nat)
    requires Inv(w) && w.journal.None? && id in w.patches && Commit(w, id, next, writes).ok
    ensures Published(Commit(w, id, next, writes).world, next)
  {
    CommitInv(w, id, next, writes);
    CommitIsSound(w, id, next, writes);
    hide Commit, CommitReaches, Starts;
    var after := Commit(w, id, next, writes).world;
    assert Fits(after.plans) && LineageFits(after.plans[next.metadata.id], next.metadata.id);
  }

  lemma CommitIsSound(w: World, id: string, next: Plan, writes: nat)
    requires id in w.patches && Commit(w, id, next, writes).ok
    ensures Of(Commit(w, id, next, writes).world.plans, next.metadata.id).current == Some(next)
  {
    hide Complete, ClaimSnapshot;
    var patch := w.patches[id];
    var w1 := w.(plans := ClaimSnapshot(w.plans, next, NoFault).store);
    var j := Journal(id, patch.planId, patch.planVersion, next);
    CompletionIsSound(w1.(journal := Some(j)), j, writes - 2);
  }

  // An unreadable catalog or base plan skips the rollback: the proposal stays approved and
  // can no longer be rejected.
  lemma UnreadableInputsStrand(w: World, id: string, call: Apply, now: int, reason: Option<string>, saved: Write)
    requires w.journal.None? && id in w.patches && w.patches[id].status.Pending? && call.approves.Written?
    ensures var r := ApplyPatch(w, id, call);
            !call.catalogReads || !PlanLoads(w, w.patches[id], call) ==>
              && r.result.Err? && r.world.patches[id].status.Approved?
              && RejectPatch(r.world, id, now, reason, saved).result == Err(NotPending)
  {}

  // A plan at version 1 and a pending patch for it.
  function Proposed(name: string): World {
    var plan := Plan(Metadata("plan", 1, 0, None, Provenance(0, None, None, None, false, None)), name, "steps");
    World(map["plan" := Lineage(Some(plan), map[1 := plan])],
          map["fix" := Patch("plan", 1, Pending, None, None, None)], None, multiset{}, {}, {})
  }

  // An apply leaves a storage that does not open exactly when its commit fails under its
  // journal and is rolled back to pending.
  lemma RolledBackCommitSticks(w: World, id: string, call: Apply, again: Apply)
    requires Inv(w) && w.journal.None? && id in w.patches && w.patches[id].status.Pending?
    ensures var r := ApplyPatch(w, id, call).world;
            && (Stuck(r) <==>
                 Prepared(w, id, call) && Commits(w, id, call) && call.writes < NOT_SYNCED && RollsBack(call))
            && (Stuck(r) ==> ApplyPatch(r, id, again).result == Err(NotOpened))
  {
    ApplyExactly(w, id, call);
    OpenInv(ApplyOpened(w, id, call).world, ALL_COMPLETED);
    hide ApplyOpened, Inv, Commits, Complete;
  }

  // How an apply can be rolled back although its whole commit was written.
  predicate LosesReport(w: World, id: string, call: Apply)
    requires id in w.patches
  {
    Prepared(w, id, call) && Commits(w, id, call) && call.writes == NOT_SYNCED && RollsBack(call)
  }

  // A patch that never landed ends pending, landed and without a journal exactly then.
  lemma UnreportedExactly(w: World, id: string, call: Apply)
    requires Inv(w) && w.journal.None? && id in w.patches && w.patches[id].status.Pending? && w.landed[id] == 0
    ensures var r := ApplyPatch(w, id, call).world;
            && id in r.patches
            && (r.patches[id].status.Pending? && r.landed[id] == 1 && r.journal.None? <==> LosesReport(w, id, call))
            && (id in r.unreported <==> LosesReport(w, id, call))
  {
    ApplyExactly(w, id, call);
    ApplyAstray(w, id, call);
    assert LandedFits(w, id);
    var r := ApplyOpened(w, id, call).world;
    hide ApplyOpened;
    if r.journal.None? {
      assert LandedFits(r, id);
    }
  }

  // Then the patch can be rejected with its plan current.
  lemma RejectedThoughLanded(w: World, id: string, call: Apply, now: int, reason: Option<string>)
    requires Inv(w) && w.journal.None? && id in w.patches && w.patches[id].status.Pending? && w.landed[id] == 0
    requires LosesReport(w, id, call)
    ensures var rejected := RejectPatch(ApplyPatch(w, id, call).world, id, now, reason, Written);
            && rejected.result.Ok? && rejected.world.journal.None?
            && rejected.world.patches[id].status.Rejected? && rejected.world.landed[id] == 1
            && Overtaken(rejected.world, rejected.world.patches[id])
  {
    UnreportedExactly(w, id, call);
    ApplyExactly(w, id, call);
    assert LandedFits(ApplyPatch(w, id, call).world, id);
    hide ApplyPatch, Inv, LosesReport;
  }

  // There are such applies: of the pending patch above, for one.
  lemma ReportIsLost(name: string)
    ensures var call := Apply(1, Written, true, true, Some((name, "fixed")), NOT_SYNCED, false, true);
            Init(Proposed(name)) && LosesReport(Proposed(name), "fix", call)
  {
    assert Proposed(name).plans["plan"].snapshots[1] == Proposed(name).plans["plan"].current.value;
  }

  lemma ApplyAstray(w: World, id: string, call: Apply)
    requires Inv(w) && w.journal.None? && id in w.patches && w.patches[id].status.Pending?
    ensures ApplyOpened(w, id, call).world.unreported
         == if LosesReport(w, id, call) then w.unreported + {id} else w.unreported
  {
    var patch := w.patches[id];
    var w1 := w.(patches := w.patches[id := patch.(status := Approved, approvedAt := Some(call.now))]);
    if Prepared(w, id, call) {
      ApprovedInv(w, id, call.now);
      var plan := Of(w.plans, patch.planId).snapshots[patch.planVersion];
      assert LineageFits(w.plans[patch.planId], patch.planId);
      ApplyToInv(w1, id, plan, call);
      CommitKeepsAstray(w1, id, plan, call);
      hide ApplyTo, Inv;
    }
  }

  // ---------- Any sequence of calls ----------

  datatype Call =
    | ApplyCall(id: string, apply: Apply)
    | RejectCall(id: string, now: int, reason: Option<string>, saved: Write)
    | SaveCall(plan: Plan, fault: Fault)
    | OpenCall(writes: nat)
    | UnreadableCall

  function Do(w: World, call: Call): World {
    match call
    case ApplyCall(id, apply) => ApplyPatch(w, id, apply).world
    case RejectCall(id, now, reason, saved) => RejectPatch(w, id, now, reason, saved).world
    case SaveCall(plan, fault) => SaveOther(w, plan, fault).world
    case OpenCall(writes) => Open(w, writes).world
    case UnreadableCall => SetAside(w)
  }

  function Run(w: World, calls: seq<Call>): World
    decreases |calls|
  {
    if calls == [] then w else Run(Do(w, calls[0]), calls[1..])
  }

  lemma OpenInv(w: World, writes: nat)
    requires Inv(w)
    ensures var done := Open(w, writes);
            && Inv(done.world) && done.world.patches.Keys == w.patches.Keys
            && (Stuck(done.world) <==> Stuck(w))
            && (writes >= ALL_COMPLETED ==> (done.ok <==> !Stuck(w)))
            && (done.ok ==> done.world.journal.None?)
  {
    if w.journal.Some? {
      CompleteInv(w, writes);
    }
  }

  lemma ApplyApprovedInv(w: World, id: string, call: Apply)
    requires Inv(w) && w.journal.None? && id in w.patches && w.patches[id].status.Approved?
    ensures Inv(ApplyOpened(w, id, call).world) && !Stuck(ApplyOpened(w, id, call).world)
    ensures ApplyOpened(w, id, call).world.patches.Keys == w.patches.Keys
  {
    var patch := w.patches[id];
    if call.catalogReads && PlanLoads(w, patch, call) {
      assert LineageFits(w.plans[patch.planId], patch.planId);
      ApplyToInv(w, id, Of(w.plans, patch.planId).snapshots[patch.planVersion], call);
    }
  }

  lemma DoInv(w: World, call: Call)
    requires Inv(w)
    ensures Inv(Do(w, call)) && Do(w, call).patches.Keys == w.patches.Keys
    ensures Stuck(w) && call != UnreadableCall ==> Stuck(Do(w, call))
  {
    OpenInv(w, ALL_COMPLETED);
    var o := Open(w, ALL_COMPLETED).world;
    match call
    case ApplyCall(id, apply) =>
      if Open(w, ALL_COMPLETED).ok && id in o.patches {
        if o.patches[id].status.Pending? {
          ApplyExactly(o, id, apply);
        } else if o.patches[id].status.Approved? {
          ApplyApprovedInv(o, id, apply);
        }
      }
    case RejectCall(id, now, reason, saved) =>
      if Open(w, ALL_COMPLETED).ok && id in o.patches && o.patches[id].status.Pending? {
        RejectedInv(o, id, now, reason);
      }
    case SaveCall(plan, fault) =>
      if Open(w, ALL_COMPLETED).ok {
        SavedInv(o, plan, fault);
      }
    case OpenCall(writes) => OpenInv(w, writes);
    case UnreadableCall => SetAsideInv(w);
  }

  // Setting a journal aside keeps the storage consistent and lets it open again; its patch is
  // lost exactly when its plan was current already and it was not marked yet.
  lemma SetAsideInv(w: World)
    requires Inv(w)
    ensures Inv(SetAside(w)) && SetAside(w).patches == w.patches && SetAside(w).landed == w.landed
    ensures SetAside(w).journal.None? && !Stuck(SetAside(w))
    ensures forall id | id in w.patches && IsUnderWay(w, id) ::
              id in SetAside(w).lost <==> w.landed[id] == 1 && !w.patches[id].status.Applied?
  {
    var w1 := SetAside(w);
    assert forall id | id in w.patches && !IsUnderWay(w, id) :: LandedFits(w, id);
    assert forall id | id in w1.patches :: LandedFits(w1, id);
  }

  lemma RejectedInv(w: World, id: string, now: int, reason: Option<string>)
    requires Inv(w) && w.journal.None? && id in w.patches && w.patches[id].status.Pending?
    ensures var rejected := w.patches[id].(status := Rejected, rejectedAt := Some(now), reason := reason);
            Inv(w.(patches := w.patches[id := rejected]))
  {
    var rejected := w.patches[id].(status := Rejected, rejectedAt := Some(now), reason := reason);
    var w1 := w.(patches := w.patches[id := rejected]);
    assert forall x | x in w1.patches :: LandedFits(w, x);
    assert forall x | x in w1.patches :: LandedFits(w1, x);
  }

  lemma SavedInv(w: World, plan: Plan, fault: Fault)
    requires Inv(w) && w.journal.None?
    ensures Inv(w.(plans := Save(w.plans, plan, fault).store))
  {
    SaveFits(w.plans, plan, fault);
    var w1 := w.(plans := Save(w.plans, plan, fault).store);
    hide Save, Fits, Of;
    forall x | x in w1.patches ensures LandedFits(w1, x) {
      SaveMoves(w.plans, plan, fault, w.patches[x].planId);
      assert LandedFits(w, x);
    }
  }

  lemma {:induction false} RunInv(w: World, calls: seq<Call>)
    requires Inv(w)
    ensures Inv(Run(w, calls)) && Run(w, calls).patches.Keys == w.patches.Keys
    ensures Stuck(w) && UnreadableCall !in calls ==> Stuck(Run(w, calls))
    decreases |calls|
  {
    if calls == [] {
    } else {
      hide Inv, Do, Stuck;
      DoInv(w, calls[0]);
      RunInv(Do(w, calls[0]), calls[1..]);
    }
  }

  // Only setting a journal aside loses a patch, and only an apply that loses its report
  // leaves one unreported.
  lemma AstrayGrows(w: World, call: Call)
    ensures var r := Do(w, call);
            && w.lost <= r.lost && w.unreported <= r.unreported
            && (call != UnreadableCall ==> r.lost == w.lost)
            && (!MayLoseReport(call) ==> r.unreported == w.unreported)
  {
    var o := Open(w, ALL_COMPLETED).world;
    if w.journal.Some? {
      CompleteKeepsAstray(w, w.journal.value, ALL_COMPLETED);
      if call.OpenCall? {
        CompleteKeepsAstray(w, w.journal.value, call.writes);
      }
    }
    if call.ApplyCall? {
      ApplyKeepsAstray(o, call.id, call.apply);
    }
    hide Complete, ApplyOpened, Save;
  }

  predicate MayLoseReport(call: Call) {
    call.ApplyCall? && call.apply.writes == NOT_SYNCED && RollsBack(call.apply)
  }

  lemma CompleteKeepsAstray(w: World, j: Journal, writes: nat)
    ensures Complete(w, j, writes).world.lost == w.lost && Complete(w, j, writes).world.unreported == w.unreported
  {}

  lemma ApplyKeepsAstray(w: World, id: string, call: Apply)
    ensures var r := ApplyOpened(w, id, call).world;
            && r.lost == w.lost && w.unreported <= r.unreported
            && (call.writes != NOT_SYNCED || !RollsBack(call) ==> r.unreported == w.unreported)
  {
    if id in w.patches {
      var approved := w.patches[id].(status := Approved, approvedAt := Some(call.now));
      var w1 := if w.patches[id].status.Pending? then w.(patches := w.patches[id := approved]) else w;
      if PlanLoads(w, w.patches[id], call) {
        CommitKeepsAstray(w1, id, Of(w.plans, w.patches[id].planId).snapshots[w.patches[id].planVersion], call);
      }
    }
    hide ApplyTo;
  }

  lemma CommitKeepsAstray(w: World, id: string, plan: Plan, call: Apply)
    requires id in w.patches
    ensures var r := ApplyTo(w, id, plan, call).0;
            && r.world.lost == w.lost && r.world.unreported == w.unreported
  {
    if call.edited.Some? && call.writes >= 2 {
      var next := NextPlan(plan, call.edited.value.0, call.edited.value.1, call.now);
      var patch := w.patches[id];
      var j := Journal(id, patch.planId, patch.planVersion, next);
      var claimed := ClaimSnapshot(w.plans, next, NoFault).store;
      CompleteKeepsAstray(w.(plans := claimed, journal := Some(j)), j, call.writes - 2);
    }
    hide Complete;
  }

  lemma {:induction false} AstrayNowhere(w: World, calls: seq<Call>)
    ensures var end := Run(w, calls);
            && w.lost <= end.lost && w.unreported <= end.unreported
            && (UnreadableCall !in calls ==> end.lost == w.lost)
            && ((forall i | 0 <= i < |calls| :: !MayLoseReport(calls[i])) ==> end.unreported == w.unreported)
    decreases |calls|
  {
    if calls == [] {
    } else {
      AstrayGrows(w, calls[0]);
      AstrayNowhere(Do(w, calls[0]), calls[1..]);
      hide Do;
    }
  }

  // Over any sequence of applies, rejections, other saves and openings, with any of their
  // writes failing or failing to report, with crashes and unreadable journals: a patch becomes
  // a plan at most once, an applied one exactly once, a rejected one never unless it was lost
  // or unreported.
  lemma AppliedAtMostOnce(w: World, calls: seq<Call>, id: string)
    requires Init(w) && id in w.patches
    ensures var end := Run(w, calls);
            && id in end.patches && end.landed[id] <= 1
            && (end.patches[id].status.Applied? ==> end.landed[id] == 1)
            && (end.patches[id].status.Rejected? ==> end.landed[id] == if Astray(end, id) then 1 else 0)
            && (UnreadableCall !in calls ==> end.lost == {})
            && ((forall i | 0 <= i < |calls| :: !MayLoseReport(calls[i])) ==> end.unreported == {})
  {
    assert Inv(w) by {
      assert forall x | x in w.patches :: LandedFits(w, x);
    }
    RunInv(w, calls);
    AstrayNowhere(w, calls);
    assert IsUnderWay(Run(w, calls), id) || LandedFits(Run(w, calls), id);
  }

  // A patch gone astray stays landed and unmarked over any sequence: every apply of it fails,
  // and a pending one can only be rejected.
  lemma AstrayForGood(w: World, calls: seq<Call>, id: string, call: Apply, now: int, reason: Option<string>)
    requires Inv(w) && id in w.patches && Astray(w, id)
    ensures var end := Run(w, calls);
            && Astray(end, id) && id in end.patches && !end.patches[id].status.Applied? && end.landed[id] == 1
            && ApplyPatch(end, id, call).result.Err?
            && (end.patches[id].status.Pending? && !Stuck(end) ==>
                 RejectPatch(end, id, now, reason, Written).result.Ok?)
  {
    RunInv(w, calls);
    AstrayNowhere(w, calls);
    var end := Run(w, calls);
    assert LandedFits(end, id);
    OpenInv(end, ALL_COMPLETED);
    AstrayOpen(end, ALL_COMPLETED, id);
    var o := Open(end, ALL_COMPLETED).world;
    hide Run, Open, Inv, ApplyOpened;
    if Open(end, ALL_COMPLETED).ok {
      AstrayCannotApply(o, id, call);
    }
  }

  lemma AstrayOpen(w: World, writes: nat, id: string)
    requires Inv(w) && id in w.patches && Astray(w, id)
    ensures var o := Open(w, writes);
            && Inv(o.world) && (o.ok ==> o.world.journal.None?)
            && id in o.world.patches && Astray(o.world, id) && o.world.patches[id] == w.patches[id]
  {
    OpenInv(w, writes);
    hide Complete;
    if w.journal.Some? {
      CompleteKeepsOthers(w, w.journal.value, writes);
      CompleteKeepsAstray(w, w.journal.value, writes);
    }
  }

  // Its base is not the current plan, and never will be.
  lemma AstrayCannotApply(w: World, id: string, call: Apply)
    requires Inv(w) && w.journal.None? && id in w.patches && Astray(w, id)
    ensures ApplyOpened(w, id, call).result.Err?
    ensures w.patches[id].status.Approved? ==> ApplyOpened(w, id, call).world == w
  {
    assert LandedFits(w, id);
    var patch := w.patches[id];
    if patch.planVersion in Of(w.plans, patch.planId).snapshots {
      assert LineageFits(w.plans[patch.planId], patch.planId);
    }
  }

  // One that is approved stays so: it cannot be rejected either.
  lemma {:induction false} ApprovedAstrayForGood(w: World, calls: seq<Call>, id: string)
    requires Inv(w) && id in w.patches && Astray(w, id) && w.patches[id].status.Approved?
    ensures var end := Run(w, calls);
            id in end.patches && end.patches[id] == w.patches[id]
    decreases |calls|
  {
    if calls == [] {
    } else {
      DoInv(w, calls[0]);
      AstrayGrows(w, calls[0]);
      ApprovedAstrayStep(w, calls[0], id);
      hide Inv, Do;
      ApprovedAstrayForGood(Do(w, calls[0]), calls[1..], id);
    }
  }

  lemma ApprovedAstrayStep(w: World, call: Call, id: string)
    requires Inv(w) && id in w.patches && Astray(w, id) && w.patches[id].status.Approved?
    ensures id in Do(w, call).patches && Do(w, call).patches[id] == w.patches[id]
  {
    hide Open, ApplyTo, Restored, Save, Inv;
    var o := Open(w, ALL_COMPLETED).world;
    AstrayOpen(w, ALL_COMPLETED, id);
    if call.OpenCall? {
      AstrayOpen(w, call.writes, id);
    }
    if call.ApplyCall? && Open(w, ALL_COMPLETED).ok {
      if call.id == id {
        AstrayCannotApply(o, id, call.apply);
      } else if call.id in o.patches {
        ApplyKeepsOthers(o, call.id, call.apply);
      }
    }
  }

  // A crash anywhere in an apply, followed by openings that may crash too and one that
  // completes: the patch is applied exactly when its journal was written, and otherwise it is
  // as if the commit had not begun, approved and ready to be applied again.
  lemma CrashIsAllOrNothing(w: World, id: string, call: Apply, crashes: seq<nat>)
    requires Inv(w) && w.journal.None? && id in w.patches && w.patches[id].status.Pending?
    requires call.dies && ApplyOpened(w, id, call).result.Err?
    ensures var reopened := Open(Reopenings(ApplyOpened(w, id, call).world, crashes), ALL_COMPLETED);
            var committed := Prepared(w, id, call) && Commits(w, id, call);
            && reopened.ok && reopened.world.journal.None?
            && (committed ==> id in reopened.world.patches && reopened.world.patches[id].status.Applied?
                              && reopened.world.landed[id] == 1)
            && (!committed ==> reopened.world == ApplyOpened(w, id, call).world)
  {
    var crashed := ApplyOpened(w, id, call).world;
    ApplyExactly(w, id, call);
    if crashed.journal.Some? {
      assert crashed.journal.value.patchId == id by {
        CrashedJournal(w, id, call);
      }
    }
    ReopeningsComplete(crashed, crashes, id);
  }

  function Reopenings(w: World, crashes: seq<nat>): World
    decreases |crashes|
  {
    if crashes == [] then w else Reopenings(Open(w, crashes[0]).world, crashes[1..])
  }

  lemma CrashedJournal(w: World, id: string, call: Apply)
    requires Inv(w) && w.journal.None? && id in w.patches && w.patches[id].status.Pending?
    requires ApplyOpened(w, id, call).world.journal.Some?
    ensures ApplyOpened(w, id, call).world.journal.value.patchId == id
  {
    ApprovedInv(w, id, call.now);
    var w1 := w.(patches := w.patches[id := w.patches[id].(status := Approved, approvedAt := Some(call.now))]);
    assert LineageFits(w.plans[w.patches[id].planId], w.patches[id].planId);
    ApplyToInv(w1, id, Of(w.plans, w.patches[id].planId).snapshots[w.patches[id].planVersion], call);
  }

  lemma {:induction false} ReopeningsComplete(w: World, crashes: seq<nat>, id: string)
    requires Inv(w) && !Stuck(w) && id in w.patches
    requires w.journal.Some? ==> w.journal.value.patchId == id
    ensures var reopened := Open(Reopenings(w, crashes), ALL_COMPLETED);
            && reopened.ok && reopened.world.journal.None?
            && (w.journal.None? ==> reopened.world == w)
            && (w.journal.Some? || w.patches[id].status.Applied? ==>
                 && id in reopened.world.patches && reopened.world.patches[id].status.Applied?
                 && reopened.world.landed[id] == 1)
    decreases |crashes|
  {
    if crashes == [] {
      OpenInv(w, ALL_COMPLETED);
      if w.journal.Some? {
        CompleteInv(w, ALL_COMPLETED);
      }
      assert LandedFits(Open(w, ALL_COMPLETED).world, id);
    } else {
      OpenInv(w, crashes[0]);
      if w.journal.Some? {
        CompleteInv(w, crashes[0]);
      }
      ReopeningsComplete(Open(w, crashes[0]).world, crashes[1..], id);
    }
  }

  // After a crash and any number of crashing openings, one that cannot read the journal leaves
  // the patch applied exactly when it was marked, and lost exactly when only its plan was written.
  lemma UnreadableAfterCrash(w: World, id: string, call: Apply, crashes: seq<nat>)
    requires Inv(w) && w.journal.None? && id in w.patches && w.patches[id].status.Pending?
    requires call.dies && ApplyOpened(w, id, call).result.Err?
    ensures var before := Reopenings(ApplyOpened(w, id, call).world, crashes);
            var reopened := SetAside(before);
            && reopened.journal.None? && Inv(reopened) && id in before.patches && reopened.patches == before.patches
            && (Astray(reopened, id) <==> reopened.landed[id] == 1 && !reopened.patches[id].status.Applied?)
            && reopened.unreported == w.unreported
            && (!Astray(reopened, id) ==> reopened.landed[id] == if reopened.patches[id].status.Applied? then 1 else 0)
  {
    var crashed := ApplyOpened(w, id, call).world;
    ApplyExactly(w, id, call);
    ApplyKeepsAstray(w, id, call);
    ReopeningsInv(crashed, crashes);
    hide ApplyOpened, Commits, PlanLoads, Reopenings, Inv;
    SetAsideInv(Reopenings(crashed, crashes));
    assert LandedFits(SetAside(Reopenings(crashed, crashes)), id);
  }

  lemma {:induction false} ReopeningsInv(w: World, crashes: seq<nat>)
    requires Inv(w)
    ensures Inv(Reopenings(w, crashes)) && Reopenings(w, crashes).patches.Keys == w.patches.Keys
    ensures Reopenings(w, crashes).unreported == w.unreported
    decreases |crashes|
  {
    if crashes == [] {
    } else {
      OpenInv(w, crashes[0]);
      if w.journal.Some? {
        CompleteKeepsAstray(w, w.journal.value, crashes[0]);
      }
      hide Inv, Complete;
      ReopeningsInv(Open(w, crashes[0]).world, crashes[1..]);
    }
  }

  // Any other save fails if the storage does not open or the save itself fails.
  lemma SaveOtherExactly(w: World, plan: Plan, fault: Fault)
    ensures var r := SaveOther(w, plan, fault);
            var o := Open(w, ALL_COMPLETED);
            && (r.result == Ok(()) <==> o.ok && Save(o.world.plans, plan, fault).ok)
            && (r.result == Err(NotOpened) <==> !o.ok)
            && r.world == o.world.(plans := if o.ok then Save(o.world.plans, plan, fault).store else o.world.plans)
  {}

  // Once a failed commit was rolled back under its journal, the storage never opens again:
  // every later call fails, over any sequence in which the journal can be read.
  lemma StuckForever(w: World, calls: seq<Call>, id: string, call: Apply, now: int, reason: Option<string>,
                     plan: Plan, fault: Fault)
    requires Inv(w) && Stuck(w) && UnreadableCall !in calls
    ensures var end := Run(w, calls);
            && Open(SetAside(end), ALL_COMPLETED).ok
            && ApplyPatch(end, id, call).result == Err(NotOpened)
            && RejectPatch(end, id, now, reason, Written).result == Err(NotOpened)
            && SaveOther(end, plan, fault).result == Err(NotOpened)
  {
    RunInv(w, calls);
    OpenInv(Run(w, calls), ALL_COMPLETED);
  }

  // ---------- When proposals stay actionable ----------

  // Every proposal is pending, applied or rejected, and a pending one's base plan is stored.
  ghost predicate Settled(w: World) {
    && w.journal.None?
    && forall id | id in w.patches ::
         && !w.patches[id].status.Approved?
         && (w.patches[id].status.Pending? ==> w.patches[id].planVersion in Of(w.plans, w.patches[id].planId).snapshots)
  }

  // The applies after which a proposal is not: an approval whose write goes unreported, inputs
  // that cannot be read, a commit that fails under its journal, or one that fails before it
  // and is not rolled back.
  predicate Unsettles(w: World, call: Call) {
    && call.ApplyCall? && call.id in w.patches && w.patches[call.id].status.Pending?
    && !call.apply.approves.Unwritten?
    && (Prepared(w, call.id, call.apply) ==>
         if Commits(w, call.id, call.apply) then call.apply.writes < NOT_SYNCED else !RollsBack(call.apply))
  }

  ghost predicate SettledThroughout(w: World, calls: seq<Call>)
    decreases |calls|
  {
    Settled(w) && (calls == [] || SettledThroughout(Do(w, calls[0]), calls[1..]))
  }

  predicate NeverUnsettles(w: World, calls: seq<Call>)
    decreases |calls|
  {
    calls == [] || (!Unsettles(w, calls[0]) && NeverUnsettles(Do(w, calls[0]), calls[1..]))
  }

  // Between any two calls every proposal is pending, applied or rejected exactly when no call
  // is one of those.
  lemma {:induction false} SettledExactly(w: World, calls: seq<Call>)
    requires Inv(w) && Settled(w)
    ensures SettledThroughout(w, calls) <==> NeverUnsettles(w, calls)
    decreases |calls|
  {
    if calls == [] {
    } else {
      hide Inv, Do, Settled, Unsettles;
      DoInv(w, calls[0]);
      SettledStep(w, calls[0]);
      if Settled(Do(w, calls[0])) {
        SettledExactly(Do(w, calls[0]), calls[1..]);
      }
    }
  }

  lemma SettledStep(w: World, call: Call)
    requires Inv(w) && Settled(w)
    ensures Settled(Do(w, call)) <==> !Unsettles(w, call)
  {
    if call.ApplyCall? && call.id in w.patches && w.patches[call.id].status.Pending? {
      SettledApply(w, call.id, call.apply);
    } else if call.SaveCall? {
      hide Save;
      SaveKeeps(w.plans, call.plan, call.fault);
    }
  }

  lemma SettledApply(w: World, id: string, call: Apply)
    requires Inv(w) && Settled(w) && id in w.patches && w.patches[id].status.Pending?
    ensures Settled(ApplyPatch(w, id, call).world) <==> !Unsettles(w, ApplyCall(id, call))
  {
    hide ApplyOpened, Inv, Commits;
    ApplyExactly(w, id, call);
    ApplyKeepsOthers(w, id, call);
  }

  // No other proposal is touched, the base of this one stays, and no stored plan is removed.
  ghost predicate KeepsOthers(w: World, r: World, id: string) {
    && (forall x | x in w.patches && x != id :: x in r.patches && r.patches[x] == w.patches[x])
    && Keeps(w.plans, r.plans)
    && (id in w.patches ==>
         && id in r.patches && r.patches[id].planId == w.patches[id].planId
         && r.patches[id].planVersion == w.patches[id].planVersion)
  }

  lemma CompleteKeepsOthers(w: World, j: Journal, writes: nat)
    ensures KeepsOthers(w, Complete(w, j, writes).world, j.patchId)
  {
    CompleteKeepsPlans(w, j, writes);
    hide Keeps;
  }

  lemma CompleteKeepsPlans(w: World, j: Journal, writes: nat)
    ensures Keeps(w.plans, Complete(w, j, writes).world.plans)
  {
    ClaimKeeps(w.plans, j.next, NoFault);
    var claimed := ClaimSnapshot(w.plans, j.next, NoFault).store;
    AdvanceKeeps(claimed, j.next, Some(j.base), NoFault);
    var advanced := AdvanceCurrent(claimed, j.next, Some(j.base), NoFault).store;
    assert Keeps(w.plans, w.plans) && Keeps(w.plans, claimed) && Keeps(w.plans, advanced);
    hide ClaimSnapshot, AdvanceCurrent, Keeps, JournalFits, PatchFits, Of;
  }

  lemma CommitKeepsOthers(w: World, id: string, next: Plan, writes: nat)
    requires id in w.patches
    ensures KeepsOthers(w, Commit(w, id, next, writes).world, id)
  {
    hide Complete;
    var claimed := ClaimSnapshot(w.plans, next, if writes == 0 then BeforeSnapshot else NoFault);
    ClaimKeeps(w.plans, next, if writes == 0 then BeforeSnapshot else NoFault);
    if writes >= 2 {
      var j := Journal(id, w.patches[id].planId, w.patches[id].planVersion, next);
      CompleteKeepsOthers(w.(plans := claimed.store, journal := Some(j)), j, writes - 2);
    }
  }

  lemma KeepsChain(a: World, b: World, c: World, id: string)
    requires KeepsOthers(a, b, id) && KeepsOthers(b, c, id) && id in a.patches
    ensures KeepsOthers(a, c, id) && KeepsOthers(a, Restored(c, id), id)
  {}

  lemma ApprovedKeeps(w: World, id: string, now: int)
    requires id in w.patches
    ensures var approved := w.patches[id].(status := Approved, approvedAt := Some(now));
            KeepsOthers(w, w.(patches := w.patches[id := approved]), id)
    ensures KeepsOthers(w, w, id)
  {}

  // An apply touches no other proposal and removes no stored plan.
  lemma ApplyKeepsOthers(w: World, id: string, call: Apply)
    requires id in w.patches
    ensures KeepsOthers(w, ApplyOpened(w, id, call).world, id)
  {
    hide KeepsOthers, ApplyTo, Restored, Of, Inv;
    var patch := w.patches[id];
    var approved := patch.(status := Approved, approvedAt := Some(call.now));
    var w1 := if patch.status.Pending? then w.(patches := w.patches[id := approved]) else w;
    ApprovedKeeps(w, id, call.now);
    if PlanLoads(w, patch, call) {
      var plan := Of(w.plans, patch.planId).snapshots[patch.planVersion];
      ApplyToKeepsOthers(w1, id, plan, call);
      KeepsChain(w, w1, ApplyTo(w1, id, plan, call).0.world, id);
    }
  }

  lemma ApplyToKeepsOthers(w: World, id: string, plan: Plan, call: Apply)
    requires id in w.patches
    ensures KeepsOthers(w, ApplyTo(w, id, plan, call).0.world, id)
  {
    hide Commit;
    if call.edited.Some? {
      CommitKeepsOthers(w, id, NextPlan(plan, call.edited.value.0, call.edited.value.1, call.now), call.writes);
    }
  }

  // After a failed apply of a pending patch it can be rejected exactly when it was never
  // approved, or could be read, failed without leaving a journal, and was rolled back.
  lemma FailedApplyCanBeRejected(w: World, id: string, call: Apply, now: int, reason: Option<string>)
    requires Inv(w) && w.journal.None? && id in w.patches && w.patches[id].status.Pending?
    requires ApplyPatch(w, id, call).result.Err?
    ensures var failed := ApplyPatch(w, id, call).world;
            RejectPatch(failed, id, now, reason, Written).result.Ok? <==>
              || call.approves.Unwritten?
              || (Prepared(w, id, call) && RollsBack(call)
                  && (Commits(w, id, call) ==> call.writes == NOT_SYNCED))
  {
    ApplyExactly(w, id, call);
    var failed := ApplyOpened(w, id, call).world;
    OpenInv(failed, ALL_COMPLETED);
    if failed.journal.Some? {
      CrashedJournal(w, id, call);
      CompleteInv(failed, ALL_COMPLETED);
    }
    hide ApplyOpened, Inv, Commits, Complete;
  }

  // ---------- The storage as it works in place ----------

  class Storage {
    const files: PlanFiles
    var patches: map<string, Patch>
    var journal: Option<Journal>
    ghost var landed: multiset<string>
    ghost var lost: set<string>
    ghost var unreported: set<string>

    ghost function View(): World
      reads this, files
    {
      World(files.lineages, patches, journal, landed, lost, unreported)
    }

    constructor ()
      ensures Init(View()) && patches == map[] && fresh(files)
    {
      files := new PlanFiles();
      patches, journal := map[], None;
      landed, lost, unreported := multiset{}, {}, {};
    }

    method SetStatus(id: string, status: Status)
      requires id in patches
      modifies `patches
      ensures View() == WithStatus(old(View()), id, status)
    {
      patches := patches[id := patches[id].(status := status)];
    }

    // complete_repair_transaction, cut short after the given number of its writes.
    method CompleteTransaction(j: Journal, writes: nat) returns (ok: bool)
      modifies this, files
      ensures Done(View(), ok) == Complete(old(View()), j, writes)
    {
      var successor := if j.base < U32_MAX then j.base + 1 else U32_MAX;
      if j.next.metadata.id != j.planId || j.next.metadata.version != successor {
        return false;
      }
      ok := files.ClaimVersion(j.next, NoFault);
      if !ok {
        return;
      }
      var again := Of(files.lineages, j.planId).current == Some(j.next);
      if writes == 0 && !again {
        return false;
      }
      ok := files.Advance(j.next, Some(j.base), NoFault);
      if !ok {
        return;
      }
      if !again {
        landed := landed + multiset{j.patchId};
      }
      ok := MarkApplied(j, writes);
    }

    // The patch is marked, and then the journal goes.
    method MarkApplied(j: Journal, writes: nat) returns (ok: bool)
      modifies `patches, `journal
      ensures Done(View(), ok) == MarkPatch(old(View()), j, writes)
    {
      if j.patchId !in patches {
        return false;
      }
      var patch := patches[j.patchId];
      if patch.planId != j.planId || patch.planVersion != j.base || patch.status.Pending? || patch.status.Rejected? {
        return false;
      }
      if writes <= 1 && patch.status.Approved? {
        return false;
      }
      SetStatus(j.patchId, Applied);
      if writes > 2 {
        journal := None;
      }
      ok := writes >= ALL_COMPLETED;
    }

    method OpenStorage(writes: nat) returns (ok: bool)
      modifies this, files
      ensures Done(View(), ok) == Open(old(View()), writes)
    {
      if journal.None? {
        return true;
      }
      ok := CompleteTransaction(journal.value, writes);
    }

    // quarantine_unreadable_journal: the opening goes on without the journal.
    method SetJournalAside()
      modifies this
      ensures View() == SetAside(old(View()))
    {
      if journal.Some? {
        var j := journal.value;
        if j.patchId in patches && !patches[j.patchId].status.Applied?
           && Of(files.lineages, j.planId).current == Some(j.next) {
          lost := lost + {j.patchId};
        }
        journal := None;
      }
    }

    // commit_repair, on an opened storage.
    method CommitRepair(id: string, next: Plan, writes: nat) returns (ok: bool)
      requires id in patches
      modifies this, files
      ensures Done(View(), ok) == Commit(old(View()), id, next, writes)
    {
      var patch := patches[id];
      if !patch.status.Approved? || patch.planId != next.metadata.id
         || patch.planVersion >= U32_MAX || next.metadata.version != patch.planVersion + 1 {
        return false;
      }
      var current := Of(files.lineages, patch.planId).current;
      if current.None? || current.value.metadata.version != patch.planVersion {
        return false;
      }
      ok := files.ClaimVersion(next, if writes == 0 then BeforeSnapshot else NoFault);
      if !ok || writes <= 1 {
        return false;
      }
      var j := Journal(id, patch.planId, patch.planVersion, next);
      journal := Some(j);
      ok := CompleteTransaction(j, writes - 2);
    }

    // repair::apply_patch, as far as the store is concerned.
    method ApplyToPlan(id: string, plan: Plan, call: Apply) returns (result: Option<Plan>)
      requires id in patches
      modifies this, files
      ensures (Done(View(), result.Some?), result) == ApplyTo(old(View()), id, plan, call)
    {
      var current := Of(files.lineages, patches[id].planId).current;
      if current != Some(plan) || plan.metadata.version >= U32_MAX || call.edited.None? {
        return None;
      }
      var next := NextPlan(plan, call.edited.value.0, call.edited.value.1, call.now);
      var ok := CommitRepair(id, next, call.writes);
      result := if ok then Some(next) else None;
    }

    // apply_patch_in_storage.
    method ApplyProposal(id: string, call: Apply) returns (result: Result<Plan, Failure>)
      modifies this, files
      ensures Answer(View(), result) == ApplyPatch(old(View()), id, call)
    {
      var ok := OpenStorage(ALL_COMPLETED);
      if !ok {
        return Err(NotOpened);
      }
      result := ApplyInStorage(id, call);
    }

    method ApplyInStorage(id: string, call: Apply) returns (result: Result<Plan, Failure>)
      modifies this, files
      ensures Answer(View(), result) == ApplyOpened(old(View()), id, call)
    {
      hide ApplyTo;
      if id !in patches {
        return Err(NotFound);
      }
      var patch := patches[id];
      match patch.status {
        case Applied => return Err(AlreadyApplied);
        case Rejected => return Err(WasRejected);
        case Approved =>
        case Pending =>
          if call.approves.Unwritten? {
            return Err(Trouble);
          }
          patches := patches[id := patch.(status := Approved, approvedAt := Some(call.now))];
          if call.approves.Unreported? {
            return Err(Trouble);
          }
      }
      if !call.catalogReads || !call.planReads || patch.planVersion !in Of(files.lineages, patch.planId).snapshots {
        return Err(if call.dies then Died else Trouble);
      }
      var applied := ApplyToPlan(id, Of(files.lineages, patch.planId).snapshots[patch.planVersion], call);
      if applied.Some? {
        return Ok(applied.value);
      }
      if call.dies {
        return Err(Died);
      }
      if patch.status.Pending? && call.restores && id in patches {
        RollBack(id);
      }
      result := Err(Trouble);
    }

    method RollBack(id: string)
      requires id in patches
      modifies `patches, `unreported
      ensures View() == Restored(old(View()), id)
    {
      if journal.None? && patches[id].status.Applied? {
        unreported := unreported + {id};
      }
      patches := patches[id := patches[id].(status := Pending, approvedAt := None)];
    }

    // reject_patch_in_storage.
    method Reject(id: string, now: int, reason: Option<string>, saved: Write) returns (result: Result<(), Failure>)
      modifies this, files
      ensures Answer(View(), result) == RejectPatch(old(View()), id, now, reason, saved)
    {
      var ok := OpenStorage(ALL_COMPLETED);
      if !ok {
        return Err(NotOpened);
      }
      if id !in patches {
        return Err(NotFound);
      }
      if !patches[id].status.Pending? {
        return Err(NotPending);
      }
      if saved.Unwritten? {
        return Err(Trouble);
      }
      patches := patches[id := patches[id].(status := Rejected, rejectedAt := Some(now), reason := reason)];
      result := if saved.Written? then Ok(()) else Err(Trouble);
    }
  }
}
