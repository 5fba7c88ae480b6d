/** Versioned plan storage: immutable snapshots per version, and a current plan that advances
    by compare-and-swap. */
module PlanStore {
  import opened Wrappers

  const U32_MAX: nat := 0xFFFF_FFFF

  datatype Provenance = Provenance(
    createdAt: int,
    compiledBy: Option<string>,
    parentPlanId: Option<string>,
    parentVersion: Option<nat>,
    draft: bool,
    solutionDesign: Option<string>)

  datatype Metadata = Metadata(id: string, version: nat, updatedAt: int, intent: Option<string>, provenance: Provenance)

  datatype Plan = Plan(metadata: Metadata, name: string, body: string)

  datatype Lineage = Lineage(current: Option<Plan>, snapshots: map<nat, Plan>)

  type Lineages = map<string, Lineage>

  // Where a write goes wrong: nothing stored yet, the snapshot only, or everything although
  // an error is reported.
  datatype Fault = NoFault | BeforeSnapshot | BeforeCurrent | AfterCurrent

  function Of(store: Lineages, id: string): Lineage {
    if id in store then store[id] else Lineage(None, map[])
  }

  datatype Saved = Saved(store: Lineages, ok: bool)

  // Exclusively claim a version: an identical snapshot is a retry, another one a conflict.
  function ClaimSnapshot(store: Lineages, plan: Plan, fault: Fault): Saved {
    var id, version := plan.metadata.id, plan.metadata.version;
    var lineage := Of(store, id);
    if version in lineage.snapshots then Saved(store, lineage.snapshots[version] == plan)
    else if fault.BeforeSnapshot? then Saved(store, false)
    else Saved(store[id := lineage.(snapshots := lineage.snapshots[version := plan])], true)
  }

  // Advance the current plan only while it is the expected predecessor.
  function AdvanceCurrent(store: Lineages, plan: Plan, expected: Option<nat>, fault: Fault): Saved {
    var id, version := plan.metadata.id, plan.metadata.version;
    var lineage := Of(store, id);
    var fits := match lineage.current
                case None => expected == None && version == 1
                case Some(c) => expected == Some(c.metadata.version)
                                && version == if c.metadata.version < U32_MAX then c.metadata.version + 1 else U32_MAX;
    if lineage.current == Some(plan) then Saved(store, true)
    else if !fits || fault.BeforeCurrent? then Saved(store, false)
    else Saved(store[id := lineage.(current := Some(plan))], !fault.AfterCurrent?)
  }

  // The version a save must find current, or none when it may not be saved at all.
  function ExpectedPrevious(store: Lineages, plan: Plan): Result<Option<nat>, ()> {
    match Of(store, plan.metadata.id).current
    case None => if plan.metadata.version == 1 then Ok(None) else Err(())
    case Some(c) =>
      if c == plan then Ok(Some(c.metadata.version))
      else if c.metadata.version < U32_MAX && plan.metadata.version == c.metadata.version + 1
          then Ok(Some(c.metadata.version))
      else Err(())
  }

  function Save(store: Lineages, plan: Plan, fault: Fault): Saved {
    match ExpectedPrevious(store, plan)
    case Err(_) => Saved(store, false)
    case Ok(expected) =>
      var claimed := ClaimSnapshot(store, plan, fault);
      if !claimed.ok then claimed else AdvanceCurrent(claimed.store, plan, expected, fault)
  }

  // ---------- What the store keeps ----------

  // Every stored (id, version) is still there, unchanged.
  ghost predicate Keeps(before: Lineages, after: Lineages) {
    forall id | id in before ::
      && id in after
      && forall v | v in before[id].snapshots ::
           v in after[id].snapshots && after[id].snapshots[v] == before[id].snapshots[v]
  }

  ghost predicate LineageFits(lineage: Lineage, id: string) {
    && (forall v | v in lineage.snapshots ::
          lineage.snapshots[v].metadata.id == id && lineage.snapshots[v].metadata.version == v && 1 <= v <= 0xFFFF_FFFF)
    && match lineage.current
       case None => true
       case Some(c) => c.metadata.version in lineage.snapshots && lineage.snapshots[c.metadata.version] == c
  }

  ghost predicate Fits(store: Lineages) {
    forall id | id in store :: LineageFits(store[id], id)
  }

  // Nothing is stored past the current version.
  ghost predicate CurrentIsHighest(lineage: Lineage) {
    && (lineage.current.None? ==> lineage.snapshots == map[])
    && (lineage.current.Some? ==> forall v | v in lineage.snapshots :: v <= lineage.current.value.metadata.version)
  }

  ghost predicate AllHighest(store: Lineages) {
    forall id | id in store :: CurrentIsHighest(store[id])
  }

  lemma ClaimKeeps(store: Lineages, plan: Plan, fault: Fault)
    ensures Keeps(store, ClaimSnapshot(store, plan, fault).store)
  {}

  lemma AdvanceKeeps(store: Lineages, plan: Plan, expected: Option<nat>, fault: Fault)
    ensures Keeps(store, AdvanceCurrent(store, plan, expected, fault).store)
  {}

  lemma SaveKeeps(store: Lineages, plan: Plan, fault: Fault)
    ensures Keeps(store, Save(store, plan, fault).store)
    ensures forall id | id != plan.metadata.id :: Of(Save(store, plan, fault).store, id) == Of(store, id)
  {
    ClaimKeeps(store, plan, fault);
    if ExpectedPrevious(store, plan).Ok? {
      AdvanceKeeps(ClaimSnapshot(store, plan, fault).store, plan, ExpectedPrevious(store, plan).value, fault);
    }
  }

  lemma SaveFits(store: Lineages, plan: Plan, fault: Fault)
    requires Fits(store)
    ensures Fits(Save(store, plan, fault).store)
  {
    var expected := ExpectedPrevious(store, plan);
    if expected.Ok? {
      ClaimFits(store, plan, fault);
      AdvanceFits(ClaimSnapshot(store, plan, fault).store, plan, expected.value, fault);
      hide Fits, AdvanceCurrent;
    }
  }

  lemma ClaimFits(store: Lineages, plan: Plan, fault: Fault)
    requires Fits(store) && ExpectedPrevious(store, plan).Ok?
    ensures Fits(ClaimSnapshot(store, plan, fault).store)
    ensures var claimed := ClaimSnapshot(store, plan, fault);
            claimed.ok ==> plan.metadata.version in Of(claimed.store, plan.metadata.id).snapshots
                           && Of(claimed.store, plan.metadata.id).snapshots[plan.metadata.version] == plan
  {
    var id := plan.metadata.id;
    assert id in store ==> LineageFits(store[id], id);
  }

  lemma AdvanceFits(store: Lineages, plan: Plan, expected: Option<nat>, fault: Fault)
    requires Fits(store)
    ensures plan.metadata.version in Of(store, plan.metadata.id).snapshots
            && Of(store, plan.metadata.id).snapshots[plan.metadata.version] == plan ==>
              Fits(AdvanceCurrent(store, plan, expected, fault).store)
  {}

  // A save leaves every current plan alone but its own, which it only raises.
  lemma SaveMoves(store: Lineages, plan: Plan, fault: Fault, other: string)
    requires Fits(store)
    ensures var before, after := Of(store, other).current, Of(Save(store, plan, fault).store, other).current;
            && (before.Some? ==> after.Some? && after.value.metadata.version >= before.value.metadata.version)
            && (before != after ==> other == plan.metadata.id && after == Some(plan)
                                    && (before.Some? ==> before.value.metadata.version < plan.metadata.version))
            && (Save(store, plan, fault).ok ==>
                 Of(Save(store, plan, fault).store, plan.metadata.id).current == Some(plan))
  {
    var claimed := ClaimSnapshot(store, plan, fault);
    assert forall id :: Of(claimed.store, id).current == Of(store, id).current;
    hide ClaimSnapshot, Fits;
  }

  // Without a fault a save succeeds exactly for the successor of the current plan (or the
  // current plan itself) whose version nothing else has taken, and a save that fails then
  // changes nothing.
  lemma SaveExactly(store: Lineages, plan: Plan)
    requires Fits(store)
    ensures var id, v := plan.metadata.id, plan.metadata.version;
            var lineage := Of(store, id);
            var saved := Save(store, plan, NoFault);
            && (saved.ok <==>
                  && (match lineage.current
                      case None => v == 1
                      case Some(c) => c == plan || (v <= 0xFFFF_FFFF && v == c.metadata.version + 1))
                  && (v in lineage.snapshots ==> lineage.snapshots[v] == plan))
            && (saved.ok ==> id in saved.store && saved.store[id] == Lineage(Some(plan), lineage.snapshots[v := plan]))
            && (!saved.ok ==> saved.store == store)
  {
    var id, v := plan.metadata.id, plan.metadata.version;
    var lineage := Of(store, id);
    if id in store {
      assert LineageFits(store[id], id);
    }
    if v in lineage.snapshots && lineage.snapshots[v] == plan {
      assert lineage.snapshots[v := plan] == lineage.snapshots;
    }
  }

  // A save interrupted between its two writes leaves a snapshot nothing points to, and no
  // other plan can be saved as the next version any more.
  lemma OrphanBlocksExactly(store: Lineages, plan: Plan)
    requires Fits(store) && Of(store, plan.metadata.id).current.Some?
    requires plan.metadata.version == Of(store, plan.metadata.id).current.value.metadata.version + 1 <= U32_MAX
    ensures var lineage := Of(store, plan.metadata.id);
            var v := plan.metadata.version;
            Save(store, plan, NoFault).ok <==> v !in lineage.snapshots || lineage.snapshots[v] == plan
  {
    SaveExactly(store, plan);
  }

  // ---------- The store as it works in place ----------

  class PlanFiles {
    var lineages: Lineages

    constructor ()
      ensures lineages == map[]
    {
      lineages := map[];
    }

    method ClaimVersion(plan: Plan, fault: Fault) returns (ok: bool)
      modifies this
      ensures Saved(lineages, ok) == ClaimSnapshot(old(lineages), plan, fault)
    {
      var lineage := Of(lineages, plan.metadata.id);
      var version := plan.metadata.version;
      if version in lineage.snapshots {
        return lineage.snapshots[version] == plan;
      }
      ok := !fault.BeforeSnapshot?;
      if ok {
        lineages := lineages[plan.metadata.id := lineage.(snapshots := lineage.snapshots[version := plan])];
      }
    }

    method Advance(plan: Plan, expected: Option<nat>, fault: Fault) returns (ok: bool)
      modifies this
      ensures Saved(lineages, ok) == AdvanceCurrent(old(lineages), plan, expected, fault)
      ensures var current := old(Of(lineages, plan.metadata.id).current);
              && (ok <==> current == Some(plan)
                          || (Follows(current, plan, expected) && fault != BeforeCurrent && fault != AfterCurrent))
              && Of(lineages, plan.metadata.id).current
                 == if Follows(current, plan, expected) && fault != BeforeCurrent then Some(plan) else current
    {
      var lineage := Of(lineages, plan.metadata.id);
      if lineage.current == Some(plan) {
        return true;
      }
      match lineage.current {
        case None =>
          ok := expected == None && plan.metadata.version == 1;
        case Some(c) =>
          var next := if c.metadata.version < U32_MAX then c.metadata.version + 1 else U32_MAX;
          ok := expected == Some(c.metadata.version) && plan.metadata.version == next;
      }
      if ok && !fault.BeforeCurrent? {
        lineages := lineages[plan.metadata.id := lineage.(current := Some(plan))];
      }
      ok := ok && (fault.NoFault? || fault.BeforeSnapshot?);
    }

    // The plan is the first version, or the next one of what is expected to be current.
    static predicate Follows(current: Option<Plan>, plan: Plan, expected: Option<nat>) {
      if current == None then expected == None && plan.metadata.version == 1
      else
        var v := current.value.metadata.version;
        expected == Some(v) && plan.metadata.version == (if v < 0xFFFF_FFFF then v + 1 else 0xFFFF_FFFF)
    }

    // The full save, proved to keep every stored version whatever goes wrong.
    method SavePlan(plan: Plan, fault: Fault) returns (ok: bool)
      modifies this
      ensures Saved(lineages, ok) == Save(old(lineages), plan, fault)
      ensures Keeps(old(lineages), lineages)
    {
      SaveKeeps(lineages, plan, fault);
      var expected := ExpectedPrevious(lineages, plan);
      if expected.Err? {
        return false;
      }
      ok := ClaimVersion(plan, fault);
      if ok {
        ok := Advance(plan, expected.value, fault);
      }
    }
  }
}
