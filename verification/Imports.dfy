/** Importing plans whose name may already exist: reject, store as a duplicate, or append a
    version to the one lineage of that name. */
module Imports {
  import opened Wrappers
  import opened PlanStore

  datatype Policy = RejectName | AppendVersion | StoreDuplicate

  datatype Outcome = Imported | Rejected | Duplicate | NewVersion

  datatype ImportError = Ambiguous(ids: set<string>) | Overflow | SaveFailed

  // One call: the untrusted plan, the policy, the id a new plan would draw, the time.
  datatype Import = Import(plan: Plan, policy: Policy, freshId: string, now: int, fault: Fault)

  datatype Resolution = Resolution(store: Lineages, result: Result<(Outcome, Plan, set<string>), ImportError>)

  function Lower(c: char): char {
    if 'A' <= c <= 'Z' then ((c as int) + 32) as char else c
  }

  // eq_ignore_ascii_case.
  predicate SameName(a: string, b: string) {
    |a| == |b| && forall i | 0 <= i < |a| :: Lower(a[i]) == Lower(b[i])
  }

  function Matching(store: Lineages, name: string): set<string> {
    set id | id in store && store[id].current.Some? && SameName(store[id].current.value.name, name)
  }

  // The other case of an ASCII letter.
  predicate OtherCase(a: char, b: char) {
    || ('a' <= a <= 'z' && b as int + 32 == a as int)
    || ('a' <= b <= 'z' && a as int + 32 == b as int)
  }

  // Character by character the same name, letters of ASCII in either case.
  predicate AlikeNames(a: string, b: string) {
    |a| == |b| && forall i | 0 <= i < |a| :: a[i] == b[i] || OtherCase(a[i], b[i])
  }

  // A lineage matches exactly by the name of its current plan.
  lemma MatchingExactly(store: Lineages, name: string, id: string)
    ensures id in Matching(store, name) <==>
              id in store && store[id].current.Some? && AlikeNames(store[id].current.value.name, name)
  {
    if id in store && store[id].current.Some? {
      SameNameExactly(store[id].current.value.name, name);
    }
  }

  lemma SameNameExactly(a: string, b: string)
    ensures SameName(a, b) <==> AlikeNames(a, b)
  {
    assert forall i | 0 <= i < |a| && |a| == |b| ::
        Lower(a[i]) == Lower(b[i]) <==> a[i] == b[i] || OtherCase(a[i], b[i]) by {
      forall i | 0 <= i < |a| && |a| == |b|
        ensures Lower(a[i]) == Lower(b[i]) <==> a[i] == b[i] || OtherCase(a[i], b[i])
      {
        LowerExactly(a[i], b[i]);
      }
    }
  }

  lemma LowerExactly(a: char, b: char)
    ensures Lower(a) == Lower(b) <==> a == b || OtherCase(a, b)
  {}

  // The lineages whose current plan goes by the name.
  ghost predicate Named(store: Lineages, name: string, ids: set<string>) {
    forall id :: id in ids <==> id in store && store[id].current.Some? && AlikeNames(store[id].current.value.name, name)
  }

  lemma MatchingNamed(store: Lineages, name: string)
    ensures Named(store, name, Matching(store, name))
  {
    forall id: string
      ensures id in Matching(store, name) <==>
                id in store && store[id].current.Some? && AlikeNames(store[id].current.value.name, name)
    {
      MatchingExactly(store, name, id);
    }
  }

  // The metadata of a plan that starts its own lineage.
  function FreshMetadata(freshId: string, now: int, intent: Option<string>): Metadata {
    Metadata(freshId, 1, now, intent, Provenance(now, None, None, None, false, None))
  }

  function AsNewPlan(call: Import): Plan {
    call.plan.(metadata := FreshMetadata(call.freshId, call.now, call.plan.metadata.intent))
  }

  // Only local metadata decides lineage and lifecycle.
  function AsNextVersion(current: Plan, call: Import): Plan {
    call.plan.(metadata := current.metadata.(version := current.metadata.version + 1, updatedAt := call.now))
  }

  function StorePlan(store: Lineages, plan: Plan, outcome: Outcome, same: set<string>, fault: Fault): Resolution {
    var saved := Save(store, plan, fault);
    Resolution(saved.store, if saved.ok then Ok((outcome, plan, same)) else Err(SaveFailed))
  }

  function Resolve(store: Lineages, call: Import): Resolution {
    var same := Matching(store, call.plan.name);
    if same == {} then StorePlan(store, AsNewPlan(call), Imported, same, call.fault)
    else match call.policy
      case RejectName => Resolution(store, Ok((Rejected, call.plan, same)))
      case StoreDuplicate => StorePlan(store, AsNewPlan(call), Duplicate, same, call.fault)
      case AppendVersion =>
        if |same| != 1 then Resolution(store, Err(Ambiguous(same)))
        else
          var current := store[TheOne(same)].current.value;
          if current.metadata.version >= U32_MAX then Resolution(store, Err(Overflow))
          else StorePlan(store, AsNextVersion(current, call), NewVersion, same, call.fault)
  }

  function TheOne(ids: set<string>): (id: string)
    requires |ids| == 1
    ensures ids == {id}
  {
    SingletonIsOne(ids);
    var id: string :| id in ids;
    id
  }

  lemma SingletonIsOne(ids: set<string>)
    requires |ids| == 1
    ensures forall a, b | a in ids && b in ids :: a == b
    ensures forall a | a in ids :: ids == {a}
  {
    forall a | a in ids ensures ids == {a} {
      assert |ids - {a}| == 0;
      assert ids == (ids - {a}) + {a};
    }
  }

  // ---------- One import ----------

  // Without a fault: when each answer is given, and what it leaves. Nothing but an overflow
  // or an ambiguous name fails.
  lemma ResolvesExactly(store: Lineages, call: Import, same: set<string>)
    requires Fits(store) && AllHighest(store) && call.fault == NoFault && call.freshId !in store
    requires Named(store, call.plan.name, same)
    ensures var r := Resolve(store, call);
            && (r.result.Ok? && r.result.value.0 == Imported <==> same == {})
            && (r.result.Ok? && r.result.value.0 == Rejected <==> same != {} && call.policy == RejectName)
            && (r.result.Ok? && r.result.value.0 == Duplicate <==> same != {} && call.policy == StoreDuplicate)
            && (r.result.Err? && r.result.error.Ambiguous? <==> |same| > 1 && call.policy == AppendVersion)
            && (r.result.Err? && r.result.error.Overflow? <==>
                 |same| == 1 && call.policy == AppendVersion
                 && exists id | id in same :: store[id].current.value.metadata.version == 0xFFFF_FFFF)
            && !(r.result.Err? && r.result.error.SaveFailed?)
            && (r.result.Err? && r.result.error.Ambiguous? ==> r.result.error.ids == same)
            && (r.result.Ok? ==> r.result.value.2 == same)
            && (r.result.Err? || r.result.value.0 == Rejected ==> r.store == store)
            && (r.result.Ok? && r.result.value.0 == Rejected ==> r.result.value.1 == call.plan)
  {
    MatchingNamed(store, call.plan.name);
    assert same == Matching(store, call.plan.name);
    if same == {} || call.policy.StoreDuplicate? {
      SaveExactly(store, AsNewPlan(call));
    } else if call.policy.AppendVersion? && |same| == 1 {
      var id := TheOne(same);
      assert CurrentIsHighest(store[id]) && LineageFits(store[id], id);
      if store[id].current.value.metadata.version < U32_MAX {
        SaveExactly(store, AsNextVersion(store[id].current.value, call));
      }
    }
  }

  // A new plan gets its own lineage at version 1, under the fresh id, whatever metadata it
  // came with but the intent.
  lemma NewLineage(store: Lineages, call: Import)
    requires Fits(store) && AllHighest(store) && call.fault == NoFault && call.freshId !in store
    requires Named(store, call.plan.name, {}) || call.policy == StoreDuplicate
    ensures var plan := Resolve(store, call).result.value.1;
            && Resolve(store, call).result.Ok?
            && plan.metadata.id == call.freshId && plan.metadata.version == 1
            && plan.name == call.plan.name && plan.body == call.plan.body
            && plan.metadata.intent == call.plan.metadata.intent && plan.metadata.updatedAt == call.now
            && IsOwnProvenance(plan.metadata.provenance, call.now)
            && Resolve(store, call).store == store[call.freshId := Lineage(Some(plan), map[1 := plan])]
  {
    MatchingNamed(store, call.plan.name);
    assert Named(store, call.plan.name, {}) ==> Matching(store, call.plan.name) == {};
    SaveExactly(store, AsNewPlan(call));
  }

  // Created now, by no compiler, from no parent, live and without a design.
  predicate IsOwnProvenance(provenance: Provenance, now: int) {
    && provenance.createdAt == now && provenance.compiledBy.None? && provenance.parentPlanId.None?
    && provenance.parentVersion.None? && !provenance.draft && provenance.solutionDesign.None?
  }

  // A new version raises the one matching lineage by exactly one and keeps its metadata but
  // for the version and the time of the update; every other lineage stays as it is.
  lemma RaisesOneLineage(store: Lineages, call: Import, id: string)
    requires Fits(store) && AllHighest(store) && call.fault == NoFault
    requires call.policy == AppendVersion && Named(store, call.plan.name, {id})
    requires store[id].current.value.metadata.version < U32_MAX
    ensures var before := store[id].current.value.metadata;
            var r := Resolve(store, call).result;
            && r.Ok? && r.value.0 == NewVersion
            && var plan := r.value.1;
            && plan.metadata.id == id && plan.metadata.version == before.version + 1
            && plan.metadata.provenance == before.provenance && plan.metadata.intent == before.intent
            && plan.metadata.updatedAt == call.now
            && plan.name == call.plan.name && plan.body == call.plan.body
            && plan.metadata.version !in store[id].snapshots
            && Resolve(store, call).store
               == store[id := Lineage(Some(plan), store[id].snapshots[plan.metadata.version := plan])]
  {
    MatchingNamed(store, call.plan.name);
    assert Matching(store, call.plan.name) == {id};
    assert |{id}| == 1 && TheOne({id}) == id;
    assert CurrentIsHighest(store[id]) && LineageFits(store[id], id);
    SaveExactly(store, AsNextVersion(store[id].current.value, call));
  }

  // ---------- Any sequence of imports ----------

  function Run(store: Lineages, calls: seq<Import>): Lineages
    decreases |calls|
  {
    if calls == [] then store else Run(Resolve(store, calls[0]).store, calls[1..])
  }

  ghost predicate AllFresh(store: Lineages, calls: seq<Import>)
    decreases |calls|
  {
    calls == [] || (calls[0].freshId !in store && AllFresh(Resolve(store, calls[0]).store, calls[1..]))
  }

  lemma ResolveKeeps(store: Lineages, call: Import)
    ensures Keeps(store, Resolve(store, call).store)
  {
    var same := Matching(store, call.plan.name);
    SaveKeeps(store, AsNewPlan(call), call.fault);
    if |same| == 1 {
      SaveKeeps(store, AsNextVersion(store[TheOne(same)].current.value, call), call.fault);
    }
  }

  // No import ever overwrites or removes a stored (id, version), in any store, with writes
  // failing anywhere.
  lemma {:induction false} NothingOverwritten(store: Lineages, calls: seq<Import>)
    ensures Keeps(store, Run(store, calls))
    decreases |calls|
  {
    if calls == [] {
    } else {
      ResolveKeeps(store, calls[0]);
      NothingOverwritten(Resolve(store, calls[0]).store, calls[1..]);
    }
  }

  lemma ResolveFits(store: Lineages, call: Import)
    requires Fits(store)
    ensures Fits(Resolve(store, call).store)
  {
    var same := Matching(store, call.plan.name);
    SaveFits(store, AsNewPlan(call), call.fault);
    if |same| == 1 {
      var id := TheOne(same);
      assert LineageFits(store[id], id);
      if store[id].current.value.metadata.version < U32_MAX {
        SaveFits(store, AsNextVersion(store[id].current.value, call), call.fault);
      }
    }
  }

  lemma ResolveKeepsHighest(store: Lineages, call: Import)
    requires Fits(store) && AllHighest(store) && call.fault == NoFault && call.freshId !in store
    ensures AllHighest(Resolve(store, call).store)
  {
    var same := Matching(store, call.plan.name);
    MatchingNamed(store, call.plan.name);
    ResolvesExactly(store, call, same);
    if same == {} || call.policy.StoreDuplicate? {
      NewLineage(store, call);
    } else if call.policy.AppendVersion? && |same| == 1 {
      var id := TheOne(same);
      if store[id].current.value.metadata.version < U32_MAX {
        RaisesOneLineage(store, call, id);
      }
    }
  }

  // How many of the calls appended a version to a lineage.
  function Appended(store: Lineages, calls: seq<Import>, id: string): nat
    decreases |calls|
  {
    if calls == [] then 0
    else
      var r := Resolve(store, calls[0]);
      (if r.result.Ok? && r.result.value.0 == NewVersion && r.result.value.1.metadata.id == id then 1 else 0)
      + Appended(r.store, calls[1..], id)
  }

  // Over any sequence of imports without write failures every lineage stays gapless at the
  // top, and its version counts exactly the imports appended to it; its provenance never
  // changes.
  lemma {:induction false} VersionsCountAppends(store: Lineages, calls: seq<Import>, id: string)
    requires Fits(store) && AllHighest(store) && AllFresh(store, calls)
    requires forall i | 0 <= i < |calls| :: calls[i].fault == NoFault
    requires id in store && store[id].current.Some?
    ensures var end := Run(store, calls);
            && Fits(end) && AllHighest(end)
            && id in end && end[id].current.Some?
            && end[id].current.value.metadata.version
               == store[id].current.value.metadata.version + Appended(store, calls, id)
            && end[id].current.value.metadata.provenance == store[id].current.value.metadata.provenance
    decreases |calls|
  {
    if calls == [] {
    } else {
      hide Fits, AllHighest, Resolve;
      assert calls[0].fault == NoFault;
      OneAppend(store, calls[0], id);
      ResolveFits(store, calls[0]);
      ResolveKeepsHighest(store, calls[0]);
      VersionsCountAppends(Resolve(store, calls[0]).store, calls[1..], id);
    }
  }

  lemma OneAppend(store: Lineages, call: Import, id: string)
    requires Fits(store) && AllHighest(store) && call.freshId !in store && call.fault == NoFault
    requires id in store && store[id].current.Some?
    ensures var r := Resolve(store, call);
            var appended := r.result.Ok? && r.result.value.0 == NewVersion && r.result.value.1.metadata.id == id;
            && id in r.store && r.store[id].current.Some?
            && r.store[id].current.value.metadata.version
               == store[id].current.value.metadata.version + (if appended then 1 else 0)
            && r.store[id].current.value.metadata.provenance == store[id].current.value.metadata.provenance
  {
    var same := Matching(store, call.plan.name);
    MatchingNamed(store, call.plan.name);
    ResolvesExactly(store, call, same);
    assert LineageFits(store[id], id);
    if same == {} || call.policy.StoreDuplicate? {
      NewLineage(store, call);
    } else if call.policy.AppendVersion? && |same| == 1 {
      var other := TheOne(same);
      if store[other].current.value.metadata.version < U32_MAX {
        RaisesOneLineage(store, call, other);
      }
    }
  }

  // ---------- An interrupted write ----------

  // A lineage whose next version is taken by a snapshot nothing points to.
  ghost predicate Blocked(store: Lineages, id: string, orphan: Plan) {
    && Fits(store) && id in store && store[id].current.Some?
    && (var v := store[id].current.value.metadata.version + 1;
        v <= U32_MAX && v in store[id].snapshots && store[id].snapshots[v] == orphan)
    && store[id].current.value != orphan
  }

  // The call would append exactly the orphaned plan again.
  predicate RepeatsOrphan(store: Lineages, id: string, orphan: Plan, call: Import)
    requires id in store && store[id].current.Some?
  {
    call.policy == AppendVersion && AsNextVersion(store[id].current.value, call) == orphan
  }

  // A write that fails between snapshot and current plan leaves the lineage blocked.
  lemma InterruptedAppendBlocks(store: Lineages, call: Import, id: string)
    requires Fits(store) && AllHighest(store) && call.fault == BeforeCurrent
    requires call.policy == AppendVersion && Matching(store, call.plan.name) == {id}
    requires store[id].current.value.metadata.version < U32_MAX
    ensures Resolve(store, call).result == Err(SaveFailed)
    ensures Blocked(Resolve(store, call).store, id, AsNextVersion(store[id].current.value, call))
  {
    assert |{id}| == 1 && TheOne({id}) == id;
    assert CurrentIsHighest(store[id]) && LineageFits(store[id], id);
    var orphan := AsNextVersion(store[id].current.value, call);
    var blocked := Resolve(store, call).store;
    assert blocked == store[id := store[id].(snapshots := store[id].snapshots[orphan.metadata.version := orphan])];
    ResolveFits(store, call);
  }

  lemma SaveElsewhere(store: Lineages, plan: Plan, fault: Fault, id: string)
    requires id in store && plan.metadata.id != id
    ensures id in Save(store, plan, fault).store && Save(store, plan, fault).store[id] == store[id]
  {
    SaveKeeps(store, plan, fault);
    assert Of(Save(store, plan, fault).store, id) == Of(store, id);
  }

  lemma SaveTaken(store: Lineages, id: string, orphan: Plan, call: Import)
    requires Blocked(store, id, orphan) && AsNextVersion(store[id].current.value, call) != orphan
    ensures Save(store, AsNextVersion(store[id].current.value, call), call.fault) == Saved(store, false)
  {
    assert LineageFits(store[id], id);
  }

  lemma BlockedStep(store: Lineages, call: Import, id: string, orphan: Plan)
    requires Blocked(store, id, orphan) && !RepeatsOrphan(store, id, orphan, call) && call.freshId !in store
    ensures Blocked(Resolve(store, call).store, id, orphan) && Resolve(store, call).store[id] == store[id]
    ensures call.policy == AppendVersion && Matching(store, call.plan.name) == {id} ==>
              Resolve(store, call) == Resolution(store, Err(SaveFailed))
  {
    ResolveFits(store, call);
    var same := Matching(store, call.plan.name);
    SaveElsewhere(store, AsNewPlan(call), call.fault, id);
    if call.policy == AppendVersion {
      SaveTaken(store, id, orphan, call);
      if |same| == 1 {
        var other := TheOne(same);
        assert LineageFits(store[other], other);
        if other != id {
          SaveElsewhere(store, AsNextVersion(store[other].current.value, call), call.fault, id);
        }
      }
    }
    hide Save, Fits, LineageFits;
    assert |{id}| == 1;
  }

  // It stays blocked over any sequence of imports, with writes failing anywhere, as long as
  // none of them repeats the orphaned plan: its current plan and its snapshots stay exactly as
  // they are, so every append to it fails.
  lemma {:induction false} BlockedForGood(store: Lineages, calls: seq<Import>, id: string, orphan: Plan)
    requires Blocked(store, id, orphan) && AllFresh(store, calls)
    requires forall i | 0 <= i < |calls| :: !RepeatsOrphan(store, id, orphan, calls[i])
    ensures Blocked(Run(store, calls), id, orphan) && Run(store, calls)[id] == store[id]
    decreases |calls|
  {
    if calls == [] {
    } else {
      assert !RepeatsOrphan(store, id, orphan, calls[0]);
      BlockedStep(store, calls[0], id, orphan);
      hide Blocked, Resolve;
      var next := Resolve(store, calls[0]).store;
      forall i | 0 <= i < |calls[1..]| ensures !RepeatsOrphan(next, id, orphan, calls[1..][i]) {
        assert !RepeatsOrphan(store, id, orphan, calls[i + 1]);
      }
      assert next[id] == store[id];
      BlockedForGood(next, calls[1..], id, orphan);
    }
  }

  // An append to a blocked lineage succeeds if and only if it repeats that very plan.
  lemma AppendToBlockedExactly(store: Lineages, call: Import, id: string, orphan: Plan)
    requires Blocked(store, id, orphan) && call.fault == NoFault && call.freshId !in store
    requires call.policy == AppendVersion && Matching(store, call.plan.name) == {id}
    ensures Resolve(store, call).result.Ok? <==> RepeatsOrphan(store, id, orphan, call)
  {
    assert |{id}| == 1 && TheOne({id}) == id;
    OrphanBlocksExactly(store, AsNextVersion(store[id].current.value, call));
  }

  // ---------- The import as it works in place ----------

  // Under the mutation gate: a lookup, then at most one save.
  method ResolveImportConflict(files: PlanFiles, call: Import)
    returns (result: Result<(Outcome, Plan, set<string>), ImportError>)
    modifies files
    ensures Resolution(files.lineages, result) == Resolve(old(files.lineages), call)
    ensures Keeps(old(files.lineages), files.lineages)
  {
    ResolveKeeps(files.lineages, call);
    var same := Matching(files.lineages, call.plan.name);
    var plan, outcome := AsNewPlan(call), Imported;
    if same != {} {
      match call.policy {
        case RejectName =>
          return Ok((Rejected, call.plan, same));
        case StoreDuplicate =>
          outcome := Duplicate;
        case AppendVersion =>
          if |same| != 1 {
            return Err(Ambiguous(same));
          }
          var current := files.lineages[TheOne(same)].current.value;
          if current.metadata.version >= U32_MAX {
            return Err(Overflow);
          }
          plan, outcome := AsNextVersion(current, call), NewVersion;
      }
    }
    var ok := files.SavePlan(plan, call.fault);
    result := if ok then Ok((outcome, plan, same)) else Err(SaveFailed);
  }
}
