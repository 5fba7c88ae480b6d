/** The worklist search for transitive step dependencies. */
module Dependencies {

  datatype Step = Step(id: string, dependsOn: seq<string>)

  // The dependencies of the first step with the identifier; an unknown step has none.
  function DependsOn(plan: seq<Step>, id: string): seq<string> {
    if plan == [] then []
    else if plan[0].id == id then plan[0].dependsOn
    else DependsOn(plan[1..], id)
  }

  // A chain of steps, each depending directly on the next one.
  ghost predicate IsChain(plan: seq<Step>, chain: seq<string>) {
    && |chain| > 0
    && forall i | 0 <= i < |chain| - 1 :: chain[i + 1] in DependsOn(plan, chain[i])
  }

  // A chain with at least one edge leads from the step to the target.
  ghost predicate Reaches(plan: seq<Step>, id: string, target: string) {
    exists chain :: IsChain(plan, chain) && |chain| >= 2 && chain[0] == id && chain[|chain| - 1] == target
  }

  ghost predicate DependsOnAny(plan: seq<Step>, id: string, targets: set<string>) {
    exists target :: target in targets && Reaches(plan, id, target)
  }

  // Every identifier the search can meet.
  function Mentioned(plan: seq<Step>): set<string> {
    if plan == [] then {}
    else (set d | d in plan[0].dependsOn) + Mentioned(plan[1..])
  }

  lemma {:induction false} DependenciesMentioned(plan: seq<Step>, id: string, d: string)
    requires d in DependsOn(plan, id)
    ensures d in Mentioned(plan)
  {
    if plan[0].id != id {
      DependenciesMentioned(plan[1..], id, d);
    }
  }

  // The step itself or one a chain leads to.
  ghost predicate Visible(plan: seq<Step>, start: string, id: string) {
    id == start || Reaches(plan, start, id)
  }

  lemma VisibleStep(plan: seq<Step>, start: string, id: string, next: string)
    requires Visible(plan, start, id) && next in DependsOn(plan, id)
    ensures Reaches(plan, start, next)
  {
    hide DependsOn;
    if id == start {
      Lengthen(plan, [start], next);
    } else {
      var chain :| IsChain(plan, chain) && |chain| >= 2 && chain[0] == start && chain[|chain| - 1] == id;
      Lengthen(plan, chain, next);
    }
  }

  lemma Lengthen(plan: seq<Step>, chain: seq<string>, next: string)
    requires IsChain(plan, chain) && next in DependsOn(plan, chain[|chain| - 1])
    ensures Reaches(plan, chain[0], next)
  {
    hide DependsOn;
    var longer := chain + [next];
    assert longer[|longer| - 1] == next && longer[0] == chain[0];
    forall i | 0 <= i < |longer| - 1 ensures longer[i + 1] in DependsOn(plan, longer[i]) {
      if i < |chain| - 1 {
        assert longer[i] == chain[i] && longer[i + 1] == chain[i + 1];
      }
    }
    assert IsChain(plan, longer);
  }

  // The steps whose dependencies were all looked at, and the ones still to be taken up.
  ghost predicate Explored(plan: seq<Step>, visited: set<string>, pending: seq<string>, targets: set<string>) {
    forall id, d | id in visited && d in DependsOn(plan, id) :: d !in targets && (d in visited || d in pending)
  }

  // A closed set of explored steps that holds the start shuts out every target.
  lemma {:induction false} ClosedShutsOut(plan: seq<Step>, visited: set<string>, targets: set<string>,
                                          chain: seq<string>)
    requires Explored(plan, visited, [], targets)
    requires IsChain(plan, chain) && |chain| >= 2 && chain[0] in visited
    ensures chain[|chain| - 1] !in targets
    decreases |chain|
  {
    assert chain[1] in DependsOn(plan, chain[0]);
    if |chain| == 2 {
    } else {
      var tail := chain[1..];
      assert forall i | 0 <= i < |tail| :: tail[i] == chain[i + 1];
      ClosedShutsOut(plan, visited, targets, tail);
    }
  }

  method TransitivelyDependsOn(plan: seq<Step>, start: string, targets: set<string>) returns (found: bool)
    ensures found <==> DependsOnAny(plan, start, targets)
  {
    var pending := [start];
    var visited: set<string> := {};
    ghost var universe := Mentioned(plan) + {start};
    while pending != []
      invariant visited <= universe
      invariant forall id | id in pending :: id in universe && Visible(plan, start, id)
      invariant forall id | id in visited :: Visible(plan, start, id)
      invariant start in visited || start in pending
      invariant Explored(plan, visited, pending, targets)
      decreases universe - visited, |pending|
    {
      var current := pending[|pending| - 1];
      ghost var before := pending;
      pending := pending[..|pending| - 1];
      assert before == pending + [current];
      if current in visited {
        continue;
      }
      ghost var seen := visited;
      visited := visited + {current};
      assert universe - visited < universe - seen by {
        assert current in universe - seen && current !in universe - visited;
      }
      var dependencies := DependsOn(plan, current);
      for i := 0 to |dependencies|
        invariant visited == seen + {current}
        invariant forall id | id in pending :: id in universe && Visible(plan, start, id)
        invariant start in visited || start in pending
        invariant forall id | id in before && id != current :: id in pending
        invariant forall k | 0 <= k < i :: dependencies[k] !in targets && dependencies[k] in pending
      {
        var dependency := dependencies[i];
        DependenciesMentioned(plan, current, dependency);
        VisibleStep(plan, start, current, dependency);
        if dependency in targets {
          return true;
        }
        pending := pending + [dependency];
      }
      assert Explored(plan, visited, pending, targets);
    }
    if DependsOnAny(plan, start, targets) {
      var target :| target in targets && Reaches(plan, start, target);
      var chain :| IsChain(plan, chain) && |chain| >= 2 && chain[0] == start && chain[|chain| - 1] == target;
      ClosedShutsOut(plan, visited, targets, chain);
    }
    return false;
  }
}
