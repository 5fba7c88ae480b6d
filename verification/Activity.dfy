/** The activity ledger: guards start and finish entries, finished ones are evicted from the
    back, and MCP completions are counted until the interface takes them. */
module Activity {
  import opened Wrappers
  import Console

  const TERMINAL_TAIL_LINES: nat := 80
  const TERMINAL_ACTIVITY_LIMIT: nat := 24

  datatype Origin = Chat | Mcp

  datatype Kind = Compile | Edit | Repair

  datatype Outcome = Succeeded | Failed(error: string) | Interrupted

  datatype State = Running | Ended(outcome: Outcome)

  datatype Entry = Entry(id: nat, origin: Origin, kind: Kind, state: State, tail: seq<Console.Line>)

  // guards: the live guards with their origin. taken: how many completions the interface took.
  datatype Ledger = Ledger(nextId: nat, entries: seq<Entry>, pending: nat, guards: map<nat, Origin>, taken: nat)

  const EMPTY := Ledger(0, [], 0, map[], 0)

  // The front-most entry with the id.
  function Find(entries: seq<Entry>, id: nat): (at: nat)
    ensures at <= |entries|
    ensures at < |entries| ==> entries[at].id == id
    ensures forall i | 0 <= i < at :: entries[i].id != id
  {
    if entries == [] || entries[0].id == id then 0 else 1 + Find(entries[1..], id)
  }

  function Evict(entries: seq<Entry>): seq<Entry> {
    if |entries| > TERMINAL_ACTIVITY_LIMIT && !entries[|entries| - 1].state.Running?
    then Evict(entries[..|entries| - 1])
    else entries
  }

  function Start(l: Ledger, origin: Origin, kind: Kind): Ledger {
    var id := l.nextId + 1;
    l.(nextId := id, entries := [Entry(id, origin, kind, Running, [])] + l.entries, guards := l.guards[id := origin])
  }

  // An entry that is not running any more is left alone, with the rest of the ledger.
  function FinishEntries(entries: seq<Entry>, id: nat, outcome: Outcome, tail: seq<Console.Line>): seq<Entry> {
    var at := Find(entries, id);
    if at == |entries| then Evict(entries)
    else if !entries[at].state.Running? then entries
    else Evict(entries[at := entries[at].(state := Ended(outcome), tail := tail)])
  }

  // A guard reports its outcome, or is dropped before it has one.
  function Finish(l: Ledger, id: nat, outcome: Outcome, tail: seq<Console.Line>): Ledger
    requires id in l.guards
  {
    var mcp := if l.guards[id].Mcp? then 1 else 0;
    l.(entries := FinishEntries(l.entries, id, outcome, tail), pending := l.pending + mcp,
       guards := l.guards - {id})
  }

  function TakeCompletions(l: Ledger): Ledger {
    l.(pending := 0, taken := l.taken + l.pending)
  }

  // ---------- Eviction ----------

  // Which entries stay: the longest front part that ends in a running entry, or the first
  // twenty-four when that is shorter.
  lemma {:induction false} EvictsExactly(entries: seq<Entry>)
    ensures var kept := Evict(entries);
            && |kept| <= |entries| && kept == entries[..|kept|]
            && (forall i | |kept| <= i < |entries| :: !entries[i].state.Running?)
            && (|kept| <= 24 || kept[|kept| - 1].state.Running?)
            && (|kept| < |entries| ==> |kept| >= 24)
  {
    if |entries| <= TERMINAL_ACTIVITY_LIMIT || entries[|entries| - 1].state.Running? {
    } else {
      EvictsExactly(entries[..|entries| - 1]);
    }
  }

  // ---------- Runs of the ledger ----------

  datatype Step =
    | Begin(origin: Origin, kind: Kind)
    | End(id: nat, outcome: Outcome, tail: seq<Console.Line>)
    | Take

  predicate Enabled(l: Ledger, step: Step) {
    step.End? ==> step.id in l.guards
  }

  function After(l: Ledger, step: Step): Ledger
    requires Enabled(l, step)
  {
    match step
    case Begin(origin, kind) => Start(l, origin, kind)
    case End(id, outcome, tail) => Finish(l, id, outcome, tail)
    case Take => TakeCompletions(l)
  }

  predicate Possible(l: Ledger, steps: seq<Step>)
    decreases |steps|
  {
    steps == [] || (Enabled(l, steps[0]) && Possible(After(l, steps[0]), steps[1..]))
  }

  function Final(l: Ledger, steps: seq<Step>): Ledger
    requires Possible(l, steps)
    decreases |steps|
  {
    if steps == [] then l else Final(After(l, steps[0]), steps[1..])
  }

  // Ids fall strictly from front to back and none is from the future.
  ghost predicate Descending(entries: seq<Entry>, nextId: nat) {
    && (forall i, j | 0 <= i < j < |entries| :: entries[i].id > entries[j].id)
    && forall i | 0 <= i < |entries| :: 0 < entries[i].id <= nextId
  }

  // The running entries are the live guards, each with its origin.
  ghost predicate GuardsMatch(entries: seq<Entry>, guards: map<nat, Origin>) {
    && (forall i | 0 <= i < |entries| && entries[i].state.Running? ::
          entries[i].id in guards && guards[entries[i].id] == entries[i].origin)
    && forall id | id in guards :: HasRunning(entries, id)
  }

  ghost predicate HasRunning(entries: seq<Entry>, id: nat) {
    exists i | 0 <= i < |entries| :: entries[i].id == id && entries[i].state.Running?
  }

  ghost predicate Inv(l: Ledger) {
    Descending(l.entries, l.nextId) && GuardsMatch(l.entries, l.guards)
  }

  lemma FindsUnique(entries: seq<Entry>, nextId: nat, i: nat)
    requires Descending(entries, nextId) && i < |entries|
    ensures Find(entries, entries[i].id) == i
  {
    var at := Find(entries, entries[i].id);
    assert at <= i;
  }

  // A live guard's entry is there and running.
  lemma GuardEntry(l: Ledger, id: nat)
    requires Inv(l) && id in l.guards
    ensures Find(l.entries, id) < |l.entries| && l.entries[Find(l.entries, id)].state.Running?
    ensures forall i | 0 <= i < |l.entries| && l.entries[i].id == id :: i == Find(l.entries, id)
  {
    assert HasRunning(l.entries, id);
    forall i | 0 <= i < |l.entries| && l.entries[i].id == id ensures i == Find(l.entries, id) {
      FindsUnique(l.entries, l.nextId, i);
    }
  }

  lemma DescendingGrows(entries: seq<Entry>, nextId: nat, entry: Entry)
    requires Descending(entries, nextId) && entry.id == nextId + 1
    ensures Descending([entry] + entries, nextId + 1)
    ensures forall i | 0 <= i < |entries| :: entries[i].id != entry.id
  {}

  lemma StartInv(l: Ledger, origin: Origin, kind: Kind)
    requires Inv(l)
    ensures Inv(Start(l, origin, kind))
  {
    var id := l.nextId + 1;
    var entry := Entry(id, origin, kind, Running, []);
    DescendingGrows(l.entries, l.nextId, entry);
    GuardsGrow(l.entries, l.guards, entry);
    hide Descending, GuardsMatch;
  }

  lemma GuardsGrow(entries: seq<Entry>, guards: map<nat, Origin>, entry: Entry)
    requires GuardsMatch(entries, guards) && entry.state.Running?
    requires forall i | 0 <= i < |entries| :: entries[i].id != entry.id
    ensures GuardsMatch([entry] + entries, guards[entry.id := entry.origin])
  {
    var more := [entry] + entries;
    forall id | id in guards || id == entry.id ensures HasRunning(more, id) {
      if id == entry.id {
        assert more[0].id == id;
      } else {
        assert HasRunning(entries, id);
        var i :| 0 <= i < |entries| && entries[i].id == id && entries[i].state.Running?;
        assert more[i + 1] == entries[i];
      }
    }
  }

  lemma FinishInv(l: Ledger, id: nat, outcome: Outcome, tail: seq<Console.Line>)
    requires Inv(l) && id in l.guards
    ensures Inv(Finish(l, id, outcome, tail))
  {
    GuardEntry(l, id);
    hide Descending, GuardsMatch, Evict, Find;
    var at := Find(l.entries, id);
    var ended := l.entries[at := l.entries[at].(state := Ended(outcome), tail := tail)];
    EndMatches(l.entries, l.guards, at, ended);
    SameIdsDescend(l.entries, ended, l.nextId);
    EvictInv(ended, l.guards - {id}, l.nextId);
  }

  lemma SameIdsDescend(entries: seq<Entry>, ended: seq<Entry>, nextId: nat)
    requires Descending(entries, nextId) && |ended| == |entries|
    requires forall i | 0 <= i < |ended| :: ended[i].id == entries[i].id
    ensures Descending(ended, nextId)
  {}

  lemma EndMatches(entries: seq<Entry>, guards: map<nat, Origin>, at: nat, ended: seq<Entry>)
    requires GuardsMatch(entries, guards) && at < |entries| && |ended| == |entries|
    requires forall i | 0 <= i < |entries| && i != at :: entries[i].id != entries[at].id && ended[i] == entries[i]
    requires !ended[at].state.Running?
    ensures GuardsMatch(ended, guards - {entries[at].id})
  {
    forall id | id in guards && id != entries[at].id ensures HasRunning(ended, id) {
      assert HasRunning(entries, id);
      var i :| 0 <= i < |entries| && entries[i].id == id && entries[i].state.Running?;
      assert ended[i] == entries[i];
    }
  }

  lemma EvictInv(entries: seq<Entry>, guards: map<nat, Origin>, nextId: nat)
    requires Descending(entries, nextId) && GuardsMatch(entries, guards)
    ensures Descending(Evict(entries), nextId) && GuardsMatch(Evict(entries), guards)
  {
    EvictsExactly(entries);
    var kept := Evict(entries);
    hide Evict;
    forall id | id in guards ensures HasRunning(kept, id) {
      assert HasRunning(entries, id);
      var i :| 0 <= i < |entries| && entries[i].id == id && entries[i].state.Running?;
      assert kept[i] == entries[i];
    }
  }

  lemma {:induction false} RunInv(l: Ledger, steps: seq<Step>)
    requires Inv(l) && Possible(l, steps)
    ensures Inv(Final(l, steps))
    decreases |steps|
  {
    if steps == [] {
    } else {
      match steps[0] {
        case Begin(origin, kind) => StartInv(l, origin, kind);
        case End(id, outcome, tail) => FinishInv(l, id, outcome, tail);
        case Take =>
      }
      RunInv(After(l, steps[0]), steps[1..]);
    }
  }

  ghost predicate Reachable(l: Ledger) {
    exists steps :: Possible(EMPTY, steps) && l == Final(EMPTY, steps)
  }

  lemma ReachableInv(l: Ledger)
    requires Reachable(l)
    ensures Inv(l)
  {
    var steps :| Possible(EMPTY, steps) && l == Final(EMPTY, steps);
    RunInv(EMPTY, steps);
  }

  // The running entries are exactly the live guards, so none was ever evicted, and every
  // live guard has exactly one entry.
  lemma RunningAreLiveGuards(l: Ledger, id: nat)
    requires Reachable(l)
    ensures id in l.guards <==> exists i | 0 <= i < |l.entries| :: l.entries[i].id == id && l.entries[i].state.Running?
    ensures forall i, j | 0 <= i < j < |l.entries| :: l.entries[i].id > l.entries[j].id
  {
    ReachableInv(l);
    assert id in l.guards ==> HasRunning(l.entries, id);
  }

  // What the activities were started as, in the order of their ids.
  function Begun(steps: seq<Step>): seq<(Origin, Kind)> {
    if steps == [] then [] else Started(steps[0]) + Begun(steps[1..])
  }

  function Started(step: Step): seq<(Origin, Kind)> {
    if step.Begin? then [(step.origin, step.kind)] else []
  }

  // Whether an activity ends that the MCP server started; `begun` are those started before.
  predicate EndsMcp(step: Step, begun: seq<(Origin, Kind)>) {
    step.End? && 0 < step.id <= |begun| && begun[step.id - 1].0 == Mcp
  }

  function McpEnds(steps: seq<Step>, begun: seq<(Origin, Kind)>): nat
    decreases |steps|
  {
    if steps == [] then 0
    else (if EndsMcp(steps[0], begun) then 1 else 0) + McpEnds(steps[1..], begun + Started(steps[0]))
  }

  // Entries and guards are those of activities that were started.
  ghost predicate AsBegun(l: Ledger, begun: seq<(Origin, Kind)>) {
    && l.nextId == |begun|
    && (forall i | 0 <= i < |l.entries| ::
          0 < l.entries[i].id <= |begun| && begun[l.entries[i].id - 1] == (l.entries[i].origin, l.entries[i].kind))
    && forall id | id in l.guards :: 0 < id <= |begun| && begun[id - 1].0 == l.guards[id]
  }

  lemma StartAsBegun(l: Ledger, begun: seq<(Origin, Kind)>, origin: Origin, kind: Kind)
    requires AsBegun(l, begun)
    ensures AsBegun(Start(l, origin, kind), begun + [(origin, kind)])
  {}

  lemma FinishAsBegun(l: Ledger, begun: seq<(Origin, Kind)>, id: nat, outcome: Outcome, tail: seq<Console.Line>)
    requires AsBegun(l, begun) && id in l.guards
    ensures AsBegun(Finish(l, id, outcome, tail), begun)
    ensures Finish(l, id, outcome, tail).pending == l.pending + if begun[id - 1].0 == Mcp then 1 else 0
  {
    var at := Find(l.entries, id);
    EvictsExactly(l.entries);
    if at < |l.entries| {
      EvictsExactly(l.entries[at := l.entries[at].(state := Ended(outcome), tail := tail)]);
    }
    hide Evict, Find;
  }

  lemma BegunStep(l: Ledger, step: Step, begun: seq<(Origin, Kind)>)
    requires AsBegun(l, begun) && Enabled(l, step)
    ensures var l' := After(l, step);
            && AsBegun(l', begun + Started(step))
            && l'.taken + l'.pending == l.taken + l.pending + if EndsMcp(step, begun) then 1 else 0
  {
    match step
    case Begin(origin, kind) => StartAsBegun(l, begun, origin, kind);
    case End(id, outcome, tail) =>
      FinishAsBegun(l, begun, id, outcome, tail);
      assert begun + [] == begun;
    case Take => assert begun + [] == begun;
  }

  lemma {:induction false} BegunRun(l: Ledger, steps: seq<Step>, begun: seq<(Origin, Kind)>)
    requires AsBegun(l, begun) && Possible(l, steps)
    ensures AsBegun(Final(l, steps), begun + Begun(steps))
    ensures Final(l, steps).taken + Final(l, steps).pending == l.taken + l.pending + McpEnds(steps, begun)
    decreases |steps|
  {
    if steps == [] {
      assert begun + Begun(steps) == begun;
    } else {
      BegunStep(l, steps[0], begun);
      hide After, AsBegun, Started, EndsMcp;
      BegunRun(After(l, steps[0]), steps[1..], begun + Started(steps[0]));
      assert begun + Begun(steps) == (begun + Started(steps[0])) + Begun(steps[1..]);
    }
  }

  // In every run each listed activity has the origin and the kind it was started with.
  lemma ListedAsBegun(steps: seq<Step>, i: nat)
    requires Possible(EMPTY, steps) && i < |Final(EMPTY, steps).entries|
    ensures var entry := Final(EMPTY, steps).entries[i];
            0 < entry.id <= |Begun(steps)| && Begun(steps)[entry.id - 1] == (entry.origin, entry.kind)
  {
    BegunRun(EMPTY, steps, []);
    assert [] + Begun(steps) == Begun(steps);
  }

  // Completions are conserved: in every run those taken and those pending are as many as the
  // activities of the MCP server that ended, and taking them leaves none pending.
  lemma CompletionsConserved(steps: seq<Step>)
    requires Possible(EMPTY, steps)
    ensures var l := Final(EMPTY, steps);
            && l.taken + l.pending == McpEnds(steps, [])
            && TakeCompletions(l).taken == McpEnds(steps, []) && TakeCompletions(l).pending == 0
  {
    BegunRun(EMPTY, steps, []);
  }

  // A finish ends exactly its own entry; what it drops is finished, and it leaves at most
  // twenty-four entries or a running oldest one.
  lemma FinishExactly(l: Ledger, id: nat, outcome: Outcome, tail: seq<Console.Line>)
    requires Reachable(l) && id in l.guards
    ensures var after := Finish(l, id, outcome, tail).entries;
            && |after| <= |l.entries|
            && (forall i | 0 <= i < |after| ::
                 after[i] == if l.entries[i].id == id then l.entries[i].(state := Ended(outcome), tail := tail)
                     else l.entries[i])
            && (forall i | |after| <= i < |l.entries| :: l.entries[i].id != id ==> !l.entries[i].state.Running?)
            && (|after| <= 24 || after[|after| - 1].state.Running?)
            && (|after| < |l.entries| ==> |after| >= 24)
  {
    ReachableInv(l);
    GuardEntry(l, id);
    var at := Find(l.entries, id);
    var entry := l.entries[at].(state := Ended(outcome), tail := tail);
    assert Finish(l, id, outcome, tail).entries == Evict(l.entries[at := entry]);
    EvictsAfterEnding(l.entries, at, entry);
    hide Inv, Reachable, Finish, Find, Evict;
  }

  lemma EvictsAfterEnding(entries: seq<Entry>, at: nat, entry: Entry)
    requires at < |entries|
    ensures var after := Evict(entries[at := entry]);
            && |after| <= |entries|
            && (forall i | 0 <= i < |after| :: after[i] == if i == at then entry else entries[i])
            && (forall i | |after| <= i < |entries| && i != at :: !entries[i].state.Running?)
            && (|after| <= 24 || after[|after| - 1].state.Running?)
            && (|after| < |entries| ==> |after| >= 24)
  {
    var ended := entries[at := entry];
    EvictsExactly(ended);
    hide Evict;
    forall i | |Evict(ended)| <= i < |entries| && i != at ensures !entries[i].state.Running? {
      assert ended[i] == entries[i];
    }
  }

  // ---------- The registry as it works in place ----------

  function Note(outcome: Outcome): string {
    match outcome
    case Succeeded => "\U{2713} activity completed"
    case Failed(error) => "\U{2717} activity failed: " + error
    case Interrupted => "! activity interrupted before an outcome was reported"
  }

  class ActivityRegistry {
    var nextId: nat
    var entries: seq<Entry>
    var consoles: map<nat, Console.CompileConsole>
    var mcpCompletions: nat
    ghost var guards: map<nat, Origin>
    ghost var taken: nat

    ghost function View(): Ledger
      reads this
    {
      Ledger(nextId, entries, mcpCompletions, guards, taken)
    }

    ghost predicate ConsolesValid()
      reads this, consoles.Values
    {
      forall id | id in consoles :: consoles[id].Valid()
    }

    constructor ()
      ensures View() == EMPTY && consoles == map[] && ConsolesValid()
    {
      nextId, entries, consoles, mcpCompletions := 0, [], map[], 0;
      guards, taken := map[], 0;
    }

    method StartActivity(origin: Origin, kind: Kind) returns (id: nat)
      modifies this
      ensures View() == Start(old(View()), origin, kind)
      ensures entries == [Entry(id, origin, kind, Running, [])] + old(entries) && guards == old(guards)[id := origin]
      ensures id == old(nextId) + 1 && consoles == old(consoles)
      ensures old(ConsolesValid()) ==> ConsolesValid()
    {
      nextId := nextId + 1;
      id := nextId;
      entries := [Entry(id, origin, kind, Running, [])] + entries;
      guards := guards[id := origin];
    }

    // A console is attached to an activity that is still listed.
    method AttachConsole(id: nat, console: Console.CompileConsole)
      requires console.Valid() && ConsolesValid()
      modifies `consoles
      ensures ConsolesValid()
      ensures consoles == if Find(entries, id) < |entries| then old(consoles)[id := console] else old(consoles)
    {
      var at := IndexOf(id);
      if at < |entries| {
        consoles := consoles[id := console];
      }
    }

    method IndexOf(id: nat) returns (at: nat)
      ensures at == Find(entries, id)
    {
      at := 0;
      while at < |entries| && entries[at].id != id
        invariant at <= |entries|
        invariant Find(entries, id) == at + Find(entries[at..], id)
      {
        assert entries[at..][1..] == entries[at + 1..];
        at := at + 1;
      }
    }

    // An open console is closed with a note that tells the outcome; a closed one keeps its own.
    static predicate IsClosed(before: Option<string>, after: Option<string>, outcome: Outcome) {
      && (before.Some? ==> after == before)
      && (before.None? ==>
           match outcome
           case Succeeded => after == Some("\U{2713} activity completed")
           case Failed(error) => after == Some("\U{2717} activity failed: " + error)
           case Interrupted => after == Some("! activity interrupted before an outcome was reported"))
    }

    // The guard's console is closed with a note, its last lines are kept, and the ledger is
    // trimmed from the back.
    method FinishActivity(id: nat, outcome: Outcome)
      requires id in guards && Inv(View()) && ConsolesValid()
      modifies this, if id in consoles then {consoles[id]} else {}
      ensures consoles == old(consoles) && ConsolesValid()
      ensures var tail := if id in consoles then Console.Last(consoles[id].pushed, 80) else [];
              View() == Finish(old(View()), id, outcome, tail)
      ensures id in consoles ==>
        consoles[id].Valid() && IsClosed(old(consoles[id].closed), consoles[id].closed, outcome)
    {
      GuardEntry(View(), id);
      var tail := CloseConsole(id, outcome);
      EndEntry(id, outcome, tail);
    }

    method CloseConsole(id: nat, outcome: Outcome) returns (tail: seq<Console.Line>)
      requires ConsolesValid()
      modifies if id in consoles then {consoles[id]} else {}
      ensures ConsolesValid()
      ensures tail == if id in consoles then Console.Last(consoles[id].pushed, 80) else []
      ensures id in consoles ==>
        consoles[id].Valid() && IsClosed(old(consoles[id].closed), consoles[id].closed, outcome)
    {
      tail := [];
      if id in consoles {
        consoles[id].Close(Note(outcome));
        tail := consoles[id].Tail(TERMINAL_TAIL_LINES);
      }
    }

    method EndEntry(id: nat, outcome: Outcome, tail: seq<Console.Line>)
      requires id in guards && Find(entries, id) < |entries| && entries[Find(entries, id)].state.Running?
      requires entries[Find(entries, id)].origin == guards[id]
      modifies this
      ensures View() == Finish(old(View()), id, outcome, tail) && consoles == old(consoles)
    {
      var at := IndexOf(id);
      var origin := entries[at].origin;
      entries := entries[at := entries[at].(state := Ended(outcome), tail := tail)];
      Trim();
      if origin.Mcp? {
        mcpCompletions := mcpCompletions + 1;
      }
      guards := guards - {id};
    }

    method Trim()
      modifies `entries
      ensures entries == Evict(old(entries))
    {
      while |entries| > TERMINAL_ACTIVITY_LIMIT && !entries[|entries| - 1].state.Running?
        invariant Evict(entries) == Evict(old(entries))
        decreases |entries|
      {
        entries := entries[..|entries| - 1];
      }
    }

    method TakeMcpCompletions() returns (count: nat)
      modifies `mcpCompletions, `taken
      ensures View() == TakeCompletions(old(View())) && count == old(mcpCompletions)
    {
      count := mcpCompletions;
      mcpCompletions := 0;
      taken := taken + count;
    }
  }
}
