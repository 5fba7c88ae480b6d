/** Single-flight detached work: identical requests join one worker, whose outcome is published
    on a watch channel by a task that outlives callers and survives a panicking worker. */
module DetachedWork {
  import opened Wrappers

  type Outcome = Result<string, string>

  // How a worker's task ends: it returns, or its operation panics.
  datatype End = Returned(outcome: Outcome) | Panicked(operation: string, reason: string)

  // The outcome the publisher makes of it.
  function OutcomeOf(end: End): Outcome {
    match end
    case Returned(outcome) => outcome
    case Panicked(operation, reason) =>
      Err("detached " + operation + " task ended before reporting an outcome: " + reason)
  }

  // The publisher of one channel: its worker runs, has ended, the outcome is sent, the key
  // is given back.
  datatype Phase = Running | Ended(outcome: Outcome) | Published(outcome: Outcome) | Done(outcome: Outcome)

  datatype Work = Work(key: string, phase: Phase)

  datatype Caller = Waiting(channel: nat) | Received(channel: nat, outcome: Outcome) | Dropped(channel: nat)

  // Channels are numbered by the work they belong to; `values` is what their last send left.
  datatype State = State(
    registry: map<string, nat>,
    works: seq<Work>,
    values: seq<Option<Outcome>>,
    callers: map<nat, Caller>)

  const EMPTY := State(map[], [], [], map[])

  datatype Step =
    | Call(caller: nat, key: string)
    | EndWork(channel: nat, end: End)
    | Publish(channel: nat)
    | Deregister(channel: nat)
    | Receive(caller: nat)
    | Drop(caller: nat)

  predicate Enabled(s: State, step: Step) {
    match step
    case Call(caller, _) => caller !in s.callers
    case EndWork(channel, _) => channel < |s.works| && s.works[channel].phase.Running?
    case Publish(channel) => channel < |s.works| && s.works[channel].phase.Ended?
    case Deregister(channel) => channel < |s.works| && s.works[channel].phase.Published?
    case Receive(caller) =>
      && caller in s.callers && s.callers[caller].Waiting?
      && s.callers[caller].channel < |s.values| && s.values[s.callers[caller].channel].Some?
    case Drop(caller) => caller in s.callers && s.callers[caller].Waiting?
  }

  // A send reaches the channel only while somebody keeps a receiver of it.
  predicate HasReceiver(s: State, channel: nat) {
    || (exists key | key in s.registry :: s.registry[key] == channel)
    || (exists caller | caller in s.callers :: s.callers[caller] == Waiting(channel))
  }

  function AfterCall(s: State, caller: nat, key: string): State {
    if key in s.registry then s.(callers := s.callers[caller := Waiting(s.registry[key])])
    else
      var channel := |s.works|;
      s.(registry := s.registry[key := channel],
         works := s.works + [Work(key, Running)],
         values := s.values + [None],
         callers := s.callers[caller := Waiting(channel)])
  }

  function MoveWork(s: State, channel: nat, phase: Phase): State
    requires channel < |s.works|
  {
    s.(works := s.works[channel := s.works[channel].(phase := phase)])
  }

  function AfterPublish(s: State, channel: nat): State
    requires channel < |s.works| && s.works[channel].phase.Ended?
  {
    var outcome := s.works[channel].phase.outcome;
    MoveWork(s, channel, Published(outcome)).(
      values := if HasReceiver(s, channel) && channel < |s.values| then s.values[channel := Some(outcome)]
          else s.values)
  }

  function AfterDeregister(s: State, channel: nat): State
    requires channel < |s.works| && s.works[channel].phase.Published?
  {
    MoveWork(s, channel, Done(s.works[channel].phase.outcome)).(registry := s.registry - {s.works[channel].key})
  }

  function After(s: State, step: Step): State
    requires Enabled(s, step)
  {
    match step
    case Call(caller, key) => AfterCall(s, caller, key)
    case EndWork(channel, end) => MoveWork(s, channel, Ended(OutcomeOf(end)))
    case Publish(channel) => AfterPublish(s, channel)
    case Deregister(channel) => AfterDeregister(s, channel)
    case Receive(caller) =>
      var channel := s.callers[caller].channel;
      s.(callers := s.callers[caller := Received(channel, s.values[channel].value)])
    case Drop(caller) => s.(callers := s.callers[caller := Dropped(s.callers[caller].channel)])
  }

  // ---------- Invariant ----------

  predicate IsOpen(work: Work) {
    !work.phase.Done?
  }

  // The registry maps each key to its one open work, and each open work is in it.
  ghost predicate RegistryMatches(s: State) {
    && (forall key | key in s.registry ::
          s.registry[key] < |s.works| && s.works[s.registry[key]].key == key && IsOpen(s.works[s.registry[key]]))
    && (forall c | 0 <= c < |s.works| && IsOpen(s.works[c]) ::
          s.works[c].key in s.registry && s.registry[s.works[c].key] == c)
  }

  // A channel holds the outcome of its work from the publication on, and nothing before.
  ghost predicate ValuesMatch(s: State) {
    && |s.values| == |s.works|
    && forall c | 0 <= c < |s.works| ::
         s.values[c] == if s.works[c].phase.Published? || s.works[c].phase.Done? then Some(s.works[c].phase.outcome)
             else None
  }

  ghost predicate CallersMatch(s: State) {
    forall caller | caller in s.callers ::
      && s.callers[caller].channel < |s.values|
      && (s.callers[caller].Received? ==> s.values[s.callers[caller].channel] == Some(s.callers[caller].outcome))
  }

  ghost predicate Inv(s: State) {
    RegistryMatches(s) && ValuesMatch(s) && CallersMatch(s)
  }

  lemma CallInv(s: State, caller: nat, key: string)
    requires Inv(s) && caller !in s.callers
    ensures Inv(AfterCall(s, caller, key))
  {
    if key in s.registry {
      var joined := s.(callers := s.callers[caller := Waiting(s.registry[key])]);
      assert RegistryMatches(joined) && ValuesMatch(joined) && CallersMatch(joined);
    } else {
      StartedInv(s, caller, key);
    }
  }

  lemma StartedInv(s: State, caller: nat, key: string)
    requires Inv(s) && key !in s.registry
    ensures Inv(AfterCall(s, caller, key))
  {
    var s' := AfterCall(s, caller, key);
    assert RegistryMatches(s');
    hide RegistryMatches;
    assert ValuesMatch(s');
    hide ValuesMatch;
    assert forall c | 0 <= c < |s.values| :: s'.values[c] == s.values[c];
    assert CallersMatch(s');
  }

  lemma EndWorkInv(s: State, channel: nat, outcome: Outcome)
    requires Inv(s) && channel < |s.works| && s.works[channel].phase.Running?
    ensures Inv(MoveWork(s, channel, Ended(outcome)))
  {
    var s' := MoveWork(s, channel, Ended(outcome));
    assert RegistryMatches(s');
    hide RegistryMatches;
    assert ValuesMatch(s') && CallersMatch(s');
  }

  lemma PublishInv(s: State, channel: nat)
    requires Inv(s) && channel < |s.works| && s.works[channel].phase.Ended?
    ensures HasReceiver(s, channel) && Inv(AfterPublish(s, channel))
  {
    assert s.registry[s.works[channel].key] == channel;
    assert HasReceiver(s, channel);
    hide HasReceiver;
    var s' := AfterPublish(s, channel);
    assert RegistryMatches(s');
    hide RegistryMatches;
    assert ValuesMatch(s') && CallersMatch(s');
  }

  lemma DeregisterInv(s: State, channel: nat)
    requires Inv(s) && channel < |s.works| && s.works[channel].phase.Published?
    ensures Inv(AfterDeregister(s, channel))
  {
    var s' := AfterDeregister(s, channel);
    assert s.registry[s.works[channel].key] == channel;
    assert RegistryMatches(s');
    hide RegistryMatches;
    assert ValuesMatch(s') && CallersMatch(s');
  }

  lemma StepInv(s: State, step: Step)
    requires Inv(s) && Enabled(s, step)
    ensures Inv(After(s, step))
  {
    match step
    case Call(caller, key) => CallInv(s, caller, key);
    case EndWork(channel, end) => EndWorkInv(s, channel, OutcomeOf(end));
    case Publish(channel) => PublishInv(s, channel);
    case Deregister(channel) => DeregisterInv(s, channel);
    case _ =>
      var s' := After(s, step);
      assert RegistryMatches(s') && ValuesMatch(s') && CallersMatch(s');
  }

  predicate Possible(s: State, steps: seq<Step>)
    decreases |steps|
  {
    steps == [] || (Enabled(s, steps[0]) && Possible(After(s, steps[0]), steps[1..]))
  }

  function Final(s: State, steps: seq<Step>): State
    requires Possible(s, steps)
    decreases |steps|
  {
    if steps == [] then s else Final(After(s, steps[0]), steps[1..])
  }

  lemma {:induction false} RunInv(s: State, steps: seq<Step>)
    requires Inv(s) && Possible(s, steps)
    ensures Inv(Final(s, steps))
    decreases |steps|
  {
    if steps == [] {
    } else {
      StepInv(s, steps[0]);
      RunInv(After(s, steps[0]), steps[1..]);
    }
  }

  ghost predicate Reachable(s: State) {
    exists steps :: Possible(EMPTY, steps) && s == Final(EMPTY, steps)
  }

  lemma ReachableInv(s: State)
    requires Reachable(s)
    ensures Inv(s)
  {
    var steps :| Possible(EMPTY, steps) && s == Final(EMPTY, steps);
    RunInv(EMPTY, steps);
  }

  // ---------- What every run keeps ----------

  // At most one work of a key is open, and the registry's entry is the one its publisher
  // will remove; a key without an entry has no open work.
  lemma OneWorkPerKey(s: State, a: nat, b: nat)
    requires Reachable(s) && a < |s.works| && b < |s.works|
    requires IsOpen(s.works[a]) && IsOpen(s.works[b]) && s.works[a].key == s.works[b].key
    ensures a == b && s.works[a].key in s.registry && s.registry[s.works[a].key] == a
  {
    ReachableInv(s);
  }

  // A call starts a worker exactly when its key has none open, and joins that one otherwise.
  lemma CallJoinsOrStarts(s: State, caller: nat, key: string)
    requires Reachable(s) && caller !in s.callers
    ensures var s' := After(s, Call(caller, key));
            var c := s'.callers[caller].channel;
            && c < |s'.works| && s'.works[c].key == key && IsOpen(s'.works[c])
            && (|s'.works| == |s.works| <==>
                 exists d | 0 <= d < |s.works| :: IsOpen(s.works[d]) && s.works[d].key == key)
            && forall d | 0 <= d < |s.works| :: s'.works[d] == s.works[d]
  {
    ReachableInv(s);
    if key in s.registry {
      assert IsOpen(s.works[s.registry[key]]);
    }
  }

  // Publishing always reaches the channel, even when every caller is gone: the registry
  // keeps a receiver until after the publication.
  lemma PublicationArrives(s: State, channel: nat)
    requires Reachable(s) && Enabled(s, Publish(channel))
    ensures channel < |s.values|
    ensures After(s, Publish(channel)).values == s.values[channel := Some(s.works[channel].phase.outcome)]
  {
    ReachableInv(s);
    StepInv(s, Publish(channel));
    assert s.registry[s.works[channel].key] == channel;
    assert HasReceiver(s, channel);
  }

  // A channel's outcome, once published, stays: over any further run it is the same.
  lemma {:induction false} OutcomeIsFinal(s: State, steps: seq<Step>, channel: nat)
    requires Inv(s) && Possible(s, steps) && channel < |s.values| && s.values[channel].Some?
    ensures channel < |Final(s, steps).values| && Final(s, steps).values[channel] == s.values[channel]
    decreases |steps|
  {
    if steps == [] {
    } else {
      StepInv(s, steps[0]);
      OutcomeIsFinal(After(s, steps[0]), steps[1..], channel);
    }
  }

  // Everyone who joined one channel and is answered gets the one outcome of its one worker.
  lemma SameOutcome(s: State, a: nat, b: nat)
    requires Reachable(s) && a in s.callers && b in s.callers
    requires s.callers[a].Received? && s.callers[b].Received? && s.callers[a].channel == s.callers[b].channel
    ensures s.callers[a].outcome == s.callers[b].outcome
    ensures s.callers[a].channel < |s.works| && !s.works[s.callers[a].channel].phase.Running?
    ensures s.works[s.callers[a].channel].phase.outcome == s.callers[a].outcome
  {
    ReachableInv(s);
  }

  // What callers are told of a worker's end: what it returned, or an error that says why it panicked.
  predicate Reports(end: End, outcome: Outcome) {
    match end
    case Returned(result) => outcome == result
    case Panicked(operation, reason) =>
      outcome == Err("detached " + operation + " task ended before reporting an outcome: " + reason)
  }

  // The worker of the channel has ended like this, and so it is told.
  predicate EndedAs(s: State, channel: nat, end: End) {
    channel < |s.works| && !s.works[channel].phase.Running? && Reports(end, s.works[channel].phase.outcome)
  }

  lemma EndedAsStays(s: State, step: Step, channel: nat, end: End)
    requires EndedAs(s, channel, end) && Enabled(s, step)
    ensures EndedAs(After(s, step), channel, end)
  {}

  lemma {:induction false} EndedAnswers(s: State, channel: nat, end: End, steps: seq<Step>)
    requires Inv(s) && EndedAs(s, channel, end) && Possible(s, steps)
    ensures var f := Final(s, steps);
            && channel < |f.works| == |f.values|
            && (f.values[channel].Some? ==> Reports(end, f.values[channel].value))
            && (f.works[channel].phase.Published? || f.works[channel].phase.Done? ==> f.values[channel].Some?)
            && forall caller | caller in f.callers && f.callers[caller].channel == channel ::
                 f.callers[caller].Received? ==> Reports(end, f.callers[caller].outcome)
    decreases |steps|
  {
    if steps == [] {
    } else {
      StepInv(s, steps[0]);
      EndedAsStays(s, steps[0], channel, end);
      hide Inv, EndedAs, After, Enabled, Reports;
      EndedAnswers(After(s, steps[0]), channel, end, steps[1..]);
    }
  }

  // Over any run after a worker ended, whatever is published on its channel and whatever any
  // caller of it ever receives is what it returned, or the error of its panic; from the
  // publication on it is there.
  lemma WorkerAnswers(s: State, channel: nat, end: End, steps: seq<Step>)
    requires Reachable(s) && Enabled(s, EndWork(channel, end)) && Possible(After(s, EndWork(channel, end)), steps)
    ensures var f := Final(After(s, EndWork(channel, end)), steps);
            && channel < |f.works| == |f.values|
            && (f.values[channel].Some? ==> Reports(end, f.values[channel].value))
            && (f.works[channel].phase.Published? || f.works[channel].phase.Done? ==> f.values[channel].Some?)
            && forall caller | caller in f.callers && f.callers[caller].channel == channel ::
                 f.callers[caller].Received? ==> Reports(end, f.callers[caller].outcome)
  {
    ReachableInv(s);
    EndReports(s, channel, end);
    EndedAnswers(After(s, EndWork(channel, end)), channel, end, steps);
  }

  // And so it is told from its end on.
  lemma EndReports(s: State, channel: nat, end: End)
    requires Inv(s) && Enabled(s, EndWork(channel, end))
    ensures Inv(After(s, EndWork(channel, end))) && EndedAs(After(s, EndWork(channel, end)), channel, end)
  {
    StepInv(s, EndWork(channel, end));
    OutcomeReports(end);
    hide OutcomeOf, Reports, Inv;
  }

  lemma OutcomeReports(end: End)
    ensures Reports(end, OutcomeOf(end))
  {
    if end.Panicked? {
      var error := OutcomeOf(end).error;
      assert error[|error| - |end.reason|..] == end.reason;
    }
  }

  // How many steps of its own publisher a work is from done.
  function Remaining(s: State, channel: nat): nat
    requires channel < |s.works|
  {
    match s.works[channel].phase
    case Running => 3
    case Ended(_) => 2
    case Published(_) => 1
    case Done(_) => 0
  }

  predicate IsStepOf(step: Step, channel: nat) {
    (step.EndWork? || step.Publish? || step.Deregister?) && step.channel == channel
  }

  function OwnSteps(steps: seq<Step>, channel: nat): nat {
    if steps == [] then 0 else (if IsStepOf(steps[0], channel) then 1 else 0) + OwnSteps(steps[1..], channel)
  }

  // Only the publisher's own steps, three in all, bring a work to its end: over any run,
  // whatever callers do and however the worker ends, each counts exactly once.
  lemma {:induction false} ProgressIsCounted(s: State, steps: seq<Step>, channel: nat)
    requires Possible(s, steps) && channel < |s.works|
    ensures channel < |Final(s, steps).works|
    ensures Remaining(Final(s, steps), channel) + OwnSteps(steps, channel) == Remaining(s, channel)
    ensures Final(s, steps).works[channel].key == s.works[channel].key
    decreases |steps|
  {
    if steps == [] {
    } else {
      assert channel < |After(s, steps[0]).works|;
      ProgressIsCounted(After(s, steps[0]), steps[1..], channel);
    }
  }

  // The publisher is never stuck: while its work is open its next step can be taken.
  lemma PublisherCanStep(s: State, channel: nat, end: End)
    requires channel < |s.works| && IsOpen(s.works[channel])
    ensures Enabled(s, EndWork(channel, end)) || Enabled(s, Publish(channel)) || Enabled(s, Deregister(channel))
  {}

  // Nobody strands a key: once its publisher took its remaining steps, the next call with the
  // key finds it free or in the hands of a later work, and everybody still waiting on the
  // channel can be answered.
  lemma NoStrandedKey(s: State, steps: seq<Step>, channel: nat, caller: nat)
    requires Reachable(s) && Possible(s, steps) && channel < |s.works|
    requires OwnSteps(steps, channel) == Remaining(s, channel)
    ensures var end := Final(s, steps);
            var key := s.works[channel].key;
            && (key in end.registry ==> end.registry[key] != channel)
            && (caller in end.callers && end.callers[caller] == Waiting(channel) ==> Enabled(end, Receive(caller)))
  {
    ReachableInv(s);
    RunInv(s, steps);
    ProgressIsCounted(s, steps, channel);
  }

  // ---------- Why the key is given back last ----------

  // With the two last actions swapped, in any state a run can reach, the outcome gets lost
  // exactly when no caller waits for it any more: the registry's receiver would be gone.
  lemma SwappedLosesExactly(s: State, channel: nat)
    requires Reachable(s) && Enabled(s, Publish(channel))
    ensures var swapped := s.(registry := s.registry - {s.works[channel].key});
            && channel < |AfterPublish(swapped, channel).values|
            && (AfterPublish(swapped, channel).values[channel] == None <==>
                 forall caller | caller in s.callers :: s.callers[caller] != Waiting(channel))
  {
    ReachableInv(s);
    var swapped := s.(registry := s.registry - {s.works[channel].key});
    assert s.registry[s.works[channel].key] == channel;
    assert HasReceiver(swapped, channel) <==>
      exists caller | caller in s.callers :: s.callers[caller] == Waiting(channel);
  }

  // ---------- The registry as it works in place ----------

  class InFlight {
    var registry: map<string, nat>
    var works: seq<Work>
    var values: seq<Option<Outcome>>
    var callers: map<nat, Caller>

    function View(): State
      reads this
    {
      State(registry, works, values, callers)
    }

    constructor ()
      ensures View() == EMPTY
    {
      registry, works, values, callers := map[], [], [], map[];
    }

    // The locked section of await_detached: join, or insert and spawn.
    method Join(caller: nat, key: string) returns (channel: nat, started: bool)
      requires Enabled(View(), Call(caller, key))
      modifies this
      ensures View() == After(old(View()), Call(caller, key))
      ensures started <==> key !in old(registry)
      ensures channel == if started then |old(works)| else old(registry)[key]
      ensures key in registry && registry[key] == channel
    {
      started := key !in registry;
      if started {
        channel := |works|;
        registry := registry[key := channel];
        works, values := works + [Work(key, Running)], values + [None];
      } else {
        channel := registry[key];
      }
      callers := callers[caller := Waiting(channel)];
    }

    // The publisher, once its worker ended: the outcome is sent, then the key given back.
    method Finish(channel: nat, end: End)
      requires Inv(View()) && Enabled(View(), EndWork(channel, end))
      modifies this
      ensures Inv(View())
      ensures View() ==
              After(After(After(old(View()), EndWork(channel, end)), Step.Publish(channel)), Deregister(channel))
      ensures |values| == |old(values)| && values[channel].Some? && Reports(end, values[channel].value)
      ensures forall c | 0 <= c < |values| && c != channel :: values[c] == old(values)[c]
      ensures registry == old(registry) - {old(works)[channel].key}
    {
      EndReports(View(), channel, end);
      works := works[channel := works[channel].(phase := Ended(OutcomeOf(end)))];
      hide Inv;
      Publish(channel);
      GiveBack(channel);
    }

    method Publish(channel: nat)
      requires Inv(View()) && Enabled(View(), Step.Publish(channel))
      modifies `works, `values
      ensures Inv(View()) && View() == After(old(View()), Step.Publish(channel))
      ensures values == old(values)[channel := Some(old(works)[channel].phase.outcome)]
    {
      PublishInv(View(), channel);
      var outcome := works[channel].phase.outcome;
      values := values[channel := Some(outcome)];
      works := works[channel := works[channel].(phase := Published(outcome))];
    }

    method GiveBack(channel: nat)
      requires Inv(View()) && Enabled(View(), Deregister(channel))
      modifies `works, `registry
      ensures Inv(View()) && View() == After(old(View()), Deregister(channel))
    {
      DeregisterInv(View(), channel);
      registry := registry - {works[channel].key};
      works := works[channel := works[channel].(phase := Done(works[channel].phase.outcome))];
    }

    // Waiting for the outcome; None while it is not published.
    method Receive(caller: nat) returns (outcome: Option<Outcome>)
      requires Inv(View()) && caller in callers && callers[caller].Waiting?
      modifies this
      ensures outcome.Some? <==> Enabled(old(View()), Step.Receive(caller))
      ensures View() == if outcome.Some? then After(old(View()), Step.Receive(caller)) else old(View())
      ensures outcome == old(values)[old(callers)[caller].channel]
    {
      var channel := callers[caller].channel;
      outcome := values[channel];
      if outcome.Some? {
        callers := callers[caller := Received(channel, outcome.value)];
      }
    }
  }
}
