/**
  How the PCM router emits the transitions of its subscribers (`audio_sinks.py`), as a state
  machine. Any number of router calls are under way at once, some of them made by callbacks of
  others; each makes transitions under the state lock, and emits what is pending as its last act.
 */
module RouterTransitions {
  import opened Prelude

  datatype SubscriberState = Detached | Attached | Starting | Active | Stopping | Failed

  datatype Transition = Transition(sequence: nat, subscriber: nat, previous: SubscriberState, state: SubscriberState)

  /** Where a router call is: before its emission, or in the loop that emits. */
  datatype Call = Working | Draining | Delivering(transition: Transition)

  datatype State = State(
    states: map<nat, SubscriberState>,
    sequence: nat,
    pending: seq<Transition>,
    emitting: bool,
    calls: map<nat, Call>,
    // Every transition made, and every transition whose callbacks have run
    made: seq<Transition>,
    emitted: seq<Transition>,
    // The call in the emission loop
    emitter: Option<nat>)

  const INITIAL := State(map[], 0, [], false, map[], [], [], None)

  datatype Step =
    | Begin(call: nat)
    | Change(call: nat, subscriber: nat, state: SubscriberState)
    | EnterEmission(call: nat)
    | Pop(call: nat)
    | Deliver(call: nat)
    | Leave(call: nat)

  function StateOf(s: State, subscriber: nat): SubscriberState {
    if subscriber in s.states then s.states[subscriber] else Detached
  }

  predicate Enabled(s: State, step: Step) {
    match step
    case Begin(c) => c !in s.calls
    case Change(c, _, _) => c in s.calls && s.calls[c].Working?
    case EnterEmission(c) => c in s.calls && s.calls[c].Working?
    case Pop(c) => c in s.calls && s.calls[c].Draining? && s.pending != []
    case Deliver(c) => c in s.calls && s.calls[c].Delivering?
    case Leave(c) => c in s.calls && s.calls[c].Draining? && s.pending == []
  }

  /** `_transition_locked` */
  function Changed(s: State, subscriber: nat, state: SubscriberState): State {
    if StateOf(s, subscriber) == state then s
    else
      var t := Transition(s.sequence + 1, subscriber, StateOf(s, subscriber), state);
      s.(states := s.states[subscriber := state], sequence := s.sequence + 1,
         pending := s.pending + [t], made := s.made + [t])
  }

  function Next(s: State, step: Step): State
    requires Enabled(s, step)
  {
    match step
    case Begin(c) => s.(calls := s.calls[c := Working])
    case Change(_, subscriber, state) => Changed(s, subscriber, state)
    case EnterEmission(c) =>
      if s.emitting then s.(calls := s.calls - {c})
      else s.(emitting := true, emitter := Some(c), calls := s.calls[c := Draining])
    case Pop(c) => s.(pending := s.pending[1..], calls := s.calls[c := Delivering(s.pending[0])])
    case Deliver(c) => s.(emitted := s.emitted + [s.calls[c].transition], calls := s.calls[c := Draining])
    case Leave(c) => s.(emitting := false, emitter := None, calls := s.calls - {c})
  }

  /** The state a subscriber has after some transitions. */
  function After(made: seq<Transition>, subscriber: nat): SubscriberState {
    if made == [] then Detached
    else
      var last := made[|made| - 1];
      if last.subscriber == subscriber then last.state else After(made[..|made| - 1], subscriber)
  }

  /** Transition `i` has sequence `i + 1`, and starts where the subscriber's preceding one ended. */
  ghost predicate Follows(made: seq<Transition>, i: nat)
    requires i < |made|
  {
    && made[i].sequence == i + 1
    && made[i].previous == After(made[..i], made[i].subscriber)
    && made[i].previous != made[i].state
  }

  ghost predicate Chained(made: seq<Transition>) {
    forall i :: 0 <= i < |made| ==> Follows(made, i)
  }

  /** The transition whose callbacks are running. */
  function InDelivery(s: State): seq<Transition> {
    if s.emitter.Some? && s.emitter.value in s.calls && s.calls[s.emitter.value].Delivering?
    then [s.calls[s.emitter.value].transition]
    else []
  }

  ghost predicate Inv(s: State) {
    && s.sequence == |s.made|
    && Chained(s.made)
    && (forall r :: StateOf(s, r) == After(s.made, r))
    && s.emitted + InDelivery(s) + s.pending == s.made
    && (s.emitting <==> s.emitter.Some?)
    && (s.emitter.Some? ==> s.emitter.value in s.calls)
    && (forall c | c in s.calls :: !s.calls[c].Working? <==> s.emitter == Some(c))
    && (s.pending != [] && !s.emitting ==> exists c | c in s.calls :: s.calls[c].Working?)
  }

  lemma {:induction false} ChainedAppend(made: seq<Transition>, t: Transition)
    requires Chained(made) && t.sequence == |made| + 1 && t.previous == After(made, t.subscriber) != t.state
    ensures Chained(made + [t])
    ensures forall r :: After(made + [t], r) == if r == t.subscriber then t.state else After(made, r)
  {
    var more := made + [t];
    assert more[..|made|] == made;
    forall i | 0 <= i < |more| ensures Follows(more, i) {
      if i < |made| {
        assert more[..i] == made[..i] && Follows(made, i);
      }
    }
  }

  /** What a change makes follows what was made before, and is what the subscribers are now in. */
  lemma ChangedFollows(s: State, subscriber: nat, state: SubscriberState)
    requires Inv(s) && StateOf(s, subscriber) != state
    ensures var t := Changed(s, subscriber, state);
            Chained(t.made) && forall r :: StateOf(t, r) == After(t.made, r)
  {
    ChainedAppend(s.made, Transition(s.sequence + 1, subscriber, StateOf(s, subscriber), state));
  }

  lemma ChangedEmits(s: State, subscriber: nat, state: SubscriberState)
    requires Inv(s) && StateOf(s, subscriber) != state
    ensures var t := Changed(s, subscriber, state); t.emitted + InDelivery(t) + t.pending == t.made
  {
    var t := Changed(s, subscriber, state);
    assert t.emitted + InDelivery(t) + t.pending == (s.emitted + InDelivery(s) + s.pending) + [t.made[|s.made|]];
  }

  lemma ChangedInv(s: State, step: Step)
    requires Inv(s) && Enabled(s, step) && step.Change?
    ensures Inv(Next(s, step))
  {
    if StateOf(s, step.subscriber) != step.state {
      ChangedFollows(s, step.subscriber, step.state);
      ChangedEmits(s, step.subscriber, step.state);
      var t := Next(s, step);
      assert t.calls == s.calls && t.calls[step.call].Working?;
    }
  }

  lemma EmissionInv(s: State, step: Step)
    requires Inv(s) && Enabled(s, step) && (step.Pop? || step.Deliver?)
    ensures Inv(Next(s, step))
  {
    var t := Next(s, step);
    if step.Pop? {
      assert s.pending == [s.pending[0]] + t.pending;
      assert InDelivery(s) == [] && InDelivery(t) == [s.pending[0]];
    } else {
      assert InDelivery(s) == [s.calls[step.call].transition] && InDelivery(t) == [];
    }
    assert t.emitted + InDelivery(t) + t.pending == s.emitted + InDelivery(s) + s.pending;
  }

  lemma CallsInv(s: State, step: Step)
    requires Inv(s) && Enabled(s, step) && (step.Begin? || step.EnterEmission? || step.Leave?)
    ensures Inv(Next(s, step))
  {
    var t := Next(s, step);
    assert InDelivery(t) == InDelivery(s);
    if t.pending != [] && !t.emitting {
      var c :| c in s.calls && s.calls[c].Working?;
      assert c in t.calls && t.calls[c].Working?;
    }
  }

  lemma NextInv(s: State, step: Step)
    requires Inv(s) && Enabled(s, step)
    ensures Inv(Next(s, step))
  {
    match step
    case Change(_, _, _) => ChangedInv(s, step);
    case Pop(_) => EmissionInv(s, step);
    case Deliver(_) => EmissionInv(s, step);
    case _ => CallsInv(s, step);
  }

  /** The states reached from the first one by enabled steps. */
  ghost predicate Run(states: seq<State>, steps: seq<Step>) {
    && |states| == |steps| + 1
    && states[0] == INITIAL
    && forall i :: 0 <= i < |steps| ==> Enabled(states[i], steps[i]) && states[i + 1] == Next(states[i], steps[i])
  }

  lemma {:induction false} RunInv(states: seq<State>, steps: seq<Step>, n: nat)
    requires Run(states, steps) && n < |states|
    ensures Inv(states[n])
  {
    if n > 0 {
      RunInv(states, steps, n - 1);
      NextInv(states[n - 1], steps[n - 1]);
    }
  }

  /**
    In every run the transitions emitted are those with sequences 1, 2, 3, ... in that order,
    each once, and each starts in the state the subscriber's preceding one ended in.
   */
  lemma EmittedInOrder(states: seq<State>, steps: seq<Step>, n: nat)
    requires Run(states, steps) && n < |states|
    ensures states[n].emitted <= states[n].made
    ensures forall i :: 0 <= i < |states[n].emitted| ==>
              var t := states[n].emitted[i];
              t.sequence == i + 1 && t.previous == After(states[n].emitted[..i], t.subscriber) && t.previous != t.state
  {
    RunInv(states, steps, n);
    var s := states[n];
    assert s.made == s.emitted + (InDelivery(s) + s.pending);
    forall i | 0 <= i < |s.emitted|
      ensures s.emitted[i].sequence == i + 1 && s.emitted[i].previous == After(s.emitted[..i], s.emitted[i].subscriber)
              && s.emitted[i].previous != s.emitted[i].state
    {
      assert Follows(s.made, i);
      assert s.made[..i] == s.emitted[..i];
    }
  }

  /** Once every call has returned, every transition made has been emitted. */
  lemma NothingLeftPending(states: seq<State>, steps: seq<Step>, n: nat)
    requires Run(states, steps) && n < |states| && states[n].calls == map[]
    ensures states[n].pending == [] && states[n].emitted == states[n].made && |states[n].made| == states[n].sequence
  {
    RunInv(states, steps, n);
  }

  /** At most one call emits at a time, so deliveries never overlap. */
  lemma OneEmitter(states: seq<State>, steps: seq<Step>, n: nat, c: nat, d: nat)
    requires Run(states, steps) && n < |states|
    requires c in states[n].calls && d in states[n].calls
    requires !states[n].calls[c].Working? && !states[n].calls[d].Working?
    ensures c == d
  {
    RunInv(states, steps, n);
  }

  /**
    A change puts its subscriber, and no other, into the state asked for, by one transition
    unless it is in that state already.
   */
  lemma ChangeMakesTransition(s: State, c: nat, subscriber: nat, state: SubscriberState)
    requires Enabled(s, Change(c, subscriber, state))
    ensures var t := Next(s, Change(c, subscriber, state));
            && (forall r :: StateOf(t, r) == if r == subscriber then state else StateOf(s, r))
            && t.calls == s.calls && t.emitted == s.emitted
            && t.made
                == s.made + if StateOf(s, subscriber) == state then []
                            else [Transition(s.sequence + 1, subscriber, StateOf(s, subscriber), state)]
  {
  }

  // Every call can return

  /** From `s` these steps lead to `t`. */
  ghost predicate Leads(s: State, steps: seq<Step>, t: State)
    decreases |steps|
  {
    if steps == [] then t == s else Enabled(s, steps[0]) && Leads(Next(s, steps[0]), steps[1..], t)
  }

  lemma LeadsFirst(s: State, step: Step, steps: seq<Step>, t: State)
    requires Enabled(s, step) && Leads(Next(s, step), steps, t)
    ensures Leads(s, [step] + steps, t)
  {
    assert ([step] + steps)[1..] == steps;
  }

  /** How much the calls under way have still to do. */
  function Work(s: State): nat {
    2 * |s.pending| + |InDelivery(s)| + 2 * |s.calls| + if s.emitting then 0 else 1
  }

  /** The next step that brings the calls closer to their end. */
  lemma NextToReturn(s: State) returns (step: Step)
    requires Inv(s) && s.calls != map[]
    ensures Enabled(s, step) && !step.Begin? && !step.Change? && Work(Next(s, step)) < Work(s)
  {
    if s.emitter.Some? {
      var c := s.emitter.value;
      step := if s.calls[c].Delivering? then Deliver(c) else if s.pending != [] then Pop(c) else Leave(c);
      EmitterWorks(s, c, step);
    } else {
      var c :| c in s.calls;
      step := EnterEmission(c);
    }
  }

  lemma EmitterWorks(s: State, c: nat, step: Step)
    requires Inv(s) && s.emitter == Some(c) && Enabled(s, step)
    requires step == Deliver(c) || step == Pop(c) || step == Leave(c)
    ensures Work(Next(s, step)) < Work(s)
  {
    if step == Leave(c) {
      assert |s.calls - {c}| == |s.calls| - 1;
    } else {
      assert |Next(s, step).calls| == |s.calls|;
    }
  }

  /**
    In every reachable state the calls under way can all return, by emission steps alone, and then
    every transition made has been emitted.
   */
  lemma {:induction false} CallsCanReturn(s: State) returns (steps: seq<Step>, t: State)
    requires Inv(s)
    ensures Leads(s, steps, t) && Inv(t)
    ensures t.calls == map[] && t.made == s.made && t.emitted == t.made && t.states == s.states
    decreases Work(s)
  {
    if s.calls == map[] {
      steps, t := [], s;
    } else {
      var step := NextToReturn(s);
      NextInv(s, step);
      var more;
      more, t := CallsCanReturn(Next(s, step));
      LeadsFirst(s, step, more, t);
      steps := [step] + more;
    }
  }

  lemma ReachedCallsCanReturn(states: seq<State>, steps: seq<Step>, n: nat) returns (more: seq<Step>, t: State)
    requires Run(states, steps) && n < |states|
    ensures Leads(states[n], more, t) && t.calls == map[] && t.emitted == t.made == states[n].made
  {
    RunInv(states, steps, n);
    more, t := CallsCanReturn(states[n]);
  }
}
