/**
  The PCM router's submit thread against its lifecycle thread (`audio_sinks.py`), as a state
  machine whose steps are the lock regions of the source and the calls it makes between them.
  A subscriber is named by its number; its record stays once it is made.
 */
module RouterBarrier {
  import opened Prelude

  /** Where the thread in `submit_pcm` is. It holds the submit lock unless it is idle. */
  datatype Submit =
    | SubmitIdle
    | Locked
    | Submitting(todo: seq<nat>, calling: Option<nat>)

  /** Where the thread that holds the lifecycle lock is. */
  datatype Lifecycle =
    | LifecycleIdle
    | StartNext(rest: seq<nat>)
    | InStart(r: nat, rest: seq<nat>)
    | InCleanup(r: nat, rest: seq<nat>)
    | AtBarrier(rest: seq<nat>, thenStop: bool)
    | StopNext(rest: seq<nat>)
    | InStop(r: nat, rest: seq<nat>)

  datatype State = State(
    records: seq<nat>,
    attached: set<nat>,
    running: bool,
    submit: Submit,
    lifecycle: Lifecycle,
    // subscribers a detach or stop has waited for, not attached again since
    quiet: set<nat>)

  const INITIAL := State([], {}, false, SubmitIdle, LifecycleIdle, {})

  datatype Step =
    | AcquireSubmit
    | Capture
    | BeginCall
    | EndCall
    | ReleaseSubmit
    | CallStart
    | CallAttach(sink: nat)
    | CallDetach(sink: nat, stop: bool)
    | CallStop
    | BeginStart
    | EndStart(ok: bool)
    | EndCleanup
    | PassBarrier
    | BeginStop
    | EndStop

  /** The attached records, in the order they were made. */
  function Attached(records: seq<nat>, attached: set<nat>): (r: seq<nat>)
    ensures forall x :: x in r ==> x in attached && x in records
  {
    if records == [] then []
    else (if records[0] in attached then [records[0]] else []) + Attached(records[1..], attached)
  }

  function Reversed(s: seq<nat>): (r: seq<nat>)
    ensures forall x :: x in r <==> x in s
  {
    if s == [] then [] else Reversed(s[1..]) + [s[0]]
  }

  predicate Enabled(s: State, step: Step) {
    match step
    case AcquireSubmit => s.submit.SubmitIdle?
    case Capture => s.submit.Locked?
    case BeginCall => s.submit.Submitting? && s.submit.calling.None? && s.submit.todo != []
    case EndCall => s.submit.Submitting? && s.submit.calling.Some?
    case ReleaseSubmit => s.submit.Submitting? && s.submit.calling.None? && s.submit.todo == []
    case CallStart => s.lifecycle.LifecycleIdle?
    case CallAttach(_) => s.lifecycle.LifecycleIdle?
    case CallDetach(_, _) => s.lifecycle.LifecycleIdle?
    case CallStop => s.lifecycle.LifecycleIdle?
    case BeginStart => s.lifecycle.StartNext?
    case EndStart(_) => s.lifecycle.InStart?
    case EndCleanup => s.lifecycle.InCleanup?
    case PassBarrier => s.lifecycle.AtBarrier? && s.submit.SubmitIdle?
    case BeginStop => s.lifecycle.StopNext?
    case EndStop => s.lifecycle.InStop?
  }

  function Next(s: State, step: Step): State
    requires Enabled(s, step)
  {
    match step
    case AcquireSubmit => s.(submit := Locked)
    case Capture => s.(submit := if s.running then Submitting(Attached(s.records, s.attached), None) else SubmitIdle)
    case BeginCall => s.(submit := Submitting(s.submit.todo[1..], Some(s.submit.todo[0])))
    case EndCall => s.(submit := Submitting(s.submit.todo, None))
    case ReleaseSubmit => s.(submit := SubmitIdle)
    case CallStart =>
      if s.running then s
      else s.(running := true, lifecycle := StartNext(Attached(s.records, s.attached)))
    case CallAttach(r) =>
      if r in s.attached then s
      else
        s.(records := if r in s.records then s.records else s.records + [r],
           attached := s.attached + {r},
           lifecycle := if s.running then StartNext([r]) else LifecycleIdle,
           quiet := s.quiet - {r})
    case CallDetach(r, stop) =>
      if r !in s.attached then s
      else s.(attached := s.attached - {r}, lifecycle := AtBarrier([r], stop))
    case CallStop =>
      if !s.running then s
      else
        s.(running := false, attached := {},
           lifecycle := AtBarrier(Reversed(Attached(s.records, s.attached)), true))
    case BeginStart =>
      s.(lifecycle := if s.lifecycle.rest == [] then LifecycleIdle
                      else InStart(s.lifecycle.rest[0], s.lifecycle.rest[1..]))
    case EndStart(ok) =>
      if ok then s.(lifecycle := StartNext(s.lifecycle.rest))
      else s.(attached := s.attached - {s.lifecycle.r}, lifecycle := InCleanup(s.lifecycle.r, s.lifecycle.rest))
    case EndCleanup => s.(lifecycle := StartNext(s.lifecycle.rest))
    case PassBarrier =>
      s.(lifecycle := if s.lifecycle.thenStop then StopNext(s.lifecycle.rest) else LifecycleIdle,
         quiet := s.quiet + set r | r in s.lifecycle.rest)
    case BeginStop =>
      s.(lifecycle := if s.lifecycle.rest == [] then LifecycleIdle
                      else InStop(s.lifecycle.rest[0], s.lifecycle.rest[1..]))
    case EndStop => s.(lifecycle := StopNext(s.lifecycle.rest))
  }

  /** The subscribers the current submission has still to call. */
  function Todo(s: State): seq<nat> {
    if s.submit.Submitting? then s.submit.todo else []
  }

  /** The subscriber whose `submit_pcm` is running now. */
  function Calling(s: State): set<nat> {
    if s.submit.Submitting? && s.submit.calling.Some? then {s.submit.calling.value} else {}
  }

  /** The subscribers being stopped, or about to be, after the barrier. */
  function BeingStopped(s: State): seq<nat> {
    match s.lifecycle
    case StopNext(rest) => rest
    case InStop(r, rest) => [r] + rest
    case _ => []
  }

  ghost predicate Inv(s: State) {
    && (forall r | r in s.quiet :: r !in s.attached && r !in Todo(s) && r !in Calling(s))
    && (forall r | r in BeingStopped(s) :: r in s.quiet)
    && (s.lifecycle.AtBarrier? ==> forall r | r in s.lifecycle.rest :: r !in s.attached)
  }

  lemma NextInv(s: State, step: Step)
    requires Inv(s) && Enabled(s, step)
    ensures Inv(Next(s, step))
  {
    var t := Next(s, step);
    if s.submit.Submitting? && s.submit.todo != [] {
      assert s.submit.todo == [s.submit.todo[0]] + s.submit.todo[1..];
    }
    if s.lifecycle.StopNext? && s.lifecycle.rest != [] {
      assert s.lifecycle.rest == [s.lifecycle.rest[0]] + s.lifecycle.rest[1..];
    }
  }

  /** The states reached from a first one by enabled steps. */
  ghost predicate Run(states: seq<State>, steps: seq<Step>) {
    && |states| == |steps| + 1
    && states[0] == INITIAL
    && forall i :: 0 <= i < |steps| ==> Enabled(states[i], steps[i]) && states[i + 1] == Next(states[i], steps[i])
  }

  lemma {:induction false} RunInv(states: seq<State>, steps: seq<Step>, n: nat)
    requires Run(states, steps) && n < |states|
    ensures Inv(states[n])
  {
    if n > 0 {
      RunInv(states, steps, n - 1);
      NextInv(states[n - 1], steps[n - 1]);
    }
  }

  /** In no interleaving does a stop made by detach or by the router's stop overlap a submission to the same sink. */
  lemma StopNeverOverlapsSubmit(states: seq<State>, steps: seq<Step>, n: nat)
    requires Run(states, steps) && n < |states| && states[n].lifecycle.InStop?
    ensures states[n].lifecycle.r !in Calling(states[n]) && states[n].lifecycle.r !in Todo(states[n])
  {
    RunInv(states, steps, n);
    assert states[n].lifecycle.r in BeingStopped(states[n]);
  }

  // When a sink may be called again

  /** From `s`, some run of `n` steps without attaching `r` leads to a call of `r`. */
  ghost predicate CallsWithin(s: State, r: nat, n: nat)
    decreases n
  {
    if n == 0 then Enabled(s, BeginCall) && s.submit.todo[0] == r
    else exists step :: step != CallAttach(r) && Enabled(s, step) && CallsWithin(Next(s, step), r, n - 1)
  }

  ghost predicate MayCall(s: State, r: nat) {
    exists n: nat :: CallsWithin(s, r, n)
  }

  /** Without a new attachment, no step puts a subscriber on the list of those to call. */
  lemma StaysOff(s: State, step: Step, r: nat)
    requires Enabled(s, step) && step != CallAttach(r) && r !in s.attached && r !in Todo(s)
    ensures r !in Next(s, step).attached && r !in Todo(Next(s, step))
  {
  }

  lemma {:induction false} NotCalledWithin(s: State, r: nat, n: nat)
    requires r !in s.attached && r !in Todo(s)
    ensures !CallsWithin(s, r, n)
    decreases n
  {
    if n > 0 {
      forall step | step != CallAttach(r) && Enabled(s, step) ensures !CallsWithin(Next(s, step), r, n - 1) {
        StaysOff(s, step, r);
        NotCalledWithin(Next(s, step), r, n - 1);
      }
    }
  }

  lemma StepThenCalls(s: State, r: nat, step: Step, n: nat)
    requires step != CallAttach(r) && Enabled(s, step) && CallsWithin(Next(s, step), r, n)
    ensures CallsWithin(s, r, n + 1)
  {
  }

  /** A submission that has captured a subscriber goes on to call it. */
  lemma {:induction false} CapturedIsCalled(s: State, r: nat) returns (n: nat)
    requires r in Todo(s)
    ensures CallsWithin(s, r, n)
    decreases |Todo(s)|, s.submit.calling.Some?
  {
    if s.submit.calling.Some? {
      var m := CapturedIsCalled(Next(s, EndCall), r);
      StepThenCalls(s, r, EndCall, m);
      n := m + 1;
    } else if s.submit.todo[0] == r {
      n := 0;
    } else {
      assert s.submit.todo == [s.submit.todo[0]] + s.submit.todo[1..];
      var m := CapturedIsCalled(Next(s, BeginCall), r);
      StepThenCalls(s, r, BeginCall, m);
      n := m + 1;
    }
  }

  /** A sink that is not attached may be called again exactly when a submission has captured it already. */
  lemma MayCallIffCaptured(s: State, r: nat)
    requires r !in s.attached
    ensures MayCall(s, r) <==> r in Todo(s)
  {
    if r in Todo(s) {
      var n := CapturedIsCalled(s, r);
    } else {
      forall n: nat ensures !CallsWithin(s, r, n) {
        NotCalledWithin(s, r, n);
      }
    }
  }

  /** From the barrier of a detach or stop on, the sink is not called until it is attached again. */
  lemma NotCalledAfterBarrier(states: seq<State>, steps: seq<Step>, n: nat, r: nat)
    requires Run(states, steps) && n < |steps| && steps[n].PassBarrier? && r in states[n].lifecycle.rest
    ensures !MayCall(states[n + 1], r) && r !in Calling(states[n + 1])
  {
    RunInv(states, steps, n + 1);
    MayCallIffCaptured(states[n + 1], r);
  }

  /** A detach that finds the sink attached, or a stop of the running router, waits at the barrier for it. */
  lemma DetachWaits(s: State, r: nat, stop: bool)
    requires s.lifecycle.LifecycleIdle? && r in s.attached && r in s.records
    ensures Next(s, CallDetach(r, stop)).lifecycle == AtBarrier([r], stop)
    ensures s.running ==> r in Next(s, CallStop).lifecycle.rest
  {
    if s.running {
      AttachedComplete(s.records, s.attached, r);
    }
  }

  lemma {:induction false} AttachedComplete(records: seq<nat>, attached: set<nat>, r: nat)
    requires r in records && r in attached
    ensures r in Attached(records, attached)
  {
    if records[0] != r {
      assert records == [records[0]] + records[1..];
      AttachedComplete(records[1..], attached, r);
    }
  }

  /**
    A detach of a sink that is not attached returns at once, without the barrier. After it the
    sink may still be called exactly when a submission has captured it, as it may have while a
    start that failed was under way.
   */
  lemma EarlyDetach(s: State, r: nat, stop: bool)
    requires s.lifecycle.LifecycleIdle? && r !in s.attached
    ensures Next(s, CallDetach(r, stop)) == s
    ensures MayCall(Next(s, CallDetach(r, stop)), r) <==> r in Todo(s)
  {
    MayCallIffCaptured(s, r);
  }

  lemma Extend(states: seq<State>, steps: seq<Step>, step: Step) returns (more: seq<State>, s: State)
    requires Run(states, steps) && Enabled(states[|steps|], step)
    ensures s == Next(states[|steps|], step) && more == states + [s]
    ensures Run(more, steps + [step]) && more[|steps| + 1] == s
  {
    s := Next(states[|steps|], step);
    more := states + [s];
  }

  /** A run to a state in which a sink that failed to start is captured by a submission. */
  lemma FailedStartIsCaptured() returns (states: seq<State>, steps: seq<Step>)
    ensures Run(states, steps)
    ensures states[|steps|] == State([7], {}, true, Submitting([7], None), InCleanup(7, []), {})
  {
    var s;
    states, steps := [INITIAL], [];
    states, s := Extend(states, steps, CallStart);
    steps := steps + [CallStart];
    assert s == State([], {}, true, SubmitIdle, StartNext([]), {});
    states, s := Extend(states, steps, BeginStart);
    steps := steps + [BeginStart];
    states, s := Extend(states, steps, CallAttach(7));
    steps := steps + [CallAttach(7)];
    assert s == State([7], {7}, true, SubmitIdle, StartNext([7]), {});
    states, s := Extend(states, steps, BeginStart);
    steps := steps + [BeginStart];
    assert s == State([7], {7}, true, SubmitIdle, InStart(7, []), {}) by {
      assert [7][1..] == [];
    }
    states, s := Extend(states, steps, AcquireSubmit);
    steps := steps + [AcquireSubmit];
    assert s == State([7], {7}, true, Locked, InStart(7, []), {});
    assert Attached([7], {7}) == [7];
    states, s := Extend(states, steps, Capture);
    steps := steps + [Capture];
    states, s := Extend(states, steps, EndStart(false));
    steps := steps + [EndStart(false)];
  }

  /** Such a run: the submission captures the sink between its attachment and the failure of its start. */
  lemma EarlyDetachMayCall() returns (states: seq<State>, steps: seq<Step>)
    ensures Run(states, steps)
    ensures steps != [] && steps[|steps| - 1] == CallDetach(7, true) && MayCall(states[|steps|], 7)
  {
    var s;
    states, steps := FailedStartIsCaptured();
    states, s := Extend(states, steps, EndCleanup);
    steps := steps + [EndCleanup];
    states, s := Extend(states, steps, BeginStart);
    steps := steps + [BeginStart];
    EarlyDetach(s, 7, true);
    states, s := Extend(states, steps, CallDetach(7, true));
    steps := steps + [CallDetach(7, true)];
  }
}
