/**
  Which sinks the PCM router calls, starts and stops, over any run of its two threads
  (`audio_sinks.py`).
 */
module RouterCalls {
  import opened Prelude
  import opened RouterBarrier

  /** `from` lists the places of the attached ones of the first `n` records, in order. */
  ghost predicate Places(from: seq<nat>, records: seq<nat>, attached: set<nat>, n: nat)
    requires n <= |records|
  {
    && (forall k :: 0 <= k < |from| ==> from[k] < n && records[from[k]] in attached)
    && (forall i, j :: 0 <= i < j < |from| ==> from[i] < from[j])
    && (forall i :: 0 <= i < n && records[i] in attached ==> i in from)
  }

  function RecordsAt(from: seq<nat>, records: seq<nat>): seq<nat>
    requires forall k :: 0 <= k < |from| ==> from[k] < |records|
  {
    seq(|from|, k requires 0 <= k < |from| => records[from[k]])
  }

  lemma AppendTwice(a: seq<nat>, b: seq<nat>, c: seq<nat>)
    ensures a + (b + c) == (a + b) + c
  {
  }

  lemma {:induction false} AttachedAppend(records: seq<nat>, r: nat, attached: set<nat>)
    ensures Attached(records + [r], attached) == Attached(records, attached) + if r in attached then [r] else []
  {
    if records == [] {
      assert records + [r] == [r] && Attached([r][1..], attached) == [];
    } else {
      var more, last := records + [r], if r in attached then [r] else [];
      assert more[0] == records[0] && more[1..] == records[1..] + [r];
      AttachedAppend(records[1..], r, attached);
      AppendTwice(if records[0] in attached then [records[0]] else [], Attached(records[1..], attached), last);
    }
  }

  lemma AttachedUpTo(records: seq<nat>, attached: set<nat>, n: nat)
    requires n < |records|
    ensures Attached(records[..n + 1], attached)
          == Attached(records[..n], attached) + if records[n] in attached then [records[n]] else []
  {
    AttachedAppend(records[..n], records[n], attached);
    assert records[..n + 1] == records[..n] + [records[n]];
  }

  /** The records attached, each once, in the order in which they were made. */
  lemma AttachedInOrder(records: seq<nat>, attached: set<nat>) returns (from: seq<nat>)
    ensures Places(from, records, attached, |records|) && Attached(records, attached) == RecordsAt(from, records)
  {
    from := [];
    for n := 0 to |records|
      invariant Places(from, records, attached, n) && Attached(records[..n], attached) == RecordsAt(from, records)
    {
      AttachedUpTo(records, attached, n);
      if records[n] in attached {
        PlacesAppend(from, records, attached, n);
        from := from + [n];
      }
    }
    assert records[..|records|] == records;
  }

  lemma PlacesAppend(from: seq<nat>, records: seq<nat>, attached: set<nat>, n: nat)
    requires n < |records| && Places(from, records, attached, n) && records[n] in attached
    ensures Places(from + [n], records, attached, n + 1)
    ensures RecordsAt(from + [n], records) == RecordsAt(from, records) + [records[n]]
  {
    assert (from + [n])[|from|] == n;
  }

  /** Reversing keeps every entry, at the mirrored place. */
  lemma {:induction false} ReversedMirrors(s: seq<nat>)
    ensures |Reversed(s)| == |s| && forall k :: 0 <= k < |s| ==> Reversed(s)[k] == s[|s| - 1 - k]
  {
    if s != [] {
      ReversedMirrors(s[1..]);
    }
  }

  /** The sink whose `submit_pcm` is called by this step. */
  function CallBegun(s: State, t: State): seq<nat> {
    if s.submit.Submitting? && s.submit.calling.None? && t.submit.Submitting? && t.submit.calling.Some?
    then [t.submit.calling.value] else []
  }

  function StartBegun(s: State, t: State): seq<nat> {
    if !s.lifecycle.InStart? && t.lifecycle.InStart? then [t.lifecycle.r] else []
  }

  function StopBegun(s: State, t: State): seq<nat> {
    if !s.lifecycle.InStop? && t.lifecycle.InStop? then [t.lifecycle.r] else []
  }

  /** What has begun between the states `i` and `j` of a run, in order. */
  function Begun<S>(states: seq<S>, begun: (S, S) -> seq<nat>, i: nat, j: nat): seq<nat>
    requires i <= j < |states|
    decreases j
  {
    if i == j then [] else Begun(states, begun, i, j - 1) + begun(states[j - 1], states[j])
  }

  /** What was due before a step is what the step begins, and what is due after it. */
  ghost predicate Pays<S>(begun: (S, S) -> seq<nat>, due: S -> seq<nat>, s: S, t: S) {
    due(s) == begun(s, t) + due(t)
  }

  lemma {:induction false} AllPaid<S>(
      states: seq<S>, begun: (S, S) -> seq<nat>, due: S -> seq<nat>, i: nat, j: nat)
    requires i <= j < |states| && forall k | i <= k < j :: Pays(begun, due, states[k], states[k + 1])
    ensures Begun(states, begun, i, j) + due(states[j]) == due(states[i])
    decreases j
  {
    if i < j {
      AllPaid(states, begun, due, i, j - 1);
      assert Pays(begun, due, states[j - 1], states[j - 1 + 1]);
    }
  }

  /** The sinks that the current lifecycle call has still to start. */
  function StartsDue(s: State): seq<nat> {
    match s.lifecycle
    case StartNext(rest) => rest
    case InStart(_, rest) => rest
    case InCleanup(_, rest) => rest
    case _ => []
  }

  /** The sinks that it has still to stop. */
  function StopsDue(s: State): seq<nat> {
    match s.lifecycle
    case AtBarrier(rest, thenStop) => if thenStop then rest else []
    case StopNext(rest) => rest
    case InStop(_, rest) => rest
    case _ => []
  }

  lemma StartsArePaid(s: State, step: Step)
    requires Enabled(s, step) && !s.lifecycle.LifecycleIdle?
    ensures Pays(StartBegun, StartsDue, s, Next(s, step))
  {
    if s.lifecycle.StartNext? && s.lifecycle.rest != [] {
      assert s.lifecycle.rest == [s.lifecycle.rest[0]] + s.lifecycle.rest[1..];
    }
  }

  lemma StopsArePaid(s: State, step: Step)
    requires Enabled(s, step) && !s.lifecycle.LifecycleIdle?
    ensures Pays(StopBegun, StopsDue, s, Next(s, step))
  {
    if s.lifecycle.StopNext? && s.lifecycle.rest != [] {
      assert s.lifecycle.rest == [s.lifecycle.rest[0]] + s.lifecycle.rest[1..];
    }
  }

  lemma CallsArePaid(s: State, step: Step)
    requires Enabled(s, step) && s.submit.Submitting? && !step.ReleaseSubmit?
    ensures Next(s, step).submit.Submitting? && Pays(CallBegun, Todo, s, Next(s, step))
  {
    if s.submit.todo != [] {
      assert s.submit.todo == [s.submit.todo[0]] + s.submit.todo[1..];
    }
  }

  lemma {:induction false} StillSubmitting(states: seq<State>, steps: seq<Step>, i: nat, j: nat)
    requires Run(states, steps) && i <= j <= |steps| && states[i].submit.Submitting?
    requires forall k :: i <= k < j ==> !steps[k].ReleaseSubmit?
    ensures states[j].submit.Submitting?
    ensures forall k | i <= k < j :: Pays(CallBegun, Todo, states[k], states[k + 1])
    decreases j
  {
    if i < j {
      StillSubmitting(states, steps, i, j - 1);
      CallsArePaid(states[j - 1], steps[j - 1]);
      assert states[j] == Next(states[j - 1], steps[j - 1]);
    }
  }

  /** A submission calls every sink that was attached when it began, once and in the order of the records. */
  lemma SubmissionCallsAttached(states: seq<State>, steps: seq<Step>, i: nat, j: nat)
    requires Run(states, steps) && i < j < |steps| && steps[i].Capture? && states[i].running && steps[j].ReleaseSubmit?
    requires forall k :: i < k < j ==> !steps[k].ReleaseSubmit?
    ensures Begun(states, CallBegun, i + 1, j) == Attached(states[i].records, states[i].attached)
  {
    assert states[i + 1] == Next(states[i], steps[i]);
    StillSubmitting(states, steps, i + 1, j);
    AllPaid(states, CallBegun, Todo, i + 1, j);
    assert Enabled(states[j], steps[j]);
  }

  /** A lifecycle call, from its first step until it is over, starts and stops exactly what was due, in order. */
  lemma LifecycleDoesWhatIsDue(states: seq<State>, steps: seq<Step>, i: nat, j: nat)
    requires Run(states, steps) && i <= j < |states| && states[j].lifecycle.LifecycleIdle?
    requires forall k :: i <= k < j ==> !states[k].lifecycle.LifecycleIdle?
    ensures Begun(states, StartBegun, i, j) == StartsDue(states[i])
    ensures Begun(states, StopBegun, i, j) == StopsDue(states[i])
  {
    forall k | i <= k < j
      ensures Pays(StartBegun, StartsDue, states[k], states[k + 1])
      ensures Pays(StopBegun, StopsDue, states[k], states[k + 1])
    {
      StartsArePaid(states[k], steps[k]);
      StopsArePaid(states[k], steps[k]);
    }
    AllPaid(states, StartBegun, StartsDue, i, j);
    AllPaid(states, StopBegun, StopsDue, i, j);
  }

  /** A start of the router starts the attached sinks, in the order of the records. */
  lemma DueAfterStart(s: State)
    requires s.lifecycle.LifecycleIdle?
    ensures var t := Next(s, CallStart);
            && t.running && t.attached == s.attached
            && StartsDue(t) == (if s.running then [] else Attached(s.records, s.attached)) && StopsDue(t) == []
  {
  }

  /** A stop of the running router detaches all sinks, and stops them in reverse order. */
  lemma DueAfterStop(s: State)
    requires s.lifecycle.LifecycleIdle?
    ensures var t := Next(s, CallStop);
            && !t.running && t.attached == (if s.running then {} else s.attached)
            && StopsDue(t) == (if s.running then Reversed(Attached(s.records, s.attached)) else [])
            && StartsDue(t) == []
  {
  }

  /** An attachment of a sink that is not attached records it, and starts it if the router runs. */
  lemma DueAfterAttach(s: State, r: nat)
    requires s.lifecycle.LifecycleIdle?
    ensures var t := Next(s, CallAttach(r));
            && t.attached == s.attached + {r} && (r !in s.attached ==> r in t.records) && s.records <= t.records
            && StartsDue(t) == (if s.running && r !in s.attached then [r] else []) && StopsDue(t) == []
  {
  }

  /** A detachment of an attached sink stops it, if asked to. */
  lemma DueAfterDetach(s: State, r: nat, stop: bool)
    requires s.lifecycle.LifecycleIdle?
    ensures var t := Next(s, CallDetach(r, stop));
            && t.attached == s.attached - {r}
            && StopsDue(t) == (if stop && r in s.attached then [r] else []) && StartsDue(t) == []
  {
  }

  /** Neither thread is ever stuck, except that a detach or stop waits at the barrier for the submission to end. */
  lemma NeverStuck(s: State)
    ensures || Enabled(s, AcquireSubmit) || Enabled(s, Capture) || Enabled(s, BeginCall) || Enabled(s, EndCall)
            || Enabled(s, ReleaseSubmit)
    ensures s.lifecycle.AtBarrier? ==> (Enabled(s, PassBarrier) <==> s.submit.SubmitIdle?)
    ensures || s.lifecycle.LifecycleIdle? || s.lifecycle.AtBarrier?
            || Enabled(s, BeginStart) || (Enabled(s, EndStart(true)) && Enabled(s, EndStart(false)))
            || Enabled(s, EndCleanup) || Enabled(s, BeginStop) || Enabled(s, EndStop)
  {
  }
}
