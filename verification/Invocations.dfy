/**
  Which operations a destination coordinator invokes, and in which order
  (`daemon_destination_activation.py`).
 */
module Invocations {
  import opened Prelude
  import opened Tables
  import opened Runtime
  import opened Staging
  import opened Cleanup
  import opened Candidates
  import opened Replacement

  function OperationsOf(log: seq<Entry>): seq<Operation> {
    seq(|log|, i requires 0 <= i < |log| => log[i].operation)
  }

  /** From `m` to `m'` exactly these operations have been invoked, in this order. */
  ghost predicate Invokes(m: Machine, m': Machine, ops: seq<Operation>) {
    OperationsOf(m'.log) == OperationsOf(m.log) + ops
  }

  lemma InvokesNothing(m: Machine)
    ensures Invokes(m, m, [])
  {
  }

  lemma PerformInvokes(m0: Machine, m: Machine, ops: seq<Operation>, op: Operation, env: Environment)
    requires Invokes(m0, m, ops)
    ensures Invokes(m0, Perform(m, op, env), ops + [op])
  {
    assert OperationsOf(Perform(m, op, env).log) == OperationsOf(m.log) + [op];
  }

  lemma InvokesCompose(m: Machine, m': Machine, m'': Machine, ops: seq<Operation>, more: seq<Operation>)
    requires Invokes(m, m', ops) && Invokes(m', m'', more)
    ensures Invokes(m, m'', ops + more)
  {
  }

  function Concat<T>(parts: seq<seq<T>>): seq<T> {
    if parts == [] then [] else Concat(parts[..|parts| - 1]) + parts[|parts| - 1]
  }

  lemma ConcatAppend<T>(parts: seq<seq<T>>, part: seq<T>)
    ensures Concat(parts + [part]) == Concat(parts) + part
  {
    assert (parts + [part])[..|parts|] == parts;
  }

  function If<T>(c: bool, x: T): seq<T> {
    if c then [x] else []
  }

  lemma MayPerform(m0: Machine, m: Machine, ops: seq<Operation>, c: bool, op: Operation, env: Environment)
    requires Invokes(m0, m, ops)
    ensures Invokes(m0, if c then Perform(m, op, env) else m, ops + If(c, op))
  {
    if c {
      PerformInvokes(m0, m, ops, op, env);
    } else {
      assert ops + [] == ops;
    }
  }

  // Staging and rollback

  /** What a round of staging has invoked, by its record. */
  function StageOps<V>(stage: Stage<V>): seq<Operation> {
    (if stage.previous.Some? then [Detach(stage.previous.value.serial, false)] else [])
    + If(stage.sinkAttempted, Attach(stage.resources.serial))
    + If(stage.metadataAttempted, StartMetadata(stage.resources.serial))
  }

  lemma StageOneInvokes<V>(m: Machine, candidate: Resources<V>, previous: Option<Resources<V>>, env: Environment)
    ensures var (stage, m') := StageOne(m, candidate, previous, env); Invokes(m, m', StageOps(stage))
  {
    var first := if previous.Some? then [Detach(previous.value.serial, false)] else [];
    var m1 := if previous.Some? then Perform(m, Detach(previous.value.serial, false), env) else m;
    InvokesNothing(m);
    if previous.Some? {
      PerformInvokes(m, m, [], Detach(previous.value.serial, false), env);
      assert [] + first == first;
    }
    if previous.Some? && m1.LastRaised() {
      assert StageOps(StageOne(m, candidate, previous, env).0) == first + [] + [];
    } else {
      var m2 := Perform(m1, Attach(candidate.serial), env);
      PerformInvokes(m, m1, first, Attach(candidate.serial), env);
      MayPerform(m, m2, first + [Attach(candidate.serial)], candidate.publishes && !m2.LastRaised(),
                 StartMetadata(candidate.serial), env);
    }
  }

  /** What undoing a stage invokes: every recorded step is taken back, the last first. */
  function UndoOps<V>(stage: Stage<V>): seq<Operation> {
    If(stage.metadataAttempted && stage.resources.publishes, StopMetadata(stage.resources.serial))
    + If(stage.sinkAttempted, Detach(stage.resources.serial, true))
    + if stage.previousDetached && stage.previous.Some? then [Attach(stage.previous.value.serial)] else []
  }

  lemma UndoOneInvokes<V>(stage: Stage<V>, m: Machine, env: Environment)
    ensures Invokes(m, UndoOne(stage, m, env), UndoOps(stage))
  {
    var c := stage.resources.serial;
    var m1 := UndoMetadata(stage, m, env);
    var m2 := UndoSink(stage, m1, env);
    var ops := If(stage.metadataAttempted && stage.resources.publishes, StopMetadata(c));
    InvokesNothing(m);
    MayPerform(m, m, [], stage.metadataAttempted && stage.resources.publishes, StopMetadata(c), env);
    assert [] + ops == ops;
    MayPerform(m, m1, ops, stage.sinkAttempted, Detach(c, true), env);
    ops := ops + If(stage.sinkAttempted, Detach(c, true));
    if stage.previousDetached && stage.previous.Some? {
      PerformInvokes(m, m2, ops, Attach(stage.previous.value.serial), env);
    } else {
      assert ops + [] == ops;
    }
  }

  function AllStageOps<V>(stages: seq<Stage<V>>): seq<Operation> {
    Concat(seq(|stages|, i requires 0 <= i < |stages| => StageOps(stages[i])))
  }

  /** The stages from `k` on are undone last first. */
  function AllUndoOps<V>(stages: seq<Stage<V>>, k: nat): seq<Operation>
    requires k <= |stages|
    decreases |stages| - k
  {
    if k == |stages| then [] else AllUndoOps(stages, k + 1) + UndoOps(stages[k])
  }

  /** Undoing two lists of stages undoes the second first. */
  lemma {:induction false} UndoOpsOfBoth<V>(stages: seq<Stage<V>>, more: seq<Stage<V>>, k: nat)
    requires k <= |stages|
    ensures AllUndoOps(stages + more, k) == AllUndoOps(more, 0) + AllUndoOps(stages, k)
    decreases |stages| - k
  {
    if k < |stages| {
      UndoOpsOfBoth(stages, more, k + 1);
      assert (stages + more)[k] == stages[k];
    } else {
      UndoOpsOfRest(stages, more, 0);
      assert AllUndoOps(stages, k) == [];
    }
  }

  lemma {:induction false} UndoOpsOfRest<V>(stages: seq<Stage<V>>, more: seq<Stage<V>>, k: nat)
    requires k <= |more|
    ensures AllUndoOps(stages + more, |stages| + k) == AllUndoOps(more, k)
    decreases |more| - k
  {
    if k < |more| {
      UndoOpsOfRest(stages, more, k + 1);
      assert (stages + more)[|stages| + k] == more[k];
    }
  }

  /** Staging invokes what its records say, in the order of the stages, and nothing else. */
  lemma StagingInvokes<K, V>(a: Activation<K, V>, k: nat) returns (p: Progress<V>)
    requires k <= |a.changes| && Supplied(a.changes, a.candidates)
    ensures p == UpTo(a, k) && Invokes(a.start, p.machine, AllStageOps(p.stages))
  {
    p := Progress([], [], false, a.start);
    for i := 0 to k
      invariant p == UpTo(a, i) && Invokes(a.start, p.machine, AllStageOps(p.stages))
    {
      AdvanceInvokes(a, p, i);
      p := Advance(a, p, i);
    }
  }

  lemma AdvanceInvokes<K, V>(a: Activation<K, V>, p: Progress<V>, k: nat)
    requires k < |a.changes| && Supplied(a.changes, a.candidates)
    requires Invokes(a.start, p.machine, AllStageOps(p.stages))
    ensures Invokes(a.start, Advance(a, p, k).machine, AllStageOps(Advance(a, p, k).stages))
  {
    var change := a.changes[k];
    if !p.raised && Wanted(change) {
      var candidate, previous := a.candidates[change.name], Lookup(a.resources, change.name);
      var (stage, m) := StageOne(p.machine, candidate, previous, a.environment);
      StageOneInvokes(p.machine, candidate, previous, a.environment);
      InvokesCompose(a.start, p.machine, m, AllStageOps(p.stages), StageOps(stage));
      OneMoreStage(p.stages, stage);
    }
  }

  lemma OneMoreStage<V>(stages: seq<Stage<V>>, stage: Stage<V>)
    ensures AllStageOps(stages + [stage]) == AllStageOps(stages) + StageOps(stage)
  {
    var all := stages + [stage];
    var parts := seq(|stages|, i requires 0 <= i < |stages| => StageOps(stages[i]));
    ConcatAppend(parts, StageOps(stage));
    assert seq(|all|, i requires 0 <= i < |all| => StageOps(all[i])) == parts + [StageOps(stage)];
  }

  /** A rollback undoes every stage, the last first, whatever raises. */
  lemma {:induction false} RollbackInvokes<V>(stages: seq<Stage<V>>, k: nat, m: Machine, env: Environment)
    requires k <= |stages|
    ensures Invokes(m, Rollback(stages, k, m, env), AllUndoOps(stages, k))
    decreases |stages| - k
  {
    if k < |stages| {
      var later := Rollback(stages, k + 1, m, env);
      RollbackInvokes(stages, k + 1, m, env);
      UndoOneInvokes(stages[k], later, env);
      InvokesCompose(m, later, UndoOne(stages[k], later, env), AllUndoOps(stages, k + 1), UndoOps(stages[k]));
    }
  }

  // Cleanup

  /** What a cleanup invokes: the publisher is stopped first, if there is one. */
  function JobOps<K, V>(job: Job<K, V>): seq<Operation> {
    If(job.resources.publishes, StopMetadata(job.resources.serial))
    + [if job.attached then Detach(job.resources.serial, true) else Stop(job.resources.serial)]
  }

  function AllJobOps<K, V>(jobs: seq<Job<K, V>>): seq<Operation> {
    Concat(seq(|jobs|, i requires 0 <= i < |jobs| => JobOps(jobs[i])))
  }

  lemma CleanOneInvokes<K, V>(job: Job<K, V>, m: Machine, env: Environment)
    ensures Invokes(m, CleanOne(job, m, env).1, JobOps(job))
  {
    var s := job.resources.serial;
    var ops := If(job.resources.publishes, StopMetadata(s));
    InvokesNothing(m);
    MayPerform(m, m, [], job.resources.publishes, StopMetadata(s), env);
    assert [] + ops == ops;
    PerformInvokes(m, CleanMetadata(job, m, env), ops, if job.attached then Detach(s, true) else Stop(s), env);
  }

  lemma OneMoreJobDone<K, V>(jobs: seq<Job<K, V>>)
    requires jobs != []
    ensures AllJobOps(jobs) == AllJobOps(jobs[..|jobs| - 1]) + JobOps(jobs[|jobs| - 1])
  {
    var last := |jobs| - 1;
    var front := jobs[..last];
    var parts := seq(last, i requires 0 <= i < last => JobOps(front[i]));
    ConcatAppend(parts, JobOps(jobs[last]));
    assert seq(|jobs|, i requires 0 <= i < |jobs| => JobOps(jobs[i])) == parts + [JobOps(jobs[last])];
  }

  /** A cleanup takes every step of every job, in order, whatever raises. */
  lemma {:induction false} CleanAllInvokes<K, V>(jobs: seq<Job<K, V>>, m: Machine, env: Environment)
    ensures Invokes(m, CleanAll(jobs, m, env).1, AllJobOps(jobs))
  {
    if jobs == [] {
      InvokesNothing(m);
    } else {
      var front := jobs[..|jobs| - 1];
      var m1 := CleanAll(front, m, env).1;
      CleanAllInvokes(front, m, env);
      CleanOneInvokes(jobs[|jobs| - 1], m1, env);
      InvokesCompose(m, m1, CleanOne(jobs[|jobs| - 1], m1, env).1, AllJobOps(front), JobOps(jobs[|jobs| - 1]));
      OneMoreJobDone(jobs);
    }
  }

  /** A close visits the names in reverse, and detaches every sink. */
  lemma {:induction false} HeldJobsLastFirst<K, V>(names: seq<K>, resources: map<K, Resources<V>>, k: nat)
    requires k <= |names| && forall i | 0 <= i < |names| :: names[i] in resources
    ensures var jobs := HeldJobs(names, resources, k);
            && |jobs| == |names| - k
            && forall j | 0 <= j < |jobs| ::
                 var n := names[|names| - 1 - j]; jobs[j] == Job(n, resources[n], true)
    decreases |names| - k
  {
    if k < |names| {
      HeldJobsLastFirst(names, resources, k + 1);
    }
  }

  /** `from` lists the places of the retired changes from `k` on, in reverse. */
  ghost predicate RetiredPlaces<K, V>(from: seq<nat>, changes: seq<Change<K, V>>, k: nat) {
    && (forall j | 0 <= j < |from| :: k <= from[j] < |changes| && Retired(changes[from[j]]))
    && (forall i, j | 0 <= i < j < |from| :: from[i] > from[j])
    && (forall i | k <= i < |changes| && Retired(changes[i]) :: i in from)
  }

  /** A replacement cleans up the names it removes or replaces, in reverse; a sink that is replaced is only stopped. */
  lemma {:induction false} RetiredJobsLastFirst<K, V>(
      changes: seq<Change<K, V>>, resources: map<K, Resources<V>>, k: nat)
    returns (from: seq<nat>)
    requires k <= |changes|
    requires forall i | 0 <= i < |changes| && Retired(changes[i]) :: changes[i].name in resources
    ensures RetiredPlaces(from, changes, k)
    ensures var jobs := RetiredJobs(changes, resources, k);
            && |jobs| == |from|
            && forall j | 0 <= j < |jobs| ::
                 var change := changes[from[j]];
                 jobs[j] == Job(change.name, resources[change.name], change.action.Removed?)
    decreases |changes| - k
  {
    from := [];
    if k < |changes| {
      from := RetiredJobsLastFirst(changes, resources, k + 1);
      from := if Retired(changes[k]) then from + [k] else from;
    }
  }

  // The two operations

  /** A close invokes the cleanup of all it holds, whatever raises. */
  lemma CloseInvokes<K, V>(s: State<K, V>, names: seq<K>, env: Environment)
    requires Lists(names, s.resources.Keys)
    ensures Invokes(s.machine, Close(s, names, env).1.machine,
                    if s.closed then [] else AllJobOps(HeldJobs(names, s.resources, 0)))
  {
    if s.closed {
      InvokesNothing(s.machine);
    } else {
      CleanAllInvokes(HeldJobs(names, s.resources, 0), s.machine, env);
    }
  }

  /** The stages a replacement gets to. */
  function StagesMade<K, V>(
      s: State<K, V>, changes: seq<Change<K, V>>, factory: nat -> Option<bool>, env: Environment): seq<Stage<V>>
    requires Requested(changes)
  {
    var b := BuildUpTo(changes, |changes|, s.next, factory);
    if b.raised then [] else UpTo(Activation(changes, b.candidates, s.resources, s.machine, env), |changes|).stages
  }

  /**
    A replacement invokes what its stages record, and then either takes every recorded step back,
    the last stage first, or cleans up what it no longer needs.
   */
  lemma TransactionInvokes<K, V>(
      s: State<K, V>, changes: seq<Change<K, V>>, replacement: map<K, V>, factory: nat -> Option<bool>,
      env: Environment)
    requires IsDiff(changes, s.configuration, replacement) && s.resources.Keys == s.configuration.Keys
    requires Requested(changes)
    requires forall i | 0 <= i < |changes| && Retired(changes[i]) :: changes[i].name in s.resources
    ensures var (result, s') := Transacted(s, changes, replacement, factory, env);
            var stages := StagesMade(s, changes, factory, env);
            Invokes(s.machine, s'.machine,
                    AllStageOps(stages) + if result.Done? then AllJobOps(RetiredJobs(changes, s.resources, 0))
                                          else AllUndoOps(stages, 0))
  {
    var b := BuildUpTo(changes, |changes|, s.next, factory);
    var stages := StagesMade(s, changes, factory, env);
    if b.raised {
      InvokesNothing(s.machine);
      assert AllStageOps(stages) + AllUndoOps(stages, 0) == [];
    } else {
      var p := StagingInvokes(Activation(changes, b.candidates, s.resources, s.machine, env), |changes|);
      if p.raised {
        RollbackInvokes(stages, 0, p.machine, env);
        InvokesCompose(s.machine, p.machine, Rollback(stages, 0, p.machine, env), AllStageOps(stages),
                       AllUndoOps(stages, 0));
      } else {
        var jobs := RetiredJobs(changes, s.resources, 0);
        CleanAllInvokes(jobs, p.machine, env);
        InvokesCompose(s.machine, p.machine, CleanAll(jobs, p.machine, env).1, AllStageOps(stages), AllJobOps(jobs));
      }
    }
  }
}
