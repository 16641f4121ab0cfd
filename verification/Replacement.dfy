/**
  A destination replacement as a whole, and a close, as functions of the coordinator's state
  (`daemon_destination_activation.py`): what they achieve for every factory and fault pattern.
 */
module Replacement {
  import opened Prelude
  import opened Tables
  import opened Runtime
  import opened Staging
  import opened Cleanup
  import opened Candidates

  datatype State<K, V> = State(
    configuration: map<K, V>,
    resources: map<K, Resources<V>>,
    next: nat,
    started: bool,
    closed: bool,
    machine: Machine)

  datatype ReplacementResult<K, V> =
    | Done(changes: seq<Change<K, V>>, cleanupFailures: seq<CleanupFailure<K>>)
    | Failed

  // The invariant of a coordinator between operations.

  /** A committed resource: its sink is attached unless its latest attachment raised. */
  ghost predicate Settled<V>(r: Resources<V>, w: World, routerRunning: bool) {
    var st := At(w, r.serial);
    && (st.attached <==> !st.attachFailed)
    && (routerRunning && st.attached ==> st.live)
    && (st.publishing <==> r.publishes)
  }

  ghost function Serials<K, V>(resources: map<K, Resources<V>>): set<nat> {
    set n | n in resources :: resources[n].serial
  }

  ghost predicate Accounted<K, V>(s: nat, resources: map<K, Resources<V>>, w: World) {
    s in Serials(resources) || Gone(At(w, s))
  }

  /**
    Nothing leaks: what is attached or running belongs to a committed destination, except where
    a step of its own failed, and every committed destination is attached and running.
   */
  ghost predicate NoLeak<K, V>(resources: map<K, Resources<V>>, w: World, routerRunning: bool) {
    && (forall n | n in resources :: Settled(resources[n], w, routerRunning))
    && (forall s: nat :: Accounted(s, resources, w))
  }

  /** The committed table is worth what the configuration says. */
  ghost predicate Committed<K, V>(configuration: map<K, V>, resources: map<K, Resources<V>>, next: nat) {
    && resources.Keys == configuration.Keys
    && (forall n | n in resources :: resources[n].destination == configuration[n] && resources[n].serial < next)
    && SerialsUnique(resources)
  }

  ghost predicate Sound<K, V>(s: State<K, V>, routerRunning: bool) {
    && Committed(s.configuration, s.resources, s.next)
    && Bounded(s.machine.world, s.next)
    && NoLeak(s.resources, s.machine.world, routerRunning)
  }

  // The two operations.

  lemma DiffIsUsable<K, V>(changes: seq<Change<K, V>>, configuration: map<K, V>, replacement: map<K, V>)
    requires IsDiff(changes, configuration, replacement)
    ensures Requested(changes)
    ensures forall i | 0 <= i < |changes| && Retired(changes[i]) :: changes[i].name in configuration
  {
    forall i | 0 <= i < |changes|
      ensures Wanted(changes[i]) ==> changes[i].after.Some?
      ensures Retired(changes[i]) ==> changes[i].name in configuration
    {
      assert changes[i] == ChangeFor(changes[i].name, configuration, replacement);
    }
  }

  /** What `replace` does once it has found that something changes. */
  function Transacted<K, V>(
      s: State<K, V>, changes: seq<Change<K, V>>, replacement: map<K, V>, factory: nat -> Option<bool>,
      env: Environment): (ReplacementResult<K, V>, State<K, V>)
    requires IsDiff(changes, s.configuration, replacement) && s.resources.Keys == s.configuration.Keys
  {
    DiffIsUsable(changes, s.configuration, replacement);
    var b := BuildUpTo(changes, |changes|, s.next, factory);
    if b.raised then (Failed, s.(next := b.next)) else
      var p := UpTo(Activation(changes, b.candidates, s.resources, s.machine, env), |changes|);
      if p.raised then (Failed, s.(next := b.next, machine := Rollback(p.stages, 0, p.machine, env)))
      else
        var (failures, m) := CleanAll(RetiredJobs(changes, s.resources, 0), p.machine, env);
        (Done(changes, failures),
         s.(configuration := replacement, resources := CommittedTable(replacement, b.candidates, s.resources),
            next := b.next, machine := m))
  }

  /**
    `replace`, visiting names in the order of `names`. Either the request is committed, or an
    exception leaves the configuration and the resources as they were and rolls back what had
    been staged.
   */
  function Replace<K, V(==)>(
      s: State<K, V>, names: seq<K>, replacement: map<K, V>, factory: nat -> Option<bool>, env: Environment):
    (ReplacementResult<K, V>, State<K, V>)
    requires s.resources.Keys == s.configuration.Keys && Lists(names, s.configuration.Keys + replacement.Keys)
  {
    var changes := Diff(names, s.configuration, replacement);
    DiffIsDiff(names, s.configuration, replacement);
    if s.closed then (Failed, s)
    else if forall i | 0 <= i < |changes| :: changes[i].action == Unchanged then (Done(changes, []), s)
    else Transacted(s, changes, replacement, factory, env)
  }

  /** `order` is a way to sort. */
  ghost predicate Sorts<K(!new)>(order: set<K> -> seq<K>) {
    forall keys :: Lists(order(keys), keys)
  }

  /** `start`: the first call replaces the empty set by the initial configuration. */
  function Start<K(!new), V(==)>(
      s: State<K, V>, order: set<K> -> seq<K>, initial: map<K, V>, factory: nat -> Option<bool>, env: Environment):
    (ReplacementResult<K, V>, State<K, V>)
    requires Sorts(order) && s.resources.Keys == s.configuration.Keys
  {
    if s.closed then (Failed, s)
    else if s.started then (Done(Diff(order(s.configuration.Keys), s.configuration, s.configuration), []), s)
    else
      var (result, s') := Replace(s, order(s.configuration.Keys + initial.Keys), initial, factory, env);
      (result, s'.(started := result.Done?))
  }

  /** `close`: clean up every resource, last name first; `failures` is what the raised error reports. */
  function Close<K, V>(s: State<K, V>, names: seq<K>, env: Environment): (seq<CleanupFailure<K>>, State<K, V>)
    requires Lists(names, s.resources.Keys)
  {
    if s.closed then ([], s) else
      var (failures, m) := CleanAll(HeldJobs(names, s.resources, 0), s.machine, env);
      (failures, State(map[], map[], s.next, false, true, m))
  }

  // A replacement that fails.

  /** Names the request keeps, with another destination. */
  ghost predicate Changes<K, V>(s: State<K, V>, replacement: map<K, V>, n: K) {
    n in s.configuration && n in replacement && s.configuration[n] != replacement[n]
  }

  /** Names the request changes or leaves out. */
  ghost predicate Drops<K, V>(s: State<K, V>, replacement: map<K, V>, n: K) {
    n in s.configuration && Lookup(replacement, n) != Some(s.configuration[n])
  }

  /** The committed resources the request replaces. */
  ghost function ReplacedSerials<K, V>(s: State<K, V>, replacement: map<K, V>): set<nat> {
    set n | n in s.resources && Changes(s, replacement, n) :: s.resources[n].serial
  }

  /** The candidates cover exactly the wanted changes. */
  lemma BuiltIsPrepared<K, V>(
      s: State<K, V>, changes: seq<Change<K, V>>, replacement: map<K, V>, factory: nat -> Option<bool>,
      env: Environment, b: Building<K, V>)
    requires Sound(s, env.routerRunning) && IsDiff(changes, s.configuration, replacement)
    requires Built(b.candidates, changes, |changes|, s.next, b.next, replacement, factory)
    ensures Supplied(changes, b.candidates)
    ensures Prepared(Activation(changes, b.candidates, s.resources, s.machine, env), s.next, b.next)
  {
    BuiltCovers(changes, b.candidates);
  }

  lemma BuiltCovers<K, V>(changes: seq<Change<K, V>>, candidates: map<K, Resources<V>>)
    requires DistinctNames(changes)
    requires candidates.Keys == NamesOf(changes, |changes|, {Added, Action.Replaced})
    ensures forall i | 0 <= i < |changes| :: Wanted(changes[i]) <==> changes[i].name in candidates
  {
    forall i | 0 <= i < |changes| ensures Wanted(changes[i]) <==> changes[i].name in candidates {
      if changes[i].name in candidates {
        var j :| 0 <= j < |changes| && changes[j].name == changes[i].name
                 && changes[j].action in {Added, Action.Replaced};
        SameNameSameIndex(changes, i, j);
      }
    }
  }

  lemma SameNameSameIndex<K, V>(changes: seq<Change<K, V>>, i: nat, j: nat)
    requires DistinctNames(changes) && i < |changes| && j < |changes| && changes[i].name == changes[j].name
    ensures i == j
  {
    assert i == j || NamesApart(changes, i, j);
  }

  /** The stages are for fresh candidates, and for the committed resources the request replaces. */
  ghost predicate StagesFor<K, V>(s: State<K, V>, replacement: map<K, V>, staged: seq<Stage<V>>, next: nat) {
    forall i | 0 <= i < |staged| ::
      && s.next <= staged[i].resources.serial < next
      && (staged[i].previous.Some? ==> staged[i].previous.value.serial in ReplacedSerials(s, replacement))
  }

  lemma StagesAreForChanges<K, V>(
      s: State<K, V>, replacement: map<K, V>, a: Activation<K, V>, p: Progress<V>, next: nat)
    requires s.resources.Keys == s.configuration.Keys && a.resources == s.resources
    requires IsDiff(a.changes, s.configuration, replacement) && Prepared(a, s.next, next)
    requires StagesOf(a, p.stages, p.from)
    ensures StagesFor(s, replacement, p.stages, next)
  {
    forall i | 0 <= i < |p.stages| && p.stages[i].previous.Some?
      ensures p.stages[i].previous.value.serial in ReplacedSerials(s, replacement)
    {
      var n := a.changes[p.from[i]].name;
      assert a.changes[p.from[i]] == ChangeFor(n, s.configuration, replacement);
      assert n in s.resources && Changes(s, replacement, n);
    }
  }

  ghost predicate AllUndone<V>(staged: seq<Stage<V>>, before: World, w: World, running: bool, clean: bool) {
    forall i | 0 <= i < |staged| :: Undone(staged[i], before, w, running, clean)
  }

  lemma SettledAgain<K, V>(
      s: State<K, V>, replacement: map<K, V>, n: K, staged: seq<Stage<V>>, next: nat, w: World, running: bool,
      clean: bool)
    requires Sound(s, running) && n in s.resources && StagesFor(s, replacement, staged, next)
    requires AllUndone(staged, s.machine.world, w, running, clean)
    requires SameOutside(s.machine.world, w, Touched(staged))
    ensures Settled(s.resources[n], w, running)
  {
    var x := s.resources[n].serial;
    assert Settled(s.resources[n], s.machine.world, running);
    if x in Touched(staged) {
      var i :| 0 <= i < |staged| && x in staged[i].Serials();
      assert Undone(staged[i], s.machine.world, w, running, clean);
    }
  }

  /** After a rollback nothing leaks, and everything committed is settled. */
  lemma RollbackKeepsNoLeak<K, V>(
      s: State<K, V>, replacement: map<K, V>, staged: seq<Stage<V>>, next: nat, w: World, running: bool, clean: bool)
    requires Sound(s, running) && StagesFor(s, replacement, staged, next)
    requires AllUndone(staged, s.machine.world, w, running, clean)
    requires SameOutside(s.machine.world, w, Touched(staged))
    ensures NoLeak(s.resources, w, running)
  {
    forall n | n in s.resources ensures Settled(s.resources[n], w, running) {
      SettledAgain(s, replacement, n, staged, next, w, running, clean);
    }
    forall x: nat ensures Accounted(x, s.resources, w) {
      assert Accounted(x, s.resources, s.machine.world);
      if x in Touched(staged) {
        var i :| 0 <= i < |staged| && x in staged[i].Serials();
        assert Undone(staged[i], s.machine.world, w, running, clean);
      }
    }
  }

  /** A clean rollback attaches what was attached, and perhaps some of what the request replaces. */
  lemma RollbackReattaches<K, V>(
      s: State<K, V>, replacement: map<K, V>, staged: seq<Stage<V>>, next: nat, w: World, running: bool)
    requires Sound(s, running) && StagesFor(s, replacement, staged, next)
    requires AllUndone(staged, s.machine.world, w, running, true)
    requires SameOutside(s.machine.world, w, Touched(staged))
    ensures Attached(s.machine.world) <= Attached(w) <= Attached(s.machine.world) + ReplacedSerials(s, replacement)
  {
    forall x: nat
      ensures At(s.machine.world, x).attached ==> At(w, x).attached
      ensures At(w, x).attached ==> At(s.machine.world, x).attached || x in ReplacedSerials(s, replacement)
    {
      if x in Touched(staged) {
        var i :| 0 <= i < |staged| && x in staged[i].Serials();
        assert Undone(staged[i], s.machine.world, w, running, true);
      }
    }
    assert forall x: nat :: x in Attached(w) <==> At(w, x).attached;
    assert forall x: nat :: x in Attached(s.machine.world) <==> At(s.machine.world, x).attached;
  }

  // A replacement that succeeds.

  /** Everything known when all stages have succeeded and nothing has been cleaned up. */
  ghost predicate FullyStaged<K, V>(
      s: State<K, V>, replacement: map<K, V>, a: Activation<K, V>, p: Progress<V>, next: nat)
  {
    && Sound(s, a.environment.routerRunning)
    && IsDiff(a.changes, s.configuration, replacement)
    && a.resources == s.resources && a.start == s.machine
    && Prepared(a, s.next, next) && s.next <= next
    && Progressed(a, p, |a.changes|) && !p.raised
  }

  /** A change that is not wanted has no stage. */
  lemma UnwantedUntouched<K, V>(
      s: State<K, V>, replacement: map<K, V>, a: Activation<K, V>, p: Progress<V>, next: nat, i: nat)
    requires FullyStaged(s, replacement, a, p, next)
    requires i < |a.changes| && !Wanted(a.changes[i]) && a.changes[i].name in a.resources
    ensures a.resources[a.changes[i].name].serial !in Touched(p.stages)
  {
    UnstagedUntouched(a, p.stages, p.from, s.next, next, i);
  }

  /** A wanted change has an activated stage. */
  lemma WantedActivated<K, V>(
      s: State<K, V>, replacement: map<K, V>, a: Activation<K, V>, p: Progress<V>, next: nat, i: nat)
    returns (j: nat)
    requires FullyStaged(s, replacement, a, p, next) && i < |a.changes| && Wanted(a.changes[i])
    ensures j < |p.stages| && a.changes[i].name in a.candidates
    ensures p.stages[j].resources == a.candidates[a.changes[i].name]
    ensures p.stages[j].previous == Lookup(a.resources, a.changes[i].name)
    ensures Staged(p.stages[j], s.machine.world, p.machine.world)
    ensures Activated(p.stages[j], p.machine.world, a.environment.routerRunning)
  {
    assert i in p.from;
    j :| 0 <= j < |p.from| && p.from[j] == i;
  }

  /**
    What staging has made of a resource that is to be cleaned up: a removed one is as it was, a
    replaced one is detached.
   */
  lemma RetiredIsReady<K, V>(
      s: State<K, V>, replacement: map<K, V>, a: Activation<K, V>, p: Progress<V>, next: nat, i: nat)
    requires FullyStaged(s, replacement, a, p, next) && i < |a.changes| && Retired(a.changes[i])
    ensures a.changes[i].name in s.resources
    ensures var job := JobOf(a.changes[i], s.resources);
            var st, st' := At(s.machine.world, job.resources.serial), At(p.machine.world, job.resources.serial);
            && Ready(job, st')
            && st' == (if job.attached then st else st.(attached := false))
            && (job.attached ==> job.resources.serial !in Touched(p.stages))
  {
    var n := a.changes[i].name;
    assert a.changes[i] == ChangeFor(n, s.configuration, replacement);
    assert Settled(s.resources[n], s.machine.world, a.environment.routerRunning);
    if a.changes[i].action == Removed {
      UnwantedUntouched(s, replacement, a, p, next, i);
    } else {
      var j := WantedActivated(s, replacement, a, p, next, i);
    }
  }

  /** The cleanup jobs of the replacement. */
  lemma ReadyToClean<K, V>(s: State<K, V>, replacement: map<K, V>, a: Activation<K, V>, p: Progress<V>, next: nat)
    returns (jobs: seq<Job<K, V>>)
    requires FullyStaged(s, replacement, a, p, next)
    requires forall i | 0 <= i < |a.changes| && Retired(a.changes[i]) :: a.changes[i].name in s.resources
    ensures jobs == RetiredJobs(a.changes, s.resources, 0) && AllReady(jobs, p.machine.world, s.resources)
    ensures forall j | 0 <= j < |jobs| :: IsRetired(a.changes, s.resources, 0, jobs[j])
    ensures forall i | 0 <= i < |a.changes| && Retired(a.changes[i]) :: JobOf(a.changes[i], s.resources) in jobs
  {
    jobs := RetiredJobsAre(a.changes, s.resources, 0);
    forall j | 0 <= j < |jobs| ensures Ready(jobs[j], At(p.machine.world, jobs[j].resources.serial)) {
      assert IsRetired(a.changes, s.resources, 0, jobs[j]);
      var i :| 0 <= i < |a.changes| && Retired(a.changes[i]) && jobs[j] == JobOf(a.changes[i], s.resources);
      RetiredIsReady(s, replacement, a, p, next, i);
    }
  }

  /** What is known when the cleanup is over. */
  ghost predicate CleanedUp<K, V>(
      s: State<K, V>, replacement: map<K, V>, a: Activation<K, V>, p: Progress<V>, next: nat,
      jobs: seq<Job<K, V>>, failures: seq<CleanupFailure<K>>, m: Machine)
  {
    && FullyStaged(s, replacement, a, p, next)
    && (forall i | 0 <= i < |a.changes| && Retired(a.changes[i]) :: a.changes[i].name in s.resources)
    && (forall j | 0 <= j < |jobs| :: IsRetired(a.changes, s.resources, 0, jobs[j]))
    && (forall i | 0 <= i < |a.changes| && Retired(a.changes[i]) :: JobOf(a.changes[i], s.resources) in jobs)
    && AllEnded(jobs, failures, p.machine, m, s.resources)
  }

  /** Neither a candidate nor an unchanged resource is cleaned up. */
  lemma CleanedAreRetired<K, V>(
      s: State<K, V>, replacement: map<K, V>, a: Activation<K, V>, p: Progress<V>, next: nat,
      jobs: seq<Job<K, V>>, failures: seq<CleanupFailure<K>>, m: Machine, x: nat)
    returns (n: K)
    requires CleanedUp(s, replacement, a, p, next, jobs, failures, m) && x in JobSerials(jobs)
    ensures n in s.resources && Drops(s, replacement, n) && s.resources[n].serial == x
  {
    var j :| 0 <= j < |jobs| && jobs[j].resources.serial == x;
    assert IsRetired(a.changes, s.resources, 0, jobs[j]);
    var i :| 0 <= i < |a.changes| && Retired(a.changes[i]) && jobs[j] == JobOf(a.changes[i], s.resources);
    n := a.changes[i].name;
    assert a.changes[i] == ChangeFor(n, s.configuration, replacement);
  }

  lemma CandidateSettled<K, V>(
      s: State<K, V>, replacement: map<K, V>, a: Activation<K, V>, p: Progress<V>, next: nat,
      jobs: seq<Job<K, V>>, failures: seq<CleanupFailure<K>>, m: Machine, i: nat)
    requires CleanedUp(s, replacement, a, p, next, jobs, failures, m)
    requires i < |a.changes| && a.changes[i].name in a.candidates
    ensures Settled(a.candidates[a.changes[i].name], m.world, a.environment.routerRunning)
  {
    var x := a.candidates[a.changes[i].name].serial;
    var j := WantedActivated(s, replacement, a, p, next, i);
    if x in JobSerials(jobs) {
      var _ := CleanedAreRetired(s, replacement, a, p, next, jobs, failures, m, x);
    }
  }

  lemma KeptUnstaged<K, V>(
      s: State<K, V>, replacement: map<K, V>, a: Activation<K, V>, p: Progress<V>, next: nat, n: K)
    requires FullyStaged(s, replacement, a, p, next)
    requires n in s.resources && !Drops(s, replacement, n)
    ensures s.resources[n].serial !in Touched(p.stages)
  {
    var i :| 0 <= i < |a.changes| && a.changes[i].name == n;
    assert a.changes[i] == ChangeFor(n, s.configuration, replacement);
    UnwantedUntouched(s, replacement, a, p, next, i);
  }

  lemma KeptNotCleaned<K, V>(
      s: State<K, V>, replacement: map<K, V>, a: Activation<K, V>, p: Progress<V>, next: nat,
      jobs: seq<Job<K, V>>, failures: seq<CleanupFailure<K>>, m: Machine, n: K)
    requires CleanedUp(s, replacement, a, p, next, jobs, failures, m)
    requires n in s.resources && !Drops(s, replacement, n)
    ensures s.resources[n].serial !in JobSerials(jobs)
  {
    forall x | x in JobSerials(jobs) ensures x != s.resources[n].serial {
      var d := CleanedAreRetired(s, replacement, a, p, next, jobs, failures, m, x);
      assert SerialsApart(s.resources, d, n);
    }
  }

  lemma KeptSettled<K, V>(
      s: State<K, V>, replacement: map<K, V>, a: Activation<K, V>, p: Progress<V>, next: nat,
      jobs: seq<Job<K, V>>, failures: seq<CleanupFailure<K>>, m: Machine, n: K)
    requires CleanedUp(s, replacement, a, p, next, jobs, failures, m)
    requires n in s.resources && !Drops(s, replacement, n)
    ensures Settled(s.resources[n], m.world, a.environment.routerRunning)
  {
    KeptUnstaged(s, replacement, a, p, next, n);
    KeptNotCleaned(s, replacement, a, p, next, jobs, failures, m, n);
    SettledElsewhere(s.resources[n], s.machine, p.machine, m, Touched(p.stages), JobSerials(jobs),
                     a.environment.routerRunning);
  }

  lemma SettledElsewhere<V>(
      r: Resources<V>, m: Machine, mid: Machine, m': Machine, x: set<nat>, y: set<nat>, running: bool)
    requires Settled(r, m.world, running) && Operates(m, mid, x) && Operates(mid, m', y)
    requires r.serial !in x && r.serial !in y
    ensures Settled(r, m'.world, running)
  {
  }

  lemma CandidateIsCommitted<K, V>(
      s: State<K, V>, replacement: map<K, V>, a: Activation<K, V>, p: Progress<V>, next: nat, n: K)
    requires FullyStaged(s, replacement, a, p, next) && n in a.candidates
    requires exists i | 0 <= i < |a.changes| :: a.changes[i].name == n
    ensures a.candidates[n].serial in Serials(CommittedTable(replacement, a.candidates, s.resources))
  {
    var i :| 0 <= i < |a.changes| && a.changes[i].name == n;
    assert a.changes[i] == ChangeFor(n, s.configuration, replacement);
    assert n in CommittedTable(replacement, a.candidates, s.resources);
  }

  /** A resource that was committed stays so, or is cleaned up. */
  lemma HeldIsAccounted<K, V>(
      s: State<K, V>, replacement: map<K, V>, a: Activation<K, V>, p: Progress<V>, next: nat,
      jobs: seq<Job<K, V>>, failures: seq<CleanupFailure<K>>, m: Machine, n: K)
    requires CleanedUp(s, replacement, a, p, next, jobs, failures, m) && n in s.resources
    ensures s.resources[n].serial in Serials(CommittedTable(replacement, a.candidates, s.resources)) + JobSerials(jobs)
  {
    var i :| 0 <= i < |a.changes| && a.changes[i].name == n;
    assert a.changes[i] == ChangeFor(n, s.configuration, replacement);
    if Retired(a.changes[i]) {
      var job := JobOf(a.changes[i], s.resources);
      assert job in jobs && job.resources.serial == s.resources[n].serial;
    } else {
      assert n !in a.candidates;
      assert n in CommittedTable(replacement, a.candidates, s.resources);
    }
  }

  lemma TouchedBelongs<K, V>(a: Activation<K, V>, staged: seq<Stage<V>>, from: seq<nat>, x: nat) returns (n: K)
    requires StagesOf(a, staged, from) && x in Touched(staged)
    ensures exists i | 0 <= i < |a.changes| :: a.changes[i].name == n
    ensures (n in a.candidates && x == a.candidates[n].serial) || (n in a.resources && x == a.resources[n].serial)
  {
    var j :| 0 <= j < |staged| && x in staged[j].Serials();
    n := a.changes[from[j]].name;
  }

  /** What a stage was about is committed or cleaned up. */
  lemma TouchedIsAccounted<K, V>(
      s: State<K, V>, replacement: map<K, V>, a: Activation<K, V>, p: Progress<V>, next: nat,
      jobs: seq<Job<K, V>>, failures: seq<CleanupFailure<K>>, m: Machine, x: nat)
    requires CleanedUp(s, replacement, a, p, next, jobs, failures, m) && x in Touched(p.stages)
    ensures x in Serials(CommittedTable(replacement, a.candidates, s.resources)) + JobSerials(jobs)
  {
    var n := TouchedBelongs(a, p.stages, p.from, x);
    if n in a.candidates && x == a.candidates[n].serial {
      CandidateIsCommitted(s, replacement, a, p, next, n);
    } else {
      HeldIsAccounted(s, replacement, a, p, next, jobs, failures, m, n);
    }
  }

  lemma CommitKeepsNoLeak<K, V>(
      s: State<K, V>, replacement: map<K, V>, a: Activation<K, V>, p: Progress<V>, next: nat,
      jobs: seq<Job<K, V>>, failures: seq<CleanupFailure<K>>, m: Machine)
    requires CleanedUp(s, replacement, a, p, next, jobs, failures, m)
    ensures NoLeak(CommittedTable(replacement, a.candidates, s.resources), m.world, a.environment.routerRunning)
  {
    var committed := CommittedTable(replacement, a.candidates, s.resources);
    forall n | n in committed ensures Settled(committed[n], m.world, a.environment.routerRunning) {
      var i :| 0 <= i < |a.changes| && a.changes[i].name == n;
      if n in a.candidates {
        CandidateSettled(s, replacement, a, p, next, jobs, failures, m, i);
      } else {
        assert a.changes[i] == ChangeFor(n, s.configuration, replacement);
        KeptSettled(s, replacement, a, p, next, jobs, failures, m, n);
      }
    }
    forall x: nat ensures Accounted(x, committed, m.world) {
      if x in JobSerials(jobs) {
        var j :| 0 <= j < |jobs| && jobs[j].resources.serial == x;
        assert Ended(jobs[j], failures, p.machine, m);
      } else if x in Touched(p.stages) {
        TouchedIsAccounted(s, replacement, a, p, next, jobs, failures, m, x);
      } else if x in Serials(s.resources) {
        var n :| n in s.resources && s.resources[n].serial == x;
        HeldIsAccounted(s, replacement, a, p, next, jobs, failures, m, n);
      } else {
        assert Accounted(x, s.resources, s.machine.world);
      }
    }
  }

  // What a replacement does.

  /**
    The committed table keeps what the request left unchanged and holds fresh resources, built
    from the request, for the rest.
   */
  ghost predicate Fulfils<K, V>(s: State<K, V>, s': State<K, V>, replacement: map<K, V>) {
    && s'.configuration == replacement && s'.resources.Keys == replacement.Keys
    && forall n | n in replacement ::
         if Lookup(s.configuration, n) == Some(replacement[n]) then Lookup(s.resources, n) == Some(s'.resources[n])
         else s'.resources[n].destination == replacement[n] && s.next <= s'.resources[n].serial
  }

  ghost predicate BuiltIn<K, V>(s: State<K, V>, x: nat) {
    s.next <= x
  }

  /** What a replacement may operate on: what it builds, and what the request changes or leaves out. */
  ghost function Concerned<K, V>(s: State<K, V>, s': State<K, V>, replacement: map<K, V>): set<nat> {
    (set x | s.next <= x < s'.next && BuiltIn(s, x))
    + (set n | n in s.resources && Drops(s, replacement, n) :: s.resources[n].serial)
  }

  /** What becomes of a committed resource the request changes or leaves out. */
  ghost predicate Dismissed<K, V>(
      s: State<K, V>, s': State<K, V>, replacement: map<K, V>, failures: seq<CleanupFailure<K>>, n: K)
    requires n in s.resources
  {
    var x := s.resources[n].serial;
    Ends(Job(n, s.resources[n], n !in replacement), At(s.machine.world, x), At(s'.machine.world, x), failures,
         Swallowed(s.machine, s'.machine, x))
  }

  /** At most one operation of the call raised, the one that made it fail: no rollback step did. */
  ghost predicate RolledBackCleanly<K, V>(s: State<K, V>, s': State<K, V>) {
    |RaisedOps(s'.machine.log)| <= |RaisedOps(s.machine.log)| + 1
  }

  /**
    An exception has a reason and leaves the committed state alone. Unless a rollback step raised
    as well, what was attached still is, and nothing else but some of what the request replaces.
   */
  ghost predicate LeftAlone<K, V>(
      s: State<K, V>, s': State<K, V>, replacement: map<K, V>, factory: nat -> Option<bool>)
  {
    && s' == s.(next := s'.next, machine := s'.machine)
    && (s.closed || (s.next < s'.next && factory(s'.next - 1).None?)
        || |RaisedOps(s'.machine.log)| > |RaisedOps(s.machine.log)|)
    && (RolledBackCleanly(s, s') ==>
          && Attached(s.machine.world) <= Attached(s'.machine.world)
          && Attached(s'.machine.world) <= Attached(s.machine.world) + ReplacedSerials(s, replacement))
  }

  /**
    The changes reported are the difference the request makes: one per name, and applying them
    gives the request. They contain a change exactly if the request is another configuration.
   */
  ghost predicate ReportsChanges<K, V>(
      changes: seq<Change<K, V>>, configuration: map<K, V>, replacement: map<K, V>)
  {
    && IsDiff(changes, configuration, replacement)
    && ApplyChanges(configuration, changes) == replacement
    && (Changed(changes) <==> configuration != replacement)
  }

  /**
    A return commits exactly the request. The operations that raised are exactly the cleanup steps
    it reports, and what it no longer needs has ended except as those failures say.
   */
  ghost predicate Fulfilled<K, V>(
      s: State<K, V>, s': State<K, V>, replacement: map<K, V>, factory: nat -> Option<bool>,
      failures: seq<CleanupFailure<K>>)
  {
    && !s.closed && s'.started == s.started && !s'.closed
    && Fulfils(s, s', replacement)
    && (forall x | s.next <= x < s'.next :: factory(x).Some?)
    && Reports(failures, s.machine, s'.machine, s.resources)
    && (forall n | n in s.resources && Drops(s, replacement, n) :: Dismissed(s, s', replacement, failures, n))
  }

  /** Either way only resources the request concerns are operated on. */
  ghost predicate Effects<K, V>(
      s: State<K, V>, s': State<K, V>, replacement: map<K, V>, factory: nat -> Option<bool>,
      result: ReplacementResult<K, V>)
  {
    && s.next <= s'.next
    && Operates(s.machine, s'.machine, Concerned(s, s', replacement))
    && match result
       case Failed => LeftAlone(s, s', replacement, factory)
       case Done(_, failures) => Fulfilled(s, s', replacement, factory, failures)
  }

  /** What a replacement does, and what it reports when it returns. */
  ghost predicate Outcome<K, V>(
      s: State<K, V>, s': State<K, V>, replacement: map<K, V>, factory: nat -> Option<bool>,
      result: ReplacementResult<K, V>)
  {
    && Effects(s, s', replacement, factory, result)
    && (result.Done? ==> ReportsChanges(result.changes, s.configuration, replacement))
  }

  lemma OperatesWithin(m: Machine, m': Machine, x: set<nat>, y: set<nat>)
    requires Operates(m, m', x) && x <= y
    ensures Operates(m, m', y)
  {
  }

  lemma StillBounded(m: Machine, m': Machine, x: set<nat>, next: nat, next': nat)
    requires Bounded(m.world, next) && Operates(m, m', x) && next <= next'
    requires forall s | s in x :: s < next'
    ensures Bounded(m'.world, next')
  {
    forall s: nat | s >= next' ensures At(m'.world, s) == IDLE {
      assert s !in x;
    }
  }

  lemma TouchedIsConcerned<K, V>(
      s: State<K, V>, s': State<K, V>, replacement: map<K, V>, staged: seq<Stage<V>>, running: bool)
    requires Sound(s, running) && StagesFor(s, replacement, staged, s'.next)
    ensures Touched(staged) <= Concerned(s, s', replacement)
  {
    forall x | x in Touched(staged) ensures x in Concerned(s, s', replacement) {
      var i :| 0 <= i < |staged| && x in staged[i].Serials();
      if x == staged[i].resources.serial {
        assert BuiltIn(s, x);
      } else {
        var n :| n in s.resources && Changes(s, replacement, n) && s.resources[n].serial == x;
        assert Drops(s, replacement, n);
      }
    }
  }

  lemma ConcernedBounded<K, V>(s: State<K, V>, s': State<K, V>, replacement: map<K, V>, running: bool)
    requires Sound(s, running) && s.next <= s'.next
    ensures forall x | x in Concerned(s, s', replacement) :: x < s'.next
  {
  }

  /** A step of the staging loop raised. */
  lemma FailureEffects<K, V>(
      s: State<K, V>, replacement: map<K, V>, a: Activation<K, V>, p: Progress<V>, next: nat,
      factory: nat -> Option<bool>)
    returns (s': State<K, V>)
    requires Sound(s, a.environment.routerRunning) && IsDiff(a.changes, s.configuration, replacement)
    requires a.resources == s.resources && a.start == s.machine && s.next <= next
    requires Prepared(a, s.next, next) && Progressed(a, p, |a.changes|) && p.raised
    ensures s' == s.(next := next, machine := Rollback(p.stages, 0, p.machine, a.environment))
    ensures Sound(s', a.environment.routerRunning) && Effects(s, s', replacement, factory, Failed)
  {
    var env := a.environment;
    s' := s.(next := next, machine := Rollback(p.stages, 0, p.machine, env));
    StagesAreDisjoint(a, p.stages, p.from, s.next, next);
    StagesAreForChanges(s, replacement, a, p, next);
    RollbackUndoes(p.stages, 0, s.machine.world, p.machine, env);
    RolledBackEffects(s, s', replacement, p, env, factory);
  }

  lemma RolledBackEffects<K, V>(
      s: State<K, V>, s': State<K, V>, replacement: map<K, V>, p: Progress<V>, env: Environment,
      factory: nat -> Option<bool>)
    requires Sound(s, env.routerRunning) && s.next <= s'.next && s' == s.(next := s'.next, machine := s'.machine)
    requires StagesFor(s, replacement, p.stages, s'.next)
    requires Operates(s.machine, p.machine, Touched(p.stages)) && Records(s.machine, p.machine)
    requires |RaisedOps(p.machine.log)| == |RaisedOps(s.machine.log)| + 1
    requires RolledBack(p.stages, 0, s.machine.world, p.machine, s'.machine, env.routerRunning)
    ensures Sound(s', env.routerRunning) && Effects(s, s', replacement, factory, Failed)
  {
    var m := s'.machine;
    OperatesComposes(s.machine, p.machine, m, Touched(p.stages), Touched(p.stages));
    TouchedIsConcerned(s, s', replacement, p.stages, env.routerRunning);
    OperatesWithin(s.machine, m, Touched(p.stages) + Touched(p.stages), Concerned(s, s', replacement));
    ConcernedBounded(s, s', replacement, env.routerRunning);
    StillBounded(s.machine, m, Concerned(s, s', replacement), s.next, s'.next);
    RollbackKeepsNoLeak(s, replacement, p.stages, s'.next, m.world, env.routerRunning, Clean(p.machine, m));
    if RolledBackCleanly(s, s') {
      assert Clean(p.machine, m);
      RollbackReattaches(s, replacement, p.stages, s'.next, m.world, env.routerRunning);
    }
  }

  /** What has been dismissed, from what the cleanup made of it. */
  lemma RetiredDismissed<K, V>(
      s: State<K, V>, s': State<K, V>, replacement: map<K, V>, a: Activation<K, V>, p: Progress<V>, next: nat,
      jobs: seq<Job<K, V>>, failures: seq<CleanupFailure<K>>, n: K)
    requires CleanedUp(s, replacement, a, p, next, jobs, failures, s'.machine)
    requires n in s.resources && Drops(s, replacement, n)
    ensures Dismissed(s, s', replacement, failures, n)
  {
    var i :| 0 <= i < |a.changes| && a.changes[i].name == n;
    assert a.changes[i] == ChangeFor(n, s.configuration, replacement);
    RetiredIsReady(s, replacement, a, p, next, i);
    JobHasEnded(jobs, failures, p.machine, s'.machine, s.resources, JobOf(a.changes[i], s.resources));
    EndsAfterStaging(JobOf(a.changes[i], s.resources), s.machine, p.machine, s'.machine, Touched(p.stages), failures);
  }

  lemma JobHasEnded<K, V>(
      jobs: seq<Job<K, V>>, failures: seq<CleanupFailure<K>>, m: Machine, m': Machine, resources: map<K, Resources<V>>,
      job: Job<K, V>)
    requires AllEnded(jobs, failures, m, m', resources) && job in jobs
    ensures Ended(job, failures, m, m') && m.log <= m'.log
  {
    var j :| 0 <= j < |jobs| && jobs[j] == job;
    assert Ended(jobs[j], failures, m, m');
  }

  /** Staging left the sink of a removed name alone, and detached that of a replaced one. */
  lemma EndsAfterStaging<K, V>(
      job: Job<K, V>, m: Machine, mid: Machine, m': Machine, x: set<nat>, failures: seq<CleanupFailure<K>>)
    requires Operates(m, mid, x) && mid.log <= m'.log && Ended(job, failures, mid, m')
    requires var st := At(m.world, job.resources.serial);
             At(mid.world, job.resources.serial) == if job.attached then st else st.(attached := false)
    requires job.attached ==> job.resources.serial !in x
    ensures var y := job.resources.serial;
            Ends(job, At(m.world, y), At(m'.world, y), failures, Swallowed(m, m', y))
  {
    SwallowedExtends(m, mid, m', job.resources.serial);
    if job.attached {
      NotSwallowedElsewhere(m, mid, x, job.resources.serial);
    }
  }

  lemma CommitFulfils<K, V>(
      s: State<K, V>, s': State<K, V>, replacement: map<K, V>, candidates: map<K, Resources<V>>,
      changes: seq<Change<K, V>>, factory: nat -> Option<bool>)
    requires Committed(s.configuration, s.resources, s.next) && IsDiff(changes, s.configuration, replacement)
    requires Built(candidates, changes, |changes|, s.next, s'.next, replacement, factory)
    requires s'.configuration == replacement && s'.resources == CommittedTable(replacement, candidates, s.resources)
    ensures Fulfils(s, s', replacement) && Committed(replacement, s'.resources, s'.next)
  {
    NamesByAction(changes, s.configuration, replacement);
    assert candidates.Keys == set n | n in replacement && Lookup(s.configuration, n) != Some(replacement[n]);
    CandidatesFulfil(s, s', replacement, candidates);
  }

  lemma CandidatesFulfil<K, V>(
      s: State<K, V>, s': State<K, V>, replacement: map<K, V>, candidates: map<K, Resources<V>>)
    requires Committed(s.configuration, s.resources, s.next) && s.next <= s'.next
    requires candidates.Keys == set n | n in replacement && Lookup(s.configuration, n) != Some(replacement[n])
    requires forall n | n in candidates :: s.next <= candidates[n].serial < s'.next
    requires forall n | n in candidates :: candidates[n].destination == replacement[n]
    requires SerialsUnique(candidates)
    requires s'.configuration == replacement && s'.resources == CommittedTable(replacement, candidates, s.resources)
    ensures Fulfils(s, s', replacement) && Committed(replacement, s'.resources, s'.next)
  {
    var committed := s'.resources;
    forall m, n | m in committed && n in committed ensures SerialsApart(committed, m, n) {
      assert m in candidates && n in candidates ==> SerialsApart(candidates, m, n);
      assert m in s.resources && n in s.resources ==> SerialsApart(s.resources, m, n);
    }
  }

  /** The table is committed, and what it no longer holds has been cleaned up. */
  lemma SuccessIsSound<K, V>(
      s: State<K, V>, s': State<K, V>, replacement: map<K, V>, a: Activation<K, V>, p: Progress<V>,
      jobs: seq<Job<K, V>>, failures: seq<CleanupFailure<K>>)
    requires CleanedUp(s, replacement, a, p, s'.next, jobs, failures, s'.machine)
    requires s'.configuration == replacement && s'.resources == CommittedTable(replacement, a.candidates, s.resources)
    requires Committed(replacement, s'.resources, s'.next)
    requires Operates(s.machine, s'.machine, Concerned(s, s', replacement))
    ensures Sound(s', a.environment.routerRunning)
  {
    CommitKeepsNoLeak(s, replacement, a, p, s'.next, jobs, failures, s'.machine);
    ConcernedBounded(s, s', replacement, a.environment.routerRunning);
    StillBounded(s.machine, s'.machine, Concerned(s, s', replacement), s.next, s'.next);
  }

  /** Everything was staged, and what it replaces has been cleaned up. */
  lemma SuccessEffects<K, V>(
      s: State<K, V>, s': State<K, V>, replacement: map<K, V>, a: Activation<K, V>, p: Progress<V>,
      jobs: seq<Job<K, V>>, failures: seq<CleanupFailure<K>>, factory: nat -> Option<bool>)
    requires !s.closed && CleanedUp(s, replacement, a, p, s'.next, jobs, failures, s'.machine)
    requires Built(a.candidates, a.changes, |a.changes|, s.next, s'.next, replacement, factory)
    requires s' == s.(configuration := replacement, resources := CommittedTable(replacement, a.candidates, s.resources),
                      next := s'.next, machine := s'.machine)
    ensures Sound(s', a.environment.routerRunning)
    ensures Effects(s, s', replacement, factory, Done(a.changes, failures))
  {
    CommitFulfils(s, s', replacement, a.candidates, a.changes, factory);
    SuccessOperates(s, s', replacement, a, p, jobs, failures);
    SuccessIsSound(s, s', replacement, a, p, jobs, failures);
    assert RaisedOps(p.machine.log) == RaisedOps(s.machine.log);
    forall n | n in s.resources && Drops(s, replacement, n) ensures Dismissed(s, s', replacement, failures, n) {
      RetiredDismissed(s, s', replacement, a, p, s'.next, jobs, failures, n);
    }
  }

  lemma SuccessOperates<K, V>(
      s: State<K, V>, s': State<K, V>, replacement: map<K, V>, a: Activation<K, V>, p: Progress<V>,
      jobs: seq<Job<K, V>>, failures: seq<CleanupFailure<K>>)
    requires CleanedUp(s, replacement, a, p, s'.next, jobs, failures, s'.machine)
    ensures Operates(s.machine, s'.machine, Concerned(s, s', replacement))
  {
    StagesAreForChanges(s, replacement, a, p, s'.next);
    TouchedIsConcerned(s, s', replacement, p.stages, a.environment.routerRunning);
    forall x | x in JobSerials(jobs) ensures x in Concerned(s, s', replacement) {
      var _ := CleanedAreRetired(s, replacement, a, p, s'.next, jobs, failures, s'.machine, x);
    }
    OperatesComposes(s.machine, p.machine, s'.machine, Touched(p.stages), JobSerials(jobs));
    OperatesWithin(s.machine, s'.machine, Touched(p.stages) + JobSerials(jobs), Concerned(s, s', replacement));
  }

  /** Leaving everything as it is, because nothing changes, or because the call fails before it does anything. */
  lemma NothingDone<K, V>(
      s: State<K, V>, next: nat, replacement: map<K, V>, changes: seq<Change<K, V>>, factory: nat -> Option<bool>)
    requires s.resources.Keys == s.configuration.Keys && s.next <= next
    ensures s.closed || (s.next < next && factory(next - 1).None?) ==>
              Effects(s, s.(next := next), replacement, factory, ReplacementResult<K, V>.Failed)
    ensures !s.closed && s.configuration == replacement ==> Effects(s, s, replacement, factory, Done(changes, []))
  {
  }

  /** Everything was staged: commit, and clean up. */
  lemma StagedEffects<K, V>(
      s: State<K, V>, replacement: map<K, V>, a: Activation<K, V>, p: Progress<V>, next: nat,
      factory: nat -> Option<bool>)
    returns (failures: seq<CleanupFailure<K>>, s': State<K, V>)
    requires !s.closed && FullyStaged(s, replacement, a, p, next)
    requires Built(a.candidates, a.changes, |a.changes|, s.next, next, replacement, factory)
    requires forall i | 0 <= i < |a.changes| && Retired(a.changes[i]) :: a.changes[i].name in s.resources
    ensures (failures, s'.machine) == CleanAll(RetiredJobs(a.changes, s.resources, 0), p.machine, a.environment)
    ensures s' == s.(configuration := replacement, resources := CommittedTable(replacement, a.candidates, s.resources),
                     next := next, machine := s'.machine)
    ensures Sound(s', a.environment.routerRunning) && Effects(s, s', replacement, factory, Done(a.changes, failures))
  {
    var m;
    var jobs := ReadyToClean(s, replacement, a, p, next);
    failures, m := CleanAllEnds(jobs, p.machine, a.environment, s.resources);
    s' := s.(configuration := replacement, resources := CommittedTable(replacement, a.candidates, s.resources),
                 next := next, machine := m);
    SuccessEffects(s, s', replacement, a, p, jobs, failures, factory);
  }

  /** `replace` once it has found that something changes. */
  lemma TransactedEffects<K, V>(
      s: State<K, V>, changes: seq<Change<K, V>>, replacement: map<K, V>, factory: nat -> Option<bool>,
      env: Environment)
    returns (result: ReplacementResult<K, V>, s': State<K, V>)
    requires !s.closed && Sound(s, env.routerRunning) && IsDiff(changes, s.configuration, replacement)
    ensures (result, s') == Transacted(s, changes, replacement, factory, env)
    ensures result.Done? ==> result.changes == changes
    ensures Sound(s', env.routerRunning) && Effects(s, s', replacement, factory, result)
  {
    DiffIsUsable(changes, s.configuration, replacement);
    var b := BuildUpToEnds(changes, |changes|, s.next, factory, s.configuration, replacement);
    result, s' := Failed, s.(next := b.next);
    if b.raised {
      NothingDone(s, b.next, replacement, changes, factory);
    } else {
      BuiltIsPrepared(s, changes, replacement, factory, env, b);
      var a := Activation(changes, b.candidates, s.resources, s.machine, env);
      var p := UpToProgress(a, |changes|, s.next, b.next);
      if p.raised {
        s' := FailureEffects(s, replacement, a, p, b.next, factory);
      } else {
        var failures;
        failures, s' := StagedEffects(s, replacement, a, p, b.next, factory);
        result := Done(changes, failures);
      }
    }
  }

  lemma ReplaceEffects<K, V>(
      s: State<K, V>, names: seq<K>, replacement: map<K, V>, factory: nat -> Option<bool>, env: Environment)
    returns (result: ReplacementResult<K, V>, s': State<K, V>)
    requires Sound(s, env.routerRunning) && Lists(names, s.configuration.Keys + replacement.Keys)
    ensures (result, s') == Replace(s, names, replacement, factory, env)
    ensures result.Done? ==> result.changes == Diff(names, s.configuration, replacement)
    ensures Sound(s', env.routerRunning) && Effects(s, s', replacement, factory, result)
  {
    var changes := Diff(names, s.configuration, replacement);
    DiffIsDiff(names, s.configuration, replacement);
    if s.closed {
      result, s' := Failed, s;
      NothingDone(s, s.next, replacement, changes, factory);
    } else if forall i | 0 <= i < |changes| :: changes[i].action == Unchanged {
      result, s' := Done(changes, []), s;
      NothingChanged(changes, s.configuration, replacement);
      NothingDone(s, s.next, replacement, changes, factory);
    } else {
      result, s' := TransactedEffects(s, changes, replacement, factory, env);
    }
  }

  /** The difference of two tables is what is to be reported. */
  lemma DiffReports<K, V>(names: seq<K>, configuration: map<K, V>, replacement: map<K, V>)
    requires Lists(names, configuration.Keys + replacement.Keys)
    ensures ReportsChanges(Diff(names, configuration, replacement), configuration, replacement)
    ensures NamesIn(Diff(names, configuration, replacement)) == names
  {
    DiffIsDiff(names, configuration, replacement);
    DiffApplies(Diff(names, configuration, replacement), configuration, replacement);
  }

  /**
    The law of `replace`: from a sound state, under any factory and any fault pattern, the state
    stays sound and the outcome is one of the two; the changes reported are in the order visited.
   */
  lemma ReplaceOutcome<K, V>(
      s: State<K, V>, names: seq<K>, replacement: map<K, V>, factory: nat -> Option<bool>, env: Environment)
    returns (result: ReplacementResult<K, V>, s': State<K, V>)
    requires Sound(s, env.routerRunning) && Lists(names, s.configuration.Keys + replacement.Keys)
    ensures (result, s') == Replace(s, names, replacement, factory, env)
    ensures result.Done? ==> NamesIn(result.changes) == names
    ensures Sound(s', env.routerRunning) && Outcome(s, s', replacement, factory, result)
  {
    result, s' := ReplaceEffects(s, names, replacement, factory, env);
    DiffReports(names, s.configuration, replacement);
  }

  // What a close does.

  /** What becomes of a resource the coordinator held. */
  ghost predicate Released<K, V>(s: State<K, V>, s': State<K, V>, failures: seq<CleanupFailure<K>>, n: K)
    requires n in s.resources
  {
    var x := s.resources[n].serial;
    Ends(Job(n, s.resources[n], true), At(s.machine.world, x), At(s'.machine.world, x), failures,
         Swallowed(s.machine, s'.machine, x))
  }

  /** Nothing is held any more, and the operations that raised are exactly those reported. */
  ghost predicate Closed<K, V>(s: State<K, V>, s': State<K, V>, failures: seq<CleanupFailure<K>>) {
    if s.closed then s' == s && failures == [] else
      && s' == State(map[], map[], s.next, false, true, s'.machine)
      && Operates(s.machine, s'.machine, Serials(s.resources))
      && Reports(failures, s.machine, s'.machine, s.resources)
      && (forall n | n in s.resources :: Released(s, s', failures, n))
  }

  /** The law of `close`, under any fault pattern. */
  lemma CloseOutcome<K, V>(s: State<K, V>, names: seq<K>, env: Environment)
    requires Sound(s, env.routerRunning) && Lists(names, s.resources.Keys)
    ensures var (failures, s') := Close(s, names, env); Sound(s', env.routerRunning) && Closed(s, s', failures)
  {
    if !s.closed {
      var jobs := HeldJobsAre(names, s.resources);
      forall j | 0 <= j < |jobs| ensures Ready(jobs[j], At(s.machine.world, jobs[j].resources.serial)) {
        assert JobFor(jobs[j], s.resources);
        assert Settled(s.resources[jobs[j].name], s.machine.world, env.routerRunning);
      }
      var failures, m := CleanAllEnds(jobs, s.machine, env, s.resources);
      AllReleased(s, State(map[], map[], s.next, false, true, m), names, jobs, failures, env.routerRunning);
    }
  }

  lemma AllReleased<K, V>(
      s: State<K, V>, s': State<K, V>, names: seq<K>, jobs: seq<Job<K, V>>, failures: seq<CleanupFailure<K>>,
      running: bool)
    requires !s.closed && Sound(s, running) && Lists(names, s.resources.Keys)
    requires forall j | 0 <= j < |jobs| :: JobFor(jobs[j], s.resources)
    requires forall i | 0 <= i < |names| :: Job(names[i], s.resources[names[i]], true) in jobs
    requires AllEnded(jobs, failures, s.machine, s'.machine, s.resources)
    requires s' == State(map[], map[], s.next, false, true, s'.machine)
    ensures Sound(s', running) && Closed(s, s', failures)
  {
    forall x | x in JobSerials(jobs) ensures x in Serials(s.resources) {
      var j :| 0 <= j < |jobs| && jobs[j].resources.serial == x;
      assert JobFor(jobs[j], s.resources);
    }
    OperatesWithin(s.machine, s'.machine, JobSerials(jobs), Serials(s.resources));
    StillBounded(s.machine, s'.machine, Serials(s.resources), s.next, s.next);
    forall n | n in s.resources
      ensures Released(s, s', failures, n) && Gone(At(s'.machine.world, s.resources[n].serial))
    {
      var i :| 0 <= i < |names| && names[i] == n;
      var j :| 0 <= j < |jobs| && jobs[j] == Job(names[i], s.resources[names[i]], true);
      assert Ended(jobs[j], failures, s.machine, s'.machine);
    }
    forall x: nat ensures Accounted(x, s'.resources, s'.machine.world) {
      assert Accounted(x, s.resources, s.machine.world);
    }
  }
}
