/**
  Whole runs of a destination coordinator: what holds after any sequence of calls, when a failed
  replacement restores the attached sinks, and which sinks a close leaves running unnoticed.
 */
module CoordinatorRuns {
  import opened Prelude
  import opened Tables
  import opened Runtime
  import opened Staging
  import opened Cleanup
  import opened Candidates
  import opened Replacement

  datatype Call<K, V> = Starting | Replacing(replacement: map<K, V>) | Closing

  /** What the world outside decides, and the initial configuration. */
  datatype Setup<!K, V> = Setup(
    order: set<K> -> seq<K>, initial: map<K, V>, factory: nat -> Option<bool>, environment: Environment)

  /** The state of a coordinator just constructed. */
  function Fresh<K, V>(): State<K, V> {
    State(map[], map[], 0, false, false, Machine(map[], []))
  }

  function AfterCall<K(!new), V(==)>(s: State<K, V>, call: Call<K, V>, setup: Setup<K, V>): State<K, V>
    requires Sorts(setup.order) && s.resources.Keys == s.configuration.Keys
  {
    match call
    case Starting => Start(s, setup.order, setup.initial, setup.factory, setup.environment).1
    case Replacing(replacement) =>
      Replace(s, setup.order(s.configuration.Keys + replacement.Keys), replacement, setup.factory, setup.environment).1
    case Closing => Close(s, setup.order(s.resources.Keys), setup.environment).1
  }

  lemma CallKeepsSound<K(!new), V>(s: State<K, V>, call: Call<K, V>, setup: Setup<K, V>)
    requires Sorts(setup.order) && Sound(s, setup.environment.routerRunning)
    ensures Sound(AfterCall(s, call, setup), setup.environment.routerRunning)
  {
    match call
    case Starting =>
      if !s.closed && !s.started {
        var names := setup.order(s.configuration.Keys + setup.initial.Keys);
        var _, _ := ReplaceOutcome(s, names, setup.initial, setup.factory, setup.environment);
      }
    case Replacing(replacement) =>
      var names := setup.order(s.configuration.Keys + replacement.Keys);
      var _, _ := ReplaceOutcome(s, names, replacement, setup.factory, setup.environment);
    case Closing =>
      CloseOutcome(s, setup.order(s.resources.Keys), setup.environment);
  }

  /** The state after some calls; in every run nothing leaks. */
  ghost function After<K(!new), V>(calls: seq<Call<K, V>>, setup: Setup<K, V>): (s: State<K, V>)
    requires Sorts(setup.order)
    ensures Sound(s, setup.environment.routerRunning)
  {
    if calls == [] then Fresh() else
      var s := After(calls[..|calls| - 1], setup);
      CallKeepsSound(s, calls[|calls| - 1], setup);
      AfterCall(s, calls[|calls| - 1], setup)
  }

  // When a failed replacement restores the attached sinks.

  /** If this replacement fails, and no rollback step raises, the attached sinks are those from before. */
  ghost predicate Restores<K, V>(
      s: State<K, V>, names: seq<K>, replacement: map<K, V>, factory: nat -> Option<bool>, env: Environment)
    requires s.resources.Keys == s.configuration.Keys && Lists(names, s.configuration.Keys + replacement.Keys)
  {
    var (result, s') := Replace(s, names, replacement, factory, env);
    result.Failed? && RolledBackCleanly(s, s') ==> Attached(s'.machine.world) == Attached(s.machine.world)
  }

  /** The sinks of the names the request keeps with another destination are attached. */
  ghost predicate ReplacedAttached<K, V>(s: State<K, V>, replacement: map<K, V>)
    requires s.resources.Keys == s.configuration.Keys
  {
    forall n | n in s.resources && Changes(s, replacement, n) :: At(s.machine.world, s.resources[n].serial).attached
  }

  lemma AttachedIsRestored<K, V>(
      s: State<K, V>, names: seq<K>, replacement: map<K, V>, factory: nat -> Option<bool>, env: Environment)
    requires Sound(s, env.routerRunning) && Lists(names, s.configuration.Keys + replacement.Keys)
    requires ReplacedAttached(s, replacement)
    ensures Restores(s, names, replacement, factory, env)
  {
    var _, _ := ReplaceOutcome(s, names, replacement, factory, env);
    assert ReplacedSerials(s, replacement) <= Attached(s.machine.world);
  }

  /** Every attachment of sink `c` fails, and nothing else does. */
  function FailOnly(c: nat, running: bool): Environment {
    Environment(running, (k, op) => if op == Attach(c) then Fault(!running, true, false, false) else CALM)
  }

  lemma CalmReturns(m: Machine, op: Operation, c: nat, running: bool)
    requires op != Attach(c)
    ensures !Perform(m, op, FailOnly(c, running)).LastRaised()
  {
  }

  lemma StageOneCalm<V>(m: Machine, candidate: Resources<V>, previous: Option<Resources<V>>, c: nat, running: bool)
    ensures var (stage, m') := StageOne(m, candidate, previous, FailOnly(c, running));
            && (candidate.serial != c ==> !m'.LastRaised())
            && stage.previousDetached == previous.Some?
  {
    var env := FailOnly(c, running);
    var m1 := m;
    if previous.Some? {
      m1 := Perform(m, Detach(previous.value.serial, false), env);
      CalmReturns(m, Detach(previous.value.serial, false), c, running);
    }
    if candidate.serial != c {
      CalmReturns(m1, Attach(candidate.serial), c, running);
      CalmReturns(Perform(m1, Attach(candidate.serial), env), StartMetadata(candidate.serial), c, running);
    }
  }

  lemma StageOneFails<V>(m: Machine, candidate: Resources<V>, previous: Option<Resources<V>>, running: bool)
    requires !At(m.world, candidate.serial).attached
    requires previous.Some? ==> previous.value.serial != candidate.serial
    ensures StageOne(m, candidate, previous, FailOnly(candidate.serial, running)).1.LastRaised()
  {
  }

  lemma UndoOneCalm<V>(stage: Stage<V>, m: Machine, c: nat, running: bool)
    requires stage.previous.Some? ==> stage.previous.value.serial != c
    ensures Clean(m, UndoOne(stage, m, FailOnly(c, running)))
  {
    var env := FailOnly(c, running);
    var x := stage.resources.serial;
    var m1 := UndoMetadata(stage, m, env);
    var m2 := UndoSink(stage, m1, env);
    CalmReturns(m, StopMetadata(x), c, running);
    PerformRaises(m, StopMetadata(x), env);
    CalmReturns(m1, Detach(x, true), c, running);
    PerformRaises(m1, Detach(x, true), env);
    if stage.previous.Some? {
      CalmReturns(m2, Attach(stage.previous.value.serial), c, running);
      PerformRaises(m2, Attach(stage.previous.value.serial), env);
    }
  }

  lemma {:induction false} RollbackCalm<V>(stages: seq<Stage<V>>, k: nat, m: Machine, c: nat, running: bool)
    requires k <= |stages|
    requires forall i | 0 <= i < |stages| :: stages[i].previous.Some? ==> stages[i].previous.value.serial != c
    ensures Clean(m, Rollback(stages, k, m, FailOnly(c, running)))
    decreases |stages| - k
  {
    if k < |stages| {
      RollbackCalm(stages, k + 1, m, c, running);
      UndoOneCalm(stages[k], Rollback(stages, k + 1, m, FailOnly(c, running)), c, running);
    }
  }

  lemma AdvanceCalm<K, V>(a: Activation<K, V>, p: Progress<V>, k: nat, i: nat, next: nat, next': nat, running: bool)
    requires Prepared(a, next, next') && k < i < |a.changes| && Wanted(a.changes[i]) && !p.raised
    requires a.environment == FailOnly(a.candidates[a.changes[i].name].serial, running)
    ensures !Advance(a, p, k).raised
  {
    if Wanted(a.changes[k]) {
      ChangesApart(a.changes, a.candidates, k, i);
      StageOneCalm(p.machine, a.candidates[a.changes[k].name], Lookup(a.resources, a.changes[k].name),
                   a.candidates[a.changes[i].name].serial, running);
    }
  }

  /** The last stage has detached this previous resource. */
  ghost predicate LastDetached<V>(stages: seq<Stage<V>>, previous: Resources<V>) {
    && stages != []
    && stages[|stages| - 1].previousDetached && stages[|stages| - 1].previous == Some(previous)
  }

  lemma AdvanceFails<K, V>(a: Activation<K, V>, p: Progress<V>, i: nat, next: nat, next': nat, running: bool)
    requires Prepared(a, next, next') && i < |a.changes| && Wanted(a.changes[i]) && a.changes[i].name in a.resources
    requires a.environment == FailOnly(a.candidates[a.changes[i].name].serial, running)
    requires Progressed(a, p, i) && !p.raised
    ensures var p' := Advance(a, p, i); p'.raised && LastDetached(p'.stages, a.resources[a.changes[i].name])
  {
    var n := a.changes[i].name;
    var candidate, previous := a.candidates[n], Lookup(a.resources, n);
    UnstagedUntouched(a, p.stages, p.from, next, next', i);
    assert At(p.machine.world, candidate.serial) == IDLE;
    StageOneFails(p.machine, candidate, previous, running);
    StageOneCalm(p.machine, candidate, previous, candidate.serial, running);
    StageOneOperates(p.machine, candidate, previous, a.environment);
  }

  /** Nothing raises until the candidate of change `i` is attached, after its previous sink has been detached. */
  lemma StagingFails<K, V>(a: Activation<K, V>, i: nat, next: nat, next': nat, running: bool)
    returns (p: Progress<V>)
    requires Prepared(a, next, next') && i < |a.changes| && Wanted(a.changes[i]) && a.changes[i].name in a.resources
    requires a.environment == FailOnly(a.candidates[a.changes[i].name].serial, running)
    ensures p == UpTo(a, |a.changes|) && Progressed(a, p, |a.changes|)
    ensures p.raised && LastDetached(p.stages, a.resources[a.changes[i].name])
  {
    p := Progress([], [], false, a.start);
    NoProgress(a);
    for k := 0 to |a.changes|
      invariant p == UpTo(a, k) && Progressed(a, p, k)
      invariant p.raised <==> k > i
      invariant k > i ==> LastDetached(p.stages, a.resources[a.changes[i].name])
    {
      AdvanceProgress(a, p, k, next, next');
      if k < i {
        AdvanceCalm(a, p, k, i, next, next', running);
      } else if k == i {
        AdvanceFails(a, p, i, next, next', running);
      }
      p := Advance(a, p, k);
    }
  }

  lemma PreviousAreOld<K, V>(a: Activation<K, V>, p: Progress<V>, next: nat, next': nat)
    requires Prepared(a, next, next') && StagesOf(a, p.stages, p.from)
    ensures forall i | 0 <= i < |p.stages| && p.stages[i].previous.Some? :: p.stages[i].previous.value.serial < next
  {
    forall i | 0 <= i < |p.stages| && p.stages[i].previous.Some? ensures p.stages[i].previous.value.serial < next {
      assert p.stages[i].previous.value == a.resources[a.changes[p.from[i]].name];
    }
  }

  /** The rollback after that raises nothing, and attaches the previous sink of the last stage. */
  lemma FailedStageIsReattached<K, V>(
      s: State<K, V>, replacement: map<K, V>, a: Activation<K, V>, p: Progress<V>, c: nat, running: bool, next: nat)
    requires Sound(s, running) && IsDiff(a.changes, s.configuration, replacement)
    requires a.resources == s.resources && a.start == s.machine && a.environment == FailOnly(c, running)
    requires Prepared(a, s.next, next) && s.next <= c
    requires Progressed(a, p, |a.changes|) && p.raised && p.stages != []
    requires p.stages[|p.stages| - 1].previousDetached
    ensures var m := Rollback(p.stages, 0, p.machine, a.environment);
            && |RaisedOps(m.log)| == |RaisedOps(s.machine.log)| + 1
            && At(m.world, p.stages[|p.stages| - 1].previous.value.serial).attached
  {
    var m := Rollback(p.stages, 0, p.machine, a.environment);
    var last := |p.stages| - 1;
    StagesAreDisjoint(a, p.stages, p.from, s.next, next);
    assert Staged(p.stages[last], s.machine.world, p.machine.world);
    PreviousAreOld(a, p, s.next, next);
    RollbackCalm(p.stages, 0, p.machine, c, running);
    RollbackUndoes(p.stages, 0, s.machine.world, p.machine, a.environment);
    assert Undone(p.stages[last], s.machine.world, m.world, running, Clean(p.machine, m));
  }

  lemma TransactionAttachesMore<K, V>(
      s: State<K, V>, changes: seq<Change<K, V>>, replacement: map<K, V>, factory: nat -> Option<bool>, running: bool,
      i: nat)
    returns (env: Environment)
    requires Sound(s, running) && IsDiff(changes, s.configuration, replacement)
    requires forall x :: factory(x).Some?
    requires i < |changes| && changes[i].action == Action.Replaced && changes[i].name in s.resources
    ensures env.routerRunning == running
    ensures var (result, s') := Transacted(s, changes, replacement, factory, env);
            && result.Failed? && RolledBackCleanly(s, s')
            && At(s'.machine.world, s.resources[changes[i].name].serial).attached
  {
    DiffIsUsable(changes, s.configuration, replacement);
    var b := BuildUpToEnds(changes, |changes|, s.next, factory, s.configuration, replacement);
    BuiltIsPrepared(s, changes, replacement, factory, FailOnly(0, running), b);
    var c := b.candidates[changes[i].name].serial;
    env := FailOnly(c, running);
    BuiltIsPrepared(s, changes, replacement, factory, env, b);
    var a := Activation(changes, b.candidates, s.resources, s.machine, env);
    var p := StagingFails(a, i, s.next, b.next, running);
    FailedStageIsReattached(s, replacement, a, p, c, running, b.next);
  }

  lemma ReplaceIsTransaction<K, V>(
      s: State<K, V>, names: seq<K>, replacement: map<K, V>, factory: nat -> Option<bool>, env: Environment, i: nat)
    requires s.resources.Keys == s.configuration.Keys && Lists(names, s.configuration.Keys + replacement.Keys)
    requires !s.closed
    requires i < |names| && Diff(names, s.configuration, replacement)[i].action != Unchanged
    ensures var changes := Diff(names, s.configuration, replacement);
            && IsDiff(changes, s.configuration, replacement)
            && Replace(s, names, replacement, factory, env) == Transacted(s, changes, replacement, factory, env)
  {
    DiffIsDiff(names, s.configuration, replacement);
  }

  /**
    A sink that is not attached although its name is to be replaced comes to be attached: let the
    attachment of the new sink of that name fail, and nothing else.
   */
  lemma RollbackAttachesMore<K, V>(s: State<K, V>, names: seq<K>, replacement: map<K, V>, running: bool, n: K)
    returns (factory: nat -> Option<bool>, env: Environment)
    requires Sound(s, running) && !s.closed && Lists(names, s.configuration.Keys + replacement.Keys)
    requires Changes(s, replacement, n) && !At(s.machine.world, s.resources[n].serial).attached
    ensures env.routerRunning == running
    ensures var (result, s') := Replace(s, names, replacement, factory, env);
            && result.Failed? && RolledBackCleanly(s, s')
            && At(s'.machine.world, s.resources[n].serial).attached
  {
    factory := x => Some(false);
    var changes := Diff(names, s.configuration, replacement);
    DiffIsDiff(names, s.configuration, replacement);
    var i :| 0 <= i < |changes| && changes[i].name == n;
    assert changes[i].action == Action.Replaced;
    env := TransactionAttachesMore(s, changes, replacement, factory, running, i);
    ReplaceIsTransaction(s, names, replacement, factory, env, i);
  }

  /**
    A replacement of an open coordinator restores the attached sinks whenever it fails with no
    rollback step raising, if and only if the sinks of all names it replaces are attached before.
   */
  lemma RestoresIffReplacedAttached<K, V>(s: State<K, V>, names: seq<K>, replacement: map<K, V>, running: bool)
    requires Sound(s, running) && !s.closed && Lists(names, s.configuration.Keys + replacement.Keys)
    ensures ReplacedAttached(s, replacement) <==>
              forall factory: nat -> Option<bool>, env: Environment | env.routerRunning == running ::
                Restores(s, names, replacement, factory, env)
  {
    if ReplacedAttached(s, replacement) {
      forall factory: nat -> Option<bool>, env: Environment | env.routerRunning == running
        ensures Restores(s, names, replacement, factory, env)
      {
        AttachedIsRestored(s, names, replacement, factory, env);
      }
    } else {
      var n :| n in s.resources && Changes(s, replacement, n) && !At(s.machine.world, s.resources[n].serial).attached;
      var factory, env := RollbackAttachesMore(s, names, replacement, running, n);
      var (_, s') := Replace(s, names, replacement, factory, env);
      assert s.resources[n].serial in Attached(s'.machine.world);
      assert !Restores(s, names, replacement, factory, env);
    }
  }

  // Which sinks run on without a word.

  /**
    After a close, a sink whose cleanup was not reported as failed runs on if and only if it ran
    before and either it was not attached, or the router swallowed the error of its stop.
   */
  lemma CloseLeavesRunningIff<K, V>(s: State<K, V>, names: seq<K>, env: Environment, n: K)
    requires Sound(s, env.routerRunning) && !s.closed && Lists(names, s.resources.Keys) && n in s.resources
    ensures var (failures, s') := Close(s, names, env);
            var x := s.resources[n].serial;
            var st, st' := At(s.machine.world, x), At(s'.machine.world, x);
            SinkFailure(n) !in failures ==>
              (st'.live <==> st.live && (!st.attached || Swallowed(s.machine, s'.machine, x)))
  {
    CloseOutcome(s, names, env);
    var (failures, s') := Close(s, names, env);
    assert Released(s, s', failures, n);
  }

  /**
    After a replacement, the same of the sink of a name it leaves out; that of a name it replaces
    runs on only if its stop raised and was reported.
   */
  lemma ReplaceLeavesRunningIff<K, V>(
      s: State<K, V>, names: seq<K>, replacement: map<K, V>, factory: nat -> Option<bool>, env: Environment, n: K)
    requires Sound(s, env.routerRunning) && Lists(names, s.configuration.Keys + replacement.Keys)
    requires n in s.resources && Drops(s, replacement, n)
    ensures var (result, s') := Replace(s, names, replacement, factory, env);
            var x := s.resources[n].serial;
            var st, st' := At(s.machine.world, x), At(s'.machine.world, x);
            result.Done? && SinkFailure(n) !in result.cleanupFailures ==>
              (st'.live <==> st.live && n !in replacement && (!st.attached || Swallowed(s.machine, s'.machine, x)))
  {
    var result, s' := ReplaceOutcome(s, names, replacement, factory, env);
    if result.Done? {
      assert Dismissed(s, s', replacement, result.cleanupFailures, n);
    }
  }

  // Two runs.

  lemma OneName<K>(order: set<K> -> seq<K>, keys: set<K>, n: K)
    requires Lists(order(keys), keys) && keys == {n}
    ensures order(keys) == [n]
  {
    var names := order(keys);
    assert n in names;
    assert |names| > 1 ==> Differ(names, 0, 1);
    assert forall i | 0 <= i < |names| :: names[i] in names;
  }

  /** Nothing ever has a publisher. */
  const PLAIN: nat -> Option<bool> := x => Some(false)

  lemma OnlyCandidate(n: int, before: map<int, int>, v': int, next: nat)
    requires before.Keys <= {n} && Lookup(before, n) != Some(v')
    ensures var changes := [ChangeFor(n, before, map[n := v'])];
            && Diff([n], before, map[n := v']) == changes && Requested(changes)
            && BuildUpTo(changes, 1, next, PLAIN) == Building(map[n := Resources(v', next, false)], next + 1, false)
  {
    var changes := [ChangeFor(n, before, map[n := v'])];
    assert BuildUpTo(changes, 0, next, PLAIN) == Building(map[], next, false);
  }

  lemma OnlyStage(a: Activation<int, int>)
    requires |a.changes| == 1 && Wanted(a.changes[0]) && a.changes[0].name in a.candidates
    ensures var n := a.changes[0].name;
            var (stage, m) := StageOne(a.start, a.candidates[n], Lookup(a.resources, n), a.environment);
            && UpTo(a, 1) == Progress([stage], [0], m.LastRaised(), m)
            && Rollback([stage], 0, m, a.environment) == UndoOne(stage, m, a.environment)
  {
    assert UpTo(a, 0) == Progress([], [], false, a.start);
    var n := a.changes[0].name;
    var (stage, m) := StageOne(a.start, a.candidates[n], Lookup(a.resources, n), a.environment);
    assert Rollback([stage], 1, m, a.environment) == m;
  }

  /** Replacing the only destination, when a step of its stage raises. */
  lemma OnlyStageFails(s: State<int, int>, n: int, v: int, v': int, x: nat, env: Environment)
    requires s.configuration == map[n := v] && s.resources == map[n := Resources(v, x, false)] && v != v' && !s.closed
    ensures var (stage, m) := StageOne(s.machine, Resources(v', s.next, false), Some(Resources(v, x, false)), env);
            m.LastRaised() ==>
              && Lists([n], s.configuration.Keys + map[n := v'].Keys)
              && Replace(s, [n], map[n := v'], PLAIN, env)
                  == (Failed, s.(next := s.next + 1, machine := UndoOne(stage, m, env)))
  {
    var changes := [ChangeFor(n, s.configuration, map[n := v'])];
    OnlyCandidate(n, s.configuration, v', s.next);
    OnlyStage(Activation(changes, map[n := Resources(v', s.next, false)], s.resources, s.machine, env));
    assert changes[0].action == Action.Replaced;
  }

  /** The router runs, and the operations at these positions of the log suffer this fault. */
  function Faulty(at: set<nat>, fault: Fault): Environment {
    Environment(true, (k, op) => if k in at then fault else CALM)
  }

  /** A coordinator whose destination 9 is first 5. */
  function Example(order: set<int> -> seq<int>, env: Environment): Setup<int, int> {
    Setup(order, map[9 := 5], PLAIN, env)
  }

  const STARTED := IDLE.(attached := true, live := true)

  /** A first start with nothing going wrong. */
  lemma ExampleStarts(order: set<int> -> seq<int>, env: Environment)
    requires Sorts(order) && env.routerRunning && env.faults(0, Attach(0)) == CALM
    ensures AfterCall(Fresh<int, int>(), Starting, Example(order, env))
          == State(map[9 := 5], map[9 := Resources(5, 0, false)], 1, true, false,
                  Machine(map[0 := STARTED], [Entry(Attach(0), Returned)]))
  {
    var s := Fresh<int, int>();
    var setup := Example(order, env);
    OneName(order, s.configuration.Keys + map[9 := 5].Keys, 9);
    var changes := [ChangeFor(9, s.configuration, map[9 := 5])];
    var candidates := map[9 := Resources(5, 0, false)];
    OnlyCandidate(9, s.configuration, 5, 0);
    OnlyStage(Activation(changes, candidates, s.resources, s.machine, env));
    assert RetiredJobs(changes, s.resources, 0) == [];
    assert CommittedTable(map[9 := 5], candidates, s.resources) == candidates;
  }

  /** A stage whose attachment fails, and its rollback, as four operations. */
  lemma FailedStage(m: Machine, previous: Resources<int>, candidate: Resources<int>, env: Environment)
    requires previous.serial != candidate.serial && At(m.world, candidate.serial) == IDLE && env.routerRunning
    requires env.faults(|m.log|, Detach(previous.serial, false)) == CALM
    requires var f := env.faults(|m.log| + 1, Attach(candidate.serial)); (f.refused || f.fails) && !f.unstopped
    ensures var (stage, m2) := StageOne(m, candidate, Some(previous), env);
            && m2.LastRaised() && |m2.log| == |m.log| + 2
            && stage == Stage(candidate, Some(previous), true, true, false)
            && At(m2.world, previous.serial) == At(m.world, previous.serial).(attached := false)
            && At(m2.world, candidate.serial) == IDLE.(attachFailed := true)
            && SameOutside(m.world, m2.world, {previous.serial, candidate.serial})
  {
  }

  lemma FailedStageUndone(m: Machine, previous: Resources<int>, candidate: Resources<int>, env: Environment)
    requires previous.serial != candidate.serial && !candidate.publishes && env.routerRunning
    requires At(m.world, candidate.serial) == IDLE.(attachFailed := true)
    requires env.faults(|m.log|, Detach(candidate.serial, true)) == CALM
    ensures var m' := UndoOne(Stage(candidate, Some(previous), true, true, false), m, env);
            && |m'.log| == |m.log| + 2 && m'.log[|m.log|].ending == Returned
            && At(m'.world, previous.serial)
                == AttachEffect(At(m.world, previous.serial), env.faults(|m.log| + 1, Attach(previous.serial)), true).0
            && SameOutside(m.world, m'.world, {previous.serial})
  {
  }

  /** With the re-attachment succeeding, the rollback raises nothing. */
  lemma FailedStageUndoneCleanly(m: Machine, previous: Resources<int>, candidate: Resources<int>, env: Environment)
    requires !candidate.publishes
    requires env.faults(|m.log|, Detach(candidate.serial, true)) == CALM
          == env.faults(|m.log| + 1, Attach(previous.serial))
    ensures Clean(m, UndoOne(Stage(candidate, Some(previous), true, true, false), m, env))
  {
    var m1 := Perform(m, Detach(candidate.serial, true), env);
    PerformRaises(m, Detach(candidate.serial, true), env);
    PerformRaises(m1, Attach(previous.serial), env);
  }

  /** The stage raises at its attachment, four operations are made in all, and the last decides. */
  lemma OnlyReplacementFails(s: State<int, int>, v: int, v': int, x: nat, env: Environment)
    requires s.configuration == map[9 := v] && s.resources == map[9 := Resources(v, x, false)] && v != v' && !s.closed
    requires x < s.next && At(s.machine.world, s.next) == IDLE && env.routerRunning
    requires var k := |s.machine.log|;
             && env.faults(k, Detach(x, false)) == CALM == env.faults(k + 2, Detach(s.next, true))
             && var f := env.faults(k + 1, Attach(s.next)); (f.refused || f.fails) && !f.unstopped
    ensures Lists([9], s.configuration.Keys + map[9 := v'].Keys)
    ensures var (result, s') := Replace(s, [9], map[9 := v'], PLAIN, env);
            && result.Failed? && s' == s.(next := s.next + 1, machine := s'.machine)
            && |s'.machine.log| == |s.machine.log| + 4
            && At(s'.machine.world, x)
                == AttachEffect(At(s.machine.world, x).(attached := false),
                               env.faults(|s.machine.log| + 3, Attach(x)), true).0
            && SameOutside(s.machine.world, s'.machine.world, {x, s.next})
            && (env.faults(|s.machine.log| + 3, Attach(x)) == CALM ==> RolledBackCleanly(s, s'))
  {
    var previous, candidate := Resources(v, x, false), Resources(v', s.next, false);
    OnlyStageFails(s, 9, v, v', x, env);
    FailedStage(s.machine, previous, candidate, env);
    var m := StageOne(s.machine, candidate, Some(previous), env).1;
    FailedStageUndone(m, previous, candidate, env);
    StageOneRaisesLast(s.machine, candidate, Some(previous), env);
    if env.faults(|s.machine.log| + 3, Attach(x)) == CALM {
      FailedStageUndoneCleanly(m, previous, candidate, env);
    }
  }

  /** What is known of the example: its configuration, how many operations it took, and sink 0. */
  ghost predicate ExampleAt(s: State<int, int>, next: nat, operations: nat, st: Status) {
    && s == State(map[9 := 5], map[9 := Resources(5, 0, false)], next, true, false, s.machine)
    && |s.machine.log| == operations
    && At(s.machine.world, 0) == st
    && Bounded(s.machine.world, next) && next > 0
  }

  /** One more replacement of the example fails. */
  lemma ExampleFails(
      order: set<int> -> seq<int>, env: Environment, s: State<int, int>, v: int, next: nat, k: nat, st: Status)
    requires Sorts(order) && env.routerRunning && ExampleAt(s, next, k, st) && v != 5
    requires env.faults(k, Detach(0, false)) == CALM == env.faults(k + 2, Detach(next, true))
    requires var f := env.faults(k + 1, Attach(next)); (f.refused || f.fails) && !f.unstopped
    ensures var s' := AfterCall(s, Replacing(map[9 := v]), Example(order, env));
            && ExampleAt(s', next + 1, k + 4,
                         AttachEffect(st.(attached := false), env.faults(k + 3, Attach(0)), true).0)
            && (env.faults(k + 3, Attach(0)) == CALM ==> RolledBackCleanly(s, s'))
  {
    OneName(order, s.configuration.Keys + map[9 := v].Keys, 9);
    OnlyReplacementFails(s, 5, v, 0, env);
  }

  lemma AfterOneMore<K(!new), V>(calls: seq<Call<K, V>>, call: Call<K, V>, setup: Setup<K, V>)
    requires Sorts(setup.order)
    ensures After(calls + [call], setup) == AfterCall(After(calls, setup), call, setup)
  {
    assert (calls + [call])[..|calls|] == calls;
  }

  /** The example after a start and a replacement in which both attachments raised. */
  lemma ExampleStranded(order: set<int> -> seq<int>, at: set<nat>, fault: Fault)
    requires Sorts(order) && 0 !in at && 1 !in at && 2 in at && 3 !in at && 4 in at
    requires (fault.refused || fault.fails) && !fault.unstopped
    ensures ExampleAt(After([Starting, Replacing(map[9 := 6])], Example(order, Faulty(at, fault))), 2, 5,
                      IDLE.(live := fault.refused, attachFailed := true))
  {
    var env := Faulty(at, fault);
    var setup := Example(order, env);
    ExampleStarts(order, env);
    var none: seq<Call<int, int>> := [];
    var started: seq<Call<int, int>> := none + [Starting];
    AfterOneMore(none, Starting, setup);
    AfterOneMore(started, Replacing(map[9 := 6]), setup);
    assert started + [Replacing(map[9 := 6])] == [Starting, Replacing(map[9 := 6])];
    ExampleFails(order, env, After(started, setup), 6, 1, 1, STARTED);
  }

  /**
    A run whose last replacement fails with no rollback step raising, and attaches a sink that was
    not attached before: an earlier rollback had failed to attach it again.
   */
  lemma RunThatAttachesMore(order: set<int> -> seq<int>) returns (setup: Setup<int, int>)
    requires Sorts(order)
    ensures setup.order == order
    ensures var s := After([Starting, Replacing(map[9 := 6])], setup);
            var s' := After([Starting, Replacing(map[9 := 6]), Replacing(map[9 := 7])], setup);
            && s'.resources == s.resources == map[9 := Resources(5, 0, false)] && RolledBackCleanly(s, s')
            && 0 !in Attached(s.machine.world) && 0 in Attached(s'.machine.world)
  {
    var fault := Fault(false, true, false, false);
    var env := Faulty({2, 4, 6}, fault);
    setup := Example(order, env);
    ExampleStranded(order, {2, 4, 6}, fault);
    var calls := [Starting, Replacing(map[9 := 6])];
    AfterOneMore(calls, Replacing(map[9 := 7]), setup);
    assert calls + [Replacing(map[9 := 7])] == [Starting, Replacing(map[9 := 6]), Replacing(map[9 := 7])];
    ExampleAttaches(order, env, After(calls, setup));
  }

  lemma ExampleAttaches(order: set<int> -> seq<int>, env: Environment, s: State<int, int>)
    requires Sorts(order) && env == Faulty({2, 4, 6}, Fault(false, true, false, false))
    requires ExampleAt(s, 2, 5, IDLE.(attachFailed := true))
    ensures var s' := AfterCall(s, Replacing(map[9 := 7]), Example(order, env));
            && s'.resources == s.resources && RolledBackCleanly(s, s')
            && 0 !in Attached(s.machine.world) && 0 in Attached(s'.machine.world)
  {
    ExampleFails(order, env, s, 7, 2, 5, IDLE.(attachFailed := true));
  }

  /**
    A run that ends with a close reporting nothing and a sink still running: the runtime refused to
    attach it again, and a sink that is not attached is not stopped by detaching it.
   */
  lemma RunThatLeavesSinkRunning(order: set<int> -> seq<int>) returns (setup: Setup<int, int>)
    requires Sorts(order)
    ensures setup.order == order
    ensures var s := After([Starting, Replacing(map[9 := 6])], setup);
            var (failures, s') := Close(s, order(s.resources.Keys), setup.environment);
            && failures == [] && s' == After([Starting, Replacing(map[9 := 6]), Closing], setup)
            && s.resources == map[9 := Resources(5, 0, false)] && At(s'.machine.world, 0).live
            && !Swallowed(s.machine, s'.machine, 0)
  {
    var fault := Fault(true, false, false, false);
    setup := Example(order, Faulty({2, 4}, fault));
    ExampleStranded(order, {2, 4}, fault);
    var calls := [Starting, Replacing(map[9 := 6])];
    AfterOneMore(calls, Closing, setup);
    assert calls + [Closing] == [Starting, Replacing(map[9 := 6]), Closing];
    ExampleCloses(order, setup.environment, After(calls, setup));
  }

  lemma ExampleCloses(order: set<int> -> seq<int>, env: Environment, s: State<int, int>)
    requires Sorts(order) && ExampleAt(s, 2, 5, IDLE.(live := true, attachFailed := true))
    requires env.faults(5, Detach(0, true)) == CALM
    ensures var (failures, s') := Close(s, order(s.resources.Keys), env);
            failures == [] && At(s'.machine.world, 0).live && !Swallowed(s.machine, s'.machine, 0)
  {
    OneName(order, s.resources.Keys, 9);
    var job := Job(9, s.resources[9], true);
    var none: seq<Job<int, int>> := [];
    assert HeldJobs([9], s.resources, 0) == none + [job];
    var (more, m) := CleanOne(job, s.machine, env);
    CleanAllAppend(none, job, s.machine, env, [], s.machine, more, m);
    DetachedInVain(job, s.machine, env);
  }

  /** Cleaning up a sink that is not attached does nothing and reports nothing. */
  lemma DetachedInVain(job: Job<int, int>, m: Machine, env: Environment)
    requires job.attached && !job.resources.publishes && !At(m.world, job.resources.serial).attached
    requires env.faults(|m.log|, Detach(job.resources.serial, true)) == CALM
    ensures var (failures, m') := CleanOne(job, m, env);
            && failures == [] && !Swallowed(m, m', job.resources.serial)
            && At(m'.world, job.resources.serial) == At(m.world, job.resources.serial)
  {
  }
}
