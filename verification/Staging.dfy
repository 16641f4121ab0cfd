/**
  The staging loop of a destination replacement and its rollback
  (`daemon_destination_activation.py`).

  The coordinator never looks inside a name or a destination, so both are type parameters. Each
  loop is a method proved equal to a function of the machine it starts from; the lemmas are about
  those functions, for every fault pattern.
 */
module Staging {
  import opened Prelude
  import opened Tables
  import opened Runtime

  /** `DaemonDestinationResources`: the sink, and the publisher if there is one, are named by `serial`. */
  datatype Resources<V> = Resources(destination: V, serial: nat, publishes: bool)

  /** `_StagedDestinationActivation` */
  datatype Stage<V> = Stage(
    resources: Resources<V>,
    previous: Option<Resources<V>>,
    previousDetached: bool,
    sinkAttempted: bool,
    metadataAttempted: bool)
  {
    ghost function Serials(): set<nat> {
      {resources.serial} + if previous.Some? then {previous.value.serial} else {}
    }
  }

  // One round of the staging loop.

  /** Attach the candidate's sink, then start its publisher. */
  function Starting<V>(m: Machine, candidate: Resources<V>, env: Environment): Machine {
    var m2 := Perform(m, Attach(candidate.serial), env);
    if m2.LastRaised() || !candidate.publishes then m2 else Perform(m2, StartMetadata(candidate.serial), env)
  }

  /** Detach the previous sink, attach the new one, start its publisher, up to the first step that raises. */
  function StageOne<V>(m: Machine, candidate: Resources<V>, previous: Option<Resources<V>>, env: Environment):
    (Stage<V>, Machine)
  {
    var m1 := if previous.Some? then Perform(m, Detach(previous.value.serial, false), env) else m;
    if previous.Some? && m1.LastRaised() then (Stage(candidate, previous, false, false, false), m1) else
      var started := candidate.publishes && !Perform(m1, Attach(candidate.serial), env).LastRaised();
      (Stage(candidate, previous, previous.Some?, true, started), Starting(m1, candidate, env))
  }

  method StageDestination<V>(runtime: DaemonRuntime, candidate: Resources<V>, previous: Option<Resources<V>>)
    returns (stage: Stage<V>, ok: bool)
    modifies runtime
    ensures (stage, runtime.Now()) == StageOne(old(runtime.Now()), candidate, previous, runtime.environment)
    ensures ok == !runtime.Now().LastRaised()
  {
    stage := Stage(candidate, previous, false, false, false);
    if previous.Some? {
      ok := runtime.DetachSink(previous.value.serial, false);
      if !ok {
        return;
      }
      stage := stage.(previousDetached := true);
    }
    stage := stage.(sinkAttempted := true);
    ok := runtime.AttachSink(candidate.serial);
    if !ok {
      return;
    }
    if candidate.publishes {
      stage := stage.(metadataAttempted := true);
      ok := runtime.StartPublisher(candidate.serial);
    }
  }

  /** What is known of a candidate when its round is over, for whatever reason. */
  ghost predicate Attempted<V>(stage: Stage<V>, c: Status) {
    && (c.attached ==> stage.sinkAttempted)
    && (c.attached || !c.live || c.unstopped)
    && (c.publishing ==> stage.metadataAttempted)
    && (stage.metadataAttempted ==> stage.resources.publishes)
    && (stage.previousDetached ==> stage.previous.Some?)
  }

  /** The previous sink has been detached, or nothing has happened to it. */
  ghost predicate Parked<V>(stage: Stage<V>, before: World, w: World) {
    stage.previous.Some? ==>
      var d := stage.previous.value.serial;
      && d != stage.resources.serial
      && At(w, d) == if stage.previousDetached then At(before, d).(attached := false) else At(before, d)
  }

  ghost predicate Staged<V>(stage: Stage<V>, before: World, w: World) {
    Attempted(stage, At(w, stage.resources.serial)) && Parked(stage, before, w)
  }

  /** A stage every step of which succeeded. */
  ghost predicate Activated<V>(stage: Stage<V>, w: World, routerRunning: bool) {
    var c := At(w, stage.resources.serial);
    && c.attached && !c.attachFailed
    && (routerRunning ==> c.live)
    && (c.publishing <==> stage.resources.publishes)
    && stage.sinkAttempted
    && (stage.previous.Some? ==> stage.previousDetached)
  }

  lemma StartingOperates<V>(m0: Machine, m: Machine, candidate: Resources<V>, env: Environment, x: set<nat>)
    requires Operates(m0, m, x) && candidate.serial in x
    ensures Operates(m0, Starting(m, candidate, env), x)
  {
    PerformOperates(m0, m, Attach(candidate.serial), env, x);
    var m2 := Perform(m, Attach(candidate.serial), env);
    if !m2.LastRaised() && candidate.publishes {
      PerformOperates(m0, m2, StartMetadata(candidate.serial), env, x);
    }
  }

  /** A round operates on its two sinks only. */
  lemma StageOneOperates<V>(m: Machine, candidate: Resources<V>, previous: Option<Resources<V>>, env: Environment)
    ensures var (stage, m') := StageOne(m, candidate, previous, env);
            stage.resources == candidate && stage.previous == previous && Operates(m, m', stage.Serials())
  {
    var x := StageOne(m, candidate, previous, env).0.Serials();
    if previous.Some? {
      PerformOperates(m, m, Detach(previous.value.serial, false), env, x);
      StartingOperates(m, Perform(m, Detach(previous.value.serial, false), env), candidate, env, x);
    } else {
      StartingOperates(m, m, candidate, env, x);
    }
  }

  /** At most the last operation of a round raises. */
  ghost predicate RaisesLast(m: Machine, m': Machine) {
    RaisedOps(m'.log) == RaisedOps(m.log) + if m'.LastRaised() then [m'.log[|m'.log| - 1].operation] else []
  }

  lemma StartingRaisesLast<V>(m: Machine, candidate: Resources<V>, env: Environment)
    ensures RaisesLast(m, Starting(m, candidate, env))
  {
    PerformRaises(m, Attach(candidate.serial), env);
    var m2 := Perform(m, Attach(candidate.serial), env);
    if !m2.LastRaised() && candidate.publishes {
      PerformRaises(m2, StartMetadata(candidate.serial), env);
    }
  }

  lemma StageOneRaisesLast<V>(m: Machine, candidate: Resources<V>, previous: Option<Resources<V>>, env: Environment)
    ensures RaisesLast(m, StageOne(m, candidate, previous, env).1)
  {
    if previous.Some? {
      PerformRaises(m, Detach(previous.value.serial, false), env);
      StartingRaisesLast(Perform(m, Detach(previous.value.serial, false), env), candidate, env);
    } else {
      StartingRaisesLast(m, candidate, env);
    }
  }

  /** What a candidate that was never operated on has come to, and what has become of the previous sink. */
  lemma StageOneStaged<V>(m: Machine, candidate: Resources<V>, previous: Option<Resources<V>>, env: Environment)
    requires At(m.world, candidate.serial) == IDLE
    requires previous.Some? ==> previous.value.serial != candidate.serial
    ensures var (stage, m') := StageOne(m, candidate, previous, env);
            && Staged(stage, m.world, m'.world)
            && (!m'.LastRaised() ==> Activated(stage, m'.world, env.routerRunning))
  {
    var (stage, m') := StageOne(m, candidate, previous, env);
    var c := candidate.serial;
    if previous.Some? {
      var m1 := Perform(m, Detach(previous.value.serial, false), env);
      DetachParks(m, previous.value.serial, env);
      if !m1.LastRaised() {
        CandidateStarts(m1, candidate, env);
      }
    } else {
      CandidateStarts(m, candidate, env);
    }
  }

  lemma DetachParks(m: Machine, d: nat, env: Environment)
    ensures var m1 := Perform(m, Detach(d, false), env);
            At(m1.world, d) == if m1.LastRaised() then At(m.world, d) else At(m.world, d).(attached := false)
  {
  }

  lemma CandidateStarts<V>(m: Machine, candidate: Resources<V>, env: Environment)
    requires At(m.world, candidate.serial) == IDLE
    ensures var m2 := Perform(m, Attach(candidate.serial), env);
            var m' := Starting(m, candidate, env);
            var c := At(m'.world, candidate.serial);
            && (c.attached || !c.live || c.unstopped)
            && (c.publishing ==> !m2.LastRaised() && candidate.publishes)
            && (!m'.LastRaised() ==> c.attached && !c.attachFailed && (env.routerRunning ==> c.live)
                                     && c.publishing == candidate.publishes)
            && SameOutside(m.world, m'.world, {candidate.serial})
  {
    var m2 := Perform(m, Attach(candidate.serial), env);
    assert At(m2.world, candidate.serial)
        == AttachEffect(IDLE, env.faults(|m.log|, Attach(candidate.serial)), env.routerRunning).0;
  }

  // One round of `_rollback`.

  function UndoMetadata<V>(stage: Stage<V>, m: Machine, env: Environment): Machine {
    if stage.metadataAttempted && stage.resources.publishes then Perform(m, StopMetadata(stage.resources.serial), env)
    else m
  }

  function UndoSink<V>(stage: Stage<V>, m: Machine, env: Environment): Machine {
    if stage.sinkAttempted then Perform(m, Detach(stage.resources.serial, true), env) else m
  }

  function UndoPrevious<V>(stage: Stage<V>, m: Machine, env: Environment): Machine {
    if stage.previousDetached && stage.previous.Some? then Perform(m, Attach(stage.previous.value.serial), env) else m
  }

  /** Every step is taken, whatever the others did. */
  function UndoOne<V>(stage: Stage<V>, m: Machine, env: Environment): Machine {
    UndoPrevious(stage, UndoSink(stage, UndoMetadata(stage, m, env), env), env)
  }

  method RollbackStage<V>(runtime: DaemonRuntime, stage: Stage<V>)
    modifies runtime
    ensures runtime.Now() == UndoOne(stage, old(runtime.Now()), runtime.environment)
  {
    if stage.metadataAttempted && stage.resources.publishes {
      var _ := runtime.StopPublisher(stage.resources.serial);
    }
    if stage.sinkAttempted {
      var _ := runtime.DetachSink(stage.resources.serial, true);
    }
    if stage.previousDetached && stage.previous.Some? {
      var _ := runtime.AttachSink(stage.previous.value.serial);
    }
  }

  // What undoing a stage achieves.

  /** Whether nothing raised between `m` and `m'`. */
  ghost predicate Clean(m: Machine, m': Machine) {
    RaisedOps(m'.log) == RaisedOps(m.log)
  }

  /** What raised before stays on record. */
  ghost predicate Records(m: Machine, m': Machine) {
    RaisedOps(m.log) <= RaisedOps(m'.log)
  }

  lemma CleanSplits(m: Machine, m': Machine, m'': Machine)
    requires Records(m, m') && Records(m', m'')
    ensures Records(m, m'') && (Clean(m, m'') <==> Clean(m, m') && Clean(m', m''))
  {
  }

  lemma UndoOneOperates<V>(stage: Stage<V>, m0: Machine, m: Machine, env: Environment, x: set<nat>)
    requires Operates(m0, m, x) && stage.Serials() <= x
    ensures Operates(m0, UndoOne(stage, m, env), x)
  {
    var c := stage.resources.serial;
    assert c in stage.Serials();
    var m1 := UndoMetadata(stage, m, env);
    PerformOperates(m0, m, StopMetadata(c), env, x);
    PerformOperates(m0, m1, Detach(c, true), env, x);
    if stage.previous.Some? {
      assert stage.previous.value.serial in stage.Serials();
      PerformOperates(m0, UndoSink(stage, m1, env), Attach(stage.previous.value.serial), env, x);
    }
  }

  lemma UndoMetadataEffect<V>(stage: Stage<V>, m: Machine, env: Environment)
    requires Attempted(stage, At(m.world, stage.resources.serial))
    ensures var m' := UndoMetadata(stage, m, env);
            var c, c' := At(m.world, stage.resources.serial), At(m'.world, stage.resources.serial);
            && Records(m, m')
            && c' == c.(publishing := c'.publishing, publisherUnstopped := c'.publisherUnstopped)
            && (c'.publishing ==> !Clean(m, m') && c'.publisherUnstopped)
  {
    PerformRaises(m, StopMetadata(stage.resources.serial), env);
  }

  lemma UndoSinkEffect<V>(stage: Stage<V>, m: Machine, env: Environment)
    requires var c := At(m.world, stage.resources.serial);
             (c.attached ==> stage.sinkAttempted) && (c.attached || !c.live || c.unstopped)
    ensures var m' := UndoSink(stage, m, env);
            var c, c' := At(m.world, stage.resources.serial), At(m'.world, stage.resources.serial);
            && Records(m, m')
            && (c'.attached ==> !Clean(m, m') && c'.detachFailed)
            && (c'.live ==> c'.unstopped || c'.detachFailed)
            && c'.publishing == c.publishing && c'.publisherUnstopped == c.publisherUnstopped
  {
    if stage.sinkAttempted {
      PerformRaises(m, Detach(stage.resources.serial, true), env);
      DetachStops(m, stage.resources.serial, env);
    }
  }

  /** What attaching a detached sink again makes of it; `d0` is what it was before it was detached. */
  ghost predicate Reattached(d0: Status, d: Status, routerRunning: bool, clean: bool) {
    && d.publishing == d0.publishing
    && (d.attached <==> !d.attachFailed)
    && (clean ==> d.attached)
    && (d.attached ==> (d.live <==> routerRunning || d0.live))
    && (d.live ==> d.attached || d0.live || d.unstopped)
  }

  lemma ReattachEffect(d0: Status, m: Machine, d: nat, env: Environment)
    requires At(m.world, d) == d0.(attached := false)
    ensures var m' := Perform(m, Attach(d), env);
            && Records(m, m')
            && Reattached(d0, At(m'.world, d), env.routerRunning, Clean(m, m'))
  {
    PerformRaises(m, Attach(d), env);
  }

  /** What undoing a stage makes of its candidate. */
  ghost predicate Withdrawn(c: Status, clean: bool) {
    && (c.attached ==> !clean && c.detachFailed)
    && (c.live ==> c.unstopped || c.detachFailed)
    && (c.publishing ==> !clean && c.publisherUnstopped)
  }

  /** What rolling back a stage achieves; `clean` says that none of its rollback steps raised. */
  ghost predicate Undone<V>(stage: Stage<V>, before: World, w: World, routerRunning: bool, clean: bool) {
    && Withdrawn(At(w, stage.resources.serial), clean)
    && (stage.previous.Some? ==>
          var d := stage.previous.value.serial;
          if stage.previousDetached then Reattached(At(before, d), At(w, d), routerRunning, clean)
          else At(w, d) == At(before, d))
  }

  /** Up to the re-attachment of the previous sink, which concerns neither the candidate nor its record. */
  lemma UndoCandidateEffect<V>(stage: Stage<V>, m: Machine, env: Environment)
    requires Attempted(stage, At(m.world, stage.resources.serial))
    ensures var m2 := UndoSink(stage, UndoMetadata(stage, m, env), env);
            && Records(m, m2)
            && Withdrawn(At(m2.world, stage.resources.serial), Clean(m, m2))
            && SameOutside(m.world, m2.world, {stage.resources.serial})
  {
    var m1 := UndoMetadata(stage, m, env);
    UndoMetadataEffect(stage, m, env);
    UndoSinkEffect(stage, m1, env);
    CleanSplits(m, m1, UndoSink(stage, m1, env));
  }

  lemma UndoOneEffect<V>(stage: Stage<V>, m: Machine, env: Environment, before: World)
    requires Staged(stage, before, m.world)
    ensures var m' := UndoOne(stage, m, env);
            && Records(m, m')
            && Undone(stage, before, m'.world, env.routerRunning, Clean(m, m'))
  {
    UndoCandidateEffect(stage, m, env);
    UndoneWithPrevious(stage, m, UndoSink(stage, UndoMetadata(stage, m, env), env), env, before);
  }

  lemma UndoneWithPrevious<V>(stage: Stage<V>, m: Machine, m2: Machine, env: Environment, before: World)
    requires Staged(stage, before, m.world)
    requires Records(m, m2) && Withdrawn(At(m2.world, stage.resources.serial), Clean(m, m2))
    requires SameOutside(m.world, m2.world, {stage.resources.serial})
    ensures var m' := UndoPrevious(stage, m2, env);
            && Records(m, m')
            && Undone(stage, before, m'.world, env.routerRunning, Clean(m, m'))
  {
    var m' := UndoPrevious(stage, m2, env);
    if stage.previousDetached {
      ReattachEffect(At(before, stage.previous.value.serial), m2, stage.previous.value.serial, env);
      CleanSplits(m, m2, m');
    }
  }

  // The staging loop.

  predicate Wanted<K, V>(change: Change<K, V>) {
    change.action == Added || change.action == Action.Replaced
  }

  ghost predicate NamesApart<K, V>(changes: seq<Change<K, V>>, i: nat, j: nat)
    requires i < |changes| && j < |changes|
  {
    changes[i].name != changes[j].name
  }

  ghost predicate DistinctNames<K, V>(changes: seq<Change<K, V>>) {
    forall i: nat, j: nat | i < |changes| && j < |changes| && i != j :: NamesApart(changes, i, j)
  }

  ghost predicate SerialsUnique<K, V>(resources: map<K, Resources<V>>) {
    forall m, n {:trigger SerialsApart(resources, m, n)} | m in resources && n in resources ::
      SerialsApart(resources, m, n)
  }

  ghost predicate SerialsApart<K, V>(resources: map<K, Resources<V>>, m: K, n: K)
    requires m in resources && n in resources
  {
    resources[m].serial == resources[n].serial ==> m == n
  }

  /** What the staging loop starts from. */
  datatype Activation<K, V> = Activation(
    changes: seq<Change<K, V>>,
    candidates: map<K, Resources<V>>,
    resources: map<K, Resources<V>>,
    start: Machine,
    environment: Environment)

  /** There is a candidate for each added or replaced name. */
  predicate Supplied<K, V>(changes: seq<Change<K, V>>, candidates: map<K, Resources<V>>) {
    forall i | 0 <= i < |changes| && Wanted(changes[i]) :: changes[i].name in candidates
  }

  /** Where the loop is: its stages and the changes they belong to, and whether a step raised. */
  datatype Progress<V> = Progress(stages: seq<Stage<V>>, from: seq<nat>, raised: bool, machine: Machine)

  function Advance<K, V>(a: Activation<K, V>, p: Progress<V>, k: nat): Progress<V>
    requires k < |a.changes| && Supplied(a.changes, a.candidates)
  {
    var change := a.changes[k];
    if p.raised || !Wanted(change) then p else
      var (stage, m) := StageOne(p.machine, a.candidates[change.name], Lookup(a.resources, change.name), a.environment);
      Progress(p.stages + [stage], p.from + [k], m.LastRaised(), m)
  }

  /** The loop after `k` changes; after a step that raised nothing more happens. */
  function UpTo<K, V>(a: Activation<K, V>, k: nat): Progress<V>
    requires k <= |a.changes| && Supplied(a.changes, a.candidates)
  {
    if k == 0 then Progress([], [], false, a.start) else
      Advance(a, UpTo(a, k - 1), k - 1)
  }

  lemma {:induction false} RaisedStays<K, V>(a: Activation<K, V>, k: nat, n: nat)
    requires k <= n <= |a.changes| && Supplied(a.changes, a.candidates) && UpTo(a, k).raised
    ensures UpTo(a, n) == UpTo(a, k)
    decreases n
  {
    if k < n {
      RaisedStays(a, k, n - 1);
    }
  }

  /** The staging loop of `replace`, up to the first step that raises. */
  method StageAll<K, V>(
      runtime: DaemonRuntime, changes: seq<Change<K, V>>, candidates: map<K, Resources<V>>,
      resources: map<K, Resources<V>>)
    returns (staged: seq<Stage<V>>, ok: bool)
    requires Supplied(changes, candidates)
    modifies runtime
    ensures var a := Activation(changes, candidates, resources, old(runtime.Now()), runtime.environment);
            var p := UpTo(a, |changes|);
            staged == p.stages && ok == !p.raised && runtime.Now() == p.machine
  {
    staged, ok := [], true;
    ghost var a := Activation(changes, candidates, resources, runtime.Now(), runtime.environment);
    for k := 0 to |changes|
      invariant UpTo(a, k) == Progress(staged, UpTo(a, k).from, false, runtime.Now())
    {
      var change := changes[k];
      if Wanted(change) {
        var stage: Stage<V>;
        stage, ok := StageDestination(runtime, candidates[change.name], Lookup(resources, change.name));
        staged := staged + [stage];
        if !ok {
          RaisedStays(a, k + 1, |changes|);
          return;
        }
      }
    }
    ok := true;
  }

  /** `_rollback`: undo the stages from `k` on, last first, whatever raises. */
  function Rollback<V>(stages: seq<Stage<V>>, k: nat, m: Machine, env: Environment): Machine
    requires k <= |stages|
    decreases |stages| - k
  {
    if k == |stages| then m else UndoOne(stages[k], Rollback(stages, k + 1, m, env), env)
  }

  method RollbackAll<V>(runtime: DaemonRuntime, staged: seq<Stage<V>>)
    modifies runtime
    ensures runtime.Now() == Rollback(staged, 0, old(runtime.Now()), runtime.environment)
  {
    var k := |staged|;
    while k > 0
      invariant 0 <= k <= |staged|
      invariant runtime.Now() == Rollback(staged, k, old(runtime.Now()), runtime.environment)
    {
      k := k - 1;
      RollbackStage(runtime, staged[k]);
    }
  }

  // What holds of every stage, whatever happened to the others.

  /** The committed resources are numbered below `next`, the candidates from there up to `next'`. */
  ghost predicate Prepared<K, V>(a: Activation<K, V>, next: nat, next': nat) {
    && DistinctNames(a.changes)
    && (forall i | 0 <= i < |a.changes| :: Wanted(a.changes[i]) <==> a.changes[i].name in a.candidates)
    && (forall n | n in a.candidates :: next <= a.candidates[n].serial < next')
    && (forall n | n in a.resources :: a.resources[n].serial < next)
    && SerialsUnique(a.candidates) && SerialsUnique(a.resources)
    && Bounded(a.start.world, next)
  }

  /** Stage `j` belongs to change `from[j]`. */
  ghost predicate StagesOf<K, V>(a: Activation<K, V>, staged: seq<Stage<V>>, from: seq<nat>) {
    && |from| == |staged|
    && (forall j | 0 <= j < |from| ::
          && from[j] < |a.changes|
          && a.changes[from[j]].name in a.candidates
          && staged[j].resources == a.candidates[a.changes[from[j]].name]
          && staged[j].previous == Lookup(a.resources, a.changes[from[j]].name))
    && (forall i, j | 0 <= i < j < |from| :: from[i] < from[j])
  }

  ghost predicate DisjointStages<V>(staged: seq<Stage<V>>) {
    forall i, j | 0 <= i < j < |staged| :: staged[i].Serials() !! staged[j].Serials()
  }

  /** Every serial number some stage is about. */
  ghost function Touched<V>(staged: seq<Stage<V>>): set<nat> {
    set i, s | 0 <= i < |staged| && s in staged[i].Serials() :: s
  }

  /** Entries of a table under the names of two changes are different resources. */
  lemma ChangesApart<K, V>(changes: seq<Change<K, V>>, table: map<K, Resources<V>>, i: nat, j: nat)
    requires DistinctNames(changes) && SerialsUnique(table) && i < |changes| && j < |changes| && i != j
    ensures changes[i].name in table && changes[j].name in table ==>
              table[changes[i].name].serial != table[changes[j].name].serial
  {
    assert NamesApart(changes, i, j);
    assert changes[i].name in table && changes[j].name in table ==>
        SerialsApart(table, changes[i].name, changes[j].name);
  }

  lemma StagesAreDisjoint<K, V>(a: Activation<K, V>, staged: seq<Stage<V>>, from: seq<nat>, next: nat, next': nat)
    requires Prepared(a, next, next') && StagesOf(a, staged, from)
    ensures DisjointStages(staged)
  {
    forall i, j | 0 <= i < j < |staged| ensures staged[i].Serials() !! staged[j].Serials() {
      ChangesApart(a.changes, a.candidates, from[i], from[j]);
      ChangesApart(a.changes, a.resources, from[i], from[j]);
    }
  }

  /** A committed or candidate serial of a change that has no stage belongs to no stage. */
  lemma UnstagedUntouched<K, V>(
      a: Activation<K, V>, staged: seq<Stage<V>>, from: seq<nat>, next: nat, next': nat, k: nat)
    requires Prepared(a, next, next') && StagesOf(a, staged, from)
    requires k < |a.changes| && k !in from
    ensures a.changes[k].name in a.candidates ==> a.candidates[a.changes[k].name].serial !in Touched(staged)
    ensures a.changes[k].name in a.resources ==> a.resources[a.changes[k].name].serial !in Touched(staged)
  {
    forall j | 0 <= j < |staged|
      ensures a.changes[k].name in a.candidates ==> a.candidates[a.changes[k].name].serial !in staged[j].Serials()
      ensures a.changes[k].name in a.resources ==> a.resources[a.changes[k].name].serial !in staged[j].Serials()
    {
      ChangesApart(a.changes, a.candidates, from[j], k);
      ChangesApart(a.changes, a.resources, from[j], k);
    }
  }

  lemma StagedFrame<V>(stage: Stage<V>, before: World, w: World, w': World, running: bool, x: set<nat>)
    requires Staged(stage, before, w) && SameOutside(w, w', x) && stage.Serials() !! x
    ensures Staged(stage, before, w')
    ensures Activated(stage, w, running) ==> Activated(stage, w', running)
  {
    assert stage.resources.serial in stage.Serials();
    assert stage.previous.Some? ==> stage.previous.value.serial in stage.Serials();
  }

  /** A stage looks the same from an earlier world that differs only in other stages. */
  lemma StagedRebase<V>(stage: Stage<V>, before: World, mid: World, w: World, x: set<nat>)
    requires Staged(stage, mid, w) && SameOutside(before, mid, x) && stage.Serials() !! x
    ensures Staged(stage, before, w)
  {
    assert stage.previous.Some? ==> stage.previous.value.serial in stage.Serials();
  }

  lemma TouchedAppend<V>(staged: seq<Stage<V>>, stage: Stage<V>)
    ensures Touched(staged + [stage]) == Touched(staged) + stage.Serials()
    ensures DisjointStages(staged + [stage]) ==> stage.Serials() !! Touched(staged)
  {
    var all := staged + [stage];
    assert all[|staged|] == stage;
    assert forall i | 0 <= i < |staged| :: all[i] == staged[i];
  }

  /** Every stage is staged as seen from where the loop began, and activated unless a step raised. */
  ghost predicate AllStaged<V>(staged: seq<Stage<V>>, before: World, w: World, activated: bool, running: bool) {
    forall j | 0 <= j < |staged| ::
      Staged(staged[j], before, w) && (activated ==> Activated(staged[j], w, running))
  }

  /** One more stage. */
  lemma AllStagedAppend<V>(
      staged: seq<Stage<V>>, stage: Stage<V>, before: World, mid: World, w: World, activated: bool, running: bool)
    requires DisjointStages(staged + [stage])
    requires AllStaged(staged, before, mid, true, running)
    requires SameOutside(before, mid, Touched(staged)) && SameOutside(mid, w, stage.Serials())
    requires Staged(stage, mid, w) && (activated ==> Activated(stage, w, running))
    ensures AllStaged(staged + [stage], before, w, activated, running)
  {
    var all := staged + [stage];
    TouchedAppend(staged, stage);
    forall j | 0 <= j < |all| ensures Staged(all[j], before, w) && (activated ==> Activated(all[j], w, running)) {
      if j < |staged| {
        assert all[j] == staged[j] && all[|staged|] == stage;
        StagedFrame(staged[j], before, mid, w, running, stage.Serials());
      } else {
        StagedRebase(stage, before, mid, w, Touched(staged));
      }
    }
  }

  /** What is known after `k` changes. */
  ghost predicate Progressed<K, V>(a: Activation<K, V>, p: Progress<V>, k: nat)
    requires k <= |a.changes|
  {
    && StagesOf(a, p.stages, p.from)
    && (forall j | 0 <= j < |p.from| :: p.from[j] < k)
    && (!p.raised ==> forall i | 0 <= i < k && Wanted(a.changes[i]) :: i in p.from)
    && (p.raised ==> p.stages != [])
    && AllStaged(p.stages, a.start.world, p.machine.world, !p.raised, a.environment.routerRunning)
    && Operates(a.start, p.machine, Touched(p.stages))
    && Records(a.start, p.machine)
    && |RaisedOps(p.machine.log)| == |RaisedOps(a.start.log)| + if p.raised then 1 else 0
  }

  lemma StagesOfAppend<K, V>(a: Activation<K, V>, p: Progress<V>, k: nat, stage: Stage<V>)
    requires StagesOf(a, p.stages, p.from) && forall j | 0 <= j < |p.from| :: p.from[j] < k
    requires k < |a.changes| && a.changes[k].name in a.candidates
    requires stage.resources == a.candidates[a.changes[k].name]
    requires stage.previous == Lookup(a.resources, a.changes[k].name)
    requires forall i | 0 <= i < k && Wanted(a.changes[i]) :: i in p.from
    ensures var from := p.from + [k];
            && StagesOf(a, p.stages + [stage], from)
            && (forall j | 0 <= j < |from| :: from[j] < k + 1)
            && (forall i | 0 <= i < k + 1 && Wanted(a.changes[i]) :: i in from)
  {
    assert (p.from + [k])[|p.from|] == k;
    assert forall j | 0 <= j < |p.from| :: (p.from + [k])[j] == p.from[j];
  }

  lemma UpToProgress<K, V>(a: Activation<K, V>, k: nat, next: nat, next': nat) returns (p: Progress<V>)
    requires Prepared(a, next, next') && k <= |a.changes|
    ensures p == UpTo(a, k) && Progressed(a, p, k)
  {
    p := Progress([], [], false, a.start);
    NoProgress(a);
    for i := 0 to k
      invariant p == UpTo(a, i) && Progressed(a, p, i)
    {
      AdvanceProgress(a, p, i, next, next');
      p := Advance(a, p, i);
    }
  }

  lemma NoProgress<K, V>(a: Activation<K, V>)
    ensures Progressed(a, Progress([], [], false, a.start), 0)
  {
  }

  lemma AdvanceProgress<K, V>(a: Activation<K, V>, p: Progress<V>, k: nat, next: nat, next': nat)
    requires Prepared(a, next, next') && k < |a.changes| && Progressed(a, p, k)
    ensures Progressed(a, Advance(a, p, k), k + 1)
  {
    if !p.raised && Wanted(a.changes[k]) {
      ProgressStep(a, p, k, next, next');
    }
  }

  lemma ProgressStep<K, V>(a: Activation<K, V>, p: Progress<V>, k: nat, next: nat, next': nat)
    requires Prepared(a, next, next') && k < |a.changes| && Wanted(a.changes[k])
    requires Progressed(a, p, k) && !p.raised
    ensures var n := a.changes[k].name;
            var (stage, m) := StageOne(p.machine, a.candidates[n], Lookup(a.resources, n), a.environment);
            Progressed(a, Progress(p.stages + [stage], p.from + [k], m.LastRaised(), m), k + 1)
  {
    var n := a.changes[k].name;
    var candidate, previous := a.candidates[n], Lookup(a.resources, n);
    var (stage, m) := StageOne(p.machine, candidate, previous, a.environment);
    UnstagedUntouched(a, p.stages, p.from, next, next', k);
    StageOneStaged(p.machine, candidate, previous, a.environment);
    StageOneOperates(p.machine, candidate, previous, a.environment);
    StageOneRaisesLast(p.machine, candidate, previous, a.environment);
    StagesOfAppend(a, p, k, stage);
    StagesAreDisjoint(a, p.stages + [stage], p.from + [k], next, next');
    AllStagedAppend(p.stages, stage, a.start.world, p.machine.world, m.world, !m.LastRaised(),
                    a.environment.routerRunning);
    OperatesComposes(a.start, p.machine, m, Touched(p.stages), stage.Serials());
    TouchedAppend(p.stages, stage);
  }

  // The rollback of all stages.

  lemma UndoneFrame<V>(
      stage: Stage<V>, before: World, w: World, w': World, running: bool, clean: bool, clean': bool, x: set<nat>)
    requires Undone(stage, before, w, running, clean) && SameOutside(w, w', x) && stage.Serials() !! x
    requires clean' ==> clean
    ensures Undone(stage, before, w', running, clean')
  {
    assert stage.resources.serial in stage.Serials();
    assert stage.previous.Some? ==> stage.previous.value.serial in stage.Serials();
  }

  /** The stages from `k` on are undone, the others as they were staged. */
  ghost predicate RolledBack<V>(
      staged: seq<Stage<V>>, k: nat, before: World, m: Machine, m': Machine, running: bool)
  {
    && (forall i | 0 <= i < k && i < |staged| :: Staged(staged[i], before, m'.world))
    && (forall i | k <= i < |staged| :: Undone(staged[i], before, m'.world, running, Clean(m, m')))
    && Operates(m, m', Touched(staged))
    && Records(m, m')
  }

  lemma {:induction false} RollbackUndoes<V>(staged: seq<Stage<V>>, k: nat, before: World, m: Machine, env: Environment)
    requires k <= |staged| && DisjointStages(staged)
    requires AllStaged(staged, before, m.world, false, env.routerRunning)
    ensures RolledBack(staged, k, before, m, Rollback(staged, k, m, env), env.routerRunning)
    decreases |staged| - k
  {
    if k < |staged| {
      RollbackUndoes(staged, k + 1, before, m, env);
      RollbackStep(staged, k, before, m, Rollback(staged, k + 1, m, env), env);
    }
  }

  lemma RollbackStep<V>(staged: seq<Stage<V>>, k: nat, before: World, m: Machine, mid: Machine, env: Environment)
    requires k < |staged| && DisjointStages(staged)
    requires RolledBack(staged, k + 1, before, m, mid, env.routerRunning)
    ensures RolledBack(staged, k, before, m, UndoOne(staged[k], mid, env), env.routerRunning)
  {
    var m' := UndoOne(staged[k], mid, env);
    UndoOneEffect(staged[k], mid, env, before);
    UndoOneOperates(staged[k], mid, mid, env, staged[k].Serials());
    CleanSplits(m, mid, m');
    assert staged[k].Serials() <= Touched(staged);
    OperatesComposes(m, mid, m', Touched(staged), staged[k].Serials());
    assert Touched(staged) + staged[k].Serials() == Touched(staged);
    forall i | 0 <= i < |staged|
      ensures i < k ==> Staged(staged[i], before, m'.world)
      ensures k <= i ==> Undone(staged[i], before, m'.world, env.routerRunning, Clean(m, m'))
    {
      if i < k {
        StagedFrame(staged[i], before, mid.world, m'.world, env.routerRunning, staged[k].Serials());
      } else if i == k {
        UndoneFrame(staged[k], before, m'.world, m'.world, env.routerRunning, Clean(mid, m'), Clean(m, m'), {});
      } else {
        UndoneFrame(staged[i], before, mid.world, m'.world, env.routerRunning, Clean(m, mid), Clean(m, m'),
                    staged[k].Serials());
      }
    }
  }

  /** Neither staging nor rollback operates on what belongs to a change the loop did not reach. */
  lemma UnreachedNeverOperated<K, V>(a: Activation<K, V>, next: nat, next': nat, k: nat)
    requires Prepared(a, next, next') && k < |a.changes|
    ensures var p := UpTo(a, |a.changes|);
            var m := Rollback(p.stages, 0, p.machine, a.environment);
            && a.start.log <= p.machine.log <= m.log
            && (k !in p.from ==> forall i | |a.start.log| <= i < |m.log| ::
                  && (a.changes[k].name in a.candidates ==>
                        m.log[i].operation.serial != a.candidates[a.changes[k].name].serial)
                  && (a.changes[k].name in a.resources ==>
                        m.log[i].operation.serial != a.resources[a.changes[k].name].serial))
  {
    var p := UpToProgress(a, |a.changes|, next, next');
    StagesAreDisjoint(a, p.stages, p.from, next, next');
    RollbackUndoes(p.stages, 0, a.start.world, p.machine, a.environment);
    var m := Rollback(p.stages, 0, p.machine, a.environment);
    OperatesComposes(a.start, p.machine, m, Touched(p.stages), Touched(p.stages));
    if k !in p.from {
      UnstagedUntouched(a, p.stages, p.from, next, next', k);
    }
  }

  /** The loop reaches every wanted change up to the one whose step raised, and none after it. */
  lemma ReachedChanges<K, V>(a: Activation<K, V>, next: nat, next': nat, k: nat)
    requires Prepared(a, next, next') && k < |a.changes|
    ensures var p := UpTo(a, |a.changes|);
            && (k in p.from ==> Wanted(a.changes[k]))
            && (p.raised ==> |p.from| > 0 && (k > p.from[|p.from| - 1] ==> k !in p.from))
            && (!p.raised && Wanted(a.changes[k]) ==> k in p.from)
  {
    var p := UpToProgress(a, |a.changes|, next, next');
    if k in p.from {
      var j :| 0 <= j < |p.from| && p.from[j] == k;
      assert a.changes[p.from[j]].name in a.candidates;
    }
  }
}
