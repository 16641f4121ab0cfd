/**
  The destination coordinator (`daemon_destination_activation.py`).

  Each method is proved equal to a function of the coordinator's state, and to achieve what is
  proved of that function. Names and destinations are type parameters; the order in which names
  are visited, Python's `sorted`, and the answers of the factory are constants of the coordinator.
 */
module Coordinator {
  import opened Prelude
  import opened Tables
  import opened Runtime
  import opened Staging
  import opened Cleanup
  import opened Candidates
  import opened Replacement

  /** The cleanup of a close, last name first. */
  method ReleaseAll<K, V>(runtime: DaemonRuntime, names: seq<K>, open: map<K, Resources<V>>)
    returns (failures: seq<CleanupFailure<K>>)
    requires forall i | 0 <= i < |names| :: names[i] in open
    modifies runtime
    ensures (failures, runtime.Now()) == CleanAll(HeldJobs(names, open, 0), old(runtime.Now()), runtime.environment)
  {
    failures := [];
    var k := |names|;
    while k > 0
      invariant 0 <= k <= |names|
      invariant (failures, runtime.Now()) == CleanAll(HeldJobs(names, open, k), old(runtime.Now()), runtime.environment)
    {
      k := k - 1;
      var r := open[names[k]];
      ghost var later, m := HeldJobs(names, open, k + 1), runtime.Now();
      var more := CleanupResource(runtime, names[k], r, true);
      CleanAllAppend(later, Job(names[k], r, true), old(runtime.Now()), runtime.environment, failures, m, more,
                     runtime.Now());
      failures := failures + more;
    }
  }

  class DestinationCoordinator<K(==, !new), V(==, !new)> {
    const runtime: DaemonRuntime
    /** Python's `sorted`. */
    const order: set<K> -> seq<K>
    const initialConfiguration: map<K, V>
    /** Whether building the resources with this serial number raises, or gives them a publisher. */
    const factory: nat -> Option<bool>
    var configuration: map<K, V>
    var resources: map<K, Resources<V>>
    var nextSerial: nat
    var started: bool
    var closed: bool

    ghost function Now(): State<K, V>
      reads this, runtime
    {
      State(configuration, resources, nextSerial, started, closed, runtime.Now())
    }

    ghost predicate Valid()
      reads this, runtime
    {
      Sorts(order) && Sound(Now(), runtime.environment.routerRunning)
    }

    constructor (
        runtime: DaemonRuntime, order: set<K> -> seq<K>, initialConfiguration: map<K, V>, factory: nat -> Option<bool>)
      requires Sorts(order) && runtime.Now() == Machine(map[], [])
      ensures Valid() && this.runtime == runtime && this.order == order
      ensures this.initialConfiguration == initialConfiguration && this.factory == factory
      ensures Now() == State(map[], map[], 0, false, false, Machine(map[], []))
    {
      this.runtime := runtime;
      this.order := order;
      this.initialConfiguration := initialConfiguration;
      this.factory := factory;
      configuration, resources, nextSerial := map[], map[], 0;
      started, closed := false, false;
    }

    /** `factory.build`: fresh, unstarted resources for one destination, or an exception. */
    method Build(destination: V) returns (r: Option<Resources<V>>)
      modifies this`nextSerial
      ensures nextSerial == old(nextSerial) + 1
      ensures r == match factory(old(nextSerial))
                   case None => None
                   case Some(publishes) => Some(Resources(destination, old(nextSerial), publishes))
    {
      var serial := nextSerial;
      nextSerial := nextSerial + 1;
      match factory(serial)
      case None => r := None;
      case Some(publishes) => r := Some(Resources(destination, serial, publishes));
    }

    /** Build everything the request needs before anything running is touched. */
    method BuildCandidates(changes: seq<Change<K, V>>) returns (candidates: map<K, Resources<V>>, ok: bool)
      requires Requested(changes)
      modifies this`nextSerial
      ensures Building(candidates, nextSerial, !ok) == BuildUpTo(changes, |changes|, old(nextSerial), factory)
    {
      candidates, ok := map[], true;
      for k := 0 to |changes|
        invariant ok && Building(candidates, nextSerial, false) == BuildUpTo(changes, k, old(nextSerial), factory)
      {
        var change := changes[k];
        if Wanted(change) {
          var built := Build(change.after.value);
          match built
          case None =>
            ok := false;
            BuildStaysRaised(changes, k + 1, |changes|, old(nextSerial), factory);
            return;
          case Some(r) =>
            candidates := candidates[change.name := r];
        }
      }
    }

    /** The cleanup of a replacement, last change first. */
    method CleanUp(changes: seq<Change<K, V>>, previous: map<K, Resources<V>>)
      returns (failures: seq<CleanupFailure<K>>)
      requires forall i | 0 <= i < |changes| && Retired(changes[i]) :: changes[i].name in previous
      modifies runtime
      ensures (failures, runtime.Now())
            == CleanAll(RetiredJobs(changes, previous, 0), old(runtime.Now()), runtime.environment)
    {
      failures := [];
      var k := |changes|;
      while k > 0
        invariant 0 <= k <= |changes|
        invariant (failures, runtime.Now())
                == CleanAll(RetiredJobs(changes, previous, k), old(runtime.Now()), runtime.environment)
      {
        k := k - 1;
        var change := changes[k];
        ghost var later := RetiredJobs(changes, previous, k + 1);
        if Retired(change) {
          ghost var m := runtime.Now();
          var more := CleanupResource(runtime, change.name, previous[change.name], change.action == Removed);
          CleanAllAppend(later, JobOf(change, previous), old(runtime.Now()), runtime.environment, failures, m, more,
                         runtime.Now());
          failures := failures + more;
        } else {
          assert later + [] == later;
        }
      }
    }

    /** What `replace` does once it has found that something changes. */
    method Transact(changes: seq<Change<K, V>>, replacement: map<K, V>) returns (result: ReplacementResult<K, V>)
      requires Valid() && !closed && IsDiff(changes, configuration, replacement)
      modifies this`configuration, this`resources, this`nextSerial, runtime
      ensures (result, Now()) == Transacted(old(Now()), changes, replacement, factory, runtime.environment)
    {
      DiffIsUsable(changes, configuration, replacement);
      var candidates, built := BuildCandidates(changes);
      if !built {
        return Failed;
      }
      var _ := BuildUpToEnds(changes, |changes|, old(nextSerial), factory, configuration, replacement);
      var staged, ok := StageAll(runtime, changes, candidates, resources);
      if !ok {
        RollbackAll(runtime, staged);
        return Failed;
      }
      var previous := resources;
      resources := CommitTable(changes, candidates, previous, configuration, replacement);
      configuration := replacement;
      var failures := CleanUp(changes, previous);
      result := Done(changes, failures);
    }

    /**
      `replace`. Either the request is committed, or an exception leaves the configuration and
      the resources as they were and rolls back what had been staged.
     */
    method Replace(replacement: map<K, V>) returns (result: ReplacementResult<K, V>)
      requires Valid()
      modifies this`configuration, this`resources, this`nextSerial, runtime
      ensures (result, Now())
            == Replacement.Replace(old(Now()), order(old(configuration).Keys + replacement.Keys), replacement, factory,
                                  runtime.environment)
      ensures Valid() && Outcome(old(Now()), Now(), replacement, factory, result)
      ensures result.Done? ==> NamesIn(result.changes) == order(old(configuration).Keys + replacement.Keys)
    {
      var names := order(configuration.Keys + replacement.Keys);
      var _, _ := ReplaceOutcome(Now(), names, replacement, factory, runtime.environment);
      if closed {
        return Failed;
      }
      var changes := Diff(names, configuration, replacement);
      DiffIsDiff(names, configuration, replacement);
      if forall i | 0 <= i < |changes| :: changes[i].action == Unchanged {
        return Done(changes, []);
      }
      result := Transact(changes, replacement);
    }

    method Start() returns (result: ReplacementResult<K, V>)
      requires Valid()
      modifies this`configuration, this`resources, this`nextSerial, this`started, runtime
      ensures (result, Now())
            == Replacement.Start(old(Now()), order, initialConfiguration, factory, runtime.environment)
      ensures Valid()
      ensures closed || old(started) ==> Now() == old(Now()) && (result.Failed? <==> closed)
      ensures !closed && old(started) ==>
                && ReportsChanges(result.changes, configuration, configuration) && result.cleanupFailures == []
                && NamesIn(result.changes) == order(configuration.Keys)
      ensures !closed && !old(started) ==>
                && (started <==> result.Done?)
                && Outcome(old(Now()), Now().(started := false), initialConfiguration, factory, result)
                && (result.Done? ==>
                      NamesIn(result.changes) == order(old(configuration).Keys + initialConfiguration.Keys))
    {
      if closed {
        return Failed;
      }
      if started {
        assert configuration.Keys + configuration.Keys == configuration.Keys;
        DiffReports(order(configuration.Keys), configuration, configuration);
        return Done(Diff(order(configuration.Keys), configuration, configuration), []);
      }
      result := Replace(initialConfiguration);
      started := result.Done?;
    }

    /** `close`: clean up every resource, last name first; `failures` is what the raised error reports. */
    method Close() returns (failures: seq<CleanupFailure<K>>)
      requires Valid()
      modifies this`configuration, this`resources, this`started, this`closed, runtime
      ensures (failures, Now()) == Replacement.Close(old(Now()), order(old(resources).Keys), runtime.environment)
      ensures Valid() && closed && Closed(old(Now()), Now(), failures)
    {
      ghost var names := order(resources.Keys);
      CloseOutcome(Now(), names, runtime.environment);
      failures := [];
      if closed {
        return;
      }
      var open := resources;
      closed, started, resources, configuration := true, false, map[], map[];
      failures := ReleaseAll(runtime, order(open.Keys), open);
    }
  }
}
