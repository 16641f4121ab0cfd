/**
  Cleaning up the resources a coordinator no longer wants (`daemon_destination_activation.py`),
  and what the failures it reports say.
 */
module Cleanup {
  import opened Runtime
  import opened Staging

  /** `DaemonDestinationCleanupFailure` */
  datatype CleanupFailure<K> = MetadataFailure(name: K) | SinkFailure(name: K)

  /** A resource to clean up: by detaching its sink, or only by stopping it. */
  datatype Job<K, V> = Job(name: K, resources: Resources<V>, attached: bool)

  function CleanMetadata<K, V>(job: Job<K, V>, m: Machine, env: Environment): Machine {
    if job.resources.publishes then Perform(m, StopMetadata(job.resources.serial), env) else m
  }

  function CleanSink<K, V>(job: Job<K, V>, m: Machine, env: Environment): Machine {
    Perform(m, if job.attached then Detach(job.resources.serial, true) else Stop(job.resources.serial), env)
  }

  /** `_cleanup_resource`: both steps are taken, and each that raises is reported. */
  function CleanOne<K, V>(job: Job<K, V>, m: Machine, env: Environment): (seq<CleanupFailure<K>>, Machine) {
    var m1 := CleanMetadata(job, m, env);
    var m2 := CleanSink(job, m1, env);
    ((if job.resources.publishes && m1.LastRaised() then [MetadataFailure(job.name)] else [])
     + (if m2.LastRaised() then [SinkFailure(job.name)] else []), m2)
  }

  method CleanupResource<K, V>(runtime: DaemonRuntime, name: K, r: Resources<V>, attached: bool)
    returns (failures: seq<CleanupFailure<K>>)
    modifies runtime
    ensures (failures, runtime.Now()) == CleanOne(Job(name, r, attached), old(runtime.Now()), runtime.environment)
  {
    failures := [];
    if r.publishes {
      var ok := runtime.StopPublisher(r.serial);
      if !ok {
        failures := [MetadataFailure(name)];
      }
    }
    ghost var reported := failures;
    var ok: bool;
    if attached {
      ok := runtime.DetachSink(r.serial, true);
    } else {
      ok := runtime.StopSink(r.serial);
    }
    if !ok {
      failures := failures + [SinkFailure(name)];
    }
    assert failures == reported + if ok then [] else [SinkFailure(name)];
  }

  /** The cleanup loops of `replace` and `close`. */
  function CleanAll<K, V>(jobs: seq<Job<K, V>>, m: Machine, env: Environment): (seq<CleanupFailure<K>>, Machine) {
    if jobs == [] then ([], m) else
      var (before, m1) := CleanAll(jobs[..|jobs| - 1], m, env);
      var (more, m2) := CleanOne(jobs[|jobs| - 1], m1, env);
      (before + more, m2)
  }

  lemma CleanAllAppend<K, V>(
      jobs: seq<Job<K, V>>, job: Job<K, V>, m: Machine, env: Environment,
      before: seq<CleanupFailure<K>>, m1: Machine, more: seq<CleanupFailure<K>>, m2: Machine)
    requires CleanAll(jobs, m, env) == (before, m1) && CleanOne(job, m1, env) == (more, m2)
    ensures CleanAll(jobs + [job], m, env) == (before + more, m2)
  {
    assert (jobs + [job])[..|jobs|] == jobs;
  }

  // What becomes of one resource.

  /**
    The end of a resource, from its status before the cleanup. Its sink runs on exactly if it ran
    before and either its cleanup was reported as failed, or the sink was to be detached and was
    not attached, or the router swallowed the error of its stop.
   */
  ghost predicate Ends<K, V>(
      job: Job<K, V>, st: Status, st': Status, failures: seq<CleanupFailure<K>>, swallowed: bool)
  {
    && (st'.attached <==> st.attached && job.attached && SinkFailure(job.name) in failures)
    && (st'.live <==> st.live && (SinkFailure(job.name) in failures || (job.attached && (!st.attached || swallowed))))
    && (st'.publishing <==> st.publishing && MetadataFailure(job.name) in failures)
  }

  /** A resource that is no longer wanted runs on only where one of its own steps failed. */
  ghost predicate Gone(st: Status) {
    && (st.attached ==> st.detachFailed)
    && (st.live ==> st.unstopped || st.detachFailed || st.attachFailed)
    && (st.publishing ==> st.publisherUnstopped)
  }

  /** What a resource is like before its cleanup. */
  ghost predicate Ready<K, V>(job: Job<K, V>, st: Status) {
    && (if job.attached then st.attached <==> !st.attachFailed else !st.attached)
    && (st.publishing ==> job.resources.publishes)
  }

  /** The operation a failure reports. */
  ghost predicate ReportedAs<K, V>(op: Operation, failure: CleanupFailure<K>, resources: map<K, Resources<V>>) {
    && failure.name in resources
    && var s := resources[failure.name].serial;
       if failure.MetadataFailure? then op == StopMetadata(s) else op == Detach(s, true) || op == Stop(s)
  }

  /** The operations that raised between `m` and `m'` are, in order, exactly those the failures report. */
  ghost predicate Reports<K, V>(
      failures: seq<CleanupFailure<K>>, m: Machine, m': Machine, resources: map<K, Resources<V>>)
  {
    var raised, raised' := RaisedOps(m.log), RaisedOps(m'.log);
    && raised <= raised'
    && |raised'| == |raised| + |failures|
    && forall i | 0 <= i < |failures| :: ReportedAs(raised'[|raised| + i], failures[i], resources)
  }

  lemma ReportsCompose<K, V>(
      f: seq<CleanupFailure<K>>, g: seq<CleanupFailure<K>>, m: Machine, m': Machine, m'': Machine,
      resources: map<K, Resources<V>>)
    requires Reports(f, m, m', resources) && Reports(g, m', m'', resources)
    ensures Reports(f + g, m, m'', resources)
  {
    var raised, raised', raised'' := RaisedOps(m.log), RaisedOps(m'.log), RaisedOps(m''.log);
    forall i | 0 <= i < |f + g| ensures ReportedAs(raised''[|raised| + i], (f + g)[i], resources) {
      if i < |f| {
        assert raised''[|raised| + i] == raised'[|raised| + i] && (f + g)[i] == f[i];
      } else {
        assert raised''[|raised| + i] == raised''[|raised'| + (i - |f|)] && (f + g)[i] == g[i - |f|];
      }
    }
  }

  /** A failure is reported if and only if its operation raised. */
  lemma ReportedIffRaised<K, V>(
      failures: seq<CleanupFailure<K>>, m: Machine, m': Machine, resources: map<K, Resources<V>>, n: K)
    requires Reports(failures, m, m', resources) && SerialsUnique(resources) && n in resources
    ensures var raised := RaisedOps(m'.log)[|RaisedOps(m.log)|..];
            var s := resources[n].serial;
            && (MetadataFailure(n) in failures <==> StopMetadata(s) in raised)
            && (SinkFailure(n) in failures <==> Detach(s, true) in raised || Stop(s) in raised)
  {
    var raised := RaisedOps(m'.log)[|RaisedOps(m.log)|..];
    forall i | 0 <= i < |failures| ensures ReportedAs(raised[i], failures[i], resources) {
      assert raised[i] == RaisedOps(m'.log)[|RaisedOps(m.log)| + i];
    }
    forall i | 0 <= i < |failures|
      ensures raised[i].serial == resources[n].serial ==> failures[i].name == n
    {
      assert ReportedAs(raised[i], failures[i], resources) && SerialsApart(resources, failures[i].name, n);
    }
  }

  lemma CleanOneReports<K, V>(job: Job<K, V>, m: Machine, env: Environment, resources: map<K, Resources<V>>)
    requires job.name in resources && resources[job.name] == job.resources
    ensures var (failures, m') := CleanOne(job, m, env); Reports(failures, m, m', resources)
  {
    var s := job.resources.serial;
    var m1 := CleanMetadata(job, m, env);
    var m2 := CleanSink(job, m1, env);
    var f := if job.resources.publishes && m1.LastRaised() then [MetadataFailure(job.name)] else [];
    var g := if m2.LastRaised() then [SinkFailure(job.name)] else [];
    PerformRaises(m, StopMetadata(s), env);
    assert Reports(f, m, m1, resources);
    PerformRaises(m1, if job.attached then Detach(s, true) else Stop(s), env);
    assert Reports(g, m1, m2, resources);
    ReportsCompose(f, g, m, m1, m2, resources);
  }

  lemma CleanOneOperates<K, V>(job: Job<K, V>, m: Machine, env: Environment)
    ensures Operates(m, CleanOne(job, m, env).1, {job.resources.serial})
  {
    var s := job.resources.serial;
    PerformOperates(m, m, StopMetadata(s), env, {s});
    PerformOperates(m, CleanMetadata(job, m, env), if job.attached then Detach(s, true) else Stop(s), env, {s});
  }

  lemma PublisherStops(m: Machine, s: nat, env: Environment)
    ensures var m' := Perform(m, StopMetadata(s), env);
            var st, st' := At(m.world, s), At(m'.world, s);
            && st' == st.(publishing := st'.publishing, publisherUnstopped := st'.publisherUnstopped)
            && (st'.publishing <==> st.publishing && m'.LastRaised())
            && (st'.publishing ==> st'.publisherUnstopped)
            && !Swallowed(m, m', s)
  {
  }

  lemma CleanMetadataEffect<K, V>(job: Job<K, V>, m: Machine, env: Environment)
    requires At(m.world, job.resources.serial).publishing ==> job.resources.publishes
    ensures var m1 := CleanMetadata(job, m, env);
            var st, st1 := At(m.world, job.resources.serial), At(m1.world, job.resources.serial);
            && st1 == st.(publishing := st1.publishing, publisherUnstopped := st1.publisherUnstopped)
            && (st1.publishing <==> st.publishing && m1.LastRaised())
            && (st1.publishing ==> st1.publisherUnstopped)
            && !Swallowed(m, m1, job.resources.serial)
  {
    if job.resources.publishes {
      PublisherStops(m, job.resources.serial, env);
    }
  }

  lemma CleanSinkEffect<K, V>(job: Job<K, V>, m: Machine, env: Environment)
    ensures var m1 := CleanSink(job, m, env);
            var st, st1 := At(m.world, job.resources.serial), At(m1.world, job.resources.serial);
            var swallowed := Swallowed(m, m1, job.resources.serial);
            && (st1.attached <==> st.attached && (!job.attached || m1.LastRaised()))
            && (st1.live <==> st.live && (m1.LastRaised() || (job.attached && (!st.attached || swallowed))))
            && st1.publishing == st.publishing && st1.publisherUnstopped == st.publisherUnstopped
            && st1.attachFailed == st.attachFailed
            && (st1.attached && job.attached ==> st1.detachFailed)
            && (st1.live ==> st1.unstopped || st1.detachFailed || (job.attached && !st.attached))
  {
    if job.attached {
      DetachStops(m, job.resources.serial, env);
    } else {
      StopStops(m, job.resources.serial, env);
    }
  }

  lemma StopStops(m: Machine, s: nat, env: Environment)
    ensures var m' := Perform(m, Stop(s), env);
            var st, st' := At(m.world, s), At(m'.world, s);
            && st' == st.(live := st'.live, unstopped := st'.unstopped)
            && (st'.live <==> st.live && m'.LastRaised())
            && (st'.live ==> st'.unstopped)
  {
  }

  lemma SwallowedExtends(m: Machine, m': Machine, m'': Machine, s: nat)
    requires m.log <= m'.log <= m''.log
    ensures Swallowed(m, m'', s) <==> Swallowed(m, m', s) || Swallowed(m', m'', s)
  {
    if Swallowed(m, m'', s) {
      var i :| |m.log| <= i < |m''.log| && m''.log[i] == Entry(Detach(s, true), StopSwallowed);
      if i < |m'.log| {
        assert m'.log[i] == m''.log[i];
      }
    }
    if Swallowed(m, m', s) {
      var i :| |m.log| <= i < |m'.log| && m'.log[i] == Entry(Detach(s, true), StopSwallowed);
      assert m''.log[i] == m'.log[i];
    }
  }

  lemma CleanOneEnds<K, V>(job: Job<K, V>, m: Machine, env: Environment)
    requires Ready(job, At(m.world, job.resources.serial))
    ensures var (failures, m') := CleanOne(job, m, env);
            var s := job.resources.serial;
            && Ends(job, At(m.world, s), At(m'.world, s), failures, Swallowed(m, m', s))
            && Gone(At(m'.world, s))
  {
    var s := job.resources.serial;
    var m1 := CleanMetadata(job, m, env);
    CleanMetadataEffect(job, m, env);
    CleanSinkEffect(job, m1, env);
    SwallowedExtends(m, m1, CleanSink(job, m1, env), s);
  }

  // What becomes of all of them.

  ghost predicate JobsApart<K, V>(jobs: seq<Job<K, V>>, i: nat, j: nat)
    requires i < |jobs| && j < |jobs|
  {
    jobs[i].name != jobs[j].name && jobs[i].resources.serial != jobs[j].resources.serial
  }

  ghost predicate DistinctJobs<K, V>(jobs: seq<Job<K, V>>) {
    forall i: nat, j: nat | i < |jobs| && j < |jobs| && i != j :: JobsApart(jobs, i, j)
  }

  ghost function JobSerials<K, V>(jobs: seq<Job<K, V>>): set<nat> {
    set i | 0 <= i < |jobs| :: jobs[i].resources.serial
  }

  ghost predicate Ended<K, V>(job: Job<K, V>, failures: seq<CleanupFailure<K>>, m: Machine, m': Machine) {
    var s := job.resources.serial;
    Ends(job, At(m.world, s), At(m'.world, s), failures, Swallowed(m, m', s)) && Gone(At(m'.world, s))
  }

  ghost predicate IsJob<K, V>(name: K, jobs: seq<Job<K, V>>) {
    exists j | 0 <= j < |jobs| :: jobs[j].name == name
  }

  /** Every job has ended, nothing else was operated on, and the failures report exactly what raised. */
  ghost predicate AllEnded<K, V>(
      jobs: seq<Job<K, V>>, failures: seq<CleanupFailure<K>>, m: Machine, m': Machine, resources: map<K, Resources<V>>)
  {
    && (forall j | 0 <= j < |jobs| :: Ended(jobs[j], failures, m, m'))
    && (forall i | 0 <= i < |failures| :: IsJob(failures[i].name, jobs))
    && Operates(m, m', JobSerials(jobs))
    && Reports(failures, m, m', resources)
  }

  /** An operation on other resources only swallows no stop of this one. */
  lemma NotSwallowedElsewhere(m: Machine, m': Machine, x: set<nat>, s: nat)
    requires Operates(m, m', x) && s !in x
    ensures !Swallowed(m, m', s) && At(m.world, s) == At(m'.world, s)
  {
  }

  /** A job that has ended stays ended while others are cleaned up. */
  lemma EndedBefore<K, V>(
      job: Job<K, V>, f: seq<CleanupFailure<K>>, g: seq<CleanupFailure<K>>, m: Machine, m': Machine, m'': Machine,
      x: set<nat>)
    requires Ended(job, f, m, m') && Operates(m', m'', x) && job.resources.serial !in x && m.log <= m'.log
    requires forall i | 0 <= i < |g| :: g[i].name != job.name
    ensures Ended(job, f + g, m, m'')
  {
    var s := job.resources.serial;
    NotSwallowedElsewhere(m', m'', x, s);
    SwallowedExtends(m, m', m'', s);
    assert SinkFailure(job.name) in f + g <==> SinkFailure(job.name) in f;
    assert MetadataFailure(job.name) in f + g <==> MetadataFailure(job.name) in f;
  }

  /** What others were cleaned up before makes no difference. */
  lemma EndedAfter<K, V>(
      job: Job<K, V>, f: seq<CleanupFailure<K>>, g: seq<CleanupFailure<K>>, m: Machine, m': Machine, m'': Machine,
      x: set<nat>)
    requires Operates(m, m', x) && job.resources.serial !in x && m'.log <= m''.log && Ended(job, g, m', m'')
    requires forall i | 0 <= i < |f| :: f[i].name != job.name
    ensures Ended(job, f + g, m, m'')
  {
    var s := job.resources.serial;
    NotSwallowedElsewhere(m, m', x, s);
    SwallowedExtends(m, m', m'', s);
    assert SinkFailure(job.name) in f + g <==> SinkFailure(job.name) in g;
    assert MetadataFailure(job.name) in f + g <==> MetadataFailure(job.name) in g;
  }

  lemma CleanOneNames<K, V>(job: Job<K, V>, m: Machine, env: Environment)
    ensures var (failures, _) := CleanOne(job, m, env); forall i | 0 <= i < |failures| :: failures[i].name == job.name
  {
  }

  /** The jobs are for distinct resources of the table, each as it should be before its cleanup. */
  ghost predicate AllReady<K, V>(jobs: seq<Job<K, V>>, w: World, resources: map<K, Resources<V>>) {
    && DistinctJobs(jobs)
    && (forall j | 0 <= j < |jobs| :: Ready(jobs[j], At(w, jobs[j].resources.serial)))
    && (forall j | 0 <= j < |jobs| :: jobs[j].name in resources && resources[jobs[j].name] == jobs[j].resources)
  }

  lemma {:induction false} CleanAllEnds<K, V>(
      jobs: seq<Job<K, V>>, m: Machine, env: Environment, resources: map<K, Resources<V>>)
    returns (failures: seq<CleanupFailure<K>>, m': Machine)
    requires AllReady(jobs, m.world, resources)
    ensures (failures, m') == CleanAll(jobs, m, env)
    ensures AllEnded(jobs, failures, m, m', resources)
  {
    if jobs == [] {
      failures, m' := [], m;
    } else {
      var last := |jobs| - 1;
      var init := jobs[..last];
      assert forall i: nat, j: nat | i < last && j < last && i != j :: JobsApart(jobs, i, j) ==> JobsApart(init, i, j);
      var f, m1 := CleanAllEnds(init, m, env, resources);
      var (g, m2) := CleanOne(jobs[last], m1, env);
      CleanStep(jobs, f, m, m1, env, resources);
      failures, m' := f + g, m2;
    }
  }

  lemma LastJobApart<K, V>(jobs: seq<Job<K, V>>)
    requires DistinctJobs(jobs) && jobs != []
    ensures var last := |jobs| - 1;
            && jobs[last].resources.serial !in JobSerials(jobs[..last])
            && JobSerials(jobs) == JobSerials(jobs[..last]) + {jobs[last].resources.serial}
            && forall j | 0 <= j < last :: jobs[j].name != jobs[last].name
                                           && jobs[j].resources.serial != jobs[last].resources.serial
  {
    var last := |jobs| - 1;
    forall j | 0 <= j < last
      ensures jobs[j].name != jobs[last].name && jobs[j].resources.serial != jobs[last].resources.serial
    {
      assert JobsApart(jobs, j, last);
    }
    assert forall j | 0 <= j < last :: jobs[..last][j] == jobs[j];
  }

  lemma CleanStep<K, V>(
      jobs: seq<Job<K, V>>, f: seq<CleanupFailure<K>>, m: Machine, m1: Machine, env: Environment,
      resources: map<K, Resources<V>>)
    requires jobs != [] && AllReady(jobs, m.world, resources)
    requires AllEnded(jobs[..|jobs| - 1], f, m, m1, resources)
    ensures var (g, m2) := CleanOne(jobs[|jobs| - 1], m1, env); AllEnded(jobs, f + g, m, m2, resources)
  {
    var last := |jobs| - 1;
    var init, job := jobs[..last], jobs[last];
    var (g, m2) := CleanOne(job, m1, env);
    LastJobApart(jobs);
    NotSwallowedElsewhere(m, m1, JobSerials(init), job.resources.serial);
    CleanOneEnds(job, m1, env);
    CleanOneReports(job, m1, env, resources);
    CleanOneOperates(job, m1, env);
    CleanOneNames(job, m1, env);
    CleanStepEnded(jobs, f, g, m, m1, m2);
    ReportsCompose(f, g, m, m1, m2, resources);
    OperatesComposes(m, m1, m2, JobSerials(init), {job.resources.serial});
  }

  lemma CleanStepEnded<K, V>(
      jobs: seq<Job<K, V>>, f: seq<CleanupFailure<K>>, g: seq<CleanupFailure<K>>, m: Machine, m1: Machine, m2: Machine)
    requires jobs != [] && DistinctJobs(jobs)
    requires var init := jobs[..|jobs| - 1];
             && (forall j | 0 <= j < |init| :: Ended(init[j], f, m, m1))
             && (forall i | 0 <= i < |f| :: IsJob(f[i].name, init))
             && Operates(m, m1, JobSerials(init))
    requires var job := jobs[|jobs| - 1];
             && Ended(job, g, m1, m2) && Operates(m1, m2, {job.resources.serial})
             && forall i | 0 <= i < |g| :: g[i].name == job.name
    ensures forall j | 0 <= j < |jobs| :: Ended(jobs[j], f + g, m, m2)
    ensures forall i | 0 <= i < |f + g| :: IsJob((f + g)[i].name, jobs)
  {
    var last := |jobs| - 1;
    var init, job := jobs[..last], jobs[last];
    LastJobApart(jobs);
    forall j | 0 <= j < |jobs| ensures Ended(jobs[j], f + g, m, m2) {
      if j < last {
        assert init[j] == jobs[j];
        EndedBefore(init[j], f, g, m, m1, m2, {job.resources.serial});
      } else {
        forall i | 0 <= i < |f| ensures f[i].name != job.name {
          assert IsJob(f[i].name, init);
        }
        EndedAfter(job, f, g, m, m1, m2, JobSerials(init));
      }
    }
    forall i | 0 <= i < |f + g| ensures IsJob((f + g)[i].name, jobs) {
      if i < |f| {
        var j :| 0 <= j < |init| && init[j].name == f[i].name;
        assert jobs[j].name == (f + g)[i].name;
      } else {
        assert (f + g)[i] == g[i - |f|];
      }
    }
  }
}
