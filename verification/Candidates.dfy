/**
  What a destination replacement builds, the table it commits, and what it then has to clean up
  (`daemon_destination_activation.py`).
 */
module Candidates {
  import opened Prelude
  import opened Tables
  import opened Runtime
  import opened Staging
  import opened Cleanup

  /** `names` lists a set without repetition, as `sorted` does. */
  ghost predicate Lists<K>(names: seq<K>, keys: set<K>) {
    && (forall n | n in names :: n in keys)
    && (forall n | n in keys :: n in names)
    && (forall i: nat, j: nat | i < |names| && j < |names| && i != j :: Differ(names, i, j))
  }

  ghost predicate Differ<K>(names: seq<K>, i: nat, j: nat)
    requires i < |names| && j < |names|
  {
    names[i] != names[j]
  }

  ghost predicate IsDiff<K, V>(changes: seq<Change<K, V>>, configuration: map<K, V>, replacement: map<K, V>) {
    && DistinctNames(changes)
    && (forall i | 0 <= i < |changes| :: changes[i] == ChangeFor(changes[i].name, configuration, replacement))
    && (forall i | 0 <= i < |changes| :: changes[i].name in configuration || changes[i].name in replacement)
    && (forall n | n in configuration :: exists i | 0 <= i < |changes| :: changes[i].name == n)
    && (forall n | n in replacement :: exists i | 0 <= i < |changes| :: changes[i].name == n)
  }

  lemma DiffIsDiff<K, V>(names: seq<K>, before: map<K, V>, after: map<K, V>)
    requires Lists(names, before.Keys + after.Keys)
    ensures IsDiff(Diff(names, before, after), before, after)
  {
    var changes := Diff(names, before, after);
    forall n | n in before.Keys + after.Keys ensures exists i | 0 <= i < |changes| :: changes[i].name == n {
      var i :| 0 <= i < |names| && names[i] == n;
      assert changes[i].name == n;
    }
    forall i | 0 <= i < |changes| ensures changes[i].name in before.Keys + after.Keys {
      assert names[i] in names;
    }
    forall i: nat, j: nat | i < |changes| && j < |changes| && i != j ensures NamesApart(changes, i, j) {
      assert Differ(names, i, j);
    }
  }

  /** An exact difference takes the first table to the second. */
  lemma DiffApplies<K, V>(changes: seq<Change<K, V>>, configuration: map<K, V>, replacement: map<K, V>)
    requires IsDiff(changes, configuration, replacement)
    ensures ApplyChanges(configuration, changes) == replacement
    ensures Changed(changes) <==> configuration != replacement
  {
    var names := NamesIn(changes);
    forall i | 0 <= i < |names| ensures names[i] in configuration || names[i] in replacement {
      assert names[i] == changes[i].name;
    }
    forall n | n in configuration || n in replacement ensures n in names {
      var i :| 0 <= i < |changes| && changes[i].name == n;
      assert names[i] == n;
    }
    assert changes == Diff(names, configuration, replacement);
    ApplyYieldsReplacement(names, configuration, replacement);
    ChangedIffDifferent(names, configuration, replacement);
  }

  function NamesIn<K, V>(changes: seq<Change<K, V>>): (names: seq<K>)
    ensures |names| == |changes| && forall i :: 0 <= i < |names| ==> names[i] == changes[i].name
  {
    seq(|changes|, i requires 0 <= i < |changes| => changes[i].name)
  }

  lemma NothingChanged<K, V>(changes: seq<Change<K, V>>, configuration: map<K, V>, replacement: map<K, V>)
    requires IsDiff(changes, configuration, replacement)
    requires forall i | 0 <= i < |changes| :: changes[i].action == Unchanged
    ensures configuration == replacement
  {
    forall n ensures Lookup(configuration, n) == Lookup(replacement, n) {
      if n in configuration || n in replacement {
        var i :| 0 <= i < |changes| && changes[i].name == n;
        assert changes[i] == ChangeFor(n, configuration, replacement);
      }
    }
    SameLookups(configuration, replacement);
  }

  // Building candidates.

  /** The candidates built so far, the next serial number, and whether a build raised. */
  datatype Building<K, V> = Building(candidates: map<K, Resources<V>>, next: nat, raised: bool)

  /** Every added or replaced name comes with its new destination. */
  predicate Requested<K, V>(changes: seq<Change<K, V>>) {
    forall i | 0 <= i < |changes| && Wanted(changes[i]) :: changes[i].after.Some?
  }

  function BuildNext<K, V>(changes: seq<Change<K, V>>, b: Building<K, V>, k: nat, factory: nat -> Option<bool>):
    Building<K, V>
    requires k < |changes| && Requested(changes)
  {
    var change := changes[k];
    if b.raised || !Wanted(change) then b else
      match factory(b.next)
      case None => b.(next := b.next + 1, raised := true)
      case Some(publishes) =>
        Building(b.candidates[change.name := Resources(change.after.value, b.next, publishes)], b.next + 1, false)
  }

  /**
    The candidates after `k` changes. The factory either raises, or builds fresh resources with
    or without a publisher; its answers are given by serial number.
   */
  function BuildUpTo<K, V>(changes: seq<Change<K, V>>, k: nat, next: nat, factory: nat -> Option<bool>):
    (b: Building<K, V>)
    requires k <= |changes| && Requested(changes)
    ensures !b.raised ==> forall i | 0 <= i < k && Wanted(changes[i]) :: changes[i].name in b.candidates
  {
    if k == 0 then Building(map[], next, false)
    else BuildNext(changes, BuildUpTo(changes, k - 1, next, factory), k - 1, factory)
  }

  lemma {:induction false} BuildStaysRaised<K, V>(
      changes: seq<Change<K, V>>, k: nat, n: nat, next: nat, factory: nat -> Option<bool>)
    requires k <= n <= |changes| && Requested(changes) && BuildUpTo(changes, k, next, factory).raised
    ensures BuildUpTo(changes, n, next, factory) == BuildUpTo(changes, k, next, factory)
    decreases n
  {
    if k < n {
      BuildStaysRaised(changes, k, n - 1, next, factory);
    }
  }

  ghost function NamesOf<K, V>(changes: seq<Change<K, V>>, k: nat, actions: set<Action>): set<K>
    requires k <= |changes|
  {
    set i | 0 <= i < k && changes[i].action in actions :: changes[i].name
  }

  /** The candidates of the first `k` changes, numbered from `lo`; none of their builds raised. */
  ghost predicate Built<K, V>(
      candidates: map<K, Resources<V>>, changes: seq<Change<K, V>>, k: nat, lo: nat, hi: nat, replacement: map<K, V>,
      factory: nat -> Option<bool>)
  {
    && k <= |changes| && lo <= hi
    && candidates.Keys == NamesOf(changes, k, {Added, Action.Replaced})
    && (forall n | n in candidates :: lo <= candidates[n].serial < hi)
    && (forall n | n in candidates :: n in replacement && candidates[n].destination == replacement[n])
    && SerialsUnique(candidates)
    && (forall x | lo <= x < hi :: factory(x).Some?)
  }

  lemma WantedHasDestination<K, V>(changes: seq<Change<K, V>>, configuration: map<K, V>, replacement: map<K, V>, k: nat)
    requires IsDiff(changes, configuration, replacement) && k < |changes| && Wanted(changes[k])
    ensures changes[k].name in replacement && changes[k].after == Some(replacement[changes[k].name])
  {
    assert changes[k] == ChangeFor(changes[k].name, configuration, replacement);
  }

  lemma BuiltStep<K, V>(
      candidates: map<K, Resources<V>>, changes: seq<Change<K, V>>, k: nat, lo: nat, hi: nat, replacement: map<K, V>,
      factory: nat -> Option<bool>, r: Resources<V>)
    requires Built(candidates, changes, k, lo, hi, replacement, factory) && k < |changes| && Wanted(changes[k])
    requires r.serial == hi && factory(hi).Some?
    requires changes[k].name in replacement && r.destination == replacement[changes[k].name]
    ensures Built(candidates[changes[k].name := r], changes, k + 1, lo, hi + 1, replacement, factory)
  {
    assert NamesOf(changes, k + 1, {Added, Action.Replaced})
        == NamesOf(changes, k, {Added, Action.Replaced}) + {changes[k].name};
    var candidates' := candidates[changes[k].name := r];
    forall m, n | m in candidates' && n in candidates' ensures SerialsApart(candidates', m, n) {
      assert m in candidates && n in candidates ==> SerialsApart(candidates, m, n);
    }
  }

  lemma BuiltSkip<K, V>(
      candidates: map<K, Resources<V>>, changes: seq<Change<K, V>>, k: nat, lo: nat, hi: nat, replacement: map<K, V>,
      factory: nat -> Option<bool>)
    requires Built(candidates, changes, k, lo, hi, replacement, factory) && k < |changes| && !Wanted(changes[k])
    ensures Built(candidates, changes, k + 1, lo, hi, replacement, factory)
  {
    assert NamesOf(changes, k + 1, {Added, Action.Replaced}) == NamesOf(changes, k, {Added, Action.Replaced});
  }

  /** Either everything was built, or the last build raised. */
  ghost predicate BuildEnds<K, V>(
      changes: seq<Change<K, V>>, b: Building<K, V>, k: nat, next: nat, factory: nat -> Option<bool>,
      replacement: map<K, V>)
  {
    if b.raised then next < b.next && factory(b.next - 1).None?
    else Built(b.candidates, changes, k, next, b.next, replacement, factory)
  }

  lemma BuildUpToEnds<K, V>(
      changes: seq<Change<K, V>>, k: nat, next: nat, factory: nat -> Option<bool>, configuration: map<K, V>,
      replacement: map<K, V>)
    returns (b: Building<K, V>)
    requires k <= |changes| && Requested(changes) && IsDiff(changes, configuration, replacement)
    ensures b == BuildUpTo(changes, k, next, factory) && BuildEnds(changes, b, k, next, factory, replacement)
  {
    b := Building(map[], next, false);
    for i := 0 to k
      invariant b == BuildUpTo(changes, i, next, factory) && BuildEnds(changes, b, i, next, factory, replacement)
    {
      BuildNextEnds(changes, b, i, next, factory, configuration, replacement);
      b := BuildNext(changes, b, i, factory);
    }
  }

  lemma BuildNextEnds<K, V>(
      changes: seq<Change<K, V>>, b: Building<K, V>, k: nat, next: nat, factory: nat -> Option<bool>,
      configuration: map<K, V>, replacement: map<K, V>)
    requires k < |changes| && Requested(changes) && IsDiff(changes, configuration, replacement)
    requires BuildEnds(changes, b, k, next, factory, replacement)
    ensures BuildEnds(changes, BuildNext(changes, b, k, factory), k + 1, next, factory, replacement)
  {
    if b.raised {
    } else if !Wanted(changes[k]) {
      BuiltSkip(b.candidates, changes, k, next, b.next, replacement, factory);
    } else if factory(b.next).Some? {
      WantedHasDestination(changes, configuration, replacement, k);
      var r := Resources(changes[k].after.value, b.next, factory(b.next).value);
      BuiltStep(b.candidates, changes, k, next, b.next, replacement, factory, r);
    }
  }

  // The committed table, and what it no longer holds.

  predicate Retired<K, V>(change: Change<K, V>) {
    change.action == Removed || change.action == Action.Replaced
  }

  /** What was built for this request, and what it left unchanged. */
  function CommittedTable<K, V>(
      replacement: map<K, V>, candidates: map<K, Resources<V>>, resources: map<K, Resources<V>>): map<K, Resources<V>>
  {
    map n | n in replacement && (n in candidates || n in resources) ::
      if n in candidates then candidates[n] else resources[n]
  }

  method RemoveNames<K, V>(changes: seq<Change<K, V>>, table: map<K, Resources<V>>) returns (kept: map<K, Resources<V>>)
    ensures kept == table - NamesOf(changes, |changes|, {Removed})
  {
    kept := table;
    for k := 0 to |changes|
      invariant kept == table - NamesOf(changes, k, {Removed})
    {
      assert NamesOf(changes, k + 1, {Removed})
          == NamesOf(changes, k, {Removed}) + if changes[k].action == Removed then {changes[k].name} else {};
      if changes[k].action == Removed {
        kept := kept - {changes[k].name};
      }
    }
  }

  method PutCandidates<K, V>(changes: seq<Change<K, V>>, candidates: map<K, Resources<V>>, table: map<K, Resources<V>>)
    returns (m: map<K, Resources<V>>)
    requires Supplied(changes, candidates)
    ensures m.Keys == table.Keys + NamesOf(changes, |changes|, {Added, Action.Replaced})
    ensures forall n | n in m :: n in NamesOf(changes, |changes|, {Added, Action.Replaced}) ==>
                                   n in candidates && m[n] == candidates[n]
    ensures forall n | n in m :: n !in NamesOf(changes, |changes|, {Added, Action.Replaced}) ==> m[n] == table[n]
  {
    m := table;
    ghost var wanted := {Added, Action.Replaced};
    for k := 0 to |changes|
      invariant m.Keys == table.Keys + NamesOf(changes, k, wanted)
      invariant forall n | n in m :: n in NamesOf(changes, k, wanted) ==> n in candidates && m[n] == candidates[n]
      invariant forall n | n in m :: n !in NamesOf(changes, k, wanted) ==> m[n] == table[n]
    {
      assert NamesOf(changes, k + 1, wanted)
          == NamesOf(changes, k, wanted) + if Wanted(changes[k]) then {changes[k].name} else {};
      if Wanted(changes[k]) {
        m := m[changes[k].name := candidates[changes[k].name]];
      }
    }
  }

  /** Copy the table, drop the removed names, put the candidates in. */
  method CommitTable<K, V>(
      changes: seq<Change<K, V>>, candidates: map<K, Resources<V>>, resources: map<K, Resources<V>>,
      ghost configuration: map<K, V>, ghost replacement: map<K, V>)
    returns (committed: map<K, Resources<V>>)
    requires IsDiff(changes, configuration, replacement) && resources.Keys == configuration.Keys
    requires Supplied(changes, candidates)
    requires candidates.Keys == NamesOf(changes, |changes|, {Added, Action.Replaced})
    ensures committed == CommittedTable(replacement, candidates, resources)
    ensures committed.Keys == replacement.Keys
  {
    var kept := RemoveNames(changes, resources);
    committed := PutCandidates(changes, candidates, kept);
    NamesByAction(changes, configuration, replacement);
    KeptAndCandidates(configuration, replacement, candidates, resources, kept, committed);
  }

  lemma KeptAndCandidates<K, V>(
      configuration: map<K, V>, replacement: map<K, V>, candidates: map<K, Resources<V>>,
      resources: map<K, Resources<V>>, kept: map<K, Resources<V>>, committed: map<K, Resources<V>>)
    requires resources.Keys == configuration.Keys
    requires candidates.Keys == set n | n in replacement && Lookup(configuration, n) != Some(replacement[n])
    requires kept == resources - (configuration.Keys - replacement.Keys)
    requires committed.Keys == kept.Keys + candidates.Keys
    requires forall n | n in committed :: committed[n] == if n in candidates then candidates[n] else kept[n]
    ensures committed == CommittedTable(replacement, candidates, resources) && committed.Keys == replacement.Keys
  {
    assert kept.Keys == configuration.Keys * replacement.Keys;
    assert committed.Keys == replacement.Keys;
  }

  lemma NamesByAction<K, V>(changes: seq<Change<K, V>>, configuration: map<K, V>, replacement: map<K, V>)
    requires IsDiff(changes, configuration, replacement)
    ensures NamesOf(changes, |changes|, {Removed}) == configuration.Keys - replacement.Keys
    ensures NamesOf(changes, |changes|, {Added, Action.Replaced})
          == set n | n in replacement && Lookup(configuration, n) != Some(replacement[n])
  {
    forall n ensures n in NamesOf(changes, |changes|, {Removed}) <==> n in configuration.Keys - replacement.Keys {
      if n in configuration.Keys - replacement.Keys {
        var i :| 0 <= i < |changes| && changes[i].name == n;
        assert changes[i].action == Removed;
      }
    }
    forall n ensures n in NamesOf(changes, |changes|, {Added, Action.Replaced})
                <==> n in replacement && Lookup(configuration, n) != Some(replacement[n])
    {
      if n in replacement && Lookup(configuration, n) != Some(replacement[n]) {
        var i :| 0 <= i < |changes| && changes[i].name == n;
        assert changes[i].action in {Added, Action.Replaced};
      }
    }
  }

  function JobOf<K, V>(change: Change<K, V>, resources: map<K, Resources<V>>): Job<K, V>
    requires change.name in resources
  {
    Job(change.name, resources[change.name], change.action == Removed)
  }

  /** The cleanup of a replacement: changes from `k` on, last first; a removed sink is still attached. */
  function RetiredJobs<K, V>(changes: seq<Change<K, V>>, resources: map<K, Resources<V>>, k: nat): seq<Job<K, V>>
    requires k <= |changes|
    requires forall i | 0 <= i < |changes| && Retired(changes[i]) :: changes[i].name in resources
    decreases |changes| - k
  {
    if k == |changes| then [] else
      RetiredJobs(changes, resources, k + 1) + if Retired(changes[k]) then [JobOf(changes[k], resources)] else []
  }

  /** The jobs are those of the retired changes, each once. */
  lemma {:induction false} RetiredJobsAre<K, V>(changes: seq<Change<K, V>>, resources: map<K, Resources<V>>, k: nat)
    returns (jobs: seq<Job<K, V>>)
    requires k <= |changes| && DistinctNames(changes) && SerialsUnique(resources)
    requires forall i | 0 <= i < |changes| && Retired(changes[i]) :: changes[i].name in resources
    ensures jobs == RetiredJobs(changes, resources, k) && DistinctJobs(jobs)
    ensures forall j | 0 <= j < |jobs| :: IsRetired(changes, resources, k, jobs[j])
    ensures forall i | k <= i < |changes| && Retired(changes[i]) :: JobOf(changes[i], resources) in jobs
    decreases |changes| - k
  {
    if k == |changes| {
      jobs := [];
    } else {
      var later := RetiredJobsAre(changes, resources, k + 1);
      jobs := later;
      if Retired(changes[k]) {
        var job := JobOf(changes[k], resources);
        jobs := later + [job];
        forall j | 0 <= j < |later| ensures later[j].name != job.name {
          assert IsRetired(changes, resources, k + 1, later[j]);
          var i :| k + 1 <= i < |changes| && Retired(changes[i]) && later[j] == JobOf(changes[i], resources);
          assert NamesApart(changes, i, k);
        }
        OneMoreJob(later, job, resources);
      }
      forall j | 0 <= j < |jobs| ensures IsRetired(changes, resources, k, jobs[j]) {
        if j < |later| {
          assert jobs[j] == later[j] && IsRetired(changes, resources, k + 1, later[j]);
        }
      }
    }
  }

  ghost predicate IsRetired<K, V>(
      changes: seq<Change<K, V>>, resources: map<K, Resources<V>>, k: nat, job: Job<K, V>)
    requires forall i | 0 <= i < |changes| && Retired(changes[i]) :: changes[i].name in resources
  {
    exists i | k <= i < |changes| && Retired(changes[i]) :: job == JobOf(changes[i], resources)
  }

  ghost predicate JobFor<K, V>(job: Job<K, V>, resources: map<K, Resources<V>>) {
    job.name in resources && job.resources == resources[job.name]
  }

  /** Jobs for different names of a table are for different resources. */
  lemma OneMoreJob<K, V>(jobs: seq<Job<K, V>>, job: Job<K, V>, resources: map<K, Resources<V>>)
    requires DistinctJobs(jobs) && SerialsUnique(resources)
    requires JobFor(job, resources)
    requires forall j | 0 <= j < |jobs| :: JobFor(jobs[j], resources) && jobs[j].name != job.name
    ensures DistinctJobs(jobs + [job])
  {
    var all := jobs + [job];
    forall i: nat, j: nat | i < |all| && j < |all| && i != j ensures JobsApart(all, i, j) {
      if i < |jobs| && j < |jobs| {
        assert JobsApart(jobs, i, j);
      } else {
        var o := if i < |jobs| then i else j;
        assert all[o] == jobs[o] && JobFor(jobs[o], resources);
        assert SerialsApart(resources, jobs[o].name, job.name);
      }
    }
  }

  /** The cleanup of a close: names from `k` on, last first. */
  function HeldJobs<K, V>(names: seq<K>, resources: map<K, Resources<V>>, k: nat): seq<Job<K, V>>
    requires k <= |names| && forall i | 0 <= i < |names| :: names[i] in resources
    decreases |names| - k
  {
    if k == |names| then [] else HeldJobs(names, resources, k + 1) + [Job(names[k], resources[names[k]], true)]
  }

  /** The jobs are those of the names, each once. */
  lemma HeldJobsAre<K, V>(names: seq<K>, resources: map<K, Resources<V>>) returns (jobs: seq<Job<K, V>>)
    requires Lists(names, resources.Keys) && SerialsUnique(resources)
    ensures jobs == HeldJobs(names, resources, 0) && DistinctJobs(jobs)
    ensures forall j | 0 <= j < |jobs| :: JobFor(jobs[j], resources) && jobs[j].attached
    ensures forall i | 0 <= i < |names| :: Job(names[i], resources[names[i]], true) in jobs
  {
    jobs := [];
    var k := |names|;
    while k > 0
      invariant 0 <= k <= |names|
      invariant jobs == HeldJobs(names, resources, k) && DistinctJobs(jobs)
      invariant forall j | 0 <= j < |jobs| ::
                  JobFor(jobs[j], resources) && jobs[j].attached && jobs[j].name in names[k..]
      invariant forall i | k <= i < |names| :: Job(names[i], resources[names[i]], true) in jobs
    {
      k := k - 1;
      var job := Job(names[k], resources[names[k]], true);
      forall j | 0 <= j < |jobs| ensures jobs[j].name != job.name && jobs[j].name in names[k..] {
        assert jobs[j].name in names[k + 1..];
        var i :| k + 1 <= i < |names| && names[i] == jobs[j].name;
        assert Differ(names, i, k);
      }
      OneMoreJob(jobs, job, resources);
      jobs := jobs + [job];
    }
  }
}
