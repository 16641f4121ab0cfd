/** The coordinator of the daemon: named destinations, visited in the order of their names. */
module DaemonCoordinator {
  import opened Prelude
  import opened Texts
  import opened Tables
  import opened Destinations
  import opened Runtime
  import opened Candidates
  import opened Replacement
  import opened Coordinator

  lemma SortedKeysListThem(keys: set<Text>)
    ensures Lists(SortedKeys(keys), keys)
  {
    SortedKeysSorted(keys);
    var names := SortedKeys(keys);
    SortedDistinct(names);
    forall i: nat, j: nat | i < |names| && j < |names| && i != j ensures Differ(names, i, j) {
      assert names[if i < j then i else j] != names[if i < j then j else i];
    }
  }

  /** A coordinator over the daemon's destinations, initially with nothing activated. */
  method Create(runtime: DaemonRuntime, initial: Configuration, factory: nat -> Option<bool>)
    returns (c: DestinationCoordinator<Text, Destination>)
    requires runtime.Now() == Machine(map[], [])
    ensures fresh(c) && c.Valid() && c.runtime == runtime && c.factory == factory
    ensures c.initialConfiguration == initial.ByName()
    ensures c.Now() == State(map[], map[], 0, false, false, Machine(map[], []))
    ensures forall keys :: c.order(keys) == SortedKeys(keys)
  {
    forall keys: set<Text> ensures Lists(SortedKeys(keys), keys) {
      SortedKeysListThem(keys);
    }
    c := new DestinationCoordinator(runtime, SortedKeys, initial.ByName(), factory);
  }

  /** A replacement by such a coordinator that returns reports the preview of the replacement. */
  method ReplaceDestinations(c: DestinationCoordinator<Text, Destination>, replacement: Configuration)
    returns (result: ReplacementResult<Text, Destination>)
    requires c.Valid() && forall keys :: c.order(keys) == SortedKeys(keys)
    modifies c`configuration, c`resources, c`nextSerial, c.runtime
    ensures c.Valid() && Outcome(old(c.Now()), c.Now(), replacement.ByName(), c.factory, result)
    ensures result.Done? ==> result.changes == Preview(old(c.configuration), replacement.ByName())
  {
    ghost var names := SortedKeys(c.configuration.Keys + replacement.ByName().Keys);
    ghost var before := c.configuration;
    result := c.Replace(replacement.ByName());
    if result.Done? {
      NamedDiff(result.changes, names, before, replacement.ByName());
      ReportsPreview(c.order, before, replacement.ByName());
    }
  }

  /** A difference is determined by the order of its names. */
  lemma NamedDiff(
      changes: seq<Change<Text, Destination>>, names: seq<Text>, before: map<Text, Destination>,
      after: map<Text, Destination>)
    requires IsDiff(changes, before, after) && NamesIn(changes) == names
    ensures changes == Diff(names, before, after)
  {
    assert |changes| == |names|;
  }

  /** The difference in the order of such a coordinator is the replacement preview. */
  lemma ReportsPreview(order: set<Text> -> seq<Text>, before: map<Text, Destination>, after: map<Text, Destination>)
    requires forall keys :: order(keys) == SortedKeys(keys)
    ensures Diff(order(before.Keys + after.Keys), before, after) == Preview(before, after)
    ensures ApplyChanges(before, Diff(order(before.Keys + after.Keys), before, after)) == after
  {
    PreviewApplies(before, after);
  }
}
