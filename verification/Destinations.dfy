/**
  The desired set of daemon destinations and the preview of replacing it by another one
  (`daemon_destinations.py`).
 */
module Destinations {
  import opened Prelude
  import opened Texts
  import opened Tables

  datatype Backend = Auto | SoundDevice | PipeWire | PulseAudio | Alsa
  datatype Device = DefaultDevice | DeviceIndex(index: nat) | DeviceName(device: Text)

  datatype Destination =
    | Playback(name: Text, backend: Backend, device: Device, bufferMs: int)
    | Recording(name: Text, path: Text, overwrite: bool, bufferSeconds: real)
    | RemoteProfile(name: Text, profile: Text, publishMetadata: bool, minimumInterval: real)

  type DestinationChange = Change<Text, Destination>

  /** `_require_name`: not empty, not padded, no control characters. */
  predicate ValidName(name: Text) {
    && NotPadded(name)
    && forall i :: 0 <= i < |name| ==> 32 <= name[i] && name[i] != 127
  }

  datatype Error =
    | InvalidName | DuplicateNames
    | InvalidBefore | InvalidAfter | NameMismatch | UnchangedDiffer | ReplacedEqual
    | NotSorted | NotUnique

  function Names(destinations: seq<Destination>): (names: seq<Text>)
    ensures |names| == |destinations|
    ensures forall i :: 0 <= i < |names| ==> names[i] == destinations[i].name
  {
    seq(|destinations|, i requires 0 <= i < |destinations| => destinations[i].name)
  }

  datatype Configuration = Configuration(destinations: seq<Destination>) {
    /** What construction establishes: valid names in strictly ascending order. */
    ghost predicate Valid() {
      && Sorted(Names(destinations))
      && forall i :: 0 <= i < |destinations| ==> ValidName(destinations[i].name)
    }

    /** `{destination.name: destination for destination in self.destinations}` */
    function ByName(): map<Text, Destination> {
      Table(Names(destinations), destinations)
    }
  }

  /** Every entry is filed under its own, valid name. */
  ghost predicate Keyed(table: map<Text, Destination>) {
    forall n | n in table :: table[n].name == n && ValidName(n)
  }

  lemma ByNameKeyed(c: Configuration)
    requires c.Valid()
    ensures Keyed(c.ByName())
  {
    var names := Names(c.destinations);
    SortedDistinct(names);
    TableLooksUp(names, c.destinations);
    forall n | n in c.ByName() ensures c.ByName()[n].name == n && ValidName(n) {
      var i :| 0 <= i < |names| && names[i] == n;
      assert Lookup(c.ByName(), names[i]) == Some(c.destinations[i]);
    }
  }

  /** Configurations with the same entries are equal, whatever order they were given in. */
  lemma ByNameInjective(a: Configuration, b: Configuration)
    requires a.Valid() && b.Valid() && a.ByName() == b.ByName()
    ensures a == b
  {
    var xs, ys := Names(a.destinations), Names(b.destinations);
    TableLooksUp(xs, a.destinations);
    TableLooksUp(ys, b.destinations);
    forall x ensures x in xs <==> x in ys {
      assert x in xs <==> x in a.ByName();
      assert x in ys <==> x in b.ByName();
    }
    SortedUnique(xs, ys);
    SortedDistinct(xs);
    TableInjective(xs, a.destinations, b.destinations);
  }

  // Construction of a configuration.

  lemma {:induction false} DistinctIffCount<T>(xs: seq<T>)
    ensures Distinct(xs) <==> |set x | x in xs| == |xs|
    ensures |set x | x in xs| <= |xs|
  {
    if xs != [] {
      var last := |xs| - 1;
      var init := xs[..last];
      DistinctIffCount(init);
      assert (set x | x in xs) == (set x | x in init) + {xs[last]};
      if Distinct(xs) {
        assert xs[last] !in init;
      } else if Distinct(init) {
        var i, j :| 0 <= i < j < |xs| && xs[i] == xs[j];
        assert init[i] == xs[i] && j == last;
      }
    }
  }

  /** The destinations of a table, sorted by name. */
  function Listing(table: map<Text, Destination>): (c: Configuration)
    ensures |c.destinations| == |SortedKeys(table.Keys)|
  {
    var names := SortedKeys(table.Keys);
    assert forall i | 0 <= i < |names| :: names[i] in names;
    Configuration(seq(|names|, i requires 0 <= i < |names| => table[names[i]]))
  }

  /** `DaemonDestinationConfiguration.__post_init__`: no duplicate names, then sorting by name. */
  function MakeConfiguration(destinations: seq<Destination>): (r: Result<Configuration, Error>)
    requires forall d | d in destinations :: ValidName(d.name)
    ensures r.Ok? <==> Distinct(Names(destinations))
    ensures r.Err? ==> r.error == DuplicateNames
  {
    var names := Names(destinations);
    if exists i, j :: 0 <= i < j < |names| && names[i] == names[j] then Err(DuplicateNames)
    else Ok(Listing(Table(names, destinations)))
  }

  lemma ListingIsValid(table: map<Text, Destination>)
    requires Keyed(table)
    ensures Listing(table).Valid() && Listing(table).ByName() == table
  {
    var names := SortedKeys(table.Keys);
    SortedKeysSorted(table.Keys);
    SortedDistinct(names);
    assert forall i | 0 <= i < |names| :: names[i] in names;
    assert Names(Listing(table).destinations) == names;
    SortedIsTable(table, names, Listing(table).destinations);
  }

  /** What construction makes of its argument: a valid configuration of the same entries. */
  lemma ConstructionSorts(destinations: seq<Destination>)
    requires forall d | d in destinations :: ValidName(d.name)
    requires Distinct(Names(destinations))
    ensures var c := MakeConfiguration(destinations).value;
            c.Valid() && c.ByName() == Table(Names(destinations), destinations)
  {
    var names := Names(destinations);
    var table := Table(names, destinations);
    TableLooksUp(names, destinations);
    forall n | n in table ensures table[n].name == n && ValidName(n) {
      var i :| 0 <= i < |names| && names[i] == n;
      assert Lookup(table, names[i]) == Some(destinations[i]) && destinations[i] in destinations;
    }
    ListingIsValid(table);
  }

  /** Listing a table by its keys and collecting it again gives the table. */
  lemma SortedIsTable(table: map<Text, Destination>, keys: seq<Text>, values: seq<Destination>)
    requires |keys| == |values| && Distinct(keys)
    requires forall n :: n in keys <==> n in table
    requires forall i | 0 <= i < |keys| :: keys[i] in table && values[i] == table[keys[i]]
    ensures Table(keys, values) == table
  {
    TableLooksUp(keys, values);
    forall n ensures Lookup(Table(keys, values), n) == Lookup(table, n) {
      if n in keys {
        var i :| 0 <= i < |keys| && keys[i] == n;
        assert Lookup(Table(keys, values), keys[i]) == Some(values[i]);
      }
    }
    SameLookups(Table(keys, values), table);
  }

  /** The order in which destinations are given makes no difference. */
  lemma ConstructionIgnoresOrder(xs: seq<Destination>, ys: seq<Destination>)
    requires forall d | d in xs :: ValidName(d.name)
    requires multiset(xs) == multiset(ys)
    ensures forall d | d in ys :: d in xs
    ensures MakeConfiguration(xs) == MakeConfiguration(ys)
  {
    assert |xs| == |multiset(xs)| == |multiset(ys)| == |ys|;
    forall d ensures d in xs <==> d in ys {
      assert d in xs <==> d in multiset(xs);
      assert d in ys <==> d in multiset(ys);
    }
    SameNames(xs, ys);
    if Distinct(Names(xs)) {
      ConstructionSorts(xs);
      ConstructionSorts(ys);
      SameTable(xs, ys);
      ByNameInjective(MakeConfiguration(xs).value, MakeConfiguration(ys).value);
    }
  }

  lemma SameNames(xs: seq<Destination>, ys: seq<Destination>)
    requires |xs| == |ys| && forall d :: d in xs <==> d in ys
    ensures forall n :: n in Names(xs) <==> n in Names(ys)
    ensures Distinct(Names(xs)) <==> Distinct(Names(ys))
  {
    forall n ensures n in Names(xs) <==> n in Names(ys) {
      if n in Names(xs) {
        var i :| 0 <= i < |xs| && xs[i].name == n;
        assert xs[i] in ys;
        var j :| 0 <= j < |ys| && ys[j] == xs[i];
        assert Names(ys)[j] == n;
      }
      if n in Names(ys) {
        var i :| 0 <= i < |ys| && ys[i].name == n;
        assert ys[i] in xs;
        var j :| 0 <= j < |xs| && xs[j] == ys[i];
        assert Names(xs)[j] == n;
      }
    }
    assert (set n | n in Names(xs)) == set n | n in Names(ys);
    DistinctIffCount(Names(xs));
    DistinctIffCount(Names(ys));
  }

  lemma SameTable(xs: seq<Destination>, ys: seq<Destination>)
    requires Distinct(Names(xs)) && Distinct(Names(ys)) && forall d :: d in xs <==> d in ys
    requires forall n :: n in Names(xs) <==> n in Names(ys)
    ensures Table(Names(xs), xs) == Table(Names(ys), ys)
  {
    TableLooksUp(Names(xs), xs);
    TableLooksUp(Names(ys), ys);
    forall n ensures Lookup(Table(Names(xs), xs), n) == Lookup(Table(Names(ys), ys), n) {
      if n in Names(xs) {
        var i :| 0 <= i < |xs| && Names(xs)[i] == n;
        assert xs[i] in ys;
        var j :| 0 <= j < |ys| && ys[j] == xs[i];
        assert Lookup(Table(Names(xs), xs), Names(xs)[i]) == Some(xs[i]);
        assert Lookup(Table(Names(ys), ys), Names(ys)[j]) == Some(ys[j]);
      }
    }
    SameLookups(Table(Names(xs), xs), Table(Names(ys), ys));
  }

  /**
    `DaemonDestinationChange.__post_init__`, in the order of its checks. An entry is made exactly
    when it has a valid name, which before and after bear, and the action is what they amount to.
   */
  function MakeChange(name: Text, action: Action, before: Option<Destination>, after: Option<Destination>):
    (r: Result<DestinationChange, Error>)
    ensures r.Ok? ==> r.value == Change(name, action, before, after)
    ensures r.Ok? <==>
              && ValidName(name)
              && (before.Some? || after.Some?) && action == Classify(before, after)
              && (before.Some? ==> before.value.name == name) && (after.Some? ==> after.value.name == name)
    ensures r == Err(InvalidName) <==> !ValidName(name)
    ensures r == Err(NameMismatch) ==>
              (before.Some? && before.value.name != name) || (after.Some? && after.value.name != name)
    ensures r == Err(InvalidBefore) || r == Err(InvalidAfter) ==>
              (before.None? && after.None?) || action != Classify(before, after)
    ensures r == Err(UnchangedDiffer) ==> action == Unchanged && before != after
    ensures r == Err(ReplacedEqual) ==> action == Replaced && before == after
    ensures r != Err(DuplicateNames) && r != Err(NotSorted) && r != Err(NotUnique)
  {
    if !ValidName(name) then Err(InvalidName)
    else if before.Some? != !action.Added? then Err(InvalidBefore)
    else if after.Some? != !action.Removed? then Err(InvalidAfter)
    else if before.Some? && before.value.name != name then Err(NameMismatch)
    else if after.Some? && after.value.name != name then Err(NameMismatch)
    else if action.Unchanged? && before != after then Err(UnchangedDiffer)
    else if action.Replaced? && before == after then Err(ReplacedEqual)
    else Ok(Change(name, action, before, after))
  }

  function ChangeNames(changes: seq<DestinationChange>): (names: seq<Text>)
    ensures |names| == |changes|
    ensures forall i :: 0 <= i < |names| ==> names[i] == changes[i].name
  {
    seq(|changes|, i requires 0 <= i < |changes| => changes[i].name)
  }

  /** `DaemonDestinationReplacementPreview.__post_init__`: sorted names, then unique names. */
  function MakePreview(changes: seq<DestinationChange>): (r: Result<seq<DestinationChange>, Error>)
    ensures Sorted(ChangeNames(changes)) ==> r == Ok(changes)
  {
    var names := ChangeNames(changes);
    if exists i, j :: 0 <= i < j < |names| && Less(names[j], names[i]) then
      assert Sorted(names) ==> false by {
        if Sorted(names) {
          var i, j :| 0 <= i < j < |names| && Less(names[j], names[i]);
          LessAsymmetric(names[i], names[j]);
        }
      }
      Err(NotSorted)
    else if exists i, j :: 0 <= i < j < |names| && names[i] == names[j] then
      assert Sorted(names) ==> false by {
        if Sorted(names) {
          SortedDistinct(names);
        }
      }
      Err(NotUnique)
    else Ok(changes)
  }

  /** The names a preview lists: `sorted(before.keys() | after.keys())`. */
  function PreviewNames(before: map<Text, Destination>, after: map<Text, Destination>): seq<Text> {
    SortedKeys(before.Keys + after.Keys)
  }

  /** The preview as a function of the two tables. */
  function Preview(before: map<Text, Destination>, after: map<Text, Destination>): seq<DestinationChange> {
    Diff(PreviewNames(before, after), before, after)
  }

  /** The preview names are exactly the keys of the two tables. */
  lemma PreviewNamesCover(before: map<Text, Destination>, after: map<Text, Destination>)
    ensures Covers(PreviewNames(before, after), before, after)
  {
    var keys := before.Keys + after.Keys;
    var names := PreviewNames(before, after);
    forall i | 0 <= i < |names| ensures names[i] in before || names[i] in after {
      assert names[i] in keys;
    }
  }

  /** The body of the loop: decide the action and build the entry. */
  method PreviewEntry(name: Text, before: map<Text, Destination>, after: map<Text, Destination>)
    returns (r: Result<DestinationChange, Error>)
    requires Keyed(before) && Keyed(after) && (name in before || name in after)
    ensures r == Ok(ChangeFor(name, before, after))
  {
    var previous := Lookup(before, name);
    var desired := Lookup(after, name);
    var action :=
      if previous.None? then Added
      else if desired.None? then Removed
      else if previous == desired then Unchanged
      else Replaced;
    r := MakeChange(name, action, previous, desired);
  }

  /** The whole preview passes its constructor. */
  lemma PreviewIsWellFormed(before: map<Text, Destination>, after: map<Text, Destination>)
    ensures MakePreview(Preview(before, after)) == Ok(Preview(before, after))
  {
    SortedKeysSorted(before.Keys + after.Keys);
    assert ChangeNames(Preview(before, after)) == PreviewNames(before, after);
  }

  /** The loop over the names. */
  method PreviewEntries(names: seq<Text>, before: map<Text, Destination>, after: map<Text, Destination>)
    returns (r: Result<seq<DestinationChange>, Error>)
    requires Keyed(before) && Keyed(after) && Covers(names, before, after)
    ensures r == Ok(Diff(names, before, after))
  {
    var changes: seq<DestinationChange> := [];
    for k := 0 to |names|
      invariant |changes| == k
      invariant forall i :: 0 <= i < k ==> changes[i] == ChangeFor(names[i], before, after)
    {
      var entry := PreviewEntry(names[k], before, after);
      match entry
      case Err(error) => return Err(error);
      case Ok(change) => changes := changes + [change];
    }
    assert changes == Diff(names, before, after);
    return Ok(changes);
  }

  /** `preview_daemon_destination_replacement` never trips the checks of its own constructors. */
  method PreviewReplacement(current: Configuration, replacement: Configuration)
    returns (r: Result<seq<DestinationChange>, Error>)
    requires current.Valid() && replacement.Valid()
    ensures r == Ok(Preview(current.ByName(), replacement.ByName()))
  {
    ByNameKeyed(current);
    ByNameKeyed(replacement);
    var before := current.ByName();
    var after := replacement.ByName();
    PreviewNamesCover(before, after);
    PreviewIsWellFormed(before, after);
    var entries := PreviewEntries(PreviewNames(before, after), before, after);
    match entries
    case Err(error) => return Err(error);
    case Ok(changes) => r := MakePreview(changes);
  }

  /** Applying the preview to the current table yields the replacement. */
  lemma PreviewApplies(before: map<Text, Destination>, after: map<Text, Destination>)
    ensures ApplyChanges(before, Preview(before, after)) == after
  {
    PreviewNamesCover(before, after);
    ApplyYieldsReplacement(PreviewNames(before, after), before, after);
  }

  /** `changed` is false exactly when the two configurations are equal. */
  lemma ChangedIffConfigurationsDiffer(current: Configuration, replacement: Configuration)
    requires current.Valid() && replacement.Valid()
    ensures Changed(Preview(current.ByName(), replacement.ByName())) <==> current != replacement
  {
    var before, after := current.ByName(), replacement.ByName();
    PreviewNamesCover(before, after);
    ChangedIffDifferent(PreviewNames(before, after), before, after);
    if before == after {
      ByNameInjective(current, replacement);
    }
  }

  /** Swapping the arguments gives the inverse preview. */
  lemma SwappedPreviewIsInverse(before: map<Text, Destination>, after: map<Text, Destination>)
    ensures |Preview(after, before)| == |Preview(before, after)|
    ensures forall i :: 0 <= i < |Preview(before, after)| ==>
                          Preview(after, before)[i] == Inverse(Preview(before, after)[i])
  {
    PreviewNamesCover(before, after);
    assert before.Keys + after.Keys == after.Keys + before.Keys;
    SwapGivesInverse(PreviewNames(before, after), before, after);
  }
}
