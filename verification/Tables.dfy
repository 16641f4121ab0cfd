/**
  Dictionaries built from parallel sequences, and the exact difference of two dictionaries.

  Everything here is generic in the key and the value, because nothing in the difference of
  two desired sets depends on what a destination is.
 */
module Tables {
  import opened Prelude

  ghost predicate Distinct<K>(keys: seq<K>) {
    forall i, j :: 0 <= i < j < |keys| ==> keys[i] != keys[j]
  }

  /** `dict(zip(keys, values))`: a later entry replaces an earlier one. */
  function Table<K, V>(keys: seq<K>, values: seq<V>): (m: map<K, V>)
    requires |keys| == |values|
  {
    if keys == [] then map[] else
      var last := |keys| - 1;
      Table(keys[..last], values[..last])[keys[last] := values[last]]
  }

  lemma {:induction false} TableLooksUp<K, V>(keys: seq<K>, values: seq<V>)
    requires |keys| == |values|
    ensures Table(keys, values).Keys == set i | 0 <= i < |keys| :: keys[i]
    ensures Distinct(keys) ==> forall i :: 0 <= i < |keys| ==> Lookup(Table(keys, values), keys[i]) == Some(values[i])
  {
    if keys != [] {
      var last := |keys| - 1;
      TableLooksUp(keys[..last], values[..last]);
      assert forall i | 0 <= i < last :: keys[i] == keys[..last][i] && values[i] == values[..last][i];
    }
  }

  /** Distinct keys and values can be read back from the table. */
  lemma TableInjective<K, V>(keys: seq<K>, values: seq<V>, values': seq<V>)
    requires |keys| == |values| == |values'| && Distinct(keys)
    requires Table(keys, values) == Table(keys, values')
    ensures values == values'
  {
    TableLooksUp(keys, values);
    TableLooksUp(keys, values');
    forall i | 0 <= i < |keys| ensures values[i] == values'[i] {
      assert Some(values[i]) == Lookup(Table(keys, values), keys[i]) == Some(values'[i]);
    }
  }

  datatype Action = Added | Removed | Replaced | Unchanged

  datatype Change<K, V> = Change(name: K, action: Action, before: Option<V>, after: Option<V>)

  function Classify<V(==)>(before: Option<V>, after: Option<V>): Action {
    if before.None? then Added
    else if after.None? then Removed
    else if before == after then Unchanged
    else Replaced
  }

  function ChangeFor<K, V(==)>(name: K, before: map<K, V>, after: map<K, V>): Change<K, V> {
    Change(name, Classify(Lookup(before, name), Lookup(after, name)), Lookup(before, name), Lookup(after, name))
  }

  /** One change per name, in the order of `names`. */
  function Diff<K, V(==)>(names: seq<K>, before: map<K, V>, after: map<K, V>): (changes: seq<Change<K, V>>) {
    seq(|names|, i requires 0 <= i < |names| => ChangeFor(names[i], before, after))
  }

  /** `names` lists every key of either table. */
  ghost predicate Covers<K, V>(names: seq<K>, before: map<K, V>, after: map<K, V>) {
    && (forall i :: 0 <= i < |names| ==> names[i] in before || names[i] in after)
    && (forall n | n in before :: n in names)
    && (forall n | n in after :: n in names)
  }

  /** `changed` */
  ghost predicate Changed<K, V>(changes: seq<Change<K, V>>) {
    exists i :: 0 <= i < |changes| && changes[i].action != Unchanged
  }

  function ApplyChange<K, V>(m: map<K, V>, change: Change<K, V>): map<K, V> {
    match change.action
    case Removed => m - {change.name}
    case Unchanged => m
    case _ => if change.after.Some? then m[change.name := change.after.value] else m
  }

  function ApplyChanges<K, V>(m: map<K, V>, changes: seq<Change<K, V>>): map<K, V> {
    if changes == [] then m
    else ApplyChange(ApplyChanges(m, changes[..|changes| - 1]), changes[|changes| - 1])
  }

  /** A table in which the names listed so far already have their new value. */
  lemma {:induction false} ApplyPrefix<K, V>(names: seq<K>, before: map<K, V>, after: map<K, V>)
    requires forall i :: 0 <= i < |names| ==> names[i] in before || names[i] in after
    ensures var m := ApplyChanges(before, Diff(names, before, after));
            forall n :: Lookup(m, n) == if n in names then Lookup(after, n) else Lookup(before, n)
  {
    if names != [] {
      var last := |names| - 1;
      ApplyPrefix(names[..last], before, after);
      assert Diff(names, before, after)[..last] == Diff(names[..last], before, after);
      assert names == names[..last] + [names[last]];
    }
  }

  /** Applying the difference to the first table yields the second. */
  lemma ApplyYieldsReplacement<K, V>(names: seq<K>, before: map<K, V>, after: map<K, V>)
    requires Covers(names, before, after)
    ensures ApplyChanges(before, Diff(names, before, after)) == after
  {
    ApplyPrefix(names, before, after);
    var m := ApplyChanges(before, Diff(names, before, after));
    forall n ensures Lookup(m, n) == Lookup(after, n) {
      assert n !in names ==> n !in before && n !in after;
    }
    SameLookups(m, after);
  }

  lemma SameLookups<K, V>(a: map<K, V>, b: map<K, V>)
    requires forall n :: Lookup(a, n) == Lookup(b, n)
    ensures a == b
  {
    assert forall n :: n in a <==> Lookup(a, n).Some?;
    assert forall n :: n in b <==> Lookup(b, n).Some?;
    assert forall n | n in a :: Lookup(a, n) == Some(a[n]);
  }

  /** The difference reports a change exactly when the tables differ. */
  lemma ChangedIffDifferent<K, V>(names: seq<K>, before: map<K, V>, after: map<K, V>)
    requires Covers(names, before, after)
    ensures Changed(Diff(names, before, after)) <==> before != after
  {
    var changes := Diff(names, before, after);
    if !Changed(changes) {
      forall n ensures Lookup(before, n) == Lookup(after, n) {
        if n in names {
          var i :| 0 <= i < |names| && names[i] == n;
          assert changes[i].action == Unchanged;
        }
      }
      SameLookups(before, after);
    }
  }

  function Inverse<K, V>(change: Change<K, V>): Change<K, V> {
    Change(
      change.name,
      match change.action case Added => Removed case Removed => Added case other => other,
      change.after, change.before)
  }

  /** Swapping the tables inverts every change. */
  lemma SwapGivesInverse<K, V>(names: seq<K>, before: map<K, V>, after: map<K, V>)
    requires Covers(names, before, after)
    ensures |Diff(names, after, before)| == |Diff(names, before, after)|
    ensures forall i :: 0 <= i < |names| ==> Diff(names, after, before)[i] == Inverse(Diff(names, before, after)[i])
  {
  }
}
