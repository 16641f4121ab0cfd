/** Event payloads: freezing Python values into immutable JSON trees and thawing them again. */
module Payloads {
  import opened Prelude
  import opened Texts
  import opened JsonText
  import opened Json

  /** The keys of a Python mapping. */
  datatype Key = TextKey(text: Text) | OtherKey(id: int)

  /** The Python values `_freeze_json` tells apart. */
  datatype Value =
    | PyNone
    | PyBool(b: bool)
    | PyInt(i: int)
    | PyFloat(text: Bytes)
    | PyNonFinite
    | PyStr(t: Text)
    | PyList(items: seq<Value>)
    | PyTuple(items: seq<Value>)
    | PyDict(entries: map<Key, Value>)
    | PyMappingProxy(entries: map<Key, Value>)
    | PyOther

  function TextKeys(entries: map<Key, Value>): (names: set<Text>)
    ensures forall x :: x in names <==> TextKey(x) in entries
  {
    set k | k in entries && k.TextKey? :: k.text
  }

  /** `_freeze_json`: `None` stands for the `TypeError` or `ValueError` raised somewhere inside. */
  function Freeze(v: Value): Option<Json> {
    match v
    case PyNone => Some(Null)
    case PyBool(b) => Some(Boolean(b))
    case PyInt(i) => Some(Integer(i))
    case PyFloat(text) => Some(Float(text))
    case PyNonFinite => None
    case PyStr(t) => Some(String(t))
    case PyList(items) =>
      if exists i :: 0 <= i < |items| && Freeze(items[i]).None? then None
      else Some(Array(seq(|items|, i requires 0 <= i < |items| => Freeze(items[i]).value)))
    case PyTuple(items) =>
      if exists i :: 0 <= i < |items| && Freeze(items[i]).None? then None
      else Some(Array(seq(|items|, i requires 0 <= i < |items| => Freeze(items[i]).value)))
    case PyDict(entries) =>
      if exists k | k in entries :: k.OtherKey? || Freeze(entries[k]).None? then None
      else Some(Object(map x | x in TextKeys(entries) :: Freeze(entries[TextKey(x)]).value))
    case PyMappingProxy(entries) =>
      if exists k | k in entries :: k.OtherKey? || Freeze(entries[k]).None? then None
      else Some(Object(map x | x in TextKeys(entries) :: Freeze(entries[TextKey(x)]).value))
    case PyOther => None
  }

  /**
    The JSON tree `j` has the shape and the leaves of the Python value `v`: arrays for its lists
    and tuples, and objects for its mappings, all of whose keys are texts.
   */
  ghost predicate Mirrors(v: Value, j: Json) {
    match v
    case PyNone => j == Null
    case PyBool(b) => j == Boolean(b)
    case PyInt(i) => j == Integer(i)
    case PyFloat(text) => j == Float(text)
    case PyStr(t) => j == String(t)
    case PyList(items) =>
      && j.Array? && |j.items| == |items|
      && forall i :: 0 <= i < |items| ==> Mirrors(items[i], j.items[i])
    case PyTuple(items) =>
      && j.Array? && |j.items| == |items|
      && forall i :: 0 <= i < |items| ==> Mirrors(items[i], j.items[i])
    case PyDict(entries) =>
      && j.Object?
      && (forall x | x in j.fields :: TextKey(x) in entries)
      && (forall k | k in entries :: k.TextKey? && k.text in j.fields && Mirrors(entries[k], j.fields[k.text]))
    case PyMappingProxy(entries) =>
      && j.Object?
      && (forall x | x in j.fields :: TextKey(x) in entries)
      && (forall k | k in entries :: k.TextKey? && k.text in j.fields && Mirrors(entries[k], j.fields[k.text]))
    case _ => false
  }

  function KeysOf(fields: map<Text, Json>): (keys: set<Key>)
    ensures forall k :: k in keys <==> k.TextKey? && k.text in fields
  {
    set x | x in fields :: TextKey(x)
  }

  /** `_thaw_json` on a frozen value: mappings become dictionaries and tuples become lists. */
  function Thaw(j: Json): Value {
    match j
    case Null => PyNone
    case Boolean(b) => PyBool(b)
    case Integer(i) => PyInt(i)
    case Float(text) => PyFloat(text)
    case String(t) => PyStr(t)
    case Array(items) => PyList(seq(|items|, i requires 0 <= i < |items| => Thaw(items[i])))
    case Object(fields) => PyDict(map k | k in KeysOf(fields) :: Thaw(fields[k.text]))
  }

  lemma FreezeSequence(v: Value, items: seq<Value>, j: Json)
    requires v == PyList(items) || v == PyTuple(items)
    ensures Freeze(v) == Some(j) <==>
              && j.Array? && |j.items| == |items|
              && forall i :: 0 <= i < |items| ==> Freeze(items[i]) == Some(j.items[i])
  {
    if Freeze(v).Some? && j.Array? && |j.items| == |items|
       && forall i :: 0 <= i < |items| ==> Freeze(items[i]) == Some(j.items[i])
    {
      assert Freeze(v).value.items == j.items;
    }
  }

  lemma FreezeMapping(v: Value, entries: map<Key, Value>, j: Json)
    requires v == PyDict(entries) || v == PyMappingProxy(entries)
    ensures Freeze(v) == Some(j) <==>
              && j.Object?
              && (forall x | x in j.fields :: TextKey(x) in entries)
              && (forall k | k in entries ::
                    k.TextKey? && k.text in j.fields && Freeze(entries[k]) == Some(j.fields[k.text]))
  {
    if j.Object?
       && (forall x | x in j.fields :: TextKey(x) in entries)
       && (forall k | k in entries ::
             k.TextKey? && k.text in j.fields && Freeze(entries[k]) == Some(j.fields[k.text]))
    {
      FreezeEntries(j.fields, entries);
    }
  }

  /** Freezing succeeds exactly with the tree that mirrors the value. */
  lemma {:induction false} FreezeIffMirrors(v: Value, j: Json)
    ensures Freeze(v) == Some(j) <==> Mirrors(v, j)
  {
    if v.PyList? || v.PyTuple? {
      FreezeSequence(v, v.items, j);
      if j.Array? && |j.items| == |v.items| {
        forall i | 0 <= i < |v.items|
          ensures Freeze(v.items[i]) == Some(j.items[i]) <==> Mirrors(v.items[i], j.items[i])
        {
          FreezeIffMirrors(v.items[i], j.items[i]);
        }
      }
    } else if v.PyDict? || v.PyMappingProxy? {
      var entries := v.entries;
      FreezeMapping(v, entries, j);
      if j.Object? {
        forall k | k in entries && k.TextKey? && k.text in j.fields
          ensures Freeze(entries[k]) == Some(j.fields[k.text]) <==> Mirrors(entries[k], j.fields[k.text])
        {
          FreezeIffMirrors(entries[k], j.fields[k.text]);
        }
      }
    }
  }

  /** Freezing undoes thawing. */
  lemma {:induction false} FreezeThaw(j: Json)
    ensures Freeze(Thaw(j)) == Some(j)
  {
    match j
    case Array(items) =>
      forall i | 0 <= i < |items| ensures Freeze(Thaw(items[i])) == Some(items[i]) {
        FreezeThaw(items[i]);
      }
      assert Freeze(Thaw(j)).value.items == items;
    case Object(fields) =>
      forall x | x in fields ensures Freeze(Thaw(fields[x])) == Some(fields[x]) {
        FreezeThaw(fields[x]);
      }
      FreezeThawObject(fields);
    case _ =>
  }

  lemma FreezeThawObject(fields: map<Text, Json>)
    requires forall x | x in fields :: Freeze(Thaw(fields[x])) == Some(fields[x])
    ensures Freeze(Thaw(Object(fields))) == Some(Object(fields))
  {
    var entries := map k | k in KeysOf(fields) :: Thaw(fields[k.text]);
    assert Thaw(Object(fields)) == PyDict(entries);
    FreezeEntries(fields, entries);
  }

  lemma FreezeEntries(fields: map<Text, Json>, entries: map<Key, Value>)
    requires forall k | k in entries :: k.TextKey? && k.text in fields && Freeze(entries[k]) == Some(fields[k.text])
    requires forall x | x in fields :: TextKey(x) in entries
    ensures Freeze(PyDict(entries)) == Freeze(PyMappingProxy(entries)) == Some(Object(fields))
  {
    var result := map x | x in TextKeys(entries) :: Freeze(entries[TextKey(x)]).value;
    assert Freeze(PyDict(entries)) == Freeze(PyMappingProxy(entries)) == Some(Object(result));
    assert result == fields;
  }

  /** The floats of a Python value are finite and carry the text Python writes for them. */
  ghost predicate PythonFloats(v: Value) {
    match v
    case PyFloat(text) => FloatText(text)
    case PyList(items) => forall i :: 0 <= i < |items| ==> PythonFloats(items[i])
    case PyTuple(items) => forall i :: 0 <= i < |items| ==> PythonFloats(items[i])
    case PyDict(entries) => forall k | k in entries :: PythonFloats(entries[k])
    case PyMappingProxy(entries) => forall k | k in entries :: PythonFloats(entries[k])
    case _ => true
  }

  lemma FrozenIsWellFormed(v: Value)
    requires PythonFloats(v) && Freeze(v).Some?
    ensures WellFormed(Freeze(v).value)
  {
  }

  /** Freezing is idempotent through thawing: what froze once freezes to the same value again. */
  lemma FreezeIdempotent(v: Value)
    requires Freeze(v).Some?
    ensures Freeze(Thaw(Freeze(v).value)) == Freeze(v)
  {
    FreezeThaw(Freeze(v).value);
  }
}
