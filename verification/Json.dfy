/**
  JSON values, `json.dumps` with compact separators and sorted keys, and `json.loads`
  (RFC 8259).
 */
module Json {
  import opened Prelude
  import opened Texts
  import opened JsonText

  /** A JSON value. A finite float is the text Python writes for it. */
  datatype Json =
    | Null
    | Boolean(b: bool)
    | Integer(i: int)
    | Float(text: Bytes)
    | String(t: Text)
    | Array(items: seq<Json>)
    | Object(fields: map<Text, Json>)

  /** The floats of a value are texts Python writes for floats. */
  ghost predicate WellFormed(v: Json) {
    match v
    case Float(text) => FloatText(text)
    case Array(items) => forall i :: 0 <= i < |items| ==> WellFormed(items[i])
    case Object(fields) => forall k | k in fields :: WellFormed(fields[k])
    case _ => true
  }

  // Writing

  const TRUE: Bytes := [116, 114, 117, 101]
  const FALSE: Bytes := [102, 97, 108, 115, 101]
  const NULL: Bytes := [110, 117, 108, 108]

  /** `v`, followed by `k`. */
  function Print(v: Json, k: Bytes): (b: Bytes)
    decreases v, 1, 0
  {
    match v
    case Null => NULL + k
    case Boolean(b) => (if b then TRUE else FALSE) + k
    case Integer(i) => IntegerText(i) + k
    case Float(text) => text + k
    case String(t) => PrintString(t, k)
    case Array(items) => if items == [] then [91, 93] + k else [91] + PrintItems(v, 0, k)
    case Object(fields) =>
      if fields == map[] then [123, 125] + k
      else
        var keys := SortedKeys(fields.Keys);
        [123] + PrintMembers(v, keys, k)
  }

  /** The items of an array from `i` on, and its closing bracket. */
  function PrintItems(v: Json, i: nat, k: Bytes): (b: Bytes)
    requires v.Array? && i < |v.items|
    decreases v, 0, |v.items| - i
  {
    Print(v.items[i], if i + 1 == |v.items| then [93] + k else [44] + PrintItems(v, i + 1, k))
  }

  /** The members of an object named by `keys`, and its closing brace. */
  function PrintMembers(v: Json, keys: seq<Text>, k: Bytes): (b: Bytes)
    requires v.Object? && forall x :: x in keys ==> x in v.fields
    decreases v, 0, |keys|
  {
    if keys == [] then k else
      assert keys[0] in keys;
      var after := if |keys| == 1 then [125] + k else [44] + PrintMembers(v, keys[1..], k);
      PrintString(keys[0], [58] + Print(v.fields[keys[0]], after))
  }

  // Reading

  predicate IsSpaceByte(b: Byte) {
    b == 32 || b == 9 || b == 10 || b == 13
  }

  function SkipSpace(s: Bytes): (r: Bytes)
    ensures |r| <= |s|
  {
    if s != [] && IsSpaceByte(s[0]) then SkipSpace(s[1..]) else s
  }

  /** One value at the start of `s`, and what follows it. */
  function Parse(s: Bytes): (r: Option<(Json, Bytes)>)
    ensures r.Some? ==> |r.value.1| < |s|
    decreases |s|, 1
  {
    if s == [] then None
    else if s[0] == QUOTE then
      match ParseString(s[1..])
      case Some((t, rest)) => Some((String(t), rest))
      case None => None
    else if s[0] == 123 then
      var inner := SkipSpace(s[1..]);
      if inner != [] && inner[0] == 125 then Some((Object(map[]), inner[1..]))
      else
        (match ParseMembers(inner)
         case Some((fields, rest)) => Some((Object(fields), rest))
         case None => None)
    else if s[0] == 91 then
      var inner := SkipSpace(s[1..]);
      if inner != [] && inner[0] == 93 then Some((Array([]), inner[1..]))
      else
        (match ParseItems(inner)
         case Some((items, rest)) => Some((Array(items), rest))
         case None => None)
    else if s[0] == 116 then if TRUE <= s then Some((Boolean(true), s[4..])) else None
    else if s[0] == 102 then if FALSE <= s then Some((Boolean(false), s[5..])) else None
    else if s[0] == 110 then if NULL <= s then Some((Null, s[4..])) else None
    else ParseNumber(s)
  }

  function ParseNumber(s: Bytes): (r: Option<(Json, Bytes)>)
    ensures r.Some? ==> |r.value.1| < |s|
  {
    var m := MatchNumber(s);
    if m.length == 0 then None
    else if m.float then Some((Float(s[..m.length]), s[m.length..]))
    else Some((Integer(IntegerValue(s[..m.length])), s[m.length..]))
  }

  /** The items of an array after its opening bracket, through its closing one. */
  function ParseItems(s: Bytes): (r: Option<(seq<Json>, Bytes)>)
    ensures r.Some? ==> |r.value.1| < |s|
    decreases |s|, 2
  {
    match Parse(s)
    case None => None
    case Some((item, after)) =>
      var next := SkipSpace(after);
      if next != [] && next[0] == 93 then Some(([item], next[1..]))
      else if next != [] && next[0] == 44 then
        (match ParseItems(SkipSpace(next[1..]))
         case None => None
         case Some((items, rest)) => Some(([item] + items, rest)))
      else None
  }

  /** The members of an object after its opening brace, through its closing one; a later duplicate wins. */
  function ParseMembers(s: Bytes): (r: Option<(map<Text, Json>, Bytes)>)
    ensures r.Some? ==> |r.value.1| < |s|
    decreases |s|, 2
  {
    if s == [] || s[0] != QUOTE then None else
      match ParseString(s[1..])
      case None => None
      case Some((key, afterKey)) =>
        var colon := SkipSpace(afterKey);
        if colon == [] || colon[0] != 58 then None else
          match Parse(SkipSpace(colon[1..]))
          case None => None
          case Some((value, after)) =>
            var next := SkipSpace(after);
            if next != [] && next[0] == 125 then Some((map[key := value], next[1..]))
            else if next != [] && next[0] == 44 then
              (match ParseMembers(SkipSpace(next[1..]))
               case None => None
               case Some((more, rest)) => Some((map[key := value] + more, rest)))
            else None
  }

  /** `json.loads`: one value with nothing but space around it. */
  function Loads(s: Bytes): Option<Json> {
    match Parse(SkipSpace(s))
    case None => None
    case Some((v, rest)) => if SkipSpace(rest) == [] then Some(v) else None
  }

  /** `json.dumps(..., separators=(",", ":"), sort_keys=True)` */
  function Dumps(v: Json): Bytes {
    Print(v, [])
  }

  // What comes back

  /** `v` with the surrogate pairs of its strings joined; of members whose keys become equal the last one stays. */
  function Reread(v: Json): Json
    decreases v, 1, 0
  {
    match v
    case String(t) => String(Joined(t))
    case Array(items) => Array(RereadItems(v, 0))
    case Object(fields) => Object(RereadMembers(v, SortedKeys(fields.Keys)))
    case _ => v
  }

  function RereadItems(v: Json, i: nat): (items: seq<Json>)
    requires v.Array? && i <= |v.items|
    decreases v, 0, |v.items| - i
  {
    if i == |v.items| then [] else [Reread(v.items[i])] + RereadItems(v, i + 1)
  }

  function RereadMembers(v: Json, keys: seq<Text>): map<Text, Json>
    requires v.Object? && forall x :: x in keys ==> x in v.fields
    decreases v, 0, |keys|
  {
    if keys == [] then map[] else
      assert keys[0] in keys;
      map[Joined(keys[0]) := Reread(v.fields[keys[0]])] + RereadMembers(v, keys[1..])
  }

  /** What may follow a value. */
  predicate Delimits(k: Bytes) {
    k == [] || k[0] == 44 || k[0] == 93 || k[0] == 125
  }

  predicate StartsValue(s: Bytes) {
    s != [] && s[0] != 93 && s[0] != 125 && !IsSpaceByte(s[0])
  }

  lemma {:induction false} PrintParse(v: Json, k: Bytes)
    requires WellFormed(v) && Delimits(k)
    ensures StartsValue(Print(v, k))
    ensures Parse(Print(v, k)) == Some((Reread(v), k))
    decreases v, 1, 0
  {
    match v
    case Null => ConstantParse(v, k);
    case Boolean(_) => ConstantParse(v, k);
    case Integer(i) => IntegerParse(i, k);
    case Float(text) => FloatParse(text, k);
    case String(t) => StringParse(t, k);
    case Array(items) =>
      if items != [] {
        PrintParseItems(v, 0, k);
      }
      ArrayParse(v, k);
    case Object(fields) =>
      if fields != map[] {
        PrintParseMembers(v, SortedKeys(fields.Keys), k);
      }
      ObjectParse(v, k);
  }

  lemma {:induction false} StringParse(t: Text, k: Bytes)
    ensures var s := Print(String(t), k);
            StartsValue(s) && Parse(s) == Some((String(Joined(t)), k))
  {
    StringRoundTrip(t, k);
    assert Print(String(t), k)[1..] == Escape(t, [QUOTE] + k);
  }

  lemma {:induction false} ArrayParse(v: Json, k: Bytes)
    requires v.Array?
    requires v.items != [] ==>
              && StartsValue(PrintItems(v, 0, k))
              && ParseItems(PrintItems(v, 0, k)) == Some((RereadItems(v, 0), k))
    ensures StartsValue(Print(v, k)) && Parse(Print(v, k)) == Some((Reread(v), k))
  {
    var s := Print(v, k);
    if v.items == [] {
      assert s[1..] == [93] + k;
    } else {
      assert s[1..] == PrintItems(v, 0, k);
    }
  }

  lemma {:induction false} ObjectParse(v: Json, k: Bytes)
    requires v.Object?
    requires var keys := SortedKeys(v.fields.Keys);
             v.fields != map[] ==>
               && PrintMembers(v, keys, k) != [] && PrintMembers(v, keys, k)[0] == QUOTE
               && ParseMembers(PrintMembers(v, keys, k)) == Some((RereadMembers(v, keys), k))
    ensures StartsValue(Print(v, k)) && Parse(Print(v, k)) == Some((Reread(v), k))
  {
    var s := Print(v, k);
    if v.fields == map[] {
      assert s[1..] == [125] + k;
    } else {
      assert s[1..] == PrintMembers(v, SortedKeys(v.fields.Keys), k);
    }
  }

  lemma {:induction false} ConstantParse(v: Json, k: Bytes)
    requires v.Null? || v.Boolean?
    ensures StartsValue(Print(v, k)) && Parse(Print(v, k)) == Some((v, k))
  {
    var s := Print(v, k);
    if v.Null? {
      assert s[..4] == NULL && s[4..] == k;
    } else if v.b {
      assert s[..4] == TRUE && s[4..] == k;
    } else {
      assert s[..5] == FALSE && s[5..] == k;
    }
  }

  lemma {:induction false} IntegerParse(i: int, k: Bytes)
    requires Delimits(k)
    ensures var s := Print(Integer(i), k);
            StartsValue(s) && Parse(s) == Some((Integer(i), k))
  {
    var b := IntegerText(i);
    IntegerRoundTrip(i, k);
    assert (b + k)[..|b|] == b && (b + k)[|b|..] == k;
    assert (b + k)[0] == b[0];
  }

  lemma {:induction false} FloatParse(text: Bytes, k: Bytes)
    requires FloatText(text) && Delimits(k)
    ensures var s := Print(Float(text), k);
            StartsValue(s) && Parse(s) == Some((Float(text), k))
  {
    FloatRoundTrip(text, k);
    NumberParse(text + k, |text|, true);
    assert (text + k)[..|text|] == text && (text + k)[|text|..] == k;
  }

  lemma {:induction false} NumberParse(s: Bytes, n: nat, float: bool)
    requires MatchNumber(s) == NumberMatch(n, float) && n > 0
    requires s != [] && (s[0] == 45 || IsDigit(s[0]))
    ensures Parse(s) == Some((if float then Float(s[..n]) else Integer(IntegerValue(s[..n])), s[n..]))
  {
    ParsesAsNumber(s);
  }

  lemma {:induction false} ParsesAsNumber(s: Bytes)
    requires s != [] && (s[0] == 45 || IsDigit(s[0]))
    ensures Parse(s) == ParseNumber(s)
  {
  }

  lemma PrintParseItems(v: Json, i: nat, k: Bytes)
    requires WellFormed(v) && v.Array? && i < |v.items| && Delimits(k)
    ensures StartsValue(PrintItems(v, i, k))
    ensures ParseItems(PrintItems(v, i, k)) == Some((RereadItems(v, i), k))
    decreases v, 0, |v.items| - i
  {
    if i + 1 == |v.items| {
      PrintParse(v.items[i], [93] + k);
      assert ([93] + k)[1..] == k;
      assert RereadItems(v, i) == [Reread(v.items[i])];
    } else {
      var more := [44] + PrintItems(v, i + 1, k);
      PrintParse(v.items[i], more);
      PrintParseItems(v, i + 1, k);
      assert more[1..] == PrintItems(v, i + 1, k);
    }
  }

  lemma PrintParseMembers(v: Json, keys: seq<Text>, k: Bytes)
    requires WellFormed(v) && v.Object? && keys != [] && Delimits(k)
    requires forall x :: x in keys ==> x in v.fields
    ensures PrintMembers(v, keys, k) != [] && PrintMembers(v, keys, k)[0] == QUOTE
    ensures ParseMembers(PrintMembers(v, keys, k)) == Some((RereadMembers(v, keys), k))
    decreases v, 0, |keys|
  {
    assert keys[0] in keys;
    var value := v.fields[keys[0]];
    if |keys| == 1 {
      var after := [125] + k;
      PrintParse(value, after);
      assert keys[1..] == [];
      assert after[1..] == k;
      LastMember(keys[0], value, k);
      assert RereadMembers(v, keys) == map[Joined(keys[0]) := Reread(value)];
    } else {
      var more := PrintMembers(v, keys[1..], k);
      PrintParse(value, [44] + more);
      PrintParseMembers(v, keys[1..], k);
      InnerMember(keys[0], value, more);
    }
  }

  /** The text of one member is read up to its value. */
  lemma {:induction false} MemberRead(key: Text, value: Json, after: Bytes)
    ensures var s := PrintString(key, [58] + Print(value, after));
            s != [] && s[0] == QUOTE && ParseString(s[1..]) == Some((Joined(key), [58] + Print(value, after)))
    ensures ([58] + Print(value, after))[1..] == Print(value, after)
  {
    var t := [58] + Print(value, after);
    StringRoundTrip(key, t);
    assert PrintString(key, t)[1..] == Escape(key, [QUOTE] + t);
  }

  lemma {:induction false} LastMember(key: Text, value: Json, k: Bytes)
    requires StartsValue(Print(value, [125] + k)) && Parse(Print(value, [125] + k)) == Some((Reread(value), [125] + k))
    ensures ParseMembers(PrintString(key, [58] + Print(value, [125] + k)))
          == Some((map[Joined(key) := Reread(value)], k))
  {
    MemberRead(key, value, [125] + k);
    assert ([125] + k)[1..] == k;
  }

  lemma {:induction false} InnerMember(key: Text, value: Json, more: Bytes)
    requires StartsValue(Print(value, [44] + more))
              && Parse(Print(value, [44] + more)) == Some((Reread(value), [44] + more))
    requires more != [] && more[0] == QUOTE && ParseMembers(more).Some?
    ensures ParseMembers(PrintString(key, [58] + Print(value, [44] + more)))
          == Some((map[Joined(key) := Reread(value)] + ParseMembers(more).value.0, ParseMembers(more).value.1))
  {
    MemberRead(key, value, [44] + more);
    assert ([44] + more)[1..] == more;
  }

  /** `json.loads` gives back what `json.dumps` was given, but for joined surrogates. */
  lemma LoadsDumps(v: Json)
    requires WellFormed(v)
    ensures Loads(Dumps(v)) == Some(Reread(v))
  {
    PrintParse(v, []);
  }

  // Texts without newlines

  lemma {:induction false} PrintHasNoNewline(v: Json, k: Bytes)
    requires WellFormed(v) && NEWLINE !in k
    ensures NEWLINE !in Print(v, k)
    decreases v, 1, 0
  {
    match v
    case Integer(i) => IntegerHasNoNewline(i);
    case Float(text) => FloatHasNoNewline(text);
    case String(t) => EscapeHasNoNewline(t, [QUOTE] + k);
    case Array(items) =>
      if items != [] {
        ItemsHaveNoNewline(v, 0, k);
      }
    case Object(fields) =>
      if fields != map[] {
        MembersHaveNoNewline(v, SortedKeys(fields.Keys), k);
      }
    case _ =>
  }

  lemma ItemsHaveNoNewline(v: Json, i: nat, k: Bytes)
    requires WellFormed(v) && v.Array? && i < |v.items| && NEWLINE !in k
    ensures NEWLINE !in PrintItems(v, i, k)
    decreases v, 0, |v.items| - i
  {
    if i + 1 == |v.items| {
      PrintHasNoNewline(v.items[i], [93] + k);
    } else {
      ItemsHaveNoNewline(v, i + 1, k);
      PrintHasNoNewline(v.items[i], [44] + PrintItems(v, i + 1, k));
    }
  }

  lemma MembersHaveNoNewline(v: Json, keys: seq<Text>, k: Bytes)
    requires WellFormed(v) && v.Object? && NEWLINE !in k
    requires forall x :: x in keys ==> x in v.fields
    ensures NEWLINE !in PrintMembers(v, keys, k)
    decreases v, 0, |keys|
  {
    if keys != [] {
      assert keys[0] in keys;
      MembersHaveNoNewline(v, keys[1..], k);
      var after := if |keys| == 1 then [125] + k else [44] + PrintMembers(v, keys[1..], k);
      PrintHasNoNewline(v.fields[keys[0]], after);
      EscapeHasNoNewline(keys[0], [QUOTE] + ([58] + Print(v.fields[keys[0]], after)));
    }
  }

  // When a value comes back unchanged

  /** No string of `v`, key or value, has a high surrogate directly before a low one. */
  ghost predicate Clean(v: Json) {
    match v
    case String(t) => NoSurrogatePair(t)
    case Array(items) => forall i :: 0 <= i < |items| ==> Clean(items[i])
    case Object(fields) => forall k | k in fields :: NoSurrogatePair(k) && Clean(fields[k])
    case _ => true
  }

  /** A value is reread unchanged exactly when it is clean. */
  lemma {:induction false} RereadIffClean(v: Json)
    ensures Reread(v) == v <==> Clean(v)
    decreases v, 1, 0
  {
    match v
    case String(t) => JoinedIffNoPair(t);
    case Array(items) =>
      RereadItemsAt(v, 0);
      forall i | 0 <= i < |items| ensures Reread(items[i]) == items[i] <==> Clean(items[i]) {
        RereadIffClean(items[i]);
      }
    case Object(fields) =>
      forall k | k in fields ensures Reread(fields[k]) == fields[k] <==> Clean(fields[k]) {
        RereadIffClean(fields[k]);
      }
      if forall k | k in fields :: NoSurrogatePair(k) {
        RereadCleanKeys(v, SortedKeys(fields.Keys));
      } else {
        RereadKeysClean(v, SortedKeys(fields.Keys));
      }
    case _ =>
  }

  lemma {:induction false} RereadItemsAt(v: Json, i: nat)
    requires v.Array? && i <= |v.items|
    ensures |RereadItems(v, i)| == |v.items| - i
    ensures forall j :: i <= j < |v.items| ==> RereadItems(v, i)[j - i] == Reread(v.items[j])
    decreases |v.items| - i
  {
    if i < |v.items| {
      RereadItemsAt(v, i + 1);
    }
  }

  lemma {:induction false} RereadCleanKeys(v: Json, keys: seq<Text>)
    requires v.Object? && forall x :: x in keys ==> x in v.fields && NoSurrogatePair(x)
    ensures RereadMembers(v, keys) == map x | x in keys :: Reread(v.fields[x])
    decreases |keys|
  {
    if keys != [] {
      assert keys[0] in keys;
      JoinedIffNoPair(keys[0]);
      assert keys == [keys[0]] + keys[1..];
      RereadCleanKeys(v, keys[1..]);
    }
  }

  lemma {:induction false} RereadKeysClean(v: Json, keys: seq<Text>)
    requires v.Object? && forall x :: x in keys ==> x in v.fields
    ensures forall x | x in RereadMembers(v, keys) :: NoSurrogatePair(x)
    decreases |keys|
  {
    if keys != [] {
      assert keys[0] in keys;
      JoinedHasNoPair(keys[0]);
      RereadKeysClean(v, keys[1..]);
    }
  }

  /** The fields of an object, reread one by one. */
  function RereadFields(fields: map<Text, Json>): (r: map<Text, Json>)
    ensures r.Keys == fields.Keys
  {
    map x | x in fields :: Reread(fields[x])
  }

  /** An object whose keys are clean comes back with the same keys. */
  lemma LoadsFields(fields: map<Text, Json>)
    requires WellFormed(Object(fields)) && forall k | k in fields :: NoSurrogatePair(k)
    ensures Reread(Object(fields)) == Object(RereadFields(fields))
    ensures Loads(Dumps(Object(fields))) == Some(Object(RereadFields(fields)))
  {
    LoadsDumps(Object(fields));
    RereadCleanKeys(Object(fields), SortedKeys(fields.Keys));
  }

  // Lengths

  /** Printing `v` takes at least `n` bytes. */
  ghost predicate TakesAtLeast(v: Json, n: nat) {
    forall k: Bytes :: |Print(v, k)| >= n + |k|
  }

  lemma {:induction false} EscapeLength(t: Text, k: Bytes)
    ensures |Escape(t, k)| >= |t| + |k|
  {
    if t != [] {
      EscapeLength(t[1..], k);
    }
  }

  lemma StringLength(t: Text)
    ensures TakesAtLeast(String(t), |t|)
  {
    forall k: Bytes ensures |Print(String(t), k)| >= |t| + |k| {
      EscapeLength(t, [QUOTE] + k);
    }
  }

  lemma {:induction false} PrintAddsOn(v: Json, k: Bytes)
    ensures |Print(v, k)| >= |k|
    decreases v, 1, 0
  {
    match v
    case String(t) => EscapeLength(t, [QUOTE] + k);
    case Array(items) =>
      if items != [] {
        ItemsAddOn(v, 0, k);
      }
    case Object(fields) =>
      if fields != map[] {
        MembersAddOn(v, SortedKeys(fields.Keys), k);
      }
    case _ =>
  }

  lemma {:induction false} ItemsAddOn(v: Json, i: nat, k: Bytes)
    requires v.Array? && i < |v.items|
    ensures |PrintItems(v, i, k)| >= |k|
    decreases v, 0, |v.items| - i
  {
    if i + 1 == |v.items| {
      PrintAddsOn(v.items[i], [93] + k);
    } else {
      ItemsAddOn(v, i + 1, k);
      PrintAddsOn(v.items[i], [44] + PrintItems(v, i + 1, k));
    }
  }

  lemma {:induction false} MembersAddOn(v: Json, keys: seq<Text>, k: Bytes)
    requires v.Object? && forall x :: x in keys ==> x in v.fields
    ensures |PrintMembers(v, keys, k)| >= |k|
    decreases v, 0, |keys|
  {
    if keys != [] {
      assert keys[0] in keys;
      MembersAddOn(v, keys[1..], k);
      var after := if |keys| == 1 then [125] + k else [44] + PrintMembers(v, keys[1..], k);
      PrintAddsOn(v.fields[keys[0]], after);
      EscapeLength(keys[0], [QUOTE] + ([58] + Print(v.fields[keys[0]], after)));
    }
  }

  lemma {:induction false} MemberLength(v: Json, keys: seq<Text>, k: Bytes)
    requires v.Object? && keys != [] && (forall y :: y in keys ==> y in v.fields) && keys[0] in v.fields
    ensures var after := if |keys| == 1 then [125] + k else [44] + PrintMembers(v, keys[1..], k);
            |PrintMembers(v, keys, k)| >= |Print(v.fields[keys[0]], after)|
  {
    var after := if |keys| == 1 then [125] + k else [44] + PrintMembers(v, keys[1..], k);
    EscapeLength(keys[0], [QUOTE] + ([58] + Print(v.fields[keys[0]], after)));
  }

  lemma {:induction false} MembersLength(v: Json, keys: seq<Text>, k: Bytes, x: Text, n: nat)
    requires v.Object? && (forall y :: y in keys ==> y in v.fields) && x in keys && TakesAtLeast(v.fields[x], n)
    ensures |PrintMembers(v, keys, k)| >= n + |k|
    decreases |keys|
  {
    assert keys[0] in keys;
    var after := if |keys| == 1 then [125] + k else [44] + PrintMembers(v, keys[1..], k);
    MemberLength(v, keys, k);
    if keys[0] == x {
      MembersAddOn(v, keys[1..], k);
      assert |Print(v.fields[x], after)| >= n + |after|;
    } else {
      assert keys == [keys[0]] + keys[1..];
      MembersLength(v, keys[1..], k, x, n);
      PrintAddsOn(v.fields[keys[0]], after);
    }
  }

  /** An object takes at least as long as each of its members. */
  lemma ObjectLength(fields: map<Text, Json>, x: Text, n: nat)
    requires x in fields && TakesAtLeast(fields[x], n)
    ensures TakesAtLeast(Object(fields), n)
  {
    forall k: Bytes ensures |Print(Object(fields), k)| >= n + |k| {
      MembersLength(Object(fields), SortedKeys(fields.Keys), k, x, n);
    }
  }
}
