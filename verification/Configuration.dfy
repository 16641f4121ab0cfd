/**
  The application configuration and the resolution of its layers (`configuration.py`).
 */
module Configuration {
  import opened Prelude
  import opened Texts

  datatype Field =
    | MaxXmlRetries
    | ReconnectAttempts
    | ReconnectInitialDelay
    | ReconnectMultiplier
    | ReconnectMaxDelay
    | HealthHistoryLimit
    | Color
    | Theme
    | LogLevel
    | LogFile

  /** A value from a file, the environment or the command line. Other objects are all alike here. */
  datatype Value =
    | NoneValue
    | Boolean(b: bool)
    | Integer(i: int)
    | Float(x: real)
    | NotFinite
    | String(t: Text)
    | Path(p: Text)
    | Other

  type Values = map<Field, Value>

  /** A value, or an origin, for every field. */
  predicate Full<V>(values: map<Field, V>) {
    forall f: Field :: f in values
  }

  const COLOR_MODES: set<Text> := {Lit("auto"), Lit("always"), Lit("never")}
  const THEME_NAMES: set<Text> := {Lit("dark"), Lit("light")}
  const LOG_LEVEL_NAMES: set<Text> := {Lit("CRITICAL"), Lit("ERROR"), Lit("WARNING"), Lit("INFO"), Lit("DEBUG")}

  // Validation

  /** `_require_number` for a number above or at a minimum. */
  function Number(v: Value, minimum: real, inclusive: bool): Option<Value> {
    var x: Option<real> := match v case Integer(i) => Some(i as real) case Float(y) => Some(y) case _ => None;
    match x
    case None => None
    case Some(y) => if y < minimum || (!inclusive && y == minimum) then None else Some(Float(y))
  }

  function AtLeast(v: Value, minimum: int): Option<Value> {
    if v.Integer? && v.i >= minimum then Some(v) else None
  }

  function Choice(t: Text, choices: set<Text>): Option<Value> {
    if t in choices then Some(String(t)) else None
  }

  /** What construction makes of the value of one field, if it accepts it. */
  function Normalised(f: Field, v: Value): Option<Value> {
    match f
    case MaxXmlRetries => AtLeast(v, 0)
    case ReconnectAttempts => AtLeast(v, 0)
    case HealthHistoryLimit => AtLeast(v, 1)
    case ReconnectInitialDelay => Number(v, 0.0, false)
    case ReconnectMultiplier => Number(v, 1.0, true)
    case ReconnectMaxDelay => Number(v, 0.0, false)
    case Color => if v.String? then Choice(Lower(Strip(v.t)), COLOR_MODES) else None
    case Theme => if v.String? then Choice(Lower(Strip(v.t)), THEME_NAMES) else None
    case LogLevel =>
      (match v
       case NoneValue => Some(NoneValue)
       case String(t) => Choice(Upper(Strip(t)), LOG_LEVEL_NAMES)
       case _ => None)
    case LogFile =>
      (match v
       case NoneValue => Some(NoneValue)
       case String(t) => if Strip(t) == [] then None else Some(Path(t))
       case Path(_) => Some(v)
       case _ => None)
  }

  // What construction does to a value, in terms of the value itself

  /** An integer at or above the minimum, as it is. */
  predicate MeansInteger(v: Value, n: Value, minimum: int) {
    v.Integer? && v.i >= minimum && n == v
  }

  /** A number at or above, or above, the minimum, of the same value. */
  predicate MeansNumber(v: Value, n: Value, minimum: real, inclusive: bool) {
    && n.Float? && (v == Float(n.x) || (v.Integer? && v.i as real == n.x))
    && n.x >= minimum && (inclusive || n.x > minimum)
  }

  /** The choice that a text spells, with any blanks around it and in any case. */
  ghost predicate MeansChoice(v: Value, n: Value, choices: set<Text>, spells: (Text, Text) -> bool) {
    && v.String? && n.String? && n.t in choices
    && exists m :: Pads(v.t, m) && spells(m, n.t)
  }

  /** A path, as it is or of a text that is not blank. */
  predicate MeansPath(v: Value, n: Value) {
    n.Path? && (v == n || (v == String(n.p) && !Blank(n.p)))
  }

  /** `n` is what the constructed configuration holds for a field given the value `v`. */
  ghost predicate Means(f: Field, v: Value, n: Value) {
    match f
    case MaxXmlRetries => MeansInteger(v, n, 0)
    case ReconnectAttempts => MeansInteger(v, n, 0)
    case HealthHistoryLimit => MeansInteger(v, n, 1)
    case ReconnectInitialDelay => MeansNumber(v, n, 0.0, false)
    case ReconnectMultiplier => MeansNumber(v, n, 1.0, true)
    case ReconnectMaxDelay => MeansNumber(v, n, 0.0, false)
    case Color => MeansChoice(v, n, COLOR_MODES, SpellsSmall)
    case Theme => MeansChoice(v, n, THEME_NAMES, SpellsSmall)
    case LogLevel => (v == n == NoneValue) || MeansChoice(v, n, LOG_LEVEL_NAMES, SpellsCapital)
    case LogFile => (v == n == NoneValue) || MeansPath(v, n)
  }

  lemma SmallChoice(t: Text, w: Text)
    requires Small(w)
    ensures Lower(Strip(t)) == w <==> exists m :: Pads(t, m) && SpellsSmall(m, w)
  {
    StripTakesBlanks(t);
    LowerSpells(Strip(t), w);
    forall m | Pads(t, m) && SpellsSmall(m, w) ensures m == Strip(t) {
      assert WritesSmall(m[0], w[0]) && WritesSmall(m[|m| - 1], w[|w| - 1]);
      StripOfPadded(t, m);
    }
  }

  lemma CapitalChoice(t: Text, w: Text)
    requires Capital(w) && PlainCapitals(w)
    ensures Upper(Strip(t)) == w <==> exists m :: Pads(t, m) && SpellsCapital(m, w)
  {
    StripTakesBlanks(t);
    UpperSpells(Strip(t), w);
    forall m | Pads(t, m) && SpellsCapital(m, w) ensures m == Strip(t) {
      assert WritesCapital(m[0], w[0]) && WritesCapital(m[|m| - 1], w[|w| - 1]);
      StripOfPadded(t, m);
    }
  }

  lemma BlankIsStrippedAway(t: Text)
    ensures Strip(t) == [] <==> Blank(t)
  {
    StripTakesBlanks(t);
    if Strip(t) == [] {
      var i: nat, j: nat :| PadsAt(t, [], i, j);
      assert |t[i..j]| == j - i;
    }
    if Blank(t) {
      assert PadsAt(t, [], 0, 0);
      StripOfPadded(t, []);
    }
  }

  lemma ShortLevelsArePlain(t: Text)
    requires t in LOG_LEVEL_NAMES && |t| <= 5
    ensures forall i :: 0 <= i < |t| - 1 ==> !Ligature(t[i], t[i + 1])
  {
  }

  lemma LongLevelsArePlain(t: Text)
    requires t in LOG_LEVEL_NAMES && |t| > 5
    ensures forall i :: 0 <= i < |t| - 1 ==> !Ligature(t[i], t[i + 1])
  {
  }

  lemma LevelsArePlain(t: Text)
    requires t in LOG_LEVEL_NAMES
    ensures PlainCapitals(t)
  {
    LevelsAreCapital(t);
    if |t| <= 5 {
      ShortLevelsArePlain(t);
    } else {
      LongLevelsArePlain(t);
    }
  }

  /** A value is accepted, and comes out as it does, exactly if that is what it means. */
  lemma NormalisedMeans(f: Field, v: Value, n: Value)
    ensures Normalised(f, v) == Some(n) <==> Means(f, v, n)
  {
    match f
    case Color => ColorMeans(v, n);
    case Theme => ThemeMeans(v, n);
    case LogLevel => LevelMeans(v, n);
    case LogFile =>
      if v.String? {
        BlankIsStrippedAway(v.t);
      }
    case _ =>
  }

  lemma ColorMeans(v: Value, n: Value)
    ensures Normalised(Color, v) == Some(n) <==> Means(Color, v, n)
  {
    if v.String? && n.String? && n.t in COLOR_MODES {
      ColorsAreSmall(n.t);
      SmallChoice(v.t, n.t);
    }
  }

  lemma ThemeMeans(v: Value, n: Value)
    ensures Normalised(Theme, v) == Some(n) <==> Means(Theme, v, n)
  {
    if v.String? && n.String? && n.t in THEME_NAMES {
      ThemesAreSmall(n.t);
      SmallChoice(v.t, n.t);
    }
  }

  lemma LevelMeans(v: Value, n: Value)
    ensures Normalised(LogLevel, v) == Some(n) <==> Means(LogLevel, v, n)
  {
    if v.String? && n.String? && n.t in LOG_LEVEL_NAMES {
      LevelsAreCapital(n.t);
      LevelsArePlain(n.t);
      CapitalChoice(v.t, n.t);
    }
  }

  /** The maximum delay is at least the initial one. */
  predicate DelaysOrdered(values: Values)
    requires Full(values)
  {
    var low := Normalised(ReconnectInitialDelay, values[ReconnectInitialDelay]);
    var high := Normalised(ReconnectMaxDelay, values[ReconnectMaxDelay]);
    low.Some? && high.Some? && low.value.Float? && high.value.Float? && low.value.x <= high.value.x
  }

  predicate Acceptable(values: Values)
    requires Full(values)
  {
    (forall f: Field :: Normalised(f, values[f]).Some?) && DelaysOrdered(values)
  }

  /** `ApplicationConfiguration(**values)` */
  function Construct(values: Values): (r: Option<Values>)
    requires Full(values)
    ensures r.Some? <==> Acceptable(values)
    ensures r.Some? ==> Full(r.value) && forall f: Field :: Normalised(f, values[f]) == Some(r.value[f])
  {
    if Acceptable(values) then Some(map f: Field | true :: Normalised(f, values[f]).value) else None
  }

  /** `n` is what all values mean, and its delays are in order. */
  ghost predicate AllMean(values: Values, n: Values)
    requires Full(values) && Full(n)
  {
    && (forall f: Field :: Means(f, values[f], n[f]))
    && n[ReconnectInitialDelay].x <= n[ReconnectMaxDelay].x
  }

  /** Construction succeeds exactly with what the values mean. */
  lemma ConstructMeans(values: Values, n: Values)
    requires Full(values) && Full(n)
    ensures Construct(values) == Some(n) <==> AllMean(values, n)
  {
    forall f: Field ensures Normalised(f, values[f]) == Some(n[f]) <==> Means(f, values[f], n[f]) {
      NormalisedMeans(f, values[f], n[f]);
    }
    if AllMean(values, n) {
      assert Acceptable(values);
      var r := Construct(values).value;
      assert forall f: Field :: Some(r[f]) == Some(n[f]);
      assert r == n;
    }
  }

  /** The value of a field that is not given. */
  function DefaultValue(f: Field): Value {
    match f
    case MaxXmlRetries => Integer(2)
    case ReconnectAttempts => Integer(0)
    case ReconnectInitialDelay => Float(1.0)
    case ReconnectMultiplier => Float(2.0)
    case ReconnectMaxDelay => Float(30.0)
    case HealthHistoryLimit => Integer(100)
    case Color => String(Lit("auto"))
    case Theme => String(Lit("dark"))
    case LogLevel => NoneValue
    case LogFile => NoneValue
  }

  /** `ApplicationConfiguration()` */
  function Defaults(): (v: Values)
    ensures Full(v)
  {
    map f: Field | true :: DefaultValue(f)
  }

  predicate Small(t: Text) {
    t != [] && forall i :: 0 <= i < |t| ==> 97 <= t[i] <= 122
  }

  predicate Capital(t: Text) {
    t != [] && forall i :: 0 <= i < |t| ==> 65 <= t[i] <= 90
  }

  lemma ColorsAreSmall(t: Text)
    requires t in COLOR_MODES
    ensures Small(t)
  {
  }

  lemma ThemesAreSmall(t: Text)
    requires t in THEME_NAMES
    ensures Small(t)
  {
  }

  lemma LevelsAreCapital(t: Text)
    requires t in LOG_LEVEL_NAMES
    ensures Capital(t)
  {
  }

  lemma {:induction false} SmallIsPlain(t: Text)
    requires Small(t)
    ensures Lower(Strip(t)) == t
  {
    assert Strip(t) == t;
    LowerOfSmall(t);
  }

  lemma {:induction false} CapitalIsPlain(t: Text)
    requires Capital(t)
    ensures Upper(Strip(t)) == t
  {
    assert Strip(t) == t;
    UpperOfCapitals(t);
  }

  /** Normalisation changes nothing the second time. */
  lemma NormalisedTwice(f: Field, v: Value)
    requires Normalised(f, v).Some?
    ensures Normalised(f, Normalised(f, v).value) == Normalised(f, v)
  {
    var n := Normalised(f, v).value;
    if n.String? {
      if f == LogLevel {
        LevelsAreCapital(n.t);
        CapitalIsPlain(n.t);
      } else {
        if f == Color {
          ColorsAreSmall(n.t);
        } else {
          ThemesAreSmall(n.t);
        }
        SmallIsPlain(n.t);
      }
    }
  }

  lemma DefaultIsNormal(f: Field)
    ensures Normalised(f, DefaultValue(f)) == Some(DefaultValue(f))
  {
    if f == Color {
      assert Lit("auto") in COLOR_MODES;
      SmallIsPlain(Lit("auto"));
    } else if f == Theme {
      assert Lit("dark") in THEME_NAMES;
      SmallIsPlain(Lit("dark"));
    }
  }

  /** The defaults are accepted, and are already normalised. */
  lemma DefaultsAreNormal()
    ensures Construct(Defaults()) == Some(Defaults())
  {
    forall f: Field ensures Normalised(f, Defaults()[f]) == Some(Defaults()[f]) {
      DefaultIsNormal(f);
    }
    AlreadyNormal(Defaults());
  }

  lemma AlreadyNormal(values: Values)
    requires Full(values) && DelaysOrdered(values)
    requires forall f: Field :: Normalised(f, values[f]) == Some(values[f])
    ensures Construct(values) == Some(values)
  {
    assert Acceptable(values);
    var r := Construct(values).value;
    assert forall f: Field :: Some(r[f]) == Normalised(f, values[f]) == Some(values[f]);
    assert r == values;
  }

  /** A constructed configuration is accepted again as it is. */
  lemma ConstructTwice(values: Values)
    requires Full(values) && Construct(values).Some?
    ensures Construct(Construct(values).value) == Construct(values)
  {
    OverlayNormalised(values, map[]);
    assert values + map[] == values;
    assert Construct(values).value + map[] == Construct(values).value;
  }

  /** It makes no difference whether values are overlaid before or after the rest is normalised. */
  lemma OverlayNormalised(values: Values, overlay: Values)
    requires Full(values) && Construct(values).Some?
    ensures Full(values + overlay) && Full(Construct(values).value + overlay)
    ensures Construct(Construct(values).value + overlay) == Construct(values + overlay)
  {
    var normal := Construct(values).value;
    forall f: Field ensures Normalised(f, (normal + overlay)[f]) == Normalised(f, (values + overlay)[f]) {
      NormalisedTwice(f, values[f]);
    }
    SameFields(normal + overlay, values + overlay);
  }

  lemma SameFields(a: Values, b: Values)
    requires Full(a) && Full(b)
    requires forall f: Field :: Normalised(f, a[f]) == Normalised(f, b[f])
    ensures Construct(a) == Construct(b)
  {
    if Construct(a).Some? {
      var x, y := Construct(a).value, Construct(b).value;
      assert forall f: Field :: Some(x[f]) == Some(y[f]);
      assert x == y;
    }
  }

  // Layers

  datatype Source = Default | System | User | Environment | CommandLine

  /** `CONFIGURATION_SOURCE_PRECEDENCE.index` */
  function Precedence(s: Source): nat {
    match s
    case Default => 0
    case System => 1
    case User => 2
    case Environment => 3
    case CommandLine => 4
  }

  /** The command line comes before the environment, that before the user's file, and that before the system's. */
  lemma SourcesAreRanked()
    ensures Precedence(Default) < Precedence(System) < Precedence(User)
    ensures Precedence(User) < Precedence(Environment) < Precedence(CommandLine)
  {
  }

  /** A key of a layer: the name of a field, or any other string. */
  datatype Name = Known(field: Field) | Unknown(text: Text)

  /** Its constructor refuses the source `Default`, which would not exceed the precedence of the defaults. */
  datatype Layer = Layer(source: Source, values: map<Name, Value>, location: Option<Text>)

  datatype Origin = Origin(source: Source, location: Option<Text>)

  datatype ConfigurationError = DuplicateSource | OutOfOrder | UnsupportedFields | InvalidValues

  predicate Sets(layer: Layer, f: Field) {
    Known(f) in layer.values
  }

  /** What a layer sets. */
  function Settings(layer: Layer): (s: Values)
    ensures forall f :: f in s <==> Sets(layer, f)
  {
    map f: Field | Sets(layer, f) :: layer.values[Known(f)]
  }

  /** The last layer that sets a field. */
  function LastWriter(layers: seq<Layer>, f: Field): (l: Option<Layer>)
    ensures l.Some? ==> Sets(l.value, f)
  {
    if layers == [] then None
    else if Sets(layers[|layers| - 1], f) then Some(layers[|layers| - 1])
    else LastWriter(layers[..|layers| - 1], f)
  }

  /** No layer after the last writer sets the field. */
  lemma {:induction false} LastWriterIsLast(layers: seq<Layer>, f: Field) returns (k: nat)
    ensures match LastWriter(layers, f)
            case Some(layer) =>
              k < |layers| && layers[k] == layer && forall j :: k < j < |layers| ==> !Sets(layers[j], f)
            case None => forall j :: 0 <= j < |layers| ==> !Sets(layers[j], f)
    decreases |layers|
  {
    k := 0;
    if layers != [] {
      var n := |layers| - 1;
      if Sets(layers[n], f) {
        k := n;
      } else {
        k := LastWriterIsLast(layers[..n], f);
      }
    }
  }

  /** The value that wins for a field. */
  function Winner(defaults: Values, layers: seq<Layer>, f: Field): Value
    requires Full(defaults)
  {
    match LastWriter(layers, f)
    case Some(layer) => layer.values[Known(f)]
    case None => defaults[f]
  }

  function WinnerOrigin(layers: seq<Layer>, f: Field): Origin {
    match LastWriter(layers, f)
    case Some(layer) => Origin(layer.source, layer.location)
    case None => DefaultOrigin(f)
  }

  function DefaultOrigin(f: Field): Origin {
    Origin(Default, None)
  }

  /** The raw values of the layers, each overlaid on those before. */
  function Merged(defaults: Values, layers: seq<Layer>): (v: Values)
    requires Full(defaults)
    ensures Full(v)
  {
    if layers == [] then defaults else Merged(defaults, layers[..|layers| - 1]) + Settings(layers[|layers| - 1])
  }

  /** The origins a layer gives to what it sets. */
  function OriginsOf(layer: Layer): (o: map<Field, Origin>)
    ensures o.Keys == Settings(layer).Keys
  {
    map f | f in Settings(layer) :: Origin(layer.source, layer.location)
  }

  function Origins(layers: seq<Layer>): (o: map<Field, Origin>)
    ensures Full(o)
  {
    if layers == [] then map f: Field | true :: DefaultOrigin(f)
    else Origins(layers[..|layers| - 1]) + OriginsOf(layers[|layers| - 1])
  }

  /** The last writer of each field wins, and its layer is the origin. */
  lemma {:induction false} LastWriterWins(defaults: Values, layers: seq<Layer>, f: Field)
    requires Full(defaults)
    ensures Merged(defaults, layers)[f] == Winner(defaults, layers, f)
    ensures Origins(layers)[f] == WinnerOrigin(layers, f)
    decreases |layers|
  {
    if layers != [] {
      LastWriterWins(defaults, layers[..|layers| - 1], f);
    }
  }

  predicate KnownFields(layer: Layer) {
    forall name | name in layer.values :: name.Known?
  }

  /** The precedence that the layer at `k` has to exceed. */
  function Floor(layers: seq<Layer>, k: nat): nat
    requires k <= |layers|
  {
    if k == 0 then 0 else Precedence(layers[k - 1].source)
  }

  /** The sources of the first `k` layers. */
  function Sources(layers: seq<Layer>, k: nat): set<Source>
    requires k <= |layers|
  {
    if k == 0 then {} else Sources(layers, k - 1) + {layers[k - 1].source}
  }

  lemma {:induction false} SourceOfSome(layers: seq<Layer>, k: nat, s: Source)
    requires k <= |layers|
    ensures s in Sources(layers, k) <==> exists j :: 0 <= j < k && layers[j].source == s
    decreases k
  {
    if k > 0 {
      SourceOfSome(layers, k - 1, s);
    }
  }

  /** Why layer `k` is rejected after the ones before it, judged on raw values. */
  function Fault(defaults: Values, layers: seq<Layer>, k: nat): Option<ConfigurationError>
    requires Full(defaults) && k < |layers|
  {
    if layers[k].source in Sources(layers, k) then Some(DuplicateSource)
    else if Precedence(layers[k].source) <= Floor(layers, k) then Some(OutOfOrder)
    else if !KnownFields(layers[k]) then Some(UnsupportedFields)
    else if Construct(Merged(defaults, layers[..k + 1])).None? then Some(InvalidValues)
    else None
  }

  /** Which fault a layer has: each kind is looked for before the next. */
  lemma FaultSays(defaults: Values, layers: seq<Layer>, k: nat)
    requires Full(defaults) && k < |layers|
    ensures var duplicate := exists j :: 0 <= j < k && layers[j].source == layers[k].source;
            var late := k > 0 && Precedence(layers[k].source) <= Precedence(layers[k - 1].source);
            var unknown := exists name :: name in layers[k].values && name.Unknown?;
            Fault(defaults, layers, k)
              == if duplicate then Some(DuplicateSource)
                 else if late || layers[k].source == Default then Some(OutOfOrder)
                 else if unknown then Some(UnsupportedFields)
                 else if Construct(Merged(defaults, layers[..k + 1])).None? then Some(InvalidValues) else None
  {
    SourceOfSome(layers, k, layers[k].source);
  }

  /** The first `n` layers are accepted. */
  ghost predicate Accepted(defaults: Values, layers: seq<Layer>, n: nat)
    requires Full(defaults) && n <= |layers|
  {
    forall k :: 0 <= k < n ==> Fault(defaults, layers, k).None?
  }

  lemma MergedStep(defaults: Values, layers: seq<Layer>, k: nat)
    requires Full(defaults) && k < |layers|
    ensures Merged(defaults, layers[..k + 1]) == Merged(defaults, layers[..k]) + Settings(layers[k])
    ensures Origins(layers[..k + 1]) == Origins(layers[..k]) + OriginsOf(layers[k])
  {
    assert layers[..k + 1][..k] == layers[..k];
  }

  /** The first `k` layers resolve to these values and origins. */
  ghost predicate Resolved(
      defaults: Values, layers: seq<Layer>, k: nat, configuration: Values, origins: map<Field, Origin>)
    requires Full(defaults)
  {
    && k <= |layers|
    && Construct(Merged(defaults, layers[..k])) == Some(configuration)
    && origins == Origins(layers[..k])
  }

  /** What overlaying layer `k` on the normalised values so far comes to. */
  lemma ResolvedStep(defaults: Values, layers: seq<Layer>, k: nat, configuration: Values, origins: map<Field, Origin>)
    requires Full(defaults) && k < |layers| && Resolved(defaults, layers, k, configuration, origins)
    ensures Full(configuration + Settings(layers[k]))
    ensures match Construct(configuration + Settings(layers[k]))
            case None => Construct(Merged(defaults, layers[..k + 1])).None?
            case Some(next) =>
              && Construct(Merged(defaults, layers[..k + 1])).Some?
              && Resolved(defaults, layers, k + 1, next, origins + OriginsOf(layers[k]))
  {
    MergedStep(defaults, layers, k);
    OverlayNormalised(Merged(defaults, layers[..k]), Settings(layers[k]));
  }

  lemma AllResolved(defaults: Values, layers: seq<Layer>, configuration: Values, origins: map<Field, Origin>)
    requires Full(defaults) && Resolved(defaults, layers, |layers|, configuration, origins)
    ensures Construct(Merged(defaults, layers)) == Some(configuration) && origins == Origins(layers)
  {
    assert layers[..|layers|] == layers;
  }

  lemma NoLayers(defaults: Values, layers: seq<Layer>)
    requires Full(defaults)
    requires Construct(defaults) == Some(defaults)
    ensures Resolved(defaults, layers, 0, defaults, map f: Field | true :: DefaultOrigin(f))
  {
    assert layers[..0] == [];
  }

  /** One round of the loop of `resolve_application_configuration`. */
  method ResolveLayer(
      layers: seq<Layer>, k: nat, previousIndex: nat, seen: set<Source>, configuration: Values,
      origins: map<Field, Origin>, ghost defaults: Values)
    returns (error: Option<ConfigurationError>, configuration': Values, origins': map<Field, Origin>)
    requires Full(defaults) && k < |layers| && Resolved(defaults, layers, k, configuration, origins)
    requires previousIndex == Floor(layers, k) && seen == Sources(layers, k)
    ensures error == Fault(defaults, layers, k)
    ensures error.None? ==> Resolved(defaults, layers, k + 1, configuration', origins')
  {
    configuration', origins' := configuration, origins;
    var layer := layers[k];
    if layer.source in seen {
      error := Some(DuplicateSource);
      return;
    }
    if Precedence(layer.source) <= previousIndex {
      error := Some(OutOfOrder);
      return;
    }
    if !KnownFields(layer) {
      error := Some(UnsupportedFields);
      return;
    }
    ResolvedStep(defaults, layers, k, configuration, origins);
    match Construct(configuration + Settings(layer)) {
      case None =>
        error := Some(InvalidValues);
        return;
      case Some(next) => configuration' := next;
    }
    origins' := origins + OriginsOf(layer);
    error := None;
  }

  lemma AcceptedMore(defaults: Values, layers: seq<Layer>, k: nat)
    requires Full(defaults) && k < |layers|
    requires Accepted(defaults, layers, k) && Fault(defaults, layers, k).None?
    ensures Accepted(defaults, layers, k + 1)
  {
  }

  /**
    `resolve_application_configuration`: it succeeds exactly when no layer has a fault, and
    otherwise reports the fault of the first layer that has one. On success the result is the
    normalised merge of the layers, each field with its origin.
   */
  method Resolve(layers: seq<Layer>, defaults: Values)
    returns (r: Result<(Values, map<Field, Origin>), ConfigurationError>, ghost at: nat)
    requires Full(defaults) && Construct(defaults) == Some(defaults)
    ensures at <= |layers| && Accepted(defaults, layers, at)
    ensures r.Ok? <==> at == |layers|
    ensures r.Ok? ==> Construct(Merged(defaults, layers)) == Some(r.value.0) && r.value.1 == Origins(layers)
    ensures r.Ok? ==>
              forall f: Field ::
                && Means(f, Winner(defaults, layers, f), r.value.0[f])
                && r.value.1[f] == WinnerOrigin(layers, f)
    ensures r.Err? ==> at < |layers| && Fault(defaults, layers, at) == Some(r.error)
  {
    var configuration := defaults;
    var origins: map<Field, Origin> := map f: Field | true :: DefaultOrigin(f);
    var previousIndex := 0;
    var seen: set<Source> := {};
    NoLayers(defaults, layers);
    for k := 0 to |layers|
      invariant Accepted(defaults, layers, k)
      invariant Resolved(defaults, layers, k, configuration, origins)
      invariant previousIndex == Floor(layers, k)
      invariant seen == Sources(layers, k)
    {
      var error;
      error, configuration, origins := ResolveLayer(layers, k, previousIndex, seen, configuration, origins, defaults);
      if error.Some? {
        return Err(error.value), k;
      }
      AcceptedMore(defaults, layers, k);
      seen := seen + {layers[k].source};
      previousIndex := Precedence(layers[k].source);
    }
    AllResolved(defaults, layers, configuration, origins);
    forall f: Field
      ensures Means(f, Winner(defaults, layers, f), configuration[f]) && origins[f] == WinnerOrigin(layers, f)
    {
      ResolvedField(defaults, layers, configuration, f);
    }
    return Ok((configuration, origins)), |layers|;
  }

  // When resolution succeeds

  ghost predicate Ascends(layers: seq<Layer>, k: nat)
    requires k < |layers|
  {
    Floor(layers, k) < Precedence(layers[k].source)
  }

  /** Merging the first `n` layers with the last writer winning gives acceptable values. */
  ghost predicate MergesTo(defaults: Values, layers: seq<Layer>, n: nat)
    requires Full(defaults) && n <= |layers|
  {
    Acceptable(Merged(defaults, layers[..n]))
  }

  lemma {:induction false} SourcesRise(layers: seq<Layer>, j: nat, k: nat)
    requires j < k < |layers| && forall i: nat :: i <= k ==> Ascends(layers, i)
    ensures Precedence(layers[j].source) < Precedence(layers[k].source)
    decreases k
  {
    assert Ascends(layers, k);
    if j < k - 1 {
      SourcesRise(layers, j, k - 1);
    }
  }

  /** The condition under which a layer is accepted. */
  ghost predicate Fits(defaults: Values, layers: seq<Layer>, k: nat)
    requires Full(defaults) && k < |layers|
  {
    Ascends(layers, k) && KnownFields(layers[k]) && MergesTo(defaults, layers, k + 1)
  }

  ghost predicate AllFit(defaults: Values, layers: seq<Layer>, n: nat)
    requires Full(defaults) && n <= |layers|
  {
    forall k: nat :: k < n ==> Fits(defaults, layers, k)
  }

  lemma NoFaultIffFits(defaults: Values, layers: seq<Layer>, k: nat)
    requires Full(defaults) && k < |layers| && AllFit(defaults, layers, k)
    ensures Fault(defaults, layers, k).None? <==> Fits(defaults, layers, k)
  {
    if Ascends(layers, k) {
      forall i: nat | i <= k ensures Ascends(layers, i) {
        assert i < k ==> Fits(defaults, layers, i);
      }
      forall j | 0 <= j < k ensures layers[j].source != layers[k].source {
        SourcesRise(layers, j, k);
      }
      SourceOfSome(layers, k, layers[k].source);
    }
  }

  /**
    Resolution succeeds exactly when the sources strictly ascend, only known fields are set,
    and every merge of the first few layers, the last writer winning, is acceptable.
   */
  lemma AcceptedIff(defaults: Values, layers: seq<Layer>, n: nat)
    requires Full(defaults) && n <= |layers|
    ensures Accepted(defaults, layers, n) <==> AllFit(defaults, layers, n)
  {
    for i := 0 to n
      invariant Accepted(defaults, layers, i) <==> AllFit(defaults, layers, i)
    {
      if AllFit(defaults, layers, i) {
        NoFaultIffFits(defaults, layers, i);
        if Fits(defaults, layers, i) {
          AcceptedMore(defaults, layers, i);
        }
      }
    }
  }

  /**
    Each field resolves to what the value of the last layer that sets it, or else the default,
    means, and to that origin.
   */
  lemma ResolvedField(defaults: Values, layers: seq<Layer>, configuration: Values, f: Field)
    requires Full(defaults) && Construct(Merged(defaults, layers)) == Some(configuration)
    ensures Means(f, Winner(defaults, layers, f), configuration[f])
    ensures Origins(layers)[f] == WinnerOrigin(layers, f)
  {
    ConstructMeans(Merged(defaults, layers), configuration);
    LastWriterWins(defaults, layers, f);
  }
}
