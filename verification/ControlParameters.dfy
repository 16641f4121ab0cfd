/**
  The parameters of scanner controls: what a client agrees to send (`daemon_client.py`) and
  what the server accepts (`daemon_api.py`).

  An argument is a JSON value; an argument of any other type is refused just as an array is.
 */
module ControlParameters {
  import opened Prelude
  import opened Texts
  import opened JsonText
  import opened Json
  import Events

  datatype Operation = ScannerHold | ScannerHoldState | ScannerNext | ScannerPrevious | ScannerReconnect

  const NAVIGATION_TARGETS: set<Text> := {
    Lit("SYS"), Lit("DEPT"), Lit("SITE"), Lit("CFREQ"), Lit("TGID"), Lit("STGID"), Lit("WX"), Lit("FTO"), Lit("CCHIT"),
    Lit("CS_FREQ"), Lit("QS_FREQ")}
  const HOLD_STATE_SCOPES: set<Text> := {Lit("system"), Lit("department"), Lit("site"), Lit("channel")}
  const MAX_CONTROL_TIMEOUT := 2.0
  const MAX_HOLD_STATE_TIMEOUT := 4.0

  const P_TARGET: Text := Lit("target")
  const P_FIRST: Text := Lit("first")
  const P_SECOND: Text := Lit("second")
  const P_COUNT: Text := Lit("count")
  const P_SCOPE: Text := Lit("scope")
  const P_HELD: Text := Lit("held")
  const P_TIMEOUT: Text := Lit("timeout")

  type Params = map<Text, Json>

  // The value of the text of a float

  function Pow10(e: int): real
    decreases if e < 0 then -e else e
  {
    if e == 0 then 1.0 else if e > 0 then 10.0 * Pow10(e - 1) else Pow10(e + 1) / 10.0
  }

  /** `0.ddd` */
  function FractionValue(ds: Bytes): real {
    if ds == [] then 0.0 else (ds[0] as int as real - 48.0 + FractionValue(ds[1..])) / 10.0
  }

  function ExponentValue(s: Bytes): int {
    if s == [] || (s[0] != 69 && s[0] != 101) then 0
    else if |s| > 1 && s[1] == 45 then -DigitsValue(s[2..])
    else if |s| > 1 && s[1] == 43 then DigitsValue(s[2..])
    else DigitsValue(s[1..])
  }

  function UnsignedValue(s: Bytes): real {
    var n := DigitCount(s);
    var rest := s[n..];
    var m := if rest != [] && rest[0] == 46 then 1 + DigitCount(rest[1..]) else 0;
    (DigitsValue(s[..n]) as real + if m > 0 then FractionValue(rest[1..m]) else 0.0) * Pow10(ExponentValue(rest[m..]))
  }

  function DecimalValue(text: Bytes): real {
    if text != [] && text[0] == 45 then -UnsignedValue(text[1..]) else UnsignedValue(text)
  }

  // What both sides check

  function NavigationTarget(v: Json): Option<Text> {
    if v.String? && Upper(Strip(v.t)) in NAVIGATION_TARGETS then Some(Upper(Strip(v.t))) else None
  }

  function HoldScope(v: Json): Option<Text> {
    if v.String? && Lower(Strip(v.t)) in HOLD_STATE_SCOPES then Some(Lower(Strip(v.t))) else None
  }

  /** No comma and no line break. */
  predicate NoDelimiter(t: Text) {
    forall i :: 0 <= i < |t| ==> t[i] != 44 && t[i] != 13 && t[i] != 10
  }

  predicate NavigationValue(v: Json) {
    v.Null? || v.Integer? || (v.String? && NoDelimiter(Strip(v.t)))
  }

  predicate NavigationCount(v: Json) {
    v.Integer? && 1 <= v.i <= 8
  }

  /** `float(value)`, as text, if it is above zero and at most `maximum`. */
  function TimeoutText(v: Json, maximum: real): Option<Bytes> {
    match v
    case Integer(i) => if i > 0 && i as real <= maximum then Some(IntegerText(i) + [46, 48]) else None
    case Float(x) => if 0.0 < DecimalValue(x) <= maximum then Some(x) else None
    case _ => None
  }

  // The client

  datatype Call =
    | Hold(target: Json, first: Json, second: Json, timeout: Json)
    | HoldState(scope: Json, held: Json, timeout: Json)
    | Move(forward: bool, target: Json, first: Json, second: Json, count: Json, timeout: Json)
    | Reconnect(timeout: Json)

  function OperationOf(call: Call): Operation {
    match call
    case Hold(_, _, _, _) => ScannerHold
    case HoldState(_, _, _) => ScannerHoldState
    case Move(forward, _, _, _, _, _) => if forward then ScannerNext else ScannerPrevious
    case Reconnect(_) => ScannerReconnect
  }

  /** What the client keeps of a hello, as far as controls go. */
  datatype Hello = Hello(
    readOnly: bool, operations: set<Operation>, controlOperations: set<Operation>,
    maxControlTimeout: real, maxHoldStateTimeout: real)

  predicate Advertised(hello: Hello, op: Operation) {
    !hello.readOnly && op in hello.controlOperations && op in hello.operations
  }

  /** A navigation value that is `None` is not sent. */
  function Given(name: Text, v: Json): Params {
    if v.Null? then map[] else map[name := v]
  }

  /** The parameters the client sends for a call, unless it raises instead. */
  function ClientParams(call: Call, hello: Hello): Option<Params> {
    if !Advertised(hello, OperationOf(call)) then None
    else
      match call
      case Hold(target, first, second, timeout) =>
        (match (NavigationTarget(target), TimeoutText(timeout, hello.maxControlTimeout))
         case (Some(name), Some(text)) =>
           if NavigationValue(first) && NavigationValue(second)
           then Some(map[P_TARGET := String(name), P_TIMEOUT := Float(text)]
                     + Given(P_FIRST, first) + Given(P_SECOND, second))
           else None
         case _ => None)
      case Move(_, target, first, second, count, timeout) =>
        (match (NavigationTarget(target), TimeoutText(timeout, hello.maxControlTimeout))
         case (Some(name), Some(text)) =>
           if NavigationValue(first) && NavigationValue(second) && NavigationCount(count)
           then Some(map[P_TARGET := String(name), P_COUNT := count, P_TIMEOUT := Float(text)]
                     + Given(P_FIRST, first) + Given(P_SECOND, second))
           else None
         case _ => None)
      case HoldState(scope, held, timeout) =>
        (match (HoldScope(scope), TimeoutText(timeout, hello.maxHoldStateTimeout))
         case (Some(name), Some(text)) =>
           if held.Boolean? then Some(map[P_SCOPE := String(name), P_HELD := held, P_TIMEOUT := Float(text)]) else None
         case _ => None)
      case Reconnect(timeout) =>
        (match TimeoutText(timeout, hello.maxControlTimeout)
         case Some(text) => Some(map[P_TIMEOUT := Float(text)])
         case None => None)
  }

  // The server

  predicate Present(params: Params, name: Text, check: Json -> bool) {
    name in params && check(params[name])
  }

  /** A parameter that may be missing or null. */
  predicate Absent(params: Params, name: Text, check: Json -> bool) {
    name in params ==> check(params[name])
  }

  function Allowed(op: Operation): set<Text> {
    match op
    case ScannerHold => {P_TARGET, P_FIRST, P_SECOND, P_TIMEOUT}
    case ScannerNext => {P_TARGET, P_FIRST, P_SECOND, P_TIMEOUT, P_COUNT}
    case ScannerPrevious => {P_TARGET, P_FIRST, P_SECOND, P_TIMEOUT, P_COUNT}
    case ScannerHoldState => {P_SCOPE, P_HELD, P_TIMEOUT}
    case ScannerReconnect => {P_TIMEOUT}
  }

  predicate IsTarget(v: Json) {
    NavigationTarget(v).Some?
  }

  predicate IsScope(v: Json) {
    HoldScope(v).Some?
  }

  predicate IsFlag(v: Json) {
    v.Boolean?
  }

  predicate IsControlTimeout(v: Json) {
    TimeoutText(v, MAX_CONTROL_TIMEOUT).Some?
  }

  predicate IsHoldStateTimeout(v: Json) {
    TimeoutText(v, MAX_HOLD_STATE_TIMEOUT).Some?
  }

  /** `_validate_control_params` */
  predicate ValidParams(op: Operation, params: Params) {
    && params.Keys <= Allowed(op)
    && (match op
        case ScannerHoldState =>
          && Present(params, P_SCOPE, IsScope) && Present(params, P_HELD, IsFlag)
          && Absent(params, P_TIMEOUT, IsHoldStateTimeout)
        case ScannerReconnect => Absent(params, P_TIMEOUT, IsControlTimeout)
        case _ =>
          && Present(params, P_TARGET, IsTarget)
          && Absent(params, P_FIRST, NavigationValue) && Absent(params, P_SECOND, NavigationValue)
          && Absent(params, P_TIMEOUT, IsControlTimeout)
          && (op == ScannerHold || Absent(params, P_COUNT, NavigationCount)))
  }

  /** What the runtime is asked to do. A timeout is the text of a float, a missing navigation value null. */
  datatype Control =
    | RunHold(target: Text, first: Json, second: Json, timeout: Bytes)
    | RunHoldState(scope: Text, held: bool, timeout: Bytes)
    | RunMove(forward: bool, target: Text, first: Json, second: Json, count: int, timeout: Bytes)
    | RunReconnect(timeout: Bytes)

  const DEFAULT_CONTROL_TIMEOUT: Bytes := [50, 46, 48]
  const DEFAULT_HOLD_STATE_TIMEOUT: Bytes := [52, 46, 48]

  function OrNull(params: Params, name: Text): Json {
    if name in params then params[name] else Null
  }

  function TimeoutOr(params: Params, maximum: real, default: Bytes): Bytes
    requires P_TIMEOUT in params ==> TimeoutText(params[P_TIMEOUT], maximum).Some?
  {
    if P_TIMEOUT in params then TimeoutText(params[P_TIMEOUT], maximum).value else default
  }

  /** `_dispatch_control` */
  function Dispatch(op: Operation, params: Params): Control
    requires ValidParams(op, params)
  {
    match op
    case ScannerHold =>
      RunHold(NavigationTarget(params[P_TARGET]).value, OrNull(params, P_FIRST), OrNull(params, P_SECOND),
              TimeoutOr(params, MAX_CONTROL_TIMEOUT, DEFAULT_CONTROL_TIMEOUT))
    case ScannerHoldState =>
      RunHoldState(HoldScope(params[P_SCOPE]).value, params[P_HELD].b,
                   TimeoutOr(params, MAX_HOLD_STATE_TIMEOUT, DEFAULT_HOLD_STATE_TIMEOUT))
    case ScannerReconnect =>
      RunReconnect(TimeoutOr(params, MAX_CONTROL_TIMEOUT, DEFAULT_CONTROL_TIMEOUT))
    case _ =>
      RunMove(op == ScannerNext, NavigationTarget(params[P_TARGET]).value,
              OrNull(params, P_FIRST), OrNull(params, P_SECOND),
              if P_COUNT in params then params[P_COUNT].i else 1,
              TimeoutOr(params, MAX_CONTROL_TIMEOUT, DEFAULT_CONTROL_TIMEOUT))
  }

  // What the server makes of what the client checked, once it has been through JSON

  lemma ParameterNamesDiffer()
    ensures |P_TARGET| == |P_SECOND| == 6 && P_TARGET[0] == 116 && P_SECOND[0] == 115
    ensures |P_FIRST| == |P_COUNT| == |P_SCOPE| == 5 && P_FIRST[0] == 102 && P_COUNT[0] == 99 && P_SCOPE[0] == 115
    ensures |P_HELD| == 4 && |P_TIMEOUT| == 7
  {
  }

  lemma TargetsAreCapitals(t: Text)
    requires t in NAVIGATION_TARGETS
    ensures t != [] && !IsSpace(t[0]) && !IsSpace(t[|t| - 1])
    ensures forall i :: 0 <= i < |t| ==> 65 <= t[i] <= 90 || t[i] == 95
  {
  }

  lemma {:induction false} CapitalsAgain(t: Text)
    requires t != [] && !IsSpace(t[0]) && !IsSpace(t[|t| - 1])
    requires forall i :: 0 <= i < |t| ==> 65 <= t[i] <= 90 || t[i] == 95
    ensures Joined(t) == t && Upper(Strip(t)) == t
  {
    Events.AsciiIsClean(t);
    assert Strip(t) == t;
    UpperOfCapitals(t);
  }

  lemma {:induction false} TargetAgain(t: Text)
    requires t in NAVIGATION_TARGETS
    ensures NavigationTarget(Reread(String(t))) == Some(t)
  {
    TargetsAreCapitals(t);
    CapitalsAgain(t);
  }

  lemma ScopesAreSmall(t: Text)
    requires t in HOLD_STATE_SCOPES
    ensures t != [] && forall i :: 0 <= i < |t| ==> 97 <= t[i] <= 122
  {
  }

  lemma {:induction false} SmallAgain(t: Text)
    requires t != [] && forall i :: 0 <= i < |t| ==> 97 <= t[i] <= 122
    ensures Joined(t) == t && Lower(Strip(t)) == t
  {
    Events.AsciiIsClean(t);
    assert Strip(t) == t;
    LowerOfSmall(t);
  }

  lemma {:induction false} ScopeAgain(t: Text)
    requires t in HOLD_STATE_SCOPES
    ensures HoldScope(Reread(String(t))) == Some(t)
  {
    ScopesAreSmall(t);
    SmallAgain(t);
  }

  /** Joining leaves alone what comes before a character that is no surrogate. */
  lemma {:induction false} JoinedBefore(t: Text, c: CodePoint)
    requires !HighSurrogate(c) && !LowSurrogate(c)
    ensures Joined(t + [c]) == Joined(t) + [c]
    decreases |t|
  {
    var s := t + [c];
    if t == [] {
      assert s == [c] && s[1..] == [];
      assert Joined(s) == [c] + Joined([]);
    } else if |t| >= 2 && HighSurrogate(t[0]) && LowSurrogate(t[1]) {
      assert s[2..] == t[2..] + [c];
      JoinedBefore(t[2..], c);
    } else {
      assert s[1..] == t[1..] + [c];
      JoinedBefore(t[1..], c);
    }
  }

  /** Stripping and joining surrogates may be done in either order. */
  lemma {:induction false} StripJoined(t: Text)
    ensures Strip(Joined(t)) == Joined(Strip(t))
    decreases |t|
  {
    if t == [] {
    } else if IsSpace(t[0]) {
      assert Joined(t) == [t[0]] + Joined(t[1..]);
      assert Joined(t)[1..] == Joined(t[1..]);
      StripJoined(t[1..]);
    } else if IsSpace(t[|t| - 1]) {
      var n := |t| - 1;
      var j := Joined(t[..n]);
      assert t == t[..n] + [t[n]];
      JoinedBefore(t[..n], t[n]);
      Events.JoinedKindValid(t);
      assert Joined(t) == j + [t[n]] && Joined(t)[..|j|] == j;
      StripJoined(t[..n]);
    } else {
      Events.JoinedKindValid(t);
    }
  }

  lemma {:induction false} NavigationValueAgain(v: Json)
    requires NavigationValue(v)
    ensures NavigationValue(Reread(v))
  {
    if v.String? {
      var u := Strip(v.t);
      StripJoined(v.t);
      if u != [] {
        Events.JoinedKindValid(u);
        forall i | 0 <= i < |Joined(u)| ensures Joined(u)[i] != 44 && Joined(u)[i] != 13 && Joined(u)[i] != 10 {
          if Joined(u)[i] < 0x1_0000 {
            var k :| 0 <= k < |u| && u[k] == Joined(u)[i];
          }
        }
      }
    }
  }

  /** The text of a small whole number, as a float, has its value. */
  lemma WholeTimeout(i: int)
    requires 0 < i < 10
    ensures IntegerText(i) + [46, 48] == [48 + i, 46, 48]
    ensures FloatText([48 + i, 46, 48]) && DecimalValue([48 + i, 46, 48]) == i as real
  {
    var s: Bytes := [48 + i, 46, 48];
    var rest: Bytes := [46, 48];
    assert s[1..] == rest && s[2..] == [48] && s[3..] == [];
    assert rest[1..] == [48] && rest[1..2] == [48] && rest[2..] == [] && [48][1..] == [];
    assert DigitCount(s) == 1;
    assert DigitCount([48]) == 1;
    assert s[..1] == [48 + i] && DigitsValue(s[..1]) == i;
    assert FractionValue([48]) == 0.0;
    assert UnsignedValue(s) == (i as real + 0.0) * Pow10(0);
  }

  lemma TimeoutAgain(v: Json, maximum: real)
    requires TimeoutText(v, maximum).Some? && maximum <= 4.0 && WellFormed(v)
    ensures var text := TimeoutText(v, maximum).value;
            FloatText(text) && TimeoutText(Float(text), maximum) == Some(text)
  {
    if v.Integer? {
      WholeTimeout(v.i);
    }
  }

  // Parameters after a trip through JSON

  ghost predicate WellFormedCall(call: Call) {
    match call
    case Hold(target, first, second, timeout) => WellFormed(timeout)
    case HoldState(scope, held, timeout) => WellFormed(timeout)
    case Move(_, target, first, second, count, timeout) => WellFormed(timeout)
    case Reconnect(timeout) => WellFormed(timeout)
  }

  /** What a caller means: its arguments with names in their normal form, as JSON carries them. */
  function Intended(call: Call, hello: Hello): Control
    requires ClientParams(call, hello).Some?
  {
    match call
    case Hold(target, first, second, timeout) =>
      RunHold(NavigationTarget(target).value, Reread(first), Reread(second),
              TimeoutText(timeout, hello.maxControlTimeout).value)
    case HoldState(scope, held, timeout) =>
      RunHoldState(HoldScope(scope).value, held.b, TimeoutText(timeout, hello.maxHoldStateTimeout).value)
    case Move(forward, target, first, second, count, timeout) =>
      RunMove(forward, NavigationTarget(target).value, Reread(first), Reread(second), count.i,
              TimeoutText(timeout, hello.maxControlTimeout).value)
    case Reconnect(timeout) => RunReconnect(TimeoutText(timeout, hello.maxControlTimeout).value)
  }

  /** Parameters that the server accepts, and by which it asks the runtime for `control`. */
  ghost predicate AsksFor(op: Operation, params: Params, control: Control) {
    ValidParams(op, params) && Dispatch(op, params) == control
  }

  /** Where the parameters of a navigation call are. */
  lemma NavigationSent(params: Params, first: Json, second: Json)
    requires P_FIRST !in params && P_SECOND !in params
    ensures var all := params + Given(P_FIRST, first) + Given(P_SECOND, second);
            && (forall k | k in params :: k in all && all[k] == params[k])
            && OrNull(all, P_FIRST) == first && OrNull(all, P_SECOND) == second
            && all.Keys <= params.Keys + {P_FIRST, P_SECOND}
  {
    ParameterNamesDiffer();
  }

  lemma RereadOrNull(params: Params, name: Text)
    ensures OrNull(RereadFields(params), name) == Reread(OrNull(params, name))
  {
  }

  /** A navigation value arrives as it was meant, and is accepted. */
  lemma NavigationValueArrives(params: Params, name: Text, v: Json)
    requires NavigationValue(v) && OrNull(params, name) == v
    ensures Absent(RereadFields(params), name, NavigationValue) && OrNull(RereadFields(params), name) == Reread(v)
  {
    NavigationValueAgain(v);
    RereadOrNull(params, name);
  }

  /** The navigation parameters of a call arrive as they were meant. */
  lemma NavigationArrives(params: Params, sent: Params, name: Text, text: Bytes, first: Json, second: Json)
    requires name in NAVIGATION_TARGETS && NavigationValue(first) && NavigationValue(second)
    requires TimeoutText(Float(text), MAX_CONTROL_TIMEOUT) == Some(text)
    requires sent == RereadFields(params + Given(P_FIRST, first) + Given(P_SECOND, second))
    requires P_TARGET in params && params[P_TARGET] == String(name)
    requires P_TIMEOUT in params && params[P_TIMEOUT] == Float(text)
    requires P_FIRST !in params && P_SECOND !in params
    ensures Present(sent, P_TARGET, IsTarget) && NavigationTarget(sent[P_TARGET]) == Some(name)
    ensures Absent(sent, P_FIRST, NavigationValue) && OrNull(sent, P_FIRST) == Reread(first)
    ensures Absent(sent, P_SECOND, NavigationValue) && OrNull(sent, P_SECOND) == Reread(second)
    ensures P_TIMEOUT in sent && TimeoutText(sent[P_TIMEOUT], MAX_CONTROL_TIMEOUT) == Some(text)
    ensures P_COUNT in params ==> P_COUNT in sent && sent[P_COUNT] == Reread(params[P_COUNT])
    ensures sent.Keys <= params.Keys + {P_FIRST, P_SECOND}
  {
    var all := params + Given(P_FIRST, first) + Given(P_SECOND, second);
    NavigationSent(params, first, second);
    TargetAgain(name);
    NavigationValueArrives(all, P_FIRST, first);
    NavigationValueArrives(all, P_SECOND, second);
  }

  lemma HoldArrives(call: Call, hello: Hello)
    requires call.Hold? && WellFormedCall(call) && ClientParams(call, hello).Some?
    requires hello.maxControlTimeout == MAX_CONTROL_TIMEOUT
    ensures AsksFor(ScannerHold, RereadFields(ClientParams(call, hello).value), Intended(call, hello))
  {
    var name, text := NavigationTarget(call.target).value, TimeoutText(call.timeout, MAX_CONTROL_TIMEOUT).value;
    TimeoutAgain(call.timeout, MAX_CONTROL_TIMEOUT);
    ParameterNamesDiffer();
    var params := map[P_TARGET := String(name), P_TIMEOUT := Float(text)];
    NavigationArrives(params, RereadFields(ClientParams(call, hello).value), name, text, call.first, call.second);
  }

  lemma MoveArrives(call: Call, hello: Hello)
    requires call.Move? && WellFormedCall(call) && ClientParams(call, hello).Some?
    requires hello.maxControlTimeout == MAX_CONTROL_TIMEOUT
    ensures AsksFor(OperationOf(call), RereadFields(ClientParams(call, hello).value), Intended(call, hello))
  {
    var name, text := NavigationTarget(call.target).value, TimeoutText(call.timeout, MAX_CONTROL_TIMEOUT).value;
    TimeoutAgain(call.timeout, MAX_CONTROL_TIMEOUT);
    ParameterNamesDiffer();
    var params := map[P_TARGET := String(name), P_COUNT := call.count, P_TIMEOUT := Float(text)];
    var sent := RereadFields(ClientParams(call, hello).value);
    NavigationArrives(params, sent, name, text, call.first, call.second);
    MoveIsValid(OperationOf(call), sent, call.count);
  }

  lemma MoveIsValid(op: Operation, sent: Params, count: Json)
    requires op == ScannerNext || op == ScannerPrevious
    requires sent.Keys <= {P_TARGET, P_COUNT, P_TIMEOUT} + {P_FIRST, P_SECOND}
    requires Present(sent, P_TARGET, IsTarget) && Absent(sent, P_TIMEOUT, IsControlTimeout)
    requires Absent(sent, P_FIRST, NavigationValue) && Absent(sent, P_SECOND, NavigationValue)
    requires NavigationCount(count) && P_COUNT in sent && sent[P_COUNT] == Reread(count)
    ensures ValidParams(op, sent)
  {
  }

  lemma HoldStateArrives(call: Call, hello: Hello)
    requires call.HoldState? && WellFormedCall(call) && ClientParams(call, hello).Some?
    requires hello.maxHoldStateTimeout == MAX_HOLD_STATE_TIMEOUT
    ensures AsksFor(ScannerHoldState, RereadFields(ClientParams(call, hello).value), Intended(call, hello))
  {
    TimeoutAgain(call.timeout, MAX_HOLD_STATE_TIMEOUT);
    ScopeAgain(HoldScope(call.scope).value);
    ParameterNamesDiffer();
  }

  lemma ReconnectArrives(call: Call, hello: Hello)
    requires call.Reconnect? && WellFormedCall(call) && ClientParams(call, hello).Some?
    requires hello.maxControlTimeout == MAX_CONTROL_TIMEOUT
    ensures AsksFor(ScannerReconnect, RereadFields(ClientParams(call, hello).value), Intended(call, hello))
  {
    TimeoutAgain(call.timeout, MAX_CONTROL_TIMEOUT);
  }

  /**
    Whatever the arguments: the parameters a client agrees to send are ones the server accepts,
    and by which it asks the runtime for exactly what the caller means.
   */
  lemma ServerAcceptsParams(call: Call, hello: Hello)
    requires WellFormedCall(call) && ClientParams(call, hello).Some?
    requires hello.maxControlTimeout == MAX_CONTROL_TIMEOUT && hello.maxHoldStateTimeout == MAX_HOLD_STATE_TIMEOUT
    ensures AsksFor(OperationOf(call), RereadFields(ClientParams(call, hello).value), Intended(call, hello))
  {
    match call
    case Hold(_, _, _, _) => HoldArrives(call, hello);
    case HoldState(_, _, _) => HoldStateArrives(call, hello);
    case Move(_, _, _, _, _, _) => MoveArrives(call, hello);
    case Reconnect(_) => ReconnectArrives(call, hello);
  }
}
