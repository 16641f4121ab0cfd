/**
  What a scanner control means, in terms of the arguments of the call alone: which calls a client
  agrees to (`daemon_client.py`), and which controls a server's runtime may be asked for
  (`daemon_api.py`).
 */
module ControlMeaning {
  import opened Prelude
  import opened Texts
  import opened JsonText
  import opened Json
  import opened ControlParameters

  /** A text that spells this navigation target, with any blanks around it and in any case. */
  ghost predicate MeansTarget(v: Json, target: Text) {
    && v.String? && target in NAVIGATION_TARGETS
    && exists m :: Pads(v.t, m) && SpellsWithLigature(m, target)
  }

  ghost predicate MeansScope(v: Json, scope: Text) {
    && v.String? && scope in HOLD_STATE_SCOPES
    && exists m :: Pads(v.t, m) && SpellsSmall(m, scope)
  }

  /** Null, a whole number, or a text without a delimiter between the blanks around it. */
  ghost predicate MeansValue(v: Json) {
    || v.Null? || v.Integer?
    || (v.String? && exists m :: Pads(v.t, m) && (m == [] || NotPadded(m)) && NoDelimiter(m))
  }

  /** The text of a float of the same value as the number given, which is positive and within the limit. */
  ghost predicate MeansTimeout(v: Json, maximum: real, text: Bytes) {
    && 0.0 < DecimalValue(text) <= maximum
    && match v
       case Integer(i) => DecimalValue(text) == i as real && text == IntegerText(i) + [46, 48]
       case Float(x) => text == x
       case _ => false
  }

  /** A client that has had this hello agrees to the call, and means this control by it. */
  ghost predicate Means(call: Call, hello: Hello, control: Control) {
    && !hello.readOnly && OperationOf(call) in hello.controlOperations && OperationOf(call) in hello.operations
    && match call
       case Hold(target, first, second, timeout) =>
         && control.RunHold?
         && MeansTarget(target, control.target) && MeansTimeout(timeout, hello.maxControlTimeout, control.timeout)
         && MeansValue(first) && MeansValue(second)
         && control.first == Reread(first) && control.second == Reread(second)
       case HoldState(scope, held, timeout) =>
         && control.RunHoldState?
         && MeansScope(scope, control.scope) && MeansTimeout(timeout, hello.maxHoldStateTimeout, control.timeout)
         && held == Boolean(control.held)
       case Move(forward, target, first, second, count, timeout) =>
         && control.RunMove? && control.forward == forward
         && MeansTarget(target, control.target) && MeansTimeout(timeout, hello.maxControlTimeout, control.timeout)
         && MeansValue(first) && MeansValue(second)
         && control.first == Reread(first) && control.second == Reread(second)
         && count == Integer(control.count) && 1 <= control.count <= 8
       case Reconnect(timeout) =>
         && control.RunReconnect? && MeansTimeout(timeout, hello.maxControlTimeout, control.timeout)
  }

  // The checks, one by one

  lemma TargetsBegin(t: Text)
    requires t in NAVIGATION_TARGETS
    ensures |t| >= 2 && (Ligature(t[0], t[1]) ==> t[0] == 83 && t[1] == 84)
  {
  }

  /** No two capitals behind the first are a ligature. */
  ghost predicate NoneBehindFirst(t: Text) {
    forall i | 1 <= i < |t| - 1 :: !Ligature(t[i], t[i + 1])
  }

  lemma ShortTargetsArePlain(t: Text)
    requires t in NAVIGATION_TARGETS && |t| <= 4
    ensures NoneBehindFirst(t)
  {
  }

  lemma LongTargetsArePlain(t: Text)
    requires t in NAVIGATION_TARGETS && |t| > 4
    ensures NoneBehindFirst(t)
  {
  }

  lemma TargetsArePlain(t: Text)
    requires t in NAVIGATION_TARGETS
    ensures PlainCapitals(t[1..])
  {
    TargetsAreCapitals(t);
    if |t| <= 4 {
      ShortTargetsArePlain(t);
    } else {
      LongTargetsArePlain(t);
    }
  }

  lemma SpelledIsNotPadded(m: Text, target: Text)
    requires SpellsWithLigature(m, target) && target != []
    requires forall i :: 0 <= i < |target| ==> 65 <= target[i] <= 90 || target[i] == 95
    ensures NotPadded(m)
  {
    if SpellsCapital(m, target) {
      assert WritesCapital(m[0], target[0]) && WritesCapital(m[|m| - 1], target[|m| - 1]);
    } else if |m| > 1 {
      assert m[1..][|m| - 2] == m[|m| - 1];
      assert WritesCapital(m[1..][|m| - 2], target[2..][|m| - 2]);
    }
  }

  lemma TargetMeans(v: Json, target: Text)
    ensures NavigationTarget(v) == Some(target) <==> MeansTarget(v, target)
  {
    if v.String? && target in NAVIGATION_TARGETS {
      TargetsAreCapitals(target);
      TargetsBegin(target);
      TargetsArePlain(target);
      StripTakesBlanks(v.t);
      UpperSpellsWithLigature(Strip(v.t), target);
      forall m | Pads(v.t, m) && SpellsWithLigature(m, target) ensures m == Strip(v.t) {
        SpelledIsNotPadded(m, target);
        StripOfPadded(v.t, m);
      }
    }
  }

  lemma ScopeMeans(v: Json, scope: Text)
    ensures HoldScope(v) == Some(scope) <==> MeansScope(v, scope)
  {
    if v.String? && scope in HOLD_STATE_SCOPES {
      ScopesAreSmall(scope);
      StripTakesBlanks(v.t);
      LowerSpells(Strip(v.t), scope);
      forall m | Pads(v.t, m) && SpellsSmall(m, scope) ensures m == Strip(v.t) {
        assert WritesSmall(m[0], scope[0]) && WritesSmall(m[|m| - 1], scope[|m| - 1]);
        StripOfPadded(v.t, m);
      }
    }
  }

  lemma ValueMeans(v: Json)
    ensures NavigationValue(v) <==> MeansValue(v)
  {
    if v.String? {
      StripTakesBlanks(v.t);
      forall m | Pads(v.t, m) && (m == [] || NotPadded(m)) ensures m == Strip(v.t) {
        StripOfPadded(v.t, m);
      }
    }
  }

  lemma TimeoutMeans(v: Json, maximum: real, text: Bytes)
    requires maximum <= 4.0
    ensures TimeoutText(v, maximum) == Some(text) <==> MeansTimeout(v, maximum, text)
  {
    if v.Integer? && 0 < v.i <= 4 {
      WholeTimeout(v.i);
    }
  }

  // What a server makes of parameters

  /** A navigation value that was sent, or null for one that was not. */
  ghost predicate ParamMeansValue(params: Params, name: Text, v: Json) {
    if name in params then v == params[name] && MeansValue(v) else v == Null
  }

  /** A timeout that was sent, or else the default. */
  ghost predicate ParamMeansTimeout(params: Params, maximum: real, default: Bytes, text: Bytes) {
    if P_TIMEOUT in params then MeansTimeout(params[P_TIMEOUT], maximum, text) else text == default
  }

  ghost predicate ParamMeansCount(params: Params, count: int) {
    if P_COUNT in params then params[P_COUNT] == Integer(count) && 1 <= count <= 8 else count == 1
  }

  /** A server accepts these parameters of an operation, and they ask for this control. */
  ghost predicate ParamsMean(op: Operation, params: Params, control: Control) {
    match op
    case ScannerHoldState =>
      && control.RunHoldState? && params.Keys <= {P_SCOPE, P_HELD, P_TIMEOUT}
      && P_SCOPE in params && MeansScope(params[P_SCOPE], control.scope)
      && P_HELD in params && params[P_HELD] == Boolean(control.held)
      && ParamMeansTimeout(params, 4.0, [52, 46, 48], control.timeout)
    case ScannerReconnect =>
      && control.RunReconnect? && params.Keys <= {P_TIMEOUT}
      && ParamMeansTimeout(params, 2.0, [50, 46, 48], control.timeout)
    case ScannerHold =>
      && control.RunHold? && params.Keys <= {P_TARGET, P_FIRST, P_SECOND, P_TIMEOUT}
      && P_TARGET in params && MeansTarget(params[P_TARGET], control.target)
      && ParamMeansValue(params, P_FIRST, control.first) && ParamMeansValue(params, P_SECOND, control.second)
      && ParamMeansTimeout(params, 2.0, [50, 46, 48], control.timeout)
    case _ =>
      && control.RunMove? && params.Keys <= {P_TARGET, P_FIRST, P_SECOND, P_COUNT, P_TIMEOUT}
      && control.forward == op.ScannerNext?
      && P_TARGET in params && MeansTarget(params[P_TARGET], control.target)
      && ParamMeansValue(params, P_FIRST, control.first) && ParamMeansValue(params, P_SECOND, control.second)
      && ParamMeansCount(params, control.count)
      && ParamMeansTimeout(params, 2.0, [50, 46, 48], control.timeout)
  }

  lemma TimeoutParamMeans(params: Params, maximum: real, default: Bytes, text: Bytes)
    requires maximum <= 4.0
    ensures (P_TIMEOUT in params ==> TimeoutText(params[P_TIMEOUT], maximum).Some?)
            && TimeoutOr(params, maximum, default) == text
        <==> ParamMeansTimeout(params, maximum, default, text)
  {
    if P_TIMEOUT in params {
      TimeoutMeans(params[P_TIMEOUT], maximum, text);
    }
  }

  lemma NavigationParamsMean(params: Params, control: Control)
    requires control.RunHold? || control.RunMove?
    ensures P_TARGET in params ==>
              (NavigationTarget(params[P_TARGET]) == Some(control.target) <==>
                MeansTarget(params[P_TARGET], control.target))
    ensures Absent(params, P_FIRST, NavigationValue) && OrNull(params, P_FIRST) == control.first
        <==> ParamMeansValue(params, P_FIRST, control.first)
    ensures Absent(params, P_SECOND, NavigationValue) && OrNull(params, P_SECOND) == control.second
        <==> ParamMeansValue(params, P_SECOND, control.second)
    ensures (P_TIMEOUT in params ==> TimeoutText(params[P_TIMEOUT], MAX_CONTROL_TIMEOUT).Some?)
            && TimeoutOr(params, MAX_CONTROL_TIMEOUT, DEFAULT_CONTROL_TIMEOUT) == control.timeout
        <==> ParamMeansTimeout(params, 2.0, [50, 46, 48], control.timeout)
  {
    if P_TARGET in params {
      TargetMeans(params[P_TARGET], control.target);
    }
    if P_FIRST in params {
      ValueMeans(params[P_FIRST]);
    }
    if P_SECOND in params {
      ValueMeans(params[P_SECOND]);
    }
    TimeoutParamMeans(params, MAX_CONTROL_TIMEOUT, DEFAULT_CONTROL_TIMEOUT, control.timeout);
  }

  lemma HoldStateParamsMean(params: Params, control: Control)
    ensures AsksFor(ScannerHoldState, params, control) <==> ParamsMean(ScannerHoldState, params, control)
  {
    if control.RunHoldState? {
      TimeoutParamMeans(params, MAX_HOLD_STATE_TIMEOUT, DEFAULT_HOLD_STATE_TIMEOUT, control.timeout);
      if P_SCOPE in params {
        ScopeMeans(params[P_SCOPE], control.scope);
      }
    }
  }

  lemma ReconnectParamsMean(params: Params, control: Control)
    ensures AsksFor(ScannerReconnect, params, control) <==> ParamsMean(ScannerReconnect, params, control)
  {
    if control.RunReconnect? {
      TimeoutParamMeans(params, MAX_CONTROL_TIMEOUT, DEFAULT_CONTROL_TIMEOUT, control.timeout);
    }
  }

  lemma HoldParamsMean(params: Params, control: Control)
    ensures AsksFor(ScannerHold, params, control) <==> ParamsMean(ScannerHold, params, control)
  {
    if control.RunHold? {
      NavigationParamsMean(params, control);
    }
  }

  lemma MoveParamsMean(op: Operation, params: Params, control: Control)
    requires op == ScannerNext || op == ScannerPrevious
    ensures AsksFor(op, params, control) <==> ParamsMean(op, params, control)
  {
    if control.RunMove? {
      NavigationParamsMean(params, control);
    }
  }

  /** A server accepts exactly the parameters that mean something, and asks the runtime for just that. */
  lemma ServerAsksIffMeant(op: Operation, params: Params, control: Control)
    ensures AsksFor(op, params, control) <==> ParamsMean(op, params, control)
  {
    match op
    case ScannerHoldState => HoldStateParamsMean(params, control);
    case ScannerReconnect => ReconnectParamsMean(params, control);
    case ScannerHold => HoldParamsMean(params, control);
    case _ => MoveParamsMean(op, params, control);
  }

  // What a client makes of a call

  /** The client agrees to the call, and this is what it asks for. */
  ghost predicate AgreesTo(call: Call, hello: Hello, control: Control) {
    ClientParams(call, hello).Some? && Intended(call, hello) == control
  }

  lemma HoldMeans(call: Call, hello: Hello, control: Control)
    requires call.Hold? && hello.maxControlTimeout <= 4.0
    ensures AgreesTo(call, hello, control) <==> Means(call, hello, control)
  {
    ValueMeans(call.first);
    ValueMeans(call.second);
    if control.RunHold? {
      TargetMeans(call.target, control.target);
      TimeoutMeans(call.timeout, hello.maxControlTimeout, control.timeout);
    }
  }

  lemma HoldStateMeans(call: Call, hello: Hello, control: Control)
    requires call.HoldState? && hello.maxHoldStateTimeout <= 4.0
    ensures AgreesTo(call, hello, control) <==> Means(call, hello, control)
  {
    if control.RunHoldState? {
      ScopeMeans(call.scope, control.scope);
      TimeoutMeans(call.timeout, hello.maxHoldStateTimeout, control.timeout);
    }
  }

  lemma MoveMeans(call: Call, hello: Hello, control: Control)
    requires call.Move? && hello.maxControlTimeout <= 4.0
    ensures AgreesTo(call, hello, control) <==> Means(call, hello, control)
  {
    ValueMeans(call.first);
    ValueMeans(call.second);
    if control.RunMove? {
      TargetMeans(call.target, control.target);
      TimeoutMeans(call.timeout, hello.maxControlTimeout, control.timeout);
    }
  }

  lemma ReconnectMeans(call: Call, hello: Hello, control: Control)
    requires call.Reconnect? && hello.maxControlTimeout <= 4.0
    ensures AgreesTo(call, hello, control) <==> Means(call, hello, control)
  {
    if control.RunReconnect? {
      TimeoutMeans(call.timeout, hello.maxControlTimeout, control.timeout);
    }
  }

  /** A client sends parameters for exactly the calls that mean something, and what they ask for is what they mean. */
  lemma ClientAgreesIffMeant(call: Call, hello: Hello, control: Control)
    requires hello.maxControlTimeout <= 4.0 && hello.maxHoldStateTimeout <= 4.0
    ensures AgreesTo(call, hello, control) <==> Means(call, hello, control)
  {
    match call
    case Hold(_, _, _, _) => HoldMeans(call, hello, control);
    case HoldState(_, _, _) => HoldStateMeans(call, hello, control);
    case Move(_, _, _, _, _, _) => MoveMeans(call, hello, control);
    case Reconnect(_) => ReconnectMeans(call, hello, control);
  }
}
