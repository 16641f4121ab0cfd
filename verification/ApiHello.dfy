/**
  The hello of the daemon API: what a server says of itself (`daemon_api.py`), and what a client
  checks and keeps of it (`daemon_client.py`).
 */
module ApiHello {
  import opened Prelude
  import opened Texts
  import opened JsonText
  import opened Json
  import opened ControlParameters
  import Events

  const PROTOCOL: Text := Lit("sdsctl.daemon")
  const VERSION := 1

  /** `DaemonApiOperation` */
  datatype ApiOperation =
    | SayHello
    | DaemonCapabilities
    | Ping
    | RuntimeSnapshot
    | ScannerState
    | AudioHealth
    | RecordingStatus
    | RecordingStart
    | RecordingStop
    | RecordingsList
    | Scanner(control: Operation)

  function OperationName(op: Operation): Text {
    match op
    case ScannerHold => Lit("scanner.hold")
    case ScannerHoldState => Lit("scanner.hold_state")
    case ScannerNext => Lit("scanner.next")
    case ScannerPrevious => Lit("scanner.previous")
    case ScannerReconnect => Lit("scanner.reconnect")
  }

  function ApiName(o: ApiOperation): Text {
    match o
    case SayHello => Lit("hello")
    case DaemonCapabilities => Lit("daemon.capabilities")
    case Ping => Lit("ping")
    case RuntimeSnapshot => Lit("runtime.snapshot")
    case ScannerState => Lit("scanner.state")
    case AudioHealth => Lit("audio.health")
    case RecordingStatus => Lit("recording.status")
    case RecordingStart => Lit("recording.start")
    case RecordingStop => Lit("recording.stop")
    case RecordingsList => Lit("recordings.list")
    case Scanner(control) => OperationName(control)
  }

  // Names are different ASCII texts.

  /** What tells a name from the others: its length, and where that is not enough one more character. */
  function Fingerprint(name: Text): (nat, int) {
    (|name|, if |name| == 16 then name[1] else if |name| == 15 then name[9] else if |name| == 12 then name[8] else 0)
  }

  function ExpectedFingerprint(o: ApiOperation): (nat, int) {
    match o
    case SayHello => (5, 0)
    case DaemonCapabilities => (19, 0)
    case Ping => (4, 0)
    case RuntimeSnapshot => (16, 117)
    case ScannerState => (13, 0)
    case AudioHealth => (12, 97)
    case RecordingStatus => (16, 101)
    case RecordingStart => (15, 46)
    case RecordingStop => (14, 0)
    case RecordingsList => (15, 115)
    case Scanner(ScannerHold) => (12, 104)
    case Scanner(ScannerHoldState) => (18, 0)
    case Scanner(ScannerNext) => (12, 110)
    case Scanner(ScannerPrevious) => (16, 99)
    case Scanner(ScannerReconnect) => (17, 0)
  }

  ghost predicate PlainName(name: Text) {
    name != [] && forall i | 0 <= i < |name| :: 33 <= name[i] < 128
  }

  lemma ScannerNames(control: Operation)
    ensures Fingerprint(OperationName(control)) == ExpectedFingerprint(Scanner(control))
    ensures PlainName(OperationName(control))
  {
  }

  lemma RecordingNames(o: ApiOperation)
    requires o.RecordingStatus? || o.RecordingStart? || o.RecordingStop? || o.RecordingsList?
    ensures Fingerprint(ApiName(o)) == ExpectedFingerprint(o) && PlainName(ApiName(o))
  {
  }

  lemma ServiceNames(o: ApiOperation)
    requires o.SayHello? || o.DaemonCapabilities? || o.Ping?
    ensures Fingerprint(ApiName(o)) == ExpectedFingerprint(o) && PlainName(ApiName(o))
  {
  }

  lemma StateNames(o: ApiOperation)
    requires o.RuntimeSnapshot? || o.ScannerState? || o.AudioHealth?
    ensures Fingerprint(ApiName(o)) == ExpectedFingerprint(o) && PlainName(ApiName(o))
  {
  }

  lemma NameIsPlain(o: ApiOperation)
    ensures Fingerprint(ApiName(o)) == ExpectedFingerprint(o) && PlainName(ApiName(o))
  {
    match o
    case SayHello => ServiceNames(o);
    case DaemonCapabilities => ServiceNames(o);
    case Ping => ServiceNames(o);
    case RuntimeSnapshot => StateNames(o);
    case ScannerState => StateNames(o);
    case AudioHealth => StateNames(o);
    case Scanner(control) => ScannerNames(control);
    case _ => RecordingNames(o);
  }

  lemma NamesDiffer(a: ApiOperation, b: ApiOperation)
    requires ApiName(a) == ApiName(b)
    ensures a == b
  {
    NameIsPlain(a);
    NameIsPlain(b);
    CandidateIsIt(a);
    CandidateIsIt(b);
  }

  lemma NameIsClean(o: ApiOperation)
    ensures NoSurrogatePair(ApiName(o)) && Joined(ApiName(o)) == ApiName(o)
  {
    NameIsPlain(o);
    Events.AsciiIsClean(ApiName(o));
    JoinedIffNoPair(ApiName(o));
  }

  const ALL_OPERATIONS: seq<ApiOperation> := [
    SayHello, DaemonCapabilities, Ping, RuntimeSnapshot, ScannerState, AudioHealth,
    RecordingStatus, RecordingStart, RecordingStop, RecordingsList,
    Scanner(ScannerHold), Scanner(ScannerHoldState), Scanner(ScannerNext), Scanner(ScannerPrevious),
    Scanner(ScannerReconnect)]
  const READ_ONLY_OPERATIONS: seq<ApiOperation> := [
    SayHello, DaemonCapabilities, Ping, RuntimeSnapshot, ScannerState, AudioHealth, RecordingStatus, RecordingsList]
  const CONTROL_OPERATIONS: seq<ApiOperation> := [
    Scanner(ScannerHold), Scanner(ScannerHoldState), Scanner(ScannerNext), Scanner(ScannerPrevious),
    Scanner(ScannerReconnect)]

  /** The place of an operation in its enumeration. */
  function Place(o: ApiOperation): nat {
    match o
    case SayHello => 0
    case DaemonCapabilities => 1
    case Ping => 2
    case RuntimeSnapshot => 3
    case ScannerState => 4
    case AudioHealth => 5
    case RecordingStatus => 6
    case RecordingStart => 7
    case RecordingStop => 8
    case RecordingsList => 9
    case Scanner(ScannerHold) => 10
    case Scanner(ScannerHoldState) => 11
    case Scanner(ScannerNext) => 12
    case Scanner(ScannerPrevious) => 13
    case Scanner(ScannerReconnect) => 14
  }

  /** A list in the order of the enumeration. */
  ghost predicate Ordered(ops: seq<ApiOperation>) {
    forall i, j | 0 <= i < j < |ops| :: Place(ops[i]) < Place(ops[j])
  }

  lemma AllAreListed(o: ApiOperation)
    ensures ALL_OPERATIONS[Place(o)] == o && o in ALL_OPERATIONS
  {
  }

  lemma ListsAreOrdered()
    ensures Ordered(ALL_OPERATIONS) && Ordered(READ_ONLY_OPERATIONS) && Ordered(CONTROL_OPERATIONS)
  {
  }

  /** The only operation whose name may have this fingerprint. */
  function Candidate(f: (nat, int)): ApiOperation {
    match f.0
    case 4 => Ping
    case 12 => if f.1 == 97 then AudioHealth else if f.1 == 104 then Scanner(ScannerHold) else Scanner(ScannerNext)
    case 13 => ScannerState
    case 14 => RecordingStop
    case 15 => if f.1 == 46 then RecordingStart else RecordingsList
    case 16 => if f.1 == 117 then RuntimeSnapshot else if f.1 == 101 then RecordingStatus else Scanner(ScannerPrevious)
    case 17 => Scanner(ScannerReconnect)
    case 18 => Scanner(ScannerHoldState)
    case 19 => DaemonCapabilities
    case _ => SayHello
  }

  /** `DaemonApiOperation(name)` */
  function Named(name: Text): (r: Option<ApiOperation>)
    ensures r.Some? ==> ApiName(r.value) == name
  {
    var o := Candidate(Fingerprint(name));
    if ApiName(o) == name then Some(o) else None
  }

  lemma NamedByItsName(o: ApiOperation)
    ensures Named(ApiName(o)) == Some(o)
  {
    NameIsPlain(o);
    CandidateIsIt(o);
  }

  lemma CandidateIsIt(o: ApiOperation)
    ensures Candidate(ExpectedFingerprint(o)) == o
  {
  }

  // What a server offers

  datatype Offer = Offer(recordingAvailable: bool, reconnectAvailable: bool)

  predicate Offered(o: ApiOperation, offer: Offer) {
    match o
    case RecordingStatus => offer.recordingAvailable
    case RecordingStart => offer.recordingAvailable
    case RecordingStop => offer.recordingAvailable
    case RecordingsList => offer.recordingAvailable
    case Scanner(control) => offer.reconnectAvailable || control != ScannerReconnect
    case _ => true
  }

  function Filtered(ops: seq<ApiOperation>, offer: Offer): seq<ApiOperation> {
    if ops == [] then [] else (if Offered(ops[0], offer) then [ops[0]] else []) + Filtered(ops[1..], offer)
  }

  lemma {:induction false} FilteredHolds(ops: seq<ApiOperation>, offer: Offer)
    requires Ordered(ops)
    ensures forall o :: o in Filtered(ops, offer) <==> o in ops && Offered(o, offer)
    ensures Ordered(Filtered(ops, offer))
  {
    if ops != [] {
      FilteredHolds(ops[1..], offer);
      var rest := Filtered(ops[1..], offer);
      assert ops == [ops[0]] + ops[1..];
      forall j | 0 <= j < |rest| ensures Place(ops[0]) < Place(rest[j]) {
        assert rest[j] in ops[1..];
      }
    }
  }

  function NamesOf(ops: seq<ApiOperation>): (names: seq<Text>)
    ensures |names| == |ops| && forall i | 0 <= i < |ops| :: names[i] == ApiName(ops[i])
  {
    seq(|ops|, i requires 0 <= i < |ops| => ApiName(ops[i]))
  }

  function NamesJson(ops: seq<ApiOperation>): Json {
    Array(seq(|ops|, i requires 0 <= i < |ops| => String(ApiName(ops[i]))))
  }

  lemma NamesAreClean(ops: seq<ApiOperation>)
    ensures Clean(NamesJson(ops)) && WellFormed(NamesJson(ops)) && Reread(NamesJson(ops)) == NamesJson(ops)
  {
    forall i | 0 <= i < |ops| ensures Clean(String(ApiName(ops[i]))) {
      NameIsClean(ops[i]);
    }
    RereadIffClean(NamesJson(ops));
  }

  const K_PROTOCOL: Text := Lit("protocol")
  const H_VERSIONS: Text := Lit("supported_versions")
  const H_OPERATIONS: Text := Lit("operations")
  const H_READ_ONLY: Text := Lit("read_only")
  const H_READ_ONLY_OPERATIONS: Text := Lit("read_only_operations")
  const H_CONTROL_OPERATIONS: Text := Lit("control_operations")
  const H_CONTROL_TIMEOUT: Text := Lit("max_control_timeout")
  const H_HOLD_STATE_TIMEOUT: Text := Lit("max_hold_state_timeout")
  const H_VERSION: Text := Lit("selected_version")

  function HelloStart(operations: Json): map<Text, Json> {
    map[
      K_PROTOCOL := String(PROTOCOL),
      H_VERSIONS := Array([Integer(VERSION)]),
      H_OPERATIONS := operations,
      H_READ_ONLY := Boolean(false)]
  }

  function HelloMap(operations: Json, readOnlyOperations: Json, controlOperations: Json): map<Text, Json> {
    HelloStart(operations)
      [H_READ_ONLY_OPERATIONS := readOnlyOperations]
      [H_CONTROL_OPERATIONS := controlOperations]
      [H_CONTROL_TIMEOUT := Float(DEFAULT_CONTROL_TIMEOUT)]
      [H_HOLD_STATE_TIMEOUT := Float(DEFAULT_HOLD_STATE_TIMEOUT)]
      [H_VERSION := Integer(VERSION)]
  }

  /** `_capabilities`, and the version the server has selected. */
  function HelloResult(offer: Offer): map<Text, Json> {
    HelloMap(NamesJson(Filtered(ALL_OPERATIONS, offer)), NamesJson(Filtered(READ_ONLY_OPERATIONS, offer)),
             NamesJson(Filtered(CONTROL_OPERATIONS, offer)))
  }

  /** What a client should keep of it. */
  function Capabilities(offer: Offer): Hello {
    Hello(false, Controls(offer), Controls(offer), MAX_CONTROL_TIMEOUT, MAX_HOLD_STATE_TIMEOUT)
  }

  function Controls(offer: Offer): set<Operation> {
    {ScannerHold, ScannerHoldState, ScannerNext, ScannerPrevious}
    + if offer.reconnectAvailable then {ScannerReconnect} else {}
  }

  // What a client checks

  predicate NonEmptyText(v: Json) {
    v.String? && v.t != []
  }

  /** `_string_list` */
  function Strings(v: Option<Json>): Option<seq<Text>> {
    match v
    case Some(Array(items)) =>
      if forall i | 0 <= i < |items| :: NonEmptyText(items[i])
      then Some(seq(|items|, i requires 0 <= i < |items| && NonEmptyText(items[i]) => items[i].t)) else None
    case _ => None
  }

  /** `_integer_list` */
  function Integers(v: Option<Json>): Option<seq<int>> {
    match v
    case Some(Array(items)) =>
      if forall i | 0 <= i < |items| :: items[i].Integer?
      then Some(seq(|items|, i requires 0 <= i < |items| && items[i].Integer? => items[i].i)) else None
    case _ => None
  }

  /** A limit in seconds, above zero; it may be missing when it is not needed. */
  function Limit(v: Option<Json>, needed: bool): Option<real> {
    match v
    case None => if needed then None else Some(0.0)
    case Some(Integer(i)) => if i > 0 then Some(i as real) else None
    case Some(Float(text)) => if DecimalValue(text) > 0.0 then Some(DecimalValue(text)) else None
    case _ => None
  }

  predicate NoDuplicates(names: seq<Text>) {
    forall i, j | 0 <= i < j < |names| :: names[i] != names[j]
  }

  predicate Among(names: seq<Text>, all: seq<Text>) {
    forall i | 0 <= i < |names| :: names[i] in all
  }

  function ControlsIn(names: seq<Text>): set<Operation> {
    set op: Operation | OperationName(op) in names
  }

  /** The list a read-only server may leave out. */
  function ListOr(result: map<Text, Json>, name: Text, readOnly: bool, default: seq<Text>): Option<seq<Text>> {
    if readOnly && name !in result then Some(default) else Strings(Lookup(result, name))
  }

  /** The four lists agree with each other. */
  predicate ListsAgree(operations: seq<Text>, readOnlyOperations: seq<Text>, controls: seq<Text>) {
    && NoDuplicates(operations) && NoDuplicates(readOnlyOperations) && NoDuplicates(controls)
    && ApiName(SayHello) in operations
    && Among(readOnlyOperations, operations) && Among(controls, operations)
    && forall i | 0 <= i < |controls| :: controls[i] !in readOnlyOperations
  }

  /** `_validate_hello_result`, and what controls need of an accepted result. */
  function CheckHello(result: map<Text, Json>): Option<Hello> {
    var versions := Integers(Lookup(result, H_VERSIONS));
    var operations := Strings(Lookup(result, H_OPERATIONS));
    var readOnlyFlag := Lookup(result, H_READ_ONLY);
    if versions.None? || operations.None? || VERSION !in versions.value
       || Lookup(result, K_PROTOCOL) != Some(String(PROTOCOL)) || Lookup(result, H_VERSION) != Some(Integer(VERSION))
       || readOnlyFlag.None? || !readOnlyFlag.value.Boolean?
    then None
    else CheckLists(result, operations.value, readOnlyFlag.value.b)
  }

  function CheckLists(result: map<Text, Json>, operations: seq<Text>, readOnly: bool): Option<Hello> {
    var readOnlyOperations := ListOr(result, H_READ_ONLY_OPERATIONS, readOnly, operations);
    var controls := ListOr(result, H_CONTROL_OPERATIONS, readOnly, []);
    if readOnlyOperations.None? || controls.None? || (readOnly && controls.value != []) then None else
      var timeout := Limit(Lookup(result, H_CONTROL_TIMEOUT), !readOnly);
      var holdTimeout := Limit(Lookup(result, H_HOLD_STATE_TIMEOUT), OperationName(ScannerHoldState) in controls.value);
      if timeout.None? || holdTimeout.None? || !ListsAgree(operations, readOnlyOperations.value, controls.value)
      then None
      else Some(Hello(readOnly, ControlsIn(operations), ControlsIn(controls.value), timeout.value, holdTimeout.value))
  }

  // A server's hello passes, after JSON, and advertises what the server offers.

  lemma HelloKeysDiffer()
    ensures |K_PROTOCOL| == 8 && |H_VERSIONS| == 18 && |H_OPERATIONS| == 10 && |H_READ_ONLY| == 9
    ensures |H_READ_ONLY_OPERATIONS| == 20 && |H_CONTROL_OPERATIONS| == 18 && |H_CONTROL_TIMEOUT| == 19
    ensures |H_HOLD_STATE_TIMEOUT| == 22 && |H_VERSION| == 16
    ensures H_VERSIONS[0] == 115 && H_CONTROL_OPERATIONS[0] == 99
  {
  }

  lemma HelloMapAt(a: Json, b: Json, c: Json)
    ensures var r := HelloMap(a, b, c);
            && Lookup(r, K_PROTOCOL) == Some(String(PROTOCOL))
            && Lookup(r, H_VERSIONS) == Some(Array([Integer(VERSION)]))
            && Lookup(r, H_OPERATIONS) == Some(a) && Lookup(r, H_READ_ONLY) == Some(Boolean(false))
            && Lookup(r, H_READ_ONLY_OPERATIONS) == Some(b) && Lookup(r, H_CONTROL_OPERATIONS) == Some(c)
            && Lookup(r, H_CONTROL_TIMEOUT) == Some(Float(DEFAULT_CONTROL_TIMEOUT))
            && Lookup(r, H_HOLD_STATE_TIMEOUT) == Some(Float(DEFAULT_HOLD_STATE_TIMEOUT))
            && Lookup(r, H_VERSION) == Some(Integer(VERSION))
  {
    HelloKeysDiffer();
  }

  lemma NamesAreStrings(ops: seq<ApiOperation>)
    ensures Strings(Some(NamesJson(ops))) == Some(NamesOf(ops))
  {
    var items := NamesJson(ops).items;
    forall i | 0 <= i < |ops| ensures NonEmptyText(items[i]) {
      NameIsPlain(ops[i]);
    }
    var names := Strings(Some(Array(items))).value;
    assert forall i | 0 <= i < |ops| :: names[i] == items[i].t == NamesOf(ops)[i];
    assert names == NamesOf(ops);
  }

  lemma {:induction false} NameListed(ops: seq<ApiOperation>, o: ApiOperation)
    ensures ApiName(o) in NamesOf(ops) <==> o in ops
  {
    if ApiName(o) in NamesOf(ops) {
      var i :| 0 <= i < |ops| && NamesOf(ops)[i] == ApiName(o);
      NamesDiffer(ops[i], o);
    }
    forall i | 0 <= i < |ops| && ops[i] == o ensures ApiName(o) in NamesOf(ops) {
      assert NamesOf(ops)[i] == ApiName(o);
    }
  }

  lemma OrderedNoDuplicates(ops: seq<ApiOperation>)
    requires Ordered(ops)
    ensures NoDuplicates(NamesOf(ops))
  {
    forall i, j | 0 <= i < j < |ops| ensures NamesOf(ops)[i] != NamesOf(ops)[j] {
      if ApiName(ops[i]) == ApiName(ops[j]) {
        NamesDiffer(ops[i], ops[j]);
      }
    }
  }

  lemma ReadOnlyAreOthers(o: ApiOperation)
    ensures o in READ_ONLY_OPERATIONS ==> !o.Scanner?
    ensures o in CONTROL_OPERATIONS <==> o.Scanner?
  {
    if o.Scanner? {
      assert CONTROL_OPERATIONS[Place(o) - 10] == o;
    }
  }

  lemma OfferedListsAgree(offer: Offer)
    ensures ListsAgree(NamesOf(Filtered(ALL_OPERATIONS, offer)), NamesOf(Filtered(READ_ONLY_OPERATIONS, offer)),
                       NamesOf(Filtered(CONTROL_OPERATIONS, offer)))
  {
    var all, readOnly, controls :=
      Filtered(ALL_OPERATIONS, offer), Filtered(READ_ONLY_OPERATIONS, offer), Filtered(CONTROL_OPERATIONS, offer);
    ListsAreOrdered();
    FilteredHolds(ALL_OPERATIONS, offer);
    FilteredHolds(READ_ONLY_OPERATIONS, offer);
    FilteredHolds(CONTROL_OPERATIONS, offer);
    OrderedNoDuplicates(all);
    OrderedNoDuplicates(readOnly);
    OrderedNoDuplicates(controls);
    AllAreListed(SayHello);
    NameListed(all, SayHello);
    forall i | 0 <= i < |readOnly| ensures NamesOf(readOnly)[i] in NamesOf(all) {
      AllAreListed(readOnly[i]);
      NameListed(all, readOnly[i]);
    }
    forall i | 0 <= i < |controls|
      ensures NamesOf(controls)[i] in NamesOf(all) && NamesOf(controls)[i] !in NamesOf(readOnly)
    {
      AllAreListed(controls[i]);
      NameListed(all, controls[i]);
      NameListed(readOnly, controls[i]);
      ReadOnlyAreOthers(controls[i]);
    }
  }

  lemma ControlOffered(ops: seq<ApiOperation>, offer: Offer, op: Operation)
    requires Ordered(ops) && Scanner(op) in ops
    ensures OperationName(op) in NamesOf(Filtered(ops, offer)) <==> op in Controls(offer)
  {
    FilteredHolds(ops, offer);
    NameListed(Filtered(ops, offer), Scanner(op));
  }

  lemma OfferedControls(ops: seq<ApiOperation>, offer: Offer)
    requires Ordered(ops) && forall op :: Scanner(op) in ops
    ensures ControlsIn(NamesOf(Filtered(ops, offer))) == Controls(offer)
  {
    forall op: Operation ensures OperationName(op) in NamesOf(Filtered(ops, offer)) <==> op in Controls(offer) {
      ControlOffered(ops, offer, op);
    }
  }

  lemma BothListControls(offer: Offer)
    ensures ControlsIn(NamesOf(Filtered(ALL_OPERATIONS, offer))) == Controls(offer)
    ensures ControlsIn(NamesOf(Filtered(CONTROL_OPERATIONS, offer))) == Controls(offer)
  {
    ListsAreOrdered();
    forall op ensures Scanner(op) in ALL_OPERATIONS && Scanner(op) in CONTROL_OPERATIONS {
      AllAreListed(Scanner(op));
      ReadOnlyAreOthers(Scanner(op));
    }
    OfferedControls(ALL_OPERATIONS, offer);
    OfferedControls(CONTROL_OPERATIONS, offer);
  }

  lemma LimitsAccepted(needed: bool)
    ensures Limit(Some(Float(DEFAULT_CONTROL_TIMEOUT)), needed) == Some(MAX_CONTROL_TIMEOUT)
    ensures Limit(Some(Float(DEFAULT_HOLD_STATE_TIMEOUT)), needed) == Some(MAX_HOLD_STATE_TIMEOUT)
    ensures FloatText(DEFAULT_CONTROL_TIMEOUT) && FloatText(DEFAULT_HOLD_STATE_TIMEOUT)
  {
    WholeLimit(2, DEFAULT_CONTROL_TIMEOUT, needed);
    WholeLimit(4, DEFAULT_HOLD_STATE_TIMEOUT, needed);
  }

  lemma WholeLimit(i: int, text: Bytes, needed: bool)
    requires 0 < i < 10 && text == [48 + i, 46, 48]
    ensures FloatText(text) && Limit(Some(Float(text)), needed) == Some(i as real)
  {
    WholeTimeout(i);
  }

  /** Lists that agree are accepted, with the limits every server gives. */
  lemma MapAccepted(
      a: Json, b: Json, c: Json, operations: seq<Text>, readOnlyOperations: seq<Text>, controls: seq<Text>)
    requires Strings(Some(a)) == Some(operations) && Strings(Some(b)) == Some(readOnlyOperations)
    requires Strings(Some(c)) == Some(controls) && ListsAgree(operations, readOnlyOperations, controls)
    ensures CheckHello(HelloMap(a, b, c))
          == Some(Hello(false, ControlsIn(operations), ControlsIn(controls), MAX_CONTROL_TIMEOUT,
                       MAX_HOLD_STATE_TIMEOUT))
  {
    HelloMapAt(a, b, c);
    assert Integers(Some(Array([Integer(VERSION)]))).value[0] == VERSION;
    LimitsAccepted(OperationName(ScannerHoldState) in controls);
    LimitsAccepted(true);
    ListsAccepted(HelloMap(a, b, c), operations, readOnlyOperations, controls, MAX_CONTROL_TIMEOUT,
                  MAX_HOLD_STATE_TIMEOUT);
  }

  lemma ListsAccepted(
      result: map<Text, Json>, operations: seq<Text>, readOnlyOperations: seq<Text>, controls: seq<Text>, timeout: real,
      holdTimeout: real)
    requires Strings(Lookup(result, H_READ_ONLY_OPERATIONS)) == Some(readOnlyOperations)
    requires Strings(Lookup(result, H_CONTROL_OPERATIONS)) == Some(controls)
    requires Limit(Lookup(result, H_CONTROL_TIMEOUT), true) == Some(timeout)
    requires Limit(Lookup(result, H_HOLD_STATE_TIMEOUT), OperationName(ScannerHoldState) in controls)
          == Some(holdTimeout)
    requires ListsAgree(operations, readOnlyOperations, controls)
    ensures CheckLists(result, operations, false)
          == Some(Hello(false, ControlsIn(operations), ControlsIn(controls), timeout, holdTimeout))
  {
  }

  /** The server's own hello is accepted for exactly what the server offers. */
  lemma HelloIsAccepted(offer: Offer)
    ensures CheckHello(HelloResult(offer)) == Some(Capabilities(offer))
  {
    var all, readOnly, controls :=
      Filtered(ALL_OPERATIONS, offer), Filtered(READ_ONLY_OPERATIONS, offer), Filtered(CONTROL_OPERATIONS, offer);
    NamesAreStrings(all);
    NamesAreStrings(readOnly);
    NamesAreStrings(controls);
    OfferedListsAgree(offer);
    BothListControls(offer);
    MapAccepted(NamesJson(all), NamesJson(readOnly), NamesJson(controls), NamesOf(all), NamesOf(readOnly),
                NamesOf(controls));
  }

  ghost predicate HelloKey(k: Text) {
    || k == K_PROTOCOL || k == H_VERSIONS || k == H_OPERATIONS || k == H_READ_ONLY || k == H_READ_ONLY_OPERATIONS
    || k == H_CONTROL_OPERATIONS || k == H_CONTROL_TIMEOUT || k == H_HOLD_STATE_TIMEOUT || k == H_VERSION
  }

  lemma ListKeyIsAscii(k: Text)
    requires k == H_OPERATIONS || k == H_READ_ONLY || k == H_READ_ONLY_OPERATIONS || k == H_CONTROL_OPERATIONS
    ensures forall i | 0 <= i < |k| :: k[i] < 128
  {
  }

  lemma OtherKeyIsAscii(k: Text)
    requires || k == K_PROTOCOL || k == H_VERSIONS || k == H_CONTROL_TIMEOUT || k == H_HOLD_STATE_TIMEOUT
             || k == H_VERSION
    ensures forall i | 0 <= i < |k| :: k[i] < 128
  {
  }

  lemma HelloKeyIsClean(k: Text)
    requires HelloKey(k)
    ensures NoSurrogatePair(k)
  {
    if k == H_OPERATIONS || k == H_READ_ONLY || k == H_READ_ONLY_OPERATIONS || k == H_CONTROL_OPERATIONS {
      ListKeyIsAscii(k);
    } else {
      OtherKeyIsAscii(k);
    }
    Events.AsciiIsClean(k);
    JoinedIffNoPair(k);
  }

  /** The hello is the same after JSON. */
  lemma HelloIsClean(offer: Offer)
    ensures WellFormed(Object(HelloResult(offer))) && Reread(Object(HelloResult(offer))) == Object(HelloResult(offer))
  {
    var a, b, c := NamesJson(Filtered(ALL_OPERATIONS, offer)), NamesJson(Filtered(READ_ONLY_OPERATIONS, offer)),
                   NamesJson(Filtered(CONTROL_OPERATIONS, offer));
    NamesAreClean(Filtered(ALL_OPERATIONS, offer));
    NamesAreClean(Filtered(READ_ONLY_OPERATIONS, offer));
    NamesAreClean(Filtered(CONTROL_OPERATIONS, offer));
    MapIsClean(a, b, c);
    RereadIffClean(Object(HelloMap(a, b, c)));
  }

  /** A value that comes through JSON unchanged and is well formed. */
  ghost predicate Plain(v: Json) {
    Clean(v) && WellFormed(v)
  }

  lemma PutIsPlain(fields: map<Text, Json>, k: Text, v: Json)
    requires Plain(Object(fields)) && NoSurrogatePair(k) && Plain(v)
    ensures Plain(Object(fields[k := v]))
  {
  }

  lemma TextIsPlain(t: Text)
    requires NoSurrogatePair(t)
    ensures Plain(String(t))
  {
  }

  lemma NumbersArePlain(i: int)
    ensures Plain(Integer(i)) && Plain(Array([Integer(i)])) && Plain(Boolean(false))
  {
    assert Clean(Integer(i)) && WellFormed(Integer(i));
  }

  lemma WholeIsPlain(i: int, text: Bytes)
    requires 0 < i < 10 && text == [48 + i, 46, 48]
    ensures Plain(Float(text))
  {
    WholeTimeout(i);
  }

  /** The hello up to its limits. */
  lemma StartIsPlain(a: Json)
    requires Plain(a)
    ensures Plain(Object(HelloStart(a)))
  {
    Events.LiteralIsClean("sdsctl.daemon");
    TextIsPlain(PROTOCOL);
    NumbersArePlain(VERSION);
    PutHello(map[], K_PROTOCOL, String(PROTOCOL));
    var m1 := map[K_PROTOCOL := String(PROTOCOL)];
    PutHello(m1, H_VERSIONS, Array([Integer(VERSION)]));
    var m2 := m1[H_VERSIONS := Array([Integer(VERSION)])];
    PutHello(m2, H_OPERATIONS, a);
    PutHello(m2[H_OPERATIONS := a], H_READ_ONLY, Boolean(false));
  }

  lemma MapIsClean(a: Json, b: Json, c: Json)
    requires Plain(a) && Plain(b) && Plain(c)
    ensures Plain(Object(HelloMap(a, b, c)))
  {
    StartIsPlain(a);
    WholeIsPlain(2, DEFAULT_CONTROL_TIMEOUT);
    WholeIsPlain(4, DEFAULT_HOLD_STATE_TIMEOUT);
    RestIsPlain(HelloStart(a), b, c, DEFAULT_CONTROL_TIMEOUT, DEFAULT_HOLD_STATE_TIMEOUT);
  }

  lemma RestIsPlain(m: map<Text, Json>, b: Json, c: Json, timeout: Bytes, holdTimeout: Bytes)
    requires Plain(Object(m)) && Plain(b) && Plain(c) && Plain(Float(timeout)) && Plain(Float(holdTimeout))
    ensures Plain(Object(m[H_READ_ONLY_OPERATIONS := b][H_CONTROL_OPERATIONS := c]
                          [H_CONTROL_TIMEOUT := Float(timeout)]
                          [H_HOLD_STATE_TIMEOUT := Float(holdTimeout)][H_VERSION := Integer(VERSION)]))
  {
    NumbersArePlain(VERSION);
    PutHello(m, H_READ_ONLY_OPERATIONS, b);
    var m1 := m[H_READ_ONLY_OPERATIONS := b];
    PutHello(m1, H_CONTROL_OPERATIONS, c);
    var m2 := m1[H_CONTROL_OPERATIONS := c];
    PutHello(m2, H_CONTROL_TIMEOUT, Float(timeout));
    var m3 := m2[H_CONTROL_TIMEOUT := Float(timeout)];
    PutHello(m3, H_HOLD_STATE_TIMEOUT, Float(holdTimeout));
    PutHello(m3[H_HOLD_STATE_TIMEOUT := Float(holdTimeout)], H_VERSION, Integer(VERSION));
  }

  lemma PutHello(fields: map<Text, Json>, k: Text, v: Json)
    requires Plain(Object(fields)) && HelloKey(k) && Plain(v)
    ensures Plain(Object(fields[k := v]))
  {
    HelloKeyIsClean(k);
    PutIsPlain(fields, k, v);
  }

  // What an accepted hello says

  /** The field is an array that contains this name. */
  ghost predicate ListsName(result: map<Text, Json>, field: Text, name: Text) {
    && field in result && result[field].Array?
    && exists i :: 0 <= i < |result[field].items| && result[field].items[i] == String(name)
  }

  /** The field is this positive number. */
  ghost predicate IsLimit(result: map<Text, Json>, field: Text, x: real) {
    && x > 0.0 && field in result
    && match result[field]
       case Integer(i) => i as real == x
       case Float(text) => DecimalValue(text) == x
       case _ => false
  }

  lemma StringsListNames(result: map<Text, Json>, field: Text, name: Text)
    requires Strings(Lookup(result, field)).Some?
    ensures name in Strings(Lookup(result, field)).value <==> name != [] && ListsName(result, field, name)
  {
    var items, names := result[field].items, Strings(Lookup(result, field)).value;
    assert forall i | 0 <= i < |items| :: NonEmptyText(items[i]) && names[i] == items[i].t;
    if name in names {
      var i :| 0 <= i < |names| && names[i] == name;
      assert items[i] == String(name);
    }
  }

  /**
    A hello that a client accepts is of its own protocol and version, and says what the client
    keeps of it: the operations and controls it lists, controls only of a server that is not read
    only and lists them as operations too, and their limits.
   */
  lemma AcceptedHelloSays(result: map<Text, Json>, hello: Hello)
    requires CheckHello(result) == Some(hello)
    ensures Lookup(result, K_PROTOCOL) == Some(String(PROTOCOL)) && Lookup(result, H_VERSION) == Some(Integer(VERSION))
    ensures Lookup(result, H_READ_ONLY) == Some(Boolean(hello.readOnly))
    ensures ListsName(result, H_OPERATIONS, ApiName(SayHello))
    ensures forall op :: op in hello.operations <==> ListsName(result, H_OPERATIONS, OperationName(op))
    ensures forall op :: op in hello.controlOperations ==>
              !hello.readOnly && ListsName(result, H_CONTROL_OPERATIONS, OperationName(op)) && op in hello.operations
    ensures !hello.readOnly ==>
              && (forall op :: ListsName(result, H_CONTROL_OPERATIONS, OperationName(op)) ==>
                    op in hello.controlOperations && !ListsName(result, H_READ_ONLY_OPERATIONS, OperationName(op)))
              && IsLimit(result, H_CONTROL_TIMEOUT, hello.maxControlTimeout)
    ensures ScannerHoldState in hello.controlOperations ==>
              IsLimit(result, H_HOLD_STATE_TIMEOUT, hello.maxHoldStateTimeout)
  {
    StringsListNames(result, H_OPERATIONS, ApiName(SayHello));
    NameIsPlain(SayHello);
    forall op: Operation
      ensures op in hello.operations <==> ListsName(result, H_OPERATIONS, OperationName(op))
    {
      NameIsPlain(Scanner(op));
      StringsListNames(result, H_OPERATIONS, OperationName(op));
    }
    AcceptedControls(result, hello);
  }

  lemma AcceptedControls(result: map<Text, Json>, hello: Hello)
    requires CheckHello(result) == Some(hello)
    ensures forall op :: op in hello.controlOperations ==>
              !hello.readOnly && ListsName(result, H_CONTROL_OPERATIONS, OperationName(op)) && op in hello.operations
    ensures !hello.readOnly ==>
              forall op :: ListsName(result, H_CONTROL_OPERATIONS, OperationName(op)) ==>
                op in hello.controlOperations && !ListsName(result, H_READ_ONLY_OPERATIONS, OperationName(op))
  {
    if !hello.readOnly {
      forall op: Operation
        ensures op in hello.controlOperations <==> ListsName(result, H_CONTROL_OPERATIONS, OperationName(op))
        ensures op in hello.controlOperations ==>
                  op in hello.operations && !ListsName(result, H_READ_ONLY_OPERATIONS, OperationName(op))
      {
        NameIsPlain(Scanner(op));
        StringsListNames(result, H_CONTROL_OPERATIONS, OperationName(op));
        StringsListNames(result, H_READ_ONLY_OPERATIONS, OperationName(op));
      }
    }
  }
}
