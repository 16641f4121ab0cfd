/**
  One control request and its response between a client and the daemon API
  (`daemon_client.py`, `daemon_api.py`, `daemon_server.py`).
 */
module ControlContract {
  import opened Prelude
  import opened Texts
  import opened JsonText
  import opened Json
  import opened ControlParameters
  import opened ApiHello
  import opened ControlResults
  import opened Framing
  import opened EventClient
  import Events

  const MAX_REQUEST_ID_LENGTH := 128

  const K_VERSION: Text := Lit("version")
  const K_REQUEST_ID: Text := Lit("request_id")
  const K_OPERATION: Text := Lit("operation")
  const K_PARAMS: Text := Lit("params")
  const K_OK: Text := Lit("ok")
  const K_RESULT: Text := Lit("result")
  const K_ERROR: Text := Lit("error")
  const K_CODE: Text := Lit("code")
  const K_MESSAGE: Text := Lit("message")

  // Requests

  /** `_validate_request_id` */
  predicate ValidRequestId(id: Text) {
    id != [] && |id| <= MAX_REQUEST_ID_LENGTH && forall i :: 0 <= i < |id| ==> id[i] >= 32
  }

  datatype Request = Request(id: Text, operation: Text, params: Params)

  /** The fields of a request, whatever their values. */
  function RequestFields(protocol: Json, version: Json, id: Json, operation: Json, params: Json): map<Text, Json> {
    map[K_PROTOCOL := protocol, K_VERSION := version, K_REQUEST_ID := id, K_OPERATION := operation, K_PARAMS := params]
  }

  /** `as_dict` of a request; its protocol and version are the client's. */
  function RequestEnvelope(r: Request): Json {
    Object(RequestFields(String(PROTOCOL), Integer(VERSION), String(r.id), String(r.operation), Object(r.params)))
  }

  function RequestFrame(r: Request): Bytes {
    Dumps(RequestEnvelope(r))
  }

  // Responses

  datatype ErrorCode =
    | InvalidRequest
    | UnsupportedProtocol
    | UnsupportedVersion
    | UnknownOperation
    | InvalidParameters
    | ControlBusy
    | ControlUnavailable
    | UnsupportedOperation
    | ControlTimeout
    | ControlRejected
    | ControlFailed
    | RequestTooLarge
    | InternalError

  function CodeName(code: ErrorCode): (name: Text)
    ensures name != []
  {
    match code
    case InvalidRequest => Lit("invalid_request")
    case UnsupportedProtocol => Lit("unsupported_protocol")
    case UnsupportedVersion => Lit("unsupported_version")
    case UnknownOperation => Lit("unknown_operation")
    case InvalidParameters => Lit("invalid_parameters")
    case ControlBusy => Lit("control_busy")
    case ControlUnavailable => Lit("control_unavailable")
    case UnsupportedOperation => Lit("unsupported_operation")
    case ControlTimeout => Lit("control_timeout")
    case ControlRejected => Lit("control_rejected")
    case ControlFailed => Lit("control_failed")
    case RequestTooLarge => Lit("request_too_large")
    case InternalError => Lit("internal_error")
  }

  datatype Body = Succeeded(result: map<Text, Json>) | Failed(code: ErrorCode, message: Text)

  datatype Response = Response(id: Option<Text>, body: Body)

  function ErrorObject(code: ErrorCode, message: Text): Json {
    Object(map[K_CODE := String(CodeName(code)), K_MESSAGE := String(message)])
  }

  function IdJson(id: Option<Text>): Json {
    match id case Some(t) => String(t) case None => Null
  }

  /** `as_dict` of a response */
  function ResponseEnvelope(r: Response): Json {
    match r.body
    case Succeeded(result) =>
      Object(map[
        K_PROTOCOL := String(PROTOCOL), K_VERSION := Integer(VERSION), K_REQUEST_ID := IdJson(r.id),
        K_OK := Boolean(true), K_RESULT := Object(result)])
    case Failed(code, message) =>
      Object(map[
        K_PROTOCOL := String(PROTOCOL), K_VERSION := Integer(VERSION), K_REQUEST_ID := IdJson(r.id),
        K_OK := Boolean(false), K_ERROR := ErrorObject(code, message)])
  }

  function ResponseFrame(r: Response): Bytes {
    Dumps(ResponseEnvelope(r))
  }

  // The server

  /** Whatever the runtime made of a control: its result, a failure with its code, or any other exception. */
  datatype Outcome = Returned(result: map<Text, Json>) | Rejected(code: ErrorCode, message: Text) | Crashed

  /** A server, and what its runtime makes of each control it may be asked for. */
  datatype Server = Server(offer: Offer, maxRequestBytes: nat, maxResponseBytes: nat, runtime: Control -> Outcome)

  const MESSAGE: Text := Lit("The request was not carried out.")

  /** `_request_id_for_error` */
  function IdForError(fields: map<Text, Json>): Option<Text> {
    var id: Option<Json> := Lookup(fields, K_REQUEST_ID);
    match id
    case Some(String(t)) => if ValidRequestId(t) then Some(t) else None
    case _ => None
  }

  function Failure(id: Option<Text>, code: ErrorCode): Response {
    Response(id, Failed(code, MESSAGE))
  }

  /** `DaemonApiRequest.from_payload`, or the failure to answer with. */
  function FromPayload(payload: Json): Result<(Text, int, Request), Response> {
    match payload
    case Object(fields) =>
      if !({K_PROTOCOL, K_VERSION, K_REQUEST_ID, K_OPERATION} <= fields.Keys)
         || !(fields.Keys <= {K_PROTOCOL, K_VERSION, K_REQUEST_ID, K_OPERATION, K_PARAMS})
      then Err(Failure(IdForError(fields), InvalidRequest))
      else
        (match (fields[K_PROTOCOL], fields[K_VERSION], fields[K_REQUEST_ID], fields[K_OPERATION],
                if K_PARAMS in fields then fields[K_PARAMS] else Object(map[]))
         case (String(protocol), Integer(version), String(id), String(operation), Object(params)) =>
           if protocol == [] || !ValidRequestId(id) || Strip(operation) == []
           then Err(Failure(IdForError(fields), InvalidRequest))
           else Ok((protocol, version, Request(id, operation, params)))
         case _ => Err(Failure(IdForError(fields), InvalidRequest)))
    case _ => Err(Failure(None, InvalidRequest))
  }

  /**
    `_handle_payload`. Operations other than the hello and the scanner controls are not part of
    this model, and answered like unknown ones.
   */
  function Handle(server: Server, payload: Json): Response {
    match FromPayload(payload)
    case Err(response) => response
    case Ok((protocol, version, request)) =>
      if protocol != PROTOCOL then Failure(Some(request.id), UnsupportedProtocol)
      else if version != VERSION then Failure(Some(request.id), UnsupportedVersion)
      else Carried(server, request)
  }

  /** The response to a request of the right protocol and version. */
  function Carried(server: Server, request: Request): Response {
    match Named(request.operation)
    case Some(SayHello) =>
      if request.params != map[] then Failure(Some(request.id), InvalidParameters)
      else Dispatched(request.id, Returned(HelloResult(server.offer)))
    case Some(Scanner(op)) =>
      if !Offered(Scanner(op), server.offer) then Failure(Some(request.id), UnsupportedOperation)
      else if !ValidParams(op, request.params) then Failure(Some(request.id), InvalidParameters)
      else Dispatched(request.id, server.runtime(Dispatch(op, request.params)))
    case _ => Failure(Some(request.id), UnknownOperation)
  }

  /** The response to a request that was dispatched. */
  function Dispatched(id: Text, outcome: Outcome): Response {
    match outcome
    case Returned(result) => Response(Some(id), Succeeded(result))
    case Rejected(code, message) => Response(Some(id), Failed(code, message))
    case Crashed => Failure(Some(id), InternalError)
  }

  /** The response to one frame, before its own size is looked at. */
  function Answer(server: Server, frame: Bytes): Response {
    if |frame| > server.maxRequestBytes then Failure(None, RequestTooLarge)
    else
      match Loads(frame)
      case None => Failure(None, InvalidRequest)
      case Some(payload) => Handle(server, payload)
  }

  /** The frame the server sends back, its newline aside. */
  function Serve(server: Server, frame: Bytes): Bytes {
    var response := ResponseFrame(Answer(server, frame));
    if |response| + 1 > server.maxResponseBytes && |frame| <= server.maxRequestBytes
    then ResponseFrame(Failure(None, InternalError))
    else response
  }

  // The client

  datatype Reply = Completed(result: map<Text, Json>) | RequestError(code: Text, message: Text) | ProtocolError

  /** `_decode_response` */
  function DecodeResponse(frame: Bytes, expected: Text): Reply {
    match Loads(frame)
    case Some(Object(fields)) => DecodeFields(fields, expected)
    case _ => ProtocolError
  }

  function DecodeFields(fields: map<Text, Json>, expected: Text): Reply {
    if Lookup(fields, K_PROTOCOL) != Some(String(PROTOCOL)) || Lookup(fields, K_VERSION) != Some(Integer(VERSION))
       || Lookup(fields, K_REQUEST_ID) != Some(String(expected))
    then ProtocolError
    else
      var indicator: Option<Json> := Lookup(fields, K_OK);
      match indicator
      case Some(Boolean(ok)) =>
        if ok then
          if K_ERROR in fields then ProtocolError
          else
            var result: Option<Json> := Lookup(fields, K_RESULT);
            if result.Some? && result.value.Object? then Completed(result.value.fields) else ProtocolError
        else if K_RESULT in fields then ProtocolError
        else
          var error: Option<Json> := Lookup(fields, K_ERROR);
          if error.None? || !error.value.Object? then ProtocolError
          else
            var code: Option<Json> := Lookup(error.value.fields, K_CODE);
            var message: Option<Json> := Lookup(error.value.fields, K_MESSAGE);
            if code.None? || message.None? || !code.value.String? || !message.value.String?
               || code.value.t == [] || message.value.t == []
            then ProtocolError
            else RequestError(code.value.t, message.value.t)
      case _ => ProtocolError
  }

  /** What the client makes of a response frame. */
  function ReadReply(frame: Bytes, expected: Text, maxResponseBytes: nat): Reply {
    if |frame| > maxResponseBytes then ProtocolError else DecodeResponse(frame, expected)
  }

  // What a control sends

  /** `_next_request_id` */
  function RequestId(n: nat): Text {
    Lit("sdsctl-") + seq(|Digits(n)|, i requires 0 <= i < |Digits(n)| => Digits(n)[i] as CodePoint)
  }

  /** The request a client sends for a call, unless it raises instead. */
  function Sent(call: Call, hello: Hello, n: nat): Option<Request> {
    match ClientParams(call, hello)
    case None => None
    case Some(params) =>
      if ValidRequestId(RequestId(n)) then Some(Request(RequestId(n), OperationName(OperationOf(call)), params))
      else None
  }

  /** What the runtime makes of what the caller means. */
  function OutcomeOf(call: Call, server: Server): Outcome
    requires ClientParams(call, Capabilities(server.offer)).Some?
  {
    server.runtime(Intended(call, Capabilities(server.offer)))
  }

  // Envelopes through JSON

  lemma RequestIdIsClean(n: nat)
    ensures Joined(RequestId(n)) == RequestId(n)
  {
    var id := RequestId(n);
    assert |Lit("sdsctl-")| == 7;
    forall i | 0 <= i < |id| ensures id[i] < 128 {
      assert i >= 7 ==> IsDigit(Digits(n)[i - 7]);
    }
    Events.AsciiIsClean(id);
  }

  lemma KeyLengths()
    ensures |K_PROTOCOL| == 8 && |K_VERSION| == 7 && |K_REQUEST_ID| == 10 && |K_OPERATION| == 9 && |K_PARAMS| == 6
    ensures |K_OK| == 2 && |K_RESULT| == 6 && |K_ERROR| == 5 && |K_CODE| == 4 && |K_MESSAGE| == 7
  {
  }

  ghost predicate IsKey(k: Text) {
    || k == K_PROTOCOL || k == K_VERSION || k == K_REQUEST_ID || k == K_OPERATION || k == K_PARAMS
    || k == K_OK || k == K_RESULT || k == K_ERROR || k == K_CODE || k == K_MESSAGE
  }

  lemma KeyIsAscii(k: Text)
    requires IsKey(k)
    ensures forall i :: 0 <= i < |k| ==> k[i] < 128
  {
  }

  lemma KeyIsClean(k: Text)
    requires IsKey(k)
    ensures NoSurrogatePair(k)
  {
    KeyIsAscii(k);
    Events.AsciiIsClean(k);
    JoinedIffNoPair(k);
  }

  /** An object whose keys are those of envelopes comes back field by field. */
  lemma EnvelopeLoads(fields: map<Text, Json>)
    requires WellFormed(Object(fields)) && forall k | k in fields :: IsKey(k)
    ensures Reread(Object(fields)) == Object(RereadFields(fields))
    ensures Loads(Dumps(Object(fields))) == Some(Object(RereadFields(fields)))
  {
    forall k | k in fields ensures NoSurrogatePair(k) {
      KeyIsClean(k);
    }
    LoadsFields(fields);
  }

  lemma ProtocolIsClean()
    ensures Reread(String(PROTOCOL)) == String(PROTOCOL)
  {
    Events.LiteralIsClean("sdsctl.daemon");
  }

  lemma PlainNameStrips(name: Text)
    requires PlainName(name)
    ensures Strip(name) == name
  {
  }

  lemma RequestFieldsAt(protocol: Json, version: Json, id: Json, operation: Json, params: Json)
    ensures var fields := RequestFields(protocol, version, id, operation, params);
            && fields.Keys == {K_PROTOCOL, K_VERSION, K_REQUEST_ID, K_OPERATION, K_PARAMS}
            && fields[K_PROTOCOL] == protocol && fields[K_VERSION] == version && fields[K_REQUEST_ID] == id
            && fields[K_OPERATION] == operation && fields[K_PARAMS] == params
  {
    KeyLengths();
  }

  lemma RequestFieldsReread(protocol: Json, version: Json, id: Json, operation: Json, params: Json)
    ensures RereadFields(RequestFields(protocol, version, id, operation, params))
          == RequestFields(Reread(protocol), Reread(version), Reread(id), Reread(operation), Reread(params))
  {
    RequestFieldsAt(protocol, version, id, operation, params);
    RequestFieldsAt(Reread(protocol), Reread(version), Reread(id), Reread(operation), Reread(params));
  }

  lemma FromRequestFields(id: Text, operation: Text, params: Params)
    requires ValidRequestId(id) && Strip(operation) != []
    ensures FromPayload(Object(RequestFields(String(PROTOCOL), Integer(VERSION), String(id), String(operation),
              Object(params))))
          == Ok((PROTOCOL, VERSION, Request(id, operation, params)))
  {
    RequestFieldsAt(String(PROTOCOL), Integer(VERSION), String(id), String(operation), Object(params));
    assert |PROTOCOL| == 13;
  }

  lemma RequestLoads(r: Request, o: ApiOperation)
    requires WellFormed(Object(r.params)) && forall k | k in r.params :: NoSurrogatePair(k)
    requires Joined(r.id) == r.id && r.operation == ApiName(o)
    ensures Loads(RequestFrame(r))
          == Some(Object(RequestFields(String(PROTOCOL), Integer(VERSION), String(r.id), String(r.operation),
             Object(RereadFields(r.params)))))
  {
    var fields :=
      RequestFields(String(PROTOCOL), Integer(VERSION), String(r.id), String(r.operation), Object(r.params));
    RequestFieldsAt(String(PROTOCOL), Integer(VERSION), String(r.id), String(r.operation), Object(r.params));
    EnvelopeLoads(fields);
    RequestFieldsReread(String(PROTOCOL), Integer(VERSION), String(r.id), String(r.operation), Object(r.params));
    LoadsFields(r.params);
    ProtocolIsClean();
    NameIsClean(o);
  }

  /** A request with an operation's name and clean parameters arrives as it was sent, its strings joined. */
  lemma RequestArrives(r: Request, o: ApiOperation, server: Server)
    requires WellFormed(Object(r.params)) && forall k | k in r.params :: NoSurrogatePair(k)
    requires Joined(r.id) == r.id && ValidRequestId(r.id) && r.operation == ApiName(o)
    requires |RequestFrame(r)| <= server.maxRequestBytes
    ensures Answer(server, RequestFrame(r)) == Carried(server, Request(r.id, r.operation, RereadFields(r.params)))
  {
    RequestLoads(r, o);
    NameIsPlain(o);
    PlainNameStrips(r.operation);
    FromRequestFields(r.id, r.operation, RereadFields(r.params));
  }

  ghost predicate IsParameter(k: Text) {
    k == P_TARGET || k == P_FIRST || k == P_SECOND || k == P_COUNT || k == P_SCOPE || k == P_HELD || k == P_TIMEOUT
  }

  lemma ParameterIsClean(k: Text)
    requires IsParameter(k)
    ensures NoSurrogatePair(k)
  {
    assert forall i :: 0 <= i < |k| ==> k[i] < 128;
    Events.AsciiIsClean(k);
    JoinedIffNoPair(k);
  }

  ghost predicate Scalar(v: Json) {
    v.Null? || v.Boolean? || v.Integer? || v.String? || (v.Float? && FloatText(v.text))
  }

  ghost predicate ScalarParams(params: Params) {
    forall k | k in params :: IsParameter(k) && Scalar(params[k])
  }

  lemma ScalarsWellFormed(params: Params)
    requires ScalarParams(params)
    ensures WellFormed(Object(params))
  {
  }

  lemma GivenScalars(params: Params, first: Json, second: Json)
    requires ScalarParams(params) && Scalar(first) && Scalar(second)
    ensures ScalarParams(params + Given(P_FIRST, first) + Given(P_SECOND, second))
  {
  }

  lemma HoldParamsSent(call: Call, hello: Hello)
    requires call.Hold? && WellFormedCall(call) && ClientParams(call, hello).Some? && hello.maxControlTimeout <= 4.0
    ensures ScalarParams(ClientParams(call, hello).value)
  {
    TimeoutAgain(call.timeout, hello.maxControlTimeout);
    var name, text := NavigationTarget(call.target).value, TimeoutText(call.timeout, hello.maxControlTimeout).value;
    GivenScalars(map[P_TARGET := String(name), P_TIMEOUT := Float(text)], call.first, call.second);
  }

  lemma MoveParamsSent(call: Call, hello: Hello)
    requires call.Move? && WellFormedCall(call) && ClientParams(call, hello).Some? && hello.maxControlTimeout <= 4.0
    ensures ScalarParams(ClientParams(call, hello).value)
  {
    TimeoutAgain(call.timeout, hello.maxControlTimeout);
    var name, text := NavigationTarget(call.target).value, TimeoutText(call.timeout, hello.maxControlTimeout).value;
    var params := map[P_TARGET := String(name), P_COUNT := call.count, P_TIMEOUT := Float(text)];
    GivenScalars(params, call.first, call.second);
  }

  lemma HoldStateParamsSent(call: Call, hello: Hello)
    requires call.HoldState? && WellFormedCall(call) && ClientParams(call, hello).Some?
    requires hello.maxHoldStateTimeout <= 4.0
    ensures ScalarParams(ClientParams(call, hello).value)
  {
    TimeoutAgain(call.timeout, hello.maxHoldStateTimeout);
  }

  lemma ReconnectParamsSent(call: Call, hello: Hello)
    requires call.Reconnect? && WellFormedCall(call) && ClientParams(call, hello).Some?
    requires hello.maxControlTimeout <= 4.0
    ensures ScalarParams(ClientParams(call, hello).value)
  {
    TimeoutAgain(call.timeout, hello.maxControlTimeout);
  }

  lemma SentParams(call: Call, hello: Hello)
    requires WellFormedCall(call) && ClientParams(call, hello).Some?
    requires hello.maxControlTimeout <= 4.0 && hello.maxHoldStateTimeout <= 4.0
    ensures ScalarParams(ClientParams(call, hello).value)
  {
    match call
    case Hold(_, _, _, _) => HoldParamsSent(call, hello);
    case Move(_, _, _, _, _, _) => MoveParamsSent(call, hello);
    case HoldState(_, _, _) => HoldStateParamsSent(call, hello);
    case Reconnect(_) => ReconnectParamsSent(call, hello);
  }

  lemma SentIsJson(call: Call, hello: Hello)
    requires WellFormedCall(call) && ClientParams(call, hello).Some?
    requires hello.maxControlTimeout <= 4.0 && hello.maxHoldStateTimeout <= 4.0
    ensures var params := ClientParams(call, hello).value;
            WellFormed(Object(params)) && forall k | k in params :: NoSurrogatePair(k)
  {
    var params := ClientParams(call, hello).value;
    SentParams(call, hello);
    ScalarsWellFormed(params);
    forall k | k in params ensures NoSurrogatePair(k) {
      ParameterIsClean(k);
    }
  }

  /**
    Whatever the arguments, a request the client agrees to send passes every check of the
    server, if it is not too long.
   */
  lemma RequestReachesDispatch(call: Call, server: Server, n: nat)
    requires WellFormedCall(call) && Sent(call, Capabilities(server.offer), n).Some?
    requires |RequestFrame(Sent(call, Capabilities(server.offer), n).value)| <= server.maxRequestBytes
    ensures Answer(server, RequestFrame(Sent(call, Capabilities(server.offer), n).value))
          == Dispatched(RequestId(n), OutcomeOf(call, server))
  {
    var r, op := Sent(call, Capabilities(server.offer), n).value, OperationOf(call);
    SentIsJson(call, Capabilities(server.offer));
    RequestIdIsClean(n);
    ServerAcceptsParams(call, Capabilities(server.offer));
    ControlArrives(server, r, op, Intended(call, Capabilities(server.offer)));
  }

  lemma ControlArrives(server: Server, r: Request, op: Operation, control: Control)
    requires WellFormed(Object(r.params)) && forall k | k in r.params :: NoSurrogatePair(k)
    requires Joined(r.id) == r.id && ValidRequestId(r.id) && r.operation == OperationName(op)
    requires |RequestFrame(r)| <= server.maxRequestBytes
    requires op in Controls(server.offer) && AsksFor(op, RereadFields(r.params), control)
    ensures Answer(server, RequestFrame(r)) == Dispatched(r.id, server.runtime(control))
  {
    RequestArrives(r, Scanner(op), server);
    ControlCarried(server, r.id, op, RereadFields(r.params), control);
  }

  lemma ControlCarried(server: Server, id: Text, op: Operation, params: Params, control: Control)
    requires op in Controls(server.offer) && AsksFor(op, params, control)
    ensures Carried(server, Request(id, OperationName(op), params)) == Dispatched(id, server.runtime(control))
  {
    NamedByItsName(Scanner(op));
  }

  /** The hello of a client. */
  function HelloRequest(n: nat): Request {
    Request(RequestId(n), ApiName(SayHello), map[])
  }

  /** A hello within the size limit is answered by what the server offers. */
  lemma HelloReachesDispatch(server: Server, n: nat)
    requires ValidRequestId(RequestId(n)) && |RequestFrame(HelloRequest(n))| <= server.maxRequestBytes
    ensures Answer(server, RequestFrame(HelloRequest(n)))
          == Dispatched(RequestId(n), Returned(HelloResult(server.offer)))
  {
    var r := HelloRequest(n);
    RequestIdIsClean(n);
    assert RereadFields(r.params) == map[];
    RequestArrives(r, SayHello, server);
    NamedByItsName(SayHello);
  }

  // Responses through JSON

  /** The fields of a response, whatever their values. */
  function ResponseFields(id: Json, ok: bool, body: Json): (fields: map<Text, Json>) {
    map[K_PROTOCOL := String(PROTOCOL), K_VERSION := Integer(VERSION), K_REQUEST_ID := id,
        K_OK := Boolean(ok), (if ok then K_RESULT else K_ERROR) := body]
  }

  lemma ResponseFieldsAt(id: Json, ok: bool, body: Json)
    ensures var fields := ResponseFields(id, ok, body);
            && fields.Keys == {K_PROTOCOL, K_VERSION, K_REQUEST_ID, K_OK, if ok then K_RESULT else K_ERROR}
            && fields[K_PROTOCOL] == String(PROTOCOL) && fields[K_VERSION] == Integer(VERSION)
            && fields[K_REQUEST_ID] == id
            && fields[K_OK] == Boolean(ok) && fields[if ok then K_RESULT else K_ERROR] == body
            && (ok ==> K_ERROR !in fields) && (!ok ==> K_RESULT !in fields)
  {
    KeyLengths();
  }

  lemma {:induction false} PutReread(fields: map<Text, Json>, k: Text, v: Json)
    ensures RereadFields(fields[k := v]) == RereadFields(fields)[k := Reread(v)]
  {
  }

  lemma {:induction false} FiveFieldsReread(a: Text, b: Text, c: Text, d: Text, e: Text, va: Json, vb: Json, vc: Json,
      vd: Json, ve: Json)
    ensures RereadFields(map[a := va, b := vb, c := vc, d := vd, e := ve])
          == map[a := Reread(va), b := Reread(vb), c := Reread(vc), d := Reread(vd), e := Reread(ve)]
  {
    PutReread(map[], a, va);
    PutReread(map[a := va], b, vb);
    PutReread(map[a := va, b := vb], c, vc);
    PutReread(map[a := va, b := vb, c := vc], d, vd);
    PutReread(map[a := va, b := vb, c := vc, d := vd], e, ve);
    assert RereadFields(map[]) == map[];
  }

  lemma ResponseFieldsReread(id: Json, ok: bool, body: Json)
    ensures RereadFields(ResponseFields(id, ok, body)) == ResponseFields(Reread(id), ok, Reread(body))
  {
    KeyLengths();
    ProtocolIsClean();
    var name := if ok then K_RESULT else K_ERROR;
    FiveFieldsReread(K_PROTOCOL, K_VERSION, K_REQUEST_ID, K_OK, name, String(PROTOCOL), Integer(VERSION), id,
        Boolean(ok), body);
  }

  /** The result or the error of a response. */
  function BodyJson(body: Body): Json {
    match body
    case Succeeded(result) => Object(result)
    case Failed(code, message) => ErrorObject(code, message)
  }

  lemma ResponseLoads(r: Response)
    requires WellFormed(BodyJson(r.body))
    ensures Loads(ResponseFrame(r))
          == Some(Object(ResponseFields(Reread(IdJson(r.id)), r.body.Succeeded?, Reread(BodyJson(r.body)))))
  {
    var fields := ResponseFields(IdJson(r.id), r.body.Succeeded?, BodyJson(r.body));
    ResponseFieldsAt(IdJson(r.id), r.body.Succeeded?, BodyJson(r.body));
    assert ResponseEnvelope(r) == Object(fields);
    EnvelopeLoads(fields);
    ResponseFieldsReread(IdJson(r.id), r.body.Succeeded?, BodyJson(r.body));
  }

  ghost predicate Ascii(t: Text) {
    forall i :: 0 <= i < |t| ==> t[i] < 128
  }

  lemma RequestCodesAreAscii(code: ErrorCode)
    requires || code.InvalidRequest? || code.UnsupportedProtocol? || code.UnsupportedVersion?
             || code.UnknownOperation? || code.InvalidParameters?
    ensures Ascii(CodeName(code))
  {
  }

  ghost predicate AboutControl(code: ErrorCode) {
    || code.ControlBusy? || code.ControlUnavailable? || code.ControlTimeout? || code.ControlRejected?
    || code.ControlFailed?
  }

  lemma ControlCodesAreAscii(code: ErrorCode)
    requires AboutControl(code)
    ensures Ascii(CodeName(code))
  {
  }

  lemma OtherCodesAreAscii(code: ErrorCode)
    requires code.UnsupportedOperation? || code.RequestTooLarge? || code.InternalError?
    ensures Ascii(CodeName(code))
  {
  }

  lemma CodeIsClean(code: ErrorCode)
    ensures Joined(CodeName(code)) == CodeName(code)
  {
    if code.UnsupportedOperation? || code.RequestTooLarge? || code.InternalError? {
      OtherCodesAreAscii(code);
    } else if AboutControl(code) {
      ControlCodesAreAscii(code);
    } else {
      RequestCodesAreAscii(code);
    }
    Events.AsciiIsClean(CodeName(code));
  }

  lemma ErrorFields(code: Json, message: Json)
    ensures var fields := map[K_CODE := code, K_MESSAGE := message];
            && fields.Keys == {K_CODE, K_MESSAGE} && fields[K_CODE] == code && fields[K_MESSAGE] == message
            && RereadFields(fields) == map[K_CODE := Reread(code), K_MESSAGE := Reread(message)]
  {
    KeyLengths();
  }

  lemma ErrorReread(code: ErrorCode, message: Text)
    ensures WellFormed(ErrorObject(code, message))
    ensures Reread(ErrorObject(code, message))
          == Object(map[K_CODE := String(CodeName(code)), K_MESSAGE := String(Joined(message))])
  {
    ErrorFields(String(CodeName(code)), String(message));
    CodeIsClean(code);
    EnvelopeLoads(map[K_CODE := String(CodeName(code)), K_MESSAGE := String(message)]);
  }

  /** What a client should make of an outcome. */
  function Expected(outcome: Outcome): Reply {
    match outcome
    case Returned(result) => Completed(RereadMembers(Object(result), SortedKeys(result.Keys)))
    case Rejected(code, message) => RequestError(CodeName(code), Joined(message))
    case Crashed => RequestError(CodeName(InternalError), Joined(MESSAGE))
  }

  /** A result is a JSON tree, and a failure has a message. */
  ghost predicate ProperOutcome(outcome: Outcome) {
    match outcome
    case Returned(result) => WellFormed(Object(result))
    case Rejected(_, message) => message != []
    case Crashed => true
  }

  ghost predicate ProperServer(server: Server) {
    forall control: Control :: ProperOutcome(server.runtime(control))
  }

  lemma MessageIsNotEmpty()
    ensures MESSAGE != []
  {
    assert |MESSAGE| > 0;
  }

  lemma DecodeSuccess(id: Text, result: map<Text, Json>)
    ensures DecodeFields(ResponseFields(String(id), true, Object(result)), id) == Completed(result)
  {
    ResponseFieldsAt(String(id), true, Object(result));
  }

  lemma DecodeFailure(id: Text, code: Text, message: Text)
    requires code != [] && message != []
    ensures var error := Object(map[K_CODE := String(code), K_MESSAGE := String(message)]);
            DecodeFields(ResponseFields(String(id), false, error), id) == RequestError(code, message)
  {
    ResponseFieldsAt(String(id), false, Object(map[K_CODE := String(code), K_MESSAGE := String(message)]));
    KeyLengths();
  }

  lemma FailureDecodes(id: Text, code: ErrorCode, message: Text)
    requires Joined(id) == id && message != []
    ensures DecodeResponse(ResponseFrame(Response(Some(id), Failed(code, message))), id)
              == RequestError(CodeName(code), Joined(message))
  {
    ErrorReread(code, message);
    ResponseLoads(Response(Some(id), Failed(code, message)));
    Events.JoinedKindValid(message);
    DecodeFailure(id, CodeName(code), Joined(message));
  }

  /** The response to a dispatched request decodes under its identifier. */
  lemma DispatchedDecodes(id: Text, outcome: Outcome)
    requires Joined(id) == id && ProperOutcome(outcome)
    ensures DecodeResponse(ResponseFrame(Dispatched(id, outcome)), id) == Expected(outcome)
  {
    match outcome
    case Returned(result) =>
      ResponseLoads(Response(Some(id), Succeeded(result)));
      DecodeSuccess(id, RereadMembers(Object(result), SortedKeys(result.Keys)));
    case Rejected(code, message) => FailureDecodes(id, code, message);
    case Crashed =>
      MessageIsNotEmpty();
      FailureDecodes(id, InternalError, MESSAGE);
  }

  /** A response without an identifier matches no request. */
  lemma AnonymousDecodes(code: ErrorCode, id: Text)
    ensures DecodeResponse(ResponseFrame(Failure(None, code)), id) == ProtocolError
  {
    ErrorReread(code, MESSAGE);
    ResponseLoads(Failure(None, code));
    ResponseFieldsAt(Null, false, Reread(ErrorObject(code, MESSAGE)));
  }

  // The contract

  /** The request is no longer than the server accepts, the response no longer than it sends and the client accepts. */
  predicate Fits(request: Request, response: Bytes, server: Server, maxResponseBytes: nat) {
    && |RequestFrame(request)| <= server.maxRequestBytes
    && |response| + 1 <= server.maxResponseBytes
    && |response| <= maxResponseBytes
  }

  /**
    A request that the server would dispatch, if it is not too long, is answered under its own
    identifier by the result or a typed error exactly when request and response fit the limits.
   */
  lemma ReplyIffFits(request: Request, outcome: Outcome, server: Server, maxResponseBytes: nat)
    requires Joined(request.id) == request.id && ProperOutcome(outcome)
    requires |RequestFrame(request)| <= server.maxRequestBytes ==>
               Answer(server, RequestFrame(request)) == Dispatched(request.id, outcome)
    ensures var reply := ReadReply(Serve(server, RequestFrame(request)), request.id, maxResponseBytes);
            var fits := Fits(request, ResponseFrame(Dispatched(request.id, outcome)), server, maxResponseBytes);
            reply == if fits then Expected(outcome) else ProtocolError
  {
    AnonymousDecodes(RequestTooLarge, request.id);
    AnonymousDecodes(InternalError, request.id);
    DispatchedDecodes(request.id, outcome);
  }

  /**
    A control request that the client agrees to send is answered under its own identifier, by
    the result or a typed request error, exactly when the request and its response fit the size
    limits. Otherwise the reply is a protocol mismatch.
   */
  lemma ReplyIsExpectedIffItFits(call: Call, server: Server, n: nat, maxResponseBytes: nat)
    requires WellFormedCall(call) && Sent(call, Capabilities(server.offer), n).Some?
    requires ProperOutcome(OutcomeOf(call, server))
    ensures var outcome := OutcomeOf(call, server);
            var request := Sent(call, Capabilities(server.offer), n).value;
            var reply := ReadReply(Serve(server, RequestFrame(request)), request.id, maxResponseBytes);
            var response := ResponseFrame(Dispatched(request.id, outcome));
            && (Fits(request, response, server, maxResponseBytes) ==> reply == Expected(outcome))
            && (!Fits(request, response, server, maxResponseBytes) ==> reply == ProtocolError)
  {
    var request := Sent(call, Capabilities(server.offer), n).value;
    RequestIdIsClean(n);
    if |RequestFrame(request)| <= server.maxRequestBytes {
      RequestReachesDispatch(call, server, n);
    }
    ReplyIffFits(request, OutcomeOf(call, server), server, maxResponseBytes);
  }

  /** The hello and its answer fit the limits. */
  predicate HelloFits(server: Server, n: nat, maxResponseBytes: nat) {
    var response := ResponseFrame(Dispatched(RequestId(n), Returned(HelloResult(server.offer))));
    Fits(HelloRequest(n), response, server, maxResponseBytes)
  }

  /** What a client makes of the reply to its hello. */
  function HelloOf(reply: Reply): Option<Hello> {
    match reply
    case Completed(result) => CheckHello(result)
    case _ => None
  }

  /** A hello that fits the limits tells the client exactly what the server offers; any other is a mismatch. */
  lemma HelloIsAcceptedIffItFits(server: Server, n: nat, maxResponseBytes: nat)
    requires ValidRequestId(RequestId(n))
    ensures var reply := ReadReply(Serve(server, RequestFrame(HelloRequest(n))), RequestId(n), maxResponseBytes);
            if HelloFits(server, n, maxResponseBytes) then HelloOf(reply) == Some(Capabilities(server.offer))
            else reply == ProtocolError
  {
    RequestIdIsClean(n);
    if |RequestFrame(HelloRequest(n))| <= server.maxRequestBytes {
      HelloReachesDispatch(server, n);
    }
    HelloIsClean(server.offer);
    ReplyIffFits(HelloRequest(n), Returned(HelloResult(server.offer)), server, maxResponseBytes);
    HelloIsAccepted(server.offer);
  }

  /** What a control makes of the reply to its request: a result has to pass the check for this control. */
  function Checked(reply: Reply, op: Operation, instant: Instants): Reply {
    match reply
    case Completed(result) => if ValidControlResult(result, op, instant) then reply else ProtocolError
    case _ => reply
  }

  /** A result of the runtime for the control asked for passes the check. */
  lemma RuntimeResultIsCompleted(c: ControlResult, instant: Instants)
    requires c.Valid(instant)
    ensures ProperOutcome(Returned(AsDict(c)))
    ensures Checked(Expected(Returned(AsDict(c))), c.operation, instant) == Completed(RereadFields(AsDict(c)))
  {
    ResultIsJson(c, instant);
    ResultPasses(c, instant);
  }

  lemma SysIsTarget()
    ensures NavigationTarget(String(Lit("SYS"))) == Some(Lit("SYS"))
  {
    var t := Lit("SYS");
    assert t in NAVIGATION_TARGETS;
    TargetsAreCapitals(t);
    assert Strip(t) == t;
    UpperOfCapitals(t);
  }

  /** Hold the system called `first`. */
  function HoldSystem(first: Text): Call {
    Hold(String(Lit("SYS")), String(first), Null, Integer(1))
  }

  lemma HoldSystemIsSent(first: Text, server: Server, n: nat)
    requires NoDelimiter(Strip(first)) && ValidRequestId(RequestId(n))
    ensures var sent := Sent(HoldSystem(first), Capabilities(server.offer), n);
            sent.Some? && P_FIRST in sent.value.params && sent.value.params[P_FIRST] == String(first)
  {
    SysIsTarget();
    ParameterNamesDiffer();
  }

  /** A request is longer than each of the texts it carries. */
  lemma RequestLength(r: Request, name: Text)
    requires name in r.params && r.params[name].String?
    ensures |RequestFrame(r)| >= |r.params[name].t|
  {
    var n := |r.params[name].t|;
    StringLength(r.params[name].t);
    ObjectLength(r.params, name, n);
    var fields :=
      RequestFields(String(PROTOCOL), Integer(VERSION), String(r.id), String(r.operation), Object(r.params));
    RequestFieldsAt(String(PROTOCOL), Integer(VERSION), String(r.id), String(r.operation), Object(r.params));
    ObjectLength(fields, K_PARAMS, n);
    assert |Print(Object(fields), [])| >= n;
  }

  /**
    Whatever its limit, the server takes some requests that the client agrees to send for too
    long, and the client takes its answer for a mismatch.
   */
  lemma LongCallMismatches(server: Server, n: nat, first: Text, maxResponseBytes: nat)
    requires ValidRequestId(RequestId(n)) && |first| > server.maxRequestBytes && NoDelimiter(Strip(first))
    ensures var sent := Sent(HoldSystem(first), Capabilities(server.offer), n);
            && sent.Some?
            && ReadReply(Serve(server, RequestFrame(sent.value)), RequestId(n), maxResponseBytes) == ProtocolError
  {
    HoldSystemIsSent(first, server, n);
    var request := Sent(HoldSystem(first), Capabilities(server.offer), n).value;
    RequestLength(request, P_FIRST);
    AnonymousDecodes(RequestTooLarge, request.id);
  }

  // The client object

  lemma ResponseHasNoNewline(r: Response)
    requires WellFormed(BodyJson(r.body))
    ensures NEWLINE !in ResponseFrame(r)
  {
    var fields := ResponseFields(IdJson(r.id), r.body.Succeeded?, BodyJson(r.body));
    ResponseFieldsAt(IdJson(r.id), r.body.Succeeded?, BodyJson(r.body));
    assert ResponseEnvelope(r) == Object(fields);
    PrintHasNoNewline(Object(fields), []);
  }

  /** Whatever the frame, what the server sends is one line. */
  lemma ServesOneLine(server: Server, frame: Bytes)
    requires ProperServer(server)
    ensures NEWLINE !in Serve(server, frame)
  {
    ErrorReread(InternalError, MESSAGE);
    ResponseHasNoNewline(Failure(None, InternalError));
    AnswerWellFormed(server, frame);
    ResponseHasNoNewline(Answer(server, frame));
  }

  lemma AnswerWellFormed(server: Server, frame: Bytes)
    requires ProperServer(server)
    ensures WellFormed(BodyJson(Answer(server, frame).body))
  {
    var body := Answer(server, frame).body;
    if body.Failed? {
      ErrorReread(body.code, body.message);
    } else {
      match Loads(frame)
      case Some(payload) => HandledWellFormed(server, payload);
    }
  }

  lemma HandledWellFormed(server: Server, payload: Json)
    requires ProperServer(server) && Handle(server, payload).body.Succeeded?
    ensures WellFormed(BodyJson(Handle(server, payload).body))
  {
    match FromPayload(payload)
    case Ok((_, _, request)) => CarriedWellFormed(server, request);
  }

  lemma CarriedWellFormed(server: Server, request: Request)
    requires ProperServer(server) && Carried(server, request).body.Succeeded?
    ensures WellFormed(BodyJson(Carried(server, request).body))
  {
    match Named(request.operation)
    case Some(SayHello) => HelloIsClean(server.offer);
    case Some(Scanner(op)) =>
      assert ProperOutcome(server.runtime(Dispatch(op, request.params)));
    case _ =>
  }

  /** The checks of a call that come before the hello. */
  predicate LocallyValid(call: Call) {
    match call
    case Hold(target, first, second, _) => NavigationTarget(target).Some? && NavigationValue(first)
        && NavigationValue(second)
    case HoldState(scope, held, _) => HoldScope(scope).Some? && held.Boolean?
    case Move(_, target, first, second, count, _) =>
      NavigationTarget(target).Some? && NavigationValue(first) && NavigationValue(second) && NavigationCount(count)
    case Reconnect(_) => true
  }

  const CLIENT_RECEIVE_BYTES := 4096

  datatype ReadError = ConnectionLost | ResponseTooLong | ExtraResponse

  /** `_read_response` of one line: its frame, unless it is too long or receiving fails. */
  method ReadResponse(client: Connection, maxResponseBytes: nat, ghost line: Bytes)
    returns (r: Result<Bytes, ReadError>)
    requires client.pending == line + [NEWLINE] && NEWLINE !in line
    modifies client
    ensures client.operations > old(client.operations)
    ensures r == if client.FailedSince(old(client.operations)) then Err(ConnectionLost)
                 else if |line| <= maxResponseBytes then Ok(line) else Err(ResponseTooLong)
  {
    var buffer: Bytes := [];
    while true
      invariant buffer + client.pending == line + [NEWLINE]
      invariant |buffer| <= maxResponseBytes && |buffer| <= |line|
      invariant !client.FailedSince(old(client.operations)) && old(client.operations) <= client.operations
      decreases |client.pending|
    {
      ghost var before, pending := buffer, client.pending;
      var chunk := client.Recv(if CLIENT_RECEIVE_BYTES <= maxResponseBytes + 1 then CLIENT_RECEIVE_BYTES
          else maxResponseBytes + 1);
      match chunk {
        case None =>
          assert client.faults(client.operations - 1);
          return Err(ConnectionLost);
        case Some(bytes) =>
          assert before + (bytes + client.pending) == (before + bytes) + client.pending;
          buffer := buffer + bytes;
          LineNewline(line, buffer, client.pending);
          match FindNewline(buffer) {
            case Some(newline) =>
              var frame := buffer[..newline];
              if |frame| > maxResponseBytes {
                return Err(ResponseTooLong);
              }
              if newline + 1 != |buffer| {
                return Err(ExtraResponse);
              }
              return Ok(frame);
            case None =>
              if |buffer| > maxResponseBytes {
                return Err(ResponseTooLong);
              }
          }
      }
    }
  }

  lemma LineNewline(line: Bytes, buffer: Bytes, pending: Bytes)
    requires buffer + pending == line + [NEWLINE] && NEWLINE !in line
    ensures FindNewline(buffer) == (if pending == [] then Some(|line|) else None)
    ensures pending == [] ==> buffer[..|line|] == line && |buffer| == |line| + 1
    ensures pending != [] ==> |buffer| <= |line|
  {
    var all := line + [NEWLINE];
    if pending == [] {
      assert buffer == all && all[..|line|] == line;
      NewlineFound(buffer, |line|);
    } else {
      assert |all| == |buffer| + |pending|;
      assert forall i :: 0 <= i < |buffer| ==> buffer[i] == all[i] == line[i];
    }
  }

  /** `DaemonUnavailableError` and `DaemonDisconnectedError` */
  datatype Trouble = NoConnection | ConnectionBroken

  /** What a request comes to: trouble with the connection, or a reply. */
  datatype Exchanged = Troubled(trouble: Trouble) | Answered(reply: Reply)

  /** Operations `from` to `to` all succeed. */
  ghost predicate Unfailing(faults: nat -> bool, from: nat, to: nat) {
    forall k | from <= k < to :: !faults(k)
  }

  /** Send a request that is answered by this line, and read the line. */
  method SendAndRead(answer: Bytes, maxResponseBytes: nat, faults: nat -> bool, from: nat)
    returns (r: Result<Bytes, ReadError>, to: nat)
    requires NEWLINE !in answer
    ensures from < to
    ensures r == if !Unfailing(faults, from, to) then Err(ConnectionLost)
                 else if |answer| <= maxResponseBytes then Ok(answer) else Err(ResponseTooLong)
  {
    var socket := new Connection(faults, from, []);
    var sent := socket.SendAll(answer + [NEWLINE]);
    if !sent {
      assert faults(from);
      return Err(ConnectionLost), socket.operations;
    }
    assert [] + (answer + [NEWLINE]) == answer + [NEWLINE];
    r := ReadResponse(socket, maxResponseBytes, answer);
    to := socket.operations;
    assert socket.FailedSince(from + 1) <==> !Unfailing(faults, from, to);
  }

  /**
    `request`: connect if need be, send the request and read its reply. The operations on the
    socket are numbered from `from` on, and `to` is the number of the next.
   */
  method Exchange(
      request: Request, server: Server, maxResponseBytes: nat, connected: bool, faults: nat -> bool, from: nat)
    returns (r: Exchanged, to: nat)
    requires ProperServer(server)
    ensures from < to && (r.Answered? <==> Unfailing(faults, from, to))
    ensures r == Troubled(NoConnection) <==> !connected && faults(from)
    ensures r.Answered? ==> r.reply == ReadReply(Serve(server, RequestFrame(request)), request.id, maxResponseBytes)
  {
    to := from;
    if !connected {
      to := to + 1;
      if faults(from) {
        return Troubled(NoConnection), to;
      }
    }
    var line;
    ServesOneLine(server, RequestFrame(request));
    line, to := SendAndRead(Serve(server, RequestFrame(request)), maxResponseBytes, faults, to);
    match line
    case Err(ConnectionLost) => r := Troubled(ConnectionBroken);
    case Err(_) => r := Answered(ProtocolError);
    case Ok(frame) => r := Answered(DecodeResponse(frame, request.id));
  }

  /** What a call comes to: it raises before anything is sent, the connection fails, or there is a reply. */
  datatype ControlReply = Refused | Lost(trouble: Trouble) | Replied(reply: Reply)

  /** The reply to a call, when its request is sent and answered. */
  ghost function ContractReply(call: Call, server: Server, n: nat, maxResponseBytes: nat, instant: Instants): Reply
    requires Sent(call, Capabilities(server.offer), n).Some?
  {
    var request := Sent(call, Capabilities(server.offer), n).value;
    var outcome := OutcomeOf(call, server);
    if Fits(request, ResponseFrame(Dispatched(request.id, outcome)), server, maxResponseBytes)
    then Checked(Expected(outcome), OperationOf(call), instant)
    else ProtocolError
  }

  /** The exchange of request `n`, for a call the client agrees to, and the check of its result. */
  method Converse(
      call: Call, server: Server, n: nat, maxResponseBytes: nat, instant: Instants, faults: nat -> bool, from: nat)
    returns (r: Exchanged, to: nat)
    requires WellFormedCall(call) && ProperServer(server) && Sent(call, Capabilities(server.offer), n).Some?
    ensures from < to && (r.Answered? <==> Unfailing(faults, from, to)) && r != Troubled(NoConnection)
    ensures r.Answered? ==> r.reply == ContractReply(call, server, n, maxResponseBytes, instant)
  {
    var request := Sent(call, Capabilities(server.offer), n).value;
    ReplyIsExpectedIffItFits(call, server, n, maxResponseBytes);
    r, to := Exchange(request, server, maxResponseBytes, true, faults, from);
    if r.Answered? {
      r := Answered(Checked(r.reply, OperationOf(call), instant));
    }
  }

  datatype Negotiation = Agreed(hello: Hello) | Unsendable | Mismatch | Unanswered(trouble: Trouble)

  /** What hello number `n` comes to, on a connection that holds. */
  ghost function HelloOutcome(server: Server, n: nat, maxResponseBytes: nat): Negotiation {
    if !ValidRequestId(RequestId(n)) then Unsendable
    else if HelloFits(server, n, maxResponseBytes) then Agreed(Capabilities(server.offer))
    else Mismatch
  }

  method SendHello(
      server: Server, n: nat, maxResponseBytes: nat, connected: bool, faults: nat -> bool, from: nat)
    returns (r: Negotiation, to: nat)
    requires ProperServer(server)
    ensures from <= to && (from == to <==> !ValidRequestId(RequestId(n)))
    ensures r.Unanswered? <==> !Unfailing(faults, from, to)
    ensures r == Unanswered(NoConnection) <==> !connected && from < to && faults(from)
    ensures !r.Unanswered? ==> r == HelloOutcome(server, n, maxResponseBytes)
  {
    if !ValidRequestId(RequestId(n)) {
      return Unsendable, from;
    }
    var exchanged;
    exchanged, to := Exchange(HelloRequest(n), server, maxResponseBytes, connected, faults, from);
    HelloIsAcceptedIffItFits(server, n, maxResponseBytes);
    match exchanged
    case Troubled(trouble) => r := Unanswered(trouble);
    case Answered(reply) =>
      var hello := HelloOf(reply);
      r := if hello.Some? then Agreed(hello.value) else Mismatch;
  }

  class DaemonApiClient {
    const maxResponseBytes: nat
    const instant: Instants
    /** Which operations on sockets fail. */
    const faults: nat -> bool
    var operations: nat
    var connected: bool
    var requestSequence: nat
    var helloResult: Option<Hello>

    constructor (maxResponseBytes: nat, instant: Instants, faults: nat -> bool)
      requires maxResponseBytes > 0
      ensures this.maxResponseBytes == maxResponseBytes && this.instant == instant && this.faults == faults
      ensures !connected && helloResult.None? && requestSequence == 0 && operations == 0
    {
      this.maxResponseBytes, this.instant, this.faults := maxResponseBytes, instant, faults;
      operations, connected, requestSequence, helloResult := 0, false, 0, None;
    }

    /** A hello is remembered only while the connection it was made on lasts. */
    ghost predicate Valid(server: Server)
      reads this
    {
      helloResult.Some? ==> connected && helloResult.value == Capabilities(server.offer)
    }

    method Disconnect()
      modifies this`connected, this`helloResult
      ensures !connected && helloResult.None?
    {
      connected, helloResult := false, None;
    }

    /** A hello on a connection on which there was none. */
    method Greet(server: Server) returns (r: Negotiation)
      requires helloResult.None? && ProperServer(server)
      modifies this`connected, this`helloResult, this`requestSequence, this`operations
      ensures requestSequence == old(requestSequence) + 1 && operations >= old(operations)
      ensures helloResult == if r.Agreed? then Some(r.hello) else None
      ensures connected <==> r.Agreed? || (r.Unsendable? && old(connected))
      ensures r.Unanswered? <==> !Unfailing(faults, old(operations), operations)
      ensures r == Unanswered(NoConnection) ==> !old(connected)
      ensures !r.Unanswered? ==> r == HelloOutcome(server, old(requestSequence) + 1, maxResponseBytes)
    {
      var to;
      var n := requestSequence + 1;
      r, to := SendHello(server, n, maxResponseBytes, connected, faults, operations);
      requestSequence, operations := n, to;
      Remember(r);
    }

    /** Keep the hello agreed on, or give the connection up if there is none. */
    method Remember(r: Negotiation)
      requires helloResult.None?
      modifies this`connected, this`helloResult
      ensures helloResult == if r.Agreed? then Some(r.hello) else None
      ensures connected <==> r.Agreed? || (r.Unsendable? && old(connected))
    {
      match r
      case Agreed(hello) => connected, helloResult := true, Some(hello);
      case Unsendable =>
      case _ => Disconnect();
    }

    /**
      `hello`: one exchange per connection. On a connection that holds, the client knows exactly
      what the server offers if the hello and its answer fit the limits, and else is disconnected
      by a protocol mismatch.
     */
    method Negotiate(server: Server) returns (r: Negotiation)
      requires Valid(server) && ProperServer(server)
      modifies this`connected, this`helloResult, this`requestSequence, this`operations
      ensures Valid(server) && operations >= old(operations)
      ensures r.Agreed? ==> helloResult == Some(r.hello) && r.hello == Capabilities(server.offer)
      ensures r.Mismatch? || r.Unanswered? ==> !connected && helloResult.None?
      ensures r.Unanswered? <==> !Unfailing(faults, old(operations), operations)
      ensures r == Unanswered(NoConnection) ==> !old(connected)
      ensures old(helloResult).Some? ==>
                r.Agreed? && requestSequence == old(requestSequence) && operations == old(operations)
      ensures old(helloResult).None? ==>
                && requestSequence == old(requestSequence) + 1
                && (!r.Unanswered? ==> r == HelloOutcome(server, old(requestSequence) + 1, maxResponseBytes))
    {
      if helloResult.Some? {
        return Agreed(helloResult.value);
      }
      r := Greet(server);
    }

    /** `_control`, once there is a hello. */
    method Submit(call: Call, server: Server) returns (r: ControlReply, ghost n: nat)
      requires connected && helloResult == Some(Capabilities(server.offer))
      requires WellFormedCall(call) && ProperServer(server)
      modifies this
      ensures n == requestSequence && old(requestSequence) <= n <= old(requestSequence) + 1
      ensures operations >= old(operations)
      ensures r.Refused? <==> Sent(call, Capabilities(server.offer), n).None?
      ensures r.Lost? <==> !Unfailing(faults, old(operations), operations)
      ensures r.Replied? ==> r.reply == ContractReply(call, server, n, maxResponseBytes, instant)
      ensures r.Lost? || r == Replied(ProtocolError) ==> !connected && helloResult.None?
      ensures r.Lost? ==> r.trouble == ConnectionBroken
      ensures r.Refused? || (r.Replied? && r.reply != ProtocolError) ==>
                connected && helloResult == Some(Capabilities(server.offer))
    {
      n := requestSequence;
      if ClientParams(call, helloResult.value).None? {
        return Refused, n;
      }
      requestSequence := requestSequence + 1;
      n := requestSequence;
      if Sent(call, helloResult.value, requestSequence).None? {
        return Refused, n;
      }
      var exchanged;
      exchanged, operations :=
        Converse(call, server, requestSequence, maxResponseBytes, instant, faults, operations);
      match exchanged
      case Troubled(trouble) =>
        Disconnect();
        r := Lost(trouble);
      case Answered(reply) =>
        if reply == ProtocolError {
          Disconnect();
        }
        r := Replied(reply);
    }

    /**
      A scanner control. A call whose arguments are wrong is refused before anything is sent. If
      there is no hello on the connection yet, the client and the server have to agree on one.
      After that the client refuses exactly the calls its other checks exclude. The call is lost
      exactly if an operation on the socket fails; else the reply is the one of the contract. On a
      mismatch or a lost connection, at either stage, the client is disconnected.
     */
    method Control(call: Call, server: Server) returns (r: ControlReply, ghost n: nat, ghost hello: Negotiation)
      requires Valid(server) && WellFormedCall(call) && ProperServer(server)
      modifies this
      ensures Valid(server) && n == requestSequence >= old(requestSequence) && operations >= old(operations)
      ensures !LocallyValid(call) ==>
                r.Refused? && requestSequence == old(requestSequence) && operations == old(operations)
      ensures r.Lost? <==> !Unfailing(faults, old(operations), operations)
      ensures r == Lost(NoConnection) ==> !old(connected)
      ensures LocallyValid(call) && old(helloResult).Some? ==> hello.Agreed?
      ensures LocallyValid(call) && old(helloResult).None? && !hello.Unanswered? ==>
                hello == HelloOutcome(server, old(requestSequence) + 1, maxResponseBytes)
      ensures LocallyValid(call) && !r.Lost? ==>
                match hello
                case Agreed(_) =>
                  if Sent(call, Capabilities(server.offer), n).None? then r.Refused?
                  else r == Replied(ContractReply(call, server, n, maxResponseBytes, instant))
                case Unsendable => r.Refused?
                case Mismatch => r == Replied(ProtocolError)
                case Unanswered(_) => false
      ensures r.Lost? || r == Replied(ProtocolError) ==> !connected && helloResult.None?
      ensures r.Replied? && r.reply != ProtocolError ==>
                connected && helloResult == Some(Capabilities(server.offer))
    {
      if !LocallyValid(call) {
        return Refused, requestSequence, Unsendable;
      }
      var negotiation := Negotiate(server);
      n, hello := requestSequence, negotiation;
      match negotiation
      case Agreed(_) => r, n := Submit(call, server);
      case Unsendable => r := Refused;
      case Mismatch => r := Replied(ProtocolError);
      case Unanswered(trouble) => r := Lost(trouble);
    }
  }
}
