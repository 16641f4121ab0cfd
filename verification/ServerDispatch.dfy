/**
  Which frames make the API server ask its runtime for a control (`daemon_api.py`), which
  responses a client accepts (`daemon_client.py`), and that error codes are told apart.
 */
module ServerDispatch {
  import opened Prelude
  import opened Texts
  import opened JsonText
  import opened Json
  import opened ControlParameters
  import opened ApiHello
  import opened ControlContract
  import ControlMeaning

  /** The envelope of a request for a scanner control, in the protocol and version of the server. */
  ghost predicate IsControlRequest(fields: map<Text, Json>, id: Text, op: Operation, params: Params) {
    && fields.Keys <= {K_PROTOCOL, K_VERSION, K_REQUEST_ID, K_OPERATION, K_PARAMS}
    && Lookup(fields, K_PROTOCOL) == Some(String(PROTOCOL)) && Lookup(fields, K_VERSION) == Some(Integer(VERSION))
    && Lookup(fields, K_REQUEST_ID) == Some(String(id)) && ValidRequestId(id)
    && Lookup(fields, K_OPERATION) == Some(String(OperationName(op)))
    && (if K_PARAMS in fields then fields[K_PARAMS] == Object(params) else params == map[])
  }

  /** A frame within the limit that asks for a control the server offers. */
  ghost predicate Requests(
      server: Server, frame: Bytes, fields: map<Text, Json>, id: Text, op: Operation, params: Params, control: Control)
  {
    && |frame| <= server.maxRequestBytes && Loads(frame) == Some(Object(fields))
    && IsControlRequest(fields, id, op, params)
    && op in Controls(server.offer)
    && ControlMeaning.ParamsMean(op, params, control)
  }

  lemma ControlRequestParses(fields: map<Text, Json>, id: Text, op: Operation, params: Params)
    ensures IsControlRequest(fields, id, op, params)
        ==> FromPayload(Object(fields)) == Ok((PROTOCOL, VERSION, Request(id, OperationName(op), params)))
  {
    NameIsPlain(Scanner(op));
    PlainNameStrips(OperationName(op));
    assert |PROTOCOL| == 13;
  }

  lemma ParsedIsControlRequest(fields: map<Text, Json>, id: Text, op: Operation, params: Params)
    requires FromPayload(Object(fields)) == Ok((PROTOCOL, VERSION, Request(id, OperationName(op), params)))
    ensures IsControlRequest(fields, id, op, params)
  {
  }

  /** Such a frame is answered, under its identifier, by what the runtime makes of that control. */
  lemma RequestIsDispatched(
      server: Server, frame: Bytes, fields: map<Text, Json>, id: Text, op: Operation, params: Params, control: Control)
    requires Requests(server, frame, fields, id, op, params, control)
    ensures Answer(server, frame) == Dispatched(id, server.runtime(control))
  {
    ControlRequestParses(fields, id, op, params);
    ControlMeaning.ServerAsksIffMeant(op, params, control);
    ControlCarried(server, id, op, params, control);
  }

  /** On any other frame the answer does not depend on the runtime, so it is not asked for anything. */
  lemma OnlyRequestsAreDispatched(server: Server, frame: Bytes, runtime: Control -> Outcome)
    returns (fields: map<Text, Json>, id: Text, op: Operation, params: Params, control: Control)
    requires Answer(server, frame) != Answer(server.(runtime := runtime), frame)
    ensures Requests(server, frame, fields, id, op, params, control)
    ensures server.runtime(control) != runtime(control)
  {
    fields := Loads(frame).value.fields;
    var request := FromPayload(Object(fields)).value.2;
    id, params := request.id, request.params;
    op := Named(request.operation).value.control;
    control := Dispatch(op, params);
    ParsedIsControlRequest(fields, id, op, params);
    ControlMeaning.ServerAsksIffMeant(op, params, control);
  }

  /** The envelope of any request with all its fields in order, whatever it asks for. */
  ghost predicate IsRequest(
      fields: map<Text, Json>, protocol: Text, version: int, id: Text, operation: Text, params: Params)
  {
    && fields.Keys <= {K_PROTOCOL, K_VERSION, K_REQUEST_ID, K_OPERATION, K_PARAMS}
    && Lookup(fields, K_PROTOCOL) == Some(String(protocol)) && protocol != []
    && Lookup(fields, K_VERSION) == Some(Integer(version))
    && Lookup(fields, K_REQUEST_ID) == Some(String(id)) && ValidRequestId(id)
    && Lookup(fields, K_OPERATION) == Some(String(operation)) && Strip(operation) != []
    && (if K_PARAMS in fields then fields[K_PARAMS] == Object(params) else params == map[])
  }

  lemma RequestParses(
      fields: map<Text, Json>, protocol: Text, version: int, id: Text, operation: Text, params: Params)
    requires IsRequest(fields, protocol, version, id, operation, params)
    ensures FromPayload(Object(fields)) == Ok((protocol, version, Request(id, operation, params)))
  {
  }

  lemma CarriedSaysWhy(server: Server, id: Text, operation: Text, params: Params)
    ensures (forall o :: ApiName(o) != operation) ==>
              Carried(server, Request(id, operation, params)) == Failure(Some(id), UnknownOperation)
    ensures forall op | OperationName(op) == operation ::
              Carried(server, Request(id, operation, params))
                == if op !in Controls(server.offer) then Failure(Some(id), UnsupportedOperation)
                   else if !ValidParams(op, params) then Failure(Some(id), InvalidParameters)
                   else Dispatched(id, server.runtime(Dispatch(op, params)))
  {
    forall op | OperationName(op) == operation
      ensures Named(operation) == Some(Scanner(op))
      ensures Offered(Scanner(op), server.offer) <==> op in Controls(server.offer)
    {
      NamedByItsName(Scanner(op));
    }
  }

  /** A request that is refused is answered under its own identifier, by the code of its first fault. */
  lemma RefusalSaysWhy(
      server: Server, fields: map<Text, Json>, protocol: Text, version: int, id: Text, operation: Text, params: Params)
    requires IsRequest(fields, protocol, version, id, operation, params)
    ensures Handle(server, Object(fields))
          == if protocol != PROTOCOL then Failure(Some(id), UnsupportedProtocol)
             else if version != VERSION then Failure(Some(id), UnsupportedVersion)
             else Carried(server, Request(id, operation, params))
  {
    RequestParses(fields, protocol, version, id, operation, params);
  }

  /** Parameters are valid exactly if they mean some control. */
  lemma ValidIffMeant(op: Operation, params: Params)
    ensures ValidParams(op, params) <==> exists control :: ControlMeaning.ParamsMean(op, params, control)
  {
    if ValidParams(op, params) {
      ControlMeaning.ServerAsksIffMeant(op, params, Dispatch(op, params));
    }
    forall control | ControlMeaning.ParamsMean(op, params, control) ensures ValidParams(op, params) {
      ControlMeaning.ServerAsksIffMeant(op, params, control);
    }
  }

  /** Any other payload is answered as an invalid request, under its identifier if that is valid. */
  lemma MalformedIsInvalid(server: Server, payload: Json)
    requires forall protocol, version, id, operation, params ::
               payload.Object? ==> !IsRequest(payload.fields, protocol, version, id, operation, params)
    ensures Handle(server, payload).body == Failure(None, InvalidRequest).body
    ensures match Handle(server, payload).id
            case Some(id) =>
              payload.Object? && ValidRequestId(id) && Lookup(payload.fields, K_REQUEST_ID) == Some(String(id))
            case None => payload.Object? ==> IdForError(payload.fields).None?
  {
    if FromPayload(payload).Ok? {
      var (protocol, version, request) := FromPayload(payload).value;
      assert IsRequest(payload.fields, protocol, version, request.id, request.operation, request.params);
    }
  }

  // What a client accepts

  /** The envelope of a response to the request with this identifier, with a result or else an error. */
  ghost predicate IsResponse(fields: map<Text, Json>, id: Text, ok: bool) {
    && Lookup(fields, K_PROTOCOL) == Some(String(PROTOCOL)) && Lookup(fields, K_VERSION) == Some(Integer(VERSION))
    && Lookup(fields, K_REQUEST_ID) == Some(String(id)) && Lookup(fields, K_OK) == Some(Boolean(ok))
    && (if ok then K_ERROR else K_RESULT) !in fields
  }

  /** A result is taken from exactly the responses that carry one for this request. */
  lemma CompletedIff(frame: Bytes, id: Text, result: map<Text, Json>)
    ensures DecodeResponse(frame, id) == Completed(result) <==>
              exists fields ::
                && Loads(frame) == Some(Object(fields)) && IsResponse(fields, id, true)
                && Lookup(fields, K_RESULT) == Some(Object(result))
  {
  }

  /** A typed error is taken from exactly those that carry one with a code and a message. */
  lemma RequestErrorIff(frame: Bytes, id: Text, code: Text, message: Text)
    ensures DecodeResponse(frame, id) == RequestError(code, message) <==>
              code != [] && message != [] && exists fields, error ::
                && Loads(frame) == Some(Object(fields)) && IsResponse(fields, id, false)
                && Lookup(fields, K_ERROR) == Some(Object(error))
                && Lookup(error, K_CODE) == Some(String(code)) && Lookup(error, K_MESSAGE) == Some(String(message))
  {
  }

  // Error codes

  /** What tells the name of an error code from the others: its length and first character. */
  function CodeShape(code: ErrorCode): (nat, int) {
    match code
    case InvalidRequest => (15, 105)
    case UnsupportedProtocol => (20, 117)
    case UnsupportedVersion => (19, 117)
    case UnknownOperation => (17, 117)
    case InvalidParameters => (18, 105)
    case ControlBusy => (12, 99)
    case ControlUnavailable => (19, 99)
    case UnsupportedOperation => (21, 117)
    case ControlTimeout => (15, 99)
    case ControlRejected => (16, 99)
    case ControlFailed => (14, 99)
    case RequestTooLarge => (17, 114)
    case InternalError => (14, 105)
  }

  lemma CodeHasShape(code: ErrorCode)
    ensures (|CodeName(code)|, CodeName(code)[0] as int) == CodeShape(code)
  {
  }

  /** Different error codes have different names, so a client can tell them apart. */
  lemma CodesDiffer(a: ErrorCode, b: ErrorCode)
    requires CodeName(a) == CodeName(b)
    ensures a == b
  {
    CodeHasShape(a);
    CodeHasShape(b);
  }
}
