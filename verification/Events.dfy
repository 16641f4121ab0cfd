/**
  Event envelopes: `DaemonEvent`, its line of JSON, and decoding that line at the client
  (`daemon_events.py`, `daemon_event_client.py`).
 */
module Events {
  import opened Prelude
  import opened Texts
  import opened JsonText
  import opened Json
  import opened Payloads

  const PROTOCOL: Text := Lit("sdsctl.daemon.events")
  const VERSION := 1
  const SNAPSHOT: Text := Lit("stream.snapshot")

  /** An event; its protocol and version are the only supported ones. A time is its ISO 8601 text. */
  datatype Event = Event(sequence: nat, observedAt: Text, kind: Text, payload: map<Text, Json>) {
    ghost predicate Valid() {
      && AwareTimestamp(observedAt)
      && ValidKind(kind)
      && WellFormed(Object(payload))
    }
  }

  /** Not empty, not padded, no control characters. */
  predicate ValidKind(kind: Text) {
    && NotPadded(kind)
    && forall i :: 0 <= i < |kind| ==> kind[i] >= 32
  }

  predicate IsDecimal(c: CodePoint) {
    48 <= c <= 57
  }

  /** `YYYY-MM-DDTHH:MM:SS`, with an optional fraction, and a UTC offset: the text `isoformat` writes. */
  predicate AwareTimestamp(t: Text) {
    && |t| >= 25
    && t[4] == 45 && t[7] == 45 && t[10] == 84 && t[13] == 58 && t[16] == 58
    && (t[|t| - 6] == 43 || t[|t| - 6] == 45) && t[|t| - 3] == 58
    && forall i :: 0 <= i < |t| ==> IsDecimal(t[i]) || t[i] == 43 || 45 <= t[i] <= 46 || t[i] == 58 || t[i] == 84
  }

  /** `DaemonEvent.__post_init__` on the values of the right types. */
  function MakeEvent(sequence: int, observedAt: Text, kind: Text, payload: Value): (r: Option<Event>)
    ensures r.Some? <==>
              && sequence >= 0 && AwareTimestamp(observedAt) && ValidKind(kind)
              && (payload.PyDict? || payload.PyMappingProxy?) && Freeze(payload).Some?
    ensures r.Some? ==>
              && r.value.sequence == sequence && r.value.kind == kind && r.value.observedAt == observedAt
              && Freeze(payload) == Some(Object(r.value.payload))
    ensures r.Some? && PythonFloats(payload) ==> r.value.Valid()
  {
    if sequence < 0 || !AwareTimestamp(observedAt) || !ValidKind(kind) then None
    else if !payload.PyDict? && !payload.PyMappingProxy? then None
    else
      match Freeze(payload)
      case Some(Object(fields)) =>
        assert PythonFloats(payload) ==> WellFormed(Object(fields)) by {
          if PythonFloats(payload) {
            FrozenIsWellFormed(payload);
          }
        }
        Some(Event(sequence, observedAt, kind, fields))
      case _ => None
  }

  const K_KIND: Text := Lit("kind")
  const K_OBSERVED_AT: Text := Lit("observed_at")
  const K_PAYLOAD: Text := Lit("payload")
  const K_PROTOCOL: Text := Lit("protocol")
  const K_SEQUENCE: Text := Lit("sequence")
  const K_VERSION: Text := Lit("version")

  /** `as_dict` */
  function Envelope(e: Event): Json {
    Object(map[
      K_PROTOCOL := String(PROTOCOL),
      K_VERSION := Integer(VERSION),
      K_SEQUENCE := Integer(e.sequence),
      K_OBSERVED_AT := String(e.observedAt),
      K_KIND := String(e.kind),
      K_PAYLOAD := Object(e.payload)])
  }

  /** `to_json_line` */
  function Line(e: Event): (line: Bytes)
    ensures line != []
  {
    Dumps(Envelope(e)) + [NEWLINE]
  }

  /** `_aware_datetime`: a `Z` stands for a zero offset. */
  function ParseTimestamp(v: Json): Option<Text> {
    match v
    case String(t) =>
      var zulu := t != [] && (t[|t| - 1] == 90 || t[|t| - 1] == 122);
      var normalized := if zulu then t[..|t| - 1] + Lit("+00:00") else t;
      if AwareTimestamp(normalized) then Some(normalized) else None
    case _ => None
  }

  /** `_decode_event`: every failure is a protocol error. */
  function Decode(frame: Bytes): Option<Event> {
    match Loads(frame)
    case Some(Object(fields)) => DecodeFields(fields)
    case _ => None
  }

  function DecodeFields(fields: map<Text, Json>): Option<Event> {
    match (Lookup(fields, K_PROTOCOL), Lookup(fields, K_VERSION), Lookup(fields, K_SEQUENCE),
           Lookup(fields, K_OBSERVED_AT), Lookup(fields, K_KIND), Lookup(fields, K_PAYLOAD))
    case (Some(protocol), Some(version), Some(sequence), Some(observedAt), Some(kind), Some(payload)) =>
      DecodeValues(protocol, version, sequence, observedAt, kind, payload)
    case _ => None
  }

  /** The timestamp is checked first, then the constructor checks the rest. */
  function DecodeValues(protocol: Json, version: Json, sequence: Json, observedAt: Json, kind: Json,
      payload: Json): Option<Event> {
    match (ParseTimestamp(observedAt), sequence, kind, payload)
    case (Some(time), Integer(i), String(k), Object(_)) =>
      if protocol == String(PROTOCOL) && version == Integer(VERSION) then MakeEvent(i, time, k, Thaw(payload)) else None
    case _ => None
  }

  /** A text that stands for this time: the same text, or one that writes a zero offset as Z. */
  predicate WritesTime(t: Text, time: Text) {
    t == time || (t != [] && (t[|t| - 1] == 90 || t[|t| - 1] == 122) && time == t[..|t| - 1] + Lit("+00:00"))
  }

  /** These are the fields of this event, in the protocol and version of the client. */
  ghost predicate IsEnvelope(fields: map<Text, Json>, e: Event) {
    && Lookup(fields, K_PROTOCOL) == Some(String(PROTOCOL)) && Lookup(fields, K_VERSION) == Some(Integer(VERSION))
    && Lookup(fields, K_SEQUENCE) == Some(Integer(e.sequence))
    && Lookup(fields, K_KIND) == Some(String(e.kind)) && ValidKind(e.kind)
    && Lookup(fields, K_PAYLOAD) == Some(Object(e.payload))
    && K_OBSERVED_AT in fields && fields[K_OBSERVED_AT].String?
    && WritesTime(fields[K_OBSERVED_AT].t, e.observedAt) && AwareTimestamp(e.observedAt)
  }

  lemma ParsesWrittenTime(t: Text, time: Text)
    ensures ParseTimestamp(String(t)) == Some(time) <==> WritesTime(t, time) && AwareTimestamp(time)
  {
  }

  lemma FieldsDecodeIffEnvelope(fields: map<Text, Json>, e: Event)
    ensures DecodeFields(fields) == Some(e) <==> IsEnvelope(fields, e)
  {
    if K_OBSERVED_AT in fields && fields[K_OBSERVED_AT].String? {
      ParsesWrittenTime(fields[K_OBSERVED_AT].t, e.observedAt);
    }
    if K_PAYLOAD in fields && fields[K_PAYLOAD].Object? {
      FreezeThaw(fields[K_PAYLOAD]);
    }
  }

  /** A client decodes a frame to an event exactly if it is the JSON of that event's envelope; all else it refuses. */
  lemma DecodesIffEnvelope(frame: Bytes, e: Event)
    ensures Decode(frame) == Some(e) <==> exists fields :: Loads(frame) == Some(Object(fields)) && IsEnvelope(fields, e)
  {
    match Loads(frame)
    case Some(Object(fields)) => FieldsDecodeIffEnvelope(fields, e);
    case _ =>
  }

  /** The event a line decodes to: its strings with surrogate pairs joined. */
  function RereadEvent(e: Event): Event {
    Event(e.sequence, e.observedAt, Joined(e.kind), RereadMembers(Object(e.payload), SortedKeys(e.payload.Keys)))
  }

  ghost predicate CleanEvent(e: Event) {
    NoSurrogatePair(e.kind) && Clean(Object(e.payload))
  }

  lemma EnvelopeKeysDistinct()
    ensures |{K_PROTOCOL, K_VERSION, K_SEQUENCE, K_OBSERVED_AT, K_KIND, K_PAYLOAD}| == 6
    ensures K_PROTOCOL != K_SEQUENCE && K_VERSION != K_PAYLOAD
    ensures |K_KIND| == 4 && |K_OBSERVED_AT| == 11 && |K_PAYLOAD| == |K_VERSION| == 7
    ensures |K_PROTOCOL| == |K_SEQUENCE| == 8
  {
    assert K_PROTOCOL[0] != K_SEQUENCE[0];
    assert K_VERSION[0] != K_PAYLOAD[0];
  }

  lemma LiteralIsClean(s: string)
    requires forall i :: 0 <= i < |s| ==> s[i] as int < 128
    ensures NoSurrogatePair(Lit(s)) && Joined(Lit(s)) == Lit(s)
  {
    JoinedIffNoPair(Lit(s));
  }

  /** A joined text has only characters of its own and characters joined from pairs. */
  lemma {:induction false} JoinedContent(t: Text)
    ensures forall i :: 0 <= i < |Joined(t)| ==> Joined(t)[i] >= 0x1_0000 || Joined(t)[i] in t
    decreases |t|
  {
    if |t| >= 2 && HighSurrogate(t[0]) && LowSurrogate(t[1]) {
      JoinedContent(t[2..]);
      assert forall x | x in t[2..] :: x in t;
    } else if t != [] {
      JoinedContent(t[1..]);
      assert forall x | x in t[1..] :: x in t;
    }
  }

  lemma {:induction false} JoinedEnds(t: Text)
    requires t != []
    ensures Joined(t) != []
    ensures Joined(t)[0] >= 0x1_0000 || Joined(t)[0] == t[0]
    ensures Joined(t)[|Joined(t)| - 1] >= 0x1_0000 || Joined(t)[|Joined(t)| - 1] == t[|t| - 1]
    decreases |t|
  {
    if |t| >= 2 && HighSurrogate(t[0]) && LowSurrogate(t[1]) {
      if |t| > 2 {
        JoinedEnds(t[2..]);
      }
    } else if |t| > 1 {
      JoinedEnds(t[1..]);
    }
  }

  /** Joining keeps a kind valid. */
  lemma JoinedKindValid(t: Text)
    requires t != []
    ensures Joined(t) != []
    ensures forall i :: 0 <= i < |Joined(t)| ==> Joined(t)[i] >= 0x1_0000 || Joined(t)[i] in t
    ensures Joined(t)[0] >= 0x1_0000 || Joined(t)[0] == t[0]
    ensures Joined(t)[|Joined(t)| - 1] >= 0x1_0000 || Joined(t)[|Joined(t)| - 1] == t[|t| - 1]
  {
    JoinedContent(t);
    JoinedEnds(t);
  }

  lemma AsciiIsClean(t: Text)
    requires forall i :: 0 <= i < |t| ==> t[i] < 128
    ensures Joined(t) == t
  {
    JoinedIffNoPair(t);
  }

  lemma TimestampIsAscii(t: Text)
    requires AwareTimestamp(t)
    ensures t != [] && forall i :: 0 <= i < |t| ==> t[i] < 90
  {
  }

  lemma TimestampParses(t: Text)
    requires AwareTimestamp(t) && t != [] && t[|t| - 1] < 90
    ensures ParseTimestamp(String(t)) == Some(t)
  {
  }

  lemma TimestampIsClean(t: Text)
    requires AwareTimestamp(t)
    ensures Joined(t) == t && ParseTimestamp(String(t)) == Some(t)
  {
    TimestampIsAscii(t);
    AsciiIsClean(t);
    TimestampParses(t);
  }

  ghost predicate EnvelopeKey(k: Text) {
    k == K_PROTOCOL || k == K_VERSION || k == K_SEQUENCE || k == K_OBSERVED_AT || k == K_KIND || k == K_PAYLOAD
  }

  lemma EnvelopeKeyIsClean(k: Text)
    requires EnvelopeKey(k)
    ensures NoSurrogatePair(k)
  {
    if k == K_PROTOCOL {
      LiteralIsClean("protocol");
    } else if k == K_VERSION {
      LiteralIsClean("version");
    } else if k == K_SEQUENCE {
      LiteralIsClean("sequence");
    } else if k == K_OBSERVED_AT {
      LiteralIsClean("observed_at");
    } else if k == K_KIND {
      LiteralIsClean("kind");
    } else {
      LiteralIsClean("payload");
    }
  }

  lemma EnvelopeFields(e: Event)
    ensures forall k :: k in Envelope(e).fields <==> EnvelopeKey(k)
    ensures Envelope(e).fields[K_PROTOCOL] == String(PROTOCOL)
    ensures Envelope(e).fields[K_VERSION] == Integer(VERSION)
    ensures Envelope(e).fields[K_SEQUENCE] == Integer(e.sequence)
    ensures Envelope(e).fields[K_OBSERVED_AT] == String(e.observedAt)
    ensures Envelope(e).fields[K_KIND] == String(e.kind)
    ensures Envelope(e).fields[K_PAYLOAD] == Object(e.payload)
  {
    EnvelopeKeysDistinct();
  }

  lemma EnvelopeWellFormed(e: Event)
    requires e.Valid()
    ensures WellFormed(Envelope(e))
  {
    EnvelopeKeysDistinct();
  }

  /** The envelope comes back field by field. */
  lemma EnvelopeLoads(e: Event)
    requires e.Valid()
    ensures Loads(Dumps(Envelope(e))) == Some(Object(RereadFields(Envelope(e).fields)))
  {
    EnvelopeWellFormed(e);
    EnvelopeFields(e);
    forall k | k in Envelope(e).fields ensures NoSurrogatePair(k) {
      EnvelopeKeyIsClean(k);
    }
    LoadsFields(Envelope(e).fields);
  }

  /** Decoding an encoded event gives the event, its surrogate pairs joined. */
  lemma DecodeEncode(e: Event)
    requires e.Valid()
    ensures Decode(Dumps(Envelope(e))) == Some(RereadEvent(e))
  {
    EnvelopeLoads(e);
    EnvelopeFields(e);
    FieldsDecode(e, RereadFields(Envelope(e).fields));
  }

  lemma FieldsDecode(e: Event, fields: map<Text, Json>)
    requires e.Valid()
    requires Lookup(fields, K_PROTOCOL) == Some(Reread(String(PROTOCOL)))
    requires Lookup(fields, K_VERSION) == Some(Integer(VERSION))
    requires Lookup(fields, K_SEQUENCE) == Some(Integer(e.sequence))
    requires Lookup(fields, K_OBSERVED_AT) == Some(Reread(String(e.observedAt)))
    requires Lookup(fields, K_KIND) == Some(String(Joined(e.kind)))
    requires Lookup(fields, K_PAYLOAD) == Some(Reread(Object(e.payload)))
    ensures DecodeFields(fields) == Some(RereadEvent(e))
  {
    ValuesDecode(e);
  }

  lemma ValuesDecode(e: Event)
    requires e.Valid()
    ensures DecodeValues(Reread(String(PROTOCOL)), Integer(VERSION), Integer(e.sequence), Reread(String(e.observedAt)),
                         String(Joined(e.kind)), Reread(Object(e.payload)))
          == Some(RereadEvent(e))
  {
    LiteralIsClean("sdsctl.daemon.events");
    assert Reread(String(PROTOCOL)) == String(PROTOCOL);
    TimestampIsClean(e.observedAt);
    RereadEventMade(e);
  }

  lemma RereadEventMade(e: Event)
    requires e.Valid()
    ensures MakeEvent(e.sequence, e.observedAt, Joined(e.kind), Thaw(Reread(Object(e.payload)))) == Some(RereadEvent(e))
  {
    JoinedKindValid(e.kind);
    FreezeThaw(Reread(Object(e.payload)));
  }

  /** The decoded event equals the encoded one exactly when no string holds a surrogate pair. */
  lemma DecodedEqualIffClean(e: Event)
    requires e.Valid()
    ensures Decode(Dumps(Envelope(e))) == Some(e) <==> CleanEvent(e)
  {
    DecodeEncode(e);
    JoinedIffNoPair(e.kind);
    RereadIffClean(Object(e.payload));
  }

  /** Any valid event, with a surrogate pair after its kind, is a valid event that decodes to another one. */
  lemma PairIsMisread(e: Event)
    requires e.Valid()
    ensures var pair := e.(kind := e.kind + [0xD83D, 0xDE00]);
            pair.Valid() && !CleanEvent(pair) && Decode(Dumps(Envelope(pair))) != Some(pair)
  {
    var kind := e.kind + [0xD83D, 0xDE00];
    var pair := e.(kind := kind);
    assert HighSurrogate(kind[|e.kind|]) && LowSurrogate(kind[|e.kind| + 1]);
    DecodedEqualIffClean(pair);
  }

  /** There is such an event. */
  lemma MisreadEvent() returns (e: Event)
    ensures e.Valid() && Decode(Dumps(Envelope(e))) != Some(e)
  {
    var time := Lit("2024-01-01T00:00:00+00:00");
    assert |time| == 25 && AwareTimestamp(time);
    var plain := Event(1, time, Lit("radio.state"), map[]);
    assert plain.Valid();
    PairIsMisread(plain);
    e := plain.(kind := plain.kind + [0xD83D, 0xDE00]);
  }

  /** A line ends in its only newline. */
  lemma LineHasOneNewline(e: Event)
    requires e.Valid()
    ensures NEWLINE !in Dumps(Envelope(e))
  {
    EnvelopeWellFormed(e);
    PrintHasNoNewline(Envelope(e), []);
  }
}
