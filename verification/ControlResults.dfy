/**
  The result of a scanner control: what the runtime returns (`daemon_runtime.py`), and what a
  client checks of it after JSON (`daemon_client.py`).
 */
module ControlResults {
  import opened Prelude
  import opened Texts
  import opened JsonText
  import opened Json
  import opened ControlParameters
  import opened ApiHello
  import opened RuntimeSnapshots
  import Events

  const R_SEQUENCE: Text := Lit("sequence")
  const R_OPERATION: Text := Lit("operation")
  const R_STARTED_AT: Text := Lit("started_at")
  const R_COMPLETED_AT: Text := Lit("completed_at")
  const R_SNAPSHOT: Text := Lit("snapshot")

  /** What Python compares of two aware times: the point in time the text of each stands for. */
  type Instants = Text -> int

  /** `_aware_datetime` of a field of the result, as text. */
  function TimeAt(result: map<Text, Json>, name: Text): Option<Text> {
    if name in result then Events.ParseTimestamp(result[name]) else None
  }

  predicate TimesInOrder(started: Option<Text>, completed: Option<Text>, instant: Instants) {
    started.Some? && completed.Some? && instant(started.value) <= instant(completed.value)
  }

  /** `_validate_control_result` */
  predicate ValidControlResult(result: map<Text, Json>, op: Operation, instant: Instants) {
    && R_SEQUENCE in result && PositiveInteger(result[R_SEQUENCE])
    && Lookup(result, R_OPERATION) == Some(String(OperationName(op)))
    && TimesInOrder(TimeAt(result, R_STARTED_AT), TimeAt(result, R_COMPLETED_AT), instant)
    && R_SNAPSHOT in result && result[R_SNAPSHOT].Object? && ValidRuntimeSnapshot(result[R_SNAPSHOT].fields)
  }

  /** `DaemonControlResult`; the snapshot is the dictionary the runtime makes of its own. */
  datatype ControlResult = ControlResult(
    sequence: int, operation: Operation, startedAt: Text, completedAt: Text, snapshot: map<Text, Json>)
  {
    /** What its constructor demands, of a snapshot with ASCII keys and the fields clients look for. */
    ghost predicate Valid(instant: Instants) {
      && sequence > 0
      && Events.AwareTimestamp(startedAt) && Events.AwareTimestamp(completedAt)
      && instant(startedAt) <= instant(completedAt)
      && ValidRuntimeSnapshot(snapshot) && WellFormed(Object(snapshot))
      && (forall k | k in snapshot :: NoSurrogatePair(k))
    }
  }

  function ResultFields(sequence: Json, operation: Json, startedAt: Json, completedAt: Json, snapshot: Json):
    map<Text, Json>
  {
    map[R_SEQUENCE := sequence, R_OPERATION := operation, R_STARTED_AT := startedAt, R_COMPLETED_AT := completedAt,
        R_SNAPSHOT := snapshot]
  }

  /** `as_dict` */
  function AsDict(c: ControlResult): map<Text, Json> {
    ResultFields(Integer(c.sequence), String(OperationName(c.operation)), String(c.startedAt), String(c.completedAt),
                 Object(c.snapshot))
  }

  lemma ResultKeysDiffer()
    ensures |R_SEQUENCE| == |R_SNAPSHOT| == 8 && R_SEQUENCE[1] == 101 && R_SNAPSHOT[1] == 110
    ensures |R_OPERATION| == 9 && |R_STARTED_AT| == 10 && |R_COMPLETED_AT| == 12
  {
  }

  lemma ResultFieldsAt(a: Json, b: Json, c: Json, d: Json, e: Json)
    ensures var r := ResultFields(a, b, c, d, e);
            && Lookup(r, R_SEQUENCE) == Some(a) && Lookup(r, R_OPERATION) == Some(b)
            && Lookup(r, R_STARTED_AT) == Some(c)
            && Lookup(r, R_COMPLETED_AT) == Some(d) && Lookup(r, R_SNAPSHOT) == Some(e)
            && r.Keys == {R_SEQUENCE, R_OPERATION, R_STARTED_AT, R_COMPLETED_AT, R_SNAPSHOT}
  {
    ResultKeysDiffer();
  }

  ghost predicate ResultKey(k: Text) {
    k == R_SEQUENCE || k == R_OPERATION || k == R_STARTED_AT || k == R_COMPLETED_AT || k == R_SNAPSHOT
  }

  lemma ResultKeyIsClean(k: Text)
    requires ResultKey(k)
    ensures NoSurrogatePair(k)
  {
    ResultKeyIsAscii(k);
    Events.AsciiIsClean(k);
    JoinedIffNoPair(k);
  }

  lemma ResultKeyIsAscii(k: Text)
    requires ResultKey(k)
    ensures forall i | 0 <= i < |k| :: k[i] < 128
  {
  }

  lemma ResultReread(a: Json, b: Json, c: Json, d: Json, e: Json)
    ensures RereadFields(ResultFields(a, b, c, d, e))
          == ResultFields(Reread(a), Reread(b), Reread(c), Reread(d), Reread(e))
  {
    var r, s := RereadFields(ResultFields(a, b, c, d, e)),
                ResultFields(Reread(a), Reread(b), Reread(c), Reread(d), Reread(e));
    ResultFieldsAt(a, b, c, d, e);
    ResultFieldsAt(Reread(a), Reread(b), Reread(c), Reread(d), Reread(e));
    assert r.Keys == s.Keys;
  }

  /** A result of the runtime is a JSON tree whose keys come back as they are. */
  lemma ResultIsJson(c: ControlResult, instant: Instants)
    requires c.Valid(instant)
    ensures WellFormed(Object(AsDict(c)))
    ensures Reread(Object(AsDict(c))) == Object(RereadFields(AsDict(c)))
  {
    var fields := AsDict(c);
    ResultFieldsAt(Integer(c.sequence), String(OperationName(c.operation)), String(c.startedAt), String(c.completedAt),
                   Object(c.snapshot));
    forall k | k in fields ensures NoSurrogatePair(k) && WellFormed(fields[k]) {
      ResultKeyIsClean(k);
    }
    LoadsFields(fields);
  }

  lemma DictReread(c: ControlResult)
    requires Events.AwareTimestamp(c.startedAt) && Events.AwareTimestamp(c.completedAt)
    requires WellFormed(Object(c.snapshot)) && forall k | k in c.snapshot :: NoSurrogatePair(k)
    ensures RereadFields(AsDict(c))
          == ResultFields(Integer(c.sequence), String(OperationName(c.operation)), String(c.startedAt),
                         String(c.completedAt), Object(RereadFields(c.snapshot)))
  {
    ResultReread(Integer(c.sequence), String(OperationName(c.operation)), String(c.startedAt), String(c.completedAt),
                 Object(c.snapshot));
    StringReread(OperationName(c.operation), Scanner(c.operation));
    TimeReread(c.startedAt);
    TimeReread(c.completedAt);
    LoadsFields(c.snapshot);
  }

  lemma StringReread(name: Text, o: ApiOperation)
    requires name == ApiName(o)
    ensures Reread(String(name)) == String(name)
  {
    NameIsClean(o);
  }

  lemma TimeReread(t: Text)
    requires Events.AwareTimestamp(t)
    ensures Reread(String(t)) == String(t)
  {
    Events.TimestampIsClean(t);
  }

  /** Every result the runtime makes passes the client's check, after JSON. */
  lemma ResultPasses(c: ControlResult, instant: Instants)
    requires c.Valid(instant)
    ensures ValidControlResult(RereadFields(AsDict(c)), c.operation, instant)
  {
    DictReread(c);
    TimeParses(c.startedAt);
    TimeParses(c.completedAt);
    SnapshotSurvives(c.snapshot);
    FieldsPass(c.sequence, c.operation, c.startedAt, c.completedAt, RereadFields(c.snapshot), instant);
  }

  /** A result that passes the check is that of a control that was asked for, with its times in order. */
  lemma PassedResultReads(result: map<Text, Json>, op: Operation, instant: Instants) returns (c: ControlResult)
    requires ValidControlResult(result, op, instant)
    ensures c.operation == op && c.sequence > 0 && ValidRuntimeSnapshot(c.snapshot)
    ensures Events.AwareTimestamp(c.startedAt) && Events.AwareTimestamp(c.completedAt)
    ensures instant(c.startedAt) <= instant(c.completedAt)
    ensures Lookup(result, R_SEQUENCE) == Some(Integer(c.sequence))
    ensures Lookup(result, R_OPERATION) == Some(String(OperationName(op)))
    ensures Lookup(result, R_SNAPSHOT) == Some(Object(c.snapshot))
    ensures R_STARTED_AT in result && result[R_STARTED_AT].String?
            && Events.WritesTime(result[R_STARTED_AT].t, c.startedAt)
    ensures R_COMPLETED_AT in result && result[R_COMPLETED_AT].String?
            && Events.WritesTime(result[R_COMPLETED_AT].t, c.completedAt)
  {
    var started, completed := TimeAt(result, R_STARTED_AT).value, TimeAt(result, R_COMPLETED_AT).value;
    c := ControlResult(result[R_SEQUENCE].i, op, started, completed, result[R_SNAPSHOT].fields);
    Events.ParsesWrittenTime(result[R_STARTED_AT].t, started);
    Events.ParsesWrittenTime(result[R_COMPLETED_AT].t, completed);
  }

  lemma TimeParses(t: Text)
    requires Events.AwareTimestamp(t)
    ensures Events.ParseTimestamp(String(t)) == Some(t)
  {
    Events.TimestampIsClean(t);
  }

  lemma FieldsPass(
      sequence: int, op: Operation, startedAt: Text, completedAt: Text, snapshot: map<Text, Json>, instant: Instants)
    requires sequence > 0 && ValidRuntimeSnapshot(snapshot) && instant(startedAt) <= instant(completedAt)
    requires Events.ParseTimestamp(String(startedAt)) == Some(startedAt)
    requires Events.ParseTimestamp(String(completedAt)) == Some(completedAt)
    ensures ValidControlResult(
              ResultFields(Integer(sequence), String(OperationName(op)), String(startedAt), String(completedAt),
                           Object(snapshot)), op, instant)
  {
    ResultFieldsAt(Integer(sequence), String(OperationName(op)), String(startedAt), String(completedAt),
                   Object(snapshot));
  }
}
