/** The runtime snapshot as clients check it, and that it passes through JSON (`daemon_client.py`). */
module RuntimeSnapshots {
  import opened Texts
  import opened JsonText
  import opened Json
  import Events

  predicate NonEmptyString(v: Json) {
    v.String? && v.t != []
  }

  predicate OptionalString(v: Json) {
    v.Null? || NonEmptyString(v)
  }

  predicate IsBoolean(v: Json) {
    v.Boolean?
  }

  predicate IsObject(v: Json) {
    v.Object?
  }

  predicate PositiveInteger(v: Json) {
    v.Integer? && v.i > 0
  }

  predicate NaturalNumber(v: Json) {
    v.Integer? && v.i >= 0
  }

  predicate Has(payload: map<Text, Json>, name: string, check: Json -> bool) {
    Lit(name) in payload && check(payload[Lit(name)])
  }

  predicate MayHave(payload: map<Text, Json>, name: string, check: Json -> bool) {
    Lit(name) in payload ==> check(payload[Lit(name)])
  }

  /** `_validate_runtime_snapshot` */
  predicate ValidRuntimeSnapshot(payload: map<Text, Json>) {
    && Has(payload, "state", NonEmptyString)
    && Has(payload, "scanner_endpoint", NonEmptyString)
    && MayHave(payload, "scanner_model", OptionalString)
    && MayHave(payload, "scanner_firmware", OptionalString)
    && Has(payload, "scanner_connected", IsBoolean)
    && Has(payload, "psi_interval_ms", PositiveInteger)
    && Has(payload, "psi_active", IsBoolean)
    && Has(payload, "radio_state", IsObject)
    && Has(payload, "audio", IsObject)
    && Has(payload, "router", IsObject)
    && Has(payload, "started_at", OptionalString)
    && Has(payload, "stopped_at", OptionalString)
    && Has(payload, "state_changed_at", NonEmptyString)
    && Has(payload, "transition_sequence", NaturalNumber)
    && Has(payload, "last_failure_at", OptionalString)
    && Has(payload, "last_error", OptionalString)
  }

  /** A check that passes still passes once the value has been through JSON. */
  ghost predicate Survives(check: Json -> bool) {
    forall v: Json :: check(v) ==> check(Reread(v))
  }

  lemma FieldSurvives(payload: map<Text, Json>, name: string, check: Json -> bool)
    requires Survives(check)
    ensures Has(payload, name, check) ==> Has(RereadFields(payload), name, check)
    ensures MayHave(payload, name, check) ==> MayHave(RereadFields(payload), name, check)
  {
  }

  lemma ChecksSurvive()
    ensures Survives(NonEmptyString) && Survives(OptionalString) && Survives(IsBoolean) && Survives(IsObject)
    ensures Survives(PositiveInteger) && Survives(NaturalNumber)
  {
    forall v: Json | NonEmptyString(v) ensures NonEmptyString(Reread(v)) {
      Events.JoinedKindValid(v.t);
    }
    forall v: Json | OptionalString(v) ensures OptionalString(Reread(v)) {
      assert v.Null? || NonEmptyString(v);
    }
  }

  /** A snapshot that passes the check does so after JSON. */
  lemma SnapshotSurvives(payload: map<Text, Json>)
    requires ValidRuntimeSnapshot(payload)
    ensures ValidRuntimeSnapshot(RereadFields(payload))
  {
    ChecksSurvive();
    FieldSurvives(payload, "state", NonEmptyString);
    FieldSurvives(payload, "scanner_endpoint", NonEmptyString);
    FieldSurvives(payload, "scanner_model", OptionalString);
    FieldSurvives(payload, "scanner_firmware", OptionalString);
    FieldSurvives(payload, "scanner_connected", IsBoolean);
    FieldSurvives(payload, "psi_interval_ms", PositiveInteger);
    FieldSurvives(payload, "psi_active", IsBoolean);
    FieldSurvives(payload, "radio_state", IsObject);
    FieldSurvives(payload, "audio", IsObject);
    FieldSurvives(payload, "router", IsObject);
    FieldSurvives(payload, "started_at", OptionalString);
    FieldSurvives(payload, "stopped_at", OptionalString);
    FieldSurvives(payload, "state_changed_at", NonEmptyString);
    FieldSurvives(payload, "transition_sequence", NaturalNumber);
    FieldSurvives(payload, "last_failure_at", OptionalString);
    FieldSurvives(payload, "last_error", OptionalString);
  }
}
