/**
 * The record types of `backend/app/models.py` that the telemetry and model-artifact
 * cores share, with the field constraints their validators enforce.
 * Floating-point fields are modelled as `real`; the model never computes with them.
 */
module Records {

  import opened Common
  import opened JsonValue

  /** The eight optional rolling-mean and delta-per-day features of a reading. */
  datatype DerivedFeatures = DerivedFeatures(
    leadImpedanceOhmsRollingMean3d: Option<real>,
    leadImpedanceOhmsRollingMean7d: Option<real>,
    captureThresholdVRollingMean3d: Option<real>,
    captureThresholdVRollingMean7d: Option<real>,
    leadImpedanceOhmsDeltaPerDay3d: Option<real>,
    leadImpedanceOhmsDeltaPerDay7d: Option<real>,
    captureThresholdVDeltaPerDay3d: Option<real>,
    captureThresholdVDeltaPerDay7d: Option<real>)

  /** Every derived feature left at its default, None. */
  const NoDerived := DerivedFeatures(None, None, None, None, None, None, None, None)

  /** `PacemakerTelemetryIngest`: one row of an ingest request after validation. */
  datatype TelemetryIngest = TelemetryIngest(
    patientId: int,
    timestamp: int,  // Unix epoch seconds, UTC
    leadImpedanceOhms: real,
    captureThresholdV: real,
    rWaveSensingMv: real,
    batteryVoltageV: real,
    targetFailNext7d: Option<int>,
    derived: DerivedFeatures)

  /** The field constraints of `PacemakerTelemetryIngest`. */
  predicate ValidIngest(r: TelemetryIngest) {
    && r.patientId >= 0
    && r.timestamp >= 0
    && (r.targetFailNext7d.Some? ==> 0 <= r.targetFailNext7d.value <= 1)
  }

  /**
   * An ingest row as sent: each field present or absent (None). Values arrive already
   * typed; the JSON-to-number coercions of the validator are not modelled.
   */
  datatype RawIngest = RawIngest(
    patientId: Option<int>,
    timestamp: Option<int>,
    leadImpedanceOhms: Option<real>,
    captureThresholdV: Option<real>,
    rWaveSensingMv: Option<real>,
    batteryVoltageV: Option<real>,
    targetFailNext7d: Option<int>,
    derived: DerivedFeatures)

  /** Names of the fields of `raw` that fail validation, in declaration order. */
  function IngestErrors(raw: RawIngest): seq<string> {
    (if raw.patientId.None? || raw.patientId.value < 0 then ["patient_id"] else [])
    + (if raw.timestamp.None? || raw.timestamp.value < 0 then ["timestamp"] else [])
    + (if raw.leadImpedanceOhms.None? then ["lead_impedance_ohms"] else [])
    + (if raw.captureThresholdV.None? then ["capture_threshold_v"] else [])
    + (if raw.rWaveSensingMv.None? then ["r_wave_sensing_mv"] else [])
    + (if raw.batteryVoltageV.None? then ["battery_voltage_v"] else [])
    + (if raw.targetFailNext7d.Some? && !(0 <= raw.targetFailNext7d.value <= 1)
       then ["target_fail_next_7d"] else [])
  }

  /** Validation of one row against `PacemakerTelemetryIngest`. */
  function ValidateIngest(raw: RawIngest): (r: Result<TelemetryIngest, seq<string>>)
    ensures r.Ok? <==>
      && raw.patientId.Some? && raw.patientId.value >= 0
      && raw.timestamp.Some? && raw.timestamp.value >= 0
      && raw.leadImpedanceOhms.Some? && raw.captureThresholdV.Some?
      && raw.rWaveSensingMv.Some? && raw.batteryVoltageV.Some?
      && (raw.targetFailNext7d.None? || raw.targetFailNext7d.value in {0, 1})
    ensures r.Ok? ==> ValidIngest(r.value)
    ensures r.Ok? ==>
      && r.value.patientId == raw.patientId.value && r.value.timestamp == raw.timestamp.value
      && r.value.targetFailNext7d == raw.targetFailNext7d && r.value.derived == raw.derived
    ensures r.Err? ==> r.error != []
  {
    var errors := IngestErrors(raw);
    if errors != [] then Err(errors)
    else Ok(TelemetryIngest(
      raw.patientId.value, raw.timestamp.value,
      raw.leadImpedanceOhms.value, raw.captureThresholdV.value,
      raw.rWaveSensingMv.value, raw.batteryVoltageV.value,
      raw.targetFailNext7d, raw.derived))
  }

  /** The request row that carries exactly the fields of `r`. */
  function AsRaw(r: TelemetryIngest): RawIngest {
    RawIngest(Some(r.patientId), Some(r.timestamp),
      Some(r.leadImpedanceOhms), Some(r.captureThresholdV),
      Some(r.rWaveSensingMv), Some(r.batteryVoltageV),
      r.targetFailNext7d, r.derived)
  }

  /** Every row meeting the constraints is accepted unchanged. */
  lemma ValidateAcceptsValid(r: TelemetryIngest)
    requires ValidIngest(r)
    ensures ValidateIngest(AsRaw(r)) == Ok(r)
  {
  }

  /** The four measurements are required; the label and derived features are optional. */
  lemma OnlyMeasurementsRequired(pid: nat, ts: nat, a: real, b: real, c: real, d: real)
    ensures ValidateIngest(RawIngest(Some(pid), Some(ts), Some(a), Some(b), Some(c), Some(d), None, NoDerived))
         == Ok(TelemetryIngest(pid, ts, a, b, c, d, None, NoDerived))
    ensures ValidateIngest(RawIngest(Some(pid), Some(ts), None, Some(b), Some(c), Some(d), None, NoDerived))
         == Err(["lead_impedance_ohms"])
  {
    var raw := RawIngest(Some(pid), Some(ts), None, Some(b), Some(c), Some(d), None, NoDerived);
    assert IngestErrors(raw) == ["lead_impedance_ohms"];
  }

  /** A label of 2 is rejected, naming the label field. */
  lemma LabelTwoRejected(raw: RawIngest)
    requires raw.targetFailNext7d == Some(2)
    ensures ValidateIngest(raw).Err?
    ensures "target_fail_next_7d" in ValidateIngest(raw).error
  {
  }

  /** `PacemakerTelemetryBase`: a stored reading. The timestamp is kept as epoch seconds. */
  datatype TelemetryRow = TelemetryRow(
    patientId: int,
    timestamp: int,
    leadImpedanceOhms: real,
    captureThresholdV: real,
    rWaveSensingMv: real,
    batteryVoltageV: real,
    targetFailNext7d: Option<int>,
    derived: DerivedFeatures)

  /** `PacemakerTelemetryIngestResult`: the five counts returned by an ingest call. */
  datatype IngestResult = IngestResult(
    receivedCount: int,
    insertedCount: int,
    duplicateCount: int,
    duplicateInPayloadCount: int,
    duplicateExistingCount: int)

  /** `ModelArtifactUploadMetadata`, as accepted by the upload route. */
  datatype UploadMetadata = UploadMetadata(
    clientVersionId: Option<string>,
    sourceRunId: Option<string>,
    trainedAtUtc: Option<int>,
    algorithm: string,
    hyperparameters: map<string, Json>,
    metrics: map<string, Json>,
    datasetInfo: map<string, Json>,
    notes: Option<string>)

  /** The length constraints of `ModelArtifactUploadMetadata`. */
  predicate ValidUploadMetadata(m: UploadMetadata) {
    && (m.clientVersionId.Some? ==> |m.clientVersionId.value| <= 255)
    && (m.sourceRunId.Some? ==> |m.sourceRunId.value| <= 255)
    && 1 <= |m.algorithm| <= 255
    && (m.notes.Some? ==> |m.notes.value| <= 2000)
  }

  datatype SchemaError = NotAnObject | InvalidFields(fields: seq<string>)

  /** The fields `ModelArtifactUploadMetadata` declares, in declaration order. */
  const UploadFields: seq<string> :=
    ["client_version_id", "source_run_id", "trained_at_utc", "algorithm",
     "hyperparameters", "metrics", "dataset_info", "notes"]

  /**
   * What `ModelArtifactUploadMetadata` accepts for the field `name` of the object `f`:
   * the two ids optional strings of at most 255 characters, `trained_at_utc` optional and
   * a datetime, `algorithm` required and of 1 to 255 characters, `metrics` a required
   * dictionary, the other two dictionaries optional, `notes` at most 2000 characters.
   */
  predicate FieldAccepted(f: map<string, Json>, name: string, parseDatetime: Json -> Option<int>) {
    if name == "client_version_id" || name == "source_run_id" then
      name !in f || f[name].JNull? || (f[name].JStr? && |f[name].s| <= 255)
    else if name == "trained_at_utc" then
      name !in f || f[name].JNull? || parseDatetime(f[name]).Some?
    else if name == "algorithm" then
      name in f && f[name].JStr? && 1 <= |f[name].s| <= 255
    else if name == "hyperparameters" || name == "dataset_info" then
      name !in f || f[name].JObj?
    else if name == "metrics" then
      name in f && f[name].JObj?
    else if name == "notes" then
      name !in f || f[name].JNull? || (f[name].JStr? && |f[name].s| <= 2000)
    else true
  }

  /** The string an optional string field holds; None when absent or null. */
  function StringField(f: map<string, Json>, name: string): Option<string> {
    if name in f && f[name].JStr? then Some(f[name].s) else None
  }

  /** The dictionary a dictionary field holds; `{}` when absent. */
  function DictField(f: map<string, Json>, name: string): map<string, Json> {
    if name in f && f[name].JObj? then f[name].fields else map[]
  }

  /**
   * `ModelArtifactUploadMetadata.model_validate(doc)`. Parsing a `trained_at_utc` value
   * into a datetime is left to `parseDatetime` (epoch seconds, or None when it fails).
   * Keys the schema does not name are ignored.
   */
  function ValidateUploadMetadata(doc: Json, parseDatetime: Json -> Option<int>): (r: Result<UploadMetadata, SchemaError>)
    ensures r.Ok? ==> ValidUploadMetadata(r.value)
    ensures r.Ok? ==> doc.JObj? && "algorithm" in doc.fields && doc.fields["algorithm"] == JStr(r.value.algorithm)
    ensures r.Ok? ==> "metrics" in doc.fields && doc.fields["metrics"] == JObj(r.value.metrics)
    ensures !doc.JObj? ==> r == Err(NotAnObject)
    ensures doc.JObj? && "algorithm" !in doc.fields ==> r.Err? && r.error.InvalidFields? && "algorithm" in r.error.fields
    ensures doc.JObj? && "metrics" !in doc.fields ==> r.Err? && r.error.InvalidFields? && "metrics" in r.error.fields
    ensures doc.JObj? ==> (r.Ok? <==> forall n :: n in UploadFields ==> FieldAccepted(doc.fields, n, parseDatetime))
    ensures doc.JObj? && r.Err? ==>
              && r.error.InvalidFields?
              && forall n :: n in r.error.fields <==> n in UploadFields && !FieldAccepted(doc.fields, n, parseDatetime)
    ensures r.Ok? ==>
              && r.value.clientVersionId == StringField(doc.fields, "client_version_id")
              && r.value.sourceRunId == StringField(doc.fields, "source_run_id")
              && r.value.trainedAtUtc == (if "trained_at_utc" in doc.fields && !doc.fields["trained_at_utc"].JNull?
                                         then parseDatetime(doc.fields["trained_at_utc"]) else None)
              && r.value.hyperparameters == DictField(doc.fields, "hyperparameters")
              && r.value.datasetInfo == DictField(doc.fields, "dataset_info")
              && r.value.notes == StringField(doc.fields, "notes")
  {
    if !doc.JObj? then Err(NotAnObject)
    else
      var f := doc.fields;
      var errors := Refused(f, UploadFields, parseDatetime);
      if errors != [] then
        assert errors[0] in errors;
        RequiredFields(f, parseDatetime);
        Err(InvalidFields(errors))
      else
        AcceptedFields(f, parseDatetime);
        Ok(UploadMetadata(
          StringField(f, "client_version_id"), StringField(f, "source_run_id"),
          if "trained_at_utc" in f && !f["trained_at_utc"].JNull? then parseDatetime(f["trained_at_utc"]) else None,
          f["algorithm"].s, DictField(f, "hyperparameters"), f["metrics"].fields,
          DictField(f, "dataset_info"), StringField(f, "notes")))
  }

  /** When every field is accepted, the required ones are present and the strings within their limits. */
  lemma AcceptedFields(f: map<string, Json>, parseDatetime: Json -> Option<int>)
    requires forall n :: n in UploadFields ==> FieldAccepted(f, n, parseDatetime)
    ensures "client_version_id" in f && f["client_version_id"].JStr? ==> |f["client_version_id"].s| <= 255
    ensures "source_run_id" in f && f["source_run_id"].JStr? ==> |f["source_run_id"].s| <= 255
    ensures "algorithm" in f && f["algorithm"].JStr? && 1 <= |f["algorithm"].s| <= 255
    ensures "metrics" in f && f["metrics"].JObj?
    ensures "notes" in f && f["notes"].JStr? ==> |f["notes"].s| <= 2000
  {
    assert FieldAccepted(f, UploadFields[0], parseDatetime);
    assert FieldAccepted(f, UploadFields[1], parseDatetime);
    assert FieldAccepted(f, UploadFields[3], parseDatetime);
    assert FieldAccepted(f, UploadFields[5], parseDatetime);
    assert FieldAccepted(f, UploadFields[7], parseDatetime);
  }

  /** A missing `algorithm` or `metrics` is among the refused fields. */
  lemma RequiredFields(f: map<string, Json>, parseDatetime: Json -> Option<int>)
    ensures "algorithm" !in f ==> "algorithm" in Refused(f, UploadFields, parseDatetime)
    ensures "metrics" !in f ==> "metrics" in Refused(f, UploadFields, parseDatetime)
  {
    assert UploadFields[3] == "algorithm" && UploadFields[5] == "metrics";
  }

  /** The names among `names` whose field `f` does not hold acceptably, in order. */
  function Refused(f: map<string, Json>, names: seq<string>, parseDatetime: Json -> Option<int>): (errors: seq<string>)
    ensures forall n :: n in errors <==> n in names && !FieldAccepted(f, n, parseDatetime)
    ensures errors == [] <==> forall n :: n in names ==> FieldAccepted(f, n, parseDatetime)
  {
    if names == [] then []
    else
      var rest := Refused(f, names[1..], parseDatetime);
      assert forall n :: n in names <==> n == names[0] || n in names[1..];
      if FieldAccepted(f, names[0], parseDatetime) then rest else [names[0]] + rest
  }

  /** `ModelArtifact`: a stored model upload. `id` and `created_at` are not modelled. */
  datatype ModelArtifact = ModelArtifact(
    clientVersionId: Option<string>,
    sourceRunId: Option<string>,
    trainedAtUtc: Option<int>,
    algorithm: string,
    hyperparameters: map<string, Json>,
    metrics: map<string, Json>,
    datasetInfo: map<string, Json>,
    notes: Option<string>,
    contentType: Option<string>,
    modelSizeBytes: int,
    modelSha256: string,
    modelBlob: seq<Byte>)

  /** The column constraints of the `model_artifact` table. */
  predicate ValidArtifact(a: ModelArtifact) {
    && (a.clientVersionId.Some? ==> |a.clientVersionId.value| <= 255)
    && (a.sourceRunId.Some? ==> |a.sourceRunId.value| <= 255)
    && 1 <= |a.algorithm| <= 255
    && (a.notes.Some? ==> |a.notes.value| <= 2000)
    && (a.contentType.Some? ==> |a.contentType.value| <= 255)
    && |a.modelSha256| == 64
  }

  /** `ModelArtifactUploadResponse`; `id` and `created_at` are not modelled. */
  datatype UploadResponse = UploadResponse(
    clientVersionId: Option<string>,
    sourceRunId: Option<string>,
    algorithm: string,
    modelSizeBytes: int,
    modelSha256: string,
    contentType: Option<string>)
}
