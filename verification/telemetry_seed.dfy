/**
 * Seeding the `pacemaker_telemetry` table from a CSV file at start-up
 * (backend/app/telemetry_seed.py): every row read by `csv.DictReader` is normalised,
 * looked up through the column aliases, validated and parsed into a payload, and the
 * payloads are written with COPY in batches of `batch_size`.
 */
module TelemetrySeed {

  import opened Common
  import opened Text

  // ---------------------------------------------------------------------------
  // Rows as `csv.DictReader` yields them, and `_normalize_row`
  // ---------------------------------------------------------------------------

  /**
   * A value of a row yielded by `csv.DictReader`: the text of a field, `None` for a
   * header column the line is too short to fill, or the list of surplus fields of a
   * line longer than the header (stored under the key `None`).
   */
  datatype CsvValue = CsvText(s: string) | Absent | Surplus(items: seq<string>)

  /** The entries of one row in dictionary order; a key is `None` only for surplus fields. */
  type CsvRow = seq<(Option<string>, CsvValue)>

  /** A string value is stripped; any other value becomes the empty string. */
  function NormalizedValue(v: CsvValue): (s: string)
    ensures v.CsvText? ==> s == Strip(v.s)
    ensures !v.CsvText? ==> s == ""
  {
    if v.CsvText? then Strip(v.s) else ""
  }

  /**
   * The dictionary built from the entries whose key is text: keys and string values
   * stripped, the later of two entries whose keys strip to the same text winning.
   */
  function Normalized(row: CsvRow): map<string, string> {
    if row == [] then map[]
    else
      var m := Normalized(row[..|row| - 1]);
      var (k, v) := row[|row| - 1];
      if k.Some? then m[Strip(k.value) := NormalizedValue(v)] else m
  }

  /**
   * `_normalize_row` as written: it calls `.strip()` on every key, so a row holding
   * surplus fields (key `None`) raises AttributeError. The call sits outside the
   * `try` of the seed loop, so that error ends the whole seed.
   */
  function NormalizeAsWritten(row: CsvRow): (r: Option<map<string, string>>)
    ensures r.None? <==> exists i :: 0 <= i < |row| && row[i].0.None?
    ensures r.Some? ==> r.value == Normalized(row)
  {
    if exists i :: 0 <= i < |row| && row[i].0.None? then None else Some(Normalized(row))
  }

  /** A line with one field more than the header makes the normaliser as written raise. */
  lemma SurplusFieldRaises()
    ensures NormalizeAsWritten([(Some("Patient_ID"), CsvText("1")), (None, Surplus(["x"]))]).None?
  {
    var row := [(Some("Patient_ID"), CsvText("1")), (None, Surplus(["x"]))];
    assert row[1].0.None?;
  }

  /** `_normalize_row`, corrected to pass over the surplus fields instead of raising. */
  method NormalizeRow(row: CsvRow) returns (normalized: map<string, string>)
    ensures normalized == Normalized(row)
  {
    normalized := map[];
    for i := 0 to |row|
      invariant normalized == Normalized(row[..i])
    {
      assert row[..i + 1][..i] == row[..i];
      var (key, value) := row[i];
      if key.None? {
        continue;
      }
      var normalizedKey := Strip(key.value);
      var normalizedValue := if value.CsvText? then Strip(value.s) else "";
      normalized := normalized[normalizedKey := normalizedValue];
    }
    assert row[..|row|] == row;
  }

  /** The normalised keys are exactly the stripped text keys of the row. */
  lemma {:induction false} NormalizedKeys(row: CsvRow, k: string)
    ensures k in Normalized(row) <==> exists i :: 0 <= i < |row| && row[i].0.Some? && Strip(row[i].0.value) == k
  {
    if row != [] {
      var n := |row| - 1;
      NormalizedKeys(row[..n], k);
      assert forall i :: 0 <= i < n ==> row[..n][i] == row[i];
    }
  }

  /** The value kept for a key is the normalised value of the last entry carrying it. */
  lemma {:induction false} NormalizedLastWins(row: CsvRow, i: int, key: string)
    requires 0 <= i < |row| && row[i].0.Some? && key == Strip(row[i].0.value)
    requires forall j :: i < j < |row| && row[j].0.Some? ==> Strip(row[j].0.value) != key
    ensures key in Normalized(row) && Normalized(row)[key] == NormalizedValue(row[i].1)
  {
    if i == |row| - 1 {
      NormalizedLastEntry(row);
    } else {
      var init := row[..|row| - 1];
      LaterKeysOfInit(row, init, i, key);
      NormalizedLastWins(init, i, key);
      NormalizedOtherKey(row, key);
    }
  }

  lemma LaterKeysOfInit(row: CsvRow, init: CsvRow, i: int, key: string)
    requires 0 <= i < |row| - 1 && init == row[..|row| - 1]
    requires forall j :: i < j < |row| && row[j].0.Some? ==> Strip(row[j].0.value) != key
    ensures init[i] == row[i]
    ensures forall j :: i < j < |init| && init[j].0.Some? ==> Strip(init[j].0.value) != key
  {
  }

  lemma NormalizedLastEntry(row: CsvRow)
    requires row != [] && row[|row| - 1].0.Some?
    ensures Strip(row[|row| - 1].0.value) in Normalized(row)
    ensures Normalized(row)[Strip(row[|row| - 1].0.value)] == NormalizedValue(row[|row| - 1].1)
  {
  }

  lemma NormalizedOtherKey(row: CsvRow, key: string)
    requires row != [] && key in Normalized(row[..|row| - 1])
    requires row[|row| - 1].0.Some? ==> Strip(row[|row| - 1].0.value) != key
    ensures key in Normalized(row) && Normalized(row)[key] == Normalized(row[..|row| - 1])[key]
  {
  }

  /** Every key and every value of a normalised row is free of surrounding whitespace. */
  lemma {:induction false} NormalizedIsStripped(row: CsvRow)
    ensures forall k :: k in Normalized(row) ==> Strip(k) == k && Strip(Normalized(row)[k]) == Normalized(row)[k]
  {
    if row != [] {
      NormalizedIsStripped(row[..|row| - 1]);
      NormalizedStrippedStep(row);
    }
  }

  lemma NormalizedStrippedStep(row: CsvRow)
    requires row != []
    requires var m := Normalized(row[..|row| - 1]);
             forall k :: k in m ==> Strip(k) == k && Strip(m[k]) == m[k]
    ensures forall k :: k in Normalized(row) ==> Strip(k) == k && Strip(Normalized(row)[k]) == Normalized(row)[k]
  {
    var m := Normalized(row[..|row| - 1]);
    var entry := row[|row| - 1];
    if entry.0.Some? {
      var key := Strip(entry.0.value);
      var value := NormalizedValue(entry.1);
      assert Normalized(row) == m[key := value];
      StripIdempotent(entry.0.value);
      if entry.1.CsvText? {
        StripIdempotent(entry.1.s);
      } else {
        assert value == "";
      }
    } else {
      assert Normalized(row) == m;
    }
  }

  // ---------------------------------------------------------------------------
  // Column aliases: `_candidate_keys` and `_read_field`
  // ---------------------------------------------------------------------------

  /** `_CSV_COLUMN_MAP`, in declaration order: (CSV header, model field). */
  const ColumnMap: seq<(string, string)> := [
    ("Patient_ID", "patient_id"),
    ("Timestamp", "timestamp"),
    ("Lead_Impedance_Ohms", "lead_impedance_ohms"),
    ("Capture_Threshold_V", "capture_threshold_v"),
    ("R_Wave_Sensing_mV", "r_wave_sensing_mv"),
    ("Battery_Voltage_V", "battery_voltage_v"),
    ("Target_Fail_Next_7d", "target_fail_next_7d"),
    ("Lead_Impedance_Ohms_RollingMean_3d", "lead_impedance_ohms_rolling_mean_3d"),
    ("Lead_Impedance_Ohms_RollingMean_7d", "lead_impedance_ohms_rolling_mean_7d"),
    ("Capture_Threshold_V_RollingMean_3d", "capture_threshold_v_rolling_mean_3d"),
    ("Capture_Threshold_V_RollingMean_7d", "capture_threshold_v_rolling_mean_7d"),
    ("Lead_Impedance_Ohms_DeltaPerDay_3d", "lead_impedance_ohms_delta_per_day_3d"),
    ("Lead_Impedance_Ohms_DeltaPerDay_7d", "lead_impedance_ohms_delta_per_day_7d"),
    ("Capture_Threshold_V_DeltaPerDay_3d", "capture_threshold_v_delta_per_day_3d"),
    ("Capture_Threshold_V_DeltaPerDay_7d", "capture_threshold_v_delta_per_day_7d")
  ]

  /** The CSV headers of `m` that map to `field`, in the order of `m`. */
  function Aliases(m: seq<(string, string)>, field: string): seq<string> {
    if m == [] then []
    else
      var n := |m| - 1;
      Aliases(m[..n], field) + (if m[n].1 == field then [m[n].0] else [])
  }

  lemma {:induction false} AliasesSpec(m: seq<(string, string)>, field: string)
    ensures forall c :: c in Aliases(m, field) <==> (c, field) in m
  {
    if m != [] {
      var n := |m| - 1;
      AliasesSpec(m[..n], field);
      assert m == m[..n] + [m[n]];
    }
  }

  /** `_candidate_keys(field)`: the field name itself, then every CSV header aliased to it. */
  function CandidateKeys(field: string): seq<string> {
    [field] + Aliases(ColumnMap, field)
  }

  /** The field name comes first; the remaining candidates are exactly its aliases. */
  lemma CandidateKeysSpec(field: string)
    ensures |CandidateKeys(field)| >= 1 && CandidateKeys(field)[0] == field
    ensures forall c :: c in CandidateKeys(field)[1..] <==> (c, field) in ColumnMap
  {
    AliasesSpec(ColumnMap, field);
    assert CandidateKeys(field)[1..] == Aliases(ColumnMap, field);
  }

  /** No two entries of the column map name the same model field. */
  predicate FieldsDistinct(m: seq<(string, string)>) {
    forall i, j :: 0 <= i < j < |m| ==> m[i].1 != m[j].1
  }

  lemma {:induction false} NoAliases(m: seq<(string, string)>, field: string)
    requires forall j :: 0 <= j < |m| ==> m[j].1 != field
    ensures Aliases(m, field) == []
  {
    if m != [] {
      NoAliases(m[..|m| - 1], field);
    }
  }

  /** A model field named by exactly one entry has exactly that entry's header as alias. */
  lemma {:induction false} UniqueAlias(m: seq<(string, string)>, i: int)
    requires FieldsDistinct(m) && 0 <= i < |m|
    ensures Aliases(m, m[i].1) == [m[i].0]
  {
    var n := |m| - 1;
    if i == n {
      NoAliases(m[..n], m[i].1);
    } else {
      UniqueAlias(m[..n], i);
    }
  }

  /** Each model field has exactly one CSV alias, so it is looked up under two names. */
  lemma CandidateKeysOfMappedFields(i: int)
    requires 0 <= i < |ColumnMap|
    ensures CandidateKeys(ColumnMap[i].1) == [ColumnMap[i].1, ColumnMap[i].0]
  {
    ColumnMapFieldsDistinct();
    UniqueAlias(ColumnMap, i);
  }

  lemma ColumnMapFieldsDistinct()
    ensures FieldsDistinct(ColumnMap)
  {
  }

  /** The first of `keys` present in `row` with a non-empty value, if any. */
  function FirstPresent(row: map<string, string>, keys: seq<string>): Option<string> {
    if keys == [] then None
    else if keys[0] in row && row[keys[0]] != "" then Some(row[keys[0]])
    else FirstPresent(row, keys[1..])
  }

  /**
   * `FirstPresent` finds nothing exactly when every key is absent or empty, and otherwise
   * the non-empty value of a key all of whose predecessors are absent or empty.
   */
  lemma {:induction false} FirstPresentSpec(row: map<string, string>, keys: seq<string>)
    ensures FirstPresent(row, keys).None? <==> forall i :: 0 <= i < |keys| ==> keys[i] !in row || row[keys[i]] == ""
    ensures FirstPresent(row, keys).Some? ==>
              exists i :: && 0 <= i < |keys| && keys[i] in row && row[keys[i]] == FirstPresent(row, keys).value
                          && FirstPresent(row, keys).value != ""
                          && forall j :: 0 <= j < i ==> keys[j] !in row || row[keys[j]] == ""
  {
    if keys != [] && !(keys[0] in row && row[keys[0]] != "") {
      var r := FirstPresent(row, keys[1..]);
      FirstPresentSpec(row, keys[1..]);
      assert forall i :: 1 <= i < |keys| ==> keys[i] == keys[1..][i - 1];
      if r.Some? {
        var i :| && 0 <= i < |keys[1..]| && keys[1..][i] in row && row[keys[1..][i]] == r.value && r.value != ""
                 && forall j :: 0 <= j < i ==> keys[1..][j] !in row || row[keys[1..][j]] == "";
        assert keys[i + 1] == keys[1..][i];
      }
    }
  }

  /** `_read_field(row, field)`. */
  function ReadField(row: map<string, string>, field: string): Option<string> {
    FirstPresent(row, CandidateKeys(field))
  }

  /** A non-empty value under the field's own name wins over any alias. */
  lemma ReadFieldPrefersFieldName(row: map<string, string>, field: string)
    requires field in row && row[field] != ""
    ensures ReadField(row, field) == Some(row[field])
  {
    assert CandidateKeys(field)[0] == field;
  }

  /** With the field's own name absent or empty, the alias is read. */
  lemma ReadFieldFallsBackToAlias(row: map<string, string>, i: int)
    requires 0 <= i < |ColumnMap|
    requires ColumnMap[i].1 !in row || row[ColumnMap[i].1] == ""
    ensures ReadField(row, ColumnMap[i].1)
         == if ColumnMap[i].0 in row && row[ColumnMap[i].0] != "" then Some(row[ColumnMap[i].0]) else None
  {
    CandidateKeysOfMappedFields(i);
    var alias := [ColumnMap[i].0];
    assert [ColumnMap[i].1, ColumnMap[i].0][1..] == alias;
    assert ReadField(row, ColumnMap[i].1) == FirstPresent(row, alias);
    assert FirstPresent(row, alias[1..]) == None;
  }

  // ---------------------------------------------------------------------------
  // Parsing: `float()`, `int(float())` and `_build_payload`
  // ---------------------------------------------------------------------------

  /** A Python float: finite, infinite or not a number. */
  datatype PyFloat = Finite(x: real) | Infinity(negative: bool) | NaN

  /** The exceptions the seed distinguishes: ValueError skips a row, anything else ends the seed. */
  datatype Failure = ValueError | OverflowError

  /** The outcome of a Python call that returns a value or raises. */
  datatype Outcome<+T> = Done(v: T) | Raised(e: Failure) {
    predicate IsFailure() { Raised? }
    function PropagateFailure<U>(): Outcome<U>
      requires Raised?
    {
      Raised(e)
    }
    function Extract(): T
      requires Done?
    {
      v
    }
  }

  /** A UTC instant, in seconds since the epoch. */
  type Instant = real
  /** A UUID, as its 128-bit value. */
  type Uuid = nat

  /**
   * The library calls `_build_payload` relies on: `float(s)` (None when it raises
   * ValueError) and `_parse_timestamp(s)`.
   */
  datatype Parsers = Parsers(float: string -> Option<PyFloat>, timestamp: string -> Outcome<Instant>)

  /** `int(f)`: truncation, OverflowError on an infinity, ValueError on NaN. */
  function IntOfFloat(f: PyFloat): (r: Outcome<int>)
    ensures f.Finite? <==> r.Done?
    ensures f.Infinity? <==> r == Raised(OverflowError)
  {
    match f
    case Finite(x) => Done(Trunc(x))
    case Infinity(_) => Raised(OverflowError)
    case NaN => Raised(ValueError)
  }

  function ParseFloat(p: Parsers, s: string): (r: Outcome<PyFloat>)
    ensures r.Raised? ==> r.e == ValueError
  {
    if p.float(s).Some? then Done(p.float(s).value) else Raised(ValueError)
  }

  /** `int(float(s))`. */
  function ParseInt(p: Parsers, s: string): (r: Outcome<int>)
    ensures r == Raised(OverflowError) <==> p.float(s).Some? && p.float(s).value.Infinity?
  {
    var f :- ParseFloat(p, s);
    IntOfFloat(f)
  }

  /** `_parse_optional_float`. */
  function ParseOptionalFloat(p: Parsers, s: Option<string>): (r: Outcome<Option<PyFloat>>)
    ensures s.None? ==> r == Done(None)
    ensures r.Raised? ==> r.e == ValueError
  {
    if s.None? then Done(None)
    else
      var f :- ParseFloat(p, s.value);
      Done(Some(f))
  }

  /** `_parse_optional_int`. */
  function ParseOptionalInt(p: Parsers, s: Option<string>): (r: Outcome<Option<int>>)
    ensures s.None? ==> r == Done(None)
    ensures r.Done? && s.Some? ==> r.v.Some?
  {
    if s.None? then Done(None)
    else
      var n :- ParseInt(p, s.value);
      Done(Some(n))
  }

  /** The truncated label is 0 or 1 exactly when the parsed float lies strictly between -1 and 2. */
  lemma LabelAcceptedRange(x: real)
    ensures Trunc(x) in {0, 1} <==> -1.0 < x < 2.0
  {
  }

  const RequiredFields: seq<string> := [
    "patient_id", "timestamp", "lead_impedance_ohms",
    "capture_threshold_v", "r_wave_sensing_mv", "battery_voltage_v"
  ]

  const LabelField := "target_fail_next_7d"

  const DerivedFields: seq<string> := [
    "lead_impedance_ohms_rolling_mean_3d", "lead_impedance_ohms_rolling_mean_7d",
    "capture_threshold_v_rolling_mean_3d", "capture_threshold_v_rolling_mean_7d",
    "lead_impedance_ohms_delta_per_day_3d", "lead_impedance_ohms_delta_per_day_7d",
    "capture_threshold_v_delta_per_day_3d", "capture_threshold_v_delta_per_day_7d"
  ]

  /** The row `_build_payload` returns; `derived` follows `DerivedFields`. */
  datatype Payload = Payload(
    patientId: int,
    timestamp: Instant,
    leadImpedanceOhms: PyFloat,
    captureThresholdV: PyFloat,
    rWaveSensingMv: PyFloat,
    batteryVoltageV: PyFloat,
    targetFailNext7d: Option<int>,
    derived: seq<Option<PyFloat>>,
    id: Uuid,
    createdAt: Instant)

  /** `_parse_optional_float` over several values, in order; the first failure wins. */
  function ParseAllOptional(p: Parsers, vs: seq<Option<string>>): (r: Outcome<seq<Option<PyFloat>>>)
    ensures r.Done? ==> |r.v| == |vs|
    ensures r.Done? ==> forall i :: 0 <= i < |vs| ==> ParseOptionalFloat(p, vs[i]) == Done(r.v[i])
    ensures r.Raised? ==> r.e == ValueError
  {
    if vs == [] then Done([])
    else
      var first :- ParseOptionalFloat(p, vs[0]);
      var rest :- ParseAllOptional(p, vs[1..]);
      assert forall i :: 1 <= i < |vs| ==> vs[i] == vs[1..][i - 1];
      Done([first] + rest)
  }

  /** The text `_build_payload` reads from a row: six required values, the label, eight derived values. */
  datatype RawFields = RawFields(required: seq<string>, labelText: Option<string>, derived: seq<Option<string>>)

  /** `_read_field` for each of `fields`; None as soon as one of them is missing or empty. */
  function ReadAll(row: map<string, string>, fields: seq<string>): (r: Option<seq<string>>)
    ensures r.Some? ==> |r.value| == |fields|
  {
    if fields == [] then Some([])
    else
      var first := ReadField(row, fields[0]);
      var rest := ReadAll(row, fields[1..]);
      if first.None? || rest.None? then None else Some([first.value] + rest.value)
  }

  /** `ReadAll` fails exactly when one field is missing, and otherwise holds every field's value. */
  lemma {:induction false} ReadAllSpec(row: map<string, string>, fields: seq<string>)
    ensures ReadAll(row, fields).None? <==> exists i :: 0 <= i < |fields| && ReadField(row, fields[i]).None?
    ensures ReadAll(row, fields).Some? ==>
              forall i :: 0 <= i < |fields| ==> ReadField(row, fields[i]) == Some(ReadAll(row, fields).value[i])
  {
    if fields != [] {
      ReadAllSpec(row, fields[1..]);
      assert forall i :: 1 <= i < |fields| ==> fields[i] == fields[1..][i - 1];
      if ReadField(row, fields[0]).Some? && ReadAll(row, fields[1..]).None? {
        var i :| 0 <= i < |fields[1..]| && ReadField(row, fields[1..][i]).None?;
        assert ReadField(row, fields[i + 1]).None?;
      }
    }
  }

  /** `_read_field` for each of `fields`, absent values kept as None. */
  function ReadEach(row: map<string, string>, fields: seq<string>): (r: seq<Option<string>>)
    ensures |r| == |fields|
  {
    if fields == [] then [] else [ReadField(row, fields[0])] + ReadEach(row, fields[1..])
  }

  lemma {:induction false} ReadEachSpec(row: map<string, string>, fields: seq<string>)
    ensures forall i :: 0 <= i < |fields| ==> ReadEach(row, fields)[i] == ReadField(row, fields[i])
  {
    if fields != [] {
      ReadEachSpec(row, fields[1..]);
    }
  }

  /** The reads of `_build_payload`; None when one of the six required fields is missing or empty. */
  function ReadFields(row: map<string, string>): (r: Option<RawFields>)
    ensures r.Some? ==> |r.value.required| == |RequiredFields| && |r.value.derived| == |DerivedFields|
    ensures r.Some? ==> r.value.labelText == ReadField(row, LabelField)
  {
    var required := ReadAll(row, RequiredFields);
    if required.None? then None
    else Some(RawFields(required.value, ReadField(row, LabelField), ReadEach(row, DerivedFields)))
  }

  /**
   * `_build_payload` reads every field under its own name or its alias: the reads fail
   * exactly when a required field is missing or empty, and otherwise hold the values found.
   */
  lemma ReadFieldsSpec(row: map<string, string>)
    ensures ReadFields(row).None? <==> exists i :: 0 <= i < |RequiredFields| && ReadField(row, RequiredFields[i]).None?
    ensures ReadFields(row).Some? ==>
              && (forall i :: 0 <= i < |RequiredFields| ==> ReadField(row, RequiredFields[i]) == Some(ReadFields(row).value.required[i]))
              && (forall i :: 0 <= i < |DerivedFields| ==> ReadFields(row).value.derived[i] == ReadField(row, DerivedFields[i]))
  {
    ReadAllSpec(row, RequiredFields);
    ReadEachSpec(row, DerivedFields);
  }

  /** The parses of `_build_payload`, in its order: label, patient id, timestamp, measurements, derived. */
  function ParseFields(raw: RawFields, p: Parsers, id: Uuid, createdAt: Instant): Outcome<Payload>
    requires |raw.required| == |RequiredFields| && |raw.derived| == |DerivedFields|
  {
    var targetValue :- ParseOptionalInt(p, raw.labelText);
    if targetValue.Some? && targetValue.value != 0 && targetValue.value != 1 then Raised(ValueError)
    else
      var patientId :- ParseInt(p, raw.required[0]);
      var timestamp :- p.timestamp(raw.required[1]);
      var leadImpedance :- ParseFloat(p, raw.required[2]);
      var captureThreshold :- ParseFloat(p, raw.required[3]);
      var rWaveSensing :- ParseFloat(p, raw.required[4]);
      var batteryVoltage :- ParseFloat(p, raw.required[5]);
      var derived :- ParseAllOptional(p, raw.derived);
      Done(Payload(patientId, timestamp, leadImpedance, captureThreshold, rWaveSensing,
                   batteryVoltage, targetValue, derived, id, createdAt))
  }

  /** `_build_payload(row)`, with the fresh `uuid4()` and the current time as inputs. */
  function BuildPayload(row: map<string, string>, p: Parsers, id: Uuid, createdAt: Instant): Outcome<Payload> {
    var raw := ReadFields(row);
    if raw.None? then Raised(ValueError) else ParseFields(raw.value, p, id, createdAt)
  }

  /** A row missing any of the six required fields is skipped with a ValueError. */
  lemma MissingRequiredSkipsRow(row: map<string, string>, p: Parsers, id: Uuid, createdAt: Instant, f: string)
    requires f in RequiredFields && ReadField(row, f).None?
    ensures BuildPayload(row, p, id, createdAt) == Raised(ValueError)
  {
    var i :| 0 <= i < |RequiredFields| && RequiredFields[i] == f;
    ReadFieldsSpec(row);
  }

  /**
   * A payload parsed from `raw` carries a label that is absent or 0 or 1, present exactly
   * when the row has one, the truncated patient id, the parsed timestamp, measurements
   * and derived values, and the given uuid and time.
   */
  lemma ParsedPayloadFields(raw: RawFields, p: Parsers, id: Uuid, createdAt: Instant)
    requires |raw.required| == |RequiredFields| && |raw.derived| == |DerivedFields|
    requires ParseFields(raw, p, id, createdAt).Done?
    ensures var r := ParseFields(raw, p, id, createdAt).v;
      && (r.targetFailNext7d.None? || r.targetFailNext7d.value in {0, 1})
      && (r.targetFailNext7d.None? <==> raw.labelText.None?)
      && ParseInt(p, raw.required[0]) == Done(r.patientId)
      && p.timestamp(raw.required[1]) == Done(r.timestamp)
      && ParseFloat(p, raw.required[2]) == Done(r.leadImpedanceOhms)
      && ParseFloat(p, raw.required[3]) == Done(r.captureThresholdV)
      && ParseFloat(p, raw.required[4]) == Done(r.rWaveSensingMv)
      && ParseFloat(p, raw.required[5]) == Done(r.batteryVoltageV)
      && ParseAllOptional(p, raw.derived) == Done(r.derived)
      && r.id == id && r.createdAt == createdAt
  {
  }

  /** A present label whose float lies outside (-1, 2) makes the row invalid (ValueError). */
  lemma LabelOutOfRangeSkipsRow(raw: RawFields, p: Parsers, id: Uuid, createdAt: Instant, x: real)
    requires |raw.required| == |RequiredFields| && |raw.derived| == |DerivedFields|
    requires raw.labelText.Some? && p.float(raw.labelText.value) == Some(Finite(x))
    requires !(-1.0 < x < 2.0)
    ensures ParseFields(raw, p, id, createdAt) == Raised(ValueError)
  {
    LabelAcceptedRange(x);
  }

  /**
   * Only an infinite label or patient id (through `int()`) or a timestamp parser error
   * other than ValueError can raise anything but ValueError: every other bad row is skipped.
   */
  lemma FatalOnlyFromIntOrTimestamp(raw: RawFields, p: Parsers, id: Uuid, createdAt: Instant)
    requires |raw.required| == |RequiredFields| && |raw.derived| == |DerivedFields|
    requires ParseFields(raw, p, id, createdAt).Raised? && ParseFields(raw, p, id, createdAt).e != ValueError
    ensures || (raw.labelText.Some? && p.float(raw.labelText.value).Some? && p.float(raw.labelText.value).value.Infinity?)
            || (p.float(raw.required[0]).Some? && p.float(raw.required[0]).value.Infinity?)
            || p.timestamp(raw.required[1]) == Raised(OverflowError)
  {
  }

  // ---------------------------------------------------------------------------
  // COPY serialisation: `_serialize_copy_value`
  // ---------------------------------------------------------------------------

  /** A value written to a COPY column. */
  datatype CopyValue = Null | IntValue(i: int) | FloatValue(f: PyFloat) | InstantValue(t: Instant) | UuidValue(u: Uuid)

  /** The text renderings taken from the runtime: `repr` of a finite float, `isoformat`, `str(uuid)`. */
  datatype Renderers = Renderers(finite: real -> string, isoformat: Instant -> string, uuid: Uuid -> string)

  ghost predicate RenderersNonEmpty(r: Renderers) {
    && (forall x :: r.finite(x) != "")
    && (forall t :: r.isoformat(t) != "")
    && (forall u :: r.uuid(u) != "")
  }

  /** `str(i)` for an integer. */
  function IntText(i: int): (s: string)
    ensures |s| >= 1 && (s[0] == '-' <==> i < 0)
  {
    if i < 0 then "-" + NatText(-i) else NatText(i)
  }

  /** `str(f)` for a float. */
  function FloatText(f: PyFloat, r: Renderers): string {
    match f
    case Finite(x) => r.finite(x)
    case Infinity(negative) => if negative then "-inf" else "inf"
    case NaN => "nan"
  }

  /** `_serialize_copy_value`: None is the empty string, a datetime its ISO form, anything else `str`. */
  function SerializeCopyValue(v: CopyValue, r: Renderers): string {
    match v
    case Null => ""
    case IntValue(i) => IntText(i)
    case FloatValue(f) => FloatText(f, r)
    case InstantValue(t) => r.isoformat(t)
    case UuidValue(u) => r.uuid(u)
  }

  /**
   * COPY runs with `NULL ''`: a column is loaded as NULL exactly when its value was None,
   * because no other value of a payload renders as the empty string.
   */
  lemma OnlyNoneIsCopiedAsNull(v: CopyValue, r: Renderers)
    requires RenderersNonEmpty(r)
    ensures SerializeCopyValue(v, r) == "" <==> v.Null?
  {
    match v
    case Null =>
    case IntValue(i) =>
    case FloatValue(f) =>
    case InstantValue(t) =>
    case UuidValue(u) =>
  }

  function OptionalFloat(f: Option<PyFloat>): CopyValue {
    if f.None? then Null else FloatValue(f.value)
  }

  /** The values of a payload in `_COPY_COLUMNS` order. */
  function CopyValues(p: Payload): (vs: seq<CopyValue>)
    requires |p.derived| == |DerivedFields|
    ensures |vs| == |CopyColumns|
  {
    [IntValue(p.patientId), InstantValue(p.timestamp),
     FloatValue(p.leadImpedanceOhms), FloatValue(p.captureThresholdV),
     FloatValue(p.rWaveSensingMv), FloatValue(p.batteryVoltageV),
     if p.targetFailNext7d.None? then Null else IntValue(p.targetFailNext7d.value)]
    + seq(|DerivedFields|, i requires 0 <= i < |DerivedFields| => OptionalFloat(p.derived[i]))
    + [UuidValue(p.id), InstantValue(p.createdAt)]
  }

  /** `_COPY_COLUMNS`. */
  const CopyColumns: seq<string> := RequiredFields + [LabelField] + DerivedFields + ["id", "created_at"]

  /** The CSV record COPY receives for one payload. */
  function CopyRecord(p: Payload, r: Renderers): (rec: seq<string>)
    requires |p.derived| == |DerivedFields|
    ensures |rec| == |CopyColumns|
  {
    var vs := CopyValues(p);
    seq(|vs|, i requires 0 <= i < |vs| => SerializeCopyValue(vs[i], r))
  }

  /**
   * In the record COPY loads, the label and each derived column are NULL exactly when
   * the payload has no value there, and every other column is never NULL.
   */
  lemma CopyRecordNulls(p: Payload, r: Renderers)
    requires |p.derived| == |DerivedFields| && RenderersNonEmpty(r)
    ensures CopyRecord(p, r)[6] == "" <==> p.targetFailNext7d.None?
    ensures forall i :: 0 <= i < |DerivedFields| ==> (CopyRecord(p, r)[7 + i] == "" <==> p.derived[i].None?)
    ensures forall i :: 0 <= i < 6 || 15 <= i < 17 ==> CopyRecord(p, r)[i] != ""
  {
    var vs := CopyValues(p);
    forall i | 0 <= i < |vs| ensures CopyRecord(p, r)[i] == "" <==> vs[i].Null? {
      OnlyNoneIsCopiedAsNull(vs[i], r);
    }
  }

  // ---------------------------------------------------------------------------
  // `_is_seed_enabled`
  // ---------------------------------------------------------------------------

  const EnabledValues: set<string> := {"1", "true", "yes", "on"}

  /** `_is_seed_enabled`: the variable (default "false"), stripped and lower-cased, is one of the enabled words. */
  function IsSeedEnabled(env: Option<string>): bool {
    var value := Lower(Strip(env.GetOr("false")));
    value in EnabledValues
  }

  /** Surrounding whitespace and letter case do not matter: " TRUE\n" enables the seed like "true". */
  lemma SeedFlagIgnoresPaddingAndCase(p: string, w: string, q: string)
    requires AllSpace(p) && AllSpace(q)
    requires w != [] && !IsSpace(w[0]) && !IsSpace(w[|w| - 1])
    ensures IsSeedEnabled(Some(p + w + q)) <==> Lower(w) in EnabledValues
  {
    StripPadded(p, w, q);
  }

  /** "1", "true", "yes" and "on" enable the seed, and so does "TRUE" with any whitespace around it. */
  lemma SeedFlagTrue()
    ensures forall w :: w in {"1", "true", "yes", "on"} ==> IsSeedEnabled(Some(w))
    ensures forall p, q :: AllSpace(p) && AllSpace(q) ==> IsSeedEnabled(Some(p + "TRUE" + q))
  {
    EnabledWords();
    forall p, q | AllSpace(p) && AllSpace(q)
      ensures IsSeedEnabled(Some(p + "TRUE" + q))
    {
      PaddedUpperCase(p, "TRUE", q);
    }
  }

  /** A padded word that lower-cases to "true" enables the seed. */
  lemma PaddedUpperCase(p: string, w: string, q: string)
    requires AllSpace(p) && AllSpace(q) && w == "TRUE"
    ensures IsSeedEnabled(Some(p + w + q))
  {
    assert Lower(w) == "true";
    SeedFlagIgnoresPaddingAndCase(p, w, q);
  }

  /** Each enabled word, as written, enables the seed. */
  lemma EnabledWords()
    ensures forall w :: w in {"1", "true", "yes", "on"} ==> IsSeedEnabled(Some(w))
  {
    forall w | w in {"1", "true", "yes", "on"} ensures IsSeedEnabled(Some(w)) {
      Enables(w);
    }
  }

  /** `w` holds no ASCII capital, so lower-casing leaves it alone. */
  predicate NoUpper(w: string) {
    forall i :: 0 <= i < |w| ==> !('A' <= w[i] <= 'Z')
  }

  /** A lower-case enabled word, given without padding, enables the seed. */
  lemma Enables(w: string)
    requires w != [] && !IsSpace(w[0]) && !IsSpace(w[|w| - 1])
    requires w in EnabledValues && NoUpper(w)
    ensures IsSeedEnabled(Some(w))
  {
    assert Lower(w) == w;
    SeedFlagIgnoresPaddingAndCase([], w, []);
    assert [] + w + [] == w;
  }

  /** "false", "0" and the empty text do not enable the seed. */
  lemma SeedFlagFalse()
    ensures forall w :: w in {"false", "0", ""} ==> !IsSeedEnabled(Some(w))
  {
    forall w | w in {"false", "0", ""} ensures !IsSeedEnabled(Some(w)) {
      if w == "" {
        assert Strip(w) == "";
      } else {
        Disables(w);
      }
    }
  }

  /** A word outside the enabled ones that lower-casing leaves alone does not enable the seed. */
  lemma Disables(w: string)
    requires w != [] && !IsSpace(w[0]) && !IsSpace(w[|w| - 1])
    requires w !in EnabledValues && NoUpper(w)
    ensures !IsSeedEnabled(Some(w))
  {
    assert Lower(w) == w;
    SeedFlagIgnoresPaddingAndCase([], w, []);
    assert [] + w + [] == w;
  }

  /** An unset variable counts as "false": the seed is off by default. */
  lemma SeedFlagUnset()
    ensures !IsSeedEnabled(None)
  {
    SeedFlagFalse();
    var unset: Option<string> := None;
    assert unset.GetOr("false") == Some("false").GetOr("false");
    assert "false" in {"false", "0", ""};
  }

  // ---------------------------------------------------------------------------
  // The seed loop: `seed_pacemaker_telemetry_if_empty`
  // ---------------------------------------------------------------------------

  /** How a normalised row, its uuid and its creation time become a payload or an error. */
  type RowBuilder = (map<string, string>, Uuid, Instant) -> Outcome<Payload>

  /** `_build_payload` with the parsers fixed. */
  function Builder(p: Parsers): RowBuilder {
    (row: map<string, string>, id: Uuid, createdAt: Instant) => BuildPayload(row, p, id, createdAt)
  }

  /** What `build` makes of every CSV row, the row's uuid and time given. */
  function RowOutcomes(rows: seq<CsvRow>, build: RowBuilder, ids: seq<Uuid>, clock: seq<Instant>): (os: seq<Outcome<Payload>>)
    requires |ids| == |rows| && |clock| == |rows|
    ensures |os| == |rows|
    ensures forall i :: 0 <= i < |rows| ==> os[i] == build(Normalized(rows[i]), ids[i], clock[i])
  {
    seq(|rows|, i requires 0 <= i < |rows| => build(Normalized(rows[i]), ids[i], clock[i]))
  }

  predicate Fatal(o: Outcome<Payload>) { o.Raised? && o.e != ValueError }

  /** The index of the first row whose error ends the seed, or the number of rows. */
  function FirstFatal(os: seq<Outcome<Payload>>): (k: nat)
    ensures k <= |os|
    ensures forall i :: 0 <= i < k ==> !Fatal(os[i])
    ensures k < |os| ==> Fatal(os[k])
  {
    if os == [] then 0
    else if Fatal(os[0]) then 0
    else
      assert forall i :: 1 <= i < |os| ==> os[i] == os[1..][i - 1];
      1 + FirstFatal(os[1..])
  }

  /** The payloads built, in row order. */
  function Accepted(os: seq<Outcome<Payload>>): (ps: seq<Payload>)
    ensures |ps| <= |os|
  {
    if os == [] then []
    else Accepted(os[..|os| - 1]) + (if os[|os| - 1].Done? then [os[|os| - 1].v] else [])
  }

  /** The number of rows skipped with a ValueError. */
  function Rejected(os: seq<Outcome<Payload>>): nat {
    if os == [] then 0
    else Rejected(os[..|os| - 1]) + (if os[|os| - 1] == Raised(ValueError) then 1 else 0)
  }

  /** Without a fatal error every row is either inserted or skipped. */
  lemma {:induction false} AcceptedPlusRejected(os: seq<Outcome<Payload>>)
    requires forall i :: 0 <= i < |os| ==> !Fatal(os[i])
    ensures |Accepted(os)| + Rejected(os) == |os|
  {
    if os != [] {
      AcceptedPlusRejected(os[..|os| - 1]);
    }
  }

  /** A flush happens when the batch reaches `batch_size`; a size below 1 flushes after every row. */
  function EffectiveBatchSize(batchSize: int): (b: nat)
    ensures b >= 1 && (batchSize >= 1 ==> b == batchSize)
  {
    if batchSize >= 1 then batchSize else 1
  }

  datatype SeedOutcome =
    | FlagDisabled
    | TableUnavailable
    | CsvNotFound
    | Completed(inserted: nat, skipped: nat)
    | Aborted(e: Failure)

  /** The largest multiple of `b` not above `n`: the rows flushed once `n` rows are batched. */
  function RoundDown(n: nat, b: nat): (r: nat)
    requires b >= 1
    ensures r <= n && n - r < b
  {
    if n < b then 0 else b + RoundDown(n - b, b)
  }

  lemma {:induction false} RoundDownStep(x: nat, b: nat)
    requires b >= 1
    ensures RoundDown(x + 1, b) == if x - RoundDown(x, b) == b - 1 then x + 1 else RoundDown(x, b)
  {
    if x >= b {
      RoundDownStep(x - b, b);
    }
  }

  /** One more row's outcome extends the accepted payloads and the skip count by that row alone. */
  lemma OutcomesStep(os: seq<Outcome<Payload>>, i: nat)
    requires i < |os|
    ensures Accepted(os[..i + 1]) == Accepted(os[..i]) + (if os[i].Done? then [os[i].v] else [])
    ensures Rejected(os[..i + 1]) == Rejected(os[..i]) + (if os[i] == Raised(ValueError) then 1 else 0)
  {
    assert os[..i + 1][..i] == os[..i];
  }

  /**
   * The batching state after some accepted payloads: the committed batches, each of
   * size `b`, followed by the pending batch give the accepted payloads, and the pending
   * batch holds what is left over after the last full batch.
   */
  ghost predicate Batched(written: seq<seq<Payload>>, batch: seq<Payload>, accepted: seq<Payload>, b: nat)
    requires b >= 1
  {
    && Flatten(written) + batch == accepted
    && (forall j :: 0 <= j < |written| ==> |written[j]| == b)
    && |batch| == |accepted| - RoundDown(|accepted|, b)
  }

  /** Appending a payload to the pending batch keeps the state, flushing exactly when it fills. */
  lemma BatchedAppend(written: seq<seq<Payload>>, batch: seq<Payload>, accepted: seq<Payload>, b: nat, x: Payload)
    requires b >= 1 && Batched(written, batch, accepted, b)
    ensures |batch + [x]| <= b
    ensures |batch + [x]| < b ==> Batched(written, batch + [x], accepted + [x], b)
    ensures |batch + [x]| == b ==> Batched(written + [batch + [x]], [], accepted + [x], b)
  {
    RoundDownStep(|accepted|, b);
    assert Flatten(written) + (batch + [x]) == accepted + [x];
    if |batch + [x]| == b {
      assert (written + [batch + [x]])[..|written|] == written;
    }
  }

  /** The committed batches are the payloads accepted up to the last full batch. */
  lemma BatchedPrefix(written: seq<seq<Payload>>, batch: seq<Payload>, accepted: seq<Payload>, b: nat)
    requires b >= 1 && Batched(written, batch, accepted, b)
    ensures Flatten(written) == accepted[..RoundDown(|accepted|, b)]
  {
    assert (Flatten(written) + batch)[..|Flatten(written)|] == Flatten(written);
  }

  /**
   * What loading the rows whose outcomes are `os` does to the table: with no fatal error
   * every accepted payload is inserted, in order, in batches of `batch_size` (at least 1)
   * with a final smaller one, and the counts cover every row; a fatal error at row `k`
   * ends the load with that error and leaves the full batches committed before it.
   */
  ghost predicate Loaded(rows0: seq<Payload>, copies0: seq<seq<Payload>>, rows: seq<Payload>, copies: seq<seq<Payload>>,
                         outcome: SeedOutcome, os: seq<Outcome<Payload>>, batchSize: int)
  {
    var k := FirstFatal(os);
    var accepted := Accepted(os[..k]);
    var b := EffectiveBatchSize(batchSize);
    && |copies| >= |copies0| && copies[..|copies0|] == copies0
    && (forall j :: |copies0| <= j < |copies| ==> 1 <= |copies[j]| <= b)
    && (k == |os| ==>
          && outcome == Completed(|accepted|, Rejected(os))
          && outcome.inserted + outcome.skipped == |os|
          && rows == rows0 + accepted
          && Flatten(copies[|copies0|..]) == accepted)
    && (k < |os| ==>
          && outcome == Aborted(os[k].e)
          && rows == rows0 + accepted[..RoundDown(|accepted|, b)]
          && Flatten(copies[|copies0|..]) == accepted[..RoundDown(|accepted|, b)])
  }

  /**
   * The state of the load after its first `i` rows: no fatal row among them, the table
   * and the commits extended by the full batches written so far, the pending batch
   * holding the rest of the accepted payloads, and the two counters.
   */
  ghost predicate LoadState(rows0: seq<Payload>, copies0: seq<seq<Payload>>, rows: seq<Payload>, copies: seq<seq<Payload>>,
                            written: seq<seq<Payload>>, batch: seq<Payload>, inserted: nat, skipped: nat,
                            os: seq<Outcome<Payload>>, i: nat, b: nat)
    requires b >= 1
  {
    && i <= FirstFatal(os)
    && copies == copies0 + written
    && rows == rows0 + Flatten(written)
    && Batched(written, batch, Accepted(os[..i]), b)
    && inserted == |Flatten(written)|
    && skipped == Rejected(os[..i])
  }

  /** A row skipped with a ValueError only moves the skip counter. */
  lemma LoadSkip(rows0: seq<Payload>, copies0: seq<seq<Payload>>, rows: seq<Payload>, copies: seq<seq<Payload>>,
                 written: seq<seq<Payload>>, batch: seq<Payload>, inserted: nat, skipped: nat,
                 os: seq<Outcome<Payload>>, i: nat, b: nat)
    requires b >= 1 && LoadState(rows0, copies0, rows, copies, written, batch, inserted, skipped, os, i, b)
    requires i < |os| && os[i] == Raised(ValueError)
    ensures LoadState(rows0, copies0, rows, copies, written, batch, inserted, skipped + 1, os, i + 1, b)
  {
    OutcomesStep(os, i);
  }

  /**
   * An accepted payload joins the pending batch, which never grows past `b`; once it
   * holds `b` payloads, writing it restores the state with an empty pending batch.
   */
  lemma LoadAccept(rows0: seq<Payload>, copies0: seq<seq<Payload>>, rows: seq<Payload>, copies: seq<seq<Payload>>,
                   written: seq<seq<Payload>>, batch: seq<Payload>, inserted: nat, skipped: nat,
                   os: seq<Outcome<Payload>>, i: nat, b: nat)
    requires b >= 1 && LoadState(rows0, copies0, rows, copies, written, batch, inserted, skipped, os, i, b)
    requires i < |os| && os[i].Done?
    ensures var full := batch + [os[i].v];
      && |full| <= b
      && (|full| < b ==> LoadState(rows0, copies0, rows, copies, written, full, inserted, skipped, os, i + 1, b))
      && (|full| == b ==> LoadState(rows0, copies0, rows + full, copies + [full], written + [full], [],
                                    inserted + |full|, skipped, os, i + 1, b))
  {
    OutcomesStep(os, i);
    var full := batch + [os[i].v];
    BatchedAppend(written, batch, Accepted(os[..i]), b, os[i].v);
    assert Accepted(os[..i + 1]) == Accepted(os[..i]) + [os[i].v];
    if |full| == b {
      LoadFlush(rows0, copies0, rows, copies, written, full, inserted, skipped, os, i + 1, b);
    }
  }

  /** Writing a full batch moves it from the pending batch to the committed rows. */
  lemma LoadFlush(rows0: seq<Payload>, copies0: seq<seq<Payload>>, rows: seq<Payload>, copies: seq<seq<Payload>>,
                  written: seq<seq<Payload>>, full: seq<Payload>, inserted: nat, skipped: nat,
                  os: seq<Outcome<Payload>>, i: nat, b: nat)
    requires b >= 1 && i <= FirstFatal(os) && i <= |os| && |full| == b
    requires copies == copies0 + written && rows == rows0 + Flatten(written) && inserted == |Flatten(written)|
    requires skipped == Rejected(os[..i]) && Batched(written + [full], [], Accepted(os[..i]), b)
    ensures LoadState(rows0, copies0, rows + full, copies + [full], written + [full], [], inserted + |full|, skipped, os, i, b)
  {
    FlattenSnoc(written, full);
    AppendAssoc(copies0, written, [full]);
    AppendAssoc(rows0, Flatten(written), full);
  }

  lemma AppendAssoc<T>(a: seq<T>, b: seq<T>, c: seq<T>)
    ensures (a + b) + c == a + (b + c)
  {
  }

  /** A fatal row ends the load with the full batches before it committed. */
  lemma LoadAborted(rows0: seq<Payload>, copies0: seq<seq<Payload>>, rows: seq<Payload>, copies: seq<seq<Payload>>,
                    written: seq<seq<Payload>>, batch: seq<Payload>, inserted: nat, skipped: nat,
                    os: seq<Outcome<Payload>>, i: nat, batchSize: int)
    requires LoadState(rows0, copies0, rows, copies, written, batch, inserted, skipped, os, i, EffectiveBatchSize(batchSize))
    requires i < |os| && Fatal(os[i])
    ensures Loaded(rows0, copies0, rows, copies, Aborted(os[i].e), os, batchSize)
  {
    BatchedPrefix(written, batch, Accepted(os[..i]), EffectiveBatchSize(batchSize));
    assert copies[|copies0|..] == written;
  }

  /** Committing every accepted payload, in batches of 1 to `b`, completes the load. */
  lemma LoadFinished(rows0: seq<Payload>, copies0: seq<seq<Payload>>, all: seq<seq<Payload>>,
                     os: seq<Outcome<Payload>>, batchSize: int)
    requires FirstFatal(os) == |os|
    requires Flatten(all) == Accepted(os)
    requires forall j :: 0 <= j < |all| ==> 1 <= |all[j]| <= EffectiveBatchSize(batchSize)
    ensures Loaded(rows0, copies0, rows0 + Flatten(all), copies0 + all,
                   Completed(|Accepted(os)|, Rejected(os)), os, batchSize)
  {
    assert os[..|os|] == os;
    assert (copies0 + all)[|copies0|..] == all;
    AcceptedPlusRejected(os);
  }

  /** After the last row, the state holds every accepted payload, committed or pending. */
  lemma LoadEnd(rows0: seq<Payload>, copies0: seq<seq<Payload>>, rows: seq<Payload>, copies: seq<seq<Payload>>,
                written: seq<seq<Payload>>, batch: seq<Payload>, inserted: nat, skipped: nat,
                os: seq<Outcome<Payload>>, b: nat)
    requires b >= 1 && LoadState(rows0, copies0, rows, copies, written, batch, inserted, skipped, os, |os|, b)
    ensures FirstFatal(os) == |os| && Flatten(written) + batch == Accepted(os)
    ensures |batch| < b && skipped == Rejected(os)
    ensures forall j :: 0 <= j < |written| ==> |written[j]| == b
  {
    assert os[..|os|] == os;
  }

  /** After the last row, writing the pending batch (when not empty) completes the load. */
  lemma LoadCompleted(rows0: seq<Payload>, copies0: seq<seq<Payload>>, rows: seq<Payload>, copies: seq<seq<Payload>>,
                      written: seq<seq<Payload>>, batch: seq<Payload>, inserted: nat, skipped: nat,
                      os: seq<Outcome<Payload>>, batchSize: int)
    requires LoadState(rows0, copies0, rows, copies, written, batch, inserted, skipped, os, |os|, EffectiveBatchSize(batchSize))
    ensures batch == [] ==> Loaded(rows0, copies0, rows, copies, Completed(inserted, skipped), os, batchSize)
    ensures batch != [] ==> Loaded(rows0, copies0, rows + batch, copies + [batch],
                                   Completed(inserted + |batch|, skipped), os, batchSize)
  {
    var b := EffectiveBatchSize(batchSize);
    LoadEnd(rows0, copies0, rows, copies, written, batch, inserted, skipped, os, b);
    if batch == [] {
      assert Flatten(written) == Accepted(os);
      LoadFinished(rows0, copies0, written, os, batchSize);
    } else {
      var all := written + [batch];
      FlattenSnoc(written, batch);
      assert rows + batch == rows0 + Flatten(all);
      assert copies + [batch] == copies0 + all;
      LoadFinished(rows0, copies0, all, os, batchSize);
    }
  }

  /** The `pacemaker_telemetry` table as the seed sees it. */
  class TelemetryTable {
    var rows: seq<Payload>
    /** The batches written by COPY, one per commit, oldest first. */
    ghost var copies: seq<seq<Payload>>

    constructor (initial: seq<Payload>)
      ensures rows == initial && copies == []
    {
      rows := initial;
      copies := [];
    }

    /** `_copy_batch` followed by the commit: an empty batch writes nothing. */
    method CopyBatch(batch: seq<Payload>)
      modifies this
      ensures batch == [] ==> rows == old(rows) && copies == old(copies)
      ensures batch != [] ==> rows == old(rows) + batch && copies == old(copies) + [batch]
    {
      if batch == [] {
        return;
      }
      rows := rows + batch;
      copies := copies + [batch];
    }

    /**
     * `seed_pacemaker_telemetry_if_empty`: the environment flag, whether the table is
     * queryable and whether the CSV exists decide whether to seed at all; then the rows
     * are loaded.
     */
    method Seed(env: Option<string>, tableAvailable: bool, csvFound: bool, csvRows: seq<CsvRow>,
                batchSize: int, p: Parsers, ids: seq<Uuid>, clock: seq<Instant>) returns (outcome: SeedOutcome)
      requires |ids| == |csvRows| && |clock| == |csvRows|
      modifies this
      ensures !IsSeedEnabled(env) ==> outcome == FlagDisabled
      ensures IsSeedEnabled(env) && !tableAvailable ==> outcome == TableUnavailable
      ensures IsSeedEnabled(env) && tableAvailable && !csvFound ==> outcome == CsvNotFound
      ensures outcome.FlagDisabled? || outcome.TableUnavailable? || outcome.CsvNotFound? ==> rows == old(rows) && copies == old(copies)
      ensures IsSeedEnabled(env) && tableAvailable && csvFound ==>
                Loaded(old(rows), old(copies), rows, copies, outcome, RowOutcomes(csvRows, Builder(p), ids, clock), batchSize)
    {
      if !IsSeedEnabled(env) {
        return FlagDisabled;
      }
      if !tableAvailable {
        return TableUnavailable;
      }
      if !csvFound {
        return CsvNotFound;
      }
      outcome := LoadRows(csvRows, batchSize, Builder(p), ids, clock);
    }

    /**
     * The loop over the CSV rows: every row is normalised and built, a ValueError skips
     * the row, any other error ends the seed, and full batches are written as they fill,
     * the remainder at the end.
     */
    method LoadRows(csvRows: seq<CsvRow>, batchSize: int, build: RowBuilder, ids: seq<Uuid>, clock: seq<Instant>)
      returns (outcome: SeedOutcome)
      requires |ids| == |csvRows| && |clock| == |csvRows|
      modifies this
      ensures Loaded(old(rows), old(copies), rows, copies, outcome, RowOutcomes(csvRows, build, ids, clock), batchSize)
    {
      ghost var os := RowOutcomes(csvRows, build, ids, clock);
      ghost var written: seq<seq<Payload>> := [];
      var b := EffectiveBatchSize(batchSize);
      var insertedRows: nat := 0;
      var skippedRows: nat := 0;
      var batch: seq<Payload> := [];
      for i := 0 to |csvRows|
        invariant LoadState(old(rows), old(copies), rows, copies, written, batch, insertedRows, skippedRows, os, i, b)
      {
        var normalized := NormalizeRow(csvRows[i]);
        var payload := build(normalized, ids[i], clock[i]);
        if payload.Raised? {
          if payload.e != ValueError {
            LoadAborted(old(rows), old(copies), rows, copies, written, batch, insertedRows, skippedRows, os, i, batchSize);
            return Aborted(payload.e);
          }
          LoadSkip(old(rows), old(copies), rows, copies, written, batch, insertedRows, skippedRows, os, i, b);
          skippedRows := skippedRows + 1;
          continue;
        }
        LoadAccept(old(rows), old(copies), rows, copies, written, batch, insertedRows, skippedRows, os, i, b);
        batch := batch + [payload.v];
        if |batch| >= batchSize {
          CopyBatch(batch);
          written := written + [batch];
          insertedRows := insertedRows + |batch|;
          batch := [];
        }
      }
      LoadCompleted(old(rows), old(copies), rows, copies, written, batch, insertedRows, skippedRows, os, batchSize);
      if batch != [] {
        CopyBatch(batch);
        insertedRows := insertedRows + |batch|;
      }
      outcome := Completed(insertedRows, skippedRows);
    }
  }
}
