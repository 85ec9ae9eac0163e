/**
 * Loading the telemetry CSV for a replay (`load_and_normalize_csv` in
 * backend/util/replay_telemetry.py) and the replay's top level (`main`): the aliased
 * column names are renamed, the required columns checked, the payload columns chosen
 * and converted, and the rows sorted stably by (timestamp, patient id) before the daily
 * batches are built and posted.
 */
module ReplayLoad {

  import opened Common
  import opened StableSort
  import opened Text
  import opened Frames
  import opened ReplayTelemetry

  const RequiredPayloadFields: seq<string> := [
    "patient_id",
    "timestamp",
    "lead_impedance_ohms",
    "capture_threshold_v",
    "r_wave_sensing_mv",
    "battery_voltage_v"
  ]

  const OptionalPayloadFields: seq<string> := [
    "target_fail_next_7d",
    "lead_impedance_ohms_rolling_mean_3d",
    "lead_impedance_ohms_rolling_mean_7d",
    "capture_threshold_v_rolling_mean_3d",
    "capture_threshold_v_rolling_mean_7d",
    "lead_impedance_ohms_delta_per_day_3d",
    "lead_impedance_ohms_delta_per_day_7d",
    "capture_threshold_v_delta_per_day_3d",
    "capture_threshold_v_delta_per_day_7d"
  ]

  const ColumnAliases: map<string, string> := map[
    "Patient_ID" := "patient_id",
    "Timestamp" := "timestamp",
    "Lead_Impedance_Ohms" := "lead_impedance_ohms",
    "Capture_Threshold_V" := "capture_threshold_v",
    "R_Wave_Sensing_mV" := "r_wave_sensing_mv",
    "Battery_Voltage_V" := "battery_voltage_v",
    "Target_Fail_Next_7d" := "target_fail_next_7d",
    "Lead_Impedance_Ohms_RollingMean_3d" := "lead_impedance_ohms_rolling_mean_3d",
    "Lead_Impedance_Ohms_RollingMean_7d" := "lead_impedance_ohms_rolling_mean_7d",
    "Capture_Threshold_V_RollingMean_3d" := "capture_threshold_v_rolling_mean_3d",
    "Capture_Threshold_V_RollingMean_7d" := "capture_threshold_v_rolling_mean_7d",
    "Lead_Impedance_Ohms_DeltaPerDay_3d" := "lead_impedance_ohms_delta_per_day_3d",
    "Lead_Impedance_Ohms_DeltaPerDay_7d" := "lead_impedance_ohms_delta_per_day_7d",
    "Capture_Threshold_V_DeltaPerDay_3d" := "capture_threshold_v_delta_per_day_3d",
    "Capture_Threshold_V_DeltaPerDay_7d" := "capture_threshold_v_delta_per_day_7d"
  ]

  // ---------------------------------------------------------------------------
  // Column names
  // ---------------------------------------------------------------------------

  /** `df.rename(columns=_COLUMN_ALIASES)` on one column name. */
  function Rename(column: string): string {
    if column in ColumnAliases then ColumnAliases[column] else column
  }

  function RenameAll(columns: seq<string>): (r: seq<string>)
    ensures |r| == |columns| && forall i :: 0 <= i < |columns| ==> r[i] == Rename(columns[i])
  {
    seq(|columns|, i requires 0 <= i < |columns| => Rename(columns[i]))
  }

  /** The fields of `fields` that are columns of `columns`, in the order of `fields`. */
  function Present(fields: seq<string>, columns: seq<string>): seq<string> {
    if fields == [] then []
    else
      var n := |fields| - 1;
      Present(fields[..n], columns) + (if fields[n] in columns then [fields[n]] else [])
  }

  /** The fields of `fields` that are not columns of `columns`, in the order of `fields`. */
  function Absent(fields: seq<string>, columns: seq<string>): seq<string> {
    if fields == [] then []
    else
      var n := |fields| - 1;
      Absent(fields[..n], columns) + (if fields[n] !in columns then [fields[n]] else [])
  }

  /** `a` is `b` with some elements left out (greedy match from the back). */
  predicate IsSubsequence(a: seq<string>, b: seq<string>) {
    if a == [] then true
    else if b == [] then false
    else if a[|a| - 1] == b[|b| - 1] then IsSubsequence(a[..|a| - 1], b[..|b| - 1])
    else IsSubsequence(a, b[..|b| - 1])
  }

  /** `Present` keeps exactly the fields that are columns, in declared order. */
  lemma {:induction false} PresentSpec(fields: seq<string>, columns: seq<string>)
    ensures forall f :: f in Present(fields, columns) <==> f in fields && f in columns
    ensures IsSubsequence(Present(fields, columns), fields)
  {
    if fields != [] {
      var n := |fields| - 1;
      PresentSpec(fields[..n], columns);
      assert fields == fields[..n] + [fields[n]];
      var p := Present(fields[..n], columns);
      if fields[n] in columns {
        assert (p + [fields[n]])[..|p|] == p;
      } else {
        assert p + [] == p;
        if p != [] {
          assert p[|p| - 1] in p;
        }
      }
    }
  }

  /** `Absent` keeps exactly the fields that are not columns, in declared order. */
  lemma {:induction false} AbsentSpec(fields: seq<string>, columns: seq<string>)
    ensures forall f :: f in Absent(fields, columns) <==> f in fields && f !in columns
    ensures IsSubsequence(Absent(fields, columns), fields)
  {
    if fields != [] {
      var n := |fields| - 1;
      AbsentSpec(fields[..n], columns);
      assert fields == fields[..n] + [fields[n]];
      var p := Absent(fields[..n], columns);
      if fields[n] !in columns {
        assert (p + [fields[n]])[..|p|] == p;
      } else {
        assert p + [] == p;
        if p != [] {
          assert p[|p| - 1] in p;
        }
      }
    }
  }


  /** How often `x` occurs in `s`. */
  function Occurrences(s: seq<string>, x: string): nat {
    if s == [] then 0 else Occurrences(s[..|s| - 1], x) + (if s[|s| - 1] == x then 1 else 0)
  }

  /** The first of `names` that labels more than one column of `columns`. */
  function Repeated(names: seq<string>, columns: seq<string>): (r: Option<string>)
    ensures r.Some? ==> r.value in names && Occurrences(columns, r.value) > 1
    ensures r.None? ==> forall j :: 0 <= j < |names| ==> Occurrences(columns, names[j]) <= 1
  {
    if names == [] then None
    else if Occurrences(columns, names[0]) > 1 then Some(names[0])
    else
      var r := Repeated(names[1..], columns);
      assert forall j :: 1 <= j < |names| ==> names[j] == names[1..][j - 1];
      r
  }

  // ---------------------------------------------------------------------------
  // Conversions: `to_numeric` and `astype`
  // ---------------------------------------------------------------------------

  /**
   * The conversion a payload column receives: `to_numeric(errors="raise").astype(int)` for
   * the id and time, `.astype(float)` for the four measurements, `to_numeric(errors="coerce")
   * .round().astype("Int64")` for the label, none for the derived features.
   */
  datatype Conversion = AsInt | AsFloat | AsLabel | Unchanged

  function ConversionOf(column: string): Conversion {
    if column == "patient_id" || column == "timestamp" then AsInt
    else if column in RequiredPayloadFields[2..] then AsFloat
    else if column == "target_fail_next_7d" then AsLabel
    else Unchanged
  }

  /**
   * Whether converting `c` raises. `numeric(s)` is the number `to_numeric` reads from the
   * string `s`, or None when it cannot read one.
   */
  predicate Raises(k: Conversion, c: Cell, numeric: string -> Option<real>) {
    match k
    case AsInt => IsMissing(c) || (c.TextCell? && numeric(c.s).None?)
    case AsFloat => c.TextCell? && numeric(c.s).None?
    case AsLabel => false
    case Unchanged => false
  }

  /** The converted value of `c`. */
  function Converted(k: Conversion, c: Cell, numeric: string -> Option<real>): (r: Cell)
    requires !Raises(k, c, numeric)
    ensures k == AsInt ==> r.IntCell?
    ensures k == AsFloat ==> r.FloatCell? || r.NaN?
    ensures k == AsLabel ==> r.NA? || r.IntCell?
    ensures k == Unchanged ==> r == c
  {
    match k
    case AsInt =>
      (match c
       case IntCell(i) => IntCell(i)
       case FloatCell(x) => IntCell(Trunc(x))
       case TextCell(s) => IntCell(Trunc(numeric(s).value))
       case _ => IntCell(0))
    case AsFloat =>
      (match c
       case IntCell(i) => FloatCell(i as real)
       case FloatCell(x) => FloatCell(x)
       case TextCell(s) => FloatCell(numeric(s).value)
       case _ => NaN)
    case AsLabel =>
      (match c
       case IntCell(i) => IntCell(i)
       case FloatCell(x) => IntCell(RoundHalfEven(x))
       case TextCell(s) => if numeric(s).Some? then IntCell(RoundHalfEven(numeric(s).value)) else NA
       case _ => NA)
    case Unchanged => c
  }

  /** Converting the column named `name` raises for some row. */
  predicate ColumnRaises(csv: Frame, header: seq<string>, name: string, numeric: string -> Option<real>)
    requires Rectangular(csv) && |header| == |csv.columns| && name in header
  {
    exists i :: 0 <= i < |csv.rows| && Raises(ConversionOf(name), csv.rows[i][IndexOf(header, name)], numeric)
  }

  lemma NoRaiseAt(csv: Frame, header: seq<string>, name: string, numeric: string -> Option<real>, i: nat)
    requires Rectangular(csv) && |header| == |csv.columns| && name in header
    requires !ColumnRaises(csv, header, name, numeric) && i < |csv.rows|
    ensures !Raises(ConversionOf(name), csv.rows[i][IndexOf(header, name)], numeric)
  {
  }

  /** The columns `load_and_normalize_csv` converts, in the order it converts them. */
  function ConvertedColumns(header: seq<string>): seq<string> {
    RequiredPayloadFields + (if "target_fail_next_7d" in header then ["target_fail_next_7d"] else [])
  }

  /**
   * What converting the column `name` raises, if anything: `to_numeric` refuses a label
   * that selects two columns with TypeError; otherwise a value that does not convert raises.
   */
  function ConversionFault(csv: Frame, header: seq<string>, name: string, numeric: string -> Option<real>): (r: Option<LoadError>)
    requires Rectangular(csv) && |header| == |csv.columns| && name in header
    ensures r.None? <==> Occurrences(header, name) <= 1 && !ColumnRaises(csv, header, name, numeric)
    ensures r.Some? ==> r.value == DuplicateColumn(name) || r.value == Unconvertible(name)
  {
    if Occurrences(header, name) > 1 then Some(DuplicateColumn(name))
    else if ColumnRaises(csv, header, name, numeric) then Some(Unconvertible(name))
    else None
  }

  /** The position of the first of `names`, converted in this order, whose conversion raises. */
  function FirstFaulty(csv: Frame, header: seq<string>, names: seq<string>, numeric: string -> Option<real>): (r: Option<nat>)
    requires Rectangular(csv) && |header| == |csv.columns|
    requires forall j :: 0 <= j < |names| ==> names[j] in header
    ensures r.None? <==> forall j :: 0 <= j < |names| ==> ConversionFault(csv, header, names[j], numeric).None?
    ensures r.Some? ==> r.value < |names| && ConversionFault(csv, header, names[r.value], numeric).Some?
    ensures r.Some? ==> forall k :: 0 <= k < r.value ==> ConversionFault(csv, header, names[k], numeric).None?
  {
    if names == [] then None
    else if ConversionFault(csv, header, names[0], numeric).Some? then Some(0)
    else
      var r := FirstFaulty(csv, header, names[1..], numeric);
      assert forall j :: 1 <= j < |names| ==> names[j] == names[1..][j - 1];
      if r.Some? then Some(r.value + 1) else None
  }

  /** The rows restricted to the payload columns, in payload order, each value converted. */
  function ConvertRows(csv: Frame, header: seq<string>, payload: seq<string>, numeric: string -> Option<real>): (rows: seq<seq<Cell>>)
    requires Rectangular(csv) && |header| == |csv.columns|
    requires forall j :: 0 <= j < |payload| ==> payload[j] in header && !ColumnRaises(csv, header, payload[j], numeric)
    ensures |rows| == |csv.rows|
    ensures forall i :: 0 <= i < |rows| ==> |rows[i]| == |payload|
  {
    seq(|csv.rows|, i requires 0 <= i < |csv.rows| =>
      seq(|payload|, j requires 0 <= j < |payload| =>
        NoRaiseAt(csv, header, payload[j], numeric, i);
        Converted(ConversionOf(payload[j]), csv.rows[i][IndexOf(header, payload[j])], numeric)))
  }

  /** The sort key of a converted row: (timestamp, patient id). */
  function SortKey(row: seq<Cell>): Key {
    (if |row| > 1 && row[1].IntCell? then row[1].i else 0,
     if |row| > 0 && row[0].IntCell? then row[0].i else 0)
  }

  // ---------------------------------------------------------------------------
  // `load_and_normalize_csv`
  // ---------------------------------------------------------------------------

  /** How loading fails: FileNotFoundError, ValueError with a message, or a raising conversion. */
  datatype LoadError =
    | NotFound(message: string)
    | Invalid(message: string)
    /** A payload column that occurs twice: `to_numeric` receives two columns and raises TypeError. */
    | DuplicateColumn(column: string)
    | Unconvertible(column: string)

  /** The payload columns: the required ones, then the optional ones the CSV has. */
  function PayloadColumns(header: seq<string>): seq<string> {
    RequiredPayloadFields + Present(OptionalPayloadFields, header)
  }

  /**
   * `load_and_normalize_csv(path)`; `found` is whether the path exists and `csv` the table
   * `pd.read_csv` returns for it.
   */
  function LoadAndNormalize(path: string, found: bool, csv: Frame, numeric: string -> Option<real>): (r: Result<Frame, LoadError>)
    requires Rectangular(csv)
  {
    if !found then Err(NotFound("CSV file not found: " + path))
    // `read_csv` raises `EmptyDataError` (a `ValueError`) when there is no header to parse.
    else if |csv.columns| == 0 then Err(Invalid("No columns to parse from file"))
    else if |csv.rows| == 0 then Err(Invalid("CSV file is empty."))
    else
      var header := RenameAll(csv.columns);
      var missing := Absent(RequiredPayloadFields, header);
      if missing != [] then Err(Invalid("CSV is missing required telemetry columns: " + Join(missing, ", ")))
      else
        var payload := PayloadColumns(header);
        PayloadColumnsInHeader(header);
        ConvertedColumnsInHeader(header);
        var converted := ConvertedColumns(header);
        var faulty := FirstFaulty(csv, header, converted, numeric);
        if faulty.Some? then Err(ConversionFault(csv, header, converted[faulty.value], numeric).value)
        else
          var repeated := Repeated(payload, header);
          if repeated.Some? then Err(DuplicateColumn(repeated.value))
          else
            PayloadConverts(csv, header, numeric);
            Ok(Frame(payload, SortBy(ConvertRows(csv, header, payload, numeric), SortKey)))
  }

  lemma ConvertedColumnsInHeader(header: seq<string>)
    requires Absent(RequiredPayloadFields, header) == []
    ensures forall j :: 0 <= j < |ConvertedColumns(header)| ==> ConvertedColumns(header)[j] in header
  {
    AbsentSpec(RequiredPayloadFields, header);
    forall j | 0 <= j < |ConvertedColumns(header)|
      ensures ConvertedColumns(header)[j] in header
    {
      if j < |RequiredPayloadFields| {
        assert RequiredPayloadFields[j] in RequiredPayloadFields;
      }
    }
  }

  /** When no converted column faults, no payload column raises: the others are left unchanged. */
  lemma PayloadConverts(csv: Frame, header: seq<string>, numeric: string -> Option<real>)
    requires Rectangular(csv) && |header| == |csv.columns|
    requires Absent(RequiredPayloadFields, header) == []
    requires forall j :: 0 <= j < |ConvertedColumns(header)| ==> ConvertedColumns(header)[j] in header
    requires FirstFaulty(csv, header, ConvertedColumns(header), numeric).None?
    ensures forall j :: 0 <= j < |PayloadColumns(header)| ==>
              PayloadColumns(header)[j] in header && !ColumnRaises(csv, header, PayloadColumns(header)[j], numeric)
  {
    PayloadColumnsInHeader(header);
    var payload := PayloadColumns(header);
    var converted := ConvertedColumns(header);
    forall j | 0 <= j < |payload|
      ensures !ColumnRaises(csv, header, payload[j], numeric)
    {
      var name := payload[j];
      if j < |RequiredPayloadFields| {
        assert name == converted[j];
        assert ConversionFault(csv, header, converted[j], numeric).None?;
      } else {
        var k := ConversionOf(name);
        if k == AsInt || k == AsFloat {
          assert name in RequiredPayloadFields by {
            if name == "patient_id" {
              assert RequiredPayloadFields[0] == name;
            } else if name == "timestamp" {
              assert RequiredPayloadFields[1] == name;
            } else {
              assert name in RequiredPayloadFields[2..];
            }
          }
          var i :| 0 <= i < |RequiredPayloadFields| && RequiredPayloadFields[i] == name;
          assert converted[i] == name;
          assert ConversionFault(csv, header, converted[i], numeric).None?;
        }
      }
    }
  }

  lemma PayloadColumnsInHeader(header: seq<string>)
    requires Absent(RequiredPayloadFields, header) == []
    ensures forall j :: 0 <= j < |PayloadColumns(header)| ==> PayloadColumns(header)[j] in header
  {
    AbsentSpec(RequiredPayloadFields, header);
    PresentSpec(OptionalPayloadFields, header);
    forall j | 0 <= j < |PayloadColumns(header)|
      ensures PayloadColumns(header)[j] in header
    {
      if j < |RequiredPayloadFields| {
        assert RequiredPayloadFields[j] in RequiredPayloadFields;
      } else {
        assert PayloadColumns(header)[j] in Present(OptionalPayloadFields, header);
      }
    }
  }

  /**
   * The error cases, in the order they are checked: a missing file, an empty table, and
   * missing required columns, which are all named in declared order.
   */
  lemma LoadErrors(path: string, found: bool, csv: Frame, numeric: string -> Option<real>)
    requires Rectangular(csv)
    ensures !found ==> LoadAndNormalize(path, found, csv, numeric) == Err(NotFound("CSV file not found: " + path))
    ensures found && |csv.columns| == 0
            ==> LoadAndNormalize(path, found, csv, numeric) == Err(Invalid("No columns to parse from file"))
    ensures found && |csv.columns| > 0 && |csv.rows| == 0
            ==> LoadAndNormalize(path, found, csv, numeric) == Err(Invalid("CSV file is empty."))
    ensures var header := RenameAll(csv.columns);
            var missing := Absent(RequiredPayloadFields, header);
            && (forall f :: f in missing <==> f in RequiredPayloadFields && f !in header)
            && IsSubsequence(missing, RequiredPayloadFields)
            && (found && |csv.columns| > 0 && |csv.rows| > 0 && missing != []
                ==> LoadAndNormalize(path, found, csv, numeric)
                    == Err(Invalid("CSV is missing required telemetry columns: " + Join(missing, ", "))))
  {
    AbsentSpec(RequiredPayloadFields, RenameAll(csv.columns));
  }

  /**
   * Past the column checks, the columns are converted one at a time in source order and
   * the first that raises decides the error; a repeated column that is not converted is
   * refused only after every conversion has gone through.
   */
  lemma LoadConversionFaults(path: string, found: bool, csv: Frame, numeric: string -> Option<real>)
    requires Rectangular(csv) && found && |csv.columns| > 0 && |csv.rows| > 0
    requires Absent(RequiredPayloadFields, RenameAll(csv.columns)) == []
    ensures var header := RenameAll(csv.columns);
            var converted := ConvertedColumns(header);
            var r := LoadAndNormalize(path, found, csv, numeric);
            && |header| == |csv.columns|
            && (forall j :: 0 <= j < |converted| ==> converted[j] in header)
            && var faulty := FirstFaulty(csv, header, converted, numeric);
            && (faulty.Some? ==> r == Err(ConversionFault(csv, header, converted[faulty.value], numeric).value))
            && (faulty.None? && Repeated(PayloadColumns(header), header).Some?
                ==> r == Err(DuplicateColumn(Repeated(PayloadColumns(header), header).value)))
  {
    ConvertedColumnsInHeader(RenameAll(csv.columns));
  }

  /**
   * A `patient_id` value that does not convert is reported as such, whatever repeated
   * columns come later: `patient_id` is the first column converted.
   */
  lemma PatientIdConvertedFirst(path: string, found: bool, csv: Frame, numeric: string -> Option<real>)
    requires Rectangular(csv) && found && |csv.columns| > 0 && |csv.rows| > 0
    requires Absent(RequiredPayloadFields, RenameAll(csv.columns)) == []
    requires "patient_id" in RenameAll(csv.columns) && Occurrences(RenameAll(csv.columns), "patient_id") == 1
    requires ColumnRaises(csv, RenameAll(csv.columns), "patient_id", numeric)
    ensures LoadAndNormalize(path, found, csv, numeric) == Err(Unconvertible("patient_id"))
  {
    var header := RenameAll(csv.columns);
    LoadConversionFaults(path, found, csv, numeric);
    var converted := ConvertedColumns(header);
    assert converted[0] == "patient_id";
    var faulty := FirstFaulty(csv, header, converted, numeric);
    assert faulty == Some(0);
  }

  /** A loaded frame has every required column and keeps the required columns first. */
  lemma LoadColumns(path: string, found: bool, csv: Frame, numeric: string -> Option<real>)
    requires Rectangular(csv)
    requires LoadAndNormalize(path, found, csv, numeric).Ok?
    ensures var header := RenameAll(csv.columns);
            var f := LoadAndNormalize(path, found, csv, numeric).value;
            && (forall c :: c in RequiredPayloadFields ==> c in header)
            && f.columns == RequiredPayloadFields + Present(OptionalPayloadFields, header)
            && (forall c :: c in Present(OptionalPayloadFields, header) <==> c in OptionalPayloadFields && c in header)
            && IsSubsequence(Present(OptionalPayloadFields, header), OptionalPayloadFields)
  {
    var header := RenameAll(csv.columns);
    AbsentSpec(RequiredPayloadFields, header);
    PresentSpec(OptionalPayloadFields, header);
  }

  /**
   * A loaded frame holds every row of the CSV, converted, sorted by (timestamp, patient
   * id), with rows of equal keys kept in file order.
   */
  lemma LoadRows(path: string, found: bool, csv: Frame, numeric: string -> Option<real>, k: Key)
    requires Rectangular(csv)
    requires LoadAndNormalize(path, found, csv, numeric).Ok?
    ensures var header := RenameAll(csv.columns);
            var f := LoadAndNormalize(path, found, csv, numeric).value;
            && |header| == |csv.columns|
            && (forall j :: 0 <= j < |f.columns| ==> f.columns[j] in header && !ColumnRaises(csv, header, f.columns[j], numeric))
            && var converted := ConvertRows(csv, header, f.columns, numeric);
            && |f.rows| == |csv.rows|
            && Sorted(f.rows, SortKey)
            && multiset(f.rows) == multiset(converted)
            && WithKey(f.rows, SortKey, k) == WithKey(converted, SortKey, k)
  {
    LoadOk(path, found, csv, numeric);
    var header := RenameAll(csv.columns);
    var converted := ConvertRows(csv, header, PayloadColumns(header), numeric);
    SortByOrdered(converted, SortKey);
    SortByPermutes(converted, SortKey);
    SortIsStable(converted, SortKey, k);
  }

  /** Every converted row has one cell per payload column, an integer in each `astype(int)` column. */
  lemma ConvertedRowShape(csv: Frame, header: seq<string>, payload: seq<string>, numeric: string -> Option<real>, r: seq<Cell>)
    requires Rectangular(csv) && |header| == |csv.columns|
    requires forall j :: 0 <= j < |payload| ==> payload[j] in header && !ColumnRaises(csv, header, payload[j], numeric)
    requires r in ConvertRows(csv, header, payload, numeric)
    ensures |r| == |payload|
    ensures forall j :: 0 <= j < |payload| && ConversionOf(payload[j]) == AsInt ==> r[j].IntCell?
  {
    var rows := ConvertRows(csv, header, payload, numeric);
    var i :| 0 <= i < |rows| && rows[i] == r;
  }

  /** What a successful load is made of. */
  lemma LoadOk(path: string, found: bool, csv: Frame, numeric: string -> Option<real>)
    requires Rectangular(csv)
    requires LoadAndNormalize(path, found, csv, numeric).Ok?
    ensures var header := RenameAll(csv.columns);
            var payload := PayloadColumns(header);
            && |csv.rows| > 0 && |header| == |csv.columns|
            && |payload| > 1 && payload[1] == "timestamp"
            && (forall j :: 0 <= j < |payload| ==> payload[j] in header && !ColumnRaises(csv, header, payload[j], numeric))
            && LoadAndNormalize(path, found, csv, numeric).value
               == Frame(payload, SortBy(ConvertRows(csv, header, payload, numeric), SortKey))
  {
    var header := RenameAll(csv.columns);
    assert Absent(RequiredPayloadFields, header) == [];
    PayloadColumnsInHeader(header);
    var payload := PayloadColumns(header);
    PayloadTimestamp(header);
    ConvertedColumnsInHeader(header);
    PayloadConverts(csv, header, numeric);
  }

  lemma PayloadTimestamp(header: seq<string>)
    ensures |PayloadColumns(header)| > 1 && PayloadColumns(header)[1] == "timestamp"
  {
    assert PayloadColumns(header)[1] == RequiredPayloadFields[1];
  }

  /** Sorted converted rows have the shape `dataframe_to_payload_rows` and the grouping need. */
  lemma SortedRowsFit(csv: Frame, header: seq<string>, payload: seq<string>, numeric: string -> Option<real>)
    requires Rectangular(csv) && |header| == |csv.columns|
    requires |payload| > 1 && payload[1] == "timestamp"
    requires forall j :: 0 <= j < |payload| ==> payload[j] in header && !ColumnRaises(csv, header, payload[j], numeric)
    ensures var f := Frame(payload, SortBy(ConvertRows(csv, header, payload, numeric), SortKey));
            TimestampColumn(f, 1) && Sorted(f.rows, SortKey)
  {
    var converted := ConvertRows(csv, header, payload, numeric);
    var f := Frame(payload, SortBy(converted, SortKey));
    SortByOrdered(converted, SortKey);
    forall i | 0 <= i < |f.rows|
      ensures |f.rows[i]| == |payload|
      ensures forall j :: 0 <= j < |payload| && ConversionOf(payload[j]) == AsInt ==> f.rows[i][j].IntCell?
    {
      SortedRowShape(csv, header, payload, numeric, i);
    }
    assert ConversionOf(payload[1]) == AsInt;
  }

  /** Sorting keeps the shape of every converted row. */
  lemma SortedRowShape(csv: Frame, header: seq<string>, payload: seq<string>, numeric: string -> Option<real>, i: nat)
    requires Rectangular(csv) && |header| == |csv.columns|
    requires forall j :: 0 <= j < |payload| ==> payload[j] in header && !ColumnRaises(csv, header, payload[j], numeric)
    requires i < |ConvertRows(csv, header, payload, numeric)|
    ensures var row := SortBy(ConvertRows(csv, header, payload, numeric), SortKey)[i];
            && |row| == |payload|
            && forall j :: 0 <= j < |payload| && ConversionOf(payload[j]) == AsInt ==> row[j].IntCell?
  {
    var converted := ConvertRows(csv, header, payload, numeric);
    var sorted := SortBy(converted, SortKey);
    SortByPermutes(converted, SortKey);
    assert sorted[i] in multiset(sorted);
    assert sorted[i] in multiset(converted);
    ConvertedRowShape(csv, header, payload, numeric, sorted[i]);
  }

  /** Rows sorted by (timestamp, patient id) have non-decreasing day keys. */
  lemma SortedDayKeys(f: Frame)
    requires TimestampColumn(f, 1) && Sorted(f.rows, SortKey)
    ensures NonDecreasing(DayKeys(f, 1))
  {
    var keys := DayKeys(f, 1);
    forall i, j | 0 <= i < j < |keys|
      ensures keys[i] <= keys[j]
    {
      assert KeyLe(SortKey(f.rows[i]), SortKey(f.rows[j]));
      DayOfMonotone(f.rows[i][1].i, f.rows[j][1].i);
    }
  }

  /**
   * A loaded frame is ready for `iter_daily_batches`: it is not empty, its `timestamp`
   * column holds integers, its day keys never decrease, and so its daily batches hold each
   * of its rows once and in order, as many rows as the CSV has.
   */
  lemma LoadedFrameReplays(path: string, found: bool, csv: Frame, numeric: string -> Option<real>, m: nat)
    requires Rectangular(csv) && m > 0
    requires LoadAndNormalize(path, found, csv, numeric).Ok?
    ensures var f := LoadAndNormalize(path, found, csv, numeric).value;
            && |f.rows| == |csv.rows| > 0
            && TimestampColumn(f, 1)
            && NonDecreasing(DayKeys(f, 1))
            && AllRows(DailyBatches(f, 1, m)) == PayloadRows(f)
            && RowCount(DailyBatches(f, 1, m)) == |csv.rows|
  {
    LoadOk(path, found, csv, numeric);
    var header := RenameAll(csv.columns);
    SortedRowsFit(csv, header, PayloadColumns(header), numeric);
    var f := LoadAndNormalize(path, found, csv, numeric).value;
    SortedDayKeys(f);
    DailyBatchesCover(f, 1, m);
    RowCountIsAllRows(DailyBatches(f, 1, m));
  }

  // ---------------------------------------------------------------------------
  // `main`: load, batch by day, replay
  // ---------------------------------------------------------------------------

  /** The outcomes of the posts of `n` batches. */
  function PostResults(post: nat -> bool, n: nat): (r: seq<bool>)
    ensures |r| == n && forall i :: 0 <= i < n ==> r[i] == post(i)
  {
    seq(n, i requires 0 <= i < n => post(i))
  }

  /**
   * The replay's top level: load the CSV at the configured path, build the daily batches
   * and post them; `post(i)` is whether the post of the `i`-th batch (0-based) succeeds.
   * A completed replay prepares exactly the CSV's rows.
   */
  method ReplayCsv(config: ReplayConfig, found: bool, csv: Frame, numeric: string -> Option<real>, post: nat -> bool)
    returns (r: Result<ReplayOutcome, LoadError>)
    requires Rectangular(csv) && config.maxRequestRows > 0
    ensures var loaded := LoadAndNormalize(config.csvPath, found, csv, numeric);
            && (loaded.Err? ==> r == Err(loaded.error))
            && (loaded.Ok? ==> TimestampColumn(loaded.value, 1))
    ensures var loaded := LoadAndNormalize(config.csvPath, found, csv, numeric);
            loaded.Ok? && FirstOutOfBounds(loaded.value, 1) < |loaded.value.rows| ==>
              r == Ok(ReplayOutOfBounds(loaded.value.rows[FirstOutOfBounds(loaded.value, 1)][1].i))
    ensures var loaded := LoadAndNormalize(config.csvPath, found, csv, numeric);
            loaded.Ok? && FirstOutOfBounds(loaded.value, 1) == |loaded.value.rows| ==>
              var batches := DailyBatches(loaded.value, 1, config.maxRequestRows);
              r == Ok(ReplayResult(config, batches, PostResults(post, |batches|)))
    ensures r.Ok? && r.value.ReplayComplete? ==> r.value.preparedRows == |csv.rows|
    ensures r.Ok? && r.value.ReplayComplete? && config.dryRun ==> r.value.sentRows == |csv.rows|
  {
    var loaded := LoadAndNormalize(config.csvPath, found, csv, numeric);
    if loaded.Err? {
      return Err(loaded.error);
    }
    var frame := loaded.value;
    LoadedFrameReplays(config.csvPath, found, csv, numeric, config.maxRequestRows);
    var daily := IterDailyBatches(frame, 1, config.maxRequestRows);
    if daily.Err? {
      return Ok(ReplayOutOfBounds(daily.error));
    }
    var batches := daily.value;
    var outcome := ReplayBatches(config, batches, PostResults(post, |batches|));
    return Ok(outcome);
  }
}
