/**
 * `POST /telemetry/ingest` (backend/app/api/routes/telemetry.py): bulk ingestion of
 * telemetry rows into the `pacemaker_telemetry` table, deduplicated on
 * (patient_id, timestamp) both inside the batch and against the rows already stored.
 * The table itself has no uniqueness constraint, so this route is the only deduplication.
 */
module TelemetryIngest {

  import opened Common
  import opened Records

  /** (patient_id, timestamp). The route keys on a UTC datetime built from the epoch
      seconds; that conversion is injective, so the seconds serve as the key. */
  type Key = (int, int)

  const MinBatchRows := 1
  const MaxBatchRows := 2000

  function KeyOf(r: TelemetryIngest): Key { (r.patientId, r.timestamp) }
  function RowKey(r: TelemetryRow): Key { (r.patientId, r.timestamp) }

  /** The set of keys carried by the rows of `b`. */
  function Keys(b: seq<TelemetryIngest>): set<Key> {
    if b == [] then {} else Keys(b[..|b| - 1]) + {KeyOf(b[|b| - 1])}
  }

  /** The set of keys present in the store. */
  function StoreKeys(rows: seq<TelemetryRow>): set<Key> {
    if rows == [] then {} else StoreKeys(rows[..|rows| - 1]) + {RowKey(rows[|rows| - 1])}
  }

  lemma {:induction false} KeyInKeys(b: seq<TelemetryIngest>, i: int)
    requires 0 <= i < |b|
    ensures KeyOf(b[i]) in Keys(b)
  {
    if i < |b| - 1 {
      KeyInKeys(b[..|b| - 1], i);
    }
  }

  lemma InKeys(b: seq<TelemetryIngest>, x: TelemetryIngest)
    requires x in b
    ensures KeyOf(x) in Keys(b)
  {
    var i :| 0 <= i < |b| && b[i] == x;
    KeyInKeys(b, i);
  }

  lemma {:induction false} NotInKeys(b: seq<TelemetryIngest>, k: Key)
    requires forall i :: 0 <= i < |b| ==> KeyOf(b[i]) != k
    ensures k !in Keys(b)
  {
    if b != [] {
      NotInKeys(b[..|b| - 1], k);
    }
  }

  lemma {:induction false} KeysAppend(a: seq<TelemetryIngest>, b: seq<TelemetryIngest>)
    ensures Keys(a + b) == Keys(a) + Keys(b)
  {
    if b == [] {
      assert a + b == a;
    } else {
      assert (a + b)[..|a + b| - 1] == a + b[..|b| - 1];
      KeysAppend(a, b[..|b| - 1]);
    }
  }

  lemma {:induction false} StoreKeysAppend(a: seq<TelemetryRow>, b: seq<TelemetryRow>)
    ensures StoreKeys(a + b) == StoreKeys(a) + StoreKeys(b)
  {
    if b == [] {
      assert a + b == a;
    } else {
      assert (a + b)[..|a + b| - 1] == a + b[..|b| - 1];
      StoreKeysAppend(a, b[..|b| - 1]);
    }
  }

  predicate DistinctKeys(u: seq<TelemetryIngest>) {
    forall i, j :: 0 <= i < j < |u| ==> KeyOf(u[i]) != KeyOf(u[j])
  }

  /** The last row of a sequence with distinct keys carries a key no earlier row carries. */
  lemma LastKeyIsNew(u: seq<TelemetryIngest>)
    requires DistinctKeys(u) && u != []
    ensures KeyOf(u[|u| - 1]) !in Keys(u[..|u| - 1])
  {
    NotInKeys(u[..|u| - 1], KeyOf(u[|u| - 1]));
  }

  /** Appending a row with a new key keeps the keys distinct and adds exactly that key. */
  lemma AppendNewKey(u: seq<TelemetryIngest>, x: TelemetryIngest)
    requires DistinctKeys(u) && KeyOf(x) !in Keys(u)
    ensures DistinctKeys(u + [x]) && Keys(u + [x]) == Keys(u) + {KeyOf(x)}
  {
    assert (u + [x])[..|u|] == u;
    forall i | 0 <= i < |u| ensures KeyOf(u[i]) != KeyOf(x) {
      KeyInKeys(u, i);
    }
  }

  // ---------------------------------------------------------------------------
  // Request validation: 1..2000 rows, each a valid `PacemakerTelemetryIngest`
  // ---------------------------------------------------------------------------

  /** A rejected request (status 422): whether the size was acceptable, and the invalid rows. */
  datatype BatchError = BatchError(sizeOk: bool, invalidRows: seq<nat>)

  /** Why a request ends without a result. */
  datatype IngestError =
    /** Status 422: the body failed validation. */
    | Rejected(batch: BatchError)
    /** Status 500: `fromtimestamp` raised on the timestamp of the row at this index. */
    | TimestampOutOfRange(row: nat)

  /** Indices of the rows that fail validation, ascending. */
  function InvalidRows(raw: seq<RawIngest>): (r: seq<nat>)
    ensures forall i :: i in r <==> 0 <= i < |raw| && ValidateIngest(raw[i]).Err?
  {
    if raw == [] then []
    else
      var n := |raw| - 1;
      var prev := InvalidRows(raw[..n]);
      assert forall i :: 0 <= i < n ==> raw[..n][i] == raw[i];
      prev + (if ValidateIngest(raw[n]).Err? then [n] else [])
  }

  /** The body validation that precedes the route handler. */
  function ValidateBatch(raw: seq<RawIngest>): (r: Result<seq<TelemetryIngest>, BatchError>)
    ensures r.Ok? <==> MinBatchRows <= |raw| <= MaxBatchRows && forall i :: 0 <= i < |raw| ==> ValidateIngest(raw[i]).Ok?
    ensures r.Ok? ==> |r.value| == |raw| && forall i :: 0 <= i < |raw| ==> ValidateIngest(raw[i]) == Ok(r.value[i])
    ensures r.Ok? ==> forall x :: x in r.value ==> ValidIngest(x)
  {
    var sizeOk := MinBatchRows <= |raw| <= MaxBatchRows;
    var invalid := InvalidRows(raw);
    assert invalid != [] ==> invalid[0] in invalid;
    if !sizeOk || invalid != [] then Err(BatchError(sizeOk, invalid))
    else
      assert forall i :: 0 <= i < |raw| ==> ValidateIngest(raw[i]).Ok? by {
        forall i | 0 <= i < |raw| ensures ValidateIngest(raw[i]).Ok? {
          assert i !in invalid;
        }
      }
      Ok(seq(|raw|, i requires 0 <= i < |raw| => ValidateIngest(raw[i]).value))
  }

  /** An empty batch and a batch of 2001 rows are both rejected before any processing. */
  lemma BatchSizeBounds(raw: seq<RawIngest>)
    requires |raw| == 0 || |raw| > MaxBatchRows
    ensures ValidateBatch(raw).Err? && !ValidateBatch(raw).error.sizeOk
  {
  }

  // ---------------------------------------------------------------------------
  // The specification of one ingest call
  // ---------------------------------------------------------------------------

  /** The row of `b` that first carries key `k`. */
  function FirstWithKey(b: seq<TelemetryIngest>, k: Key): (r: TelemetryIngest)
    requires k in Keys(b)
    ensures r in b && KeyOf(r) == k
  {
    var n := |b| - 1;
    if k in Keys(b[..n]) then FirstWithKey(b[..n], k) else b[n]
  }

  lemma FirstWithKeyExtend(b: seq<TelemetryIngest>, x: TelemetryIngest, k: Key)
    requires k in Keys(b)
    ensures k in Keys(b + [x]) && FirstWithKey(b + [x], k) == FirstWithKey(b, k)
  {
    assert (b + [x])[..|b|] == b;
  }

  lemma FirstWithKeyNew(b: seq<TelemetryIngest>, x: TelemetryIngest)
    requires KeyOf(x) !in Keys(b)
    ensures KeyOf(x) in Keys(b + [x]) && FirstWithKey(b + [x], KeyOf(x)) == x
  {
    assert (b + [x])[..|b|] == b;
  }

  /**
   * The contents of the `unique_rows` dictionary after the first loop: the batch with
   * every repeated key removed, first occurrences kept, in first-occurrence order.
   */
  function Dedup(b: seq<TelemetryIngest>): (u: seq<TelemetryIngest>)
    ensures DistinctKeys(u)
    ensures Keys(u) == Keys(b)
    ensures |u| <= |b|
  {
    if b == [] then []
    else
      var n := |b| - 1;
      var u := Dedup(b[..n]);
      if KeyOf(b[n]) in Keys(u) then u
      else
        AppendNewKey(u, b[n]);
        u + [b[n]]
  }

  /** Every row kept is the first occurrence of its key in the batch. */
  lemma {:induction false} DedupKeepsFirstOccurrence(b: seq<TelemetryIngest>)
    ensures forall x :: x in Dedup(b) ==> KeyOf(x) in Keys(b) && x == FirstWithKey(b, KeyOf(x))
  {
    if b != [] {
      var n := |b| - 1;
      DedupKeepsFirstOccurrence(b[..n]);
      assert b[..n] + [b[n]] == b;
      forall x | x in Dedup(b) ensures KeyOf(x) in Keys(b) && x == FirstWithKey(b, KeyOf(x)) {
        if x in Dedup(b[..n]) {
          FirstWithKeyExtend(b[..n], b[n], KeyOf(x));
        } else {
          FirstWithKeyNew(b[..n], b[n]);
        }
      }
    }
  }

  /** The rows of `u` whose key is not in `existing`, in order (the second loop). */
  function Residual(existing: set<Key>, u: seq<TelemetryIngest>): seq<TelemetryIngest> {
    if u == [] then []
    else
      var n := |u| - 1;
      Residual(existing, u[..n]) + (if KeyOf(u[n]) in existing then [] else [u[n]])
  }

  /** The stored row built from an ingest row: every field is copied. */
  function ToRow(r: TelemetryIngest): (t: TelemetryRow)
    ensures RowKey(t) == KeyOf(r)
  {
    TelemetryRow(r.patientId, r.timestamp, r.leadImpedanceOhms, r.captureThresholdV,
                 r.rWaveSensingMv, r.batteryVoltageV, r.targetFailNext7d, r.derived)
  }

  function ToRows(s: seq<TelemetryIngest>): (t: seq<TelemetryRow>)
    ensures |t| == |s| && forall i :: 0 <= i < |s| ==> t[i] == ToRow(s[i])
  {
    seq(|s|, i requires 0 <= i < |s| => ToRow(s[i]))
  }

  /** The keys of the batch that the existence check finds in a store holding `stored`. */
  function ExistingPairs(stored: set<Key>, batch: seq<TelemetryIngest>): set<Key> {
    Keys(Dedup(batch)) * stored
  }

  /** The rows one ingest call appends to a store whose keys are `stored`. */
  function NewRows(stored: set<Key>, batch: seq<TelemetryIngest>): seq<TelemetryRow> {
    ToRows(Residual(ExistingPairs(stored, batch), Dedup(batch)))
  }

  /** The five counts one ingest call reports for a store whose keys are `stored`. */
  function Counts(stored: set<Key>, batch: seq<TelemetryIngest>): IngestResult {
    var u := Dedup(batch);
    var existing := ExistingPairs(stored, batch);
    IngestResult(
      |batch|,
      |Residual(existing, u)|,
      (|batch| - |u|) + |existing|,
      |batch| - |u|,
      |existing|)
  }

  // ---------------------------------------------------------------------------
  // Properties of the specification
  // ---------------------------------------------------------------------------

  /** With distinct keys, the rows split into those kept and those whose key is found. */
  lemma {:induction false} ResidualSplit(existing: set<Key>, u: seq<TelemetryIngest>)
    requires DistinctKeys(u)
    ensures |u| == |Residual(existing, u)| + |Keys(u) * existing|
    ensures Keys(Residual(existing, u)) == Keys(u) - existing
  {
    if u != [] {
      var n := |u| - 1;
      var init := u[..n];
      var x := u[n];
      ResidualSplit(existing, init);
      LastKeyIsNew(u);
      var r := Residual(existing, init);
      assert Keys(u) == Keys(init) + {KeyOf(x)};
      if KeyOf(x) in existing {
        assert Residual(existing, u) == r;
        assert Keys(u) * existing == (Keys(init) * existing) + {KeyOf(x)};
      } else {
        assert Keys(u) * existing == Keys(init) * existing;
        assert (r + [x])[..|r|] == r;
      }
    }
  }

  /** Count conservation: every received row is inserted or counted as exactly one kind of duplicate. */
  lemma CountsConserved(stored: set<Key>, batch: seq<TelemetryIngest>)
    ensures var c := Counts(stored, batch);
      && c.receivedCount == |batch|
      && c.receivedCount == c.insertedCount + c.duplicateInPayloadCount + c.duplicateExistingCount
      && c.duplicateCount == c.duplicateInPayloadCount + c.duplicateExistingCount
      && c.insertedCount >= 0 && c.duplicateInPayloadCount >= 0 && c.duplicateExistingCount >= 0
      && c.insertedCount == |NewRows(stored, batch)|
  {
    ResidualSplit(ExistingPairs(stored, batch), Dedup(batch));
  }

  /** `duplicate_existing_count` counts distinct batch keys already stored, whatever their multiplicity there. */
  lemma ExistingCountsDistinctKeys(stored: set<Key>, batch: seq<TelemetryIngest>)
    ensures Counts(stored, batch).duplicateExistingCount == |Keys(batch) * stored|
    ensures Counts(stored, batch).duplicateInPayloadCount == |batch| - |Keys(batch)|
  {
    DistinctKeysCount(Dedup(batch));
  }

  lemma {:induction false} DistinctKeysCount(u: seq<TelemetryIngest>)
    requires DistinctKeys(u)
    ensures |Keys(u)| == |u|
  {
    if u != [] {
      DistinctKeysCount(u[..|u| - 1]);
      LastKeyIsNew(u);
    }
  }

  lemma {:induction false} ToRowsKeys(s: seq<TelemetryIngest>)
    ensures StoreKeys(ToRows(s)) == Keys(s)
  {
    if s != [] {
      ToRowsKeys(s[..|s| - 1]);
      assert ToRows(s)[..|s| - 1] == ToRows(s[..|s| - 1]);
    }
  }

  /** Every row kept by `Residual` is a row of its input, and distinct keys stay distinct. */
  lemma {:induction false} ResidualRows(existing: set<Key>, u: seq<TelemetryIngest>)
    requires DistinctKeys(u)
    ensures forall x :: x in Residual(existing, u) ==> x in u
    ensures DistinctKeys(Residual(existing, u))
  {
    if u != [] {
      var n := |u| - 1;
      ResidualRows(existing, u[..n]);
      LastKeyIsNew(u);
      var r := Residual(existing, u[..n]);
      if KeyOf(u[n]) !in existing {
        forall i | 0 <= i < |r| ensures KeyOf(r[i]) != KeyOf(u[n]) {
          assert r[i] in u[..n];
          InKeys(u[..n], r[i]);
        }
      }
    }
  }

  /** The keys appended are exactly the batch keys not yet stored. */
  lemma NewRowsKeys(stored: set<Key>, batch: seq<TelemetryIngest>)
    ensures StoreKeys(NewRows(stored, batch)) == Keys(batch) - stored
  {
    var u := Dedup(batch);
    ResidualSplit(ExistingPairs(stored, batch), u);
    ToRowsKeys(Residual(ExistingPairs(stored, batch), u));
  }

  /** No key is appended twice. */
  lemma NewRowsDistinct(stored: set<Key>, batch: seq<TelemetryIngest>)
    ensures forall i, j :: 0 <= i < j < |NewRows(stored, batch)| ==>
              RowKey(NewRows(stored, batch)[i]) != RowKey(NewRows(stored, batch)[j])
  {
    ResidualRows(ExistingPairs(stored, batch), Dedup(batch));
  }

  /** Each appended row copies the first row of the batch carrying its key. */
  lemma NewRowsAreFirstOccurrences(stored: set<Key>, batch: seq<TelemetryIngest>)
    ensures forall t :: t in NewRows(stored, batch) ==>
              RowKey(t) in Keys(batch) && t == ToRow(FirstWithKey(batch, RowKey(t)))
  {
    var u := Dedup(batch);
    var res := Residual(ExistingPairs(stored, batch), u);
    ResidualRows(ExistingPairs(stored, batch), u);
    DedupKeepsFirstOccurrence(batch);
    var rows := NewRows(stored, batch);
    forall t | t in rows ensures RowKey(t) in Keys(batch) && t == ToRow(FirstWithKey(batch, RowKey(t))) {
      var i :| 0 <= i < |rows| && rows[i] == t;
      assert res[i] in u;
    }
  }

  /** After an ingest call the store holds the old keys plus every key of the batch. */
  lemma StoreKeysAfterIngest(rows: seq<TelemetryRow>, batch: seq<TelemetryIngest>)
    ensures StoreKeys(rows + NewRows(StoreKeys(rows), batch)) == StoreKeys(rows) + Keys(batch)
  {
    var added := NewRows(StoreKeys(rows), batch);
    NewRowsKeys(StoreKeys(rows), batch);
    StoreKeysAppend(rows, added);
  }

  /**
   * Idempotence: ingesting the same batch again inserts nothing, reports every distinct
   * batch key as already stored and the same in-batch duplicates as before.
   */
  lemma ReingestInsertsNothing(rows: seq<TelemetryRow>, batch: seq<TelemetryIngest>)
    ensures var after := rows + NewRows(StoreKeys(rows), batch);
      && NewRows(StoreKeys(after), batch) == []
      && Counts(StoreKeys(after), batch).insertedCount == 0
      && Counts(StoreKeys(after), batch).duplicateExistingCount == |Dedup(batch)|
      && Counts(StoreKeys(after), batch).duplicateInPayloadCount == Counts(StoreKeys(rows), batch).duplicateInPayloadCount
  {
    var after := rows + NewRows(StoreKeys(rows), batch);
    StoreKeysAfterIngest(rows, batch);
    var u := Dedup(batch);
    assert ExistingPairs(StoreKeys(after), batch) == Keys(u);
    ResidualSplit(Keys(u), u);
    DistinctKeysCount(u);
    assert Keys(u) * Keys(u) == Keys(u);
  }

  // ---------------------------------------------------------------------------
  // The UTC datetime of a row's timestamp
  // ---------------------------------------------------------------------------

  /** The last second a `datetime` can hold: 9999-12-31T23:59:59 UTC. */
  const MaxDatetimeSeconds := 253402300799

  /** `datetime.fromtimestamp(ts, tz=timezone.utc)` succeeds: the year is at most 9999. */
  predicate InDatetimeRange(r: TelemetryIngest) {
    r.timestamp <= MaxDatetimeSeconds
  }

  /** The index of the first row whose timestamp no `datetime` can hold, or |b| when there is none. */
  function FirstOutOfRange(b: seq<TelemetryIngest>): (k: nat)
    ensures k <= |b|
    ensures forall i :: 0 <= i < k ==> InDatetimeRange(b[i])
    ensures k < |b| ==> !InDatetimeRange(b[k])
  {
    if b == [] || !InDatetimeRange(b[0]) then 0 else 1 + FirstOutOfRange(b[1..])
  }

  /**
   * The field constraints accept a timestamp in year 10000 (they only ask for `ge=0`),
   * which the route then cannot convert: the batch passes validation and fails at its
   * first row.
   */
  lemma Year10000PassesValidation(r: TelemetryIngest)
    requires ValidIngest(r) && r.timestamp == MaxDatetimeSeconds + 1
    ensures ValidateBatch([AsRaw(r)]) == Ok([r])
    ensures FirstOutOfRange([r]) == 0
  {
    ValidateAcceptsValid(r);
    var v := ValidateBatch([AsRaw(r)]);
    assert v.Ok? && |v.value| == 1 && v.value[0] == r;
    assert v.value == [r];
  }

  /**
   * The first loop of the route: converts each timestamp, fills `unique_rows` and counts
   * repeated keys. `firstBad` is where the loop stopped: the index of the timestamp
   * `fromtimestamp` raised on, or |batch| when the loop ran to the end.
   */
  method CollapseDuplicates(batch: seq<TelemetryIngest>)
    returns (firstBad: nat, unique: seq<TelemetryIngest>, seen: set<Key>, duplicateInPayload: nat)
    ensures firstBad == FirstOutOfRange(batch)
    ensures firstBad == |batch| ==>
      && unique == Dedup(batch)
      && seen == Keys(batch)
      && duplicateInPayload == |batch| - |Dedup(batch)|
  {
    unique, seen, duplicateInPayload := [], {}, 0;
    for i := 0 to |batch|
      invariant forall j :: 0 <= j < i ==> InDatetimeRange(batch[j])
      invariant unique == Dedup(batch[..i])
      invariant seen == Keys(unique)
      invariant duplicateInPayload == i - |unique|
    {
      if !InDatetimeRange(batch[i]) {
        firstBad := i;
        return;
      }
      assert batch[..i + 1][..i] == batch[..i];
      var key := KeyOf(batch[i]);
      if key in seen {
        duplicateInPayload := duplicateInPayload + 1;
        continue;
      }
      AppendNewKey(unique, batch[i]);
      unique := unique + [batch[i]];
      seen := seen + {key};
    }
    assert batch[..|batch|] == batch;
    firstBad := |batch|;
  }

  /** The second loop of the route: builds a stored row for every key not found. */
  method RowsToInsert(existingPairs: set<Key>, unique: seq<TelemetryIngest>) returns (records: seq<TelemetryRow>)
    ensures records == ToRows(Residual(existingPairs, unique))
  {
    records := [];
    for j := 0 to |unique|
      invariant records == ToRows(Residual(existingPairs, unique[..j]))
    {
      assert unique[..j + 1][..j] == unique[..j];
      if KeyOf(unique[j]) in existingPairs {
        continue;
      }
      records := records + [ToRow(unique[j])];
    }
    assert unique[..|unique|] == unique;
  }

  // ---------------------------------------------------------------------------
  // The store and the route
  // ---------------------------------------------------------------------------

  /** The `pacemaker_telemetry` table, as the sequence of its rows in insertion order. */
  class TelemetryStore {
    var rows: seq<TelemetryRow>

    constructor (initial: seq<TelemetryRow>)
      ensures rows == initial
    {
      rows := initial;
    }

    /** `ingest_telemetry_bulk`: validate, then ingest the validated batch. */
    method Ingest(raw: seq<RawIngest>) returns (res: Result<IngestResult, IngestError>)
      modifies this
      ensures ValidateBatch(raw).Err? ==> res == Err(Rejected(ValidateBatch(raw).error)) && rows == old(rows)
      ensures ValidateBatch(raw).Ok? && FirstOutOfRange(ValidateBatch(raw).value) < |raw| ==>
        && res == Err(TimestampOutOfRange(FirstOutOfRange(ValidateBatch(raw).value)))
        && rows == old(rows)
      ensures ValidateBatch(raw).Ok? && FirstOutOfRange(ValidateBatch(raw).value) == |raw| ==>
        && res == Ok(Counts(StoreKeys(old(rows)), ValidateBatch(raw).value))
        && rows == old(rows) + NewRows(StoreKeys(old(rows)), ValidateBatch(raw).value)
    {
      var validated := ValidateBatch(raw);
      if validated.Err? {
        return Err(Rejected(validated.error));
      }
      var outcome := IngestBatch(validated.value);
      if outcome.Err? {
        return Err(TimestampOutOfRange(outcome.error));
      }
      res := Ok(outcome.value);
    }

    /**
     * The handler body on a validated batch: deduplicate, check existence once, insert the
     * rest. A timestamp that cannot be converted raises before the store is touched.
     */
    method IngestBatch(batch: seq<TelemetryIngest>) returns (outcome: Result<IngestResult, nat>)
      modifies this
      ensures FirstOutOfRange(batch) < |batch| ==> outcome == Err(FirstOutOfRange(batch)) && rows == old(rows)
      ensures FirstOutOfRange(batch) == |batch| ==>
        && outcome == Ok(Counts(StoreKeys(old(rows)), batch))
        && rows == old(rows) + NewRows(StoreKeys(old(rows)), batch)
    {
      // First loop: convert the timestamps and collapse repeated keys, keeping the first occurrence.
      var firstBad, unique, seen, duplicateInPayload := CollapseDuplicates(batch);
      if firstBad < |batch| {
        return Err(firstBad);
      }

      // One existence check against the store.
      var existingPairs: set<Key> := {};
      if unique != [] {
        existingPairs := StoreKeys(rows) * seen;
      }
      assert existingPairs == ExistingPairs(StoreKeys(rows), batch);

      // Second loop: keep the rows whose key was not found.
      var recordsToInsert := RowsToInsert(existingPairs, unique);
      assert recordsToInsert == NewRows(StoreKeys(rows), batch);

      if recordsToInsert != [] {
        rows := rows + recordsToInsert;
      }

      var duplicateExisting := |existingPairs|;
      outcome := Ok(IngestResult(
        |batch|,
        |recordsToInsert|,
        duplicateInPayload + duplicateExisting,
        duplicateInPayload,
        duplicateExisting));
    }
  }

  // ---------------------------------------------------------------------------
  // The scenario of the route's test
  // ---------------------------------------------------------------------------

  function Reading(pid: int, ts: int): TelemetryIngest {
    TelemetryIngest(pid, ts, 510.0, 1.1, 8.7, 2.9, None, NoDerived)
  }

  /**
   * The store holds (1, t). Ingesting [(1, t), (2, t'), (2, t')] reports 3 received,
   * 1 inserted, 2 duplicates (1 in the payload, 1 existing) and leaves two rows.
   */
  lemma ScenarioOneExistingOneRepeated(stored: TelemetryRow, t: int, t': int)
    requires RowKey(stored) == (1, t)
    ensures var batch := [Reading(1, t), Reading(2, t'), Reading(2, t')];
      && Counts(StoreKeys([stored]), batch) == IngestResult(3, 1, 2, 1, 1)
      && |[stored] + NewRows(StoreKeys([stored]), batch)| == 2
  {
    var batch := [Reading(1, t), Reading(2, t'), Reading(2, t')];
    assert batch[..2][..1] == [Reading(1, t)];
    assert batch[..2] == [Reading(1, t), Reading(2, t')];
    assert Dedup(batch[..1]) == [Reading(1, t)];
    assert Dedup(batch[..2]) == [Reading(1, t), Reading(2, t')];
    assert Keys(Dedup(batch[..2])) == {(1, t), (2, t')};
    var u := Dedup(batch);
    assert u == [Reading(1, t), Reading(2, t')];
    assert StoreKeys([stored]) == {(1, t)};
    var existing := ExistingPairs(StoreKeys([stored]), batch);
    assert existing == {(1, t)};
    assert u[..1] == [Reading(1, t)];
    assert Residual(existing, u[..1]) == [];
    assert Residual(existing, u) == [Reading(2, t')];
  }
}
