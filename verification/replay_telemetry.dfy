/**
 * The telemetry replay tool (backend/util/replay_telemetry.py): a loaded and sorted
 * telemetry frame is turned into JSON rows, cut into one batch per UTC day (a day
 * larger than the request limit into chunks), and each batch is posted to the ingest
 * endpoint while four counters keep track of what was prepared and sent.
 */
module ReplayTelemetry {

  import opened Common
  import opened Text
  import opened JsonValue
  import opened Frames

  function Min(a: int, b: int): int {
    if a <= b then a else b
  }

  // ---------------------------------------------------------------------------
  // Configuration: the checks of `parse_args`, and `build_headers`
  // ---------------------------------------------------------------------------

  /** The command-line values `parse_args` reads (argparse itself is not modelled). */
  datatype Args = Args(
    csvPath: string,
    endpointUrl: string,
    intervalMs: int,
    timeoutSeconds: real,
    maxRequestRows: int,
    token: Option<string>,
    dryRun: bool,
    verbose: bool,
    continueOnError: bool)

  datatype ReplayConfig = ReplayConfig(
    csvPath: string,
    endpointUrl: string,
    intervalMs: nat,
    timeoutSeconds: real,
    maxRequestRows: nat,
    token: Option<string>,
    dryRun: bool,
    verbose: bool,
    stopOnError: bool)

  /** The checks of `parse_args`, in order; a failed check raises ValueError with the message. */
  function ParseArgs(a: Args): (r: Result<ReplayConfig, string>)
    ensures r.Ok? <==> a.intervalMs >= 0 && a.timeoutSeconds > 0.0 && a.maxRequestRows > 0
    ensures a.intervalMs < 0 ==> r == Err("--interval-ms must be >= 0")
    ensures a.intervalMs >= 0 && a.timeoutSeconds <= 0.0 ==> r == Err("--timeout-seconds must be > 0")
    ensures a.intervalMs >= 0 && a.timeoutSeconds > 0.0 && a.maxRequestRows <= 0 ==> r == Err("--max-request-rows must be > 0")
    ensures r.Ok? ==> && r.value.maxRequestRows >= 1
                      && r.value.stopOnError == !a.continueOnError
                      && r.value.intervalMs == a.intervalMs && r.value.timeoutSeconds == a.timeoutSeconds
                      && r.value.maxRequestRows == a.maxRequestRows && r.value.token == a.token
                      && r.value.dryRun == a.dryRun && r.value.verbose == a.verbose
  {
    if a.intervalMs < 0 then Err("--interval-ms must be >= 0")
    else if a.timeoutSeconds <= 0.0 then Err("--timeout-seconds must be > 0")
    else if a.maxRequestRows <= 0 then Err("--max-request-rows must be > 0")
    else Ok(ReplayConfig(a.csvPath, a.endpointUrl, a.intervalMs, a.timeoutSeconds, a.maxRequestRows,
                         a.token, a.dryRun, a.verbose, !a.continueOnError))
  }

  /** Python truthiness of an optional string: present and non-empty. */
  predicate Truthy(token: Option<string>) {
    token.Some? && token.value != ""
  }

  /** `build_headers(token)`. */
  function BuildHeaders(token: Option<string>): (h: map<string, string>)
    ensures h.Keys == if Truthy(token) then {"Content-Type", "Authorization"} else {"Content-Type"}
    ensures h["Content-Type"] == "application/json"
    ensures Truthy(token) ==> h["Authorization"] == "Bearer " + token.value
  {
    var headers := map["Content-Type" := "application/json"];
    if Truthy(token) then headers["Authorization" := "Bearer " + token.value] else headers
  }

  // ---------------------------------------------------------------------------
  // Frames and `dataframe_to_payload_rows`
  // ---------------------------------------------------------------------------

  /** The columns `dataframe_to_payload_rows` casts with `int()`. */
  const IntColumns: set<string> := {"patient_id", "timestamp"}

  /**
   * A row with one cell per column, holding in the `int()` columns only the integers,
   * floats and missing values `int()` is given there (a string in these columns is not
   * modelled).
   */
  predicate RowFits(columns: seq<string>, row: seq<Cell>) {
    && |row| == |columns|
    && forall j :: 0 <= j < |columns| && columns[j] in IntColumns ==> !row[j].TextCell?
  }

  predicate Fits(f: Frame) {
    forall i :: 0 <= i < |f.rows| ==> RowFits(f.columns, f.rows[i])
  }

  /** The JSON encoding of a present value. */
  function CellJson(c: Cell): Json
    requires !IsMissing(c)
  {
    match c
    case IntCell(i) => JInt(i)
    case FloatCell(x) => JFloat(x)
    case TextCell(s) => JStr(s)
  }

  /** The value `dataframe_to_payload_rows` emits for `value` in column `key`. */
  function PayloadValue(key: string, value: Cell): (j: Json)
    requires key in IntColumns ==> !value.TextCell?
    ensures j.JNull? <==> IsMissing(value)
    ensures !IsMissing(value) && key in IntColumns ==> j == JInt(if value.IntCell? then value.i else Trunc(value.x))
    ensures !IsMissing(value) && key !in IntColumns ==> j == CellJson(value)
  {
    if value.NoneValue? then JNull
    else if value.NaN? then JNull
    else if value.NA? then JNull
    else if key in IntColumns then JInt(if value.IntCell? then value.i else Trunc(value.x))
    else CellJson(value)
  }

  /** A JSON row: the columns in frame order with their values. */
  type PayloadRow = seq<(string, Json)>

  /** The JSON row of one frame row: every column kept, in order, with its converted value. */
  function PayloadRowOf(columns: seq<string>, row: seq<Cell>): (r: PayloadRow)
    requires RowFits(columns, row)
  {
    seq(|columns|, j requires 0 <= j < |columns| => (columns[j], PayloadValue(columns[j], row[j])))
  }

  /** One JSON row per frame row, in order. */
  function PayloadRows(f: Frame): (rs: seq<PayloadRow>)
    requires Fits(f)
    ensures |rs| == |f.rows|
  {
    seq(|f.rows|, i requires 0 <= i < |f.rows| => PayloadRowOf(f.columns, f.rows[i]))
  }

  /**
   * Every JSON row keeps the frame's columns in order; a value is null exactly when it is
   * None, NaN or pd.NA, is truncated to an integer in `patient_id` and `timestamp`, and is
   * otherwise passed through.
   */
  lemma PayloadRowsSpec(f: Frame, i: int, j: int)
    requires Fits(f)
    requires 0 <= i < |f.rows| && 0 <= j < |f.columns|
    ensures |PayloadRows(f)[i]| == |f.columns| && PayloadRows(f)[i][j].0 == f.columns[j]
    ensures PayloadRows(f)[i][j].1.JNull? <==> IsMissing(f.rows[i][j])
    ensures !IsMissing(f.rows[i][j]) && f.columns[j] in IntColumns ==> PayloadRows(f)[i][j].1.JInt?
    ensures !IsMissing(f.rows[i][j]) && f.columns[j] !in IntColumns ==> PayloadRows(f)[i][j].1 == CellJson(f.rows[i][j])
  {
  }

  /** `dataframe_to_payload_rows(df)`: one JSON row per frame row, built column by column. */
  method DataframeToPayloadRows(f: Frame) returns (rows: seq<PayloadRow>)
    requires Fits(f)
    ensures rows == PayloadRows(f)
  {
    rows := [];
    for i := 0 to |f.rows|
      invariant rows == PayloadRows(f)[..i]
    {
      var rawRow := f.rows[i];
      var payloadRow: PayloadRow := [];
      for j := 0 to |f.columns|
        invariant payloadRow == PayloadRowOf(f.columns, rawRow)[..j]
      {
        var key := f.columns[j];
        var value := rawRow[j];
        if value.NoneValue? {
          payloadRow := payloadRow + [(key, JNull)];
          continue;
        }
        if value.NaN? {
          payloadRow := payloadRow + [(key, JNull)];
          continue;
        }
        if value.NA? {
          payloadRow := payloadRow + [(key, JNull)];
          continue;
        }
        var converted := if key in IntColumns then JInt(if value.IntCell? then value.i else Trunc(value.x)) else CellJson(value);
        payloadRow := payloadRow + [(key, converted)];
      }
      assert payloadRow == PayloadRowOf(f.columns, rawRow);
      assert PayloadRows(f)[..i + 1] == PayloadRows(f)[..i] + [payloadRow];
      rows := rows + [payloadRow];
    }
  }

  // ---------------------------------------------------------------------------
  // Chunking one day: the inner loop of `iter_daily_batches`
  // ---------------------------------------------------------------------------

  /** A batch label: the day, or the day with the chunk's 1-based index and the chunk count. */
  datatype BatchLabel = DayLabel(day: int) | ChunkLabel(day: int, index: nat, count: nat)

  datatype Batch = Batch(tag: BatchLabel, rows: seq<PayloadRow>)

  /** `math.ceil(n / m)`. */
  function CeilDiv(n: nat, m: nat): nat
    requires m > 0
    decreases n
  {
    if n == 0 then 0 else if n <= m then 1 else 1 + CeilDiv(n - m, m)
  }

  /** `CeilDiv(n, m)` is the least count of `m`-sized chunks that holds `n` rows. */
  lemma {:induction false} CeilDivBounds(n: nat, m: nat)
    requires m > 0
    ensures n <= CeilDiv(n, m) * m
    ensures n > 0 ==> CeilDiv(n, m) >= 1 && (CeilDiv(n, m) - 1) * m < n
    decreases n
  {
    if n > m {
      CeilDivBounds(n - m, m);
      var c := CeilDiv(n - m, m);
      assert CeilDiv(n, m) * m == c * m + m;
      assert (CeilDiv(n, m) - 1) * m == (c - 1) * m + m;
    }
  }

  /** Python's `rows[start:end]` for `0 <= start <= end`: the bounds are clamped to the length. */
  function Slice<T>(s: seq<T>, start: int, end: int): (r: seq<T>)
    requires 0 <= start <= end
    ensures |r| <= end - start
  {
    s[Min(start, |s|)..Min(end, |s|)]
  }

  /** The `j`-th chunk of `rows`: `rows[j * m:j * m + m]`. */
  function ChunkAt(rows: seq<PayloadRow>, m: nat, j: nat): seq<PayloadRow> {
    Slice(rows, j * m, j * m + m)
  }

  /** The batches of one day's rows. */
  function DayChunks(day: int, rows: seq<PayloadRow>, m: nat): (bs: seq<Batch>)
    requires m > 0
  {
    if |rows| <= m then [Batch(DayLabel(day), rows)]
    else
      var count := CeilDiv(|rows|, m);
      seq(count, j requires 0 <= j < count => Batch(ChunkLabel(day, j + 1, count), ChunkAt(rows, m, j)))
  }

  /** The rows of a sequence of batches, concatenated in order. */
  function AllRows(bs: seq<Batch>): seq<PayloadRow> {
    if bs == [] then [] else AllRows(bs[..|bs| - 1]) + bs[|bs| - 1].rows
  }

  lemma {:induction false} AllRowsAppend(a: seq<Batch>, b: seq<Batch>)
    ensures AllRows(a + b) == AllRows(a) + AllRows(b)
  {
    if b == [] {
      assert a + b == a;
    } else {
      assert (a + b)[..|a + b| - 1] == a + b[..|b| - 1];
      AllRowsAppend(a, b[..|b| - 1]);
    }
  }

  lemma MulStep(c: nat, m: nat)
    ensures (c + 1) * m == c * m + m
  {
  }

  lemma AllRowsPrefix(bs: seq<Batch>, c: nat)
    requires 0 < c <= |bs|
    ensures AllRows(bs[..c]) == AllRows(bs[..c - 1]) + bs[c - 1].rows
  {
    assert bs[..c][..c - 1] == bs[..c - 1];
  }

  /** The rows before chunk `j` followed by chunk `j` are the rows before chunk `j + 1`. */
  lemma ChunkExtends(rows: seq<PayloadRow>, m: nat, j: nat)
    ensures rows[..Min(j * m, |rows|)] + ChunkAt(rows, m, j) == rows[..Min((j + 1) * m, |rows|)]
  {
    MulStep(j, m);
    var lo := Min(j * m, |rows|);
    var hi := Min(j * m + m, |rows|);
    assert 0 <= lo <= hi <= |rows|;
    assert rows[..lo] + rows[lo..hi] == rows[..hi];
  }

  /** The first `c` chunks hold the first `c * m` rows (or all of them). */
  lemma {:induction false} ChunksPrefix(day: int, rows: seq<PayloadRow>, m: nat, c: nat)
    requires m > 0 && |rows| > m && c <= CeilDiv(|rows|, m)
    ensures AllRows(DayChunks(day, rows, m)[..c]) == rows[..Min(c * m, |rows|)]
  {
    if c > 0 {
      var bs := DayChunks(day, rows, m);
      ChunksPrefix(day, rows, m, c - 1);
      AllRowsPrefix(bs, c);
      assert bs[c - 1].rows == ChunkAt(rows, m, c - 1);
      ChunkExtends(rows, m, c - 1);
    }
  }

  /** The batches of a day hold exactly the day's rows, in order. */
  lemma DayChunksCover(day: int, rows: seq<PayloadRow>, m: nat)
    requires m > 0
    ensures AllRows(DayChunks(day, rows, m)) == rows
  {
    if |rows| <= m {
      assert DayChunks(day, rows, m)[..0] == [];
    } else {
      var bs := DayChunks(day, rows, m);
      ChunksPrefix(day, rows, m, |bs|);
      CeilDivBounds(|rows|, m);
      assert bs[..|bs|] == bs;
    }
  }

  lemma MulMonotone(a: nat, b: nat, m: nat)
    requires a <= b
    ensures a * m <= b * m
  {
  }

  /** A chunk that starts and ends inside the rows holds exactly `m` rows. */
  lemma ChunkFull(rows: seq<PayloadRow>, m: nat, j: nat)
    requires j * m + m <= |rows|
    ensures |ChunkAt(rows, m, j)| == m
  {
  }

  /** The last chunk starts inside the rows. */
  lemma ChunkLast(rows: seq<PayloadRow>, m: nat, j: nat)
    requires m > 0 && j * m < |rows|
    ensures 1 <= |ChunkAt(rows, m, j)| <= m
  {
  }

  /**
   * A day of at most `m` rows is one batch labelled with the day; a larger day becomes
   * `ceil(n / m)` chunks of exactly `m` rows but for the last, which holds 1 to `m` rows.
   */
  lemma DayChunksSizes(day: int, rows: seq<PayloadRow>, m: nat)
    requires m > 0
    ensures |rows| <= m ==> DayChunks(day, rows, m) == [Batch(DayLabel(day), rows)]
    ensures |rows| > m ==> |DayChunks(day, rows, m)| == CeilDiv(|rows|, m) >= 2
    ensures |rows| > m ==> forall j :: 0 <= j < |DayChunks(day, rows, m)| - 1 ==> |DayChunks(day, rows, m)[j].rows| == m
    ensures |rows| > m ==> 1 <= |DayChunks(day, rows, m)[|DayChunks(day, rows, m)| - 1].rows| <= m
  {
    if |rows| > m {
      var bs := DayChunks(day, rows, m);
      var count := CeilDiv(|rows|, m);
      CeilDivBounds(|rows|, m);
      CeilDivBounds(|rows| - m, m);
      forall j | 0 <= j < count - 1
        ensures |bs[j].rows| == m
      {
        MulStep(j, m);
        MulMonotone(j + 1, count - 1, m);
        ChunkFull(rows, m, j);
      }
      ChunkLast(rows, m, count - 1);
    }
  }

  /** The chunking of one day in `iter_daily_batches`. */
  method DayBatches(day: int, rows: seq<PayloadRow>, maxRequestRows: nat) returns (batches: seq<Batch>)
    requires maxRequestRows > 0
    ensures batches == DayChunks(day, rows, maxRequestRows)
  {
    if |rows| <= maxRequestRows {
      return [Batch(DayLabel(day), rows)];
    }
    var chunks := CeilDiv(|rows|, maxRequestRows);
    batches := [];
    for chunkIdx := 0 to chunks
      invariant batches == DayChunks(day, rows, maxRequestRows)[..chunkIdx]
    {
      var start := chunkIdx * maxRequestRows;
      var end := start + maxRequestRows;
      batches := batches + [Batch(ChunkLabel(day, chunkIdx + 1, chunks), Slice(rows, start, end))];
    }
    assert DayChunks(day, rows, maxRequestRows)[..chunks] == DayChunks(day, rows, maxRequestRows);
  }

  // ---------------------------------------------------------------------------
  // Grouping by day: `df.groupby(day_keys, sort=False)`
  // ---------------------------------------------------------------------------

  /** The UTC calendar day of a Unix timestamp, as a day count (floor division). */
  function DayOf(ts: int): int {
    ts / 86400
  }

  lemma DayOfMonotone(a: int, b: int)
    requires a <= b
    ensures DayOf(a) <= DayOf(b)
  {
  }

  /** The distinct keys in order of first appearance: the group order of `groupby(sort=False)`. */
  function FirstAppearance(keys: seq<int>): seq<int> {
    if keys == [] then []
    else
      var r := FirstAppearance(keys[..|keys| - 1]);
      if keys[|keys| - 1] in r then r else r + [keys[|keys| - 1]]
  }

  predicate Distinct(ds: seq<int>) {
    forall i, j :: 0 <= i < j < |ds| ==> ds[i] != ds[j]
  }

  /** Every key appears in the group order, exactly once. */
  lemma {:induction false} FirstAppearanceSpec(keys: seq<int>)
    ensures forall k :: k in FirstAppearance(keys) <==> k in keys
    ensures Distinct(FirstAppearance(keys))
  {
    if keys != [] {
      var n := |keys| - 1;
      FirstAppearanceSpec(keys[..n]);
      assert keys == keys[..n] + [keys[n]];
    }
  }

  /** The items whose key is `k`, in order. */
  function Group<T>(items: seq<T>, keys: seq<int>, k: int): (g: seq<T>)
    requires |items| == |keys|
  {
    if items == [] then []
    else
      var n := |items| - 1;
      Group(items[..n], keys[..n], k) + (if keys[n] == k then [items[n]] else [])
  }

  /** A group holds only items of the sequence, and holds at least one when its key occurs. */
  lemma {:induction false} GroupElements<T>(items: seq<T>, keys: seq<int>, k: int)
    requires |items| == |keys|
    ensures forall x :: x in Group(items, keys, k) ==> x in items
    ensures k in keys ==> |Group(items, keys, k)| >= 1
  {
    if items != [] {
      var n := |items| - 1;
      GroupElements(items[..n], keys[..n], k);
      assert keys == keys[..n] + [keys[n]];
    }
  }

  /** The groups of `items` for the keys `ds`, in the order of `ds`. */
  function Groups<T>(items: seq<T>, keys: seq<int>, ds: seq<int>): seq<seq<T>>
    requires |items| == |keys|
  {
    if ds == [] then [] else Groups(items, keys, ds[..|ds| - 1]) + [Group(items, keys, ds[|ds| - 1])]
  }

  lemma GroupSnoc<T>(items: seq<T>, keys: seq<int>, x: T, k: int, d: int)
    requires |items| == |keys|
    ensures Group(items + [x], keys + [k], d) == Group(items, keys, d) + (if k == d then [x] else [])
  {
    assert (items + [x])[..|items|] == items;
    assert (keys + [k])[..|keys|] == keys;
  }

  /** Groups for keys other than `k` are unchanged by one more item with key `k`. */
  lemma {:induction false} GroupsSnocOther<T>(items: seq<T>, keys: seq<int>, x: T, k: int, ds: seq<int>)
    requires |items| == |keys| && k !in ds
    ensures Groups(items + [x], keys + [k], ds) == Groups(items, keys, ds)
  {
    if ds != [] {
      var n := |ds| - 1;
      assert ds[n] in ds;
      assert forall y :: y in ds[..n] ==> y in ds;
      GroupsSnocOther(items, keys, x, k, ds[..n]);
      GroupSnoc(items, keys, x, k, ds[n]);
      assert Group(items + [x], keys + [k], ds[n]) == Group(items, keys, ds[n]);
    }
  }

  lemma {:induction false} GroupAbsent<T>(items: seq<T>, keys: seq<int>, k: int)
    requires |items| == |keys| && k !in keys
    ensures Group(items, keys, k) == []
  {
    if items != [] {
      var n := |items| - 1;
      assert keys[n] in keys;
      assert forall y :: y in keys[..n] ==> y in keys;
      GroupAbsent(items[..n], keys[..n], k);
    }
  }

  predicate NonDecreasing(keys: seq<int>) {
    forall i, j :: 0 <= i < j < |keys| ==> keys[i] <= keys[j]
  }

  /** For keys in order, the last key to appear first is the last key. */
  lemma {:induction false} FirstAppearanceLast(keys: seq<int>)
    requires keys != [] && NonDecreasing(keys)
    ensures FirstAppearance(keys) != [] && FirstAppearance(keys)[|FirstAppearance(keys)| - 1] == keys[|keys| - 1]
  {
    var n := |keys| - 1;
    var r := FirstAppearance(keys[..n]);
    if keys[n] in r {
      FirstAppearanceLast(keys[..n]);
      FirstAppearanceSpec(keys[..n]);
      var i :| 0 <= i < n && keys[..n][i] == keys[n];
      assert keys[n - 1] == keys[..n][n - 1];
      assert keys[i] <= keys[n - 1] <= keys[n];
    }
  }

  /** An item whose key is the last group's key joins that group. */
  lemma CoverStepSame<T>(xs: seq<T>, ks: seq<int>, x: T, k: int, p: seq<int>)
    requires |xs| == |ks| && k !in p
    requires Flatten(Groups(xs, ks, p + [k])) == xs
    ensures Flatten(Groups(xs + [x], ks + [k], p + [k])) == xs + [x]
  {
    assert (p + [k])[..|p|] == p;
    GroupsSnocOther(xs, ks, x, k, p);
    GroupSnoc(xs, ks, x, k, k);
    FlattenSnoc(Groups(xs, ks, p), Group(xs, ks, k));
    FlattenSnoc(Groups(xs + [x], ks + [k], p), Group(xs + [x], ks + [k], k));
  }

  /** An item with a new key starts a group of its own after the others. */
  lemma CoverStepNew<T>(xs: seq<T>, ks: seq<int>, x: T, k: int, r: seq<int>)
    requires |xs| == |ks| && k !in r && k !in ks
    requires Flatten(Groups(xs, ks, r)) == xs
    ensures Flatten(Groups(xs + [x], ks + [k], r + [k])) == xs + [x]
  {
    assert (r + [k])[..|r|] == r;
    GroupsSnocOther(xs, ks, x, k, r);
    GroupSnoc(xs, ks, x, k, k);
    GroupAbsent(xs, ks, k);
    FlattenSnoc(Groups(xs + [x], ks + [k], r), Group(xs + [x], ks + [k], k));
  }

  /**
   * With keys in order, the groups in order of first appearance, concatenated, give back
   * the items: grouping a sorted frame by day keeps every row once and in order.
   */
  lemma {:induction false} GroupsCover<T>(items: seq<T>, keys: seq<int>)
    requires |items| == |keys| && NonDecreasing(keys)
    ensures Flatten(Groups(items, keys, FirstAppearance(keys))) == items
  {
    if items != [] {
      var n := |items| - 1;
      var xs, ks, x, k := items[..n], keys[..n], items[n], keys[n];
      assert items == xs + [x] && keys == ks + [k];
      var r := FirstAppearance(ks);
      GroupsCover(xs, ks);
      FirstAppearanceSpec(ks);
      if k in r {
        FirstAppearanceLast(ks);
        var p := r[..|r| - 1];
        assert r == p + [k];
        assert k !in p;
        CoverStepSame(xs, ks, x, k, p);
      } else {
        CoverStepNew(xs, ks, x, k, r);
      }
    }
  }

  /** Every batch of a non-empty day holds 1 to `m` rows. */
  lemma DayChunksBounded(day: int, rows: seq<PayloadRow>, m: nat)
    requires m > 0 && rows != []
    ensures forall j :: 0 <= j < |DayChunks(day, rows, m)| ==> 1 <= |DayChunks(day, rows, m)[j].rows| <= m
  {
    DayChunksSizes(day, rows, m);
  }

  // ---------------------------------------------------------------------------
  // `iter_daily_batches`
  // ---------------------------------------------------------------------------

  /** The frame has a `timestamp` column at `tsCol` holding integers, as the loader leaves it. */
  predicate TimestampColumn(f: Frame, tsCol: nat) {
    && Fits(f) && tsCol < |f.columns| && f.columns[tsCol] == "timestamp"
    && forall i :: 0 <= i < |f.rows| ==> f.rows[i][tsCol].IntCell?
  }

  /** `day_keys`: the UTC day of every row's timestamp. */
  function DayKeys(f: Frame, tsCol: nat): (ks: seq<int>)
    requires TimestampColumn(f, tsCol)
    ensures |ks| == |f.rows|
  {
    seq(|f.rows|, i requires 0 <= i < |f.rows| => DayOf(f.rows[i][tsCol].i))
  }

  /** The frame of the rows whose key is `d`. */
  function DayFrame(f: Frame, keys: seq<int>, d: int): Frame
    requires |keys| == |f.rows|
  {
    Frame(f.columns, Group(f.rows, keys, d))
  }

  lemma DayFrameFits(f: Frame, keys: seq<int>, d: int)
    requires Fits(f) && |keys| == |f.rows|
    ensures Fits(DayFrame(f, keys, d))
  {
    var g := Group(f.rows, keys, d);
    GroupElements(f.rows, keys, d);
    forall i | 0 <= i < |g|
      ensures RowFits(f.columns, g[i])
    {
      assert g[i] in g;
      var j :| 0 <= j < |f.rows| && f.rows[j] == g[i];
    }
  }

  /** The batches of the days `ds`, in order. */
  function BatchesOfDays(f: Frame, keys: seq<int>, ds: seq<int>, m: nat): seq<Batch>
    requires Fits(f) && |keys| == |f.rows| && m > 0
  {
    if ds == [] then []
    else
      var d := ds[|ds| - 1];
      DayFrameFits(f, keys, d);
      BatchesOfDays(f, keys, ds[..|ds| - 1], m) + DayChunks(d, PayloadRows(DayFrame(f, keys, d)), m)
  }

  /** `iter_daily_batches(df, max_request_rows=m)`, collected into a list, when every timestamp is in bounds. */
  function DailyBatches(f: Frame, tsCol: nat, m: nat): seq<Batch>
    requires TimestampColumn(f, tsCol) && m > 0
  {
    BatchesOfDays(f, DayKeys(f, tsCol), FirstAppearance(DayKeys(f, tsCol)), m)
  }

  /**
   * The whole seconds `pd.to_datetime(unit="s")` accepts: their nanosecond count must fit a
   * signed 64-bit integer.
   */
  const TimestampBoundSeconds := 9223372036

  predicate InTimestampBounds(ts: int) {
    -TimestampBoundSeconds <= ts <= TimestampBoundSeconds
  }

  /** The first row whose timestamp `to_datetime` refuses, or the number of rows when there is none. */
  function FirstOutOfBounds(f: Frame, tsCol: nat): (k: nat)
    requires TimestampColumn(f, tsCol)
    ensures k <= |f.rows|
    ensures forall i :: 0 <= i < k ==> InTimestampBounds(f.rows[i][tsCol].i)
    ensures k < |f.rows| ==> !InTimestampBounds(f.rows[k][tsCol].i)
    decreases |f.rows|
  {
    if f.rows == [] then 0
    else if !InTimestampBounds(f.rows[0][tsCol].i) then 0
    else
      var rest := Frame(f.columns, f.rows[1..]);
      assert forall i :: 1 <= i < |f.rows| ==> f.rows[i] == rest.rows[i - 1];
      1 + FirstOutOfBounds(rest, tsCol)
  }

  /**
   * `iter_daily_batches`: the day keys of all rows are computed before the first batch, and
   * a timestamp out of bounds raises OutOfBoundsDatetime there (the first such timestamp is
   * returned); otherwise the days in order of first appearance, each converted and chunked.
   */
  method IterDailyBatches(f: Frame, tsCol: nat, maxRequestRows: nat) returns (r: Result<seq<Batch>, int>)
    requires TimestampColumn(f, tsCol) && maxRequestRows > 0
    ensures r.Err? <==> FirstOutOfBounds(f, tsCol) < |f.rows|
    ensures r.Err? ==> FirstOutOfBounds(f, tsCol) < |f.rows| && r.error == f.rows[FirstOutOfBounds(f, tsCol)][tsCol].i
    ensures r.Ok? ==> r.value == DailyBatches(f, tsCol, maxRequestRows)
  {
    for i := 0 to |f.rows|
      invariant forall j :: 0 <= j < i ==> InTimestampBounds(f.rows[j][tsCol].i)
    {
      if !InTimestampBounds(f.rows[i][tsCol].i) {
        return Err(f.rows[i][tsCol].i);
      }
    }
    var dayKeys := DayKeys(f, tsCol);
    var days := FirstAppearance(dayKeys);
    var batches := [];
    for g := 0 to |days|
      invariant batches == BatchesOfDays(f, dayKeys, days[..g], maxRequestRows)
    {
      assert days[..g + 1][..g] == days[..g];
      DayFrameFits(f, dayKeys, days[g]);
      var rows := DataframeToPayloadRows(DayFrame(f, dayKeys, days[g]));
      var dayBatches := DayBatches(days[g], rows, maxRequestRows);
      batches := batches + dayBatches;
    }
    assert days[..|days|] == days;
    return Ok(batches);
  }

  /** Converting the rows of one day is the same as taking the day's converted rows. */
  lemma {:induction false} PayloadRowsOfGroup(f: Frame, keys: seq<int>, d: int)
    requires Fits(f) && |keys| == |f.rows|
    ensures Fits(DayFrame(f, keys, d))
    ensures PayloadRows(DayFrame(f, keys, d)) == Group(PayloadRows(f), keys, d)
    decreases |f.rows|
  {
    DayFrameFits(f, keys, d);
    if f.rows != [] {
      var n := |f.rows| - 1;
      var init := Frame(f.columns, f.rows[..n]);
      PayloadRowsOfGroup(init, keys[..n], d);
      assert PayloadRows(f)[..n] == PayloadRows(init);
      assert DayFrame(f, keys, d).rows == DayFrame(init, keys[..n], d).rows + (if keys[n] == d then [f.rows[n]] else []);
      assert PayloadRows(DayFrame(f, keys, d))
          == PayloadRows(DayFrame(init, keys[..n], d)) + (if keys[n] == d then [PayloadRowOf(f.columns, f.rows[n])] else []);
    }
  }

  /** The rows of the batches of the days `ds` are the converted rows grouped by those days. */
  lemma {:induction false} BatchesOfDaysRows(f: Frame, keys: seq<int>, ds: seq<int>, m: nat)
    requires Fits(f) && |keys| == |f.rows| && m > 0
    ensures AllRows(BatchesOfDays(f, keys, ds, m)) == Flatten(Groups(PayloadRows(f), keys, ds))
  {
    if ds != [] {
      var n := |ds| - 1;
      var d := ds[n];
      BatchesOfDaysRows(f, keys, ds[..n], m);
      PayloadRowsOfGroup(f, keys, d);
      var rows := PayloadRows(DayFrame(f, keys, d));
      AllRowsAppend(BatchesOfDays(f, keys, ds[..n], m), DayChunks(d, rows, m));
      DayChunksCover(d, rows, m);
      FlattenSnoc(Groups(PayloadRows(f), keys, ds[..n]), Group(PayloadRows(f), keys, d));
    }
  }

  /**
   * For a frame sorted by timestamp, the daily batches hold every converted row exactly
   * once and in order.
   */
  lemma DailyBatchesCover(f: Frame, tsCol: nat, m: nat)
    requires TimestampColumn(f, tsCol) && m > 0
    requires NonDecreasing(DayKeys(f, tsCol))
    ensures AllRows(DailyBatches(f, tsCol, m)) == PayloadRows(f)
  {
    var keys := DayKeys(f, tsCol);
    BatchesOfDaysRows(f, keys, FirstAppearance(keys), m);
    GroupsCover(PayloadRows(f), keys);
  }

  /** Every batch of the days `ds`, each of which occurs, holds 1 to `m` rows. */
  lemma {:induction false} BatchesOfDaysBounded(f: Frame, keys: seq<int>, ds: seq<int>, m: nat)
    requires Fits(f) && |keys| == |f.rows| && m > 0
    requires forall d :: d in ds ==> d in keys
    ensures forall j :: 0 <= j < |BatchesOfDays(f, keys, ds, m)| ==> 1 <= |BatchesOfDays(f, keys, ds, m)[j].rows| <= m
  {
    if ds != [] {
      var n := |ds| - 1;
      var d := ds[n];
      assert d in ds;
      assert forall e :: e in ds[..n] ==> e in ds;
      BatchesOfDaysBounded(f, keys, ds[..n], m);
      DayFrameFits(f, keys, d);
      GroupElements(f.rows, keys, d);
      DayChunksBounded(d, PayloadRows(DayFrame(f, keys, d)), m);
    }
  }

  /** Every daily batch holds between 1 and `max_request_rows` rows. */
  lemma DailyBatchesBounded(f: Frame, tsCol: nat, m: nat)
    requires TimestampColumn(f, tsCol) && m > 0
    ensures forall j :: 0 <= j < |DailyBatches(f, tsCol, m)| ==> 1 <= |DailyBatches(f, tsCol, m)[j].rows| <= m
  {
    var keys := DayKeys(f, tsCol);
    FirstAppearanceSpec(keys);
    BatchesOfDaysBounded(f, keys, FirstAppearance(keys), m);
  }

  // ---------------------------------------------------------------------------
  // `replay_batches`: the four counters
  // ---------------------------------------------------------------------------

  /**
   * How a replay ends: the summary it logs, the HTTP error of batch `failedBatch` (0-based)
   * propagated out of the loop, or OutOfBoundsDatetime for `timestamp`, raised when the
   * first batch is requested and before any post.
   */
  datatype ReplayOutcome =
    | ReplayComplete(preparedBatches: nat, preparedRows: nat, sentBatches: nat, sentRows: nat)
    | ReplayRaised(failedBatch: nat)
    | ReplayOutOfBounds(timestamp: int)

  /** The number of rows in the batches `bs`. */
  function RowCount(bs: seq<Batch>): nat {
    if bs == [] then 0 else RowCount(bs[..|bs| - 1]) + |bs[|bs| - 1].rows|
  }

  /** The first `n` batches whose post succeeded (`posted[i]` is false when it raised an HTTP error). */
  function Accepted(bs: seq<Batch>, posted: seq<bool>, n: nat): seq<Batch>
    requires n <= |bs| && |posted| == |bs|
  {
    if n == 0 then [] else Accepted(bs, posted, n - 1) + (if posted[n - 1] then [bs[n - 1]] else [])
  }

  /** The index of the first failed post, or the number of batches when none failed. */
  function FirstFailure(posted: seq<bool>): (k: nat)
    ensures k <= |posted|
    ensures forall i :: 0 <= i < k ==> posted[i]
    ensures k < |posted| ==> !posted[k]
  {
    if posted == [] then 0
    else if !posted[0] then 0
    else 1 + FirstFailure(posted[1..])
  }

  /**
   * What `replay_batches` does for the batches `bs` when the post of batch `i` succeeds
   * exactly when `posted[i]`: a dry run counts every batch as sent without posting;
   * otherwise a failed post raises when `stop_on_error` and is skipped when not.
   */
  function ReplayResult(config: ReplayConfig, bs: seq<Batch>, posted: seq<bool>): ReplayOutcome
    requires |posted| == |bs|
  {
    if config.dryRun then ReplayComplete(|bs|, RowCount(bs), |bs|, RowCount(bs))
    else if config.stopOnError && FirstFailure(posted) < |bs| then ReplayRaised(FirstFailure(posted))
    else
      var sent := Accepted(bs, posted, |bs|);
      ReplayComplete(|bs|, RowCount(bs), |sent|, RowCount(sent))
  }

  lemma RowCountSnoc(bs: seq<Batch>, b: Batch)
    ensures RowCount(bs + [b]) == RowCount(bs) + |b.rows|
  {
    assert (bs + [b])[..|bs|] == bs;
  }

  lemma AcceptedStep(bs: seq<Batch>, posted: seq<bool>, n: nat)
    requires n < |bs| && |posted| == |bs|
    ensures Accepted(bs, posted, n + 1)
         == if posted[n] then Accepted(bs, posted, n) + [bs[n]] else Accepted(bs, posted, n)
  {
    assert Accepted(bs, posted, n) + [] == Accepted(bs, posted, n);
  }

  /** The four counters after the first `i` batches. */
  ghost predicate Counted(config: ReplayConfig, bs: seq<Batch>, posted: seq<bool>, i: nat,
                          totalBatches: nat, totalRows: nat, sentBatches: nat, sentRows: nat)
    requires i <= |bs| && |posted| == |bs|
  {
    && totalBatches == i && totalRows == RowCount(bs[..i])
    && SentCounted(config, bs, posted, i, sentBatches, sentRows)
  }

  ghost predicate SentCounted(config: ReplayConfig, bs: seq<Batch>, posted: seq<bool>, i: nat,
                              sentBatches: nat, sentRows: nat)
    requires i <= |bs| && |posted| == |bs|
  {
    if config.dryRun then sentBatches == i && sentRows == RowCount(bs[..i])
    else
      && sentBatches == |Accepted(bs, posted, i)| && sentRows == RowCount(Accepted(bs, posted, i))
      && (config.stopOnError ==> forall j :: 0 <= j < i ==> posted[j])
  }

  lemma PrefixRowCountStep(bs: seq<Batch>, i: nat)
    requires i < |bs|
    ensures RowCount(bs[..i + 1]) == RowCount(bs[..i]) + |bs[i].rows|
  {
    assert bs[..i + 1] == bs[..i] + [bs[i]];
    RowCountSnoc(bs[..i], bs[i]);
  }

  lemma SentStep(config: ReplayConfig, bs: seq<Batch>, posted: seq<bool>, i: nat, sentBatches: nat, sentRows: nat)
    requires i < |bs| && |posted| == |bs|
    requires SentCounted(config, bs, posted, i, sentBatches, sentRows)
    requires config.dryRun || posted[i] || !config.stopOnError
    ensures var sent := config.dryRun || posted[i];
      SentCounted(config, bs, posted, i + 1,
                  if sent then sentBatches + 1 else sentBatches,
                  if sent then sentRows + |bs[i].rows| else sentRows)
  {
    if config.dryRun {
      PrefixRowCountStep(bs, i);
    } else {
      AcceptedStep(bs, posted, i);
      if posted[i] {
        RowCountSnoc(Accepted(bs, posted, i), bs[i]);
        assert config.stopOnError ==> forall j :: 0 <= j < i + 1 ==> posted[j];
      }
    }
  }

  lemma CountStep(config: ReplayConfig, bs: seq<Batch>, posted: seq<bool>, i: nat,
                  totalBatches: nat, totalRows: nat, sentBatches: nat, sentRows: nat)
    requires i < |bs| && |posted| == |bs|
    requires Counted(config, bs, posted, i, totalBatches, totalRows, sentBatches, sentRows)
    requires config.dryRun || posted[i] || !config.stopOnError
    ensures var sent := config.dryRun || posted[i];
      Counted(config, bs, posted, i + 1, totalBatches + 1, totalRows + |bs[i].rows|,
              if sent then sentBatches + 1 else sentBatches,
              if sent then sentRows + |bs[i].rows| else sentRows)
  {
    PrefixRowCountStep(bs, i);
    SentStep(config, bs, posted, i, sentBatches, sentRows);
  }

  lemma CountRaised(config: ReplayConfig, bs: seq<Batch>, posted: seq<bool>, i: nat)
    requires i < |bs| && |posted| == |bs|
    requires !config.dryRun && config.stopOnError
    requires (forall j :: 0 <= j < i ==> posted[j]) && !posted[i]
    ensures ReplayResult(config, bs, posted) == ReplayRaised(i)
  {
  }

  lemma CountDone(config: ReplayConfig, bs: seq<Batch>, posted: seq<bool>,
                  totalBatches: nat, totalRows: nat, sentBatches: nat, sentRows: nat)
    requires |posted| == |bs|
    requires Counted(config, bs, posted, |bs|, totalBatches, totalRows, sentBatches, sentRows)
    ensures ReplayResult(config, bs, posted) == ReplayComplete(totalBatches, totalRows, sentBatches, sentRows)
  {
    assert bs[..|bs|] == bs;
  }

  /** `replay_batches`: posts each batch in turn and keeps the four counters. */
  method ReplayBatches(config: ReplayConfig, batches: seq<Batch>, posted: seq<bool>) returns (outcome: ReplayOutcome)
    requires |posted| == |batches|
    ensures outcome == ReplayResult(config, batches, posted)
  {
    var totalBatches: nat, totalRows: nat, sentBatches: nat, sentRows: nat := 0, 0, 0, 0;
    for i := 0 to |batches|
      invariant Counted(config, batches, posted, i, totalBatches, totalRows, sentBatches, sentRows)
    {
      if !config.dryRun && !posted[i] && config.stopOnError {
        CountRaised(config, batches, posted, i);
        return ReplayRaised(i);
      }
      CountStep(config, batches, posted, i, totalBatches, totalRows, sentBatches, sentRows);
      totalBatches := totalBatches + 1;
      totalRows := totalRows + |batches[i].rows|;
      if config.dryRun {
        sentBatches := sentBatches + 1;
        sentRows := sentRows + |batches[i].rows|;
      } else if posted[i] {
        sentBatches := sentBatches + 1;
        sentRows := sentRows + |batches[i].rows|;
      }
    }
    CountDone(config, batches, posted, totalBatches, totalRows, sentBatches, sentRows);
    outcome := ReplayComplete(totalBatches, totalRows, sentBatches, sentRows);
  }

  /** The accepted batches are a selection of the batches: never more of them, never more rows. */
  lemma {:induction false} AcceptedBounded(bs: seq<Batch>, posted: seq<bool>, n: nat)
    requires n <= |bs| && |posted| == |bs|
    ensures |Accepted(bs, posted, n)| <= n
    ensures RowCount(Accepted(bs, posted, n)) <= RowCount(bs[..n])
  {
    if n > 0 {
      AcceptedBounded(bs, posted, n - 1);
      assert bs[..n][..n - 1] == bs[..n - 1];
      var a := Accepted(bs, posted, n - 1);
      if posted[n - 1] {
        assert (a + [bs[n - 1]])[..|a|] == a;
      } else {
        assert a + [] == a;
      }
    }
  }

  /** When every post succeeds, every batch is accepted. */
  lemma {:induction false} AcceptedAll(bs: seq<Batch>, posted: seq<bool>, n: nat)
    requires n <= |bs| && |posted| == |bs|
    requires forall i :: 0 <= i < n ==> posted[i]
    ensures Accepted(bs, posted, n) == bs[..n]
  {
    if n > 0 {
      AcceptedAll(bs, posted, n - 1);
      assert bs[..n] == bs[..n - 1] + [bs[n - 1]];
    }
  }

  /** A completed replay never reports more sent than prepared. */
  lemma SentNeverExceedsPrepared(config: ReplayConfig, bs: seq<Batch>, posted: seq<bool>)
    requires |posted| == |bs|
    ensures var r := ReplayResult(config, bs, posted);
      r.ReplayComplete? ==>
        && r.preparedBatches == |bs| && r.preparedRows == RowCount(bs)
        && r.sentBatches <= r.preparedBatches && r.sentRows <= r.preparedRows
  {
    AcceptedBounded(bs, posted, |bs|);
    assert bs[..|bs|] == bs;
  }

  /**
   * A dry run, or a run in which every post succeeds, sends everything it prepared; and a
   * run that continues on error never raises.
   */
  lemma EverythingSentWhenNothingFails(config: ReplayConfig, bs: seq<Batch>, posted: seq<bool>)
    requires |posted| == |bs|
    requires config.dryRun || forall i :: 0 <= i < |bs| ==> posted[i]
    ensures ReplayResult(config, bs, posted) == ReplayComplete(|bs|, RowCount(bs), |bs|, RowCount(bs))
  {
    if !config.dryRun {
      AcceptedAll(bs, posted, |bs|);
      assert bs[..|bs|] == bs;
    }
  }

  /**
   * With `stop_on_error` (the default), a replay either raises at the first failed post or
   * completes having sent every batch it prepared.
   */
  lemma StopOnErrorSendsAllOrRaises(config: ReplayConfig, bs: seq<Batch>, posted: seq<bool>)
    requires |posted| == |bs| && config.stopOnError && !config.dryRun
    ensures var r := ReplayResult(config, bs, posted);
      || (r.ReplayRaised? && r.failedBatch < |bs| && !posted[r.failedBatch]
          && forall i :: 0 <= i < r.failedBatch ==> posted[i])
      || r == ReplayComplete(|bs|, RowCount(bs), |bs|, RowCount(bs))
  {
    if FirstFailure(posted) == |bs| {
      EverythingSentWhenNothingFails(config, bs, posted);
    }
  }

  /** A failed post among the first `n` leaves fewer than `n` batches accepted. */
  lemma {:induction false} AcceptedMissesFailure(bs: seq<Batch>, posted: seq<bool>, n: nat, k: nat)
    requires n <= |bs| && |posted| == |bs|
    requires k < n && !posted[k]
    ensures |Accepted(bs, posted, n)| < n
  {
    AcceptedBounded(bs, posted, n - 1);
    if k < n - 1 {
      AcceptedMissesFailure(bs, posted, n - 1, k);
    }
  }

  /**
   * Without `stop_on_error` a failed post is skipped: the replay always completes, and it
   * reports every batch sent exactly when every post succeeded.
   */
  lemma ContinueOnErrorCompletes(config: ReplayConfig, bs: seq<Batch>, posted: seq<bool>)
    requires |posted| == |bs| && !config.stopOnError && !config.dryRun
    ensures ReplayResult(config, bs, posted).ReplayComplete?
    ensures ReplayResult(config, bs, posted).sentBatches == |bs|
            <==> forall i :: 0 <= i < |bs| ==> posted[i]
  {
    if forall i :: 0 <= i < |bs| ==> posted[i] {
      EverythingSentWhenNothingFails(config, bs, posted);
    } else {
      var k :| 0 <= k < |bs| && !posted[k];
      AcceptedMissesFailure(bs, posted, |bs|, k);
    }
  }

  /** The rows a replay prepares are exactly the rows of its batches. */
  lemma {:induction false} RowCountIsAllRows(bs: seq<Batch>)
    ensures RowCount(bs) == |AllRows(bs)|
  {
    if bs != [] {
      RowCountIsAllRows(bs[..|bs| - 1]);
    }
  }
}
