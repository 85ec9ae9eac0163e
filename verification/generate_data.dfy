/**
 * `generate_predictive_telemetry` (backend/util/generate_data.py): synthetic pacemaker
 * telemetry for training. The model keeps the parameter checks, the time grid, and the
 * index arithmetic of failure injection: the label window, the start of the 14-day
 * degradation window (a valid index), the explant rule and the final ordering. The
 * random draws are arbitrary streams of naturals; the float signals (baseline noise,
 * drift curves, rolling features) are not modelled.
 *
 * The frame is built from the product of the timestamps and the patient ids, timestamps
 * major: row `k` belongs to patient `k % P` at time position `k / P`, where `P` is the
 * number of patients.
 */
module GenerateData {

  import opened Common
  import opened Text
  import opened StableSort

  const SecondsPerDay: nat := 24 * 60 * 60

  /** An argument as `isinstance(value, int)` sees it (a `bool` is an `int` too). */
  datatype Arg = IntArg(i: int) | OtherArg

  datatype GenError = ValueError(message: string) | TypeError(message: string)

  /** The keyword arguments of `generate_predictive_telemetry`. */
  datatype Request = Request(numPatients: Arg, pingsPerDay: Arg, numDays: Arg,
                             failureRate: real, filename: string, saveCsv: bool)

  /** The defaults: 1000 patients, one ping a day for 1825 days, a fifth of them failing. */
  const DefaultRequest: Request := Request(IntArg(1000), IntArg(1), IntArg(1825), 0.2, "pacemaker_data.csv", true)

  /** The checked parameters and the resolved output path. */
  datatype Settings = Settings(numPatients: nat, pingsPerDay: nat, numDays: nat, failureRate: real,
                               filename: string, outputPath: string)

  // ---------------------------------------------------------------------------
  // Parameter checks
  // ---------------------------------------------------------------------------

  predicate IsAbsolute(path: string) {
    |path| > 0 && path[0] == '/'
  }

  /** A piece between slashes that `pathlib` keeps as a component: not empty and not ".". */
  function PathPiece(piece: string): seq<string> {
    if piece == "" || piece == "." then [] else [piece]
  }

  /** The components of `piece + path`, where `piece` is the component read so far. */
  function PartsFrom(path: string, piece: string): (parts: seq<string>)
    requires '/' !in piece
    ensures forall p :: p in parts ==> p != "" && p != "." && '/' !in p
  {
    if path == [] then PathPiece(piece)
    else if path[0] == '/' then PathPiece(piece) + PartsFrom(path[1..], "")
    else PartsFrom(path[1..], piece + [path[0]])
  }

  /** The components `PurePosixPath(path).parts` lists after the root. */
  function PathParts(path: string): seq<string> {
    PartsFrom(path, "")
  }

  lemma {:induction false} PartsOfPlainPiece(path: string, piece: string)
    requires '/' !in piece && '/' !in path
    ensures PartsFrom(path, piece) == PathPiece(piece + path)
    decreases |path|
  {
    if path == [] {
      assert piece + path == piece;
    } else {
      PartsOfPlainPiece(path[1..], piece + [path[0]]);
      assert piece + [path[0]] + path[1..] == piece + path;
    }
  }

  /** `str(Path(path))`: the root if any, then the components joined by "/"; "." for none. */
  function PathText(path: string): string {
    if IsAbsolute(path) then "/" + Join(PathParts(path), "/")
    else if PathParts(path) == [] then "."
    else Join(PathParts(path), "/")
  }

  /**
   * `Path(filename)`, moved under the generator's `data` directory when the file is saved and
   * its parent is `Path(".")` (a relative path of at most one component).
   */
  function OutputPath(name: string, saveCsv: bool, dataDir: string): string {
    var parts := PathParts(name);
    if saveCsv && !IsAbsolute(name) && |parts| <= 1 then
      if parts == [] then dataDir else dataDir + "/" + parts[0]
    else PathText(name)
  }

  /**
   * A saved file named with a leading "./" lands in the `data` directory like the bare name,
   * and a name with a directory component stays where it is.
   */
  lemma OutputPathParent(n: string, dir: string, dataDir: string)
    requires '/' !in n && n != "" && n != "."
    requires '/' !in dir && dir != "" && dir != "."
    ensures OutputPath("./" + n, true, dataDir) == dataDir + "/" + n
    ensures OutputPath(dir + "/" + n, true, dataDir) == dir + "/" + n
  {
    assert ("./" + n)[0] == '.' && ("./" + n)[1..] == "/" + n;
    assert ("/" + n)[0] == '/' && ("/" + n)[1..] == n;
    assert "" + ['.'] == ".";
    PartsOfPlainPiece(n, "");
    assert "" + n == n;
    calc {
      PathParts("./" + n);
      PartsFrom("/" + n, ".");
      PathPiece(".") + PartsFrom(n, "");
      [n];
    }
    PartsFromSlash(dir, "", n);
    assert "" + dir == dir;
    assert PathParts(dir + "/" + n) == [dir, n];
    assert (dir + "/" + n)[0] == dir[0] && !IsAbsolute(dir + "/" + n);
    assert [dir, n][..1] == [dir];
    assert Join([dir, n], "/") == dir + "/" + n;
  }

  lemma {:induction false} PartsFromSlash(dir: string, piece: string, n: string)
    requires '/' !in piece && '/' !in dir && '/' !in n && piece + dir != "" && piece + dir != "."
    ensures PartsFrom(dir + "/" + n, piece) == [piece + dir] + PathPiece(n)
    decreases |dir|
  {
    if dir == [] {
      assert (dir + "/" + n)[0] == '/' && (dir + "/" + n)[1..] == n;
      assert piece + dir == piece;
      PartsOfPlainPiece(n, "");
      assert "" + n == n;
    } else {
      assert (dir + "/" + n)[0] == dir[0] && (dir + "/" + n)[1..] == dir[1..] + "/" + n;
      assert piece + [dir[0]] + dir[1..] == piece + dir;
      PartsFromSlash(dir[1..], piece + [dir[0]], n);
    }
  }

  /** 100 days of normal data, a 10-day buffer after failure, and one more point. */
  function MinPoints(ppd: nat): nat {
    100 * ppd + 10 * ppd + 1
  }

  // The messages of the errors the checks raise.
  const RateMessage: string := "Failure rate must be between 0 and 1."
  const IntegersMessage: string := "num_patients, pings_per_day, and num_days must all be integers."
  const PositiveMessage: string := "Number of patients, pings per day, and number of days must all be positive integers."
  const FilenameMissingMessage: string := "Filename must be provided if save_csv is True."
  const CsvSuffixMessage: string := "Filename must end with '.csv'."

  function TooFewPointsMessage(minPoints: nat): string {
    "num_days * pings_per_day must be at least " + NatText(minPoints)
    + " when failure_rate > 0 to support baseline, degradation, and target windows."
  }

  /**
   * The checks in the order the generator makes them; `uuid` is the text of the
   * `uuid.uuid4()` an empty filename is replaced with, `dataDir` the generator's `data`
   * directory.
   */
  function Validate(req: Request, uuid: string, dataDir: string): (r: Result<Settings, GenError>)
    ensures r.Ok? ==> r.value.numPatients > 0 && r.value.pingsPerDay > 0 && r.value.numDays > 0
    ensures r.Ok? ==> 0.0 <= r.value.failureRate <= 1.0
    ensures r.Ok? && r.value.failureRate > 0.0 ==>
              r.value.numDays * r.value.pingsPerDay >= MinPoints(r.value.pingsPerDay)
  {
    if !(0.0 <= req.failureRate <= 1.0) then Err(ValueError(RateMessage))
    else if !(req.numPatients.IntArg? && req.pingsPerDay.IntArg? && req.numDays.IntArg?) then
      Err(TypeError(IntegersMessage))
    else if req.numPatients.i <= 0 || req.pingsPerDay.i <= 0 || req.numDays.i <= 0 then
      Err(ValueError(PositiveMessage))
    else
      var name := if req.filename == "" then uuid + ".csv" else req.filename;
      if req.saveCsv && name == "" then Err(ValueError(FilenameMissingMessage))
      else if req.saveCsv && !EndsWith(name, ".csv") then Err(ValueError(CsvSuffixMessage))
      else
        var ppd: nat := req.pingsPerDay.i;
        var n := req.numDays.i * ppd;
        if n < MinPoints(ppd) && req.failureRate > 0.0 then
          Err(ValueError(TooFewPointsMessage(MinPoints(ppd))))
        else
          Ok(Settings(req.numPatients.i, ppd, req.numDays.i, req.failureRate, name,
                      OutputPath(name, req.saveCsv, dataDir)))
  }

  /**
   * Which check refuses a request: the failure rate first, then the argument types, then
   * their signs, then the file name, then the number of points per patient. An empty file
   * name is replaced before it is checked, so "Filename must be provided" is never raised.
   */
  lemma ValidationOrder(req: Request, uuid: string, dataDir: string)
    ensures var r := Validate(req, uuid, dataDir);
            var ints := req.numPatients.IntArg? && req.pingsPerDay.IntArg? && req.numDays.IntArg?;
            var name := if req.filename == "" then uuid + ".csv" else req.filename;
            && (!(0.0 <= req.failureRate <= 1.0) ==> r == Err(ValueError(RateMessage)))
            && (0.0 <= req.failureRate <= 1.0 && !ints ==>
                  r == Err(TypeError(IntegersMessage)))
            && (0.0 <= req.failureRate <= 1.0 && ints && (req.numPatients.i <= 0 || req.pingsPerDay.i <= 0 || req.numDays.i <= 0) ==>
                  r == Err(ValueError(PositiveMessage)))
            && r != Err(ValueError(FilenameMissingMessage))
            && (r.Ok? <==>
                  && 0.0 <= req.failureRate <= 1.0 && ints
                  && req.numPatients.i > 0 && req.pingsPerDay.i > 0 && req.numDays.i > 0
                  && (req.saveCsv ==> EndsWith(name, ".csv"))
                  && (req.failureRate > 0.0 ==> req.numDays.i * req.pingsPerDay.i >= MinPoints(req.pingsPerDay.i)))
  {
  }

  /**
   * An accepted request keeps its file name, or gets `<uuid>.csv` when it gave none; a
   * saved file always ends in ".csv", and a bare name is placed in the `data` directory.
   */
  lemma FilenameResolved(req: Request, uuid: string, dataDir: string)
    requires Validate(req, uuid, dataDir).Ok?
    ensures var s := Validate(req, uuid, dataDir).value;
            && s.filename != ""
            && (req.filename != "" ==> s.filename == req.filename)
            && (req.filename == "" ==> s.filename == uuid + ".csv")
            && (req.saveCsv ==> EndsWith(s.filename, ".csv"))
            && (req.saveCsv && '/' !in s.filename ==> s.outputPath == dataDir + "/" + s.filename)
            && (req.saveCsv && |PathParts(s.filename)| > 1 ==> s.outputPath == PathText(s.filename))
            && (!req.saveCsv ==> s.outputPath == PathText(s.filename))
  {
    var s := Validate(req, uuid, dataDir).value;
    if '/' !in s.filename {
      PartsOfPlainPiece(s.filename, "");
      assert "" + s.filename == s.filename;
    }
  }

  /** The defaults pass every check. */
  lemma DefaultsAccepted(uuid: string, dataDir: string)
    ensures Validate(DefaultRequest, uuid, dataDir).Ok?
  {
    assert EndsWith("pacemaker_data.csv", ".csv") by {
      assert "pacemaker_data.csv"[14..] == ".csv";
    }
  }

  // ---------------------------------------------------------------------------
  // The time grid
  // ---------------------------------------------------------------------------

  /** `int((24 * 60 * 60) / pings_per_day)`: truncation of a positive quotient is the floor. */
  function Interval(ppd: nat): nat
    requires ppd > 0
  {
    SecondsPerDay / ppd
  }

  /** `[now - i * interval for i in range(n)]`, reversed: `n` timestamps ending at `now`. */
  function Timestamps(now: int, interval: nat, n: nat): (ts: seq<int>)
    ensures |ts| == n
    ensures forall i :: 0 <= i < n ==> ts[i] == now - (n - 1 - i) * interval
    decreases n
  {
    if n == 0 then []
    else
      var init := Timestamps(now - interval, interval, n - 1);
      assert forall i :: 0 <= i < n - 1 ==> init[i] == now - (n - 1 - i) * interval by {
        forall i | 0 <= i < n - 1 ensures init[i] == now - (n - 1 - i) * interval {
          assert (n - 1 - i) * interval == (n - 2 - i) * interval + interval;
        }
      }
      init + [now]
  }

  predicate StrictlyAscending(ts: seq<int>) {
    forall i, j :: 0 <= i < j < |ts| ==> ts[i] < ts[j]
  }

  /**
   * With at most one ping a second the timestamps rise strictly, one interval apart, and
   * the last is the current time; with more pings a day than seconds the interval is 0 and
   * every timestamp is the current time.
   */
  lemma TimestampGrid(now: int, ppd: nat, n: nat)
    requires ppd > 0
    ensures var ts := Timestamps(now, Interval(ppd), n);
            && (n > 0 ==> ts[n - 1] == now)
            && (forall i :: 0 <= i < n - 1 ==> ts[i + 1] - ts[i] == Interval(ppd))
            && (ppd <= SecondsPerDay ==> Interval(ppd) >= 1 && StrictlyAscending(ts))
            && (ppd > SecondsPerDay ==> forall i :: 0 <= i < n ==> ts[i] == now)
  {
    var interval := Interval(ppd);
    var ts := Timestamps(now, interval, n);
    forall i | 0 <= i < n - 1 ensures ts[i + 1] - ts[i] == interval {
      assert (n - 1 - i) * interval == (n - 1 - (i + 1)) * interval + interval;
    }
    if ppd <= SecondsPerDay {
      assert interval >= 1;
      forall i, j | 0 <= i < j < n ensures ts[i] < ts[j] {
        assert (n - 1 - i) * interval == (n - 1 - j) * interval + (j - i) * interval;
        MulAtLeast(j - i, interval);
      }
    } else {
      assert interval == 0;
    }
  }

  // ---------------------------------------------------------------------------
  // Random draws
  // ---------------------------------------------------------------------------

  /**
   * The random stream, as arbitrary naturals: `picks` drives `np.random.choice` of the
   * failing patients and `offsets` the `np.random.randint` of each failure position.
   */
  datatype Draws = Draws(picks: seq<nat>, offsets: seq<nat>)

  function DrawAt(s: seq<nat>, j: nat): nat {
    if j < |s| then s[j] else 0
  }

  predicate Distinct(s: seq<nat>) {
    forall i, j :: 0 <= i < j < |s| ==> s[i] != s[j]
  }

  /** `np.arange(num_patients)`. */
  function PatientIds(numPatients: nat): (ids: seq<nat>)
    ensures |ids| == numPatients && forall i :: 0 <= i < numPatients ==> ids[i] == i
  {
    if numPatients == 0 then [] else PatientIds(numPatients - 1) + [numPatients - 1]
  }

  /** `int(num_patients * failure_rate)`: the number of failing patients. */
  function FailingCount(numPatients: nat, failureRate: real): (k: nat)
    requires 0.0 <= failureRate <= 1.0
    ensures k <= numPatients
    ensures k > 0 ==> failureRate > 0.0
  {
    var x := numPatients as real * failureRate;
    assert 0.0 <= x;
    assert x <= numPatients as real by {
      assert numPatients as real * (1.0 - failureRate) >= 0.0;
    }
    Trunc(x)
  }

  /**
   * `np.random.choice(pool, k, replace=False)`: each pick takes one of the elements still
   * in the pool.
   */
  function Choose(pool: seq<nat>, k: nat, picks: seq<nat>): (r: seq<nat>)
    requires k <= |pool|
    ensures |r| == k
    ensures forall i :: 0 <= i < k ==> r[i] in pool
    ensures Distinct(pool) ==> Distinct(r)
    decreases k
  {
    if k == 0 then []
    else
      var i := DrawAt(picks, 0) % |pool|;
      var rest := pool[..i] + pool[i + 1..];
      var tail := Choose(rest, k - 1, if picks == [] then [] else picks[1..]);
      Removed(pool, i);
      [pool[i]] + tail
  }

  /** Taking an element out of a pool leaves the others, and none of them equals it when the pool is distinct. */
  lemma Removed(pool: seq<nat>, i: nat)
    requires i < |pool|
    ensures forall x :: x in pool[..i] + pool[i + 1..] ==> x in pool
    ensures Distinct(pool) ==> pool[i] !in pool[..i] + pool[i + 1..] && Distinct(pool[..i] + pool[i + 1..])
  {
    var rest := pool[..i] + pool[i + 1..];
    forall m | 0 <= m < |rest| ensures rest[m] == if m < i then pool[m] else pool[m + 1] {
    }
    if Distinct(pool) {
      forall a, b | 0 <= a < b < |rest| ensures rest[a] != rest[b] {
        var a' := if a < i then a else a + 1;
        var b' := if b < i then b else b + 1;
        assert rest[a] == pool[a'] && rest[b] == pool[b'];
      }
    }
  }

  /** `np.random.randint(100 * ppd, n - 10 * ppd)` for the `j`-th failing patient. */
  function FailPosition(ppd: nat, n: nat, offset: nat): nat
    requires n >= MinPoints(ppd)
  {
    100 * ppd + offset % (n - 110 * ppd)
  }

  /**
   * The failure position leaves at least 100 days of normal data before it and 10 days
   * after it; the 14-day degradation window and the 7-day label window before it start at
   * a valid position. Under the minimum-points check the draw's range is never empty.
   */
  lemma FailPositionRange(ppd: nat, n: nat, offset: nat)
    requires n >= MinPoints(ppd)
    ensures 100 * ppd < n - 10 * ppd
    ensures var f := FailPosition(ppd, n, offset);
            && 100 * ppd <= f < n - 10 * ppd
            && 0 <= f - 14 * ppd && 0 <= f - 7 * ppd
  {
  }

  /** The failure position of each failing patient, in the order they were chosen. */
  function FailPositions(ppd: nat, n: nat, offsets: seq<nat>, count: nat): (fs: seq<nat>)
    requires count == 0 || n >= MinPoints(ppd)
    ensures |fs| == count
    ensures forall j :: 0 <= j < count ==> fs[j] == FailPosition(ppd, n, DrawAt(offsets, j))
  {
    if count == 0 then [] else FailPositions(ppd, n, offsets, count - 1) + [FailPosition(ppd, n, DrawAt(offsets, count - 1))]
  }

  // ---------------------------------------------------------------------------
  // Failure injection
  // ---------------------------------------------------------------------------

  /** The failure position of patient `p`, if it was chosen to fail. */
  function FailureOf(failing: seq<nat>, failPos: seq<nat>, p: nat): (f: Option<nat>)
    requires |failing| == |failPos|
    ensures f.Some? <==> p in failing
    ensures f.Some? ==> f.value in failPos
  {
    if failing == [] then None
    else if failing[|failing| - 1] == p then Some(failPos[|failPos| - 1])
    else
      assert failing == failing[..|failing| - 1] + [failing[|failing| - 1]];
      FailureOf(failing[..|failing| - 1], failPos[..|failPos| - 1], p)
  }

  /** `Target_Fail_Next_7d`: 1 in the seven days before failure, otherwise 0. */
  function Label(fail: Option<nat>, ppd: nat, t: nat): int {
    if fail.Some? && fail.value - 7 * ppd <= t < fail.value then 1 else 0
  }

  /** The explant rule: no telemetry at or after failure. */
  predicate Dropped(fail: Option<nat>, t: nat) {
    fail.Some? && t >= fail.value
  }

  /** What the injection loop needs of the chosen patients and their failure positions. */
  predicate Injectable(width: nat, n: nat, ppd: nat, failing: seq<nat>, failPos: seq<nat>) {
    && |failing| == |failPos| && Distinct(failing)
    && forall j :: 0 <= j < |failing| ==> failing[j] < width && 7 * ppd <= failPos[j] <= n
  }

  lemma SplitIndex(t: nat, p: nat, width: nat)
    requires p < width
    ensures (t * width + p) / width == t && (t * width + p) % width == p
  {
    var k := t * width + p;
    var q := k / width;
    var r := k % width;
    assert k == q * width + r;
    if q > t {
      MulAtLeast(q - t, width);
    } else if q < t {
      MulAtLeast(t - q, width);
    }
  }

  lemma {:induction false} MulAtLeast(a: int, b: nat)
    requires a >= 1
    ensures a * b >= b
    decreases a
  {
    if a > 1 {
      MulAtLeast(a - 1, b);
      assert a * b == (a - 1) * b + b;
    }
  }

  lemma IndexBelow(t: nat, p: nat, n: nat, width: nat)
    requires t < n && p < width
    ensures t * width + p < n * width
  {
    assert (t + 1) * width <= n * width;
  }

  lemma TimeOfIndex(k: nat, n: nat, width: nat)
    requires width > 0 && k < n * width
    ensures k / width < n
  {
  }

  /** `df.index[df["Patient_ID"] == pid]`: the rows of patient `pid`, one per time position. */
  function PatientIndices(width: nat, pid: nat, n: nat): (r: seq<nat>)
    requires pid < width
    ensures |r| == n && forall t :: 0 <= t < n ==> r[t] == t * width + pid
  {
    if n == 0 then [] else PatientIndices(width, pid, n - 1) + [(n - 1) * width + pid]
  }

  /** The rows of patient `pid` at time positions `from` to `to` (exclusive). */
  lemma PatientRowsBetween(width: nat, pid: nat, n: nat, from: nat, to: nat, k: int)
    requires pid < width && from <= to <= n
    ensures k in PatientIndices(width, pid, n)[from..to] <==>
              0 <= k < n * width && k % width == pid && from <= k / width < to
  {
    var rows := PatientIndices(width, pid, n)[from..to];
    if k in rows {
      var i :| 0 <= i < |rows| && rows[i] == k;
      PatientRowAt(width, pid, n, from + i);
    }
    if 0 <= k < n * width && k % width == pid && from <= k / width < to {
      var t := k / width;
      PatientRowAt(width, pid, n, t);
      FlatIndex(k, width);
      assert rows[t - from] == k;
    }
  }

  /** Patient `pid`'s row at time position `t` is flat row `t * width + pid`. */
  lemma PatientRowAt(width: nat, pid: nat, n: nat, t: nat)
    requires pid < width && t < n
    ensures var k := PatientIndices(width, pid, n)[t];
            k == t * width + pid && k < n * width && k % width == pid && k / width == t
  {
    SplitIndex(t, pid, width);
    IndexBelow(t, pid, n, width);
  }

  /** A flat row is its time position times the width plus its patient. */
  lemma FlatIndex(k: int, width: nat)
    requires width > 0
    ensures k == (k / width) * width + k % width
  {
  }

  lemma FailureOfStep(failing: seq<nat>, failPos: seq<nat>, j: nat, p: nat)
    requires |failing| == |failPos| && j < |failing|
    ensures FailureOf(failing[..j + 1], failPos[..j + 1], p)
         == if p == failing[j] then Some(failPos[j]) else FailureOf(failing[..j], failPos[..j], p)
  {
    assert failing[..j + 1][..j] == failing[..j];
    assert failPos[..j + 1][..j] == failPos[..j];
  }

  /** Every row's label is its patient's `Label` at its time position. */
  predicate LabelsMatch(labels: seq<int>, width: nat, ppd: nat, failing: seq<nat>, failPos: seq<nat>)
    requires width > 0 && |failing| == |failPos|
  {
    forall k :: 0 <= k < |labels| ==> LabelAt(labels, width, ppd, failing, failPos, k)
  }

  /** Flat row `k` carries the label of its patient at its time position. */
  predicate LabelAt(labels: seq<int>, width: nat, ppd: nat, failing: seq<nat>, failPos: seq<nat>, k: nat)
    requires width > 0 && |failing| == |failPos| && k < |labels|
  {
    labels[k] == Label(FailureOf(failing, failPos, k % width), ppd, k / width)
  }

  /** The rows to drop are exactly the rows at or after their patient's failure. */
  ghost predicate DropsMatch(drop: seq<nat>, n: nat, width: nat, failing: seq<nat>, failPos: seq<nat>)
    requires width > 0 && |failing| == |failPos|
  {
    forall k :: DropAt(drop, n, width, failing, failPos, k)
  }

  /** Flat row `k` is dropped exactly when it exists and is at or after its patient's failure. */
  predicate DropAt(drop: seq<nat>, n: nat, width: nat, failing: seq<nat>, failPos: seq<nat>, k: int)
    requires width > 0 && |failing| == |failPos|
  {
    k in drop <==> 0 <= k < n * width && Dropped(FailureOf(failing, failPos, k % width), k / width)
  }

  /** `df.loc[indices, "Target_Fail_Next_7d"] = 1`. */
  method SetLabels(target: array<int>, indices: seq<nat>)
    requires forall i :: 0 <= i < |indices| ==> indices[i] < target.Length
    modifies target
    ensures forall k :: 0 <= k < target.Length ==> target[k] == if k in indices then 1 else old(target[k])
  {
    for i := 0 to |indices|
      invariant forall k :: 0 <= k < target.Length ==> target[k] == if k in indices[..i] then 1 else old(target[k])
    {
      assert indices[..i + 1] == indices[..i] + [indices[i]];
      target[indices[i]] := 1;
    }
    assert indices[..|indices|] == indices;
  }

  lemma LabelStep(before: seq<int>, after: seq<int>, width: nat, n: nat, ppd: nat,
                  failing: seq<nat>, failPos: seq<nat>, j: nat, pid: nat, failAt: nat)
    requires width > 0 && |failing| == |failPos| && j < |failing|
    requires pid == failing[j] && failAt == failPos[j] && pid < width && 7 * ppd <= failAt <= n
    requires pid !in failing[..j]
    requires |before| == |after| == n * width
    requires LabelsMatch(before, width, ppd, failing[..j], failPos[..j])
    requires forall k :: 0 <= k < |after| ==>
               after[k] == if k in PatientIndices(width, pid, n)[failAt - 7 * ppd..failAt] then 1 else before[k]
    ensures LabelsMatch(after, width, ppd, failing[..j + 1], failPos[..j + 1])
  {
    var failing', failPos' := failing[..j + 1], failPos[..j + 1];
    forall k | 0 <= k < |after|
      ensures LabelAt(after, width, ppd, failing', failPos', k)
    {
      assert LabelAt(before, width, ppd, failing[..j], failPos[..j], k);
      PatientRowsBetween(width, pid, n, failAt - 7 * ppd, failAt, k);
      FailureOfStep(failing, failPos, j, k % width);
    }
  }

  lemma DropStep(drop: seq<nat>, width: nat, n: nat, failing: seq<nat>, failPos: seq<nat>, j: nat, pid: nat, failAt: nat)
    requires width > 0 && |failing| == |failPos| && j < |failing|
    requires pid == failing[j] && failAt == failPos[j] && pid < width && failAt <= n
    requires pid !in failing[..j]
    requires DropsMatch(drop, n, width, failing[..j], failPos[..j])
    ensures DropsMatch(drop + PatientIndices(width, pid, n)[failAt..], n, width, failing[..j + 1], failPos[..j + 1])
  {
    var tail := PatientIndices(width, pid, n)[failAt..];
    assert tail == PatientIndices(width, pid, n)[failAt..n];
    var failing', failPos' := failing[..j + 1], failPos[..j + 1];
    forall k
      ensures DropAt(drop + tail, n, width, failing', failPos', k)
    {
      assert DropAt(drop, n, width, failing[..j], failPos[..j], k);
      DropStepAt(drop, width, n, failing, failPos, j, pid, failAt, k);
    }
  }

  lemma DropStepAt(drop: seq<nat>, width: nat, n: nat, failing: seq<nat>, failPos: seq<nat>, j: nat, pid: nat, failAt: nat, k: int)
    requires width > 0 && |failing| == |failPos| && j < |failing|
    requires pid == failing[j] && failAt == failPos[j] && pid < width && failAt <= n
    requires pid !in failing[..j]
    requires k in drop <==> 0 <= k < n * width && Dropped(FailureOf(failing[..j], failPos[..j], k % width), k / width)
    ensures k in drop + PatientIndices(width, pid, n)[failAt..n] <==>
              0 <= k < n * width && Dropped(FailureOf(failing[..j + 1], failPos[..j + 1], k % width), k / width)
  {
    var tail := PatientIndices(width, pid, n)[failAt..n];
    PatientRowsBetween(width, pid, n, failAt, n, k);
    assert k in drop + tail <==> k in drop || k in tail;
    if 0 <= k < n * width {
      TimeOfIndex(k, n, width);
      var p := k % width;
      FailureOfStep(failing, failPos, j, p);
      if p == pid {
        assert FailureOf(failing[..j], failPos[..j], p).None?;
        assert k !in drop;
      } else {
        assert FailureOf(failing[..j + 1], failPos[..j + 1], p) == FailureOf(failing[..j], failPos[..j], p);
      }
    }
  }

  /**
   * The per-patient loop: for each failing patient, `df.loc[target_indices, ...] = 1` over
   * the seven days before its failure position, and `rows_to_drop.extend` with its rows
   * from the failure position on. Every row's label and whether it is dropped depend only
   * on its patient's failure position.
   */
  method InjectFailures(width: nat, n: nat, ppd: nat, failing: seq<nat>, failPos: seq<nat>)
    returns (target: array<int>, rowsToDrop: seq<nat>)
    requires width > 0 && Injectable(width, n, ppd, failing, failPos)
    ensures fresh(target) && target.Length == n * width
    ensures LabelsMatch(target[..], width, ppd, failing, failPos)
    ensures DropsMatch(rowsToDrop, n, width, failing, failPos)
  {
    target := new int[n * width](_ => 0);
    rowsToDrop := [];
    for j := 0 to |failing|
      invariant LabelsMatch(target[..], width, ppd, failing[..j], failPos[..j])
      invariant DropsMatch(rowsToDrop, n, width, failing[..j], failPos[..j])
    {
      rowsToDrop := InjectFailure(target, rowsToDrop, width, n, ppd, failing, failPos, j);
    }
    assert failing[..|failing|] == failing && failPos[..|failPos|] == failPos;
  }

  /** One iteration of the per-patient loop, for the `j`-th failing patient. */
  method InjectFailure(target: array<int>, rowsToDrop: seq<nat>, width: nat, n: nat, ppd: nat,
                       failing: seq<nat>, failPos: seq<nat>, j: nat)
    returns (rowsToDrop': seq<nat>)
    requires width > 0 && Injectable(width, n, ppd, failing, failPos) && j < |failing|
    requires target.Length == n * width
    requires LabelsMatch(target[..], width, ppd, failing[..j], failPos[..j])
    requires DropsMatch(rowsToDrop, n, width, failing[..j], failPos[..j])
    modifies target
    ensures LabelsMatch(target[..], width, ppd, failing[..j + 1], failPos[..j + 1])
    ensures DropsMatch(rowsToDrop', n, width, failing[..j + 1], failPos[..j + 1])
  {
    var pid := failing[j];
    var failAt := failPos[j];
    var patientIndices := PatientIndices(width, pid, n);
    forall t | 0 <= t < n ensures patientIndices[t] < target.Length {
      IndexBelow(t, pid, n, width);
    }
    assert pid !in failing[..j];
    ghost var before := target[..];
    SetLabels(target, patientIndices[failAt - 7 * ppd..failAt]);
    LabelStep(before, target[..], width, n, ppd, failing, failPos, j, pid, failAt);
    DropStep(rowsToDrop, width, n, failing, failPos, j, pid, failAt);
    rowsToDrop' := rowsToDrop + patientIndices[failAt..];
  }

  // ---------------------------------------------------------------------------
  // Explant, ordering and the generated rows
  // ---------------------------------------------------------------------------

  /** A generated row; the float signals and engineered features are not modelled. */
  datatype Row = Row(patientId: nat, timestamp: int, target: int)

  /** `sort_values(["Timestamp", "Patient_ID"])`. */
  function SortKey(r: Row): Key {
    (r.timestamp, r.patientId)
  }

  /**
   * `df.drop(index=rows_to_drop).reset_index(drop=True)` over the rows of the first `t`
   * time positions: the rows not dropped, in index order. The frame is laid out time
   * position by time position (`np.repeat` of the timestamps, `np.tile` of the ids), so
   * index order is flat row `t * numPatients + p` for `t`, then `p`, ascending.
   */
  function Explant(ts: seq<int>, width: nat, labels: seq<int>, drop: seq<nat>, t: nat): seq<Row>
    requires width > 0 && |labels| == |ts| * width && t <= |ts|
  {
    if t == 0 then [] else Explant(ts, width, labels, drop, t - 1) + ExplantAt(ts, width, labels, drop, t - 1, width)
  }

  /** The kept rows among the flat rows of time position `t` for patients below `q`. */
  function ExplantAt(ts: seq<int>, width: nat, labels: seq<int>, drop: seq<nat>, t: nat, q: nat): seq<Row>
    requires width > 0 && |labels| == |ts| * width && t < |ts| && q <= width
  {
    if q == 0 then []
    else
      IndexBelow(t, q - 1, |ts|, width);
      ExplantAt(ts, width, labels, drop, t, q - 1) + FlatPiece(ts, width, labels, drop, t * width + q - 1)
  }

  /** Flat row `k` after the explant: nothing if it is dropped, else its patient, time and label. */
  function FlatPiece(ts: seq<int>, width: nat, labels: seq<int>, drop: seq<nat>, k: nat): seq<Row>
    requires width > 0 && |labels| == |ts| * width && k < |labels|
  {
    TimeOfIndex(k, |ts|, width);
    if k in drop then [] else [Row(k % width, ts[k / width], labels[k])]
  }

  /** Everything a run draws or derives before injecting failures. */
  datatype Plan = Plan(timestamps: seq<int>, ppd: nat, failure: seq<Option<nat>>)

  /** At least one patient. */
  predicate Aligned(g: Plan) {
    |g.failure| > 0
  }

  /** Each patient's failure position, if it fails, looked up once per patient. */
  function FailureTable(failing: seq<nat>, failPos: seq<nat>, width: nat): (r: seq<Option<nat>>)
    requires |failing| == |failPos|
    ensures |r| == width && forall p :: 0 <= p < width ==> r[p] == FailureOf(failing, failPos, p)
  {
    if width == 0 then [] else FailureTable(failing, failPos, width - 1) + [FailureOf(failing, failPos, width - 1)]
  }

  /** The rows kept at time position `t` for the first `q` patients, in patient order. */
  function Block(g: Plan, t: nat, q: nat): seq<Row>
    requires t < |g.timestamps| && q <= |g.failure|
  {
    if q == 0 then [] else Block(g, t, q - 1) + Planned(g, t, q - 1)
  }

  /** Patient `p` at time position `t`: nothing at or after its failure, else its labelled row. */
  function Planned(g: Plan, t: nat, p: nat): seq<Row>
    requires t < |g.timestamps| && p < |g.failure|
  {
    var fail := g.failure[p];
    if Dropped(fail, t) then [] else [Row(p, g.timestamps[t], Label(fail, g.ppd, t))]
  }

  /** A block holds rows of its own time position and of the patients it covers. */
  lemma {:induction false} BlockRows(g: Plan, t: nat, q: nat)
    requires t < |g.timestamps| && q <= |g.failure|
    ensures forall i :: 0 <= i < |Block(g, t, q)| ==> Block(g, t, q)[i].timestamp == g.timestamps[t] && Block(g, t, q)[i].patientId < q
  {
    if q > 0 {
      BlockRows(g, t, q - 1);
    }
  }

  /** The rows kept at the first `m` time positions: what the generator is meant to produce. */
  function Rows(g: Plan, m: nat): seq<Row>
    requires m <= |g.timestamps|
  {
    if m == 0 then [] else Rows(g, m - 1) + Block(g, m - 1, |g.failure|)
  }

  /**
   * `labels` and `drop` are what the failure injection produced for the plan's patients,
   * whose failure table comes from `failing` and `failPos`.
   */
  ghost predicate Injected(g: Plan, labels: seq<int>, drop: seq<nat>, failing: seq<nat>, failPos: seq<nat>) {
    && Aligned(g) && |labels| == |g.timestamps| * |g.failure|
    && |failing| == |failPos| && g.failure == FailureTable(failing, failPos, |g.failure|)
    && LabelsMatch(labels, |g.failure|, g.ppd, failing, failPos)
    && DropsMatch(drop, |g.timestamps|, |g.failure|, failing, failPos)
  }

  /** Flat row `t * numPatients + p` after the explant is patient `p`'s planned row at `t`. */
  lemma FlatRow(g: Plan, labels: seq<int>, drop: seq<nat>, failing: seq<nat>, failPos: seq<nat>, t: nat, p: nat, k: nat)
    requires Injected(g, labels, drop, failing, failPos)
    requires t < |g.timestamps| && p < |g.failure| && k == t * |g.failure| + p
    ensures k < |labels|
    ensures FlatPiece(g.timestamps, |g.failure|, labels, drop, k) == Planned(g, t, p)
  {
    SplitIndex(t, p, |g.failure|);
    IndexBelow(t, p, |g.timestamps|, |g.failure|);
    assert DropAt(drop, |g.timestamps|, |g.failure|, failing, failPos, k);
    assert LabelAt(labels, |g.failure|, g.ppd, failing, failPos, k);
  }

  /** Within a time position the explant keeps exactly the planned rows, in patient order. */
  lemma {:induction false} ExplantAtIsBlock(g: Plan, labels: seq<int>, drop: seq<nat>, failing: seq<nat>, failPos: seq<nat>, t: nat, q: nat)
    requires Injected(g, labels, drop, failing, failPos)
    requires t < |g.timestamps| && q <= |g.failure|
    ensures ExplantAt(g.timestamps, |g.failure|, labels, drop, t, q) == Block(g, t, q)
  {
    if q > 0 {
      ExplantAtIsBlock(g, labels, drop, failing, failPos, t, q - 1);
      ExplantAtStep(g, labels, drop, failing, failPos, t, q);
    }
  }

  lemma ExplantAtStep(g: Plan, labels: seq<int>, drop: seq<nat>, failing: seq<nat>, failPos: seq<nat>, t: nat, q: nat)
    requires Injected(g, labels, drop, failing, failPos)
    requires t < |g.timestamps| && 0 < q <= |g.failure|
    requires ExplantAt(g.timestamps, |g.failure|, labels, drop, t, q - 1) == Block(g, t, q - 1)
    ensures ExplantAt(g.timestamps, |g.failure|, labels, drop, t, q) == Block(g, t, q)
  {
    var k := t * |g.failure| + q - 1;
    FlatRow(g, labels, drop, failing, failPos, t, q - 1, k);
    var before := ExplantAt(g.timestamps, |g.failure|, labels, drop, t, q - 1);
    var piece := FlatPiece(g.timestamps, |g.failure|, labels, drop, k);
    assert ExplantAt(g.timestamps, |g.failure|, labels, drop, t, q) == before + piece;
    assert Block(g, t, q) == Block(g, t, q - 1) + Planned(g, t, q - 1);
    ConcatEqual(before, piece, Block(g, t, q - 1), Planned(g, t, q - 1));
  }

  lemma ConcatEqual(a: seq<Row>, b: seq<Row>, c: seq<Row>, d: seq<Row>)
    requires a == c && b == d
    ensures a + b == c + d
  {
  }

  /** The explanted frame holds exactly the planned rows. */
  lemma ExplantIsRows(g: Plan, labels: seq<int>, drop: seq<nat>, failing: seq<nat>, failPos: seq<nat>)
    requires Injected(g, labels, drop, failing, failPos)
    ensures Explant(g.timestamps, |g.failure|, labels, drop, |g.timestamps|) == Rows(g, |g.timestamps|)
  {
    forall t | 0 <= t < |g.timestamps|
      ensures ExplantAt(g.timestamps, |g.failure|, labels, drop, t, |g.failure|) == Block(g, t, |g.failure|)
    {
      ExplantAtIsBlock(g, labels, drop, failing, failPos, t, |g.failure|);
    }
    ExplantUpTo(g, labels, drop, |g.timestamps|);
  }

  lemma {:induction false} ExplantUpTo(g: Plan, labels: seq<int>, drop: seq<nat>, t: nat)
    requires Aligned(g) && |labels| == |g.timestamps| * |g.failure| && t <= |g.timestamps|
    requires forall t' :: 0 <= t' < |g.timestamps| ==>
               ExplantAt(g.timestamps, |g.failure|, labels, drop, t', |g.failure|) == Block(g, t', |g.failure|)
    ensures Explant(g.timestamps, |g.failure|, labels, drop, t) == Rows(g, t)
  {
    if t > 0 {
      ExplantUpTo(g, labels, drop, t - 1);
      ExplantStep(g, labels, drop, t);
    }
  }

  lemma ExplantStep(g: Plan, labels: seq<int>, drop: seq<nat>, t: nat)
    requires Aligned(g) && |labels| == |g.timestamps| * |g.failure| && 0 < t <= |g.timestamps|
    requires Explant(g.timestamps, |g.failure|, labels, drop, t - 1) == Rows(g, t - 1)
    requires ExplantAt(g.timestamps, |g.failure|, labels, drop, t - 1, |g.failure|) == Block(g, t - 1, |g.failure|)
    ensures Explant(g.timestamps, |g.failure|, labels, drop, t) == Rows(g, t)
  {
    var before := Explant(g.timestamps, |g.failure|, labels, drop, t - 1);
    var last := ExplantAt(g.timestamps, |g.failure|, labels, drop, t - 1, |g.failure|);
    assert Explant(g.timestamps, |g.failure|, labels, drop, t) == before + last;
    assert Rows(g, t) == Rows(g, t - 1) + Block(g, t - 1, |g.failure|);
    ConcatEqual(before, last, Rows(g, t - 1), Block(g, t - 1, |g.failure|));
  }

  /** Within a time position the rows are in patient order. */
  lemma {:induction false} BlockSorted(g: Plan, t: nat, q: nat)
    requires t < |g.timestamps| && q <= |g.failure|
    ensures Sorted(Block(g, t, q), SortKey)
  {
    if q > 0 {
      BlockSorted(g, t, q - 1);
      var b := Block(g, t, q - 1);
      if !Dropped(g.failure[q - 1], t) {
        var row := Row(q - 1, g.timestamps[t], Label(g.failure[q - 1], g.ppd, t));
        BlockRows(g, t, q - 1);
        assert forall i :: 0 <= i < |b| ==> KeyLe(SortKey(b[i]), SortKey(row));
        SortedAppend(b, row, SortKey);
      } else {
        assert Block(g, t, q) == b + [];
      }
    }
  }

  lemma SortedConcat(a: seq<Row>, b: seq<Row>)
    requires Sorted(a, SortKey) && Sorted(b, SortKey)
    requires forall i, j :: 0 <= i < |a| && 0 <= j < |b| ==> KeyLe(SortKey(a[i]), SortKey(b[j]))
    ensures Sorted(a + b, SortKey)
  {
    forall i, j | 0 <= i < j < |a + b| ensures KeyLe(SortKey((a + b)[i]), SortKey((a + b)[j])) {
      if j < |a| {
      } else if i >= |a| {
        assert (a + b)[i] == b[i - |a|] && (a + b)[j] == b[j - |a|];
      } else {
        assert (a + b)[j] == b[j - |a|];
      }
    }
  }

  /**
   * With strictly ascending timestamps the planned rows are already in (timestamp,
   * patient id) order, and every row is no later than the last time position covered.
   */
  lemma {:induction false} RowsSorted(g: Plan, m: nat)
    requires m <= |g.timestamps| && StrictlyAscending(g.timestamps)
    ensures Sorted(Rows(g, m), SortKey)
    ensures m > 0 ==> forall i :: 0 <= i < |Rows(g, m)| ==> Rows(g, m)[i].timestamp <= g.timestamps[m - 1]
  {
    if m > 0 {
      RowsSorted(g, m - 1);
      var a := Rows(g, m - 1);
      var b := Block(g, m - 1, |g.failure|);
      BlockSorted(g, m - 1, |g.failure|);
      BlockRows(g, m - 1, |g.failure|);
      if m > 1 {
        assert g.timestamps[m - 2] < g.timestamps[m - 1];
      }
      SortedConcat(a, b);
      assert Rows(g, m) == a + b;
    }
  }

  /** The rows of patient `p`, in order. */
  function ByPatient(rows: seq<Row>, p: nat): seq<Row> {
    if rows == [] then []
    else ByPatient(rows[..|rows| - 1], p) + (if rows[|rows| - 1].patientId == p then [rows[|rows| - 1]] else [])
  }

  lemma {:induction false} ByPatientConcat(a: seq<Row>, b: seq<Row>, p: nat)
    ensures ByPatient(a + b, p) == ByPatient(a, p) + ByPatient(b, p)
  {
    if b == [] {
      assert a + b == a;
    } else {
      ByPatientConcat(a, b[..|b| - 1], p);
      assert (a + b)[..|a + b| - 1] == a + b[..|b| - 1];
    }
  }

  /** A patient's history: its rows at the first `m` time positions. */
  function History(g: Plan, p: nat, m: nat): (h: seq<Row>)
    requires p < |g.failure| && m <= |g.timestamps|
    ensures |h| == m
    ensures forall t :: 0 <= t < m ==> h[t] == Row(p, g.timestamps[t], Label(g.failure[p], g.ppd, t))
  {
    if m == 0 then [] else History(g, p, m - 1) + [Row(p, g.timestamps[m - 1], Label(g.failure[p], g.ppd, m - 1))]
  }

  /** How many time positions of patient `p` survive the explant rule. */
  function Kept(g: Plan, p: nat): nat
    requires p < |g.failure|
  {
    var fail := g.failure[p];
    if fail.Some? && fail.value <= |g.timestamps| then fail.value else |g.timestamps|
  }

  lemma ByPatientOne(r: Row, p: nat)
    ensures ByPatient([r], p) == if r.patientId == p then [r] else []
  {
    assert [r][..0] == [];
  }

  /** Within one time position, patient `p` has its planned row and nothing else. */
  lemma BlockOfPatient(g: Plan, t: nat, q: nat, p: nat)
    requires t < |g.timestamps| && q <= |g.failure|
    ensures ByPatient(Block(g, t, q), p) == if p < q then Planned(g, t, p) else []
  {
    if p < q {
      BlockOwn(g, t, q, p);
    } else {
      BlockOthers(g, t, q, p);
    }
  }

  lemma {:induction false} BlockOthers(g: Plan, t: nat, q: nat, p: nat)
    requires t < |g.timestamps| && q <= |g.failure| && q <= p
    ensures ByPatient(Block(g, t, q), p) == []
  {
    if q > 0 {
      BlockOthers(g, t, q - 1, p);
      var before := Block(g, t, q - 1);
      var piece := Planned(g, t, q - 1);
      assert Block(g, t, q) == before + piece;
      ByPatientConcat(before, piece, p);
      PlannedOfPatient(g, t, q - 1, p);
      assert ByPatient(piece, p) == [];
    }
  }

  lemma {:induction false} BlockOwn(g: Plan, t: nat, q: nat, p: nat)
    requires t < |g.timestamps| && p < q <= |g.failure|
    ensures ByPatient(Block(g, t, q), p) == Planned(g, t, p)
  {
    if q == p + 1 {
      BlockOwnLast(g, t, q, p);
    } else {
      BlockOwn(g, t, q - 1, p);
      BlockOwnLater(g, t, q, p);
    }
  }

  lemma BlockOwnLast(g: Plan, t: nat, q: nat, p: nat)
    requires t < |g.timestamps| && q == p + 1 && q <= |g.failure|
    ensures ByPatient(Block(g, t, q), p) == Planned(g, t, p)
  {
    var before := Block(g, t, p);
    var piece := Planned(g, t, p);
    assert Block(g, t, q) == before + piece;
    ByPatientConcat(before, piece, p);
    BlockOthers(g, t, p, p);
    PlannedOfPatient(g, t, p, p);
    assert [] + piece == piece;
  }

  lemma BlockOwnLater(g: Plan, t: nat, q: nat, p: nat)
    requires t < |g.timestamps| && p + 1 < q <= |g.failure|
    requires ByPatient(Block(g, t, q - 1), p) == Planned(g, t, p)
    ensures ByPatient(Block(g, t, q), p) == Planned(g, t, p)
  {
    var before := Block(g, t, q - 1);
    var piece := Planned(g, t, q - 1);
    assert Block(g, t, q) == before + piece;
    ByPatientConcat(before, piece, p);
    PlannedOfPatient(g, t, q - 1, p);
    assert ByPatient(before, p) + [] == ByPatient(before, p);
  }

  /** A planned row belongs to its own patient only. */
  lemma PlannedOfPatient(g: Plan, t: nat, r: nat, p: nat)
    requires t < |g.timestamps| && r < |g.failure|
    ensures ByPatient(Planned(g, t, r), p) == if r == p then Planned(g, t, r) else []
  {
    var piece := Planned(g, t, r);
    if piece != [] {
      ByPatientOne(piece[0], p);
      assert piece == [piece[0]];
    }
  }

  /**
   * A patient's rows are its history up to its failure position: every row before failure,
   * in time order, with its label, and none at or after failure.
   */
  lemma {:induction false} PatientRows(g: Plan, p: nat, m: nat)
    requires p < |g.failure| && m <= |g.timestamps|
    ensures ByPatient(Rows(g, m), p) == History(g, p, if m <= Kept(g, p) then m else Kept(g, p))
  {
    if m > 0 {
      PatientRows(g, p, m - 1);
      var before := Rows(g, m - 1);
      var block := Block(g, m - 1, |g.failure|);
      assert Rows(g, m) == before + block;
      ByPatientConcat(before, block, p);
      BlockOfPatient(g, m - 1, |g.failure|, p);
      var kept := Kept(g, p);
      var earlier := ByPatient(before, p);
      var mine := Planned(g, m - 1, p);
      assert ByPatient(Rows(g, m), p) == earlier + mine;
      if m - 1 < kept {
        assert earlier == History(g, p, m - 1);
        assert mine == [Row(p, g.timestamps[m - 1], Label(g.failure[p], g.ppd, m - 1))];
        assert History(g, p, m) == earlier + mine;
        assert (if m <= kept then m else kept) == m;
      } else {
        assert mine == [];
        assert earlier + mine == earlier;
        assert (if m - 1 <= kept then m - 1 else kept) == kept;
        assert earlier == History(g, p, kept);
        assert (if m <= kept then m else kept) == kept;
      }
    }
  }

  /** The number of rows labelled 1. */
  function Positives(rows: seq<Row>): (c: nat)
    ensures c <= |rows|
  {
    if rows == [] then 0 else Positives(rows[..|rows| - 1]) + (if rows[|rows| - 1].target == 1 then 1 else 0)
  }

  /**
   * Up to its failure position `f`, a failing patient's history is labelled 1 exactly at
   * the time positions from `f - 7 * ppd` on; a patient that does not fail has no label 1.
   */
  lemma {:induction false} HistoryPositives(g: Plan, p: nat, m: nat)
    requires p < |g.failure| && m <= |g.timestamps|
    requires g.failure[p].Some? ==> 7 * g.ppd <= g.failure[p].value && m <= g.failure[p].value
    ensures Positives(History(g, p, m)) ==
              if g.failure[p].None? || m <= g.failure[p].value - 7 * g.ppd then 0
              else m - (g.failure[p].value - 7 * g.ppd)
  {
    if m > 0 {
      HistoryPositives(g, p, m - 1);
      var h := History(g, p, m);
      assert h[..m - 1] == History(g, p, m - 1);
      assert h[m - 1].target == Label(g.failure[p], g.ppd, m - 1);
    }
  }

  /** Every failure position leaves 100 days of normal rows before it and 10 days after it. */
  predicate FailuresInRange(g: Plan) {
    forall p :: 0 <= p < |g.failure| && g.failure[p].Some? ==>
      100 * g.ppd <= g.failure[p].value && g.failure[p].value + 10 * g.ppd < |g.timestamps|
  }

  /**
   * What a patient ends up with: a patient that does not fail keeps a row at every time
   * position and none is labelled 1; a failing patient keeps exactly its rows before its
   * failure position `f` (at least 100 days of them, and at least 10 days short of the
   * end), and exactly the last seven days of them, `7 * ppd` rows, are labelled 1.
   */
  lemma PatientOutcome(g: Plan, p: nat)
    requires FailuresInRange(g) && p < |g.failure|
    ensures var h := ByPatient(Rows(g, |g.timestamps|), p);
            && (g.failure[p].None? ==> |h| == |g.timestamps| && Positives(h) == 0)
            && (g.failure[p].Some? ==>
                  var f := g.failure[p].value;
                  && |h| == f && 100 * g.ppd <= f && f + 10 * g.ppd < |g.timestamps|
                  && Positives(h) == 7 * g.ppd
                  && forall t :: 0 <= t < f ==> (h[t].target == 1 <==> f - 7 * g.ppd <= t))
  {
    var n := |g.timestamps|;
    PatientRows(g, p, n);
    var kept := Kept(g, p);
    assert (if n <= kept then n else kept) == kept;
    HistoryPositives(g, p, kept);
  }

  /** The accepted parameters, as `Validate` promises them. */
  predicate Accepted(s: Settings) {
    && s.numPatients > 0 && s.pingsPerDay > 0 && s.numDays > 0
    && 0.0 <= s.failureRate <= 1.0
    && (s.failureRate > 0.0 ==> s.numDays * s.pingsPerDay >= MinPoints(s.pingsPerDay))
  }

  /** The failing patients, in the order `np.random.choice` drew them. */
  function Failing(s: Settings, draws: Draws): (r: seq<nat>)
    requires Accepted(s)
    ensures |r| == FailingCount(s.numPatients, s.failureRate)
  {
    Choose(PatientIds(s.numPatients), FailingCount(s.numPatients, s.failureRate), draws.picks)
  }

  /** The failure position of each failing patient. */
  function FailurePositions(s: Settings, draws: Draws): (r: seq<nat>)
    requires Accepted(s)
    ensures |r| == FailingCount(s.numPatients, s.failureRate)
  {
    FailPositions(s.pingsPerDay, s.numDays * s.pingsPerDay, draws.offsets, FailingCount(s.numPatients, s.failureRate))
  }

  /** The plan of a run: its time grid and each patient's failure position, if any. */
  function PlanOf(s: Settings, now: int, draws: Draws): (g: Plan)
    requires Accepted(s)
    ensures Aligned(g) && |g.timestamps| == s.numDays * s.pingsPerDay && |g.failure| == s.numPatients
  {
    Plan(Timestamps(now, Interval(s.pingsPerDay), s.numDays * s.pingsPerDay), s.pingsPerDay,
         FailureTable(Failing(s, draws), FailurePositions(s, draws), s.numPatients))
  }

  /** The drawn failing patients are distinct patients and their failure positions are in range. */
  lemma DrawsInjectable(s: Settings, draws: Draws)
    requires Accepted(s)
    ensures var failPos := FailurePositions(s, draws);
            && Injectable(s.numPatients, s.numDays * s.pingsPerDay, s.pingsPerDay, Failing(s, draws), failPos)
            && forall f :: f in failPos ==>
                 100 * s.pingsPerDay <= f && f + 10 * s.pingsPerDay < s.numDays * s.pingsPerDay
  {
    var ppd, n := s.pingsPerDay, s.numDays * s.pingsPerDay;
    var ids := PatientIds(s.numPatients);
    var failing, failPos := Failing(s, draws), FailurePositions(s, draws);
    forall j | 0 <= j < |failing| ensures failing[j] < s.numPatients {
      assert failing[j] in ids;
    }
    forall j | 0 <= j < |failPos| ensures 100 * ppd <= failPos[j] && failPos[j] + 10 * ppd < n {
      FailPositionRange(ppd, n, DrawAt(draws.offsets, j));
    }
  }

  /** Every planned failure leaves 100 days of normal rows before it and 10 days after it. */
  lemma PlanInRange(s: Settings, now: int, draws: Draws)
    requires Accepted(s)
    ensures FailuresInRange(PlanOf(s, now, draws))
  {
    DrawsInjectable(s, draws);
  }

  /** A generated data set: its rows and where `to_csv` writes them. */
  datatype Dataset = Dataset(rows: seq<Row>, outputPath: string)

  /**
   * `generate_predictive_telemetry`: the checks, the failure injection, the explant rule and
   * the stable sort by (timestamp, patient id). `now` is `time.time()` and `draws` the
   * random stream.
   */
  method Generate(req: Request, uuid: string, dataDir: string, now: int, draws: Draws)
    returns (r: Result<Dataset, GenError>)
    ensures var v := Validate(req, uuid, dataDir);
            && (v.Err? ==> r == Err(v.error))
            && (v.Ok? ==> r == Ok(Dataset(SortBy(Rows(PlanOf(v.value, now, draws), v.value.numDays * v.value.pingsPerDay), SortKey),
                                          v.value.outputPath)))
  {
    var v := Validate(req, uuid, dataDir);
    if v.Err? {
      return Err(v.error);
    }
    var s := v.value;
    var width, ppd, n := s.numPatients, s.pingsPerDay, s.numDays * s.pingsPerDay;
    var failing, failPos := Failing(s, draws), FailurePositions(s, draws);
    DrawsInjectable(s, draws);
    var target, rowsToDrop := InjectFailures(width, n, ppd, failing, failPos);
    var g := PlanOf(s, now, draws);
    ExplantIsRows(g, target[..], rowsToDrop, failing, failPos);
    var rows := Explant(g.timestamps, width, target[..], rowsToDrop, n);
    return Ok(Dataset(SortBy(rows, SortKey), s.outputPath));
  }

  /**
   * With at most one ping a second the explanted rows are already in (timestamp, patient
   * id) order, so the sort leaves them as they are; the output is a permutation of them
   * in any case, in that order.
   */
  lemma GeneratedOrder(s: Settings, now: int, draws: Draws)
    requires Accepted(s)
    ensures var rows := Rows(PlanOf(s, now, draws), s.numDays * s.pingsPerDay);
            && Sorted(SortBy(rows, SortKey), SortKey)
            && multiset(SortBy(rows, SortKey)) == multiset(rows)
            && (s.pingsPerDay <= SecondsPerDay ==> SortBy(rows, SortKey) == rows)
  {
    var g := PlanOf(s, now, draws);
    var rows := Rows(g, |g.timestamps|);
    SortByOrdered(rows, SortKey);
    SortByPermutes(rows, SortKey);
    if s.pingsPerDay <= SecondsPerDay {
      TimestampGrid(now, s.pingsPerDay, |g.timestamps|);
      RowsSorted(g, |g.timestamps|);
      SortSortedIsIdentity(rows, SortKey);
    }
  }
}
