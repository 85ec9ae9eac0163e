/**
 * `MLEngine` (backend/util/ml_engine.py): the life cycle of the Random Forest that scores
 * pacemaker telemetry. Feature preparation drops the identity columns and, when training,
 * separates the target and keeps only complete rows; at inference it enforces the feature
 * schema captured at training time. The engine refuses to evaluate, predict or save before
 * it holds a model, and an artifact it saves restores the same schema and training
 * metadata when it is loaded again.
 *
 * The scikit-learn estimator, the train/test split and the scores are opaque: they enter
 * as the functions of a `Learner` or as measured values. The file system is a value of
 * type `Store` that operations read and return.
 */
module MlEngine {

  import opened Common
  import opened Text
  import opened JsonValue
  import opened Frames

  /** `_DEFAULT_EXCLUDED_COLUMNS`. */
  const DefaultExcludedColumns: seq<string> := ["Patient_ID", "Timestamp"]

  /** `_DEFAULT_TARGET_COLUMN`. */
  const DefaultTargetColumn: string := "Target_Fail_Next_7d"

  /** The column `predict` writes. */
  const RiskColumn: string := "risk_probability"

  /** The exceptions the engine raises. */
  datatype EngineError =
    | FileNotFound(message: string)
    | ValueError(message: string)
    | RuntimeError(message: string)
    /** A library call failed on what it found at the path (not a model, not a JSON object, a directory). */
    | Unreadable(path: string)
    /** A directory could not be created or a file could not be written at the path. */
    | OsError(path: string)
    /** An exception raised inside scikit-learn (fit or predict), with its message. */
    | LibraryError(message: string)
    /** An index past the end of a numpy axis. */
    | IndexError(message: string)
    /** The mean of a target series that holds text. */
    | TypeError(message: string)

  predicate DistinctColumns(f: Frame) {
    forall i, j :: 0 <= i < j < |f.columns| ==> f.columns[i] != f.columns[j]
  }

  // ---------------------------------------------------------------------------
  // Column and row operations
  // ---------------------------------------------------------------------------

  /** How many of `columns` are not in `drop`. */
  function KeptCount(columns: seq<string>, drop: set<string>): nat {
    if columns == [] then 0
    else KeptCount(columns[..|columns| - 1], drop) + (if columns[|columns| - 1] in drop then 0 else 1)
  }

  /** The entries of `row` that sit under a column whose name is not in `drop`, in order. */
  function KeepWhere<T>(columns: seq<string>, row: seq<T>, drop: set<string>): (r: seq<T>)
    requires |row| == |columns|
    ensures |r| == KeptCount(columns, drop)
  {
    if columns == [] then []
    else
      var n := |columns| - 1;
      KeepWhere(columns[..n], row[..n], drop) + (if columns[n] in drop then [] else [row[n]])
  }

  lemma {:induction false} KeepWhereMembers(columns: seq<string>, drop: set<string>)
    ensures forall c :: c in KeepWhere(columns, columns, drop) <==> c in columns && c !in drop
  {
    if columns != [] {
      var n := |columns| - 1;
      KeepWhereMembers(columns[..n], drop);
      assert columns == columns[..n] + [columns[n]];
    }
  }

  lemma {:induction false} KeepWhereAll<T>(columns: seq<string>, row: seq<T>, drop: set<string>)
    requires |row| == |columns|
    requires forall c :: c in columns ==> c !in drop
    ensures KeepWhere(columns, row, drop) == row
  {
    if columns != [] {
      var n := |columns| - 1;
      KeepWhereAll(columns[..n], row[..n], drop);
      assert row == row[..n] + [row[n]];
    }
  }

  /** `row` without its entry at `t`. */
  function RemoveAt<T>(row: seq<T>, t: nat): (r: seq<T>)
    requires t < |row|
    ensures |r| == |row| - 1
  {
    row[..t] + row[t + 1..]
  }

  /** Dropping the one column named `columns[t]` removes exactly position `t` of a row. */
  lemma {:induction false} KeepWhereOne<T>(columns: seq<string>, row: seq<T>, t: nat)
    requires |row| == |columns| && t < |columns|
    requires forall i, j :: 0 <= i < j < |columns| ==> columns[i] != columns[j]
    ensures KeepWhere(columns, row, {columns[t]}) == RemoveAt(row, t)
  {
    var n := |columns| - 1;
    var c := columns[t];
    if n == t {
      KeepWhereAll(columns[..n], row[..n], {c});
      assert RemoveAt(row, t) == row[..n];
    } else {
      assert columns[..n][t] == c;
      KeepWhereOne(columns[..n], row[..n], t);
      assert RemoveAt(row, t) == RemoveAt(row[..n], t) + [row[n]];
    }
  }

  lemma {:induction false} KeepWhereDistinct(columns: seq<string>, drop: set<string>)
    requires forall i, j :: 0 <= i < j < |columns| ==> columns[i] != columns[j]
    ensures forall i, j :: 0 <= i < j < |KeepWhere(columns, columns, drop)| ==>
              KeepWhere(columns, columns, drop)[i] != KeepWhere(columns, columns, drop)[j]
  {
    if columns != [] {
      var n := |columns| - 1;
      var init := columns[..n];
      assert forall i, j :: 0 <= i < j < |init| ==> init[i] != init[j];
      KeepWhereDistinct(init, drop);
      KeepWhereMembers(init, drop);
      assert columns[n] !in init;
      var kept := KeepWhere(init, init, drop);
      assert forall i, j :: 0 <= i < j < |kept| ==> kept[i] != kept[j];
      assert columns[n] !in kept;
      var r := KeepWhere(columns, columns, drop);
      assert r == kept + (if columns[n] in drop then [] else [columns[n]]) by {
        assert columns[..n] == init;
      }
      if columns[n] !in drop {
        forall i, j | 0 <= i < j < |r| ensures r[i] != r[j] {
          assert r[i] == kept[i] && kept[i] in kept;
          if j < |kept| {
            assert r[j] == kept[j];
          } else {
            assert r[j] == columns[n];
          }
        }
      }
    }
  }

  /**
   * `df.drop(columns=...)` for the names in `drop` that the frame has: the other columns
   * keep their order and every row loses the same positions.
   */
  function DropColumns(f: Frame, drop: set<string>): (r: Frame)
    requires Rectangular(f)
    ensures Rectangular(r) && |r.rows| == |f.rows|
  {
    Frame(KeepWhere(f.columns, f.columns, drop), DropCells(f.columns, f.rows, drop))
  }

  /** Every row without its entries under the dropped columns. */
  function DropCells(columns: seq<string>, rows: seq<seq<Cell>>, drop: set<string>): (r: seq<seq<Cell>>)
    requires forall i :: 0 <= i < |rows| ==> |rows[i]| == |columns|
    ensures |r| == |rows| && forall i :: 0 <= i < |rows| ==> r[i] == KeepWhere(columns, rows[i], drop)
  {
    if rows == [] then []
    else DropCells(columns, rows[..|rows| - 1], drop) + [KeepWhere(columns, rows[|rows| - 1], drop)]
  }

  /** The frame keeps exactly the columns not dropped, and distinct names stay distinct. */
  lemma DropColumnsNames(f: Frame, drop: set<string>)
    requires Rectangular(f)
    ensures forall c :: c in DropColumns(f, drop).columns <==> c in f.columns && c !in drop
    ensures DistinctColumns(f) ==> DistinctColumns(DropColumns(f, drop))
  {
    KeepWhereMembers(f.columns, drop);
    if DistinctColumns(f) {
      KeepWhereDistinct(f.columns, drop);
    }
    assert DropColumns(f, drop).columns == KeepWhere(f.columns, f.columns, drop);
  }

  /** Column `t` of every row. */
  function ColumnAt(rows: seq<seq<Cell>>, t: nat): (c: seq<Cell>)
    requires forall i :: 0 <= i < |rows| ==> t < |rows[i]|
    ensures |c| == |rows| && forall i :: 0 <= i < |rows| ==> c[i] == rows[i][t]
  {
    if rows == [] then [] else ColumnAt(rows[..|rows| - 1], t) + [rows[|rows| - 1][t]]
  }

  /** Every row without its entry at `t`. */
  function RemoveColumn(rows: seq<seq<Cell>>, t: nat): (r: seq<seq<Cell>>)
    requires forall i :: 0 <= i < |rows| ==> t < |rows[i]|
    ensures |r| == |rows| && forall i :: 0 <= i < |rows| ==> r[i] == RemoveAt(rows[i], t)
  {
    if rows == [] then [] else RemoveColumn(rows[..|rows| - 1], t) + [RemoveAt(rows[|rows| - 1], t)]
  }

  /** `df[names]`: the named columns in the order of `names`, each taken by name. */
  function SelectColumns(f: Frame, names: seq<string>): (r: Frame)
    requires Rectangular(f) && forall n :: n in names ==> n in f.columns
    ensures r.columns == names && Rectangular(r) && |r.rows| == |f.rows|
  {
    Frame(names, PickRows(f.rows, Positions(f.columns, names), |f.columns|))
  }

  /** The position of each name among the columns. */
  function Positions(columns: seq<string>, names: seq<string>): (ks: seq<nat>)
    requires forall n :: n in names ==> n in columns
    ensures |ks| == |names| && forall k :: 0 <= k < |names| ==> ks[k] == IndexOf(columns, names[k])
  {
    if names == [] then []
    else Positions(columns, names[..|names| - 1]) + [IndexOf(columns, names[|names| - 1])]
  }

  /** The cells of `row` at the positions `ks`, in that order. */
  function PickCells(row: seq<Cell>, ks: seq<nat>): (r: seq<Cell>)
    requires forall k :: 0 <= k < |ks| ==> ks[k] < |row|
    ensures |r| == |ks| && forall k :: 0 <= k < |ks| ==> r[k] == row[ks[k]]
  {
    if ks == [] then [] else PickCells(row, ks[..|ks| - 1]) + [row[ks[|ks| - 1]]]
  }

  function PickRows(rows: seq<seq<Cell>>, ks: seq<nat>, width: nat): (r: seq<seq<Cell>>)
    requires forall i :: 0 <= i < |rows| ==> |rows[i]| == width
    requires forall k :: 0 <= k < |ks| ==> ks[k] < width
    ensures |r| == |rows| && forall i :: 0 <= i < |rows| ==> r[i] == PickCells(rows[i], ks)
  {
    if rows == [] then [] else PickRows(rows[..|rows| - 1], ks, width) + [PickCells(rows[|rows| - 1], ks)]
  }

  /** Each selected cell is the cell of the same row under the column of that name. */
  lemma SelectColumnsCells(f: Frame, names: seq<string>)
    requires Rectangular(f) && forall n :: n in names ==> n in f.columns
    ensures var r := SelectColumns(f, names);
            forall i, k :: 0 <= i < |f.rows| && 0 <= k < |names| ==>
              r.rows[i][k] == f.rows[i][IndexOf(f.columns, names[k])]
  {
  }

  /**
   * `result[name] = values`: a new last column, or, when the frame already has a column of
   * that name, that column overwritten in place.
   */
  function WithColumn(f: Frame, name: string, values: seq<Cell>): (r: Frame)
    requires Rectangular(f) && |values| == |f.rows|
    ensures Rectangular(r) && |r.rows| == |f.rows|
  {
    if name in f.columns then Frame(f.columns, SetCells(f.rows, IndexOf(f.columns, name), values))
    else Frame(f.columns + [name], AppendCells(f.rows, values))
  }

  /** Every row with its cell at `t` replaced by the row's value. */
  function SetCells(rows: seq<seq<Cell>>, t: nat, values: seq<Cell>): (r: seq<seq<Cell>>)
    requires |values| == |rows| && forall i :: 0 <= i < |rows| ==> t < |rows[i]|
    ensures |r| == |rows| && forall i :: 0 <= i < |rows| ==> r[i] == rows[i][t := values[i]]
  {
    if rows == [] then []
    else
      var n := |rows| - 1;
      SetCells(rows[..n], t, values[..n]) + [rows[n][t := values[n]]]
  }

  /** Every row with the row's value appended. */
  function AppendCells(rows: seq<seq<Cell>>, values: seq<Cell>): (r: seq<seq<Cell>>)
    requires |values| == |rows|
    ensures |r| == |rows| && forall i :: 0 <= i < |rows| ==> r[i] == rows[i] + [values[i]]
  {
    if rows == [] then []
    else
      var n := |rows| - 1;
      AppendCells(rows[..n], values[..n]) + [rows[n] + [values[n]]]
  }

  /**
   * The new column comes last unless the frame already had one of that name; it holds the
   * values row by row, and every other cell is unchanged.
   */
  lemma WithColumnCells(f: Frame, name: string, values: seq<Cell>)
    requires Rectangular(f) && |values| == |f.rows|
    ensures var r := WithColumn(f, name, values);
            && (name in f.columns ==> r.columns == f.columns)
            && (name !in f.columns ==> r.columns == f.columns + [name])
            && name in r.columns
            && (forall i :: 0 <= i < |r.rows| ==> r.rows[i][IndexOf(r.columns, name)] == values[i])
            && (forall i, k :: 0 <= i < |f.rows| && 0 <= k < |f.columns| && f.columns[k] != name ==>
                  r.rows[i][k] == f.rows[i][k])
  {
    if name !in f.columns {
      assert IndexOf(f.columns + [name], name) == |f.columns| by {
        assert name !in (f.columns + [name])[..|f.columns|];
      }
    }
  }

  /** No cell of the row is missing. */
  predicate NoneMissing(row: seq<Cell>) {
    forall k :: 0 <= k < |row| ==> !IsMissing(row[k])
  }

  /**
   * `X.loc[mask]`, `y.loc[mask]` with `mask = X.notna().all(axis=1) & y.notna()`: the
   * feature rows and targets of the positions where neither has a missing value.
   */
  function MaskRows(x: seq<seq<Cell>>, y: seq<Cell>): (r: (seq<seq<Cell>>, seq<Cell>))
    requires |x| == |y|
    ensures |r.0| == |r.1| <= |x|
    ensures forall i :: 0 <= i < |r.0| ==> r.0[i] in x
  {
    if x == [] then ([], [])
    else
      var n := |x| - 1;
      var kept := MaskRows(x[..n], y[..n]);
      if NoneMissing(x[n]) && !IsMissing(y[n]) then (kept.0 + [x[n]], kept.1 + [y[n]]) else kept
  }

  /** The rows without a missing cell, in order. */
  function CompleteRows(rows: seq<seq<Cell>>): (r: seq<seq<Cell>>)
    ensures forall i :: 0 <= i < |r| ==> r[i] in rows
  {
    if rows == [] then []
    else
      var n := |rows| - 1;
      assert rows == rows[..n] + [rows[n]];
      CompleteRows(rows[..n]) + (if NoneMissing(rows[n]) then [rows[n]] else [])
  }

  /** The complete rows are the rows of the frame without a missing cell, nothing else. */
  lemma {:induction false} CompleteRowsSpec(rows: seq<seq<Cell>>)
    ensures var r := CompleteRows(rows);
            && |r| <= |rows|
            && (forall i :: 0 <= i < |r| ==> NoneMissing(r[i]) && r[i] in rows)
            && (forall row :: row in rows && NoneMissing(row) ==> row in r)
  {
    if rows != [] {
      var n := |rows| - 1;
      CompleteRowsSpec(rows[..n]);
      assert rows == rows[..n] + [rows[n]];
    }
  }

  /** A row with its target removed and the target both complete iff the whole row is. */
  lemma SplitRowComplete(row: seq<Cell>, t: nat)
    requires t < |row|
    ensures NoneMissing(RemoveAt(row, t)) && !IsMissing(row[t]) <==> NoneMissing(row)
  {
    var x := RemoveAt(row, t);
    if NoneMissing(x) && !IsMissing(row[t]) {
      forall k | 0 <= k < |row| ensures !IsMissing(row[k]) {
        if k < t {
          assert row[k] == x[k];
        } else if k > t {
          assert row[k] == x[k - 1];
        }
      }
    }
  }

  /**
   * The mask over the split-off features and target keeps exactly the complete rows of the
   * frame, in order, and keeps features and target aligned.
   */
  lemma {:induction false} MaskKeepsCompleteRows(rows: seq<seq<Cell>>, t: nat)
    requires forall i :: 0 <= i < |rows| ==> t < |rows[i]|
    ensures MaskRows(RemoveColumn(rows, t), ColumnAt(rows, t))
            == (RemoveColumn(CompleteRows(rows), t), ColumnAt(CompleteRows(rows), t))
  {
    if rows != [] {
      MaskKeepsCompleteRows(rows[..|rows| - 1], t);
      MaskStep(rows, t);
    }
  }

  lemma MaskStep(rows: seq<seq<Cell>>, t: nat)
    requires rows != [] && forall i :: 0 <= i < |rows| ==> t < |rows[i]|
    requires MaskRows(RemoveColumn(rows[..|rows| - 1], t), ColumnAt(rows[..|rows| - 1], t))
             == (RemoveColumn(CompleteRows(rows[..|rows| - 1]), t), ColumnAt(CompleteRows(rows[..|rows| - 1]), t))
    ensures MaskRows(RemoveColumn(rows, t), ColumnAt(rows, t))
            == (RemoveColumn(CompleteRows(rows), t), ColumnAt(CompleteRows(rows), t))
  {
    var n := |rows| - 1;
    var x := RemoveColumn(rows, t);
    var y := ColumnAt(rows, t);
    LastColumns(rows, t);
    var kept := MaskRows(x[..n], y[..n]);
    assert MaskRows(x, y) == if NoneMissing(x[n]) && !IsMissing(y[n]) then (kept.0 + [x[n]], kept.1 + [y[n]]) else kept;
    SplitRowComplete(rows[n], t);
    var c := CompleteRows(rows[..n]);
    assert CompleteRows(rows) == c + (if NoneMissing(rows[n]) then [rows[n]] else []);
    if NoneMissing(rows[n]) {
      AppendRow(c, rows[n], t);
    } else {
      assert CompleteRows(rows) == c;
    }
  }

  /** Splitting off the last row commutes with taking a column and with removing it. */
  lemma LastColumns(rows: seq<seq<Cell>>, t: nat)
    requires rows != [] && forall i :: 0 <= i < |rows| ==> t < |rows[i]|
    ensures RemoveColumn(rows, t)[..|rows| - 1] == RemoveColumn(rows[..|rows| - 1], t)
    ensures ColumnAt(rows, t)[..|rows| - 1] == ColumnAt(rows[..|rows| - 1], t)
    ensures RemoveColumn(rows, t)[|rows| - 1] == RemoveAt(rows[|rows| - 1], t)
    ensures ColumnAt(rows, t)[|rows| - 1] == rows[|rows| - 1][t]
  {
  }

  lemma AppendRow(c: seq<seq<Cell>>, row: seq<Cell>, t: nat)
    requires t < |row| && forall i :: 0 <= i < |c| ==> t < |c[i]|
    ensures RemoveColumn(c + [row], t) == RemoveColumn(c, t) + [RemoveAt(row, t)]
    ensures ColumnAt(c + [row], t) == ColumnAt(c, t) + [row[t]]
  {
    assert (c + [row])[..|c|] == c;
  }

  // ---------------------------------------------------------------------------
  // `load_data` and `prepare_features`
  // ---------------------------------------------------------------------------

  /**
   * A `RandomForestClassifier`: as constructed, before `fit` succeeds, or fitted (the fitted
   * trees identified opaquely). A model file written by `joblib.dump` holds either.
   */
  datatype Forest = Unfitted | Fitted(fingerprint: nat)

  /** The NotFittedError scikit-learn raises when an unfitted forest is asked to predict. */
  const NotFittedMessage :=
    "This RandomForestClassifier instance is not fitted yet. Call 'fit' with appropriate arguments before using this estimator."

  /** What a file holds, as far as the engine reads it. */
  datatype Content = CsvFile(table: Frame) | ModelFile(forest: Forest) | JsonFile(doc: Json) | OtherFile

  /** The file system: files by path and directories. */
  datatype Store = Store(files: map<string, Content>, dirs: set<string>)

  /** No path is both a file and a directory; a CSV file parses into a rectangular table. */
  predicate ValidStore(s: Store) {
    && s.files.Keys !! s.dirs
    && forall p :: p in s.files && s.files[p].CsvFile? ==> Rectangular(s.files[p].table)
  }

  /** `Path(p).exists()`. */
  predicate PathExists(s: Store, p: string) {
    p in s.files || p in s.dirs
  }

  /** The `source` argument: a data frame, or the path of a CSV file. */
  datatype Source = FrameSource(frame: Frame) | PathSource(path: string)

  predicate SourceRectangular(source: Source) {
    source.FrameSource? ==> Rectangular(source.frame)
  }

  /**
   * `load_data`: the frame (a copy of a given one), unless the file is absent, has no
   * header to parse, or the frame is empty.
   */
  function LoadData(source: Source, store: Store): (r: Result<Frame, EngineError>)
    requires ValidStore(store) && SourceRectangular(source)
    ensures r.Ok? ==> Rectangular(r.value) && !Empty(r.value)
    ensures source.PathSource? && !PathExists(store, source.path) ==>
              r == Err(FileNotFound("Data file not found: " + source.path))
    ensures source.FrameSource? ==> (r.Ok? <==> !Empty(source.frame))
    ensures source.PathSource? && source.path in store.files && store.files[source.path].CsvFile? ==>
              var table := store.files[source.path].table;
              && (|table.columns| == 0 ==> r == Err(ValueError("No columns to parse from file")))
              && (|table.columns| > 0 && |table.rows| == 0 ==> r == Err(ValueError("Loaded dataset is empty.")))
              && (!Empty(table) ==> r == Ok(table))
  {
    var df :=
      match source
      case FrameSource(f) => Ok(f)
      case PathSource(p) =>
        if !PathExists(store, p) then Err(FileNotFound("Data file not found: " + p))
        else if p in store.files && store.files[p].CsvFile? then
          // `read_csv` raises `EmptyDataError` (a `ValueError`) on a file without a header.
          if |store.files[p].table.columns| == 0 then Err(ValueError("No columns to parse from file"))
          else Ok(store.files[p].table)
        else Err(Unreadable(p));
    if df.Err? then df
    else if Empty(df.value) then Err(ValueError("Loaded dataset is empty."))
    else df
  }

  /** `(X, y)`; `y` is None in inference mode. */
  datatype Features = Features(x: Frame, y: Option<seq<Cell>>)

  /** The distinct names of `names` that `columns` lacks, in first-appearance order. */
  function MissingNames(names: seq<string>, columns: seq<string>): seq<string> {
    if names == [] then []
    else
      var n := |names| - 1;
      var init := MissingNames(names[..n], columns);
      if names[n] in columns || names[n] in init then init else init + [names[n]]
  }

  /** The missing names are the names `columns` lacks, each once. */
  lemma {:induction false} MissingNamesSpec(names: seq<string>, columns: seq<string>)
    ensures var m := MissingNames(names, columns);
            && (forall c :: c in m <==> c in names && c !in columns)
            && (forall i, j :: 0 <= i < j < |m| ==> m[i] != m[j])
  {
    if names != [] {
      var n := |names| - 1;
      MissingNamesSpec(names[..n], columns);
      assert names == names[..n] + [names[n]];
      var init := MissingNames(names[..n], columns);
      var m := MissingNames(names, columns);
      if !(names[n] in columns || names[n] in init) {
        forall i, j | 0 <= i < j < |m| ensures m[i] != m[j] {
          assert m[i] == init[i] || i == |init|;
          if j == |init| {
            assert m[i] in init;
          }
        }
      }
    }
  }

  /** `str(list_of_strings)`: the `repr` of each name, comma separated, in brackets. */
  function PyStrList(names: seq<string>): string {
    "[" + Join(Reprs(names), ", ") + "]"
  }

  /** The `repr` of each name. */
  function Reprs(names: seq<string>): (q: seq<string>)
    ensures |q| == |names|
    ensures forall i :: 0 <= i < |names| ==> q[i] == Repr(names[i])
  {
    if names == [] then [] else Reprs(names[..|names| - 1]) + [Repr(names[|names| - 1])]
  }

  /**
   * `repr` of a string: between single quotes, or between double quotes when it holds a
   * single quote and no double quote; the chosen quote, the backslash and the ASCII control
   * characters are escaped.
   */
  function Repr(s: string): (r: string)
    ensures |r| >= |s| + 2 && r[0] == r[|r| - 1] == ReprQuote(s)
  {
    [ReprQuote(s)] + Escaped(s, ReprQuote(s)) + [ReprQuote(s)]
  }

  function ReprQuote(s: string): char {
    if '\'' in s && '"' !in s then '"' else '\''
  }

  function Escaped(s: string, quote: char): (e: string)
    ensures |e| >= |s|
  {
    if s == [] then [] else Escaped(s[..|s| - 1], quote) + EscapedChar(s[|s| - 1], quote)
  }

  /** One character inside `repr`'s quotes: `\t`, `\n`, `\r`, `\xhh` or a backslash before the quote and the backslash. */
  function EscapedChar(c: char, quote: char): (e: string)
    ensures |e| >= 1
  {
    if c == quote || c == '\\' then ['\\', c]
    else if c == '\t' then "\\t"
    else if c == '\n' then "\\n"
    else if c == '\r' then "\\r"
    else if c < ' ' || c as int == 127 then ['\\', 'x', HexDigit(c as int / 16), HexDigit(c as int % 16)]
    else [c]
  }

  /** A character `repr` keeps as it is whichever quote it chooses, other than a single quote. */
  predicate Verbatim(c: char) {
    c != '\\' && c != '\'' && ' ' <= c && c as int != 127
  }

  /**
   * A name without backslashes or control characters is shown as it is: between single
   * quotes, or between double quotes when it holds a single quote and no double quote.
   */
  lemma ReprQuotes(s: string)
    requires forall i :: 0 <= i < |s| ==> Verbatim(s[i]) || s[i] == '\''
    ensures '\'' !in s ==> Repr(s) == "'" + s + "'"
    ensures '\'' in s && '"' !in s ==> Repr(s) == "\"" + s + "\""
  {
    if '\'' !in s || '"' !in s {
      EscapedVerbatim(s, ReprQuote(s));
    }
  }

  lemma {:induction false} EscapedVerbatim(s: string, quote: char)
    requires forall i :: 0 <= i < |s| ==> s[i] != quote && (Verbatim(s[i]) || s[i] == '\'')
    ensures Escaped(s, quote) == s
  {
    if s != [] {
      EscapedVerbatim(s[..|s| - 1], quote);
      assert s == s[..|s| - 1] + [s[|s| - 1]];
    }
  }

  /**
   * The inference half of `prepare_features`, after the excluded columns are dropped:
   * refuse an engine without a feature schema, drop the target, refuse a frame that lacks
   * a trained feature, and select the features in schema order.
   */
  function InferenceFeatures(featureNames: seq<string>, targetColumn: string, df: Frame): (r: Result<Features, EngineError>)
    requires Rectangular(df)
    ensures r.Ok? ==> Rectangular(r.value.x) && r.value.x.columns == featureNames
    ensures r.Ok? ==> |r.value.x.rows| == |df.rows| && r.value.y.None?
  {
    if featureNames == [] then
      Err(RuntimeError("No trained feature schema found. Call train() or load_artifact() before predict()."))
    else
      var df := DropColumns(df, {targetColumn});
      var missing := MissingNames(featureNames, df.columns);
      MissingNamesSpec(featureNames, df.columns);
      if missing != [] then
        Err(ValueError("Inference data is missing trained feature columns: " + PyStrList(SortStrings(missing))))
      else
        Ok(Features(SelectColumns(df, featureNames), None))
  }

  /** The message of the TypeError that `y.mean()` raises on a target holding text. */
  const MeanTypeMessage: string := "Could not convert the target column to numeric"

  /** Some cell of `ys` is text, which `Series.mean` cannot add up. */
  predicate HasText(ys: seq<Cell>) {
    exists i :: 0 <= i < |ys| && ys[i].TextCell?
  }

  /**
   * The training half of `prepare_features`, after the excluded columns are dropped:
   * refuse a frame without the target, split it off, keep the rows where neither the
   * features nor the target are missing, and take the mean of the kept targets (the
   * positive rate it logs), which raises TypeError when one of them is text.
   */
  function TrainingFeatures(targetColumn: string, df: Frame): (r: Result<Features, EngineError>)
    requires Rectangular(df)
    ensures r.Ok? ==> Rectangular(r.value.x) && r.value.y.Some?
    ensures r.Ok? ==> |r.value.y.value| == |r.value.x.rows| <= |df.rows|
    ensures r.Ok? ==> !HasText(r.value.y.value)
  {
    if targetColumn !in df.columns then
      Err(ValueError("Target column '" + targetColumn + "' not found in the dataset."))
    else
      var y := ColumnAt(df.rows, IndexOf(df.columns, targetColumn));
      var x := DropColumns(df, {targetColumn});
      var kept := MaskRows(x.rows, y);
      assert forall i :: 0 <= i < |kept.0| ==> |kept.0[i]| == |x.columns|;
      if HasText(kept.1) then Err(TypeError(MeanTypeMessage))
      else Ok(Features(Frame(x.columns, kept.0), Some(kept.1)))
  }

  /** `prepare_features`: drop the excluded columns the frame has, then prepare for inference or training. */
  function PrepareFeatures(featureNames: seq<string>, targetColumn: string, excludedColumns: seq<string>,
                           df: Frame, inferenceMode: bool): (r: Result<Features, EngineError>)
    requires Rectangular(df)
    ensures r.Ok? ==> Rectangular(r.value.x)
    ensures r.Ok? && inferenceMode ==>
              r.value.x.columns == featureNames && |r.value.x.rows| == |df.rows| && r.value.y.None?
    ensures r.Ok? && !inferenceMode ==> r.value.y.Some? && |r.value.y.value| == |r.value.x.rows| <= |df.rows|
  {
    var df := DropColumns(df, set c | c in excludedColumns);
    if inferenceMode then InferenceFeatures(featureNames, targetColumn, df)
    else TrainingFeatures(targetColumn, df)
  }

  /** After the excluded columns are gone, inference refuses exactly a feature that is absent or is the target. */
  lemma InferenceRefusal(featureNames: seq<string>, targetColumn: string, df: Frame)
    requires Rectangular(df) && featureNames != []
    ensures var r := InferenceFeatures(featureNames, targetColumn, df);
            && (r.Err? <==> exists n :: n in featureNames && (n !in df.columns || n == targetColumn))
            && (r.Err? ==> r.error.ValueError?)
  {
    var d := DropColumns(df, {targetColumn});
    DropColumnsNames(df, {targetColumn});
    var missing := MissingNames(featureNames, d.columns);
    MissingNamesSpec(featureNames, d.columns);
    if missing != [] {
      assert missing[0] in missing;
    }
  }

  /**
   * Inference enforces the trained schema: without one it raises RuntimeError; it raises
   * ValueError exactly when a trained feature is absent from the frame, or is an excluded
   * column or the target (those are dropped first). Otherwise the features are the trained
   * columns in training order, one row per input row (the contract of `PrepareFeatures`).
   */
  lemma InferenceSchema(featureNames: seq<string>, targetColumn: string, excludedColumns: seq<string>, df: Frame)
    requires Rectangular(df)
    ensures var r := PrepareFeatures(featureNames, targetColumn, excludedColumns, df, true);
            && (featureNames == [] ==> r == Err(RuntimeError(
                  "No trained feature schema found. Call train() or load_artifact() before predict().")))
            && (featureNames != [] ==>
                  (r.Err? <==> exists n :: n in featureNames && (n !in df.columns || n in excludedColumns || n == targetColumn)))
            && (r.Err? && featureNames != [] ==> r.error.ValueError?)
  {
    if featureNames != [] {
      var d := DropColumns(df, set c | c in excludedColumns);
      DropColumnsNames(df, set c | c in excludedColumns);
      InferenceRefusal(featureNames, targetColumn, d);
    }
  }

  /** The names the inference error lists are in ascending order and are exactly the missing ones. */
  lemma MissingListed(names: seq<string>, columns: seq<string>)
    ensures var listed := SortStrings(MissingNames(names, columns));
            && StrSorted(listed)
            && forall c :: c in listed <==> c in names && c !in columns
  {
    var m := MissingNames(names, columns);
    MissingNamesSpec(names, columns);
    SortStringsOrdered(m);
    SortStringsPermutes(m);
    assert forall c :: c in SortStrings(m) <==> c in multiset(SortStrings(m));
  }

  /**
   * Training refuses a frame without the target (or whose target is an excluded column)
   * with ValueError, and one whose complete rows hold a text target with TypeError;
   * otherwise the features are the remaining columns without the target, in order, and the
   * rows kept are exactly the complete rows of the frame (after dropping the excluded
   * columns), in order, with each target aligned to its row.
   */
  lemma TrainingRows(targetColumn: string, excludedColumns: seq<string>, featureNames: seq<string>, df: Frame)
    requires Rectangular(df) && DistinctColumns(df)
    ensures var d := DropColumns(df, set c | c in excludedColumns);
            var r := PrepareFeatures(featureNames, targetColumn, excludedColumns, df, false);
            && (targetColumn in df.columns && targetColumn !in excludedColumns <==> targetColumn in d.columns)
            && (targetColumn !in d.columns ==>
                  r == Err(ValueError("Target column '" + targetColumn + "' not found in the dataset.")))
            && (targetColumn in d.columns ==>
                  var t := IndexOf(d.columns, targetColumn);
                  && (r.Err? <==> HasText(ColumnAt(CompleteRows(d.rows), t)))
                  && (r.Err? ==> r == Err(TypeError(MeanTypeMessage))))
            && (r.Ok? ==>
                  var t := IndexOf(d.columns, targetColumn);
                  var complete := CompleteRows(d.rows);
                  && r.value.x.columns == RemoveAt(d.columns, t)
                  && r.value.x.rows == RemoveColumn(complete, t)
                  && r.value.y == Some(ColumnAt(complete, t)))
  {
    var d := DropColumns(df, set c | c in excludedColumns);
    DropColumnsNames(df, set c | c in excludedColumns);
    TrainingOnDropped(targetColumn, d);
  }

  /** `TrainingRows` for a frame whose excluded columns are already gone. */
  lemma TrainingOnDropped(targetColumn: string, d: Frame)
    requires Rectangular(d) && DistinctColumns(d)
    ensures var r := TrainingFeatures(targetColumn, d);
            && (targetColumn !in d.columns ==> r.Err? && r.error.ValueError?)
            && (targetColumn in d.columns ==>
                  && (r.Err? <==> HasText(ColumnAt(CompleteRows(d.rows), IndexOf(d.columns, targetColumn))))
                  && (r.Err? ==> r.error == TypeError(MeanTypeMessage)))
            && (r.Ok? ==>
                  var t := IndexOf(d.columns, targetColumn);
                  var complete := CompleteRows(d.rows);
                  && r.value.x.columns == RemoveAt(d.columns, t)
                  && r.value.x.rows == RemoveColumn(complete, t)
                  && r.value.y == Some(ColumnAt(complete, t)))
  {
    if targetColumn in d.columns {
      var t := IndexOf(d.columns, targetColumn);
      var x := DropColumns(d, {targetColumn});
      KeepWhereOne(d.columns, d.columns, t);
      forall i | 0 <= i < |d.rows| ensures x.rows[i] == RemoveAt(d.rows[i], t) {
        KeepWhereOne(d.columns, d.rows[i], t);
      }
      assert x.rows == RemoveColumn(d.rows, t);
      MaskKeepsCompleteRows(d.rows, t);
    }
  }

  /**
   * A complete row whose target is text makes training raise TypeError: a frame with
   * columns `a, t` and the one row `v, s` (for example `1, "x"`) is refused when `t` is
   * the target.
   */
  lemma TextTargetRaises(a: string, t: string, v: int, s: string)
    requires a != t
    ensures PrepareFeatures([], t, [], Frame([a, t], [[IntCell(v), TextCell(s)]]), false)
            == Err(TypeError(MeanTypeMessage))
  {
    var df := Frame([a, t], [[IntCell(v), TextCell(s)]]);
    NothingExcluded(df);
    TextTargetOnDropped(a, t, v, s);
  }

  /** With no excluded columns the frame is prepared as it is. */
  lemma NothingExcluded(df: Frame)
    requires Rectangular(df)
    ensures DropColumns(df, set c | c in []) == df
  {
    var none: set<string> := set c | c in [];
    KeepWhereAll(df.columns, df.columns, none);
    forall i | 0 <= i < |df.rows| ensures KeepWhere(df.columns, df.rows[i], none) == df.rows[i] {
      KeepWhereAll(df.columns, df.rows[i], none);
    }
  }

  lemma TextTargetOnDropped(a: string, t: string, v: int, s: string)
    requires a != t
    ensures TrainingFeatures(t, Frame([a, t], [[IntCell(v), TextCell(s)]])) == Err(TypeError(MeanTypeMessage))
  {
    var row := [IntCell(v), TextCell(s)];
    var d := Frame([a, t], [row]);
    assert IndexOf(d.columns, t) == 1;
    var complete := CompleteRows(d.rows);
    assert complete == [row] by {
      assert NoneMissing(row) by {
        assert forall k :: 0 <= k < |row| ==> row[k] == IntCell(v) || row[k] == TextCell(s);
      }
      assert d.rows[..0] == [];
      assert CompleteRows(d.rows) == CompleteRows(d.rows[..0]) + [row];
    }
    var y := ColumnAt(complete, 1);
    assert y[0] == TextCell(s);
    assert HasText(y);
    TrainingOnDropped(t, d);
  }

  // ---------------------------------------------------------------------------
  // Training, evaluation and prediction
  // ---------------------------------------------------------------------------

  /** `train_test_split(X, y, ...)`. */
  datatype Split = Split(xTrain: Frame, xTest: Frame, yTrain: seq<Cell>, yTest: seq<Cell>)

  /**
   * The scikit-learn calls, each with the message of the exception it may raise: the
   * stratified split; the fit of a fresh Random Forest on the training partition; and
   * `predict_proba`, whose matrix is given by its columns, one per class the forest was
   * fitted on (in `classes_` order), each holding a probability per row.
   */
  datatype Learner = Learner(
    split: (Frame, seq<Cell>) -> Result<Split, string>,
    fit: (Frame, seq<Cell>) -> Result<Forest, string>,
    predictProba: (Forest, Frame) -> Result<seq<seq<real>>, string>)

  /** Values measured during training, already rounded as the engine stores them. */
  datatype TrainMeasures = TrainMeasures(positiveRateTrain: real, oobScore: real, durationSeconds: real)

  /** The keys `save_artifact` writes itself and `load_artifact` skips when restoring training metadata. */
  const SavedKeys: set<string> := {"version_id", "saved_at_utc", "feature_names", "target_column", "excluded_columns"}

  /** `_train_metadata` as `train` records it. */
  function TrainMetadata(s: Split, featureCount: nat, m: TrainMeasures,
                         nEstimators: int, maxDepth: Option<int>, randomState: int): (meta: map<string, Json>)
    ensures meta.Keys !! SavedKeys
    ensures "oob_score" in meta && "hyperparameters" in meta && "train_rows" in meta
  {
    map[
      "train_rows" := JInt(|s.xTrain.rows|),
      "test_rows" := JInt(|s.xTest.rows|),
      "n_features" := JInt(featureCount),
      "positive_rate_train" := JFloat(m.positiveRateTrain),
      "oob_score" := JFloat(m.oobScore),
      "training_duration_seconds" := JFloat(m.durationSeconds),
      "hyperparameters" := JObj(map[
        "n_estimators" := JInt(nEstimators),
        "max_depth" := if maxDepth.Some? then JInt(maxDepth.value) else JNull,
        "random_state" := JInt(randomState),
        "oob_score" := JBool(true),
        "n_jobs" := JInt(-1)])]
  }

  /** Load, prepare for training and split: the partitions `train` stores, or the error it raises. */
  function TrainingSplit(targetColumn: string, excludedColumns: seq<string>, source: Source, store: Store,
                         learner: Learner): Result<Split, EngineError>
    requires ValidStore(store) && SourceRectangular(source)
  {
    var df := LoadData(source, store);
    if df.Err? then Err(df.error)
    else
      var p := PrepareFeatures([], targetColumn, excludedColumns, df.value, false);
      if p.Err? then Err(p.error)
      else
        var s := learner.split(p.value.x, p.value.y.value);
        if s.Err? then Err(ValueError(s.error)) else Ok(s.value)
  }

  /**
   * With a split that keeps the columns of the frame it partitions (as `train_test_split`
   * does), the feature schema `train` records is the loaded frame's columns without the
   * excluded ones and the target, in their original order.
   */
  lemma TrainedSchema(targetColumn: string, excludedColumns: seq<string>, source: Source, store: Store, learner: Learner)
    requires ValidStore(store) && SourceRectangular(source)
    requires source.FrameSource? ==> DistinctColumns(source.frame)
    requires forall p :: p in store.files && store.files[p].CsvFile? ==> DistinctColumns(store.files[p].table)
    requires forall x, y :: learner.split(x, y).Ok? ==> learner.split(x, y).value.xTrain.columns == x.columns
    requires TrainingSplit(targetColumn, excludedColumns, source, store, learner).Ok?
    ensures var df := LoadData(source, store).value;
            var d := DropColumns(df, set c | c in excludedColumns);
            && targetColumn in d.columns
            && TrainingSplit(targetColumn, excludedColumns, source, store, learner).value.xTrain.columns
               == RemoveAt(d.columns, IndexOf(d.columns, targetColumn))
  {
    var df := LoadData(source, store).value;
    TrainingRows(targetColumn, excludedColumns, [], df);
  }

  /** Cross-validation and hold-out scores `evaluate` computes with scikit-learn, already rounded. */
  datatype Scores = Scores(cvScores: seq<real>, cvMean: real, cvStd: real, testAccuracy: real, report: Json)

  /** A list of floats as JSON items. */
  function Floats(xs: seq<real>): (js: seq<Json>)
    ensures |js| == |xs|
  {
    if xs == [] then [] else Floats(xs[..|xs| - 1]) + [JFloat(xs[|xs| - 1])]
  }

  /** The metrics dictionary `evaluate` returns. */
  function EvaluationReport(trainMetadata: map<string, Json>, scores: Scores): (metrics: map<string, Json>)
    ensures "dataset_info" in metrics && metrics["dataset_info"].JObj?
  {
    map[
      "oob_score" := Get(trainMetadata, "oob_score", JNull),
      "kfold_cv_scores" := JArr(Floats(scores.cvScores)),
      "kfold_cv_mean" := JFloat(scores.cvMean),
      "kfold_cv_std" := JFloat(scores.cvStd),
      "test_accuracy" := JFloat(scores.testAccuracy),
      "classification_report" := scores.report,
      "hyperparameters" := Get(trainMetadata, "hyperparameters", JObj(map[])),
      "dataset_info" := JObj(map[
        "train_rows" := Get(trainMetadata, "train_rows", JNull),
        "test_rows" := Get(trainMetadata, "test_rows", JNull),
        "n_features" := Get(trainMetadata, "n_features", JNull),
        "positive_rate_train" := Get(trainMetadata, "positive_rate_train", JNull)])]
  }

  /** After training, the report echoes the out-of-bag score, the partition sizes and the hyperparameters. */
  lemma EvaluationEchoesTraining(s: Split, featureCount: nat, m: TrainMeasures, nEstimators: int,
                                 maxDepth: Option<int>, randomState: int, scores: Scores)
    ensures var meta := TrainMetadata(s, featureCount, m, nEstimators, maxDepth, randomState);
            var report := EvaluationReport(meta, scores);
            && report["oob_score"] == JFloat(m.oobScore)
            && report["hyperparameters"] == meta["hyperparameters"]
            && report["dataset_info"].fields["train_rows"] == JInt(|s.xTrain.rows|)
            && report["dataset_info"].fields["test_rows"] == JInt(|s.xTest.rows|)
            && report["dataset_info"].fields["n_features"] == JInt(featureCount)
  {
  }

  /** `np.round(p, 4)`: the nearest multiple of 0.0001, a tie going to the even multiple. */
  function Round4(x: real): (y: real)
    ensures x - 0.00005 <= y <= x + 0.00005
    ensures (y * 10000.0).Floor as real == y * 10000.0
  {
    RoundHalfEven(x * 10000.0) as real / 10000.0
  }

  /** The `risk_probability` cells: each probability rounded to four decimals. */
  function Probabilities(ps: seq<real>): (cells: seq<Cell>)
    ensures |cells| == |ps|
  {
    seq(|ps|, i requires 0 <= i < |ps| => FloatCell(Round4(ps[i])))
  }

  /**
   * `predict` after its guard: `predict_proba` on the trained features, its class-1 column
   * (`[:, 1]`, which raises when the forest knows fewer than two classes), rounded, and
   * assigned to `risk_probability` on the input frame (which raises when the lengths differ).
   */
  function Prediction(forest: Forest, featureNames: seq<string>, targetColumn: string, excludedColumns: seq<string>,
                      source: Source, store: Store, learner: Learner): (r: Result<Frame, EngineError>)
    requires ValidStore(store) && SourceRectangular(source)
  {
    var raw := LoadData(source, store);
    if raw.Err? then Err(raw.error)
    else
      var p := PrepareFeatures(featureNames, targetColumn, excludedColumns, raw.value, true);
      if p.Err? then Err(p.error)
      else
        if forest.Unfitted? then Err(LibraryError(NotFittedMessage))
        else
        var proba := learner.predictProba(forest, p.value.x);
        if proba.Err? then Err(LibraryError(proba.error))
        else if |proba.value| < 2 then
          Err(IndexError("index 1 is out of bounds for axis 1 with size " + NatText(|proba.value|)))
        else if |proba.value[1]| != |raw.value.rows| then
          Err(ValueError("Length of values (" + NatText(|proba.value[1]|)
                         + ") does not match length of index (" + NatText(|raw.value.rows|) + ")"))
        else Ok(WithColumn(raw.value, RiskColumn, Probabilities(proba.value[1])))
  }

  /**
   * A prediction keeps every input row and every input column other than
   * `risk_probability` unchanged, and gives each row the class-1 probability the forest
   * assigns to its features (taken in the trained schema's order), rounded to four decimals.
   */
  lemma PredictionKeepsInput(forest: Forest, featureNames: seq<string>, targetColumn: string, excludedColumns: seq<string>,
                             source: Source, store: Store, learner: Learner, raw: Frame, x: Frame, classes: seq<seq<real>>)
    requires ValidStore(store) && SourceRectangular(source)
    requires LoadData(source, store) == Ok(raw)
    requires PrepareFeatures(featureNames, targetColumn, excludedColumns, raw, true) == Ok(Features(x, None))
    requires forest.Fitted? && learner.predictProba(forest, x) == Ok(classes)
    requires |classes| >= 2 && |classes[1]| == |raw.rows|
    ensures var r := Prediction(forest, featureNames, targetColumn, excludedColumns, source, store, learner);
            && r.Ok?
            && x.columns == featureNames
            && |r.value.rows| == |raw.rows| == |x.rows|
            && r.value.columns == (if RiskColumn in raw.columns then raw.columns else raw.columns + [RiskColumn])
            && (forall i, k :: 0 <= i < |raw.rows| && 0 <= k < |raw.columns| && raw.columns[k] != RiskColumn ==>
                  r.value.rows[i][k] == raw.rows[i][k])
            && (forall i :: 0 <= i < |r.value.rows| ==>
                  r.value.rows[i][IndexOf(r.value.columns, RiskColumn)] == FloatCell(Round4(classes[1][i])))
  {
    RiskAppended(raw, classes[1]);
  }

  /**
   * A prediction yields a frame exactly when the forest is fitted and `predict_proba`
   * succeeds with at least two class columns of the input's length: an unfitted forest
   * raises NotFittedError, another exception of the library passes through, and a forest
   * fitted on one class makes `[:, 1]` raise IndexError.
   */
  lemma PredictionRefusals(forest: Forest, featureNames: seq<string>, targetColumn: string, excludedColumns: seq<string>,
                           source: Source, store: Store, learner: Learner, raw: Frame, x: Frame)
    requires ValidStore(store) && SourceRectangular(source)
    requires LoadData(source, store) == Ok(raw)
    requires PrepareFeatures(featureNames, targetColumn, excludedColumns, raw, true) == Ok(Features(x, None))
    ensures var proba := learner.predictProba(forest, x);
            var r := Prediction(forest, featureNames, targetColumn, excludedColumns, source, store, learner);
            && (r.Ok? <==> forest.Fitted? && proba.Ok? && |proba.value| >= 2 && |proba.value[1]| == |raw.rows|)
            && (forest.Unfitted? ==> r == Err(LibraryError(NotFittedMessage)))
            && (forest.Fitted? && proba.Err? ==> r == Err(LibraryError(proba.error)))
            && (forest.Fitted? && proba.Ok? && |proba.value| == 1 ==>
                  r == Err(IndexError("index 1 is out of bounds for axis 1 with size 1")))
  {
    var proba := learner.predictProba(forest, x);
    var r := Prediction(forest, featureNames, targetColumn, excludedColumns, source, store, learner);
    if forest.Unfitted? {
      assert r == Err(LibraryError(NotFittedMessage));
    } else if proba.Err? {
      assert r == Err(LibraryError(proba.error));
    } else if |proba.value| == 1 {
      assert NatText(|proba.value|) == "1";
      assert "index 1 is out of bounds for axis 1 with size " + "1" == "index 1 is out of bounds for axis 1 with size 1";
    }
  }

  /** The risk column holds each rounded probability; every other input cell stays. */
  lemma RiskAppended(raw: Frame, ps: seq<real>)
    requires Rectangular(raw) && |ps| == |raw.rows|
    ensures var r := WithColumn(raw, RiskColumn, Probabilities(ps));
            && |r.rows| == |raw.rows|
            && r.columns == (if RiskColumn in raw.columns then raw.columns else raw.columns + [RiskColumn])
            && (forall i, k :: 0 <= i < |raw.rows| && 0 <= k < |raw.columns| && raw.columns[k] != RiskColumn ==>
                  r.rows[i][k] == raw.rows[i][k])
            && (forall i :: 0 <= i < |r.rows| ==>
                  r.rows[i][IndexOf(r.columns, RiskColumn)] == FloatCell(Round4(ps[i])))
  {
    WithColumnCells(raw, RiskColumn, Probabilities(ps));
  }

  // ---------------------------------------------------------------------------
  // Artifacts on disk
  // ---------------------------------------------------------------------------

  /** `Path(dir) / name` for a normalised directory path. */
  function PathJoin(dir: string, name: string): string {
    if name == "" then dir
    else if dir == "." then name
    else if dir == "/" then dir + name
    else dir + "/" + name
  }

  /** The index of the last `/` of `p`, if it has one. */
  function LastSlash(p: string): (i: Option<nat>)
    ensures i.Some? ==> i.value < |p| && p[i.value] == '/' && '/' !in p[i.value + 1..]
    ensures i.None? ==> '/' !in p
  {
    if p == [] then None
    else if p[|p| - 1] == '/' then Some(|p| - 1)
    else
      var i := LastSlash(p[..|p| - 1]);
      assert p == p[..|p| - 1] + [p[|p| - 1]];
      if i.Some? then
        assert p[i.value + 1..] == p[..|p| - 1][i.value + 1..] + [p[|p| - 1]];
        i
      else i
  }

  /** `Path(p).parent` for a normalised path. */
  function Parent(p: string): string {
    var i := LastSlash(p);
    if i.None? then "." else if i.value == 0 then "/" else p[..i.value]
  }

  /** A normalised directory path: not empty, and no trailing `/` unless it is the root. */
  predicate NormalDir(d: string) {
    d != "" && (d == "/" || d[|d| - 1] != '/')
  }

  /** A file name joined onto a directory has that directory as its parent. */
  lemma ParentOfJoin(dir: string, name: string)
    requires NormalDir(dir) && name != "" && '/' !in name
    ensures Parent(PathJoin(dir, name)) == dir
  {
    var p := PathJoin(dir, name);
    if dir == "." {
    } else if dir == "/" {
      assert p == "/" + name;
      assert p[1..] == name;
      assert LastSlash(p) == Some(0) by {
        LastSlashIs(p, 0);
      }
    } else {
      assert p == dir + "/" + name;
      assert p[|dir| + 1..] == name;
      LastSlashIs(p, |dir|);
      assert p[..|dir|] == dir;
    }
  }

  lemma {:induction false} LastSlashIs(p: string, i: nat)
    requires i < |p| && p[i] == '/' && '/' !in p[i + 1..]
    ensures LastSlash(p) == Some(i)
  {
    if i < |p| - 1 {
      var init := p[..|p| - 1];
      assert p[|p| - 1] == p[i + 1..][|p| - 2 - i];
      assert init[i + 1..] == p[i + 1..][..|p| - 2 - i];
      LastSlashIs(init, i);
    }
  }

  /** `time.strftime` of the current UTC time, in the two formats the engine uses. */
  datatype Clock = Clock(compact: string, iso: string)

  /** `run_metadata.json` as `save_artifact` writes it: its own keys, then the training metadata. */
  function SavedMetadata(versionId: string, savedAt: string, featureNames: seq<string>, targetColumn: string,
                         excludedColumns: seq<string>, trainMetadata: map<string, Json>): map<string, Json> {
    map[
      "version_id" := JStr(versionId),
      "saved_at_utc" := JStr(savedAt),
      "feature_names" := StrArray(featureNames),
      "target_column" := JStr(targetColumn),
      "excluded_columns" := StrArray(excludedColumns)] + trainMetadata
  }

  /**
   * The directories `Path(p).mkdir(parents=True)` creates or finds: `p` and every prefix
   * of it that ends before a `/` (the root and the working directory always exist).
   */
  function Ancestors(p: string): (a: set<string>)
    ensures p in a
  {
    (set i | 0 < i < |p| && p[i] == '/' :: p[..i]) + {p}
  }

  /** The artifact directory is one of the directories made for a version under it. */
  lemma ArtifactDirAncestor(artifactDir: string, version: string)
    requires NormalDir(artifactDir) && artifactDir != "/" && artifactDir != "." && version != ""
    ensures artifactDir in Ancestors(PathJoin(artifactDir, version))
  {
    var d := PathJoin(artifactDir, version);
    assert d[|artifactDir|] == '/' && d[..|artifactDir|] == artifactDir;
  }

  /**
   * `save_artifact`'s writes after its guard: create `{artifact_dir}/{version}` with its
   * parents, write the model file, then the metadata; the new store and the directory, or
   * the first failure.
   */
  function SaveFiles(store: Store, artifactDir: string, version: string, forest: Forest,
                     metadata: map<string, Json>): (r: (Store, Result<string, EngineError>))
    requires ValidStore(store)
    ensures ValidStore(r.0)
    ensures var saveDir := PathJoin(artifactDir, version);
            !(Ancestors(saveDir) !! store.files.Keys) ==> r == (store, Err(OsError(saveDir)))
    ensures var saveDir := PathJoin(artifactDir, version);
            Ancestors(saveDir) !! store.files.Keys ==> r.0.dirs == store.dirs + Ancestors(saveDir)
    ensures var saveDir := PathJoin(artifactDir, version);
            r.1.Ok? ==>
              && r.1.value == saveDir
              && r.0.files == store.files[PathJoin(saveDir, "model.joblib") := ModelFile(forest)]
                                         [PathJoin(saveDir, "run_metadata.json") := JsonFile(JObj(metadata))]
  {
    var saveDir := PathJoin(artifactDir, version);
    if !(Ancestors(saveDir) !! store.files.Keys) then (store, Err(OsError(saveDir)))
    else
      var made := Store(store.files, store.dirs + Ancestors(saveDir));
      var modelPath := PathJoin(saveDir, "model.joblib");
      if modelPath in made.dirs then (made, Err(OsError(modelPath)))
      else
        var dumped := Store(made.files[modelPath := ModelFile(forest)], made.dirs);
        var metadataPath := PathJoin(saveDir, "run_metadata.json");
        if metadataPath in dumped.dirs then (dumped, Err(OsError(metadataPath)))
        else (Store(dumped.files[metadataPath := JsonFile(JObj(metadata))], dumped.dirs), Ok(saveDir))
  }

  /** The schema and training metadata `load_artifact` takes from a metadata document. */
  datatype Restored = Restored(featureNames: seq<string>, targetColumn: string, excludedColumns: seq<string>,
                               trainMetadata: map<string, Json>)

  /**
   * `meta.get(...)` for the three schema keys, with the engine's current target and
   * excluded columns as defaults, and every other key as training metadata.
   */
  function Restore(meta: map<string, Json>, targetColumn: string, excludedColumns: seq<string>): (r: Option<Restored>)
    ensures r.Some? ==> r.value.trainMetadata.Keys !! SavedKeys
    ensures r.Some? ==> forall k :: k in meta && k !in SavedKeys ==> k in r.value.trainMetadata
  {
    var names := AsStrings(Get(meta, "feature_names", JArr([])));
    var target := Get(meta, "target_column", JStr(targetColumn));
    var excluded := AsStrings(Get(meta, "excluded_columns", StrArray(excludedColumns)));
    if names.None? || !target.JStr? || excluded.None? then None
    else Some(Restored(names.value, target.s, excluded.value, meta - SavedKeys))
  }

  /** Metadata written by `save_artifact` restores the schema and the training metadata it was written from. */
  lemma MetadataRoundTrip(versionId: string, savedAt: string, featureNames: seq<string>, targetColumn: string,
                          excludedColumns: seq<string>, trainMetadata: map<string, Json>,
                          currentTarget: string, currentExcluded: seq<string>)
    requires trainMetadata.Keys !! SavedKeys
    ensures Restore(SavedMetadata(versionId, savedAt, featureNames, targetColumn, excludedColumns, trainMetadata),
                    currentTarget, currentExcluded)
            == Some(Restored(featureNames, targetColumn, excludedColumns, trainMetadata))
  {
    var meta := SavedMetadata(versionId, savedAt, featureNames, targetColumn, excludedColumns, trainMetadata);
    StrArrayRoundTrip(featureNames);
    StrArrayRoundTrip(excludedColumns);
    assert meta["feature_names"] == StrArray(featureNames);
    assert meta["target_column"] == JStr(targetColumn);
    assert meta["excluded_columns"] == StrArray(excludedColumns);
    assert meta - SavedKeys == trainMetadata;
  }

  /**
   * What `load_artifact` does: the forest it loads (None: it raised before loading one),
   * the schema it restores (None: the metadata file is absent or unreadable) and the error
   * it raises, if any.
   */
  datatype Loading = Loading(forest: Option<Forest>, restored: Option<Restored>, error: Option<EngineError>)

  /** `load_artifact(path)` against the store, with the engine's current target and excluded columns. */
  function LoadFiles(store: Store, path: string, targetColumn: string, excludedColumns: seq<string>): (l: Loading)
    ensures l.error.None? ==> l.forest.Some?
    ensures l.restored.Some? ==> l.forest.Some? && l.error.None?
  {
    var modelFile := if path in store.dirs then PathJoin(path, "model.joblib") else path;
    var metadataFile := if path in store.dirs then PathJoin(path, "run_metadata.json")
                        else PathJoin(Parent(path), "run_metadata.json");
    if !PathExists(store, modelFile) then
      Loading(None, None, Some(FileNotFound("Model file not found: " + modelFile)))
    else if !(modelFile in store.files && store.files[modelFile].ModelFile?) then
      Loading(None, None, Some(Unreadable(modelFile)))
    else
      var forest := store.files[modelFile].forest;
      if !PathExists(store, metadataFile) then Loading(Some(forest), None, None)
      else if !(metadataFile in store.files && store.files[metadataFile].JsonFile? && store.files[metadataFile].doc.JObj?) then
        Loading(Some(forest), None, Some(Unreadable(metadataFile)))
      else
        var restored := Restore(store.files[metadataFile].doc.fields, targetColumn, excludedColumns);
        if restored.None? then Loading(Some(forest), None, Some(Unreadable(metadataFile)))
        else Loading(Some(forest), restored, None)
  }

  /**
   * An artifact saved into a store loads back, from its directory or from its model file,
   * as the same forest with the schema and training metadata it was saved with, whatever
   * the loading engine's own target and excluded columns.
   */
  lemma SaveThenLoad(store: Store, artifactDir: string, version: string, forest: Forest, clock: Clock,
                     featureNames: seq<string>, targetColumn: string, excludedColumns: seq<string>,
                     trainMetadata: map<string, Json>, currentTarget: string, currentExcluded: seq<string>)
    requires ValidStore(store) && trainMetadata.Keys !! SavedKeys
    requires SaveFiles(store, artifactDir, version, forest,
                       SavedMetadata(version, clock.iso, featureNames, targetColumn, excludedColumns, trainMetadata)).1.Ok?
    ensures var saved := SaveFiles(store, artifactDir, version, forest,
                                   SavedMetadata(version, clock.iso, featureNames, targetColumn, excludedColumns, trainMetadata));
            var dir := saved.1.value;
            var expected := Loading(Some(forest), Some(Restored(featureNames, targetColumn, excludedColumns, trainMetadata)), None);
            && LoadFiles(saved.0, dir, currentTarget, currentExcluded) == expected
            && (NormalDir(dir) ==>
                  LoadFiles(saved.0, PathJoin(dir, "model.joblib"), currentTarget, currentExcluded) == expected)
  {
    var meta := SavedMetadata(version, clock.iso, featureNames, targetColumn, excludedColumns, trainMetadata);
    var saved := SaveFiles(store, artifactDir, version, forest, meta);
    var dir := saved.1.value;
    var modelPath := PathJoin(dir, "model.joblib");
    var metadataPath := PathJoin(dir, "run_metadata.json");
    assert |modelPath| != |metadataPath| || modelPath != metadataPath;
    assert modelPath != metadataPath;
    assert saved.0.files[modelPath] == ModelFile(forest);
    assert saved.0.files[metadataPath] == JsonFile(JObj(meta));
    MetadataRoundTrip(version, clock.iso, featureNames, targetColumn, excludedColumns, trainMetadata,
                      currentTarget, currentExcluded);
    if NormalDir(dir) {
      ParentOfJoin(dir, "model.joblib");
    }
  }

  // ---------------------------------------------------------------------------
  // The engine
  // ---------------------------------------------------------------------------

  /** The keyword arguments of `MLEngine(...)`; `excludedColumns` None means the default list. */
  datatype EngineConfig = EngineConfig(
    nEstimators: int, maxDepth: Option<int>, randomState: int, nFolds: int, testSize: real,
    targetColumn: string, excludedColumns: Option<seq<string>>, artifactDir: string)

  /** The defaults of `MLEngine.__init__`, with the artifact directory given. */
  function Defaults(artifactDir: string): (c: EngineConfig)
    ensures c.targetColumn == DefaultTargetColumn && c.excludedColumns.None?
  {
    EngineConfig(100, None, 42, 5, 0.2, DefaultTargetColumn, None, artifactDir)
  }

  class Engine {
    const nEstimators: int
    const maxDepth: Option<int>
    const randomState: int
    const nFolds: int
    const testSize: real
    var targetColumn: string
    var excludedColumns: seq<string>
    const artifactDir: string
    var model: Option<Forest>
    var featureNames: seq<string>
    var xTrain: Option<Frame>
    var yTrain: Option<seq<Cell>>
    var xTest: Option<Frame>
    var yTest: Option<seq<Cell>>
    var trainMetadata: map<string, Json>

    /** The training metadata never shadows a key `save_artifact` writes itself. */
    predicate Valid()
      reads this
    {
      trainMetadata.Keys !! SavedKeys
    }

    /**
     * What `train` sets once the split succeeds, before it fits: the schema is the training
     * partition's columns and the four partitions are held.
     */
    predicate Partitioned(split: Split)
      reads this
    {
      && featureNames == split.xTrain.columns
      && xTrain == Some(split.xTrain) && yTrain == Some(split.yTrain)
      && xTest == Some(split.xTest) && yTest == Some(split.yTest)
    }

    /**
     * The state a successful `train` leaves: the partitions and schema, the forest fitted on
     * the training partition, and training metadata that describes them.
     */
    predicate TrainedOn(split: Split, forest: Forest, measures: TrainMeasures)
      reads this
    {
      && Partitioned(split)
      && model == Some(forest)
      && trainMetadata == TrainMetadata(split, |split.xTrain.columns|, measures, nEstimators, maxDepth, randomState)
    }

    /** `MLEngine(...)`: configured, untrained, with no feature schema. */
    constructor(config: EngineConfig)
      ensures Valid()
      ensures nEstimators == config.nEstimators && maxDepth == config.maxDepth
      ensures randomState == config.randomState && nFolds == config.nFolds && testSize == config.testSize
      ensures targetColumn == config.targetColumn && artifactDir == config.artifactDir
      ensures excludedColumns == config.excludedColumns.GetOr(DefaultExcludedColumns)
      ensures model.None? && featureNames == [] && trainMetadata == map[]
      ensures xTrain.None? && yTrain.None? && xTest.None? && yTest.None?
    {
      nEstimators := config.nEstimators;
      maxDepth := config.maxDepth;
      randomState := config.randomState;
      nFolds := config.nFolds;
      testSize := config.testSize;
      targetColumn := config.targetColumn;
      excludedColumns := config.excludedColumns.GetOr(DefaultExcludedColumns);
      artifactDir := config.artifactDir;
      model := None;
      featureNames := [];
      xTrain := None;
      yTrain := None;
      xTest := None;
      yTest := None;
      trainMetadata := map[];
    }

    /**
     * `train`: load, prepare and split; a failure there changes nothing. Once the split
     * succeeds the engine holds its partitions and schema and a fresh forest, whatever the
     * fit then does: a fit that raises leaves that forest unfitted and the old training
     * metadata; a fit that succeeds leaves the fitted forest and new metadata, and the
     * partitions are returned.
     */
    method Train(source: Source, store: Store, learner: Learner, measures: TrainMeasures)
      returns (r: Result<Split, EngineError>)
      requires Valid() && ValidStore(store) && SourceRectangular(source)
      modifies this
      ensures Valid()
      ensures targetColumn == old(targetColumn) && excludedColumns == old(excludedColumns)
      ensures var s := TrainingSplit(old(targetColumn), old(excludedColumns), source, store, learner);
              && (s.Err? ==> r == s && unchanged(this))
              && (s.Ok? ==> Partitioned(s.value))
              && (s.Ok? && learner.fit(s.value.xTrain, s.value.yTrain).Err? ==>
                    && r == Err(LibraryError(learner.fit(s.value.xTrain, s.value.yTrain).error))
                    && model == Some(Unfitted) && trainMetadata == old(trainMetadata))
              && (s.Ok? && learner.fit(s.value.xTrain, s.value.yTrain).Ok? ==>
                    && r == Ok(s.value)
                    && TrainedOn(s.value, learner.fit(s.value.xTrain, s.value.yTrain).value, measures))
    {
      r := TrainingSplit(targetColumn, excludedColumns, source, store, learner);
      if r.Ok? {
        var fitted := Fit(r.value, learner, measures);
        if fitted.Err? {
          r := Err(fitted.error);
        }
      }
    }

    /**
     * The second half of `train`: keep the partitions and schema, construct a forest and fit
     * it, then record the metadata. When the fit raises, what was set before it stays.
     */
    method Fit(split: Split, learner: Learner, measures: TrainMeasures) returns (r: Result<(), EngineError>)
      requires Valid()
      modifies this
      ensures Valid() && Partitioned(split)
      ensures targetColumn == old(targetColumn) && excludedColumns == old(excludedColumns)
      ensures var fitted := learner.fit(split.xTrain, split.yTrain);
              && (fitted.Err? ==>
                    r == Err(LibraryError(fitted.error)) && model == Some(Unfitted) && trainMetadata == old(trainMetadata))
              && (fitted.Ok? ==> r == Ok(()) && TrainedOn(split, fitted.value, measures))
    {
      featureNames := split.xTrain.columns;
      xTrain, yTrain, xTest, yTest := Some(split.xTrain), Some(split.yTrain), Some(split.xTest), Some(split.yTest);
      model := Some(Unfitted);
      var fitted := learner.fit(split.xTrain, split.yTrain);
      if fitted.Err? {
        return Err(LibraryError(fitted.error));
      }
      model := Some(fitted.value);
      trainMetadata := TrainMetadata(split, |split.xTrain.columns|, measures, nEstimators, maxDepth, randomState);
      r := Ok(());
    }

    /**
     * `evaluate`: refused unless a model and all four partitions are held; otherwise the
     * report over the scores scikit-learn computes, or the exception it raises: first the
     * cross-validation's, then NotFittedError from the hold-out prediction of a forest whose
     * fit failed.
     */
    method Evaluate(scores: Result<Scores, string>) returns (r: Result<map<string, Json>, EngineError>)
      ensures model.None? || xTrain.None? || yTrain.None? || xTest.None? || yTest.None? ==>
                r == Err(RuntimeError("No trained model found. Call train() before evaluate()."))
      ensures model.Some? && xTrain.Some? && yTrain.Some? && xTest.Some? && yTest.Some? ==>
                r == (if scores.Err? then Err(LibraryError(scores.error))
                      else if model.value.Unfitted? then Err(LibraryError(NotFittedMessage))
                      else Ok(EvaluationReport(trainMetadata, scores.value)))
      ensures model == Some(Unfitted) ==> r.Err?
    {
      if model.None? || xTrain.None? || yTrain.None? || xTest.None? || yTest.None? {
        return Err(RuntimeError("No trained model found. Call train() before evaluate()."));
      }
      if scores.Err? {
        return Err(LibraryError(scores.error));
      }
      if model.value.Unfitted? {
        return Err(LibraryError(NotFittedMessage));
      }
      return Ok(EvaluationReport(trainMetadata, scores.value));
    }

    /** `predict`: refused without a model; otherwise the scored input frame. */
    method Predict(source: Source, store: Store, learner: Learner) returns (r: Result<Frame, EngineError>)
      requires ValidStore(store) && SourceRectangular(source)
      ensures model.None? ==> r == Err(RuntimeError("No fitted model available. Call train() or load_artifact() first."))
      ensures model.Some? ==>
                r == Prediction(model.value, featureNames, targetColumn, excludedColumns, source, store, learner)
      ensures model == Some(Unfitted) ==> r.Err?
    {
      if model.None? {
        return Err(RuntimeError("No fitted model available. Call train() or load_artifact() first."));
      }
      r := Prediction(model.value, featureNames, targetColumn, excludedColumns, source, store, learner);
    }

    /**
     * `save_artifact`: refused without a model; otherwise the model file and the metadata
     * (schema, version, time, training metadata) go to `{artifact_dir}/{version}`, the
     * version defaulting to the current time.
     */
    method SaveArtifact(versionId: Option<string>, clock: Clock, store: Store)
      returns (r: Result<string, EngineError>, store': Store)
      requires ValidStore(store)
      ensures ValidStore(store')
      ensures model.None? ==> r == Err(RuntimeError("No trained model to save. Call train() first.")) && store' == store
      ensures model.Some? ==>
                var version := versionId.GetOr(clock.compact);
                (store', r) == SaveFiles(store, artifactDir, version, model.value,
                                         SavedMetadata(version, clock.iso, featureNames, targetColumn,
                                                       excludedColumns, trainMetadata))
    {
      if model.None? {
        return Err(RuntimeError("No trained model to save. Call train() first.")), store;
      }
      var version := versionId.GetOr(clock.compact);
      var metadata := SavedMetadata(version, clock.iso, featureNames, targetColumn, excludedColumns, trainMetadata);
      var saved := SaveFiles(store, artifactDir, version, model.value, metadata);
      r, store' := saved.1, saved.0;
    }

    /**
     * `load_artifact`: the forest replaces the model once the model file is read, and the
     * schema and training metadata are replaced when a metadata file is read; the training
     * partitions and the configuration are left as they were.
     */
    method LoadArtifact(path: string, store: Store) returns (r: Result<(), EngineError>)
      requires Valid()
      modifies this
      ensures Valid()
      ensures var l := LoadFiles(store, path, old(targetColumn), old(excludedColumns));
              && r == (if l.error.Some? then Err(l.error.value) else Ok(()))
              && model == (if l.forest.Some? then l.forest else old(model))
              && (l.restored.Some? ==>
                    && featureNames == l.restored.value.featureNames
                    && targetColumn == l.restored.value.targetColumn
                    && excludedColumns == l.restored.value.excludedColumns
                    && trainMetadata == l.restored.value.trainMetadata)
              && (l.restored.None? ==>
                    && featureNames == old(featureNames) && targetColumn == old(targetColumn)
                    && excludedColumns == old(excludedColumns) && trainMetadata == old(trainMetadata))
              && xTrain == old(xTrain) && yTrain == old(yTrain) && xTest == old(xTest) && yTest == old(yTest)
    {
      var l := LoadFiles(store, path, targetColumn, excludedColumns);
      if l.forest.Some? {
        model := l.forest;
      }
      if l.restored.Some? {
        featureNames := l.restored.value.featureNames;
        targetColumn := l.restored.value.targetColumn;
        excludedColumns := l.restored.value.excludedColumns;
        trainMetadata := l.restored.value.trainMetadata;
      }
      r := if l.error.Some? then Err(l.error.value) else Ok(());
    }
  }
}
