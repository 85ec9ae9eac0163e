/** pandas data frames, as far as the core looks into them. */
module Frames {

  /**
   * A value of a frame: `None`, a float NaN, pandas' missing nullable integer `pd.NA`, an
   * integer, a float or a string.
   */
  datatype Cell = NoneValue | NaN | NA | IntCell(i: int) | FloatCell(x: real) | TextCell(s: string)

  /** `pd.isna(value)`. */
  predicate IsMissing(c: Cell) {
    c.NoneValue? || c.NaN? || c.NA?
  }

  /** A frame: column names and rows of cells. */
  datatype Frame = Frame(columns: seq<string>, rows: seq<seq<Cell>>)

  /** Every row has one cell per column. */
  predicate Rectangular(f: Frame) {
    forall i :: 0 <= i < |f.rows| ==> |f.rows[i]| == |f.columns|
  }

  /** `df.empty`: no rows or no columns. */
  predicate Empty(f: Frame) {
    |f.columns| == 0 || |f.rows| == 0
  }

  /** The first index of `x` in `s`: the column pandas selects by name. */
  function IndexOf(s: seq<string>, x: string): (i: nat)
    requires x in s
    ensures i < |s| && s[i] == x && x !in s[..i]
  {
    if s[0] == x then 0
    else
      var i := 1 + IndexOf(s[1..], x);
      assert s[..i] == [s[0]] + s[1..][..i - 1];
      i
  }

}
