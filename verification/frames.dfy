/** A data frame as the pipeline sees it: a header of column names and rows of
    cells, one cell per column. Assigning a column (`df[c] = values`)
    overwrites the column of that name when there is one and appends a new
    column otherwise. */
module Frames {
  import opened Values
  import opened Seqs

  datatype Frame = Frame(columns: seq<string>, rows: seq<seq<Cell>>)

  /** The empty frame (`pd.DataFrame()`): no columns and no rows. */
  const Empty := Frame([], [])

  /** Every row has one cell per column. */
  ghost predicate WellFormed(f: Frame)
  {
    forall i :: 0 <= i < |f.rows| ==> |f.rows[i]| == |f.columns|
  }

  /** Position of the first column named `c`. */
  function ColumnIndex(columns: seq<string>, c: string): (r: Option<nat>)
    ensures r.None? <==> c !in columns
    ensures r.Some? ==> r.value < |columns| && columns[r.value] == c
    ensures r.Some? ==> forall j :: 0 <= j < r.value ==> columns[j] != c
  {
    if columns == [] then None
    else if columns[0] == c then Some(0)
    else match ColumnIndex(columns[1..], c)
      case None => None
      case Some(k) => Some(k + 1)
  }

  /** The cell of column `c` in `row`; a missing column reads as `Null`. */
  function At(columns: seq<string>, row: seq<Cell>, c: string): Cell
  {
    match ColumnIndex(columns, c)
    case None => Null
    case Some(k) => if k < |row| then row[k] else Null
  }

  /** The cell of column `c` in row `i` of `f`. */
  function Get(f: Frame, i: int, c: string): Cell
  {
    if 0 <= i < |f.rows| then At(f.columns, f.rows[i], c) else Null
  }

  /** The column named `c`, one cell per row. */
  function Column(f: Frame, c: string): (r: seq<Cell>)
    ensures |r| == |f.rows|
  {
    seq(|f.rows|, i => Get(f, i, c))
  }

  /** Appending a column leaves every other column where it was. */
  lemma ColumnIndexAppend(columns: seq<string>, c: string, d: string)
    requires d != c
    ensures ColumnIndex(columns + [c], d) == ColumnIndex(columns, d)
  {
    var r := ColumnIndex(columns + [c], d);
    if d in columns {
      var k := ColumnIndex(columns, d).value;
      assert (columns + [c])[k] == d;
      assert r.Some? && r.value <= k;
      assert r.value >= k;
    } else {
      assert d !in columns + [c];
    }
  }

  /** `df[c] = values`: the column of that name is overwritten, or appended. */
  function SetColumn(f: Frame, c: string, values: seq<Cell>): (r: Frame)
    requires WellFormed(f) && |values| == |f.rows|
    ensures WellFormed(r) && |r.rows| == |f.rows|
    ensures r.columns == if c in f.columns then f.columns else f.columns + [c]
    ensures forall i :: 0 <= i < |f.rows| ==> Get(r, i, c) == values[i]
    ensures forall i, d :: d != c ==> Get(r, i, d) == Get(f, i, d)
  {
    SetColumnLaws(f, c, values);
    Assign(f, c, values)
  }

  function Assign(f: Frame, c: string, values: seq<Cell>): Frame
    requires WellFormed(f) && |values| == |f.rows|
  {
    match ColumnIndex(f.columns, c)
    case Some(k) =>
      Frame(f.columns, seq(|f.rows|, i requires 0 <= i < |f.rows| => f.rows[i][k := values[i]]))
    case None =>
      Frame(f.columns + [c], seq(|f.rows|, i requires 0 <= i < |f.rows| => f.rows[i] + [values[i]]))
  }

  lemma SetColumnLaws(f: Frame, c: string, values: seq<Cell>)
    requires WellFormed(f) && |values| == |f.rows|
    ensures var r := Assign(f, c, values);
      WellFormed(r) && |r.rows| == |f.rows| &&
      r.columns == (if c in f.columns then f.columns else f.columns + [c]) &&
      (forall i :: 0 <= i < |f.rows| ==> Get(r, i, c) == values[i]) &&
      (forall i, d :: d != c ==> Get(r, i, d) == Get(f, i, d))
  {
    if c in f.columns {
      Overwritten(f, c, values);
    } else {
      Appended(f, c, values);
    }
  }

  /** Assigning an existing column. */
  lemma Overwritten(f: Frame, c: string, values: seq<Cell>)
    requires WellFormed(f) && |values| == |f.rows| && c in f.columns
    ensures var r := Assign(f, c, values);
      WellFormed(r) && |r.rows| == |f.rows| && r.columns == f.columns &&
      (forall i :: 0 <= i < |f.rows| ==> Get(r, i, c) == values[i]) &&
      (forall i, d :: d != c ==> Get(r, i, d) == Get(f, i, d))
  {
    var r := Assign(f, c, values);
    var k := ColumnIndex(f.columns, c).value;
    forall i, d | d != c ensures Get(r, i, d) == Get(f, i, d) {
      match ColumnIndex(f.columns, d)
      case None =>
      case Some(k') => assert f.columns[k'] != f.columns[k];
    }
  }

  /** Assigning a new column, which goes last. */
  lemma Appended(f: Frame, c: string, values: seq<Cell>)
    requires WellFormed(f) && |values| == |f.rows| && c !in f.columns
    ensures var r := Assign(f, c, values);
      WellFormed(r) && |r.rows| == |f.rows| && r.columns == f.columns + [c] &&
      (forall i :: 0 <= i < |f.rows| ==> Get(r, i, c) == values[i]) &&
      (forall i, d :: d != c ==> Get(r, i, d) == Get(f, i, d))
  {
    var r := Assign(f, c, values);
    forall i, d | d != c ensures Get(r, i, d) == Get(f, i, d) {
      ColumnIndexAppend(f.columns, c, d);
    }
    assert ColumnIndex(r.columns, c) == Some(|f.columns|) by {
      assert (f.columns + [c])[|f.columns|] == c;
    }
  }

  /** `df[dst] = g(df[src])`, applied cell by cell. */
  function Derive(f: Frame, src: string, dst: string, g: Cell -> Cell): (r: Frame)
    requires WellFormed(f)
    ensures WellFormed(r) && |r.rows| == |f.rows|
    ensures r.columns == if dst in f.columns then f.columns else f.columns + [dst]
    ensures forall i :: 0 <= i < |f.rows| ==> Get(r, i, dst) == g(Get(f, i, src))
    ensures forall i, d :: d != dst ==> Get(r, i, d) == Get(f, i, d)
  {
    SetColumn(f, dst, seq(|f.rows|, i => g(Get(f, i, src))))
  }

  /** `df[c] = x`: every row gets the same value. */
  function Fill(f: Frame, c: string, x: Cell): (r: Frame)
    requires WellFormed(f)
    ensures WellFormed(r) && |r.rows| == |f.rows|
    ensures r.columns == if c in f.columns then f.columns else f.columns + [c]
    ensures forall i :: 0 <= i < |f.rows| ==> Get(r, i, c) == x
    ensures forall i, d :: d != c ==> Get(r, i, d) == Get(f, i, d)
  {
    SetColumn(f, c, seq(|f.rows|, i => x))
  }

  /** The rows whose cell in column `c` is present. */
  function Present(columns: seq<string>, c: string): seq<Cell> -> bool
  {
    row => At(columns, row, c) != Null
  }

  /** `df.dropna(subset=[c])`: the rows whose cell in column `c` is missing are
      removed; the others keep their order and their cells. */
  function DropMissing(f: Frame, c: string): (r: Frame)
    requires WellFormed(f)
    ensures WellFormed(r) && r.columns == f.columns
    ensures var kept := Kept(f.rows, Present(f.columns, c));
      |r.rows| == |kept| &&
      forall i, d :: 0 <= i < |r.rows| ==> Get(r, i, d) == Get(f, kept[i], d)
    ensures forall i :: 0 <= i < |r.rows| ==> Get(r, i, c) != Null
  {
    DropLaws(f, c);
    Frame(f.columns, Filter(f.rows, Present(f.columns, c)))
  }

  lemma DropLaws(f: Frame, c: string)
    requires WellFormed(f)
    ensures var kept := Kept(f.rows, Present(f.columns, c));
      var r := Frame(f.columns, Filter(f.rows, Present(f.columns, c)));
      WellFormed(r) && |r.rows| == |kept| &&
      (forall i, d :: 0 <= i < |r.rows| ==> Get(r, i, d) == Get(f, kept[i], d)) &&
      (forall i :: 0 <= i < |r.rows| ==> Get(r, i, c) != Null)
  {
    var p := Present(f.columns, c);
    var kept := Kept(f.rows, p);
    var rows := Filter(f.rows, p);
    forall i | 0 <= i < |rows|
      ensures kept[i] < |f.rows| && rows[i] == f.rows[kept[i]] && p(rows[i])
    {
      assert kept[i] in kept;
    }
  }
}
