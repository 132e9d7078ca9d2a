/** A pandas DataFrame reduced to what the top-results code does with one:
    an ordered list of column labels and rows whose k-th cell sits under the
    k-th label. The operations are the ones the source applies:
    `query('c > t')`, `loc[:, cols]`, `sort_values(c, ascending=False)`,
    column assignment `f[c] = values` and `rename(columns=m)`. */
module Frames {
  import opened Seqs

  datatype Cell = Int(i: int) | Num(x: real) | Text(s: string)

  type Row = seq<Cell>

  datatype Frame = Frame(columns: seq<string>, rows: seq<Row>)

  /** Every row has one cell per column label. */
  predicate WellFormed(f: Frame)
  {
    forall r :: r in f.rows ==> |r| == |f.columns|
  }

  /** Position of the first column labelled `c`; |cols| when there is none. */
  function IndexOf(cols: seq<string>, c: string): (i: nat)
    ensures i <= |cols|
    ensures i < |cols| <==> c in cols
    ensures i < |cols| ==> cols[i] == c && forall j :: 0 <= j < i ==> cols[j] != c
  {
    if c in cols then
      FirstOccurrence(cols, c);
      var i :| 0 <= i < |cols| && cols[i] == c && forall j :: 0 <= j < i ==> cols[j] != c;
      i
    else |cols|
  }

  lemma {:induction false} FirstOccurrence(cols: seq<string>, c: string)
    requires c in cols
    ensures exists i :: 0 <= i < |cols| && cols[i] == c && forall j :: 0 <= j < i ==> cols[j] != c
  {
    if cols[0] != c {
      var rest := cols[1..];
      FirstOccurrence(rest, c);
      var i :| 0 <= i < |rest| && rest[i] == c && forall j :: 0 <= j < i ==> rest[j] != c;
      forall j | 0 <= j < i + 1 ensures cols[j] != c {
        if j > 0 { assert cols[j] == rest[j - 1]; }
      }
    }
  }

  /** The cell at position i of a row (an empty text cell past its end, which
      a well-formed frame never reaches). */
  function CellAt(row: Row, i: nat): Cell
  {
    if i < |row| then row[i] else Text("")
  }

  /** `f[c][r]`: the cell of row r under label c. */
  function Get(f: Frame, r: nat, c: string): Cell
    requires r < |f.rows|
  {
    CellAt(f.rows[r], IndexOf(f.columns, c))
  }

  /** `f[c]` as a list of cells, one per row. */
  function Column(f: Frame, c: string): (col: seq<Cell>)
    ensures |col| == |f.rows|
    ensures forall r :: 0 <= r < |f.rows| ==> col[r] == Get(f, r, c)
  {
    Map(f.rows, (row: Row) => CellAt(row, IndexOf(f.columns, c)))
  }

  function NumOf(cell: Cell): real
  {
    if cell.Num? then cell.x else 0.0
  }

  /** The cells of `row` under the labels `cols`, the row's own labels being `from`. */
  function Project(row: Row, from: seq<string>, cols: seq<string>): (p: Row)
    ensures |p| == |cols|
  {
    seq(|cols|, k requires 0 <= k < |cols| => CellAt(row, IndexOf(from, cols[k])))
  }

  /** `f.loc[:, cols]`: the same rows, only the listed columns, in the listed
      order; each kept cell is the one the row had under that label. */
  function Loc(f: Frame, cols: seq<string>): (g: Frame)
    requires WellFormed(f)
    requires forall c :: c in cols ==> c in f.columns
    ensures WellFormed(g)
    ensures g.columns == cols
    ensures |g.rows| == |f.rows|
    ensures forall r, c :: 0 <= r < |f.rows| && c in cols ==> Get(g, r, c) == Get(f, r, c)
  {
    var g := Frame(cols, Map(f.rows, (row: Row) => Project(row, f.columns, cols)));
    assert forall r :: r in g.rows ==> |r| == |cols|;
    g
  }

  /** `f.query('c > t')` on a numeric column: exactly the rows whose value
      under c exceeds t, each as often as in f. */
  function QueryGreater(f: Frame, c: string, t: real): (g: Frame)
    requires WellFormed(f)
    ensures WellFormed(g)
    ensures g.columns == f.columns
    ensures forall row :: multiset(g.rows)[row] ==
                          if NumOf(CellAt(row, IndexOf(f.columns, c))) > t then multiset(f.rows)[row] else 0
  {
    var i := IndexOf(f.columns, c);
    var g := Frame(f.columns, Filter(f.rows, (row: Row) => NumOf(CellAt(row, i)) > t));
    assert forall row :: row in g.rows ==> row in multiset(g.rows);
    g
  }

  /** The comparison `sort_values(c, ascending=False)` orders rows by. */
  function DescendingAt(i: nat): (Row, Row) -> bool
  {
    (a: Row, b: Row) => NumOf(CellAt(a, i)) >= NumOf(CellAt(b, i))
  }

  /** `f.sort_values(c, ascending=False)` on a numeric column: the same rows,
      rearranged so that the values under c never increase. */
  function SortDescending(f: Frame, c: string): (g: Frame)
    requires WellFormed(f)
    ensures WellFormed(g)
    ensures g.columns == f.columns
    ensures multiset(g.rows) == multiset(f.rows)
    ensures forall a, b :: 0 <= a < b < |g.rows| ==> NumOf(Get(g, a, c)) >= NumOf(Get(g, b, c))
  {
    var le := DescendingAt(IndexOf(f.columns, c));
    assert TotalPreorder(le);
    SortSorted(f.rows, le);
    var g := Frame(f.columns, Sort(f.rows, le));
    assert forall row :: row in g.rows ==> row in multiset(f.rows);
    g
  }

  /** `f[c] = values`: the cells under c become `values`, row by row; a new
      label is appended as the last column; every other column is kept. */
  function Assign(f: Frame, c: string, values: seq<Cell>): (g: Frame)
    requires WellFormed(f)
    requires |values| == |f.rows|
    ensures WellFormed(g)
    ensures g.columns == if c in f.columns then f.columns else f.columns + [c]
    ensures |g.rows| == |f.rows|
    ensures forall r :: 0 <= r < |g.rows| ==> Get(g, r, c) == values[r]
    ensures forall r, d :: 0 <= r < |g.rows| && d in f.columns && d != c ==> Get(g, r, d) == Get(f, r, d)
  {
    var i := IndexOf(f.columns, c);
    var cols := if c in f.columns then f.columns else f.columns + [c];
    var rows := seq(|f.rows|, r requires 0 <= r < |f.rows| =>
      assert f.rows[r] in f.rows;
      if i < |f.columns| then f.rows[r][i := values[r]] else f.rows[r] + [values[r]]);
    var g := Frame(cols, rows);
    assert forall r :: 0 <= r < |rows| ==> |rows[r]| == |cols|;
    forall r, d | 0 <= r < |rows| && d in f.columns && d != c
      ensures Get(g, r, d) == Get(f, r, d)
    {
      assert f.rows[r] in f.rows;
      if c !in f.columns {
        assert cols[..|f.columns|] == f.columns;
        IndexOfPrefix(f.columns, [c], d);
      }
    }
    forall r | 0 <= r < |rows| ensures Get(g, r, c) == values[r] {
      assert f.rows[r] in f.rows;
      if c !in f.columns {
        IndexOfAppended(f.columns, c);
      }
    }
    g
  }

  /** Appending labels does not move the ones already present. */
  lemma IndexOfPrefix(cols: seq<string>, more: seq<string>, d: string)
    requires d in cols
    ensures IndexOf(cols + more, d) == IndexOf(cols, d)
  {
    var k := IndexOf(cols, d);
    var i := IndexOf(cols + more, d);
    assert (cols + more)[k] == d;
    assert forall j :: 0 <= j < |cols| ==> (cols + more)[j] == cols[j];
  }

  /** A label that is not present yet lands at the end. */
  lemma IndexOfAppended(cols: seq<string>, d: string)
    requires d !in cols
    ensures IndexOf(cols + [d], d) == |cols|
  {
    assert forall j :: 0 <= j < |cols| ==> (cols + [d])[j] == cols[j];
  }

  /** Assigning a new column computed cell by cell from column `src` of a
      frame built row by row appends the computed cell to each row. */
  lemma AssignNewColumn<A>(s: seq<A>, cols: seq<string>, row: A -> Row, src: string, c: string,
                           cell: Cell -> Cell, row2: A -> Row)
    requires forall a :: |row(a)| == |cols|
    requires c !in cols
    requires forall a :: row2(a) == row(a) + [cell(CellAt(row(a), IndexOf(cols, src)))]
    ensures WellFormed(Frame(cols, Map(s, row)))
    ensures
      var f := Frame(cols, Map(s, row));
      Assign(f, c, Map(Column(f, src), cell)) == Frame(cols + [c], Map(s, row2))
  {
    var f := Frame(cols, Map(s, row));
    var g := Assign(f, c, Map(Column(f, src), cell));
    forall r | 0 <= r < |s| ensures g.rows[r] == row2(s[r]) {
      assert f.rows[r] in f.rows;
    }
  }

  /** Assigning an existing column c, computed cell by cell from column
      `src`, replaces the cell under c in each row. */
  lemma AssignExistingColumn<A>(s: seq<A>, cols: seq<string>, row: A -> Row, src: string, c: string,
                                cell: Cell -> Cell, row2: A -> Row)
    requires forall a :: |row(a)| == |cols|
    requires c in cols
    requires forall a :: row2(a) == row(a)[IndexOf(cols, c) := cell(CellAt(row(a), IndexOf(cols, src)))]
    ensures WellFormed(Frame(cols, Map(s, row)))
    ensures
      var f := Frame(cols, Map(s, row));
      Assign(f, c, Map(Column(f, src), cell)) == Frame(cols, Map(s, row2))
  {
    var f := Frame(cols, Map(s, row));
    var g := Assign(f, c, Map(Column(f, src), cell));
    forall r | 0 <= r < |s| ensures g.rows[r] == row2(s[r]) {
      assert f.rows[r] in f.rows;
    }
  }

  function Relabel(m: map<string, string>, c: string): string
  {
    if c in m then m[c] else c
  }

  /** `f.rename(columns=m, inplace=True)`: the labels listed in `m` change,
      the cells do not move. */
  function Rename(f: Frame, m: map<string, string>): (g: Frame)
    ensures g.rows == f.rows
    ensures |g.columns| == |f.columns|
    ensures forall k :: 0 <= k < |f.columns| ==> g.columns[k] == Relabel(m, f.columns[k])
  {
    Frame(Map(f.columns, (c: string) => Relabel(m, c)), f.rows)
  }
}
