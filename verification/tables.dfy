/**
 * The record table the whole program passes around (a pandas DataFrame):
 * an ordered list of column names and a sequence of rows, each row a map from
 * column name to an optional value. Scoring functions add columns to a copy;
 * the upload step concatenates tables.
 */
module Tables {
  import opened Wrappers

  /** A cell's content: text, or a number (pandas' int64 and float64 alike). */
  datatype Value = Text(s: string) | Num(x: real)

  /** A cell; `None` is pandas' missing value (NaN). */
  type Cell = Option<Value>

  type Row = map<string, Cell>

  datatype Table = Table(columns: seq<string>, rows: seq<Row>)

  /** The exceptions the modelled code can raise. */
  datatype Error =
    | NoTextValues(column: string)           // `.str` accessor on a column without text
    | TextComparedWithNumber(column: string) // `'<' not supported between 'str' and 'int'`
    | CutEmptyArray                          // `pd.cut` of no values
    | ReadFailed(file: string, message: string) // a CSV or Excel reader raised

  /** The cell of `row` under column `c`, missing when the row has no such key. */
  function CellOf(row: Row, c: string): Cell {
    if c in row then row[c] else None
  }

  /** Two rows read the same under every column name. */
  ghost predicate SameCells(a: Row, b: Row) {
    forall c :: CellOf(a, c) == CellOf(b, c)
  }

  predicate Distinct(cols: seq<string>) {
    forall i, j :: 0 <= i < j < |cols| ==> cols[i] != cols[j]
  }

  /** A DataFrame's shape: distinct column names, and every row keyed by exactly those names. */
  ghost predicate WellFormed(t: Table) {
    && Distinct(t.columns)
    && forall i :: 0 <= i < |t.rows| ==> forall c :: c in t.rows[i] <==> c in t.columns
  }

  predicate IsText(v: Cell) {
    v.Some? && v.value.Text?
  }

  /** Some row of `t` holds text under column `c`. */
  predicate HasText(t: Table, c: string) {
    exists i :: 0 <= i < |t.rows| && IsText(CellOf(t.rows[i], c))
  }

  /** The 0/1 integer a numpy `where(cond, 1, 0)` or `choice([0, 1])` stores. */
  function Flag(b: bool): Cell {
    Some(Num(if b then 1.0 else 0.0))
  }

  predicate IsFlag(v: Cell) {
    v == Flag(false) || v == Flag(true)
  }

  /**
   * `r` is `t` with the columns `added` assigned: same row count, the old columns
   * kept in order with the new ones after them, and every cell outside `added`
   * unchanged. An `added` name that `t` already had keeps its position and is
   * overwritten, as a pandas column assignment does.
   */
  ghost predicate Extends(t: Table, r: Table, added: set<string>) {
    && |r.rows| == |t.rows|
    && t.columns <= r.columns
    && (forall c :: c in r.columns ==> c in t.columns || c in added)
    && (forall c :: c in added ==> c in r.columns)
    && (forall i, c :: 0 <= i < |t.rows| && c !in added ==> CellOf(r.rows[i], c) == CellOf(t.rows[i], c))
  }

  /** `df[name] = values` on a copy of `t`. */
  function AddColumn(t: Table, name: string, values: seq<Cell>): (r: Table)
    requires |values| == |t.rows|
    ensures Extends(t, r, {name})
    ensures forall i :: 0 <= i < |r.rows| ==> CellOf(r.rows[i], name) == values[i]
    ensures WellFormed(t) ==> WellFormed(r)
  {
    var cols := if name in t.columns then t.columns else t.columns + [name];
    Table(cols, seq(|t.rows|, i requires 0 <= i < |t.rows| => t.rows[i][name := values[i]]))
  }

  /** Every row of `AddColumn`'s result holds the assigned value under the new name. */
  lemma AddColumnWrites(t: Table, name: string, values: seq<Cell>)
    requires |values| == |t.rows|
    ensures name in AddColumn(t, name, values).columns
    ensures forall i :: 0 <= i < |t.rows| ==> name in AddColumn(t, name, values).rows[i] && AddColumn(t, name, values).rows[i][name] == values[i]
  {
  }

  /** Assigning a column the values it already holds gives back the same table. */
  lemma AddColumnSame(t: Table, name: string, values: seq<Cell>)
    requires |values| == |t.rows| && name in t.columns
    requires forall i :: 0 <= i < |t.rows| ==> name in t.rows[i] && t.rows[i][name] == values[i]
    ensures AddColumn(t, name, values) == t
  {
    var r := AddColumn(t, name, values);
    forall i | 0 <= i < |t.rows|
      ensures r.rows[i] == t.rows[i]
    {
      assert r.rows[i] == t.rows[i][name := values[i]];
    }
  }

  /** Assigning columns one after another assigns all of them. */
  lemma ExtendsTrans(t: Table, u: Table, v: Table, a: set<string>, b: set<string>)
    requires Extends(t, u, a) && Extends(u, v, b)
    ensures Extends(t, v, a + b)
  {
  }

  /** A column the assignments leave alone keeps every cell. */
  lemma KeptColumn(t: Table, r: Table, added: set<string>, c: string)
    requires Extends(t, r, added) && c !in added
    ensures forall i :: 0 <= i < |t.rows| ==> CellOf(r.rows[i], c) == CellOf(t.rows[i], c)
  {
  }

  /** The union of two column lists in order of first appearance (pandas' unsorted union). */
  function UnionColumns(a: seq<string>, b: seq<string>): (r: seq<string>)
    ensures a <= r
    ensures forall c :: c in r <==> c in a || c in b
    ensures Distinct(a) ==> Distinct(r)
    decreases |b|
  {
    if |b| == 0 then a
    else UnionColumns(if b[0] in a then a else a + [b[0]], b[1..])
  }

  /** `row` re-keyed to `columns`, a missing value wherever it has no entry. */
  function FillRow(row: Row, columns: seq<string>): (r: Row)
    ensures forall c :: c in r <==> c in columns
    ensures forall c :: c in columns ==> CellOf(r, c) == CellOf(row, c)
  {
    map c | c in columns :: CellOf(row, c)
  }

  /** `pd.concat([a, b], ignore_index=True)`: the rows of `a` then those of `b` over the union of their columns. */
  function Append(a: Table, b: Table): (r: Table)
    ensures |r.rows| == |a.rows| + |b.rows|
    ensures r.columns == UnionColumns(a.columns, b.columns)
    ensures forall i {:trigger a.rows[i]} :: 0 <= i < |a.rows| ==> r.rows[i] == FillRow(a.rows[i], r.columns)
    ensures forall k {:trigger b.rows[k]} :: 0 <= k < |b.rows| ==> r.rows[|a.rows| + k] == FillRow(b.rows[k], r.columns)
  {
    var cols := UnionColumns(a.columns, b.columns);
    Table(cols,
          seq(|a.rows|, i requires 0 <= i < |a.rows| => FillRow(a.rows[i], cols))
          + seq(|b.rows|, i requires 0 <= i < |b.rows| => FillRow(b.rows[i], cols)))
  }

  /** `pd.concat(ts, ignore_index=True)` as a left fold of `Append`. */
  function Concat(ts: seq<Table>): (r: Table)
    ensures |r.rows| == TotalRows(ts)
    decreases |ts|
  {
    if |ts| == 0 then Table([], []) else Append(Concat(ts[..|ts| - 1]), ts[|ts| - 1])
  }

  /** The total number of rows of `ts`. */
  function TotalRows(ts: seq<Table>): nat
    decreases |ts|
  {
    if |ts| == 0 then 0 else TotalRows(ts[..|ts| - 1]) + |ts[|ts| - 1].rows|
  }

  /** The concatenation has as many rows as all tables together, and every column any of them has. */
  lemma {:induction false} ConcatShape(ts: seq<Table>)
    ensures |Concat(ts).rows| == TotalRows(ts)
    ensures forall c :: c in Concat(ts).columns <==> exists j :: 0 <= j < |ts| && c in ts[j].columns
    ensures WellFormed(Concat(ts))
    decreases |ts|
  {
    if |ts| > 0 {
      var init := ts[..|ts| - 1];
      ConcatShape(init);
      AppendWellFormed(Concat(init), ts[|ts| - 1]);
      forall c
        ensures c in Concat(ts).columns <==> exists j :: 0 <= j < |ts| && c in ts[j].columns
      {
        ConcatColumnsStep(ts, c);
      }
    }
  }

  /** `Append` keys every row by its column union, whatever the operands' rows hold. */
  lemma AppendWellFormed(a: Table, b: Table)
    requires Distinct(a.columns)
    ensures WellFormed(Append(a, b))
  {
    var r := Append(a, b);
    forall i | 0 <= i < |r.rows|
      ensures forall c :: c in r.rows[i] <==> c in r.columns
    {
      if i < |a.rows| {
        assert r.rows[i] == FillRow(a.rows[i], r.columns);
      } else {
        var k := i - |a.rows|;
        assert r.rows[|a.rows| + k] == FillRow(b.rows[k], r.columns);
      }
    }
  }

  /** Some table of `ts` has column `c`. */
  ghost predicate InSomeTable(ts: seq<Table>, c: string) {
    exists j :: 0 <= j < |ts| && c in ts[j].columns
  }

  /** One more table adds exactly its own columns to the concatenation's. */
  lemma ConcatColumnsStep(ts: seq<Table>, c: string)
    requires |ts| > 0
    requires c in Concat(ts[..|ts| - 1]).columns <==> InSomeTable(ts[..|ts| - 1], c)
    ensures c in Concat(ts).columns <==> InSomeTable(ts, c)
  {
    var prev := Concat(ts[..|ts| - 1]).columns;
    assert Concat(ts).columns == UnionColumns(prev, ts[|ts| - 1].columns);
    if c in Concat(ts).columns {
      ColumnFromSome(ts, prev, c);
    }
    if InSomeTable(ts, c) {
      ColumnOfSome(ts, prev, c);
    }
  }

  /** A column of the earlier tables' columns or of the last table comes from one of the tables. */
  lemma ColumnFromSome(ts: seq<Table>, prev: seq<string>, c: string)
    requires |ts| > 0
    requires c in prev ==> InSomeTable(ts[..|ts| - 1], c)
    requires c in prev || c in ts[|ts| - 1].columns
    ensures InSomeTable(ts, c)
  {
    var init := ts[..|ts| - 1];
    if c in ts[|ts| - 1].columns {
      assert 0 <= |ts| - 1 < |ts|;
    } else {
      var j :| 0 <= j < |init| && c in init[j].columns;
      assert ts[j] == init[j];
    }
  }

  /** A column of one of the tables is among the earlier tables' columns or the last table's. */
  lemma ColumnOfSome(ts: seq<Table>, prev: seq<string>, c: string)
    requires |ts| > 0
    requires InSomeTable(ts[..|ts| - 1], c) ==> c in prev
    requires InSomeTable(ts, c)
    ensures c in prev || c in ts[|ts| - 1].columns
  {
    var init := ts[..|ts| - 1];
    var j :| 0 <= j < |ts| && c in ts[j].columns;
    if j < |ts| - 1 {
      assert init[j] == ts[j];
    }
  }

  /** Where `Append` puts the rows of its left operand. */
  lemma AppendLeftRow(a: Table, b: Table, i: nat)
    requires i < |a.rows|
    ensures Append(a, b).rows[i] == FillRow(a.rows[i], Append(a, b).columns)
  {
  }

  /** Where `Append` puts the rows of its right operand. */
  lemma AppendRightRow(a: Table, b: Table, k: nat)
    requires k < |b.rows|
    ensures Append(a, b).rows[|a.rows| + k] == FillRow(b.rows[k], Append(a, b).columns)
  {
  }

  /** Re-keying a well-formed table's row to a superset of its columns loses nothing. */
  lemma FillRowKeeps(t: Table, i: nat, columns: seq<string>)
    requires WellFormed(t) && i < |t.rows|
    requires forall c :: c in t.columns ==> c in columns
    ensures forall c :: CellOf(FillRow(t.rows[i], columns), c) == CellOf(t.rows[i], c)
  {
  }

  /** A row of `Append`'s left operand keeps every cell. */
  lemma AppendKeepsLeft(a: Table, b: Table, i: nat)
    requires WellFormed(a) && i < |a.rows|
    ensures i < |Append(a, b).rows|
    ensures SameCells(Append(a, b).rows[i], a.rows[i])
  {
    AppendLeftRow(a, b, i);
    FillRowKeeps(a, i, Append(a, b).columns);
  }

  /** A row of `Append`'s right operand keeps every cell, after all rows of the left one. */
  lemma AppendKeepsRight(a: Table, b: Table, k: nat)
    requires WellFormed(b) && k < |b.rows|
    ensures |a.rows| + k < |Append(a, b).rows|
    ensures SameCells(Append(a, b).rows[|a.rows| + k], b.rows[k])
  {
    AppendRightRow(a, b, k);
    FillRowKeeps(b, k, Append(a, b).columns);
  }

  /** The concatenation's size and well-formedness, without its columns. */
  lemma ConcatRows(ts: seq<Table>)
    ensures |Concat(ts).rows| == TotalRows(ts) && WellFormed(Concat(ts))
  {
    ConcatShape(ts);
  }

  /**
   * Upload order: row `k` of table `j` is row `TotalRows(ts[..j]) + k` of the
   * concatenation, with every cell it had and a missing value under every column
   * it lacked.
   */
  lemma ConcatKeepsRows(ts: seq<Table>, j: nat, k: nat)
    requires forall m :: 0 <= m < |ts| ==> WellFormed(ts[m])
    requires j < |ts| && k < |ts[j].rows|
    ensures TotalRows(ts[..j]) + k < |Concat(ts).rows|
    ensures SameCells(Concat(ts).rows[TotalRows(ts[..j]) + k], ts[j].rows[k])
  {
    ConcatKeepsCell(ts, j, k, "");
    forall c
      ensures CellOf(Concat(ts).rows[TotalRows(ts[..j]) + k], c) == CellOf(ts[j].rows[k], c)
    {
      ConcatKeepsCell(ts, j, k, c);
    }
  }

  /** `ConcatKeepsRows` for one column `c`, by induction on the number of tables. */
  lemma {:induction false} ConcatKeepsCell(ts: seq<Table>, j: nat, k: nat, c: string)
    requires forall m :: 0 <= m < |ts| ==> WellFormed(ts[m])
    requires j < |ts| && k < |ts[j].rows|
    ensures TotalRows(ts[..j]) + k < |Concat(ts).rows|
    ensures CellOf(Concat(ts).rows[TotalRows(ts[..j]) + k], c) == CellOf(ts[j].rows[k], c)
    decreases |ts|, 1
  {
    if j == |ts| - 1 {
      ConcatKeepsLast(ts, j, k, c);
    } else {
      ConcatKeepsInit(ts, j, k, c);
      ConcatKeepsEarlier(ts, TotalRows(ts[..j]) + k, ts[j].rows[k], c);
    }
  }

  /** The induction step: the cell already sits at its place in the concatenation of all but the last table. */
  lemma {:induction false} ConcatKeepsInit(ts: seq<Table>, j: nat, k: nat, c: string)
    requires forall m :: 0 <= m < |ts| ==> WellFormed(ts[m])
    requires j < |ts| - 1 && k < |ts[j].rows|
    ensures TotalRows(ts[..j]) + k < |Concat(ts[..|ts| - 1]).rows|
    ensures CellOf(Concat(ts[..|ts| - 1]).rows[TotalRows(ts[..j]) + k], c) == CellOf(ts[j].rows[k], c)
    decreases |ts|, 0
  {
    var init := ts[..|ts| - 1];
    assert init[..j] == ts[..j];
    assert init[j] == ts[j];
    ConcatKeepsCell(init, j, k, c);
  }

  /** The last table's rows follow all earlier tables' rows, cells intact. */
  lemma ConcatKeepsLast(ts: seq<Table>, j: nat, k: nat, c: string)
    requires j == |ts| - 1 && WellFormed(ts[j]) && k < |ts[j].rows|
    ensures TotalRows(ts[..j]) + k < |Concat(ts).rows|
    ensures CellOf(Concat(ts).rows[TotalRows(ts[..j]) + k], c) == CellOf(ts[j].rows[k], c)
  {
    var init := ts[..j];
    assert Concat(ts) == Append(Concat(init), ts[j]);
    ConcatRows(init);
    AppendKeepsRight(Concat(init), ts[j], k);
  }

  /** Appending one more table leaves the earlier rows' cells alone. */
  lemma ConcatKeepsEarlier(ts: seq<Table>, p: nat, row: Row, c: string)
    requires |ts| > 0 && p < |Concat(ts[..|ts| - 1]).rows|
    requires CellOf(Concat(ts[..|ts| - 1]).rows[p], c) == CellOf(row, c)
    ensures p < |Concat(ts).rows|
    ensures CellOf(Concat(ts).rows[p], c) == CellOf(row, c)
  {
    var init := ts[..|ts| - 1];
    assert Concat(ts) == Append(Concat(init), ts[|ts| - 1]);
    ConcatRows(init);
    AppendKeepsLeft(Concat(init), ts[|ts| - 1], p);
  }
}
