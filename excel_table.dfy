/**
 * The spreadsheet as plot_file sees it (make_excel_chart.py): cells, rows that
 * keep their pandas labels, boolean masks, and the two-pass cleaning of lines 14-15.
 */
module ExcelTable {

  datatype Option<T> = None | Some(value: T)

  /**
   * One cell. A present cell carries what the pandas coercions make of it:
   * `number` is the result of pd.to_numeric(errors='coerce') when that is not
   * NaN, `date` the result of pd.to_datetime(errors='coerce') when that is not
   * NaT (a timestamp). A missing cell coerces to neither.
   */
  datatype Cell = Missing | Present(number: Option<real>, date: Option<int>)

  predicate IsNumeric(c: Cell) {
    c.Present? && c.number.Some?
  }

  predicate IsDate(c: Cell) {
    c.Present? && c.date.Some?
  }

  /** The sheet as read by pd.read_excel: header names and one row of cells per sheet row. */
  datatype Sheet = Sheet(names: seq<string>, grid: seq<seq<Cell>>)

  /** A DataFrame is rectangular: every row has one cell per column. */
  predicate Rectangular(s: Sheet) {
    forall i :: 0 <= i < |s.grid| ==> |s.grid[i]| == |s.names|
  }

  predicate AllMissing(cells: seq<Cell>) {
    forall j :: 0 <= j < |cells| ==> cells[j].Missing?
  }

  /**
   * A row of a cleaned table. `rowLabel` is the row's pandas index label: read_excel
   * numbers the sheet rows 0, 1, 2, ... and dropping rows keeps the survivors' labels.
   */
  datatype Row = Row(rowLabel: nat, cells: seq<Cell>)

  datatype Table = Table(names: seq<string>, rows: seq<Row>)

  predicate Increasing(ps: seq<nat>) {
    forall i, j :: 0 <= i < j < |ps| ==> ps[i] < ps[j]
  }

  /** Appending a position past every listed one keeps the list increasing. */
  lemma AppendIncreasing(ps: seq<nat>, n: nat)
    requires Increasing(ps) && forall k :: 0 <= k < |ps| ==> ps[k] < n
    ensures Increasing(ps + [n]) && (ps + [n])[|ps|] == n
    ensures forall k :: 0 <= k < |ps| ==> (ps + [n])[k] == ps[k]
  {
  }

  /** Rectangular, and the row labels are unique and in their original order. */
  predicate Valid(t: Table) {
    && (forall k :: 0 <= k < |t.rows| ==> |t.rows[k].cells| == |t.names|)
    && (forall i, j :: 0 <= i < j < |t.rows| ==> t.rows[i].rowLabel < t.rows[j].rowLabel)
  }

  /**
   * The positions where a boolean mask holds, in order: what selecting with a
   * pandas mask (or `dropna()`) keeps.
   */
  function Where(mask: seq<bool>): (ps: seq<nat>)
    ensures Increasing(ps)
    ensures forall k :: 0 <= k < |ps| ==> ps[k] < |mask| && mask[ps[k]]
    ensures forall p :: 0 <= p < |mask| && mask[p] ==> p in ps
  {
    if mask == [] then []
    else
      var last := |mask| - 1;
      var front := Where(mask[..last]);
      assert forall p :: 0 <= p < last && mask[p] ==> mask[..last][p];
      if mask[last] then front + [last] else front
  }

  /** `.any()` of a mask. */
  function Any(mask: seq<bool>): (b: bool)
    ensures b <==> exists p :: 0 <= p < |mask| && mask[p]
  {
    if mask == [] then false
    else
      assert forall p :: 1 <= p < |mask| ==> mask[1..][p - 1] == mask[p];
      mask[0] || Any(mask[1..])
  }

  /** Selecting every position of an all-true mask keeps every position. */
  lemma {:induction false} WhereAll(mask: seq<bool>)
    requires forall p :: 0 <= p < |mask| ==> mask[p]
    ensures |Where(mask)| == |mask|
    ensures forall k :: 0 <= k < |mask| ==> Where(mask)[k] == k
  {
    if mask != [] {
      WhereAll(mask[..|mask| - 1]);
    }
  }

  /**
   * df.dropna(how='all', axis=0): the sheet rows that hold at least one value,
   * each under its original label (line 14).
   */
  function DropEmptyRows(s: Sheet): (t: Table)
    requires Rectangular(s)
    ensures Valid(t) && t.names == s.names
    ensures forall k :: 0 <= k < |t.rows| ==>
      t.rows[k].rowLabel < |s.grid| && t.rows[k].cells == s.grid[t.rows[k].rowLabel] && !AllMissing(t.rows[k].cells)
    ensures forall i :: 0 <= i < |s.grid| && !AllMissing(s.grid[i]) ==>
      exists k :: 0 <= k < |t.rows| && t.rows[k].rowLabel == i
  {
    var mask := seq(|s.grid|, i requires 0 <= i < |s.grid| => !AllMissing(s.grid[i]));
    var keep := Where(mask);
    var t := Table(s.names, seq(|keep|, k requires 0 <= k < |keep| => Row(keep[k], s.grid[keep[k]])));
    assert forall k :: 0 <= k < |keep| ==> t.rows[k].rowLabel == keep[k];
    assert forall i :: 0 <= i < |s.grid| && !AllMissing(s.grid[i]) ==> mask[i] && i in keep;
    t
  }

  /** Whether column j holds a value in some row. */
  predicate ColumnHasValue(rows: seq<Row>, j: nat) {
    exists k :: 0 <= k < |rows| && j < |rows[k].cells| && rows[k].cells[j].Present?
  }

  /** The columns that df.dropna(how='all', axis=1) keeps, in their order. */
  function KeptColumns(t: Table): (cols: seq<nat>)
    requires Valid(t)
    ensures Increasing(cols)
    ensures forall m :: 0 <= m < |cols| ==> cols[m] < |t.names| && ColumnHasValue(t.rows, cols[m])
    ensures forall j :: 0 <= j < |t.names| && ColumnHasValue(t.rows, j) ==> j in cols
  {
    Where(seq(|t.names|, j requires 0 <= j < |t.names| => ColumnHasValue(t.rows, j)))
  }

  /** df.dropna(how='all', axis=1): every row restricted to the kept columns (line 15). */
  function DropEmptyColumns(t: Table): (u: Table)
    requires Valid(t)
    ensures Valid(u)
    ensures |u.names| == |KeptColumns(t)| && |u.rows| == |t.rows|
    ensures forall m :: 0 <= m < |u.names| ==> u.names[m] == t.names[KeptColumns(t)[m]]
    ensures forall k :: 0 <= k < |u.rows| ==> u.rows[k].rowLabel == t.rows[k].rowLabel
    ensures forall k, m :: 0 <= k < |u.rows| && 0 <= m < |u.names| ==>
      u.rows[k].cells[m] == t.rows[k].cells[KeptColumns(t)[m]]
  {
    var cols := KeptColumns(t);
    Table(seq(|cols|, m requires 0 <= m < |cols| => t.names[cols[m]]),
          seq(|t.rows|, k requires 0 <= k < |t.rows| =>
            Row(t.rows[k].rowLabel, seq(|cols|, m requires 0 <= m < |cols| => t.rows[k].cells[cols[m]]))))
  }

  /** Lines 14-15: rows first, then columns. */
  function Clean(s: Sheet): (t: Table)
    requires Rectangular(s)
    ensures Valid(t)
  {
    DropEmptyColumns(DropEmptyRows(s))
  }

  /**
   * Dropping the empty rows first does not change which columns survive: a
   * column survives exactly when some sheet row has a value in it.
   */
  lemma RowDropKeepsColumnValues(s: Sheet, j: nat)
    requires Rectangular(s) && j < |s.names|
    ensures ColumnHasValue(DropEmptyRows(s).rows, j) <==>
      exists i :: 0 <= i < |s.grid| && s.grid[i][j].Present?
  {
    var t := DropEmptyRows(s);
    if i :| 0 <= i < |s.grid| && s.grid[i][j].Present? {
      assert !AllMissing(s.grid[i]);
      var k :| 0 <= k < |t.rows| && t.rows[k].rowLabel == i;
      assert t.rows[k].cells[j].Present?;
    }
  }

  /**
   * The rows cleaning leaves are exactly the sheet rows that hold a value,
   * under their original labels and in their original order.
   */
  lemma CleanKeepsRows(s: Sheet)
    requires Rectangular(s)
    ensures var t := Clean(s);
      && (forall k :: 0 <= k < |t.rows| ==> t.rows[k].rowLabel < |s.grid| && !AllMissing(s.grid[t.rows[k].rowLabel]))
      && (forall i :: 0 <= i < |s.grid| && !AllMissing(s.grid[i]) ==>
            exists k :: 0 <= k < |t.rows| && t.rows[k].rowLabel == i)
      && (forall i, j :: 0 <= i < j < |t.rows| ==> t.rows[i].rowLabel < t.rows[j].rowLabel)
  {
    var r := DropEmptyRows(s);
    var t := Clean(s);
    assert forall k :: 0 <= k < |t.rows| ==> t.rows[k].rowLabel == r.rows[k].rowLabel;
  }

  /**
   * The columns cleaning leaves are exactly the sheet columns that hold a
   * value, in their original order, with their names and cells.
   */
  lemma CleanKeepsColumns(s: Sheet)
    requires Rectangular(s)
    ensures var cols := KeptColumns(DropEmptyRows(s));
      && Increasing(cols)
      && (forall j :: j in cols <==> 0 <= j < |s.names| && exists i :: 0 <= i < |s.grid| && s.grid[i][j].Present?)
      && |Clean(s).names| == |cols|
      && (forall m :: 0 <= m < |cols| ==> Clean(s).names[m] == s.names[cols[m]])
      && (forall k, m :: 0 <= k < |Clean(s).rows| && 0 <= m < |cols| ==>
            Clean(s).rows[k].cells[m] == s.grid[Clean(s).rows[k].rowLabel][cols[m]])
  {
    var r := DropEmptyRows(s);
    var cols := KeptColumns(r);
    forall j | 0 <= j < |s.names|
      ensures j in cols <==> exists i :: 0 <= i < |s.grid| && s.grid[i][j].Present?
    {
      RowDropKeepsColumnValues(s, j);
    }
  }

  /** After cleaning no remaining row is all-missing. */
  lemma CleanLeavesNoEmptyRow(s: Sheet)
    requires Rectangular(s)
    ensures forall k :: 0 <= k < |Clean(s).rows| ==> !AllMissing(Clean(s).rows[k].cells)
  {
    var r := DropEmptyRows(s);
    var t := Clean(s);
    var cols := KeptColumns(r);
    forall k | 0 <= k < |t.rows|
      ensures !AllMissing(t.rows[k].cells)
    {
      var j :| 0 <= j < |r.rows[k].cells| && r.rows[k].cells[j].Present?;
      assert ColumnHasValue(r.rows, j);
      var m :| 0 <= m < |cols| && cols[m] == j;
      assert t.rows[k].cells[m].Present?;
    }
  }

  /** After cleaning no remaining column is all-missing. */
  lemma CleanLeavesNoEmptyColumn(s: Sheet)
    requires Rectangular(s)
    ensures forall m :: 0 <= m < |Clean(s).names| ==> ColumnHasValue(Clean(s).rows, m)
  {
    var r := DropEmptyRows(s);
    var t := Clean(s);
    var cols := KeptColumns(r);
    forall m | 0 <= m < |t.names|
      ensures ColumnHasValue(t.rows, m)
    {
      var k :| 0 <= k < |r.rows| && cols[m] < |r.rows[k].cells| && r.rows[k].cells[cols[m]].Present?;
      assert t.rows[k].cells[m].Present?;
    }
  }

  /**
   * `df.empty` after cleaning (line 18) holds exactly when every sheet row is
   * all-missing; and a cleaned table with rows always has columns.
   */
  lemma {:induction false} CleanEmptyIff(s: Sheet)
    requires Rectangular(s)
    ensures var t := Clean(s);
      (|t.rows| == 0 || |t.names| == 0) <==> forall i :: 0 <= i < |s.grid| ==> AllMissing(s.grid[i])
    ensures |Clean(s).rows| > 0 ==> |Clean(s).names| > 0
  {
    CleanLeavesNoEmptyRow(s);
    CleanKeepsRows(s);
    var t := Clean(s);
    if |t.rows| > 0 {
      assert !AllMissing(t.rows[0].cells);
    }
  }
}
