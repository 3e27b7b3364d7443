/**
 * Point selection of plot_file (make_excel_chart.py): from the cleaned table to
 * the series handed to matplotlib, the axis labels, and the error that ends a run.
 * Rendering itself (plt.plot, titles, tick formatters, savefig, show) is not modelled;
 * what the chart would show is returned as a value.
 */
module ExcelChart {
  import opened ExcelTable

  /** A value placed on an axis: a float, an integer index, a timestamp, or NaN/NaT. */
  datatype Coord = Number(value: real) | Index(i: int) | Timestamp(t: int) | NaN | NaT

  /** One plt.plot call: an optional legend label and the x- and y-lists. */
  datatype Series = Series(name: Option<string>, xs: seq<Coord>, ys: seq<Coord>)

  /** Everything plot_file decides about the figure. */
  datatype Chart = Chart(
    title: string,
    xLabel: string,
    yLabel: string,
    series: seq<Series>,
    legend: bool,     // plt.legend() was called
    dateTicks: bool)  // the category axis got an AutoDateLocator and ConciseDateFormatter

  /** The exceptions that end a run. */
  datatype Error =
    | SystemExit(message: string)
    | KeyError(missing: seq<nat>)      // `.loc` asked for labels its index lacks
    | UnboundLocalError(name: string)  // a local variable read before assignment

  datatype Result<T> = Success(value: T) | Failure(error: Error)

  /** How a run ends: a printed notice and a normal return, an exception, or a drawn chart. */
  datatype Outcome = Notice(message: string) | Raised(error: Error) | Drawn(chart: Chart)

  const NO_DATA := "No data found in the Excel file."
  const NO_NUMERIC_DATA := "No numeric data available to plot."
  const NO_NUMERIC_SERIES := "No numeric series found to plot."
  const SWAPPED_TITLE := "Swapped Axes Plot"
  const LINE_TITLE := "Line Plot (values on vertical axis)"

  function CellAt(t: Table, p: nat, c: nat): Cell
    requires Valid(t) && p < |t.rows| && c < |t.names|
  {
    t.rows[p].cells[c]
  }

  /** `pd.to_numeric(column c, errors='coerce').notna()`. */
  function NumericMask(t: Table, c: nat): (mask: seq<bool>)
    requires Valid(t) && c < |t.names|
    ensures |mask| == |t.rows|
    ensures forall p :: 0 <= p < |t.rows| ==> (mask[p] <==> IsNumeric(CellAt(t, p, c)))
  {
    seq(|t.rows|, p requires 0 <= p < |t.rows| => IsNumeric(CellAt(t, p, c)))
  }

  function NumberAt(t: Table, p: nat, c: nat): real
    requires Valid(t) && p < |t.rows| && c < |t.names| && IsNumeric(CellAt(t, p, c))
  {
    CellAt(t, p, c).number.value
  }

  /** The numeric values of column c at the rows ps, in that order (`.values` of a selection). */
  function Numbers(t: Table, c: nat, ps: seq<nat>): seq<Coord>
    requires Valid(t) && c < |t.names|
    requires forall k :: 0 <= k < |ps| ==> ps[k] < |t.rows| && IsNumeric(CellAt(t, ps[k], c))
  {
    seq(|ps|, k requires 0 <= k < |ps| => Number(NumberAt(t, ps[k], c)))
  }

  /** The pandas labels of the rows ps (`.index` of a selection). */
  function Labels(t: Table, ps: seq<nat>): seq<nat>
    requires forall k :: 0 <= k < |ps| ==> ps[k] < |t.rows|
  {
    seq(|ps|, k requires 0 <= k < |ps| => t.rows[ps[k]].rowLabel)
  }

  /** Row p is numeric in column c and carries a label not below the row count. */
  predicate StrayRow(t: Table, c: nat, p: nat)
    requires Valid(t) && c < |t.names|
  {
    p < |t.rows| && IsNumeric(CellAt(t, p, c)) && t.rows[p].rowLabel >= |t.rows|
  }

  /** Row p is numeric in column c and its label is in `pd.Index(range(len(df)))`. */
  predicate InRange(t: Table, c: nat, p: nat)
    requires Valid(t) && c < |t.names|
  {
    p < |t.rows| && IsNumeric(CellAt(t, p, c)) && t.rows[p].rowLabel < |t.rows|
  }

  /** Row p is numeric in column c and in the first column. */
  predicate BothNumeric(t: Table, c: nat, p: nat)
    requires Valid(t) && c < |t.names|
  {
    p < |t.rows| && IsNumeric(CellAt(t, p, c)) && IsNumeric(CellAt(t, p, 0))
  }

  /** The rows `pd.to_numeric(column c, errors='coerce').dropna()` keeps, in order. */
  function NumericRows(t: Table, c: nat): (ps: seq<nat>)
    requires Valid(t) && c < |t.names|
    ensures Increasing(ps)
    ensures forall k :: 0 <= k < |ps| ==> ps[k] < |t.rows| && IsNumeric(CellAt(t, ps[k], c))
    ensures forall p :: 0 <= p < |t.rows| && IsNumeric(CellAt(t, p, c)) ==> p in ps
  {
    Where(NumericMask(t, c))
  }

  /** `dropna()` on column c comes out empty exactly when column c has no numeric cell. */
  lemma NoneNumeric(t: Table, c: nat)
    requires Valid(t) && c < |t.names|
    ensures NumericRows(t, c) == [] <==> forall p :: 0 <= p < |t.rows| ==> !IsNumeric(CellAt(t, p, c))
  {
    var ps := NumericRows(t, c);
    if ps != [] {
      assert IsNumeric(CellAt(t, ps[0], c));
    }
  }

  /** The rows of `y_num.dropna().index.intersection(pd.Index(range(len(df))))` (line 113). */
  function InRangeRows(t: Table, c: nat): (ps: seq<nat>)
    requires Valid(t) && c < |t.names|
    ensures Increasing(ps)
    ensures forall k :: 0 <= k < |ps| ==> InRange(t, c, ps[k])
    ensures forall p: nat :: InRange(t, c, p) ==> p in ps
  {
    var n := |t.rows|;
    var mask := seq(n, p requires 0 <= p < n => InRange(t, c, p));
    assert forall p: nat :: InRange(t, c, p) ==> mask[p];
    Where(mask)
  }

  /** The intersection of line 113 is empty exactly when no row of column c is in range. */
  lemma NoneInRange(t: Table, c: nat)
    requires Valid(t) && c < |t.names|
    ensures InRangeRows(t, c) == [] <==> forall p: nat :: !InRange(t, c, p)
  {
    var ps := InRangeRows(t, c);
    if ps != [] {
      assert InRange(t, c, ps[0]);
    }
  }

  /** The rows of `y_num.dropna().index.intersection(x_vals.dropna().index)` (line 65). */
  function BothNumericRows(t: Table, c: nat): (ps: seq<nat>)
    requires Valid(t) && c < |t.names|
    ensures Increasing(ps)
    ensures forall k :: 0 <= k < |ps| ==> BothNumeric(t, c, ps[k])
    ensures forall p: nat :: BothNumeric(t, c, p) ==> p in ps
  {
    var n := |t.rows|;
    var mask := seq(n, p requires 0 <= p < n => BothNumeric(t, c, p));
    assert forall p: nat :: BothNumeric(t, c, p) ==> mask[p];
    Where(mask)
  }

  /**
   * dates_flag (lines 23-29): some first-column cell parses as a date, i.e.
   * `pd.to_datetime(...).notna().any()`.
   */
  function DatesFlag(t: Table): (b: bool)
    requires Valid(t) && |t.names| >= 1
    ensures b <==> exists p :: 0 <= p < |t.rows| && IsDate(CellAt(t, p, 0))
  {
    var mask := seq(|t.rows|, p requires 0 <= p < |t.rows| => IsDate(CellAt(t, p, 0)));
    assert forall p :: 0 <= p < |t.rows| ==> mask[p] == IsDate(CellAt(t, p, 0));
    Any(mask)
  }

  /** `x_num.isna().all()` (lines 53 and 105): no first-column cell is numeric. */
  function FirstColumnHasNoNumber(t: Table): (b: bool)
    requires Valid(t) && |t.names| >= 1
    ensures b <==> forall p :: 0 <= p < |t.rows| ==> !IsNumeric(CellAt(t, p, 0))
  {
    var mask := NumericMask(t, 0);
    assert forall p :: 0 <= p < |t.rows| ==> mask[p] == IsNumeric(CellAt(t, p, 0));
    !Any(mask)
  }

  /**
   * The labels among `labels` that the index 0 .. n-1 of `pd.Series(range(n))`
   * lacks: what `.loc` reports in its KeyError.
   */
  function Unfound(labels: seq<nat>, n: nat): (missing: seq<nat>)
    ensures forall l :: l in missing <==> l in labels && l >= n
  {
    var mask := seq(|labels|, k requires 0 <= k < |labels| => labels[k] >= n);
    var ws := Where(mask);
    var missing := seq(|ws|, m requires 0 <= m < |ws| => labels[ws[m]]);
    assert forall k :: 0 <= k < |labels| && labels[k] >= n ==> mask[k] && k in ws;
    assert forall m :: 0 <= m < |ws| ==> missing[m] == labels[ws[m]];
    missing
  }

  /** `.loc` finds every label exactly when all of them are below n. */
  lemma NoneUnfound(labels: seq<nat>, n: nat)
    ensures Unfound(labels, n) == [] <==> forall k :: 0 <= k < |labels| ==> labels[k] < n
  {
    var missing := Unfound(labels, n);
    if missing != [] {
      assert missing[0] in missing;
    }
    forall k | 0 <= k < |labels| && labels[k] >= n
      ensures missing != []
    {
      assert labels[k] in labels;
    }
  }

  /** How the first column becomes the category axis (lines 49-57 and 101-108). */
  datatype Category = Dates | FirstColumnNumbers | RowLabels

  /** x_vals at row p: the parsed date, the coerced number, or the row's label. */
  function CategoryAt(t: Table, cat: Category, p: nat): (x: Coord)
    requires Valid(t) && |t.names| >= 1 && p < |t.rows|
    ensures (x == NaT || x == NaN) <==>
      || (cat == Dates && !IsDate(CellAt(t, p, 0)))
      || (cat == FirstColumnNumbers && !IsNumeric(CellAt(t, p, 0)))
    ensures cat == Dates && IsDate(CellAt(t, p, 0)) ==> x == Timestamp(CellAt(t, p, 0).date.value)
    ensures cat == FirstColumnNumbers && IsNumeric(CellAt(t, p, 0)) ==> x == Number(CellAt(t, p, 0).number.value)
    ensures cat == RowLabels ==> x == Index(t.rows[p].rowLabel)
  {
    var cell := CellAt(t, p, 0);
    match cat
    case Dates => if IsDate(cell) then Timestamp(cell.date.value) else NaT
    case FirstColumnNumbers => if IsNumeric(cell) then Number(cell.number.value) else NaN
    case RowLabels => Index(t.rows[p].rowLabel)
  }

  /** The category axis of the unflipped multi-column path (lines 101-108). */
  function CategoryOf(t: Table): (cat: Category)
    requires Valid(t) && |t.names| >= 1
    ensures cat == Dates <==> exists p :: 0 <= p < |t.rows| && IsDate(CellAt(t, p, 0))
    ensures cat == RowLabels <==> cat != Dates && forall p :: 0 <= p < |t.rows| ==> !IsNumeric(CellAt(t, p, 0))
  {
    if DatesFlag(t) then Dates
    else if FirstColumnHasNoNumber(t) then RowLabels
    else FirstColumnNumbers
  }

  // ---------------------------------------------------------------------------
  // One column (lines 34-44 and 88-97)
  // ---------------------------------------------------------------------------

  /**
   * Lines 88-97: one column, not flipped. The y-list is `y.dropna().values`, the
   * x-list the POSITIONS i with a numeric `y.iloc[i]`.
   */
  function LinePlotOneColumn(t: Table): (o: Outcome)
    requires Valid(t) && |t.names| == 1
    ensures o.Raised? || o.Drawn?
    ensures o.Raised? ==> o.error == SystemExit(NO_NUMERIC_DATA)
    ensures o.Drawn? ==>
      && o.chart.title == LINE_TITLE
      && |o.chart.series| == 1 && |o.chart.series[0].xs| == |o.chart.series[0].ys| > 0
      && !o.chart.legend && !o.chart.dateTicks
  {
    var ps := NumericRows(t, 0);
    var yPlot := Numbers(t, 0, ps);
    var xPlot := seq(|ps|, k requires 0 <= k < |ps| => Index(ps[k]));
    if |yPlot| == 0 then Raised(SystemExit(NO_NUMERIC_DATA))
    else Drawn(Chart(LINE_TITLE, "Index", t.names[0], [Series(None, xPlot, yPlot)], false, false))
  }

  /**
   * Lines 34-44: one column, flipped. The x-list is `y.dropna().values`; the
   * y-list is `x.loc[y.dropna().index]` with `x = pd.Series(range(len(y)))`, so
   * it holds the rows' LABELS, and a label outside 0 .. len(y)-1 raises KeyError.
   */
  function SwappedPlotOneColumn(t: Table): (o: Outcome)
    requires Valid(t) && |t.names| == 1
    ensures o.Raised? || o.Drawn?
    ensures o.Raised? ==> (o.error.KeyError? && o.error.missing != []) || o.error == SystemExit(NO_NUMERIC_DATA)
    ensures o.Drawn? ==>
      && o.chart.title == SWAPPED_TITLE
      && |o.chart.series| == 1 && |o.chart.series[0].xs| == |o.chart.series[0].ys| > 0
      && !o.chart.legend && !o.chart.dateTicks
  {
    var ps := NumericRows(t, 0);
    var plotX := Numbers(t, 0, ps);
    var labels := Labels(t, ps);
    var missing := Unfound(labels, |t.rows|);
    if missing != [] then Raised(KeyError(missing))
    else if |plotX| == 0 then Raised(SystemExit(NO_NUMERIC_DATA))
    else
      var plotY := seq(|labels|, k requires 0 <= k < |labels| => Index(labels[k]));
      Drawn(Chart(SWAPPED_TITLE, t.names[0], "Index", [Series(None, plotX, plotY)], false, false))
  }

  // ---------------------------------------------------------------------------
  // The column loops (lines 59-73 and 110-120)
  // ---------------------------------------------------------------------------

  /**
   * What a loop over the columns that skips empty series with `continue`
   * plots: the non-empty series, in column order.
   */
  function NonEmpty(ss: seq<Series>): seq<Series>
  {
    if ss == [] then []
    else
      var last := ss[|ss| - 1];
      NonEmpty(ss[..|ss| - 1]) + (if |last.xs| == 0 then [] else [last])
  }

  /**
   * What a loop over the columns plots when a column may raise: the first
   * error, or else the non-empty series in column order.
   */
  function Collect(rs: seq<Result<Series>>): Result<seq<Series>>
  {
    if rs == [] then Success([])
    else
      match Collect(rs[..|rs| - 1])
      case Failure(e) => Failure(e)
      case Success(front) =>
        match rs[|rs| - 1]
        case Failure(e) => Failure(e)
        case Success(s) => Success(front + (if |s.xs| == 0 then [] else [s]))
  }

  /** Lines 72-73 and 119-120: the run ends when the loop plotted nothing. */
  function CheckAnyPlotted(r: Result<seq<Series>>): (c: Result<seq<Series>>)
    ensures c.Success? ==> c == r && c.value != []
    ensures c.Failure? ==> c == r || (r == Success([]) && c.error == SystemExit(NO_NUMERIC_SERIES))
  {
    match r
    case Failure(e) => Failure(e)
    case Success(plotted) => if plotted == [] then Failure(SystemExit(NO_NUMERIC_SERIES)) else Success(plotted)
  }

  /** Column skipped by `continue` (lines 67-68): it raised nothing and has no point. */
  predicate Skipped(r: Result<Series>) {
    r.Success? && |r.value.xs| == 0
  }

  /** One more entry of the prefix: the loop's step keeps it exactly when it is non-empty. */
  lemma NonEmptyPrefix(ss: seq<Series>, n: nat)
    requires 0 < n <= |ss|
    ensures NonEmpty(ss[..n]) == NonEmpty(ss[..n - 1]) + (if |ss[n - 1].xs| == 0 then [] else [ss[n - 1]])
  {
    assert ss[..n][..n - 1] == ss[..n - 1];
  }

  /**
   * The loop keeps exactly the non-empty series, in their order: cols lists
   * the kept ones by column number, entry i of ss being column i + 1.
   */
  lemma {:induction false} NonEmptyKeeps(ss: seq<Series>) returns (cols: seq<nat>)
    ensures var r := NonEmpty(ss);
      && Increasing(cols) && |cols| == |r|
      && (forall k :: 0 <= k < |cols| ==> 1 <= cols[k] <= |ss| && r[k] == ss[cols[k] - 1] && |r[k].xs| > 0)
      && (forall c :: 1 <= c <= |ss| && |ss[c - 1].xs| > 0 ==> c in cols)
  {
    if ss == [] {
      cols := [];
    } else {
      var n := |ss| - 1;
      var front := ss[..n];
      var frontCols := NonEmptyKeeps(front);
      var r := NonEmpty(front);
      assert forall i :: 0 <= i < n ==> front[i] == ss[i];
      if |ss[n].xs| == 0 {
        assert NonEmpty(ss) == r;
        cols := frontCols;
      } else {
        var r' := r + [ss[n]];
        assert NonEmpty(ss) == r';
        cols := frontCols + [n + 1];
        AppendIncreasing(frontCols, n + 1);
        assert forall k :: 0 <= k < |r| ==> r'[k] == r[k];
      }
    }
  }

  /**
   * The loop raises exactly when some column raises, and then with the error
   * of the first column that does.
   */
  lemma {:induction false} CollectFirstFailure(rs: seq<Result<Series>>)
    ensures Collect(rs).Failure? <==> exists i :: 0 <= i < |rs| && rs[i].Failure?
    ensures Collect(rs).Failure? ==>
      exists i :: 0 <= i < |rs| && rs[i] == Failure(Collect(rs).error) && forall j :: 0 <= j < i ==> rs[j].Success?
  {
    if rs != [] {
      var n := |rs| - 1;
      var front := rs[..n];
      CollectFirstFailure(front);
      assert forall i :: 0 <= i < n ==> front[i] == rs[i];
    }
  }

  /**
   * When no column raises, the loop keeps exactly the non-empty series, in
   * column order: cols lists the columns kept, entry i of rs being column i + 1.
   */
  lemma {:induction false} CollectKeeps(rs: seq<Result<Series>>) returns (cols: seq<nat>)
    requires Collect(rs).Success?
    ensures forall i :: 0 <= i < |rs| ==> rs[i].Success?
    ensures var plotted := Collect(rs).value;
      && Increasing(cols) && |cols| == |plotted|
      && (forall k :: 0 <= k < |cols| ==>
            1 <= cols[k] <= |rs| && rs[cols[k] - 1] == Success(plotted[k]) && |plotted[k].xs| > 0)
      && (forall c :: 1 <= c <= |rs| && !Skipped(rs[c - 1]) ==> c in cols)
  {
    if rs == [] {
      cols := [];
    } else {
      var n := |rs| - 1;
      var front := rs[..n];
      var frontCols := CollectKeeps(front);
      var r := Collect(front).value;
      assert forall i :: 0 <= i < n ==> front[i] == rs[i];
      if |rs[n].value.xs| == 0 {
        assert Collect(rs).value == r;
        cols := frontCols;
      } else {
        assert Collect(rs).value == r + [rs[n].value];
        cols := frontCols + [n + 1];
        AppendIncreasing(frontCols, n + 1);
      }
    }
  }

  /** Once a column has raised, the loop has stopped: the later columns change nothing. */
  lemma {:induction false} CollectFailurePersists(rs: seq<Result<Series>>, a: nat)
    requires a <= |rs| && Collect(rs[..a]).Failure?
    ensures Collect(rs) == Collect(rs[..a])
    decreases |rs|
  {
    if a < |rs| {
      var front := rs[..|rs| - 1];
      assert front[..a] == rs[..a];
      CollectFailurePersists(front, a);
    } else {
      assert rs[..a] == rs;
    }
  }

  // ---------------------------------------------------------------------------
  // Several columns, not flipped (lines 99-131)
  // ---------------------------------------------------------------------------

  /**
   * The series of column c (lines 112-116): the rows whose label is in
   * `y_num.dropna().index.intersection(pd.Index(range(len(df))))`, each plotted
   * at `x_vals[label]`, which may be NaN or NaT.
   */
  function LineSeries(t: Table, cat: Category, c: nat): (s: Series)
    requires Valid(t) && 1 <= c < |t.names|
    ensures s.name == Some(t.names[c]) && |s.xs| == |s.ys|
  {
    var ps := InRangeRows(t, c);
    Series(Some(t.names[c]), seq(|ps|, k requires 0 <= k < |ps| => CategoryAt(t, cat, ps[k])), Numbers(t, c, ps))
  }

  /** The series of the columns 1 .. |names|-1, in order; entry i is column i+1. */
  function LineSeriesAll(t: Table, cat: Category): (ss: seq<Series>)
    requires Valid(t) && |t.names| >= 1
    ensures |ss| == |t.names| - 1
    ensures forall c :: 1 <= c < |t.names| ==> ss[c - 1] == LineSeries(t, cat, c)
  {
    seq(|t.names| - 1, i requires 0 <= i < |t.names| - 1 => LineSeries(t, cat, i + 1))
  }

  /** The loop of lines 110-120, with `any_plotted`. */
  method DrawLineSeries(t: Table, cat: Category) returns (r: Result<seq<Series>>)
    requires Valid(t) && |t.names| >= 2
    ensures r == CheckAnyPlotted(Success(NonEmpty(LineSeriesAll(t, cat))))
  {
    ghost var all := LineSeriesAll(t, cat);
    var anyPlotted := false;
    var plotted: seq<Series> := [];
    var c := 1;
    while c < |t.names|
      invariant 1 <= c <= |t.names|
      invariant plotted == NonEmpty(all[..c - 1])
      invariant anyPlotted <==> plotted != []
    {
      var s := LineSeries(t, cat, c);
      NonEmptyPrefix(all, c);
      if |s.xs| != 0 {
        plotted := plotted + [s];
        anyPlotted := true;
      }
      c := c + 1;
    }
    assert all[..c - 1] == all;
    assert plotted == NonEmpty(all);
    if !anyPlotted {
      return Failure(SystemExit(NO_NUMERIC_SERIES));
    }
    return Success(plotted);
  }

  /** Lines 99-131 with several columns: the category axis, the loop, the labels and the date ticks. */
  function LinePlotColumns(t: Table): (o: Outcome)
    requires Valid(t) && |t.names| >= 2
    ensures o.Raised? || o.Drawn?
    ensures o.Raised? ==> o.error == SystemExit(NO_NUMERIC_SERIES)
    ensures o.Drawn? ==> o.chart.title == LINE_TITLE && o.chart.series != [] && o.chart.legend
  {
    match CheckAnyPlotted(Success(NonEmpty(LineSeriesAll(t, CategoryOf(t)))))
    case Failure(e) => Raised(e)
    case Success(plotted) => Drawn(Chart(LINE_TITLE, t.names[0], "y", plotted, true, DatesFlag(t)))
  }

  // ---------------------------------------------------------------------------
  // Several columns, flipped (lines 45-84)
  // ---------------------------------------------------------------------------

  /**
   * The series of column c (lines 61-69). `useIndex` is None when line 53 never
   * ran (dates were detected), and reading it at line 62 fails. With use_index
   * the rows are those with a numeric value and the category is their label,
   * looked up with `.loc` in `pd.Series(range(len(df)))`; without it the rows
   * are those where both column c and the first column are numeric.
   */
  function SwappedSeries(t: Table, useIndex: Option<bool>, c: nat): (r: Result<Series>)
    requires Valid(t) && 1 <= c < |t.names|
    ensures useIndex.None? <==> r == Failure(UnboundLocalError("use_index"))
    ensures r.Failure? && useIndex.Some? ==> useIndex == Some(true) && r.error.KeyError? && r.error.missing != []
    ensures r.Success? ==> r.value.name == Some(t.names[c]) && |r.value.xs| == |r.value.ys|
  {
    match useIndex
    case None => Failure(UnboundLocalError("use_index"))
    case Some(true) =>
      var ps := NumericRows(t, c);
      var labels := Labels(t, ps);
      var missing := Unfound(labels, |t.rows|);
      if |ps| == 0 then Success(Series(Some(t.names[c]), [], []))
      else if missing != [] then Failure(KeyError(missing))
      else Success(Series(Some(t.names[c]), Numbers(t, c, ps),
                          seq(|labels|, k requires 0 <= k < |labels| => Index(labels[k]))))
    case Some(false) =>
      var ps := BothNumericRows(t, c);
      Success(Series(Some(t.names[c]), Numbers(t, c, ps), Numbers(t, 0, ps)))
  }

  /** The results of the columns 1 .. |names|-1, in order; entry i is column i+1. */
  function SwappedSeriesAll(t: Table, useIndex: Option<bool>): (rs: seq<Result<Series>>)
    requires Valid(t) && |t.names| >= 1
    ensures |rs| == |t.names| - 1
    ensures forall c :: 1 <= c < |t.names| ==> rs[c - 1] == SwappedSeries(t, useIndex, c)
  {
    seq(|t.names| - 1, i requires 0 <= i < |t.names| - 1 => SwappedSeries(t, useIndex, i + 1))
  }

  /** The loop of lines 59-73, with `any_plotted`. */
  method DrawSwappedSeries(t: Table, useIndex: Option<bool>) returns (r: Result<seq<Series>>)
    requires Valid(t) && |t.names| >= 2
    ensures r == CheckAnyPlotted(Collect(SwappedSeriesAll(t, useIndex)))
  {
    ghost var all := SwappedSeriesAll(t, useIndex);
    var anyPlotted := false;
    var plotted: seq<Series> := [];
    var c := 1;
    while c < |t.names|
      invariant 1 <= c <= |t.names|
      invariant Collect(all[..c - 1]) == Success(plotted)
      invariant anyPlotted <==> plotted != []
    {
      var s := SwappedSeries(t, useIndex, c);
      assert all[..c][..c - 1] == all[..c - 1];
      if s.Failure? {
        CollectFailurePersists(all, c);
        return Failure(s.error);
      }
      if |s.value.xs| != 0 {
        plotted := plotted + [s.value];
        anyPlotted := true;
      } else {
        assert plotted + [] == plotted;
      }
      c := c + 1;
    }
    assert all[..c - 1] == all;
    if !anyPlotted {
      return Failure(SystemExit(NO_NUMERIC_SERIES));
    }
    return Success(plotted);
  }

  /** How use_index stands at line 62: unassigned when dates were detected, else line 53. */
  function UseIndex(t: Table): (u: Option<bool>)
    requires Valid(t) && |t.names| >= 1
    ensures u.None? <==> exists p :: 0 <= p < |t.rows| && IsDate(CellAt(t, p, 0))
    ensures u == Some(true) <==> u.Some? && forall p :: 0 <= p < |t.rows| ==> !IsNumeric(CellAt(t, p, 0))
  {
    if DatesFlag(t) then None else Some(FirstColumnHasNoNumber(t))
  }

  /** Lines 45-84 with several columns: the loop, the labels, the legend and the date ticks. */
  function SwappedPlotColumns(t: Table): (o: Outcome)
    requires Valid(t) && |t.names| >= 2
    ensures o.Raised? || o.Drawn?
    ensures o.Drawn? ==> o.chart.title == SWAPPED_TITLE && o.chart.series != [] && o.chart.legend
  {
    match CheckAnyPlotted(Collect(SwappedSeriesAll(t, UseIndex(t))))
    case Failure(e) => Raised(e)
    case Success(plotted) => Drawn(Chart(SWAPPED_TITLE, "y", t.names[0], plotted, true, DatesFlag(t)))
  }

  // ---------------------------------------------------------------------------
  // plot_file
  // ---------------------------------------------------------------------------

  /** plot_file (lines 7-139): what one run shows or how it ends. */
  function Plot(s: Sheet, flip: bool): (o: Outcome)
    requires Rectangular(s)
    ensures o.Notice? ==> o == Notice(NO_DATA)
    ensures o.Drawn? ==> o.chart.title == (if flip then SWAPPED_TITLE else LINE_TITLE) && o.chart.series != []
    ensures !flip && o.Raised? ==> o.error.SystemExit?
  {
    var t := Clean(s);
    if |t.rows| == 0 || |t.names| == 0 then Notice(NO_DATA)
    else if flip then
      if |t.names| == 1 then SwappedPlotOneColumn(t) else SwappedPlotColumns(t)
    else
      if |t.names| == 1 then LinePlotOneColumn(t) else LinePlotColumns(t)
  }

  /** plot_file as the sequence of steps the source takes. */
  method PlotFile(s: Sheet, flip: bool) returns (o: Outcome)
    requires Rectangular(s)
    ensures o == Plot(s, flip)
  {
    var df := Clean(s);
    if |df.rows| == 0 || |df.names| == 0 {
      return Notice(NO_DATA);
    }
    var datesFlag := DatesFlag(df);
    if flip {
      if |df.names| == 1 {
        return SwappedPlotOneColumn(df);
      }
      var useIndex: Option<bool> := None;
      if !datesFlag {
        useIndex := Some(FirstColumnHasNoNumber(df));
      }
      var r := DrawSwappedSeries(df, useIndex);
      if r.Failure? {
        return Raised(r.error);
      }
      return Drawn(Chart(SWAPPED_TITLE, "y", df.names[0], r.value, true, datesFlag));
    } else {
      if |df.names| == 1 {
        return LinePlotOneColumn(df);
      }
      var xVals := CategoryOf(df);
      var r := DrawLineSeries(df, xVals);
      if r.Failure? {
        return Raised(r.error);
      }
      return Drawn(Chart(LINE_TITLE, df.names[0], "y", r.value, true, datesFlag));
    }
  }

  // ---------------------------------------------------------------------------
  // Properties: one column
  // ---------------------------------------------------------------------------

  /**
   * Lines 14-20: a run prints "No data found in the Excel file." and returns
   * normally exactly when every sheet row is empty; nothing is plotted then.
   */
  lemma NoticeIffSheetEmpty(s: Sheet, flip: bool)
    requires Rectangular(s)
    ensures Plot(s, flip).Notice? <==> forall i :: 0 <= i < |s.grid| ==> AllMissing(s.grid[i])
    ensures Plot(s, flip).Notice? ==> Plot(s, flip) == Notice(NO_DATA)
  {
    CleanEmptyIff(s);
  }

  /**
   * Lines 93-94, one column, not flipped: the run ends with "No numeric data
   * available to plot." exactly when no cell is numeric, and otherwise draws.
   */
  lemma LinePlotOneColumnExit(t: Table)
    requires Valid(t) && |t.names| == 1
    ensures var o := LinePlotOneColumn(t);
      && (o.Raised? || o.Drawn?)
      && (o.Raised? <==> forall p :: 0 <= p < |t.rows| ==> !IsNumeric(CellAt(t, p, 0)))
      && (o.Raised? ==> o.error == SystemExit(NO_NUMERIC_DATA))
  {
    NoneNumeric(t, 0);
  }

  /**
   * Lines 90-97, one column, not flipped: a drawn chart holds one series whose
   * x-list and y-list are aligned and list, in row order, exactly the
   * positions with a numeric cell, paired with those numbers; 'Index' labels x.
   */
  lemma LinePlotOneColumnPoints(t: Table)
    requires Valid(t) && |t.names| == 1
    ensures var o := LinePlotOneColumn(t);
      o.Drawn? ==>
        && o.chart.title == LINE_TITLE && o.chart.xLabel == "Index" && o.chart.yLabel == t.names[0]
        && |o.chart.series| == 1 && o.chart.series[0].name == None
        && exists ps: seq<nat> ::
             && Increasing(ps)
             && (forall k :: 0 <= k < |ps| ==> ps[k] < |t.rows| && IsNumeric(CellAt(t, ps[k], 0)))
             && (forall p :: 0 <= p < |t.rows| && IsNumeric(CellAt(t, p, 0)) ==> p in ps)
             && |o.chart.series[0].xs| == |ps| == |o.chart.series[0].ys|
             && forall k :: 0 <= k < |ps| ==>
                  o.chart.series[0].xs[k] == Index(ps[k]) && o.chart.series[0].ys[k] == Number(NumberAt(t, ps[k], 0))
  {
    var ps := NumericRows(t, 0);
  }

  /**
   * `.loc` on `pd.Series(range(n))` with the labels of the rows numeric in
   * column c reports exactly the labels of the stray rows.
   */
  lemma UnfoundLabels(t: Table, c: nat)
    requires Valid(t) && c < |t.names|
    ensures forall l :: l in Unfound(Labels(t, NumericRows(t, c)), |t.rows|) <==>
      exists p: nat :: StrayRow(t, c, p) && t.rows[p].rowLabel == l
  {
    var ps := NumericRows(t, c);
    var labels := Labels(t, ps);
    var missing := Unfound(labels, |t.rows|);
    forall l | l in missing
      ensures exists p: nat :: StrayRow(t, c, p) && t.rows[p].rowLabel == l
    {
      var k :| 0 <= k < |labels| && labels[k] == l;
      assert StrayRow(t, c, ps[k]) && t.rows[ps[k]].rowLabel == l;
    }
    forall p: nat | StrayRow(t, c, p)
      ensures t.rows[p].rowLabel in missing
    {
      var k :| 0 <= k < |ps| && ps[k] == p;
      assert labels[k] == t.rows[p].rowLabel;
    }
  }

  /** The KeyError happens exactly when some row is stray. */
  lemma {:induction false} UnfoundIff(t: Table, c: nat)
    requires Valid(t) && c < |t.names|
    ensures Unfound(Labels(t, NumericRows(t, c)), |t.rows|) != [] <==> exists p: nat :: StrayRow(t, c, p)
  {
    var missing := Unfound(Labels(t, NumericRows(t, c)), |t.rows|);
    UnfoundLabels(t, c);
    if missing != [] {
      assert missing[0] in missing;
    }
    if p: nat :| StrayRow(t, c, p) {
      assert t.rows[p].rowLabel in missing;
    }
  }

  /**
   * Lines 37-39, one column, flipped: `x.loc` raises KeyError exactly when some
   * numeric row carries a label that is not below the row count, and it
   * reports exactly those labels.
   */
  lemma SwappedPlotOneColumnKeyError(t: Table)
    requires Valid(t) && |t.names| == 1
    ensures var o := SwappedPlotOneColumn(t);
      && (o.Raised? && o.error.KeyError? <==> exists p: nat :: StrayRow(t, 0, p))
      && (o.Raised? && o.error.KeyError? ==>
            forall l :: l in o.error.missing <==> exists p: nat :: StrayRow(t, 0, p) && t.rows[p].rowLabel == l)
  {
    UnfoundLabels(t, 0);
    UnfoundIff(t, 0);
  }

  /**
   * Lines 40-41, one column, flipped: without a KeyError, the run ends with "No
   * numeric data available to plot." exactly when no cell is numeric.
   */
  lemma SwappedPlotOneColumnExit(t: Table)
    requires Valid(t) && |t.names| == 1
    ensures var o := SwappedPlotOneColumn(t);
      !(o.Raised? && o.error.KeyError?) ==>
        (o.Raised? <==> forall p :: 0 <= p < |t.rows| ==> !IsNumeric(CellAt(t, p, 0)))
    ensures var o := SwappedPlotOneColumn(t);
      o.Raised? ==> o.error.KeyError? || o.error == SystemExit(NO_NUMERIC_DATA)
  {
    NoneNumeric(t, 0);
  }

  /**
   * Lines 38-44, one column, flipped: a drawn chart puts the numbers on x and
   * their row LABELS on y, aligned and in row order; the column name labels x
   * and 'Index' labels y.
   */
  lemma SwappedPlotOneColumnPoints(t: Table) returns (ps: seq<nat>)
    requires Valid(t) && |t.names| == 1
    ensures Increasing(ps)
    ensures forall k :: 0 <= k < |ps| ==> ps[k] < |t.rows| && IsNumeric(CellAt(t, ps[k], 0))
    ensures forall p :: 0 <= p < |t.rows| && IsNumeric(CellAt(t, p, 0)) ==> p in ps
    ensures var o := SwappedPlotOneColumn(t);
      o.Drawn? ==>
        && o.chart.title == SWAPPED_TITLE && o.chart.xLabel == t.names[0] && o.chart.yLabel == "Index"
        && |o.chart.series| == 1 && o.chart.series[0].name == None
        && |o.chart.series[0].xs| == |ps| == |o.chart.series[0].ys|
        && forall k :: 0 <= k < |ps| ==>
             && o.chart.series[0].xs[k] == Number(NumberAt(t, ps[k], 0))
             && o.chart.series[0].ys[k] == Index(t.rows[ps[k]].rowLabel)
  {
    ps := NumericRows(t, 0);
    var labels := Labels(t, ps);
    if SwappedPlotOneColumn(t).Drawn? {
      var plotY := seq(|labels|, k requires 0 <= k < |labels| => Index(labels[k]));
      assert SwappedPlotOneColumn(t).chart.series == [Series(None, Numbers(t, 0, ps), plotY)];
      assert forall k :: 0 <= k < |ps| ==> plotY[k] == Index(t.rows[ps[k]].rowLabel);
    }
  }

  /** When no sheet row is empty, cleaning drops no row and every row's label is its position. */
  lemma {:induction false} LabelsArePositions(s: Sheet)
    requires Rectangular(s)
    requires forall i :: 0 <= i < |s.grid| ==> !AllMissing(s.grid[i])
    ensures |Clean(s).rows| == |s.grid|
    ensures forall k :: 0 <= k < |s.grid| ==> Clean(s).rows[k].rowLabel == k
  {
    var mask := seq(|s.grid|, i requires 0 <= i < |s.grid| => !AllMissing(s.grid[i]));
    WhereAll(mask);
  }

  /** The outcome with its axes exchanged: what --flip promises for one column. */
  function Transposed(o: Outcome): Outcome {
    match o
    case Drawn(c) =>
      Drawn(Chart(SWAPPED_TITLE, c.yLabel, c.xLabel,
                  seq(|c.series|, i requires 0 <= i < |c.series| => Series(c.series[i].name, c.series[i].ys, c.series[i].xs)),
                  c.legend, c.dateTicks))
    case _ => o
  }

  /** On a table whose labels are its positions, flipping one column exchanges the axes. */
  lemma OneColumnTableTransposes(t: Table)
    requires Valid(t) && |t.names| == 1
    requires forall k :: 0 <= k < |t.rows| ==> t.rows[k].rowLabel == k
    ensures SwappedPlotOneColumn(t) == Transposed(LinePlotOneColumn(t))
  {
    var ps := NumericRows(t, 0);
    var labels := Labels(t, ps);
    assert forall k :: 0 <= k < |labels| ==> labels[k] == ps[k] < |t.rows|;
    NoneUnfound(labels, |t.rows|);
    var ys := seq(|labels|, k requires 0 <= k < |labels| => Index(labels[k]));
    var xs := seq(|ps|, k requires 0 <= k < |ps| => Index(ps[k]));
    assert ys == xs;
  }

  /**
   * Lines 36-44 against 89-97: with one column and no empty sheet row, flipping
   * exchanges the two axes, their labels and the two lists, and fails the same way.
   */
  lemma OneColumnFlipTransposes(s: Sheet)
    requires Rectangular(s)
    requires forall i :: 0 <= i < |s.grid| ==> !AllMissing(s.grid[i])
    requires |Clean(s).names| == 1
    ensures Plot(s, true) == Transposed(Plot(s, false))
  {
    LabelsArePositions(s);
    OneColumnTableTransposes(Clean(s));
  }

  // ---------------------------------------------------------------------------
  // Properties: several columns, not flipped
  // ---------------------------------------------------------------------------

  /** Line 114: the series of column c is empty exactly when no row of c is in range. */
  lemma LineSeriesEmpty(t: Table, cat: Category, c: nat)
    requires Valid(t) && 1 <= c < |t.names|
    ensures |LineSeries(t, cat, c).xs| == 0 <==> forall p: nat :: !InRange(t, c, p)
  {
    NoneInRange(t, c);
  }

  /**
   * Lines 112-116: the series of column c carries the column name and pairs,
   * in row order, exactly the rows that are numeric in c and whose label is
   * below the row count with their category and their number; a numeric row
   * with a larger label is left out silently.
   */
  lemma LineSeriesPoints(t: Table, cat: Category, c: nat)
    requires Valid(t) && 1 <= c < |t.names|
    ensures var s := LineSeries(t, cat, c);
      && s.name == Some(t.names[c])
      && exists ps: seq<nat> ::
           && Increasing(ps)
           && (forall k :: 0 <= k < |ps| ==> InRange(t, c, ps[k]))
           && (forall p: nat :: InRange(t, c, p) ==> p in ps)
           && |s.xs| == |ps| == |s.ys|
           && forall k :: 0 <= k < |ps| ==>
                s.xs[k] == CategoryAt(t, cat, ps[k]) && s.ys[k] == Number(NumberAt(t, ps[k], c))
  {
    var ps := InRangeRows(t, c);
  }

  /**
   * Lines 99-131 with several columns: the run ends with "No numeric series
   * found to plot." exactly when no column after the first has a numeric cell
   * in a row whose label is below the row count; otherwise it draws with the
   * first column naming the horizontal axis, 'y' the vertical one, a legend,
   * and date ticks exactly when dates were detected.
   */
  lemma LinePlotColumnsOutcome(t: Table)
    requires Valid(t) && |t.names| >= 2
    ensures var o := LinePlotColumns(t);
      && (o.Raised? || o.Drawn?)
      && (o.Raised? <==> forall c: nat, p: nat :: 1 <= c < |t.names| ==> !InRange(t, c, p))
      && (o.Raised? ==> o.error == SystemExit(NO_NUMERIC_SERIES))
      && (o.Drawn? ==>
            && o.chart.title == LINE_TITLE && o.chart.xLabel == t.names[0] && o.chart.yLabel == "y"
            && o.chart.legend && (o.chart.dateTicks <==> DatesFlag(t)))
  {
    var cat := CategoryOf(t);
    var all := LineSeriesAll(t, cat);
    var cols := NonEmptyKeeps(all);
    if cols != [] {
      var c := cols[0];
      assert all[c - 1] == LineSeries(t, cat, c);
      LineSeriesEmpty(t, cat, c);
      var p: nat :| InRange(t, c, p);
    }
    forall c: nat, p: nat | 1 <= c < |t.names| && InRange(t, c, p)
      ensures cols != []
    {
      assert all[c - 1] == LineSeries(t, cat, c);
      LineSeriesEmpty(t, cat, c);
      assert c in cols;
    }
  }

  /**
   * Lines 111-118: a drawn chart holds, in column order, the series of exactly
   * the columns with a row in range; cs lists those columns.
   */
  lemma LinePlotColumnsSeries(t: Table) returns (cs: seq<nat>)
    requires Valid(t) && |t.names| >= 2 && LinePlotColumns(t).Drawn?
    ensures var chart := LinePlotColumns(t).chart;
      && Increasing(cs) && |cs| == |chart.series|
      && (forall k :: 0 <= k < |cs| ==>
            && 1 <= cs[k] < |t.names| && chart.series[k] == LineSeries(t, CategoryOf(t), cs[k])
            && exists p: nat :: InRange(t, cs[k], p))
      && (forall c: nat, p: nat :: 1 <= c < |t.names| && InRange(t, c, p) ==> c in cs)
  {
    var cat := CategoryOf(t);
    var all := LineSeriesAll(t, cat);
    cs := NonEmptyKeeps(all);
    assert LinePlotColumns(t).chart.series == NonEmpty(all);
    forall k | 0 <= k < |cs|
      ensures && 1 <= cs[k] < |t.names| && LinePlotColumns(t).chart.series[k] == LineSeries(t, cat, cs[k])
              && exists p: nat :: InRange(t, cs[k], p)
    {
      assert all[cs[k] - 1] == LineSeries(t, cat, cs[k]);
      LineSeriesEmpty(t, cat, cs[k]);
    }
    forall c: nat, p: nat | 1 <= c < |t.names| && InRange(t, c, p)
      ensures c in cs
    {
      assert all[c - 1] == LineSeries(t, cat, c);
      LineSeriesEmpty(t, cat, c);
    }
  }

  // ---------------------------------------------------------------------------
  // Properties: several columns, flipped
  // ---------------------------------------------------------------------------

  /**
   * Lines 62-69 with use_index true: column c raises KeyError exactly when one
   * of its numeric rows is stray, reporting exactly the stray labels.
   */
  lemma SwappedSeriesByLabelFails(t: Table, c: nat)
    requires Valid(t) && 1 <= c < |t.names|
    ensures var r := SwappedSeries(t, Some(true), c);
      && (r.Failure? <==> exists p: nat :: StrayRow(t, c, p))
      && (r.Failure? ==> r.error.KeyError?)
      && (r.Failure? ==>
            forall l :: l in r.error.missing <==> exists p: nat :: StrayRow(t, c, p) && t.rows[p].rowLabel == l)
  {
    UnfoundLabels(t, c);
    UnfoundIff(t, c);
  }

  /**
   * Lines 62-69 with use_index true and no KeyError: the series of column c
   * pairs, in row order, every numeric value with its row's label.
   */
  lemma SwappedSeriesByLabelPoints(t: Table, c: nat) returns (ps: seq<nat>)
    requires Valid(t) && 1 <= c < |t.names|
    ensures Increasing(ps)
    ensures forall k :: 0 <= k < |ps| ==> ps[k] < |t.rows| && IsNumeric(CellAt(t, ps[k], c))
    ensures forall p :: 0 <= p < |t.rows| && IsNumeric(CellAt(t, p, c)) ==> p in ps
    ensures var r := SwappedSeries(t, Some(true), c);
      r.Success? ==>
        && r.value.name == Some(t.names[c])
        && |r.value.xs| == |ps| == |r.value.ys|
        && forall k :: 0 <= k < |ps| ==>
             r.value.xs[k] == Number(NumberAt(t, ps[k], c)) && r.value.ys[k] == Index(t.rows[ps[k]].rowLabel)
  {
    ps := NumericRows(t, c);
    var labels := Labels(t, ps);
    if |ps| > 0 && SwappedSeries(t, Some(true), c).Success? {
      var ys := seq(|labels|, k requires 0 <= k < |labels| => Index(labels[k]));
      assert SwappedSeries(t, Some(true), c).value == Series(Some(t.names[c]), Numbers(t, c, ps), ys);
      assert forall k :: 0 <= k < |ps| ==> ys[k] == Index(t.rows[ps[k]].rowLabel);
    }
  }

  /**
   * Lines 64-69 with use_index false: column c never raises; its series pairs,
   * in row order, the rows numeric in both c and the first column, with the
   * value of c on x and the first column's number on y.
   */
  lemma SwappedSeriesBothNumeric(t: Table, c: nat)
    requires Valid(t) && 1 <= c < |t.names|
    ensures var r := SwappedSeries(t, Some(false), c);
      && r.Success? && r.value.name == Some(t.names[c])
      && exists ps: seq<nat> ::
           && Increasing(ps)
           && (forall k :: 0 <= k < |ps| ==> BothNumeric(t, c, ps[k]))
           && (forall p: nat :: BothNumeric(t, c, p) ==> p in ps)
           && |r.value.xs| == |ps| == |r.value.ys|
           && forall k :: 0 <= k < |ps| ==>
                r.value.xs[k] == Number(NumberAt(t, ps[k], c)) && r.value.ys[k] == Number(NumberAt(t, ps[k], 0))
  {
    var ps := BothNumericRows(t, c);
  }

  /**
   * Lines 49-50 and 62: when the first column holds a date and there are
   * several columns, use_index was never assigned and the flipped run ends
   * with UnboundLocalError at the first series.
   */
  lemma SwappedWithDatesFails(t: Table)
    requires Valid(t) && |t.names| >= 2 && DatesFlag(t)
    ensures SwappedPlotColumns(t) == Raised(UnboundLocalError("use_index"))
  {
    var all := SwappedSeriesAll(t, None);
    CollectFirstFailure(all);
    assert all[0].Failure?;
  }

  /**
   * With use_index true every column that raises raises KeyError; with
   * use_index false no column raises.
   */
  lemma SwappedFailures(t: Table, u: bool)
    requires Valid(t) && |t.names| >= 2
    ensures forall c :: 1 <= c < |t.names| && SwappedSeries(t, Some(u), c).Failure? ==>
      (u && SwappedSeries(t, Some(u), c).error.KeyError? && exists p: nat :: StrayRow(t, c, p))
  {
    forall c | 1 <= c < |t.names| && SwappedSeries(t, Some(u), c).Failure?
      ensures u && SwappedSeries(t, Some(u), c).error.KeyError? && exists p: nat :: StrayRow(t, c, p)
    {
      if u {
        SwappedSeriesByLabelFails(t, c);
      } else {
        SwappedSeriesBothNumeric(t, c);
      }
    }
  }

  /**
   * Lines 45-70 with several columns and no date: the run raises KeyError
   * exactly when the first column holds no number and some later column has a
   * stray row.
   */
  lemma SwappedPlotColumnsKeyError(t: Table)
    requires Valid(t) && |t.names| >= 2 && !DatesFlag(t)
    ensures var o := SwappedPlotColumns(t);
      o.Raised? && o.error.KeyError? <==>
        FirstColumnHasNoNumber(t) && exists c: nat, p: nat :: 1 <= c < |t.names| && StrayRow(t, c, p)
  {
    var u := FirstColumnHasNoNumber(t);
    var all := SwappedSeriesAll(t, Some(u));
    assert UseIndex(t) == Some(u);
    CollectFirstFailure(all);
    SwappedFailures(t, u);
    if Collect(all).Failure? {
      var i :| 0 <= i < |all| && all[i] == Failure(Collect(all).error) && forall j :: 0 <= j < i ==> all[j].Success?;
      assert all[i] == SwappedSeries(t, Some(u), i + 1);
      assert SwappedPlotColumns(t) == Raised(Collect(all).error);
    } else {
      assert !(SwappedPlotColumns(t).Raised? && SwappedPlotColumns(t).error.KeyError?);
      forall c: nat, p: nat | 1 <= c < |t.names| && StrayRow(t, c, p)
        ensures !u
      {
        assert all[c - 1] == SwappedSeries(t, Some(u), c);
        if u {
          SwappedSeriesByLabelFails(t, c);
        }
      }
    }
  }

  /**
   * Lines 45-84 with several columns and no date: the run raises nothing but
   * KeyError and "No numeric series found to plot."; the latter exactly when
   * no KeyError is raised and every column is skipped; otherwise it draws with
   * 'y' naming the horizontal axis, the first column the vertical one, a
   * legend, and no date ticks.
   */
  lemma SwappedPlotColumnsOutcome(t: Table)
    requires Valid(t) && |t.names| >= 2 && !DatesFlag(t)
    ensures var o := SwappedPlotColumns(t);
      var u := Some(FirstColumnHasNoNumber(t));
      && (o.Raised? ==> o.error.KeyError? || o.error == SystemExit(NO_NUMERIC_SERIES))
      && (!(o.Raised? && o.error.KeyError?) ==>
            (o.Raised? <==> forall c :: 1 <= c < |t.names| ==> Skipped(SwappedSeries(t, u, c))))
      && (o.Drawn? ==>
            && o.chart.title == SWAPPED_TITLE && o.chart.xLabel == "y" && o.chart.yLabel == t.names[0]
            && o.chart.legend && !o.chart.dateTicks)
  {
    var u := FirstColumnHasNoNumber(t);
    var all := SwappedSeriesAll(t, Some(u));
    if Collect(all).Failure? {
      CollectFirstFailure(all);
      SwappedFailures(t, u);
    } else {
      var cols := CollectKeeps(all);
      if cols != [] {
        assert all[cols[0] - 1] == SwappedSeries(t, Some(u), cols[0]);
      }
      forall c | 1 <= c < |t.names| && !Skipped(SwappedSeries(t, Some(u), c))
        ensures cols != []
      {
        assert all[c - 1] == SwappedSeries(t, Some(u), c);
        assert c in cols;
      }
    }
  }

  /**
   * Lines 59-71: a drawn flipped chart holds, in column order, the series of
   * exactly the columns not skipped; cs lists those columns.
   */
  lemma SwappedPlotColumnsSeries(t: Table) returns (cs: seq<nat>)
    requires Valid(t) && |t.names| >= 2 && SwappedPlotColumns(t).Drawn?
    ensures var chart := SwappedPlotColumns(t).chart;
      && Increasing(cs) && |cs| == |chart.series|
      && (forall k :: 0 <= k < |cs| ==>
            && 1 <= cs[k] < |t.names| && SwappedSeries(t, UseIndex(t), cs[k]) == Success(chart.series[k])
            && !Skipped(SwappedSeries(t, UseIndex(t), cs[k])))
      && (forall c :: 1 <= c < |t.names| && !Skipped(SwappedSeries(t, UseIndex(t), c)) ==> c in cs)
  {
    var u := UseIndex(t);
    var all := SwappedSeriesAll(t, u);
    cs := CollectKeeps(all);
    forall c | 1 <= c < |t.names| && !Skipped(SwappedSeries(t, u, c))
      ensures c in cs
    {
      assert all[c - 1] == SwappedSeries(t, u, c);
    }
  }

  /**
   * When no sheet row is empty every row's label is its position, so a flipped
   * run never raises KeyError: the error comes only from rows that cleaning dropped.
   */
  lemma FlipKeyErrorNeedsDroppedRow(s: Sheet)
    requires Rectangular(s) && forall i :: 0 <= i < |s.grid| ==> !AllMissing(s.grid[i])
    ensures !(Plot(s, true).Raised? && Plot(s, true).error.KeyError?)
  {
    var t := Clean(s);
    LabelsArePositions(s);
    assert forall c: nat, p: nat :: c < |t.names| ==> !StrayRow(t, c, p);
    if |t.rows| > 0 && |t.names| == 1 {
      SwappedPlotOneColumnKeyError(t);
    } else if |t.rows| > 0 && |t.names| >= 2 {
      if DatesFlag(t) {
        SwappedWithDatesFails(t);
      } else {
        SwappedPlotColumnsKeyError(t);
      }
    }
  }
}
