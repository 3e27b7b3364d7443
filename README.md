# Trial-division primes and the point selection of an Excel line chart

The project models two small programs.

- `prime.py`. `is_prime` rejects numbers below 2. It then tries every divisor from 2 up to the
  integer part of the square root and stops at the first one that divides. A comprehension then
  collects the primes of 1..200.
  - Module `Prime` models `is_prime` as a method with a `while` loop.
  - The bound `int(number ** 0.5)` becomes `Isqrt`, the largest `r` with `r * r <= n`.
  - The comprehension becomes a filter over a half-open range.
  - The method is proved equal to "no divisor in 2..n-1", through a lemma showing that the
    square-root cut-off is enough.
- `make_excel_chart.py`, function `plot_file`. It cleans a spreadsheet and decides what
  `matplotlib` is asked to draw.
  - Module `ExcelTable` models the sheet as rows of abstract cells. Each present cell carries the
    results of `pd.to_numeric` and `pd.to_datetime`. The module also models the two `dropna` calls
    that remove all-missing rows and then all-missing columns. Rows keep their original pandas
    labels through that drop.
  - Module `ExcelChart` models the four branches: flipped or not, one column or several. For each
    branch it states which (value, category) pairs each series holds and in what order, which axis
    labels, legend and date ticks are chosen, and which exception ends the run.
  - The two per-column loops are methods with `while` loops and the `any_plotted` flag, proved
    against functions over the list of per-column results.
  - `plot_file` is a method proved equal to the function `Plot`.

The model keeps the program's quirks as behaviour:

- A row dropped at line 14 leaves its neighbours' labels unchanged.
- The one-column flipped branch (line 39) and the flipped branch with `use_index` (line 69) look
  those labels up with `.loc` in a `range` series. Both raise `KeyError` when a numeric row's
  label is not below the row count.
- The unflipped several-column branch (line 113) silently drops such rows instead.
- The one-column unflipped branch (line 92) uses positions, not labels.
- When the first column holds a date, the flipped several-column branch reads `use_index` at
  line 62, but only line 53 ever assigns it. That run ends with `UnboundLocalError`.
- `dates_flag` follows line 27: one first-column cell that parses as a date is enough.

## Model

| member | source | states |
|---|---|---|
| `Prime.Isqrt` | prime.py:4 | the bound `int(number ** 0.5)` as an exact integer: `r * r <= n < (r + 1) * (r + 1)` |
| `Prime.IsqrtIsLargest` | prime.py:4 | every `i` with `i * i <= n` is at most `Isqrt(n)`, so the loop tries every such candidate |
| `Prime.IsqrtBounds` | prime.py:4 | for `n >= 2` the last candidate lies in `1 .. n-1`, so the range never reaches `n` itself |
| `Prime.FactorBelowRoot` | prime.py:4-6 | of two factors `d * e == n`, one is at most `Isqrt(n)` |
| `Prime.SqrtCutoff` | prime.py:4-7 | for `n >= 2`, "no divisor in `2 .. n-1`" holds exactly when no candidate in `2 .. Isqrt(n)` divides `n` |
| `Prime.IsPrime` | prime.py:1-7 | false below 2; false whenever some `i >= 2` with `i * i <= n` divides `n`; true exactly when `n >= 2` and no candidate up to `Isqrt(n)` divides it; and so equal to "n >= 2 with no divisor in `2 .. n-1`" |
| `Prime.IsPrimeNumber` | prime.py:1-7 | reference definition ("`n >= 2` with no divisor in `2 .. n-1`"), no contract of its own; related to the loop by `SqrtCutoff` and `IsPrime` |
| `Prime.PrimesIn` | prime.py:9 | the filtered range holds exactly the primes `k` with `lo <= k < hi`, strictly increasing |
| `Prime.Primes` | prime.py:9 | `primes` holds exactly the numbers `k` in 1..200 that are prime |
| `Prime.Isqrt199` | prime.py:4 | the loop bound for 199 is 14 |
| `Prime.Prime199` | prime.py:9 | 199 is prime |
| `Prime.PrimesInStartsWithTwo` | prime.py:9 | a range enclosing 2 yields 2 first |
| `Prime.PrimesFacts` | prime.py:9 | `primes` holds exactly the primes in 1..200, excludes 1, lies in 1..200, is strictly increasing, starts with 2 and ends with 199 |
| `ExcelTable.Where` | make_excel_chart.py:14 | the positions a boolean mask keeps, strictly increasing, each marked and every marked position present |
| `ExcelTable.Any` | make_excel_chart.py:27 | `.any()` is true exactly when some entry is true |
| `ExcelTable.WhereAll` | make_excel_chart.py:14 | a mask with every entry true keeps every position, in order |
| `ExcelTable.DropEmptyRows` | make_excel_chart.py:14 | `dropna(how='all', axis=0)`: every kept row is a non-empty sheet row with that row's label and cells, every non-empty sheet row is kept, labels strictly increase, names unchanged |
| `ExcelTable.KeptColumns` | make_excel_chart.py:15 | the columns with some present cell, all of them and in order |
| `ExcelTable.DropEmptyColumns` | make_excel_chart.py:15 | `dropna(how='all', axis=1)`: exactly the kept columns' names and cells, row count and labels unchanged |
| `ExcelTable.Clean` | make_excel_chart.py:14-15 | the cleaned table is rectangular and its row labels strictly increase |
| `ExcelTable.RowDropKeepsColumnValues` | make_excel_chart.py:14-15 | dropping empty rows first does not change which columns have a value |
| `ExcelTable.CleanKeepsRows` | make_excel_chart.py:14-15 | after cleaning, the rows are exactly the non-empty sheet rows, in sheet order, each with its own label |
| `ExcelTable.CleanKeepsColumns` | make_excel_chart.py:14-15 | after cleaning, the columns are exactly the sheet columns with a present cell, in sheet order, with their names, and each cell is the sheet cell it came from |
| `ExcelTable.CleanLeavesNoEmptyRow` | make_excel_chart.py:14-15 | no row of the cleaned table is all-missing |
| `ExcelTable.CleanLeavesNoEmptyColumn` | make_excel_chart.py:14-15 | no column of the cleaned table is all-missing |
| `ExcelTable.CleanEmptyIff` | make_excel_chart.py:14-18 | `df.empty` after cleaning exactly when every sheet row is all-missing, and a cleaned table with rows has columns |
| `ExcelChart.NumericRows` | make_excel_chart.py:36-38 | `dropna()` keeps exactly the numeric rows of a column, in row order |
| `ExcelChart.NoneNumeric` | make_excel_chart.py:38-41 | that selection is empty exactly when no cell of the column is numeric |
| `ExcelChart.InRangeRows` | make_excel_chart.py:113 | the intersection with `pd.Index(range(len(df)))` keeps exactly the numeric rows whose label is below the row count, in row order |
| `ExcelChart.NoneInRange` | make_excel_chart.py:113-115 | that selection is empty exactly when no such row exists |
| `ExcelChart.BothNumericRows` | make_excel_chart.py:65 | the intersection with `x_vals.dropna().index` keeps exactly the rows numeric in both the column and the first column, in row order |
| `ExcelChart.DatesFlag` | make_excel_chart.py:25-29 | `dates_flag` is true exactly when some first-column cell parses as a date |
| `ExcelChart.FirstColumnHasNoNumber` | make_excel_chart.py:52-53 | `use_index` is true exactly when no first-column cell is numeric |
| `ExcelChart.Unfound` | make_excel_chart.py:39 | the labels `.loc` cannot find in a `range(n)` index are exactly the requested labels `>= n` |
| `ExcelChart.NoneUnfound` | make_excel_chart.py:39 | `.loc` finds every label exactly when all of them are below `n` |
| `ExcelChart.NonEmptyKeeps` | make_excel_chart.py:111-117 | skipping empty series with `continue` keeps exactly the non-empty series, in column order |
| `ExcelChart.CollectFirstFailure` | make_excel_chart.py:60-69 | the loop raises exactly when some column raises, and with the error of the first such column |
| `ExcelChart.CollectKeeps` | make_excel_chart.py:60-71 | when no column raises, the loop plots exactly the non-empty series, in column order |
| `ExcelChart.CollectFailurePersists` | make_excel_chart.py:60-69 | once a column has raised, the later columns change nothing |
| `ExcelChart.DrawLineSeries` | make_excel_chart.py:110-120 | the loop's result is the non-empty series in column order, or "No numeric series found to plot." when there is none |
| `ExcelChart.DrawSwappedSeries` | make_excel_chart.py:59-73 | the loop's result is the first column error, else the non-empty series in column order, else "No numeric series found to plot." |
| `ExcelChart.CategoryAt` | make_excel_chart.py:101-116 | `x_vals[i]` for one row: the parsed date or the coerced number when the chosen axis has a value there, NaT or NaN exactly when it has none; with `range(len(df))` the row's own label |
| `ExcelChart.CategoryOf` | make_excel_chart.py:101-108 | the axis chosen for `x_vals`: dates exactly when some first-column cell is a date, `range(len(df))` (so each row's label) exactly when there is no date and no first-column number |
| `ExcelChart.UseIndex` | make_excel_chart.py:49-53 | `use_index` is unassigned exactly when a date was detected, and true exactly when it is assigned and no first-column cell is numeric |
| `ExcelChart.LinePlotOneColumn` | make_excel_chart.py:88-97 | one column, not flipped: the run draws or raises, only "No numeric data available to plot."; a drawn chart has the line title, one series of aligned non-empty points, no legend and no date ticks |
| `ExcelChart.SwappedPlotOneColumn` | make_excel_chart.py:34-44 | one column, flipped: the run draws or raises, only a `KeyError` naming some label or "No numeric data available to plot."; a drawn chart has the swapped title, one series of aligned non-empty points, no legend and no date ticks |
| `ExcelChart.NonEmpty` | make_excel_chart.py:110-118 | no contract; characterised by `NonEmptyKeeps` and `DrawLineSeries` |
| `ExcelChart.Collect` | make_excel_chart.py:60-71 | no contract; characterised by `CollectFirstFailure`, `CollectKeeps`, `CollectFailurePersists` and `DrawSwappedSeries` |
| `ExcelChart.CheckAnyPlotted` | make_excel_chart.py:72-73 | `if not any_plotted`: a success passes through only when it holds some series, an error passes through unchanged, and an empty success becomes "No numeric series found to plot." |
| `ExcelChart.LineSeries` | make_excel_chart.py:112-116 | a column's series is labelled with the column name and its x and y lists have the same length |
| `ExcelChart.LinePlotColumns` | make_excel_chart.py:99-131 | several columns, not flipped: the run draws or raises, only "No numeric series found to plot."; a drawn chart has the line title, some series and a legend |
| `ExcelChart.SwappedSeries` | make_excel_chart.py:61-69 | a column fails with `UnboundLocalError` exactly when `use_index` is unassigned; otherwise it fails only with `use_index` set, with a `KeyError` naming some label; a series is labelled with the column name and its lists are aligned |
| `ExcelChart.SwappedPlotColumns` | make_excel_chart.py:45-84 | several columns, flipped: the run draws or raises; a drawn chart has the swapped title, some series and a legend |
| `ExcelChart.Plot` | make_excel_chart.py:7-139 | the whole run: the only notice is "No data found in the Excel file."; a drawn chart carries the title chosen by `flip` (lines 33 and 87) and some series; an unflipped run can only raise `SystemExit` |
| `ExcelChart.PlotFile` | make_excel_chart.py:7-131 | the step-by-step run (cleaning, early return, date detection, `use_index`, the loops) ends exactly as `Plot` says |
| `ExcelChart.NoticeIffSheetEmpty` | make_excel_chart.py:14-20 | the run prints "No data found in the Excel file." and returns normally exactly when every sheet row is all-missing |
| `ExcelChart.LinePlotOneColumnExit` | make_excel_chart.py:90-94 | one column, not flipped: the run either draws or raises, and raises "No numeric data available to plot." exactly when no cell is numeric |
| `ExcelChart.LinePlotOneColumnPoints` | make_excel_chart.py:88-97 | one column, not flipped: x holds the positions of the numeric rows and y their values, aligned and in row order; 'Index' labels x and the column name labels y |
| `ExcelChart.UnfoundLabels` | make_excel_chart.py:39 | the labels `.loc` misses are exactly the labels of the numeric rows whose label is not below the row count |
| `ExcelChart.UnfoundIff` | make_excel_chart.py:39 | `.loc` misses some label exactly when such a row exists |
| `ExcelChart.SwappedPlotOneColumnKeyError` | make_excel_chart.py:36-39 | one column, flipped: the run raises `KeyError` exactly when a numeric row's label is not below the row count, naming exactly those labels |
| `ExcelChart.SwappedPlotOneColumnExit` | make_excel_chart.py:38-41 | one column, flipped: the only errors are that `KeyError` and "No numeric data available to plot.", and apart from `KeyError` the run raises exactly when no cell is numeric |
| `ExcelChart.SwappedPlotOneColumnPoints` | make_excel_chart.py:36-44 | one column, flipped: x holds the numeric values and y their row labels, aligned and in row order; the column name labels x and 'Index' labels y |
| `ExcelChart.LabelsArePositions` | make_excel_chart.py:14 | when no sheet row is empty, cleaning keeps every row and each row's label is its position |
| `ExcelChart.OneColumnTableTransposes` | make_excel_chart.py:34-97 | for a one-column table whose labels are its positions, the flipped outcome is the unflipped one with the axes swapped |
| `ExcelChart.OneColumnFlipTransposes` | make_excel_chart.py:31-97 | for a sheet without empty rows that cleans to one column, flipping only swaps the axes |
| `ExcelChart.LineSeriesEmpty` | make_excel_chart.py:113-115 | a column is skipped exactly when it has no numeric row with a label below the row count |
| `ExcelChart.LineSeriesPoints` | make_excel_chart.py:111-116 | a column's series, named after the column, pairs each such row's `x_vals` entry (date, number, NaT, NaN or label) with its value, in row order |
| `ExcelChart.LinePlotColumnsOutcome` | make_excel_chart.py:99-131 | several columns, not flipped: the run either draws or raises "No numeric series found to plot.", and raises exactly when no column has such a row; a drawn chart has the first column's name on x, 'y' on y, a legend, and date ticks exactly when `dates_flag` is set |
| `ExcelChart.LinePlotColumnsSeries` | make_excel_chart.py:110-118 | a drawn chart holds, in column order, the series of exactly the columns with a row in range: each plotted series is such a column's, and each such column is plotted |
| `ExcelChart.SwappedSeriesByLabelFails` | make_excel_chart.py:62-69 | with `use_index`, a column raises exactly when one of its numeric rows has a label not below the row count; the error is `KeyError` and names exactly those labels |
| `ExcelChart.SwappedSeriesByLabelPoints` | make_excel_chart.py:62-69 | with `use_index`, a column's series pairs each numeric value with its row label, aligned and in row order |
| `ExcelChart.SwappedSeriesBothNumeric` | make_excel_chart.py:64-69 | without `use_index`, a column never raises and pairs its value with the first column's number on exactly the rows where both are numeric, in row order |
| `ExcelChart.SwappedWithDatesFails` | make_excel_chart.py:49-62 | flipped, several columns, a date in the first column: the run ends with `UnboundLocalError` for `use_index` |
| `ExcelChart.SwappedFailures` | make_excel_chart.py:61-69 | without dates, a column can only raise `KeyError`, only with `use_index`, and only when it has such a row |
| `ExcelChart.SwappedPlotColumnsKeyError` | make_excel_chart.py:45-70 | flipped, several columns, no date: the run raises `KeyError` exactly when the first column holds no number and some later column has a numeric row whose label is not below the row count |
| `ExcelChart.SwappedPlotColumnsOutcome` | make_excel_chart.py:45-84 | flipped, several columns, no date: the only errors are `KeyError` and "No numeric series found to plot."; the latter exactly when every column is skipped; a drawn chart has 'y' on x, the first column's name on y, a legend and no date ticks |
| `ExcelChart.SwappedPlotColumnsSeries` | make_excel_chart.py:59-71 | a drawn flipped chart holds, in column order, the series of exactly the columns not skipped: each plotted series comes from a column that was not skipped, and each such column is plotted |
| `ExcelChart.FlipKeyErrorNeedsDroppedRow` | make_excel_chart.py:14-69 | when no sheet row is empty, a flipped run never raises `KeyError`; that error needs a row dropped by the cleaning |

## Left out

- `graph.py` is not part of this model. It evaluates user text, samples floats and reads
  interactive input.
- `pd.read_excel`, `pd.to_numeric` and `pd.to_datetime` are not modelled. The sheet is an input.
  Each present cell carries an optional number (the coerced numeric value) and an optional
  timestamp (the parsed date). `infer_datetime_format` therefore has no effect in the model.
- Numbers are exact reals and timestamps are integers. Floating-point rounding is not modelled.
- Line 11 (`df.columns.map(str)`) is taken as done: column names are strings from the start.
- `df[col]` looks a column up by name. The model looks it up by position and assumes the column
  names are still distinct after line 11's `df.columns.map(str)`. Header cells such as `1` and
  `"1"` become the same name there; `df[col]` then yields a frame with two columns and
  `pd.to_numeric` raises `TypeError`. That collision is not modelled.
- All `matplotlib` calls are left out: `plot`, `xlabel`/`ylabel`, `title`, `legend`, `grid`,
  `tight_layout`, `savefig`, `show`, and the date locator and formatter of lines 78-84 and
  124-131. The model returns what they would be given: the series, the axis labels, the title,
  whether a legend is drawn and whether date ticks are set.
- The printed notice of line 19 is the `Notice` outcome. The print at line 138 and the print
  at prime.py:10 are left out.
- Argument parsing (make_excel_chart.py:142-152) is left out. `flip` is a parameter, and
  `save_img` only affects output.
- `Prime.IsPrime`: `int(number ** 0.5)` is modelled as the exact integer square root. The float
  computation agrees with it on 1..200, the range the module uses. For very large numbers the
  float may round differently. For `number >= 2**1024` the conversion to float raises
  `OverflowError`; the model returns an answer there instead, so that exception is not captured.
- The order of `Index.intersection` (lines 65 and 113) is taken to be the left index's order.
  Both sides are in row order here.
