# Love Sandwiches data automation: a Dafny model of its pipeline

`run.py` asks a market operator for the day's sandwich sales as one line
of six comma-separated integers. It appends them to the *sales*
worksheet, then computes the *surplus* (the last *stock* row minus the
sales) and appends it. It then computes a new *stock* row from the
rounded mean of the last five entries of each sales column, appends it,
and labels that forecast with the stock worksheet's headings.

This project models that validate → compute → present pipeline. The
worksheets are plain values: a `Grid` is a sequence of rows of cell
texts. The Python exceptions the program does not catch (`IndexError`,
`ValueError`, `ZeroDivisionError`) are values of `Values.Error` inside a
`Result`.

- `IntText`: Python's `int()` on a string (`ParseInt`) and `str()` on an
  integer (`Show`), with `int(str(n)) == n`. Also the list comprehension
  `[int(c) for c in cells]` (`ParseCells`), which stops at the first bad
  cell.
- `CommaSplit`: `str.split(",")` and its inverse, `",".join`.
- `SalesInput`: `validate_data` (`Validate`, `ValidateData`), and the
  treatment of one typed line in `get_sales_data` and `main`
  (`SalesFromLine`).
- `SurplusCalc`: `calculate_surplus_data`. `Surplus` is the reference
  definition; `CalculateSurplusData` is the source's loop, proved equal
  to it.
- `SalesWindow`: `get_last_5_entries_sales`. `LastFive` is the reference
  definition; `GetLast5EntriesSales` is the loop. `ColValues` stands in
  for `col_values`, which includes the heading cell.
- `StockForecast`: `calculate_stock_data`. `RoundHalfEven` is Python's
  `round` of an exact quotient, `ColumnForecast` handles one column,
  `Forecast` the row, and `CalculateStockData` is the loop.
- `StockPresenter`: `get_stock_values` as a map built from the `zip` of
  headings and forecast.
- `Pipeline`: `main`'s order of reads and appends. `Run` is a function
  over `Sheets`; `Spreadsheet` is a class whose three worksheet fields
  `UpdateWorksheet` and `RunMain` change in place, proved equal to `Run`.

Three consequences of the code that its prompts and docstrings do not
mention, and which the model keeps:

- Sales figures may be negative: `validate_data` accepts `int("-5")`.
- Stock and sales rows of different lengths raise no error: `zip` in
  `calculate_surplus_data` stops at the shorter row.
- `get_stock_values` drops extra forecast values as well as extra
  headings, again because `zip` stops at the shorter list.

## Model

| member | source | states |
|---|---|---|
| `IntText.ParseInt` | run.py:41 | defining model of `int()` on one token: optional ASCII white space, an optional sign, then decimal digits; its meaning is stated by `ParseShow`, `ParsePadded`, `BlankIsNotInt` and `FirstUnparsable` |
| `IntText.Show` | run.py:115 | defining model of `str()` on an integer: a minus sign for negatives, then the decimal digits; its meaning is stated by `ParseShow` and `ShowCharacters` |
| `IntText.ParseShow` | run.py:115-118 | `int(str(v)) == v` for every integer, so the presenter's string round trip leaves each quantity unchanged |
| `IntText.ParsePadded` | run.py:41 | white space before and after a token does not change what `int()` reads |
| `IntText.BlankIsNotInt` | run.py:41 | an empty or blank token is rejected by `int()` |
| `IntText.ShowCharacters` | run.py:74 | a number written to a cell shows only a minus sign and digits, so it contains neither a comma nor white space |
| `IntText.FirstUnparsable` | run.py:41 | the position of the first token `int()` rejects: every earlier token parses and that one does not |
| `IntText.ParseCells` | run.py:41 | the comprehension succeeds exactly when every cell parses, gives the values in order, and otherwise raises the ValueError of the first bad cell |
| `IntText.ParseRender` | run.py:74 | a row of numbers the program appended is read back as the same numbers |
| `CommaSplit.Split` | run.py:27 | defining model of `str.split(",")`; its meaning is stated by `SplitCount`, `SplitPiecesFree`, `JoinSplit`, `SplitJoin` and `SplitTrailing` |
| `CommaSplit.SplitCount` | run.py:27 | `split(",")` gives one piece more than the line has commas |
| `CommaSplit.SplitPiecesFree` | run.py:27 | no piece contains a comma |
| `CommaSplit.JoinSplit` | run.py:27 | joining the pieces with commas gives back the line |
| `CommaSplit.SplitJoin` | run.py:27 | splitting a comma-join of comma-free pieces gives back those pieces |
| `CommaSplit.SplitTrailing` | run.py:27 | a trailing comma adds one empty last piece |
| `SalesInput.Validate` | run.py:40-48 | accepted exactly for six integer tokens; a non-integer token is reported first (naming the first bad token), and the count is reported only when every token is an integer |
| `SalesInput.ValidateData` | run.py:36-50 | true exactly when the list has six tokens and each parses as an integer |
| `SalesInput.SalesFromLine` | run.py:25-34 | defining model of one typed line: split at commas, kept only when `validate_data` accepts it, then converted with `int` as `main` does at run.py:128; its meaning is stated by `SalesLineAccepted`, `SalesLineRoundTrip` and the `*Rejected` lemmas |
| `SalesInput.SalesLineAccepted` | run.py:27-34 | a line is accepted iff it has exactly five commas and every piece parses; the record is the six parsed pieces in input order |
| `SalesInput.SalesLineRoundTrip` | run.py:27-34 | six integers typed with commas between them are accepted and come back unchanged and in order |
| `SalesInput.EmptyLineRejected` | run.py:27-30 | an empty line is one empty token and is rejected as not an integer |
| `SalesInput.TrailingCommaRejected` | run.py:27-30 | any line ending in a comma is rejected |
| `SalesInput.WrongCountRejected` | run.py:42-45 | a line without exactly five commas is rejected; if all its tokens are integers, the reason is the wrong count, with the count stated |
| `SurplusCalc.Surplus` | run.py:57-64 | defining model of `calculate_surplus_data` on the stock grid and the sales row; its meaning is stated by `SurplusMeaning`, `SurplusIs`, `SurplusFailsAt` and `SurplusIgnoresUnpairedCells`, and `CalculateSurplusData` is proved equal to it |
| `SurplusCalc.CalculateSurplusData` | run.py:52-66 | the loop's result equals the reference `Surplus` for every stock grid and sales row |
| `SurplusCalc.SurplusMeaning` | run.py:57-64 | an empty stock worksheet raises IndexError; otherwise the result is ok iff the paired cells of the last row parse; its length is min(last row, sales) and entry i is stock[i] − sales[i] |
| `SurplusCalc.SurplusIs` | run.py:60-64 | any row of differences that matches every paired cell of the last stock row is the surplus |
| `SurplusCalc.SurplusFailsAt` | run.py:62-63 | the first paired stock cell that does not parse is the ValueError raised |
| `SurplusCalc.SurplusIgnoresUnpairedCells` | run.py:62 | stock cells beyond the length of the sales row are never read |
| `SurplusCalc.SurplusOfRendered` | run.py:58-63 | against a stock row the program wrote, the surplus is the plain positional difference |
| `SurplusCalc.SurplusExample` | run.py:62-63 | stock 10,20,…,60 minus sales 1,…,6 gives 9,18,27,36,45,54 |
| `SalesWindow.ColValues` | run.py:85 | a stand-in definition for the foreign `col_values(col)`: one cell per row, the heading row included, `""` where a row is too short; not a proved property |
| `SalesWindow.LastFive` | run.py:83-88 | defining model of `get_last_5_entries_sales`: for columns 1 to 6, the last five cells of `col_values`; its meaning is stated by `WindowContents`, `WindowEndsWithLastRow` and `ShortHistoryKeepsHeading`, and `GetLast5EntriesSales` is proved equal to it |
| `SalesWindow.GetLast5EntriesSales` | run.py:77-88 | the result has six columns in order 1..6, and column k is the last min(5, n) cells of `col_values(k)` |
| `SalesWindow.WindowContents` | run.py:85-86 | window k has min(5, rows) cells, and they are the cells of column k in the last rows, in row order |
| `SalesWindow.WindowEndsWithLastRow` | run.py:85-86 | every window ends with the cell of the worksheet's last row |
| `SalesWindow.ShortHistoryKeepsHeading` | run.py:85-86 | with five rows or fewer, every window starts with its column's heading cell |
| `StockForecast.RoundHalfEven` | run.py:100 | the result is within half a step of num/den, and is even on an exact tie |
| `StockForecast.RoundHalfEvenUnique` | run.py:100 | only one integer satisfies that rounding rule |
| `StockForecast.RoundingExamples` | run.py:100 | 10.5 rounds to 10, 11.5 to 12, −10.5 to −10, and 11.0 to 11 |
| `StockForecast.ColumnForecast` | run.py:98-100 | defining model of one pass of the loop body: parse the column, divide the sum by the count, round half to even; its meaning is stated by `ColumnForecastFailures`, `ForecastWithinColumnRange` and `ColumnForecastExample` |
| `StockForecast.Forecast` | run.py:96-102 | defining model of `calculate_stock_data`: the column forecasts in order, stopping at the first exception; its meaning is stated by `ForecastPerColumn` and `ForecastKeepsError`, and `CalculateStockData` is proved equal to it |
| `StockForecast.CalculateStockData` | run.py:90-102 | the loop's result equals the reference `Forecast` for every list of columns |
| `StockForecast.ForecastKeepsError` | run.py:97-100 | an error in the columns already processed is the error of the whole call |
| `StockForecast.ForecastPerColumn` | run.py:97-100 | the forecast is ok iff every column's is; it then has one entry per column, each that column's rounded mean |
| `StockForecast.ForecastWithinColumnRange` | run.py:98-100 | each forecast lies between the smallest and the largest figure of its column |
| `StockForecast.ColumnForecastFailures` | run.py:98-99 | an empty column raises ZeroDivisionError; a ValueError is raised exactly when some cell does not parse |
| `StockForecast.ColumnForecastExample` | run.py:98-100 | the column 10, 12, 11, 13, 9 forecasts 11 |
| `StockPresenter.StockValues` | run.py:104-120 | the keys are exactly the headings among the first min(headings, values) positions; each heading maps to the value at its last such position |
| `StockPresenter.Pairs` | run.py:118 | the dictionary of the first n pairs, where a later repeat of a heading overwrites the earlier one |
| `StockPresenter.AddPair` | run.py:118 | adding pair n−1 to the dictionary of the first n−1 pairs gives the dictionary of n pairs |
| `StockPresenter.DistinctHeadingsPairing` | run.py:112-118 | with distinct headings, each shown heading maps to the forecast at its own position, and there are exactly min(headings, values) entries |
| `StockPresenter.PairingExample` | run.py:118 | headings Sourdough, Rye with forecast 11, 8 give exactly {Sourdough: 11, Rye: 8} |
| `StockPresenter.RepeatedHeadingExample` | run.py:118 | a repeated heading keeps the later value |
| `Pipeline.Append` | run.py:68-75 | defining model of `update_worksheet` on values: the named worksheet gains the row of rendered numbers; its meaning is stated by `AppendAddsOneRow` and `Spreadsheet.UpdateWorksheet` |
| `Pipeline.RowValues` | run.py:112 | a stand-in definition for the foreign `row_values(row)`: that row of the worksheet, or no cells when it has fewer rows; `RunForecastUsesNewSales` states that the result is labelled with it |
| `Pipeline.Run` | run.py:127-139 | defining model of `main` after input: append sales, surplus from the previous stock, append surplus, forecast from the last five sales, append stock, label it; its meaning is stated by `Spreadsheet.RunMain` and the `Run*` lemmas |
| `Pipeline.AppendAddsOneRow` | run.py:68-75 | an append adds exactly one row, at the end; the earlier rows stay unchanged and in order, and the other worksheets stay the same |
| `Pipeline.RunRecordsSales` | run.py:127-129 | the sales row appended is the six parsed tokens in input order, whatever happens afterwards |
| `Pipeline.RunSurplusUsesPreviousStock` | run.py:129-132 | the surplus is computed from the stock worksheet as it was before the run; if that fails, only the sales row has been appended |
| `Pipeline.RunForecastUsesNewSales` | run.py:129-137 | every forecast window ends with the sale just entered; on success the stock worksheet gains the forecast row, and the result labels it with the stock worksheet's first row; on failure no stock row is appended |
| `Pipeline.RunShortHistoryFails` | run.py:133-134 | with fewer than five stored sales rows and a non-numeric first heading, the run raises ValueError on that heading after appending the sales and surplus rows and before any stock row |
| `Pipeline.FirstColumnErrorWins` | run.py:97-100 | an error in column 1 is the error of the whole forecast |
| `Pipeline.Spreadsheet.UpdateWorksheet` | run.py:68-75 | the named worksheet gains the rendered row as its new last row, and nothing else changes |
| `Pipeline.Spreadsheet.RunMain` | run.py:127-137 | the in-place sequence of appends and reads leaves the worksheets and the result exactly as `Run` describes |

## Left out

- Credentials, authorisation and opening the spreadsheet (run.py:1-14): these are network and authentication calls into a foreign library.
- The remote `append_row`, `get_all_values`, `col_values` and `row_values` calls. They are replaced by in-memory worksheets. A number appended is read back as its decimal text (`Show`). `col_values` is modelled as one cell per row, with `""` for short rows; the Sheets API's dropping of trailing blank cells is not modelled.
- The prompt loop, `input` and every `print` (run.py:20-32, 47, 56, 72, 75, 95, 131, 135, 138-141), including the repeated `validate_data` call at run.py:28, which only prints its message a second time. `SalesFromLine` models one typed line. The diagnostic text is represented only by its cause (`Rejection`).
- The module-level call of `main()` (run.py:142). `RunMain` starts from the accepted tokens that `get_sales_data` returns, and returns the dictionary that `main` prints.
- The full grammar of Python `int()`. The model accepts ASCII white space at either end, an optional sign and one or more ASCII digits. Underscores between digits, non-ASCII digits and non-ASCII white space are not accepted.
- Floating point in `sum(...) / len(...)` (run.py:99). The mean is the exact quotient of the sum by the count. It is rounded half to even on that quotient, which matches Python for windows of at most five small integers.
- StockForecast.RoundHalfEven: it rounds the exact quotient, not the nearest double, so it differs from Python only for sums too large to be exact in a double. For a quotient too large for a double, `sum/len` (run.py:99) raises OverflowError; `Values.Error` has no case for it and the model returns the rounded quotient instead. Neither happens for ordinary sales figures.
- IntText.ParseInt and IntText.Show: Python 3.11 and later refuse `int()` and `str()` on numbers of more than 4300 digits with a ValueError; the model imposes no such limit. This does not happen for ordinary sales figures.
- Concurrent runs against the same spreadsheet, and failures of the remote service partway through.
