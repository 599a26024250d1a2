/** `main`: the order of reads and appends over the three worksheets, with
    an in-memory spreadsheet in place of the remote one. */
module Pipeline {
  import opened Values
  import opened IntText
  import opened SalesInput
  import opened SurplusCalc
  import opened SalesWindow
  import opened StockForecast
  import opened StockPresenter

  datatype WorksheetName = SalesSheet | SurplusSheet | StockSheet

  /** The contents of the three worksheets. */
  datatype Sheets = Sheets(sales: Grid, stock: Grid, surplus: Grid)

  function Rows(s: Sheets, name: WorksheetName): Grid
  {
    match name
    case SalesSheet => s.sales
    case SurplusSheet => s.surplus
    case StockSheet => s.stock
  }

  /** `update_worksheet(name, data)`: `append_row` adds the numbers as a new
      last row, each cell showing its decimal text. */
  function Append(s: Sheets, name: WorksheetName, data: seq<int>): Sheets
  {
    match name
    case SalesSheet => s.(sales := s.sales + [Render(data)])
    case SurplusSheet => s.(surplus := s.surplus + [Render(data)])
    case StockSheet => s.(stock := s.stock + [Render(data)])
  }

  /** An append adds exactly one row at the end of its worksheet, keeps the
      rows before it in order, and leaves the other worksheets alone. */
  lemma AppendAddsOneRow(s: Sheets, name: WorksheetName, data: seq<int>, other: WorksheetName)
    ensures |Rows(Append(s, name, data), name)| == |Rows(s, name)| + 1
    ensures Rows(Append(s, name, data), name)[..|Rows(s, name)|] == Rows(s, name)
    ensures Last(Rows(Append(s, name, data), name)) == Render(data)
    ensures other != name ==> Rows(Append(s, name, data), other) == Rows(s, other)
  {
    var before := Rows(s, name);
    assert (before + [Render(data)])[..|before|] == before;
  }

  /** `worksheet.row_values(row)` for a 1-based row number; a missing row reads as empty. */
  function RowValues(grid: Grid, row: nat): seq<string>
    requires row >= 1
  {
    if row <= |grid| then grid[row - 1] else []
  }

  /** The worksheets after a run, and what the run ends with: the labelled
      forecast, or the exception that stopped it. */
  datatype Outcome = Outcome(sheets: Sheets, result: Result<map<string, int>>)

  /** `main` once `get_sales_data` has returned accepted tokens: record the
      sales, then the surplus against the stock row before this run, then the
      forecast from the sales history that now ends with this run's row. */
  function Run(s: Sheets, data: seq<string>): Outcome
    requires ValidateData(data)
  {
    var salesData := ParseCells(data).value;
    var s1 := Append(s, SalesSheet, salesData);
    match Surplus(s1.stock, salesData)
    case Err(e) => Outcome(s1, Err(e))
    case Ok(surplus) =>
      var s2 := Append(s1, SurplusSheet, surplus);
      match Forecast(LastFive(s2.sales))
      case Err(e) => Outcome(s2, Err(e))
      case Ok(stockData) =>
        var s3 := Append(s2, StockSheet, stockData);
        Outcome(s3, Ok(StockValues(RowValues(s3.stock, 1), stockData)))
  }

  /** The sales row is always recorded, as the six integers typed, whatever
      happens afterwards. */
  lemma RunRecordsSales(s: Sheets, data: seq<string>)
    requires ValidateData(data)
    ensures var salesData := ParseCells(data).value;
            |salesData| == RecordLength &&
            (forall i :: 0 <= i < RecordLength ==> ParseInt(data[i]) == Some(salesData[i])) &&
            Run(s, data).sheets.sales == s.sales + [Render(salesData)]
  {
  }

  /** The surplus is computed against the last stock row from before this run;
      when that fails, the run stops with the sales row recorded and nothing else. */
  lemma RunSurplusUsesPreviousStock(s: Sheets, data: seq<string>)
    requires ValidateData(data)
    ensures var salesData := ParseCells(data).value;
            var out := Run(s, data);
            match Surplus(s.stock, salesData)
            case Err(e) =>
              out == Outcome(s.(sales := s.sales + [Render(salesData)]), Err(e))
            case Ok(surplus) =>
              out.sheets.surplus == s.surplus + [Render(surplus)]
  {
  }

  /** The forecast is read after the sales append, so every column's window
      ends with the sale just entered; on success the stock worksheet gains the
      forecast row, and the labels are the stock worksheet's first row. */
  lemma RunForecastUsesNewSales(s: Sheets, data: seq<string>)
    requires ValidateData(data)
    requires Surplus(s.stock, ParseCells(data).value).Ok?
    ensures var salesData := ParseCells(data).value;
            var windows := LastFive(s.sales + [Render(salesData)]);
            var out := Run(s, data);
            (forall k :: 0 <= k < ColumnCount ==> |windows[k]| > 0 && Last(windows[k]) == Show(salesData[k])) &&
            out.sheets.sales == s.sales + [Render(salesData)] &&
            out.sheets.surplus == s.surplus + [Render(Surplus(s.stock, salesData).value)] &&
            match Forecast(windows)
            case Err(e) => out.sheets.stock == s.stock && out.result == Err(e)
            case Ok(stockData) =>
              out.sheets.stock == s.stock + [Render(stockData)] &&
              out.result == Ok(StockValues(s.stock[0], stockData))
  {
    var salesData := ParseCells(data).value;
    var grid := s.sales + [Render(salesData)];
    forall k | 0 <= k < ColumnCount ensures |LastFive(grid)[k]| > 0 && Last(LastFive(grid)[k]) == Show(salesData[k]) {
      WindowEndsWithLastRow(grid, k);
    }
  }

  /** With four stored sales rows or fewer, the first window still starts with
      the heading of column 1; a heading that is no integer stops the run after
      the sales and surplus rows are written and before any stock row is. */
  lemma RunShortHistoryFails(s: Sheets, data: seq<string>)
    requires ValidateData(data)
    requires Surplus(s.stock, ParseCells(data).value).Ok?
    requires 0 < |s.sales| < WindowLength
    requires ParseInt(CellAt(s.sales[0], 0)).None?
    ensures Run(s, data).result == Err(ValueError(CellAt(s.sales[0], 0)))
    ensures Run(s, data).sheets.stock == s.stock
    ensures |Run(s, data).sheets.surplus| == |s.surplus| + 1
  {
    var salesData := ParseCells(data).value;
    var grid := s.sales + [Render(salesData)];
    var windows := LastFive(grid);
    ShortHistoryKeepsHeading(grid, 0);
    assert grid[0] == s.sales[0];
    var first := windows[0];
    assert FirstUnparsable(first) == 0;
    assert ColumnForecast(first) == Err(ValueError(CellAt(s.sales[0], 0)));
    FirstColumnErrorWins(windows);
  }

  /** The first column's error is the forecast's error. */
  lemma {:induction false} FirstColumnErrorWins(columns: seq<seq<string>>)
    requires |columns| > 0 && ColumnForecast(columns[0]).Err?
    ensures Forecast(columns) == Err(ColumnForecast(columns[0]).error)
  {
    var first := columns[..1];
    assert first[..0] == [];
    ForecastKeepsError(columns, 1);
  }

  /** The in-memory spreadsheet the program appends to. */
  class Spreadsheet {
    var sales: Grid
    var stock: Grid
    var surplus: Grid

    constructor (sales: Grid, stock: Grid, surplus: Grid)
      ensures State() == Sheets(sales, stock, surplus)
    {
      this.sales := sales;
      this.stock := stock;
      this.surplus := surplus;
    }

    function State(): Sheets
      reads this
    {
      Sheets(sales, stock, surplus)
    }

    /** `update_worksheet`: one appended row, nothing else changes. */
    method UpdateWorksheet(name: WorksheetName, data: seq<int>)
      modifies this
      ensures State() == Append(old(State()), name, data)
      ensures |Rows(State(), name)| == |Rows(old(State()), name)| + 1
    {
      match name
      case SalesSheet => sales := sales + [Render(data)];
      case SurplusSheet => surplus := surplus + [Render(data)];
      case StockSheet => stock := stock + [Render(data)];
    }

    /** `main` after input collection, step by step as the source runs it. */
    method RunMain(data: seq<string>) returns (r: Result<map<string, int>>)
      requires ValidateData(data)
      modifies this
      ensures Outcome(State(), r) == Run(old(State()), data)
    {
      var salesData := ParseCells(data).value;
      UpdateWorksheet(SalesSheet, salesData);
      var newSurplusData := CalculateSurplusData(stock, salesData);
      if newSurplusData.Err? {
        return Err(newSurplusData.error);
      }
      UpdateWorksheet(SurplusSheet, newSurplusData.value);
      var salesColumns := GetLast5EntriesSales(sales);
      var stockData := CalculateStockData(salesColumns);
      if stockData.Err? {
        return Err(stockData.error);
      }
      UpdateWorksheet(StockSheet, stockData.value);
      var headings := RowValues(stock, 1);
      return Ok(StockValues(headings, stockData.value));
    }
  }
}
