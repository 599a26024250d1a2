/** `get_last_5_entries_sales`: the last five cells of each of the six
    sales columns, read with `col_values`, which includes the heading cell. */
module SalesWindow {
  import opened Values

  /** The number of category columns read. */
  const ColumnCount: nat := 6

  /** The length of the history window. */
  const WindowLength: nat := 5

  /** Cell `k` (0-based) of a row, or the empty text of a blank cell. */
  function CellAt(row: seq<string>, k: nat): string
  {
    if k < |row| then row[k] else ""
  }

  /** `worksheet.col_values(col)` for a 1-based column number: one cell per
      row, the heading row included. */
  function ColValues(grid: Grid, col: nat): (c: seq<string>)
    requires col >= 1
    ensures |c| == |grid|
    ensures forall i :: 0 <= i < |grid| ==> c[i] == CellAt(grid[i], col - 1)
  {
    seq(|grid|, i requires 0 <= i < |grid| => CellAt(grid[i], col - 1))
  }

  /** Python's `s[-n:]` for n >= 1: the whole list when it is shorter. */
  function Suffix(s: seq<string>, n: nat): seq<string>
  {
    if |s| <= n then s else s[|s| - n..]
  }

  /** The windows the source returns, column 1 first. */
  function LastFive(grid: Grid): seq<seq<string>>
  {
    seq(ColumnCount, k requires 0 <= k < ColumnCount => Suffix(ColValues(grid, k + 1), WindowLength))
  }

  /** The loop of the source over `range(1, 7)`. */
  method GetLast5EntriesSales(sales: Grid) returns (columns: seq<seq<string>>)
    ensures |columns| == ColumnCount
    ensures forall k :: 0 <= k < ColumnCount ==> columns[k] == Suffix(ColValues(sales, k + 1), WindowLength)
    ensures columns == LastFive(sales)
  {
    columns := [];
    for ind := 1 to ColumnCount + 1
      invariant |columns| == ind - 1
      invariant forall k :: 0 <= k < ind - 1 ==> columns[k] == Suffix(ColValues(sales, k + 1), WindowLength)
    {
      var column := ColValues(sales, ind);
      columns := columns + [Suffix(column, WindowLength)];
    }
  }

  /** Each window holds the last min(5, rows) cells of its column, in row order. */
  lemma WindowContents(grid: Grid, k: nat, j: nat)
    requires k < ColumnCount
    requires j < Min(WindowLength, |grid|)
    ensures |LastFive(grid)[k]| == Min(WindowLength, |grid|)
    ensures LastFive(grid)[k][j] == CellAt(grid[|grid| - Min(WindowLength, |grid|) + j], k)
  {
  }

  /** Every window ends with the cell of the worksheet's last row. */
  lemma WindowEndsWithLastRow(grid: Grid, k: nat)
    requires k < ColumnCount && |grid| > 0
    ensures |LastFive(grid)[k]| > 0
    ensures Last(LastFive(grid)[k]) == CellAt(Last(grid), k)
  {
    WindowContents(grid, k, Min(WindowLength, |grid|) - 1);
  }

  /** With five rows or fewer, `col_values` still starts with the heading,
      so every window begins with its column's heading text. */
  lemma ShortHistoryKeepsHeading(grid: Grid, k: nat)
    requires k < ColumnCount && 0 < |grid| <= WindowLength
    ensures |LastFive(grid)[k]| == |grid|
    ensures LastFive(grid)[k][0] == CellAt(grid[0], k)
  {
    WindowContents(grid, k, 0);
  }
}
