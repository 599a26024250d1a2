/** `calculate_surplus_data`: the last stock row minus the sales row,
    position by position, over the shorter of the two rows. */
module SurplusCalc {
  import opened Values
  import opened IntText

  /** The surplus the source computes from the stock worksheet's rows: its
      last row is parsed over the positions `zip` pairs with the sales row. */
  function Surplus(stock: Grid, sales: seq<int>): Result<seq<int>>
  {
    if |stock| == 0 then Err(IndexError)
    else
      var row := Last(stock);
      var n := Min(|row|, |sales|);
      match ParseCells(row[..n])
      case Err(e) => Err(e)
      case Ok(stockValues) => Ok(seq(n, i requires 0 <= i < n => stockValues[i] - sales[i]))
  }

  /** The loop of the source: one subtraction per pair, stopping at the first
      stock cell `int()` refuses. */
  method CalculateSurplusData(stock: Grid, salesRow: seq<int>) returns (r: Result<seq<int>>)
    ensures r == Surplus(stock, salesRow)
  {
    if |stock| == 0 {
      return Err(IndexError);
    }
    var stockRow := stock[|stock| - 1];
    var n := Min(|stockRow|, |salesRow|);
    var surplusData: seq<int> := [];
    for i := 0 to n
      invariant |surplusData| == i
      invariant forall j :: 0 <= j < i ==> ParseInt(stockRow[j]) == Some(surplusData[j] + salesRow[j])
    {
      match ParseInt(stockRow[i])
      case None =>
        SurplusFailsAt(stock, salesRow, i);
        return Err(ValueError(stockRow[i]));
      case Some(v) =>
        surplusData := surplusData + [v - salesRow[i]];
    }
    SurplusIs(stock, salesRow, surplusData);
    return Ok(surplusData);
  }

  /** A row of differences that matches every paired stock cell is the surplus. */
  lemma SurplusIs(stock: Grid, sales: seq<int>, d: seq<int>)
    requires |stock| > 0 && |d| == Min(|Last(stock)|, |sales|)
    requires forall j :: 0 <= j < |d| ==> ParseInt(Last(stock)[j]) == Some(d[j] + sales[j])
    ensures Surplus(stock, sales) == Ok(d)
  {
    var row := Last(stock);
    var n := |d|;
    var cells := row[..n];
    assert forall j :: 0 <= j < n ==> cells[j] == row[j];
    var p := ParseCells(cells);
    assert p.Ok?;
    var vs := p.value;
    var diff := seq(n, i requires 0 <= i < n => vs[i] - sales[i]);
    assert |diff| == |d|;
    assert forall j :: 0 <= j < n ==> diff[j] == d[j];
    assert diff == d;
  }

  /** The first unreadable paired stock cell is the ValueError raised. */
  lemma SurplusFailsAt(stock: Grid, sales: seq<int>, i: nat)
    requires |stock| > 0 && i < Min(|Last(stock)|, |sales|)
    requires forall j :: 0 <= j < i ==> ParseInt(Last(stock)[j]).Some?
    requires ParseInt(Last(stock)[i]).None?
    ensures Surplus(stock, sales) == Err(ValueError(Last(stock)[i]))
  {
    var row := Last(stock);
    var n := Min(|row|, |sales|);
    var cells := row[..n];
    assert forall j :: 0 <= j < n ==> cells[j] == row[j];
    assert FirstUnparsable(cells) == i;
  }

  /** What the surplus is: it fails exactly on an empty stock worksheet or an
      unreadable paired stock cell; otherwise it has one entry per pair, each
      the stock figure minus the sale (negative for a shortage). */
  lemma SurplusMeaning(stock: Grid, sales: seq<int>)
    ensures |stock| == 0 ==> Surplus(stock, sales) == Err(IndexError)
    ensures Surplus(stock, sales).Ok? <==>
              |stock| > 0 && forall i :: 0 <= i < Min(|Last(stock)|, |sales|) ==> ParseInt(Last(stock)[i]).Some?
    ensures Surplus(stock, sales).Ok? ==>
              var r := Surplus(stock, sales).value;
              |r| == Min(|Last(stock)|, |sales|) && forall i :: 0 <= i < |r| ==> ParseInt(Last(stock)[i]) == Some(r[i] + sales[i])
  {
    if |stock| > 0 {
      var row := Last(stock);
      var n := Min(|row|, |sales|);
      var cells := row[..n];
      assert forall i :: 0 <= i < n ==> cells[i] == row[i];
      var p := ParseCells(cells);
      if p.Ok? {
        var vs := p.value;
        var diff := seq(n, i requires 0 <= i < n => vs[i] - sales[i]);
        assert Surplus(stock, sales) == Ok(diff);
        assert forall i :: 0 <= i < n ==> ParseInt(row[i]) == Some(diff[i] + sales[i]);
      }
    }
  }

  /** Cells past the end of the sales row are never read. */
  lemma SurplusIgnoresUnpairedCells(stock: Grid, sales: seq<int>, extra: seq<string>)
    requires |stock| > 0 && |Last(stock)| == |sales|
    ensures Surplus(stock[|stock| - 1 := Last(stock) + extra], sales) == Surplus(stock, sales)
  {
    var row := Last(stock);
    assert (row + extra)[..|sales|] == row[..|sales|];
  }

  /** A stock row the program itself appended is read back as the numbers
      written, so the surplus is the plain difference. */
  lemma SurplusOfRendered(earlier: Grid, xs: seq<int>, sales: seq<int>)
    requires |xs| == |sales|
    ensures Surplus(earlier + [Render(xs)], sales) == Ok(seq(|xs|, i requires 0 <= i < |xs| => xs[i] - sales[i]))
  {
    var stock := earlier + [Render(xs)];
    var row := Render(xs);
    assert Last(stock) == row;
    assert row[..|xs|] == row;
    ParseRender(xs);
  }

  /** The worked example: stock 10..60 against sales 1..6. */
  lemma SurplusExample(stockRow: seq<int>, sales: seq<int>)
    requires stockRow == [10, 20, 30, 40, 50, 60] && sales == [1, 2, 3, 4, 5, 6]
    ensures Surplus([Render(stockRow)], sales) == Ok([9, 18, 27, 36, 45, 54])
  {
    var grid: Grid := [];
    SurplusOfRendered(grid, stockRow, sales);
    assert grid + [Render(stockRow)] == [Render(stockRow)];
    ExampleDifferences(stockRow, sales);
  }

  lemma ExampleDifferences(stockRow: seq<int>, sales: seq<int>)
    requires stockRow == [10, 20, 30, 40, 50, 60] && sales == [1, 2, 3, 4, 5, 6]
    ensures seq(|stockRow|, i requires 0 <= i < |stockRow| => stockRow[i] - sales[i]) == [9, 18, 27, 36, 45, 54]
  {
  }
}
