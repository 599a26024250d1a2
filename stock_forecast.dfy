/** `calculate_stock_data`: per column, the mean of its integers rounded
    with Python's `round`, which breaks ties towards the even neighbour. */
module StockForecast {
  import opened Values
  import opened IntText

  function Sum(xs: seq<int>): int
  {
    if |xs| == 0 then 0 else Sum(xs[..|xs| - 1]) + xs[|xs| - 1]
  }

  function MinOf(xs: seq<int>): int
    requires |xs| > 0
  {
    if |xs| == 1 then xs[0] else Min(MinOf(xs[..|xs| - 1]), xs[|xs| - 1])
  }

  function MaxOf(xs: seq<int>): int
    requires |xs| > 0
  {
    if |xs| == 1 then xs[0] else Max(MaxOf(xs[..|xs| - 1]), xs[|xs| - 1])
  }

  /** `round(num / den)`: the nearest integer, and the even one of two equally near. */
  function RoundHalfEven(num: int, den: int): (r: int)
    requires den > 0
    ensures 2 * Abs(num - r * den) <= den
    ensures 2 * Abs(num - r * den) == den ==> r % 2 == 0
  {
    var q, rem := num / den, num % den;
    assert num - q * den == rem;
    assert num - (q + 1) * den == rem - den;
    if 2 * rem < den then q
    else if 2 * rem > den then q + 1
    else if q % 2 == 0 then q
    else q + 1
  }

  /** The rounding the source relies on has exactly one result. */
  lemma RoundHalfEvenUnique(num: int, den: int, r: int)
    requires den > 0
    requires 2 * Abs(num - r * den) <= den
    requires 2 * Abs(num - r * den) == den ==> r % 2 == 0
    ensures r == RoundHalfEven(num, den)
  {
    var s := RoundHalfEven(num, den);
    var a, b := num - r * den, num - s * den;
    Distribute(s, r, den);
    GapAtMostOne(a, b, s - r, den);
    if s - r == 1 || s - r == -1 {
      TieOnBothSides(a, b, s - r, den);
      assert false;
    }
  }

  /** Two values each within half a step of a point differ by at most one step. */
  lemma GapAtMostOne(a: int, b: int, k: int, den: int)
    requires den > 0 && 2 * Abs(a) <= den && 2 * Abs(b) <= den
    requires a - b == k * den
    ensures -1 <= k <= 1
  {
    if k >= 2 {
      MulAtLeast(k, 2, den);
    } else if k <= -2 {
      MulAtLeast(-k, 2, den);
      Negate(k, den);
    }
  }

  /** One whole step apart, both are exactly half a step away. */
  lemma TieOnBothSides(a: int, b: int, k: int, den: int)
    requires den > 0 && 2 * Abs(a) <= den && 2 * Abs(b) <= den
    requires a - b == k * den && (k == 1 || k == -1)
    ensures 2 * Abs(a) == den && 2 * Abs(b) == den
  {
  }

  lemma Distribute(s: int, r: int, den: int)
    ensures s * den - r * den == (s - r) * den
  {
  }

  lemma Negate(k: int, den: int)
    ensures (-k) * den == -(k * den)
  {
  }

  lemma MulAtLeast(x: int, lo: int, den: int)
    requires den > 0 && x >= lo
    ensures x * den >= lo * den
  {
  }

  /** The forecast for one column: `[int(num) for num in column]`, then the
      rounded mean; an empty column divides by zero. */
  function ColumnForecast(column: seq<string>): Result<int>
  {
    match ParseCells(column)
    case Err(e) => Err(e)
    case Ok(xs) => if |xs| == 0 then Err(ZeroDivisionError) else Ok(RoundHalfEven(Sum(xs), |xs|))
  }

  /** The forecast row: columns in order, the first failing column's error wins. */
  function Forecast(columns: seq<seq<string>>): Result<seq<int>>
  {
    if |columns| == 0 then Ok([])
    else
      match Forecast(columns[..|columns| - 1])
      case Err(e) => Err(e)
      case Ok(done) =>
        match ColumnForecast(columns[|columns| - 1])
        case Err(e) => Err(e)
        case Ok(v) => Ok(done + [v])
  }

  /** An error in the columns already processed is the error of the whole row. */
  lemma {:induction false} ForecastKeepsError(columns: seq<seq<string>>, i: nat)
    requires i <= |columns| && Forecast(columns[..i]).Err?
    ensures Forecast(columns) == Forecast(columns[..i])
    decreases |columns| - i
  {
    if i < |columns| {
      var next := columns[..i + 1];
      assert next[..i] == columns[..i];
      ForecastKeepsError(columns, i + 1);
    } else {
      assert columns[..i] == columns;
    }
  }

  /** The loop of the source, one appended forecast per column. */
  method CalculateStockData(data: seq<seq<string>>) returns (r: Result<seq<int>>)
    ensures r == Forecast(data)
  {
    var newStockData: seq<int> := [];
    for i := 0 to |data|
      invariant Forecast(data[..i]) == Ok(newStockData)
    {
      var prefix := data[..i + 1];
      assert prefix[..i] == data[..i];
      var intColumn := ParseCells(data[i]);
      if intColumn.Err? {
        ForecastKeepsError(data, i + 1);
        return Err(intColumn.error);
      }
      if |intColumn.value| == 0 {
        ForecastKeepsError(data, i + 1);
        return Err(ZeroDivisionError);
      }
      var average := RoundHalfEven(Sum(intColumn.value), |intColumn.value|);
      newStockData := newStockData + [average];
    }
    assert data[..|data|] == data;
    return Ok(newStockData);
  }

  /** The forecast row succeeds exactly when every column does; it then has
      one entry per column, in column order. */
  lemma {:induction false} ForecastPerColumn(columns: seq<seq<string>>)
    ensures Forecast(columns).Ok? <==> forall k :: 0 <= k < |columns| ==> ColumnForecast(columns[k]).Ok?
    ensures Forecast(columns).Ok? ==>
              |Forecast(columns).value| == |columns| &&
              forall k :: 0 <= k < |columns| ==> ColumnForecast(columns[k]) == Ok(Forecast(columns).value[k])
  {
    if |columns| > 0 {
      var n := |columns| - 1;
      var init, last := columns[..n], columns[n];
      ForecastPerColumn(init);
      assert forall k :: 0 <= k < n ==> init[k] == columns[k];
      var f, c := Forecast(init), ColumnForecast(last);
      if f.Ok? && c.Ok? {
        var row := f.value + [c.value];
        assert Forecast(columns) == Ok(row);
        assert forall k :: 0 <= k < n ==> row[k] == f.value[k];
      } else if f.Err? {
        assert Forecast(columns).Err?;
        var k :| 0 <= k < n && ColumnForecast(init[k]).Err?;
        assert ColumnForecast(columns[k]).Err?;
      } else {
        assert Forecast(columns).Err?;
        assert ColumnForecast(columns[n]).Err?;
      }
    }
  }

  lemma {:induction false} SumBounds(xs: seq<int>)
    requires |xs| > 0
    ensures MinOf(xs) * |xs| <= Sum(xs) <= MaxOf(xs) * |xs|
  {
    if |xs| > 1 {
      var init := xs[..|xs| - 1];
      SumBounds(init);
      var n := |init|;
      MulAtLeast(MinOf(init), MinOf(xs), n);
      MulAtLeast(MaxOf(xs), MaxOf(init), n);
      assert MinOf(xs) * (n + 1) == MinOf(xs) * n + MinOf(xs);
      assert MaxOf(xs) * (n + 1) == MaxOf(xs) * n + MaxOf(xs);
    }
  }

  /** Rounding a quotient that lies between two integers stays between them. */
  lemma RoundWithin(num: int, den: int, lo: int, hi: int)
    requires den > 0 && lo * den <= num <= hi * den
    ensures lo <= RoundHalfEven(num, den) <= hi
  {
    var r := RoundHalfEven(num, den);
    if r < lo {
      MulAtLeast(lo - r, 1, den);
      Distribute(lo, r, den);
      assert false;
    }
    if r > hi {
      MulAtLeast(r - hi, 1, den);
      Distribute(r, hi, den);
      assert false;
    }
  }

  /** Each forecast lies between the smallest and the largest figure of its column. */
  lemma ForecastWithinColumnRange(column: seq<string>)
    requires ColumnForecast(column).Ok?
    ensures ParseCells(column).Ok? && |ParseCells(column).value| > 0
    ensures var xs := ParseCells(column).value;
            MinOf(xs) <= ColumnForecast(column).value <= MaxOf(xs)
  {
    var xs := ParseCells(column).value;
    SumBounds(xs);
    RoundWithin(Sum(xs), |xs|, MinOf(xs), MaxOf(xs));
  }

  /** The failures of one column: a cell `int()` refuses, or no cells at all. */
  lemma ColumnForecastFailures(column: seq<string>)
    ensures |column| == 0 ==> ColumnForecast(column) == Err(ZeroDivisionError)
    ensures ColumnForecast(column).Err? && ColumnForecast(column).error.ValueError? <==>
              exists k :: 0 <= k < |column| && ParseInt(column[k]).None?
  {
  }

  /** The rounding examples: 10.5 rounds to 10, 11.5 to 12, -10.5 to -10, 11.0 to 11. */
  lemma RoundingExamples()
    ensures RoundHalfEven(21, 2) == 10
    ensures RoundHalfEven(23, 2) == 12
    ensures RoundHalfEven(-21, 2) == -10
    ensures RoundHalfEven(55, 5) == 11
  {
  }

  /** The column 10, 12, 11, 13, 9 forecasts 11. */
  lemma ColumnForecastExample(column: seq<int>)
    requires column == [10, 12, 11, 13, 9]
    ensures ColumnForecast(Render(column)) == Ok(11)
  {
    ParseRender(column);
    ExampleSum(column);
  }

  lemma ExampleSum(column: seq<int>)
    requires column == [10, 12, 11, 13, 9]
    ensures RoundHalfEven(Sum(column), |column|) == 11
  {
    var s4, s3, s2, s1 := column[..4], column[..3], column[..2], column[..1];
    assert s4[..3] == s3 && s3[..2] == s2 && s2[..1] == s1 && s1[..0] == [];
    assert Sum(s1) == 10;
    assert Sum(s2) == 22;
    assert Sum(s3) == 33;
    assert Sum(s4) == 46;
    assert Sum(column) == 55;
  }
}
