/** `get_stock_values`: the stock headings paired by position with the
    forecast, as a dictionary. */
module StockPresenter {
  import opened Values
  import opened IntText

  /** The last position below `n` that holds heading `h`: the pair a Python
      dictionary comprehension keeps when a key repeats. */
  predicate LastAt(headings: seq<string>, n: int, i: int)
    requires 0 <= n <= |headings|
  {
    0 <= i < n && forall j :: i < j < n ==> headings[j] != headings[i]
  }

  /** `{heading: int(value) for heading, value in zip(headings, values)}`
      with `values = [str(v) for v in stockData]`; `zip` stops at the shorter
      list, and later pairs overwrite earlier ones with the same heading. */
  function StockValues(headings: seq<string>, stockData: seq<int>): (d: map<string, int>)
    ensures var n := Min(|headings|, |stockData|);
            forall h :: h in d <==> exists i :: 0 <= i < n && headings[i] == h
    ensures var n := Min(|headings|, |stockData|);
            forall i :: 0 <= i < n && LastAt(headings, n, i) ==> headings[i] in d && d[headings[i]] == stockData[i]
  {
    Pairs(headings, stockData, Min(|headings|, |stockData|))
  }

  /** The dictionary built from the first n pairs. */
  function Pairs(headings: seq<string>, stockData: seq<int>, n: nat): (d: map<string, int>)
    requires n <= |headings| && n <= |stockData|
    ensures forall h :: h in d <==> exists i :: 0 <= i < n && headings[i] == h
    ensures forall i :: 0 <= i < n && LastAt(headings, n, i) ==> headings[i] in d && d[headings[i]] == stockData[i]
  {
    if n == 0 then map[]
    else
      var earlier := Pairs(headings, stockData, n - 1);
      ParseShow(stockData[n - 1]);
      var quantity := ParseInt(Show(stockData[n - 1])).value;
      AddPair(headings, stockData, n, earlier);
      earlier[headings[n - 1] := quantity]
  }

  /** Adding pair n-1 to the dictionary of the first n-1 pairs. */
  lemma AddPair(headings: seq<string>, stockData: seq<int>, n: nat, earlier: map<string, int>)
    requires 0 < n <= |headings| && n <= |stockData|
    requires forall h :: h in earlier <==> exists i :: 0 <= i < n - 1 && headings[i] == h
    requires forall i :: 0 <= i < n - 1 && LastAt(headings, n - 1, i) ==> headings[i] in earlier && earlier[headings[i]] == stockData[i]
    ensures var d := earlier[headings[n - 1] := stockData[n - 1]];
            (forall h :: h in d <==> exists i :: 0 <= i < n && headings[i] == h) &&
            (forall i :: 0 <= i < n && LastAt(headings, n, i) ==> headings[i] in d && d[headings[i]] == stockData[i])
  {
    var d := earlier[headings[n - 1] := stockData[n - 1]];
    forall i | 0 <= i < n && LastAt(headings, n, i)
      ensures headings[i] in d && d[headings[i]] == stockData[i]
    {
      if i < n - 1 {
        assert LastAt(headings, n - 1, i);
      }
    }
  }

  /** With distinct headings, every heading shown is paired with the forecast
      at its own position, and nothing else is shown. */
  lemma DistinctHeadingsPairing(headings: seq<string>, stockData: seq<int>)
    requires forall i, j :: 0 <= i < j < |headings| ==> headings[i] != headings[j]
    ensures var d, n := StockValues(headings, stockData), Min(|headings|, |stockData|);
            |d| == n && forall i :: 0 <= i < n ==> headings[i] in d && d[headings[i]] == stockData[i]
  {
    var d, n := StockValues(headings, stockData), Min(|headings|, |stockData|);
    forall i | 0 <= i < n ensures LastAt(headings, n, i) {
    }
    DistinctKeys(headings, n, d);
  }

  /** A map whose keys are n distinct headings has n entries. */
  lemma {:induction false} DistinctKeys(headings: seq<string>, n: nat, d: map<string, int>)
    requires n <= |headings|
    requires forall i, j :: 0 <= i < j < |headings| ==> headings[i] != headings[j]
    requires forall h :: h in d <==> exists i :: 0 <= i < n && headings[i] == h
    ensures |d| == n
  {
    var keys := set i | 0 <= i < n :: headings[i];
    assert d.Keys == keys;
    CountDistinct(headings, n);
  }

  lemma {:induction false} CountDistinct(headings: seq<string>, n: nat)
    requires n <= |headings|
    requires forall i, j :: 0 <= i < j < |headings| ==> headings[i] != headings[j]
    ensures |set i | 0 <= i < n :: headings[i]| == n
  {
    if n > 0 {
      CountDistinct(headings, n - 1);
      var smaller := set i | 0 <= i < n - 1 :: headings[i];
      assert (set i | 0 <= i < n :: headings[i]) == smaller + {headings[n - 1]};
      assert headings[n - 1] !in smaller;
    }
  }

  /** The pairing example: headings Sourdough and Rye against forecasts 11 and 8. */
  lemma PairingExample(headings: seq<string>, stockData: seq<int>)
    requires headings == ["Sourdough", "Rye"] && stockData == [11, 8]
    ensures StockValues(headings, stockData) == map["Sourdough" := 11, "Rye" := 8]
  {
    var d := StockValues(headings, stockData);
    assert LastAt(headings, 2, 0) && LastAt(headings, 2, 1);
    assert d.Keys == {"Sourdough", "Rye"};
  }

  /** A repeated heading keeps the value of its later position. */
  lemma RepeatedHeadingExample(headings: seq<string>, stockData: seq<int>)
    requires headings == ["Rye", "Rye"] && stockData == [3, 7]
    ensures StockValues(headings, stockData) == map["Rye" := 7]
  {
    var d := StockValues(headings, stockData);
    assert LastAt(headings, 2, 1);
    assert d.Keys == {"Rye"};
  }
}
