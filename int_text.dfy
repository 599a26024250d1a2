/** Python's `int(text)` on the strings the pipeline meets, and `str(n)` on
    integers (also the text a spreadsheet cell shows for a number). */
module IntText {
  import opened Values

  /** The ASCII characters `int()` treats as white space. */
  predicate IsSpace(c: char)
  {
    c == ' ' || c == '\t' || c == '\n' || c == '\r' || c == '\U{B}' || c == '\U{C}'
  }

  predicate IsDigit(c: char)
  {
    '0' <= c <= '9'
  }

  function DigitValue(c: char): nat
    requires IsDigit(c)
  {
    (c as int) - ('0' as int)
  }

  function DigitChar(d: nat): (c: char)
    requires d < 10
    ensures IsDigit(c) && DigitValue(c) == d
  {
    (('0' as int) + d) as char
  }

  /** The value of one or more decimal digits, most significant first, or
      None when the string is empty or holds anything else. */
  function Digits(d: string): Option<nat>
  {
    if |d| == 0 || !IsDigit(d[|d| - 1]) then None
    else if |d| == 1 then Some(DigitValue(d[0]))
    else
      match Digits(d[..|d| - 1])
      case None => None
      case Some(v) => Some(v * 10 + DigitValue(d[|d| - 1]))
  }

  /** `int(s)` in base 10: white space at either end is ignored, then an
      optional sign and one or more decimal digits; anything else raises
      ValueError (None here). */
  function ParseInt(s: string): Option<int>
  {
    if |s| > 0 && IsSpace(s[0]) then ParseInt(s[1..])
    else if |s| > 0 && IsSpace(s[|s| - 1]) then ParseInt(s[..|s| - 1])
    else if |s| > 0 && (s[0] == '+' || s[0] == '-') then
      match Digits(s[1..])
      case None => None
      case Some(v) =>
        var w: int := v;
        Some(if s[0] == '-' then -w else w)
    else
      match Digits(s)
      case None => None
      case Some(v) => Some(v)
  }

  /** Decimal rendering of a natural number, without leading zeros. */
  function ShowNat(n: nat): (s: string)
    ensures |s| > 0
    ensures forall i :: 0 <= i < |s| ==> IsDigit(s[i])
  {
    if n < 10 then [DigitChar(n)] else ShowNat(n / 10) + [DigitChar(n % 10)]
  }

  /** `str(n)`: a minus sign for negative numbers, then the digits. */
  function Show(n: int): string
  {
    if n < 0 then "-" + ShowNat(-n) else ShowNat(n)
  }

  lemma {:induction false} DigitsOfShowNat(n: nat)
    ensures Digits(ShowNat(n)) == Some(n)
  {
    if n >= 10 {
      var s := ShowNat(n);
      assert s[..|s| - 1] == ShowNat(n / 10);
      DigitsOfShowNat(n / 10);
    }
  }

  /** `int(str(n)) == n` for every integer. */
  lemma ParseShow(n: int)
    ensures ParseInt(Show(n)) == Some(n)
  {
    var s := Show(n);
    if n < 0 {
      DigitsOfShowNat(-n);
      assert s[1..] == ShowNat(-n);
    } else {
      DigitsOfShowNat(n);
    }
  }

  /** A rendered integer holds only a minus sign and digits, so neither white
      space nor a comma. */
  lemma ShowCharacters(n: int)
    ensures forall i :: 0 <= i < |Show(n)| ==> Show(n)[i] == '-' || IsDigit(Show(n)[i])
  {
  }

  predicate AllSpace(s: string)
  {
    forall i :: 0 <= i < |s| ==> IsSpace(s[i])
  }

  /** Surrounding white space does not change what `int()` reads. */
  lemma {:induction false} ParsePadded(pre: string, s: string, post: string)
    requires AllSpace(pre) && AllSpace(post)
    ensures ParseInt(pre + s + post) == ParseInt(s)
    decreases |pre|
  {
    if |pre| > 0 {
      assert (pre + s + post)[1..] == pre[1..] + s + post;
      ParsePadded(pre[1..], s, post);
    } else {
      assert pre + s + post == s + post;
      ParseTrailing(s, post);
    }
  }

  /** A blank cell or a blank line is no integer. */
  lemma {:induction false} BlankIsNotInt(s: string)
    requires AllSpace(s)
    ensures ParseInt(s) == None
  {
    if |s| > 0 {
      BlankIsNotInt(s[1..]);
    }
  }

  lemma {:induction false} ParseTrailing(s: string, post: string)
    requires AllSpace(post)
    ensures ParseInt(s + post) == ParseInt(s)
    decreases |s| + |post|
  {
    if |s| > 0 && IsSpace(s[0]) {
      assert (s + post)[1..] == s[1..] + post;
      ParseTrailing(s[1..], post);
    } else if |post| > 0 {
      var shorter := post[..|post| - 1];
      assert (s + post)[..|s + post| - 1] == s + shorter;
      if |s| == 0 {
        assert s + post == post;
        BlankIsNotInt(post);
      } else {
        ParseTrailing(s, shorter);
      }
    } else {
      assert s + post == s;
    }
  }

  /** The position of the first cell `int()` rejects, or |cells| if it rejects none. */
  function FirstUnparsable(cells: seq<string>): (k: nat)
    ensures k <= |cells|
    ensures forall j :: 0 <= j < k ==> ParseInt(cells[j]).Some?
    ensures k < |cells| ==> ParseInt(cells[k]).None?
  {
    if |cells| == 0 || ParseInt(cells[0]).None? then 0 else 1 + FirstUnparsable(cells[1..])
  }

  /** `[int(c) for c in cells]`, left to right: the parsed list, or the
      ValueError of the first cell `int()` refuses. */
  function ParseCells(cells: seq<string>): (r: Result<seq<int>>)
    ensures r.Ok? <==> FirstUnparsable(cells) == |cells|
    ensures r.Ok? ==> |r.value| == |cells| && forall j :: 0 <= j < |cells| ==> ParseInt(cells[j]) == Some(r.value[j])
    ensures r.Err? ==> FirstUnparsable(cells) < |cells| && r.error == ValueError(cells[FirstUnparsable(cells)])
  {
    if |cells| == 0 then Ok([])
    else
      match ParseInt(cells[0])
      case None => Err(ValueError(cells[0]))
      case Some(v) =>
        match ParseCells(cells[1..])
        case Err(e) => Err(e)
        case Ok(vs) => Ok([v] + vs)
  }

  /** The texts a worksheet shows for a row of numbers appended to it. */
  function Render(xs: seq<int>): (cells: seq<string>)
    ensures |cells| == |xs|
  {
    seq(|xs|, i requires 0 <= i < |xs| => Show(xs[i]))
  }

  /** Reading back a rendered row gives the numbers that were written. */
  lemma ParseRender(xs: seq<int>)
    ensures ParseCells(Render(xs)) == Ok(xs)
  {
    var cells := Render(xs);
    forall i | 0 <= i < |xs| ensures ParseInt(cells[i]) == Some(xs[i]) {
      ParseShow(xs[i]);
    }
    var r := ParseCells(cells);
    assert r.Ok?;
    assert r.value == xs;
  }
}
