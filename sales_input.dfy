/** Input validation: `validate_data` and the comma split in
    `get_sales_data`, followed by the conversion `main` applies to the
    accepted tokens. */
module SalesInput {
  import opened Values
  import opened IntText
  import opened CommaSplit

  /** Why a sales line is refused; the order of the checks decides which one. */
  datatype Rejection =
    | NotAnInteger(token: string)  // the first token `int()` refuses
    | WrongCount(count: nat)       // every token is an integer, but not six of them

  datatype Verdict = Accepted | Rejected(reason: Rejection)

  /** The number of values a sales record has. */
  const RecordLength: nat := 6

  /** `validate_data`, with the cause its error message names: the integer
      conversion of every token runs first, the length test second. */
  function Validate(values: seq<string>): (v: Verdict)
    ensures v.Accepted? <==> |values| == RecordLength && forall i :: 0 <= i < |values| ==> ParseInt(values[i]).Some?
    ensures v.Rejected? && v.reason.WrongCount? <==>
              |values| != RecordLength && forall i :: 0 <= i < |values| ==> ParseInt(values[i]).Some?
    ensures v.Rejected? && v.reason.WrongCount? ==> v.reason.count == |values|
    ensures v.Rejected? && v.reason.NotAnInteger? ==>
              exists k :: 0 <= k < |values| && values[k] == v.reason.token && ParseInt(values[k]).None?
                          && forall j :: 0 <= j < k ==> ParseInt(values[j]).Some?
  {
    match ParseCells(values)
    case Err(e) => Rejected(NotAnInteger(e.literal))
    case Ok(_) => if |values| != RecordLength then Rejected(WrongCount(|values|)) else Accepted
  }

  /** `validate_data(values)`: true exactly for six integer tokens. */
  function ValidateData(values: seq<string>): (ok: bool)
    ensures ok <==> |values| == RecordLength && forall i :: 0 <= i < |values| ==> ParseInt(values[i]).Some?
  {
    Validate(values).Accepted?
  }

  /** One line typed at the prompt: split on commas, validated, and on
      acceptance converted with `[int(num) for num in data]` as `main` does. */
  function SalesFromLine(line: string): Option<seq<int>>
  {
    var tokens := Split(line, ',');
    if ValidateData(tokens) then Some(ParseCells(tokens).value) else None
  }

  /** A line is accepted exactly when it has five commas and every piece
      between them is an integer; the record is those integers in order. */
  lemma SalesLineAccepted(line: string)
    ensures SalesFromLine(line).Some? <==>
              Count(line, ',') == 5 && forall i :: 0 <= i < |Split(line, ',')| ==> ParseInt(Split(line, ',')[i]).Some?
    ensures SalesFromLine(line).Some? ==>
              var r := SalesFromLine(line).value;
              |r| == RecordLength && forall i :: 0 <= i < |r| ==> ParseInt(Split(line, ',')[i]) == Some(r[i])
  {
    SplitCount(line, ',');
  }

  /** Six integers written with commas between them are read back unchanged. */
  lemma SalesLineRoundTrip(xs: seq<int>)
    requires |xs| == RecordLength
    ensures SalesFromLine(Join(Render(xs), ',')) == Some(xs)
  {
    var cells := Render(xs);
    forall i | 0 <= i < |cells| ensures Free(cells[i], ',') {
      ShowCharacters(xs[i]);
    }
    SplitJoin(cells, ',');
    ParseRender(xs);
  }

  /** An empty line is a single empty token, which is not an integer. */
  lemma EmptyLineRejected()
    ensures Validate(Split("", ',')) == Rejected(NotAnInteger(""))
    ensures SalesFromLine("") == None
  {
    assert Split("", ',') == [""];
    assert ParseInt("").None?;
  }

  /** A trailing comma leaves an empty last token, so the line is refused. */
  lemma TrailingCommaRejected(line: string)
    ensures SalesFromLine(line + ",") == None
  {
    SplitTrailing(line, ',');
    var tokens := Split(line + ",", ',');
    assert tokens[|tokens| - 1] == "";
    assert ParseInt("").None?;
  }

  /** All-integer tokens of the wrong number are refused for their count. */
  lemma WrongCountRejected(line: string)
    requires Count(line, ',') != 5
    ensures SalesFromLine(line) == None
    ensures (forall i :: 0 <= i < |Split(line, ',')| ==> ParseInt(Split(line, ',')[i]).Some?) ==>
              Validate(Split(line, ',')) == Rejected(WrongCount(Count(line, ',') + 1))
  {
    SplitCount(line, ',');
  }
}
