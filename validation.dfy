/**
 * The argument errors both variants of GetCharts report before any page is
 * fetched, with their message texts, which callers compare literally.
 */
module Validation {
  import opened Results
  import opened GoText

  /** An out-of-range argument, carrying the value the caller gave. */
  datatype ArgumentError = InvalidDay(got: int) | InvalidMonth(got: int) | InvalidYear(got: int)

  /** The text fmt.Errorf produces for each argument error. */
  function Message(e: ArgumentError): (r: string)
    ensures |Itoa(e.got)| < |r| && r[|r| - |Itoa(e.got)|..] == Itoa(e.got)
  {
    match e
    case InvalidDay(got) => "invalid day, expecting value between 1-31 inclusive, got " + Itoa(got)
    case InvalidMonth(got) => "invalid month, expecting value between 1-12 inclusive, got " + Itoa(got)
    case InvalidYear(got) => "invalid year, expecting value between 1952 and current year, got " + Itoa(got)
  }

  /** Every message ends with the offending value written in decimal, which reads back as that value. */
  lemma MessageReportsValue(e: ArgumentError)
    requires MinInt64 <= e.got <= MaxInt64
    ensures |Itoa(e.got)| <= |Message(e)|
    ensures Atoi(Message(e)[|Message(e)| - |Itoa(e.got)|..]) == Ok(e.got)
  {
    var m := Message(e);
    var v := Itoa(e.got);
    assert m[|m| - |v|..] == v;
    AtoiItoa(e.got);
  }

  /** The exact messages the package's tests expect for their three bad dates. */
  lemma YearTestMessage()
    ensures Message(InvalidYear(1950)) == "invalid year, expecting value between 1952 and current year, got 1950"
  {
    assert Decimal(1) == "1" && Decimal(19) == "19" && Decimal(195) == "195";
    assert Itoa(1950) == "1950";
  }

  lemma MonthTestMessage()
    ensures Message(InvalidMonth(100)) == "invalid month, expecting value between 1-12 inclusive, got 100"
  {
    assert Decimal(1) == "1" && Decimal(10) == "10";
    assert Itoa(100) == "100";
  }

  lemma DayTestMessage()
    ensures Message(InvalidDay(50)) == "invalid day, expecting value between 1-31 inclusive, got 50"
  {
    assert Decimal(5) == "5";
    assert Itoa(50) == "50";
  }
}
