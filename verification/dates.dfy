/** Publication dates and their `strftime("%d/%m/%y")` rendering. Only the
    calendar date is modelled: the format never shows the time of day. */
module Dates {
  import opened Wrappers

  /** Python's `datetime.MINYEAR` and `datetime.MAXYEAR`. */
  const MinYear: nat := 1
  const MaxYear: nat := 9999

  datatype Date = Date(day: nat, month: nat, year: nat) {
    /** The dates a Python `datetime` can hold. */
    predicate Valid() {
      MinYear <= year <= MaxYear && 1 <= month <= 12 && 1 <= day <= DaysInMonth(month, year)
    }
  }

  /** A date that exists in the proleptic Gregorian calendar. */
  type CalendarDate = d: Date | d.Valid() witness Date(1, 1, 1)

  predicate IsLeapYear(year: nat) {
    year % 4 == 0 && (year % 100 != 0 || year % 400 == 0)
  }

  function DaysInMonth(month: nat, year: nat): (n: nat)
    requires 1 <= month <= 12
    ensures 28 <= n <= 31
    ensures n == 29 <==> month == 2 && IsLeapYear(year)
  {
    if month == 2 then (if IsLeapYear(year) then 29 else 28)
    else if month == 4 || month == 6 || month == 9 || month == 11 then 30
    else 31
  }

  predicate IsDigit(c: char) {
    '0' <= c <= '9'
  }

  function DigitValue(c: char): nat
    requires IsDigit(c)
  {
    c as int - '0' as int
  }

  function Digit(n: nat): (c: char)
    requires n < 10
    ensures IsDigit(c) && DigitValue(c) == n
  {
    (n + '0' as int) as char
  }

  /** The decimal number written by two digit characters. */
  function TwoDigitValue(s: string): nat
    requires |s| == 2 && IsDigit(s[0]) && IsDigit(s[1])
  {
    10 * DigitValue(s[0]) + DigitValue(s[1])
  }

  /** `%d`, `%m` and `%y`: a number below 100, zero-padded to two digits. */
  function TwoDigits(n: nat): (s: string)
    requires n < 100
    ensures |s| == 2 && IsDigit(s[0]) && IsDigit(s[1])
    ensures TwoDigitValue(s) == n
  {
    [Digit(n / 10), Digit(n % 10)]
  }

  /** `pub_date.strftime("%d/%m/%y")`: day, month and the year within its century. */
  function Format(d: CalendarDate): (s: string)
    ensures |s| == 8 && s[2] == '/' && s[5] == '/'
    ensures IsDigit(s[0]) && IsDigit(s[1]) && IsDigit(s[3]) && IsDigit(s[4]) && IsDigit(s[6]) && IsDigit(s[7])
    ensures TwoDigitValue(s[0..2]) == d.day
    ensures TwoDigitValue(s[3..5]) == d.month
    ensures TwoDigitValue(s[6..8]) == d.year % 100
  {
    TwoDigits(d.day) + "/" + TwoDigits(d.month) + "/" + TwoDigits(d.year % 100)
  }

  function ParseTwoDigits(s: string): (r: Option<nat>)
    ensures r.Some? <==> |s| == 2 && IsDigit(s[0]) && IsDigit(s[1])
    ensures r.Some? ==> r.value == TwoDigitValue(s) && r.value < 100
  {
    if |s| == 2 && IsDigit(s[0]) && IsDigit(s[1]) then Some(TwoDigitValue(s)) else None
  }

  /** Reads a "DD/MM/YY" string back into (day, month, two-digit year). */
  function Parse(s: string): (r: Option<(nat, nat, nat)>)
  {
    if |s| == 8 && s[2] == '/' && s[5] == '/' then
      match (ParseTwoDigits(s[0..2]), ParseTwoDigits(s[3..5]), ParseTwoDigits(s[6..8]))
      case (Some(dd), Some(mm), Some(yy)) => Some((dd, mm, yy))
      case _ => None
    else None
  }

  /** Formatting loses only the century: parsing recovers the rest. */
  lemma ParseFormat(d: CalendarDate)
    ensures Parse(Format(d)) == Some((d.day, d.month, d.year % 100))
  {
  }

  /** Two digit characters are determined by the number they write. */
  lemma TwoDigitsUnique(s: string)
    requires |s| == 2 && IsDigit(s[0]) && IsDigit(s[1])
    ensures TwoDigitValue(s) < 100
    ensures s == TwoDigits(TwoDigitValue(s))
  {
    var t := TwoDigits(TwoDigitValue(s));
    assert DigitValue(t[0]) == DigitValue(s[0]);
    assert DigitValue(t[1]) == DigitValue(s[1]);
  }

  /** The converse round trip: a string that parses to a date's fields is that date's rendering. */
  lemma {:induction false} FormatParse(s: string, d: CalendarDate)
    requires Parse(s) == Some((d.day, d.month, d.year % 100))
    ensures Format(d) == s
  {
    TwoDigitsUnique(s[0..2]);
    TwoDigitsUnique(s[3..5]);
    TwoDigitsUnique(s[6..8]);
    assert s == s[0..2] + "/" + s[3..5] + "/" + s[6..8];
  }

  /** Two dates render the same exactly when they agree on day, month and year modulo 100. */
  lemma FormatInjective(d1: CalendarDate, d2: CalendarDate)
    ensures Format(d1) == Format(d2) <==>
      d1.day == d2.day && d1.month == d2.month && d1.year % 100 == d2.year % 100
  {
    ParseFormat(d1);
    ParseFormat(d2);
  }
}
