/** Calendar dates as the WHOIS parser hands them over (a `datetime`, of which
    only the date part is ever printed) and their `%Y-%m-%d` rendering. */
module Dates {

  datatype CalendarDate = CalendarDate(year: nat, month: nat, day: nat)

  predicate IsLeapYear(year: nat) {
    year % 4 == 0 && (year % 100 != 0 || year % 400 == 0)
  }

  function DaysInMonth(year: nat, month: nat): nat
    requires 1 <= month <= 12
  {
    if month == 2 then (if IsLeapYear(year) then 29 else 28)
    else if month == 4 || month == 6 || month == 9 || month == 11 then 30
    else 31
  }

  /** A date a `datetime` can hold: years 1 to 9999, a real month, a real day of it. */
  predicate ValidDate(d: CalendarDate) {
    1 <= d.year <= 9999 && 1 <= d.month <= 12 && 1 <= d.day <= DaysInMonth(d.year, d.month)
  }

  type Date = d: CalendarDate | ValidDate(d) witness CalendarDate(1, 1, 1)

  function Pow10(width: nat): (p: nat)
    ensures p >= 1
  {
    if width == 0 then 1 else 10 * Pow10(width - 1)
  }

  predicate IsDigit(c: char) {
    '0' <= c <= '9'
  }

  predicate AllDigits(s: string) {
    forall i :: 0 <= i < |s| ==> IsDigit(s[i])
  }

  function DigitChar(v: nat): char
    requires v < 10
  {
    (48 + v) as char
  }

  function DigitValue(c: char): nat
    requires IsDigit(c)
  {
    c as int - 48
  }

  /** The number a string of decimal digits denotes (most significant digit first). */
  function DecimalValue(s: string): nat
    requires AllDigits(s)
  {
    if s == [] then 0 else 10 * DecimalValue(s[..|s| - 1]) + DigitValue(s[|s| - 1])
  }

  /** `n` written in exactly `width` decimal digits, with leading zeros. */
  function Padded(n: nat, width: nat): (s: string)
    requires n < Pow10(width)
    ensures |s| == width
    ensures AllDigits(s)
    ensures DecimalValue(s) == n
  {
    if width == 0 then []
    else
      var init := Padded(n / 10, width - 1);
      var s := init + [DigitChar(n % 10)];
      assert s[..|s| - 1] == init;
      s
  }

  /** `strftime("%Y-%m-%d")`: four-digit year, two-digit month and day, dash-separated. */
  function FormatDate(d: Date): string {
    Padded(d.year, 4) + "-" + Padded(d.month, 2) + "-" + Padded(d.day, 2)
  }

  /** The text is ten characters, dashes at positions 4 and 7, and the three
      digit groups read back as the year, the month and the day. */
  lemma FormatDateFields(d: Date)
    ensures var s := FormatDate(d);
      |s| == 10 && s[4] == '-' && s[7] == '-' &&
      AllDigits(s[..4]) && AllDigits(s[5..7]) && AllDigits(s[8..]) &&
      DecimalValue(s[..4]) == d.year && DecimalValue(s[5..7]) == d.month && DecimalValue(s[8..]) == d.day
  {
    var y, m, dd := Padded(d.year, 4), Padded(d.month, 2), Padded(d.day, 2);
    var s := y + "-" + m + "-" + dd;
    assert s[..4] == y && s[5..7] == m && s[8..] == dd;
  }

  /** Distinct dates are printed differently: the text determines the date. */
  lemma FormatDateInjective(d1: Date, d2: Date)
    ensures FormatDate(d1) == FormatDate(d2) ==> d1 == d2
  {
    FormatDateFields(d1);
    FormatDateFields(d2);
  }

  /** 15 June 2025 prints as 2025-06-15. */
  lemma FormatDateExample()
    ensures FormatDate(CalendarDate(2025, 6, 15)) == "2025-06-15"
  {
    PaddedExamples();
    assert "2025" + "-" + "06" + "-" + "15" == "2025-06-15";
  }

  lemma PaddedExamples()
    ensures Padded(2025, 4) == "2025" && Padded(6, 2) == "06" && Padded(15, 2) == "15"
  {
    PaddedYear();
    PaddedMonth();
    PaddedDay();
  }

  lemma PaddedYear()
    ensures Padded(2025, 4) == "2025"
  {
    var two, zero := Padded(2, 1), Padded(0, 1);
    assert two == "2" && zero == "0";
    assert Padded(20, 2) == two + zero == "20";
    assert Padded(202, 3) == Padded(20, 2) + two == "202";
    assert Padded(2025, 4) == Padded(202, 3) + "5" == "2025";
  }

  lemma PaddedMonth()
    ensures Padded(6, 2) == "06"
  {
    assert Padded(0, 1) == "0";
    assert Padded(6, 2) == Padded(0, 1) + "6";
  }

  lemma PaddedDay()
    ensures Padded(15, 2) == "15"
  {
    assert Padded(1, 1) == "1";
    assert Padded(15, 2) == Padded(1, 1) + "5";
  }
}
