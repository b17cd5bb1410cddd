/**
 * Calendar dates in the "2006-01-02" layout of Go's `time` package: the
 * validator that `time.Parse` applies with that layout, and the formatting
 * `Format` produces with it.
 */
module CivilDates {
  import opened Wrappers
  import opened Decimal

  datatype CivilDate = CivilDate(year: int, month: int, day: int)

  /** Gregorian leap years, as Go's `isLeap`. */
  predicate IsLeap(year: int) {
    year % 4 == 0 && (year % 100 != 0 || year % 400 == 0)
  }

  /** Number of days in a month, as Go's `daysIn`. */
  function DaysIn(month: int, year: int): (n: int)
    requires 1 <= month <= 12
    ensures 28 <= n <= 31
    ensures month == 2 ==> (n == 29 <==> IsLeap(year))
  {
    if month == 2 then (if IsLeap(year) then 29 else 28)
    else if month == 4 || month == 6 || month == 9 || month == 11 then 30
    else 31
  }

  /** A real calendar day whose year has four digits. */
  predicate ValidCivil(d: CivilDate) {
    0 <= d.year <= 9999 && 1 <= d.month <= 12 && 1 <= d.day <= DaysIn(d.month, d.year)
  }

  /** A calendar day as the clock can report it. */
  type ValidDate = d: CivilDate | ValidCivil(d) witness CivilDate(2000, 1, 1)

  function DigitAt(s: string, i: nat): int
    requires i < |s|
  {
    s[i] as int - '0' as int
  }

  /** Whether `s` has the shape dddd-dd-dd. */
  predicate DateShaped(s: string) {
    && |s| == 10
    && IsDigit(s[0]) && IsDigit(s[1]) && IsDigit(s[2]) && IsDigit(s[3]) && s[4] == '-'
    && IsDigit(s[5]) && IsDigit(s[6]) && s[7] == '-'
    && IsDigit(s[8]) && IsDigit(s[9])
  }

  /**
   * `time.Parse("2006-01-02", s)`: exactly four year digits, '-', a two-digit
   * month from 01 to 12, '-', a two-digit day that exists in that month of that
   * year, and nothing after it.
   */
  function ParseDate(s: string): (r: Option<CivilDate>)
    ensures r.Some? ==> DateShaped(s) && ValidCivil(r.value)
  {
    if !DateShaped(s) then None
    else
      var year := 1000 * DigitAt(s, 0) + 100 * DigitAt(s, 1) + 10 * DigitAt(s, 2) + DigitAt(s, 3);
      var month := 10 * DigitAt(s, 5) + DigitAt(s, 6);
      var day := 10 * DigitAt(s, 8) + DigitAt(s, 9);
      if 1 <= month <= 12 && 1 <= day <= DaysIn(month, year) then Some(CivilDate(year, month, day))
      else None
  }

  predicate IsValidDate(s: string) {
    ParseDate(s).Some?
  }

  /** Two zero-padded digits. */
  function Pad2(n: nat): (s: string)
    requires n < 100
    ensures |s| == 2 && IsDigit(s[0]) && IsDigit(s[1])
    ensures 10 * (s[0] as int - '0' as int) + (s[1] as int - '0' as int) == n
  {
    [DigitChar(n / 10), DigitChar(n % 10)]
  }

  /** Four zero-padded digits. */
  function Pad4(n: nat): (s: string)
    requires n < 10000
    ensures |s| == 4 && IsDigit(s[0]) && IsDigit(s[1]) && IsDigit(s[2]) && IsDigit(s[3])
    ensures 1000 * (s[0] as int - '0' as int) + 100 * (s[1] as int - '0' as int)
            + 10 * (s[2] as int - '0' as int) + (s[3] as int - '0' as int) == n
  {
    Pad2(n / 100) + Pad2(n % 100)
  }

  /** Two digits are the padding of their own value. */
  lemma Pad2OfDigits(a: char, b: char)
    requires IsDigit(a) && IsDigit(b)
    ensures Pad2(10 * (a as int - '0' as int) + (b as int - '0' as int)) == [a, b]
  {
    var x := a as int - '0' as int;
    var y := b as int - '0' as int;
    assert (10 * x + y) / 10 == x && (10 * x + y) % 10 == y;
  }

  /** `Format("2006-01-02")` of a day: zero-padded year, month and day. */
  function FormatDate(d: ValidDate): (s: string)
    ensures DateShaped(s)
  {
    Pad4(d.year) + "-" + Pad2(d.month) + "-" + Pad2(d.day)
  }

  /** Parsing a formatted day gives the day back. */
  lemma ParseFormat(d: ValidDate)
    ensures ParseDate(FormatDate(d)) == Some(d)
  {
    var s := FormatDate(d);
    var y, m, dd := Pad4(d.year), Pad2(d.month), Pad2(d.day);
    assert s[0] == y[0] && s[1] == y[1] && s[2] == y[2] && s[3] == y[3];
    assert s[5] == m[0] && s[6] == m[1] && s[8] == dd[0] && s[9] == dd[1];
  }

  /** Every accepted string is the formatting of the day it denotes: the layout has one spelling per day. */
  lemma FormatParse(s: string)
    requires IsValidDate(s)
    ensures FormatDate(ParseDate(s).value) == s
  {
    var d := ParseDate(s).value;
    Pad4OfDigits(s[..4]);
    Pad2OfDigits(s[5], s[6]);
    Pad2OfDigits(s[8], s[9]);
    var f := FormatDate(d);
    assert f[..4] == s[..4];
    assert f[5..7] == s[5..7];
    assert f[8..] == s[8..];
    assert f == f[..4] + "-" + f[5..7] + "-" + f[8..];
    assert s == s[..4] + "-" + s[5..7] + "-" + s[8..];
  }

  /** Four digits are the padding of their own value. */
  lemma Pad4OfDigits(s: string)
    requires |s| == 4 && IsDigit(s[0]) && IsDigit(s[1]) && IsDigit(s[2]) && IsDigit(s[3])
    ensures Pad4(1000 * DigitAt(s, 0) + 100 * DigitAt(s, 1) + 10 * DigitAt(s, 2) + DigitAt(s, 3)) == s
  {
    var hi := 10 * DigitAt(s, 0) + DigitAt(s, 1);
    var lo := 10 * DigitAt(s, 2) + DigitAt(s, 3);
    var n := 100 * hi + lo;
    assert n / 100 == hi && n % 100 == lo;
    Pad2OfDigits(s[0], s[1]);
    Pad2OfDigits(s[2], s[3]);
    assert s == [s[0], s[1]] + [s[2], s[3]];
  }

  /** A formatted day is always accepted. */
  lemma FormattedIsValid(d: ValidDate)
    ensures IsValidDate(FormatDate(d))
  {
    ParseFormat(d);
  }

  /** February 29th is accepted exactly in leap years. */
  lemma LeapDay(year: nat)
    requires year <= 9999
    ensures IsValidDate(FormatDate(CivilDate(year, 2, 28))[..5] + "02-29") <==> IsLeap(year)
  {
    var s := FormatDate(CivilDate(year, 2, 28))[..5] + "02-29";
    ParseFormat(CivilDate(year, 2, 28));
    assert 1000 * DigitAt(s, 0) + 100 * DigitAt(s, 1) + 10 * DigitAt(s, 2) + DigitAt(s, 3) == year;
  }
}
