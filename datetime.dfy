/**
 * The date and time formats the validator accepts: the two regular
 * expressions it matches, read character by character, and the calendar
 * check `time.Parse("2006-01-02", ...)` adds on top of the date pattern.
 */
module DateTime {
  import opened Conv

  /**
   * `^[0-9]{4}-(1[0-2]|0[1-9])-(3[01]|[12][0-9]|0[1-9])$`: ten characters,
   * four digits, '-', a month 01-12, '-', a day 01-31.
   */
  predicate IsDateFormat(d: string) {
    |d| == 10
    && IsDigit(d[0]) && IsDigit(d[1]) && IsDigit(d[2]) && IsDigit(d[3])
    && d[4] == '-'
    && ((d[5] == '1' && '0' <= d[6] <= '2') || (d[5] == '0' && '1' <= d[6] <= '9'))
    && d[7] == '-'
    && ((d[8] == '3' && (d[9] == '0' || d[9] == '1'))
        || ('1' <= d[8] <= '2' && IsDigit(d[9]))
        || (d[8] == '0' && '1' <= d[9] <= '9'))
  }

  /** `YYYY-MM-DD` as a shape: digits where the numbers go and the two dashes. */
  predicate IsDateShape(d: string) {
    |d| == 10 && d[4] == '-' && d[7] == '-'
    && IsDigit(d[0]) && IsDigit(d[1]) && IsDigit(d[2]) && IsDigit(d[3])
    && IsDigit(d[5]) && IsDigit(d[6]) && IsDigit(d[8]) && IsDigit(d[9])
  }

  function TwoDigits(a: char, b: char): (n: nat)
    requires IsDigit(a) && IsDigit(b)
    ensures n < 100
  {
    10 * DigitValue(a) + DigitValue(b)
  }

  function Year(d: string): nat
    requires IsDateShape(d)
  {
    100 * TwoDigits(d[0], d[1]) + TwoDigits(d[2], d[3])
  }

  function Month(d: string): nat
    requires IsDateShape(d)
  {
    TwoDigits(d[5], d[6])
  }

  function Day(d: string): nat
    requires IsDateShape(d)
  {
    TwoDigits(d[8], d[9])
  }

  /** The date pattern accepts exactly the well-shaped dates with month 1-12 and day 1-31. */
  lemma {:induction false} DateFormatMeaning(d: string)
    ensures IsDateFormat(d) <==> IsDateShape(d) && 1 <= Month(d) <= 12 && 1 <= Day(d) <= 31
  {
    if IsDateShape(d) {
      assert Month(d) == 10 * DigitValue(d[5]) + DigitValue(d[6]);
      assert Day(d) == 10 * DigitValue(d[8]) + DigitValue(d[9]);
    }
  }

  /** The proleptic Gregorian leap-year rule Go's time package uses. */
  predicate IsLeapYear(y: nat) {
    y % 4 == 0 && (y % 100 != 0 || y % 400 == 0)
  }

  function DaysInMonth(month: nat, year: nat): (n: nat)
    requires 1 <= month <= 12
    ensures 28 <= n <= 31
  {
    if month == 2 then (if IsLeapYear(year) then 29 else 28)
    else if month == 4 || month == 6 || month == 9 || month == 11 then 30
    else 31
  }

  /**
   * `time.Parse("2006-01-02", d)` succeeds on a date the pattern accepted
   * exactly when the day exists in that month of that year.
   */
  predicate IsCalendarDate(d: string) {
    IsDateFormat(d) && (DateFormatMeaning(d); Day(d) <= DaysInMonth(Month(d), Year(d)))
  }

  /** The 29th of February passes the calendar check exactly in leap years. */
  lemma {:induction false} LeapDay(d: string)
    requires IsDateShape(d) && Month(d) == 2 && Day(d) == 29
    ensures IsCalendarDate(d) <==> IsLeapYear(Year(d))
  {
    DateFormatMeaning(d);
  }

  /** `^(((0|1)[0-9])|(2[0-3])):((0|1|2|3|4|5)[0-9])$`: five characters, an hour 00-23, ':', a minute 00-59. */
  predicate IsTimeFormat(t: string) {
    |t| == 5
    && (((t[0] == '0' || t[0] == '1') && IsDigit(t[1])) || (t[0] == '2' && '0' <= t[1] <= '3'))
    && t[2] == ':'
    && '0' <= t[3] <= '5' && IsDigit(t[4])
  }

  predicate IsTimeShape(t: string) {
    |t| == 5 && t[2] == ':' && IsDigit(t[0]) && IsDigit(t[1]) && IsDigit(t[3]) && IsDigit(t[4])
  }

  function Hour(t: string): nat
    requires IsTimeShape(t)
  {
    TwoDigits(t[0], t[1])
  }

  function Minute(t: string): nat
    requires IsTimeShape(t)
  {
    TwoDigits(t[3], t[4])
  }

  /** Minutes since midnight. */
  function MinuteOfDay(t: string): nat
    requires IsTimeShape(t)
  {
    60 * Hour(t) + Minute(t)
  }

  /** The time pattern accepts exactly the well-shaped times with hour 0-23 and minute 0-59. */
  lemma {:induction false} TimeFormatMeaning(t: string)
    ensures IsTimeFormat(t) <==> IsTimeShape(t) && Hour(t) <= 23 && Minute(t) <= 59
  {
    if IsTimeShape(t) {
      assert Hour(t) == 10 * DigitValue(t[0]) + DigitValue(t[1]);
      assert Minute(t) == 10 * DigitValue(t[3]) + DigitValue(t[4]);
    }
  }
}
