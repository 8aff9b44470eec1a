/**
 * Civil (proleptic Gregorian) date-times as the transform stage sees them
 * once its timestamp columns are parsed, the number of seconds between two
 * of them, and the integer date key `YYYYMMDD` that names a calendar day in
 * the date dimension.
 */
module Timestamps {

  datatype DateTime = DateTime(year: int, month: int, day: int, hour: int, minute: int, second: int)

  /** A calendar day: the `full_date` column of the date dimension. */
  datatype Date = Date(year: int, month: int, day: int)

  predicate IsLeapYear(y: int) {
    y % 4 == 0 && (y % 100 != 0 || y % 400 == 0)
  }

  function DaysInYear(y: int): int {
    if IsLeapYear(y) then 366 else 365
  }

  function DaysInMonth(y: int, m: int): (n: int)
    requires 1 <= m <= 12
    ensures 28 <= n <= 31
    ensures n == 29 <==> m == 2 && IsLeapYear(y)
  {
    if m == 2 then (if IsLeapYear(y) then 29 else 28)
    else if m == 4 || m == 6 || m == 9 || m == 11 then 30
    else 31
  }

  /** A date-time that names a real instant: years 1 to 9999, whole seconds. */
  predicate IsValid(t: DateTime) {
    && 1 <= t.year <= 9999
    && 1 <= t.month <= 12
    && 1 <= t.day <= DaysInMonth(t.year, t.month)
    && 0 <= t.hour < 24
    && 0 <= t.minute < 60
    && 0 <= t.second < 60
  }

  type Timestamp = t: DateTime | IsValid(t) witness DateTime(1970, 1, 1, 0, 0, 0)

  function DateOf(t: Timestamp): Date {
    Date(t.year, t.month, t.day)
  }

  /** Days in the years before year `y`. */
  function DaysBeforeYear(y: int): (n: int)
    requires y >= 1
    ensures n >= 0
  {
    if y == 1 then 0 else DaysBeforeYear(y - 1) + DaysInYear(y - 1)
  }

  /** Days in year `y` before the first of month `m`. */
  function DaysBeforeMonth(y: int, m: int): int
    requires 1 <= m <= 12
  {
    var common :=
      if m == 1 then 0 else if m == 2 then 31 else if m == 3 then 59
      else if m == 4 then 90 else if m == 5 then 120 else if m == 6 then 151
      else if m == 7 then 181 else if m == 8 then 212 else if m == 9 then 243
      else if m == 10 then 273 else if m == 11 then 304 else 334;
    common + (if m > 2 && IsLeapYear(y) then 1 else 0)
  }

  /** The day number of `t`'s calendar day; 0001-01-01 is day 1. */
  function DayNumber(t: Timestamp): int {
    DaysBeforeYear(t.year) + DaysBeforeMonth(t.year, t.month) + t.day
  }

  /** Seconds from 0001-01-01 00:00:00 to `t`. */
  function Seconds(t: Timestamp): int {
    DayNumber(t) * 86400 + t.hour * 3600 + t.minute * 60 + t.second
  }

  /** Chronological order, field by field from the year down to the second. */
  predicate Before(a: DateTime, b: DateTime) {
    || a.year < b.year
    || (a.year == b.year && a.month < b.month)
    || (a.year == b.year && a.month == b.month && a.day < b.day)
    || (a.year == b.year && a.month == b.month && a.day == b.day && a.hour < b.hour)
    || (a.year == b.year && a.month == b.month && a.day == b.day && a.hour == b.hour && a.minute < b.minute)
    || (a.year == b.year && a.month == b.month && a.day == b.day && a.hour == b.hour && a.minute == b.minute && a.second < b.second)
  }

  /** Every day of year `y1` comes before the first day of any later year. */
  lemma {:induction false} DaysBeforeYearGrows(y1: int, y2: int)
    requires 1 <= y1 < y2
    ensures DaysBeforeYear(y1) + DaysInYear(y1) <= DaysBeforeYear(y2)
    decreases y2 - y1
  {
    if y1 + 1 < y2 {
      DaysBeforeYearGrows(y1 + 1, y2);
    }
  }

  lemma DaysBeforeMonthGrows(y: int, m1: int, m2: int)
    requires 1 <= m1 < m2 <= 12
    ensures DaysBeforeMonth(y, m1) + DaysInMonth(y, m1) <= DaysBeforeMonth(y, m2)
  {
  }

  /** The last day of a year is still inside it. */
  lemma DayNumberWithinYear(t: Timestamp)
    ensures DaysBeforeYear(t.year) < DayNumber(t) <= DaysBeforeYear(t.year) + DaysInYear(t.year)
  {
  }

  /** Day numbers follow the calendar: earlier day, smaller number; same day, same number. */
  lemma DayNumberOrder(a: Timestamp, b: Timestamp)
    ensures DateOf(a) == DateOf(b) ==> DayNumber(a) == DayNumber(b)
    ensures (a.year < b.year || (a.year == b.year && a.month < b.month)
             || (a.year == b.year && a.month == b.month && a.day < b.day))
            ==> DayNumber(a) < DayNumber(b)
  {
    DayNumberWithinYear(a);
    if a.year < b.year {
      DaysBeforeYearGrows(a.year, b.year);
    } else if a.year == b.year && a.month < b.month {
      DaysBeforeMonthGrows(a.year, a.month, b.month);
    }
  }

  /**
   * Seconds measure chronological order exactly: `a` is before `b` if and
   * only if it has fewer seconds, and two timestamps with the same number of
   * seconds are the same timestamp.
   */
  lemma {:induction false} SecondsOrder(a: Timestamp, b: Timestamp)
    ensures Before(a, b) <==> Seconds(a) < Seconds(b)
    ensures Seconds(a) == Seconds(b) <==> a == b
  {
    DayNumberOrder(a, b);
    DayNumberOrder(b, a);
    var ta := a.hour * 3600 + a.minute * 60 + a.second;
    var tb := b.hour * 3600 + b.minute * 60 + b.second;
    assert 0 <= ta < 86400 && 0 <= tb < 86400;
    if DateOf(a) == DateOf(b) {
      assert Seconds(b) - Seconds(a) == tb - ta;
    } else if DayNumber(a) < DayNumber(b) {
      assert Seconds(a) < Seconds(b);
    } else {
      assert DayNumber(b) < DayNumber(a);
      assert Seconds(b) < Seconds(a);
    }
  }

  /** The integer key of `t`'s calendar day, `YYYY*10000 + MM*100 + DD`. */
  function DateKey(t: Timestamp): (k: int)
    ensures 10101 <= k <= 99991231
  {
    t.year * 10000 + t.month * 100 + t.day
  }

  /** Reads the calendar day back out of a date key. */
  function DateOfKey(k: int): Date {
    Date(k / 10000, k / 100 % 100, k % 100)
  }

  /** The date key is an exact encoding of the calendar day of a timestamp. */
  lemma DateKeyRoundTrip(t: Timestamp)
    ensures DateOfKey(DateKey(t)) == DateOf(t)
  {
    var k := DateKey(t);
    assert k / 100 == t.year * 100 + t.month;
  }

  /** Two timestamps get the same date key exactly when they fall on the same day. */
  lemma DateKeyInjective(a: Timestamp, b: Timestamp)
    ensures DateKey(a) == DateKey(b) <==> DateOf(a) == DateOf(b)
  {
    DateKeyRoundTrip(a);
    DateKeyRoundTrip(b);
  }

  /** For four-digit years the key has exactly eight decimal digits. */
  lemma DateKeyEightDigits(t: Timestamp)
    requires t.year >= 1000
    ensures 10000000 <= DateKey(t) <= 99999999
  {
  }
}
