/**
 * Calendar dates as (year, month, day) triples, with the month arithmetic of
 * JavaScript's `Date.setMonth` and `Date.setFullYear`: a day that does not
 * exist in the target month rolls over into the following month.
 */
module Dates {

  /** A calendar date; `month` is 1..12 and `day` is 1-based. */
  datatype Date = Date(year: int, month: int, day: int)

  predicate IsLeapYear(y: int) {
    (y % 4 == 0 && y % 100 != 0) || y % 400 == 0
  }

  function DaysInMonth(y: int, m: int): (n: int)
    requires 1 <= m <= 12
    ensures 28 <= n <= 31
    ensures m == 2 ==> (n == 29 <==> IsLeapYear(y))
    ensures m == 12 ==> n == 31
  {
    if m == 2 then (if IsLeapYear(y) then 29 else 28)
    else if m == 4 || m == 6 || m == 9 || m == 11 then 30
    else 31
  }

  predicate ValidDate(d: Date) {
    1 <= d.month <= 12 && 1 <= d.day <= DaysInMonth(d.year, d.month)
  }

  /** A date that exists in the proleptic Gregorian calendar (a YYYY-MM-DD string). */
  type CalDate = d: Date | ValidDate(d) witness Date(1970, 1, 1)

  /**
   * A number that grows with the date: the year, then the month, then the
   * day, as in a YYYY-MM-DD string (a month has at most 31 days).
   */
  function DayKey(d: Date): int {
    (d.year * 13 + d.month) * 32 + d.day
  }

  /**
   * Strict chronological order. On YYYY-MM-DD strings this is also the
   * lexicographic string order, which is how the filters compare dates.
   */
  predicate Before(a: Date, b: Date) {
    DayKey(a) < DayKey(b)
  }

  /** On valid dates the order is the year, then the month, then the day. */
  lemma BeforeIsLexicographic(a: CalDate, b: CalDate)
    ensures Before(a, b) <==>
      a.year < b.year || (a.year == b.year && (a.month < b.month || (a.month == b.month && a.day < b.day)))
  {
  }

  /** Months elapsed since January of year 0. */
  function MonthIndex(d: Date): int {
    d.year * 12 + (d.month - 1)
  }

  /** A date that is before another lies in the same or an earlier month. */
  lemma BeforeMonthIndex(a: CalDate, b: CalDate)
    requires Before(a, b)
    ensures MonthIndex(a) <= MonthIndex(b)
  {
    BeforeIsLexicographic(a, b);
  }

  /**
   * What `new Date(y, m - 1, day)` denotes when `day` overshoots month m by at
   * most three days (the overshoot lands in the next month).
   */
  function Normalise(y: int, m: int, day: int): (r: CalDate)
    requires 1 <= m <= 12 && 1 <= day <= 31
    ensures r.year == y
    ensures day <= DaysInMonth(y, m) ==> r == Date(y, m, day)
    ensures day > DaysInMonth(y, m) ==> m < 12 && r == Date(y, m + 1, day - DaysInMonth(y, m))
  {
    if day <= DaysInMonth(y, m) then Date(y, m, day)
    else Date(y, m + 1, day - DaysInMonth(y, m))
  }

  /**
   * `d.setMonth(d.getMonth() + 1)`: the same day of the next month, or, when the
   * next month is too short, the overshoot into the month after it
   * (31 January 2023 becomes 3 March 2023).
   */
  function AddMonth(d: CalDate): (r: CalDate)
    ensures Before(d, r)
    ensures MonthIndex(r) == MonthIndex(d) + 1 <==> r.day == d.day
    ensures MonthIndex(r) == MonthIndex(d) + 1 || MonthIndex(r) == MonthIndex(d) + 2
    ensures MonthIndex(r) == MonthIndex(d) + 2 ==> r.day < d.day
  {
    if d.month == 12 then Normalise(d.year + 1, 1, d.day)
    else Normalise(d.year, d.month + 1, d.day)
  }

  /**
   * `d.setFullYear(d.getFullYear() + 1)`: the same month and day one year on,
   * except that 29 February becomes 1 March.
   */
  function AddYear(d: CalDate): (r: CalDate)
    ensures Before(d, r)
    ensures r.year == d.year + 1
    ensures r == Date(d.year + 1, d.month, d.day) <==> !(d.month == 2 && d.day == 29)
    ensures d.month == 2 && d.day == 29 ==> r == Date(d.year + 1, 3, 1)
    ensures MonthIndex(r) >= MonthIndex(d) + 12
  {
    assert d.month == 2 && d.day == 29 ==> IsLeapYear(d.year) && !IsLeapYear(d.year + 1);
    Normalise(d.year + 1, d.month, d.day)
  }

  /**
   * `d.setMonth(d.getMonth() - n)`: the same day n months back, or, when that
   * month is too short, the overshoot into the month after it (31 May 2024
   * moved back three months is 2 March 2024, not a day of February).
   */
  function MonthsBack(d: CalDate, n: nat): (r: CalDate)
    ensures var t := MonthIndex(d) - n;
      && (d.day <= DaysInMonth(t / 12, t % 12 + 1) ==> MonthIndex(r) == t && r.day == d.day)
      && (d.day > DaysInMonth(t / 12, t % 12 + 1) ==>
            MonthIndex(r) == t + 1 && r.day == d.day - DaysInMonth(t / 12, t % 12 + 1))
    ensures MonthIndex(r) == MonthIndex(d) - n || MonthIndex(r) == MonthIndex(d) - n + 1
    ensures d.day <= 28 ==> MonthIndex(r) == MonthIndex(d) - n && r.day == d.day
    ensures n == 0 ==> r == d
  {
    var t := MonthIndex(d) - n;
    var y, m := t / 12, t % 12 + 1;
    assert y * 12 + (m - 1) == t;
    assert n == 0 ==> y == d.year && m == d.month by {
      MonthIndexSplit(d);
    }
    Normalise(y, m, d.day)
  }

  /** The month index splits back into the date's year and month. */
  lemma MonthIndexSplit(d: CalDate)
    ensures MonthIndex(d) / 12 == d.year && MonthIndex(d) % 12 == d.month - 1
  {
  }

  /**
   * `setMonth` on 31 May 2024 going back n = 1 .. 5 months: 1 May, 31 March,
   * 2 March, 31 January, 31 December 2023.
   */
  lemma MonthEndMonthsBack(n: nat)
    requires 1 <= n <= 5
    ensures MonthsBack(Date(2024, 5, 31), n)
         == [Date(2024, 5, 1), Date(2024, 3, 31), Date(2024, 3, 2), Date(2024, 1, 31), Date(2023, 12, 31)][n - 1]
  {
  }

  /** `tomorrow.setDate(today.getDate() + 1)`: the calendar day after `d`. */
  function NextDay(d: CalDate): (r: CalDate)
    ensures Before(d, r)
    ensures forall x: Date :: ValidDate(x) && Before(d, x) ==> !Before(x, r)
  {
    var r: CalDate :=
      if d.day < DaysInMonth(d.year, d.month) then Date(d.year, d.month, d.day + 1)
      else if d.month < 12 then Date(d.year, d.month + 1, 1)
      else Date(d.year + 1, 1, 1);
    assert forall x: Date :: ValidDate(x) && Before(d, x) ==> !Before(x, r) by {
      forall x: Date | ValidDate(x) && Before(d, x) ensures !Before(x, r) {
        BeforeIsLexicographic(d, x);
        BeforeIsLexicographic(x, r);
      }
    }
    r
  }
}
