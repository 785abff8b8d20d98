/** The proleptic Gregorian day arithmetic of ECMAScript time values (ECMA-262, "Time Values and
    Time Range"), on whole days since 1970-01-01. Months count from 0, as in JavaScript. */
module Calendar {

  predicate IsLeap(y: int) {
    y % 4 == 0 && (y % 100 != 0 || y % 400 == 0)
  }

  function DayFromYear(y: int): int {
    365 * (y - 1970) + (y - 1969) / 4 - (y - 1901) / 100 + (y - 1601) / 400
  }

  function DaysInYear(y: int): int {
    if IsLeap(y) then 366 else 365
  }

  lemma FourthYears(y: int)
    ensures (y - 1968) / 4 == (y - 1969) / 4 + (if y % 4 == 0 then 1 else 0)
  {
  }

  lemma Centuries(y: int)
    ensures (y - 1900) / 100 == (y - 1901) / 100 + (if y % 100 == 0 then 1 else 0)
    ensures y % 100 == 0 ==> y % 4 == 0
  {
  }

  lemma FourthCenturies(y: int)
    ensures (y - 1600) / 400 == (y - 1601) / 400 + (if y % 400 == 0 then 1 else 0)
    ensures y % 400 == 0 ==> y % 100 == 0
  {
  }

  lemma YearLength(y: int)
    ensures DayFromYear(y + 1) == DayFromYear(y) + DaysInYear(y)
  {
    FourthYears(y);
    Centuries(y);
    FourthCenturies(y);
  }

  lemma {:induction false} YearsIncrease(y: int, y': int)
    requires y <= y'
    ensures DayFromYear(y) + 365 * (y' - y) <= DayFromYear(y') <= DayFromYear(y) + 366 * (y' - y)
    decreases y' - y
  {
    if y < y' {
      YearLength(y);
      YearsIncrease(y + 1, y');
    }
  }

  /** Days before month `m` (0 to 12) of a year. */
  function DaysBefore(leap: bool, m: int): int
    requires 0 <= m <= 12
  {
    [0, 31, 59, 90, 120, 151, 181, 212, 243, 273, 304, 334, 365][m] + (if leap && m >= 2 then 1 else 0)
  }

  function DaysInMonth(leap: bool, m: int): (n: int)
    requires 0 <= m < 12
    ensures 28 <= n <= 31
  {
    DaysBefore(leap, m + 1) - DaysBefore(leap, m)
  }

  /** The day that a year, month and date name; months and dates out of range carry over. */
  function MakeDay(year: int, month: int, date: int): int {
    var y, m := year + month / 12, month % 12;
    DayFromYear(y) + DaysBefore(IsLeap(y), m) + date - 1
  }

  /** The year a day falls in: estimated from the mean year, then corrected by at most one. */
  function YearOf(day: int): (y: int)
    ensures DayFromYear(y) <= day < DayFromYear(y + 1)
  {
    var guess := 1970 + day * 400 / 146097;
    GuessIsClose(day);
    if day < DayFromYear(guess) then guess - 1
    else if day >= DayFromYear(guess + 1) then guess + 1
    else guess
  }

  lemma GuessIsClose(day: int)
    ensures var guess := 1970 + day * 400 / 146097;
            DayFromYear(guess - 1) <= day < DayFromYear(guess + 2)
  {
    var guess := 1970 + day * 400 / 146097;
    var k := guess - 1970;
    assert 146097 * k <= day * 400 < 146097 * (k + 1);
    MeanYear(guess - 1);
    MeanYear(guess + 2);
  }

  /** A year starts within two days of where the mean Gregorian year puts it. */
  lemma MeanYear(y: int)
    ensures 146097 * (y - 1970) - 800 <= 400 * DayFromYear(y) <= 146097 * (y - 1970) + 800
  {
    var a, b, c := (y - 1969) / 4, (y - 1901) / 100, (y - 1601) / 400;
    assert 4 * a <= y - 1969 <= 4 * a + 3;
    assert 100 * b <= y - 1901 <= 100 * b + 99;
    assert 400 * c <= y - 1601 <= 400 * c + 399;
  }

  function DayInYear(day: int): (d: int)
    ensures 0 <= d < DaysInYear(YearOf(day))
  {
    YearLength(YearOf(day));
    day - DayFromYear(YearOf(day))
  }

  /** The month that holds a day of the year. */
  function MonthHolding(leap: bool, d: int): (m: int)
    requires 0 <= d < DaysBefore(leap, 12)
    ensures 0 <= m < 12 && DaysBefore(leap, m) <= d < DaysBefore(leap, m + 1)
  {
    if d < DaysBefore(leap, 1) then 0
    else if d < DaysBefore(leap, 2) then 1
    else if d < DaysBefore(leap, 3) then 2
    else if d < DaysBefore(leap, 4) then 3
    else if d < DaysBefore(leap, 5) then 4
    else if d < DaysBefore(leap, 6) then 5
    else if d < DaysBefore(leap, 7) then 6
    else if d < DaysBefore(leap, 8) then 7
    else if d < DaysBefore(leap, 9) then 8
    else if d < DaysBefore(leap, 10) then 9
    else if d < DaysBefore(leap, 11) then 10
    else 11
  }

  function MonthOf(day: int): (m: int)
    ensures 0 <= m < 12
  {
    MonthHolding(IsLeap(YearOf(day)), DayInYear(day))
  }

  function DateOf(day: int): (d: int)
    ensures 1 <= d <= 31
  {
    DayInYear(day) - DaysBefore(IsLeap(YearOf(day)), MonthOf(day)) + 1
  }

  predicate IsDate(year: int, month: int, date: int) {
    0 <= month < 12 && 1 <= date <= DaysInMonth(IsLeap(year), month)
  }

  /** Taking a day apart and putting it together again. */
  lemma PartsMakeTheDay(day: int)
    ensures IsDate(YearOf(day), MonthOf(day), DateOf(day))
    ensures MakeDay(YearOf(day), MonthOf(day), DateOf(day)) == day
  {
    hide DayFromYear, IsLeap;
  }

  lemma YearIsUnique(day: int, y: int)
    requires DayFromYear(y) <= day < DayFromYear(y + 1)
    ensures YearOf(day) == y
  {
    if YearOf(day) < y {
      YearsIncrease(YearOf(day) + 1, y);
    } else if y < YearOf(day) {
      YearsIncrease(y + 1, YearOf(day));
    }
  }

  lemma MonthStartsIncrease(leap: bool, m: int, m': int)
    requires 0 <= m <= m' <= 12
    ensures DaysBefore(leap, m) + 28 * (m' - m) <= DaysBefore(leap, m') <= DaysBefore(leap, m) + 31 * (m' - m)
  {
  }

  lemma YearInMonths(year: int)
    ensures DaysBefore(IsLeap(year), 0) == 0 && DaysBefore(IsLeap(year), 12) == DaysInYear(year)
  {
    hide IsLeap;
  }

  lemma MonthIsUnique(leap: bool, d: int, m: int)
    requires 0 <= m < 12 && 0 <= d < DaysBefore(leap, 12) && DaysBefore(leap, m) <= d < DaysBefore(leap, m + 1)
    ensures MonthHolding(leap, d) == m
  {
    hide DaysBefore, MonthHolding;
    var m' := MonthHolding(leap, d);
    if m' < m {
      MonthStartsIncrease(leap, m' + 1, m);
    } else if m < m' {
      MonthStartsIncrease(leap, m + 1, m');
    }
  }

  /** A date of the calendar is taken apart into exactly its own year, month and date. */
  lemma DateHasItsParts(year: int, month: int, date: int)
    requires IsDate(year, month, date)
    ensures var day := MakeDay(year, month, date);
            YearOf(day) == year && MonthOf(day) == month && DateOf(day) == date
  {
    hide DayFromYear, IsLeap, DaysBefore, MonthHolding;
    var leap := IsLeap(year);
    var d := DaysBefore(leap, month) + date - 1;
    YearInMonths(year);
    YearLength(year);
    MonthStartsIncrease(leap, 0, month);
    MonthStartsIncrease(leap, month + 1, 12);
    YearIsUnique(DayFromYear(year) + d, year);
    MonthIsUnique(leap, d, month);
  }

  /** Day 0 was a Thursday; Sunday is 0. */
  function WeekDay(day: int): (w: int)
    ensures 0 <= w < 7
  {
    (day + 4) % 7
  }

  // ---- The mutable Date object --------------------------------------------------------------

  function WithDate(day: int, date: int): int {
    MakeDay(YearOf(day), MonthOf(day), date)
  }

  function WithFullYear(day: int, year: int): int {
    MakeDay(year, MonthOf(day), DateOf(day))
  }

  /** `Date.UTC`: a two-digit year means 19xx. */
  function DateUTC(year: int, month: int, date: int): int {
    MakeDay(if 0 <= year <= 99 then 1900 + year else year, month, date)
  }

  /** A UTC date whose day setters move it in place; the time of day never changes. */
  class UtcDate {
    var day: int

    constructor (day: int)
      ensures this.day == day
    {
      this.day := day;
    }

    method SetUTCDate(date: int)
      modifies this
      ensures day == WithDate(old(day), date)
    {
      day := MakeDay(YearOf(day), MonthOf(day), date);
    }

    method SetUTCFullYear(year: int)
      modifies this
      ensures day == WithFullYear(old(day), year)
    {
      day := MakeDay(year, MonthOf(day), DateOf(day));
    }
  }

  /** Adding to the date moves on by that many days, over month and year ends alike. */
  lemma AddingDays(day: int, k: int)
    ensures WithDate(day, DateOf(day) + k) == day + k
  {
    hide DayFromYear, IsLeap;
    PartsMakeTheDay(day);
  }

  // ---- Rolling a day to another year ----------------------------------------------------------

  /** A day of a month, including days past its end, stays in its year. */
  lemma OverflowStaysInYear(year: int, month: int, date: int)
    requires 0 <= month < 12 && 1 <= date <= 31
    ensures YearOf(MakeDay(year, month, date)) == year
  {
    hide DayFromYear, IsLeap;
    YearLength(year);
    YearIsUnique(MakeDay(year, month, date), year);
  }

  /** The same month and date one year on is 365 or 366 days later, and in the next year. */
  lemma SameDateNextYear(day: int)
    ensures var next := WithFullYear(day, YearOf(day) + 1);
            365 <= next - day <= 366 && YearOf(next) == YearOf(day) + 1
  {
    hide DayFromYear, IsLeap;
    PartsMakeTheDay(day);
    YearLength(YearOf(day));
    OverflowStaysInYear(YearOf(day) + 1, MonthOf(day), DateOf(day));
  }
}
