/** The part of JavaScript's `Date` and of date-fns that the pages and the
    events route use, on the proleptic Gregorian calendar in UTC: day
    numbers counted from 1970-01-01, the local-time constructor
    `new Date(year, monthIndex, day)` with its normalisation of
    out-of-range months and days, and `setMonth`. */
module Dates {
  import opened Common

  const MsPerDay: int := 24 * 60 * 60 * 1000
  const MsPerWeek: int := 7 * MsPerDay

  predicate IsLeapYear(y: int) {
    (y % 4 == 0 && y % 100 != 0) || y % 400 == 0
  }

  /** Month indices run from 0 (January) to 11 (December), as `getMonth`. */
  function DaysInMonth(y: int, m: int): (n: int)
    requires 0 <= m < 12
    ensures 28 <= n <= 31
    ensures m == 11 ==> n == 31
  {
    if m == 1 then (if IsLeapYear(y) then 29 else 28)
    else if m == 3 || m == 5 || m == 8 || m == 10 then 30
    else 31
  }

  function DaysBeforeMonth(y: int, m: int): int
    requires 0 <= m < 12
  {
    var common :=
      if m == 0 then 0 else if m == 1 then 31 else if m == 2 then 59 else if m == 3 then 90
      else if m == 4 then 120 else if m == 5 then 151 else if m == 6 then 181 else if m == 7 then 212
      else if m == 8 then 243 else if m == 9 then 273 else if m == 10 then 304 else 334;
    common + (if m >= 2 && IsLeapYear(y) then 1 else 0)
  }

  lemma {:induction false} MonthStep(y: int, m: int)
    requires 0 <= m < 11
    ensures DaysBeforeMonth(y, m + 1) == DaysBeforeMonth(y, m) + DaysInMonth(y, m)
  {
    if m == 0 {} else if m == 1 {} else if m == 2 {} else if m == 3 {} else if m == 4 {}
    else if m == 5 {} else if m == 6 {} else if m == 7 {} else if m == 8 {} else if m == 9 {}
  }

  /** Number of leap years in the years 1 .. y-1 (and minus that count for
      the years y .. 0 when y <= 0). */
  function LeapYearsBefore(y: int): int {
    (y - 1) / 4 - (y - 1) / 100 + (y - 1) / 400
  }

  function DaysBeforeYear(y: int): int {
    365 * (y - 1970) + LeapYearsBefore(y) - LeapYearsBefore(1970)
  }

  /** Day number (days since 1970-01-01) of day `d` of month index `m` of
      year `y`, where `m` and `d` may be out of range and carry over, as in
      `new Date(y, m, d)`: month 12 is January of the next year, day 0 is
      the last day of the previous month. */
  function DayNumber(y: int, m: int, d: int): int {
    var year := y + m / 12;
    DaysBeforeYear(year) + DaysBeforeMonth(year, m % 12) + d - 1
  }

  /** The year `new Date(y, m, d)` counts in: a year argument from 0 to 99
      stands for 1900 + y. */
  function ConstructorYear(y: int): (r: int)
    ensures 0 <= y <= 99 ==> r == 1900 + y
    ensures !(0 <= y <= 99) ==> r == y
  {
    if 0 <= y <= 99 then 1900 + y else y
  }

  /** `new Date(y, m, d)`: midnight at the start of that day. */
  function StartOfDay(y: int, m: int, d: int): Timestamp {
    DayNumber(ConstructorYear(y), m, d) * MsPerDay
  }

  /** The calendar day an instant falls on (the key `isSameDay` compares). */
  function DayOf(t: Timestamp): int {
    t / MsPerDay
  }

  lemma StartOfDayDay(y: int, m: int, d: int)
    ensures DayOf(StartOfDay(y, m, d)) == DayNumber(ConstructorYear(y), m, d)
  {
  }

  lemma {:induction false} DivStep(y: int, k: int)
    requires k == 4 || k == 100 || k == 400
    ensures y / k - (y - 1) / k == if y % k == 0 then 1 else 0
  {
    var q, r := (y - 1) / k, (y - 1) % k;
    assert y - 1 == k * q + r && 0 <= r < k;
    if r + 1 < k {
      assert y == k * q + (r + 1);
    } else {
      assert y == k * (q + 1);
    }
  }

  lemma {:induction false} DivisibleBy100(y: int)
    ensures y % 100 == 0 ==> y % 4 == 0
    ensures y % 400 == 0 ==> y % 100 == 0
  {
    if y % 100 == 0 {
      assert y == 4 * (25 * (y / 100));
    }
    if y % 400 == 0 {
      assert y == 100 * (4 * (y / 400));
    }
  }

  /** A year has 366 days exactly when it is a leap year. */
  lemma {:induction false} YearLength(y: int)
    ensures DaysBeforeYear(y + 1) - DaysBeforeYear(y) == if IsLeapYear(y) then 366 else 365
  {
    DivStep(y, 4);
    DivStep(y, 100);
    DivStep(y, 400);
    DivisibleBy100(y);
  }

  /** The first day of the following month comes right after the last day
      of this one. */
  lemma {:induction false} NextMonthStart(y: int, m: int)
    ensures DayNumber(y, m + 1, 1) == DayNumber(y, m, 1) + DaysInMonth(y + m / 12, m % 12)
  {
    var year := y + m / 12;
    if m % 12 == 11 {
      assert (m + 1) / 12 == m / 12 + 1 && (m + 1) % 12 == 0;
      YearLength(year);
    } else {
      assert (m + 1) / 12 == m / 12 && (m + 1) % 12 == m % 12 + 1;
      MonthStep(year, m % 12);
    }
  }

  /** A calendar date as `getFullYear`, `getMonth` and `getDate` report it. */
  datatype CalendarDate = CalendarDate(year: int, month: int, day: int)

  predicate ValidDate(d: CalendarDate) {
    0 <= d.month < 12 && 1 <= d.day <= DaysInMonth(d.year, d.month)
  }

  function DateDayNumber(d: CalendarDate): int {
    DayNumber(d.year, d.month, d.day)
  }

  /** Months counted from year 0: consecutive months differ by one. */
  function MonthCount(d: CalendarDate): int {
    d.year * 12 + d.month
  }

  /** `date.setMonth(m)`: keep the day of the month and move to month index
      `m` (carrying into the year); a day past the end of the target month
      spills into the month after, as JavaScript does. The result is the
      same day of month `m`, or, when that day does not exist, an earlier
      day of the month after. */
  function SetMonth(date: CalendarDate, m: int): (r: CalendarDate)
    requires ValidDate(date)
    ensures ValidDate(r)
    ensures MonthCount(r) == date.year * 12 + m <==> r.day == date.day
    ensures MonthCount(r) == date.year * 12 + m || (MonthCount(r) == date.year * 12 + m + 1 && r.day < date.day)
  {
    var year := date.year + m / 12;
    var month := m % 12;
    var length := DaysInMonth(year, month);
    assert year * 12 + month == date.year * 12 + m;
    if date.day <= length then CalendarDate(year, month, date.day)
    else
      assert month < 11;
      CalendarDate(year, month + 1, date.day - length)
  }

  /** `setMonth` moves to the day number of `new Date(year, m, day)`. */
  lemma SetMonthDayNumber(date: CalendarDate, m: int)
    requires ValidDate(date)
    ensures DateDayNumber(SetMonth(date, m)) == DayNumber(date.year, m, date.day)
  {
    var year := date.year + m / 12;
    var month := m % 12;
    var r := SetMonth(date, m);
    assert DayNumber(date.year, m, date.day) == DaysBeforeYear(year) + DaysBeforeMonth(year, month) + date.day - 1;
    if date.day <= DaysInMonth(year, month) {
      assert r == CalendarDate(year, month, date.day);
      DayNumberInYear(year, month, date.day);
    } else {
      assert month < 11;
      assert r == CalendarDate(year, month + 1, date.day - DaysInMonth(year, month));
      DayNumberInYear(year, month + 1, r.day);
      MonthStep(year, month);
    }
  }

  /** For a month index within the year there is no carry. */
  lemma DayNumberInYear(y: int, m: int, d: int)
    requires 0 <= m < 12
    ensures DayNumber(y, m, d) == DaysBeforeYear(y) + DaysBeforeMonth(y, m) + d - 1
  {
    assert m / 12 == 0 && m % 12 == m;
  }

  /** The days `eachDayOfInterval(startOfMonth(d), endOfMonth(d))` lists. */
  function MonthDays(d: CalendarDate): (days: seq<CalendarDate>)
    requires ValidDate(d)
    ensures |days| == DaysInMonth(d.year, d.month)
    ensures forall i :: 0 <= i < |days| ==>
      ValidDate(days[i]) && days[i].year == d.year && days[i].month == d.month && days[i].day == i + 1
  {
    seq(DaysInMonth(d.year, d.month), i => CalendarDate(d.year, d.month, i + 1))
  }
}
