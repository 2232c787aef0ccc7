/** Gregorian dates and the day count behind `Date.UTC` and its getters. */
module CivilDates {

  datatype Date = Date(year: int, month: int, day: int)

  predicate IsLeap(y: int) {
    y % 4 == 0 && (y % 100 != 0 || y % 400 == 0)
  }

  function LeapDay(y: int): int {
    if IsLeap(y) then 1 else 0
  }

  /** Leap years from 1 to `y`. */
  function Leaps(y: int): int {
    y / 4 - y / 100 + y / 400
  }

  /** Days before 1 January of year `y`, counted from 1 January of year 0. */
  function YearStart(y: int): int {
    365 * y + Leaps(y - 1) + 1
  }

  /** Days of the year before the first of the month; month 13 closes the year. */
  function MonthStart(y: int, m: int): int
    requires 1 <= m <= 13
  {
    [0, 31, 59, 90, 120, 151, 181, 212, 243, 273, 304, 334, 365][m - 1] + (if m > 2 then LeapDay(y) else 0)
  }

  function MonthLength(y: int, m: int): int
    requires 1 <= m <= 12
  {
    MonthStart(y, m + 1) - MonthStart(y, m)
  }

  predicate Valid(d: Date) {
    1 <= d.month <= 12 && 1 <= d.day <= MonthLength(d.year, d.month)
  }

  /** The day's place in its year, from 0. */
  function DayOfYear(d: Date): int
    requires 1 <= d.month <= 12
  {
    MonthStart(d.year, d.month) + d.day - 1
  }

  /** The number of a date, from 1 January of year 0. */
  function Number(d: Date): int
    requires 1 <= d.month <= 12
  {
    YearStart(d.year) + DayOfYear(d)
  }

  const EPOCH := Date(1970, 1, 1)

  /** `getUTCDay`: Sunday is 0. The epoch was a Thursday. */
  function Weekday(n: int): int {
    (n - Number(EPOCH) + 4) % 7
  }

  lemma EpochNumber()
    ensures Number(EPOCH) == 719528
  {
  }

  // ----- Years -----

  lemma Quotients(y: int)
    ensures y / 4 == (y - 1) / 4 + (if y % 4 == 0 then 1 else 0)
    ensures y / 100 == (y - 1) / 100 + (if y % 100 == 0 then 1 else 0)
    ensures y / 400 == (y - 1) / 400 + (if y % 400 == 0 then 1 else 0)
  {
  }

  lemma Multiples(y: int)
    ensures y % 100 == 0 ==> y % 4 == 0
    ensures y % 400 == 0 ==> y % 100 == 0
  {
    if y % 100 == 0 {
      assert y == 4 * (25 * (y / 100));
    }
    if y % 400 == 0 {
      assert y == 100 * (4 * (y / 400));
    }
  }

  lemma LeapsStep(y: int)
    ensures Leaps(y) == Leaps(y - 1) + LeapDay(y)
  {
    Quotients(y);
    Multiples(y);
  }

  lemma YearLength(y: int)
    ensures YearStart(y + 1) == YearStart(y) + 365 + LeapDay(y)
  {
    LeapsStep(y);
  }

  lemma {:induction false} YearsApart(y: int, z: int)
    requires y <= z
    ensures YearStart(z) >= YearStart(y) + 365 * (z - y)
    decreases z - y
  {
    if y < z {
      YearLength(z - 1);
      YearsApart(y, z - 1);
    }
  }

  lemma DayOfYearRange(d: Date)
    requires Valid(d)
    ensures 0 <= DayOfYear(d) < 365 + LeapDay(d.year)
  {
  }

  // ----- Dates and numbers -----

  /** The order of dates, and of their four-digit-year strings. */
  predicate Earlier(d: Date, e: Date) {
    || d.year < e.year
    || (d.year == e.year && d.month < e.month)
    || (d.year == e.year && d.month == e.month && d.day < e.day)
  }

  lemma NumberMonotone(d: Date, e: Date)
    requires Valid(d) && Valid(e) && Earlier(d, e)
    ensures Number(d) < Number(e)
  {
    if d.year < e.year {
      hide YearStart;
      DayOfYearRange(d);
      DayOfYearRange(e);
      YearLength(d.year);
      YearsApart(d.year + 1, e.year);
    } else if d.month < e.month {
      MonthsApart(d.year, d.month + 1, e.month);
    }
  }

  lemma MonthsApart(y: int, m: int, n: int)
    requires 1 <= m <= n <= 13
    ensures MonthStart(y, m) <= MonthStart(y, n)
  {
  }

  lemma NumberInjective(d: Date, e: Date)
    requires Valid(d) && Valid(e) && Number(d) == Number(e)
    ensures d == e
  {
    hide Number, Valid;
    if Earlier(d, e) {
      NumberMonotone(d, e);
    } else if Earlier(e, d) {
      NumberMonotone(e, d);
    }
  }

  function NextDay(d: Date): Date
    requires Valid(d)
  {
    if d.day < MonthLength(d.year, d.month) then d.(day := d.day + 1)
    else if d.month < 12 then Date(d.year, d.month + 1, 1)
    else Date(d.year + 1, 1, 1)
  }

  function PreviousDay(d: Date): Date
    requires Valid(d)
  {
    if d.day > 1 then d.(day := d.day - 1)
    else if d.month > 1 then Date(d.year, d.month - 1, MonthLength(d.year, d.month - 1))
    else Date(d.year - 1, 12, 31)
  }

  lemma NextDayNumber(d: Date)
    requires Valid(d)
    ensures Valid(NextDay(d)) && Number(NextDay(d)) == Number(d) + 1
  {
    hide YearStart, IsLeap;
    if d.day == MonthLength(d.year, d.month) {
      if d.month == 12 {
        YearLength(d.year);
      } else {
        FirstOfMonth(d.year, d.month + 1);
      }
    }
  }

  lemma FirstOfMonth(y: int, m: int)
    requires 1 <= m <= 12
    ensures Valid(Date(y, m, 1))
  {
  }

  lemma PreviousDayNumber(d: Date)
    requires Valid(d)
    ensures Valid(PreviousDay(d)) && Number(PreviousDay(d)) == Number(d) - 1
  {
    hide YearStart;
    YearLength(d.year - 1);
  }

  /** The date of a number: what the UTC getters read. */
  function DateOf(n: int): (d: Date)
    ensures Valid(d) && Number(d) == n
    decreases if n >= Number(EPOCH) then n - Number(EPOCH) else Number(EPOCH) - n
  {
    if n == Number(EPOCH) then EPOCH
    else if n > Number(EPOCH) then
      var d := DateOf(n - 1);
      NextDayNumber(d);
      NextDay(d)
    else
      var d := DateOf(n + 1);
      PreviousDayNumber(d);
      PreviousDay(d)
  }

  /** `shift`: the date `days` days away. */
  function Shift(d: Date, days: int): (r: Date)
    requires Valid(d)
    ensures Valid(r) && Number(r) == Number(d) + days
  {
    DateOf(Number(d) + days)
  }

  lemma DateOfNumber(d: Date)
    requires Valid(d)
    ensures DateOf(Number(d)) == d
  {
    NumberInjective(DateOf(Number(d)), d);
  }
}
