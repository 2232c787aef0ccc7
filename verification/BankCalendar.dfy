/** `BrazilianBankCalendar` of packages/reconciliation/src/calendar.ts. */
module BankCalendar {
  import opened CivilDates
  import opened Easter
  import opened BusinessDays

  // ----- Holidays -----

  /** What `MM-DD` spells. */
  datatype MonthDay = MonthDay(month: int, day: int)

  function MonthDayOf(d: Date): MonthDay {
    MonthDay(d.month, d.day)
  }

  const FIXED := {MonthDay(1, 1), MonthDay(4, 21), MonthDay(5, 1), MonthDay(9, 7), MonthDay(10, 12),
                  MonthDay(11, 2), MonthDay(11, 15), MonthDay(12, 25)}

  const BLACK_AWARENESS_SINCE := 2024

  /** Carnival Monday and Tuesday, Good Friday and Corpus Christi, from Easter. */
  const OFFSETS := [-48, -47, -2, 60]

  function Movable(year: int, offset: int): (d: Date)
    ensures Valid(d)
  {
    EasterBetween(year);
    Shift(EasterSunday(year), offset)
  }

  function MovableSet(year: int): set<MonthDay> {
    {MonthDayOf(Movable(year, -48)), MonthDayOf(Movable(year, -47)),
     MonthDayOf(Movable(year, -2)), MonthDayOf(Movable(year, 60))}
  }

  function DatedSet(year: int, eves: bool): set<MonthDay> {
    FIXED
    + (if year >= BLACK_AWARENESS_SINCE then {MonthDay(11, 20)} else {})
    + (if eves then {MonthDay(12, 24), MonthDay(12, 31)} else {})
  }

  /** The set kept for a year. */
  function HolidaySet(year: int, eves: bool): set<MonthDay> {
    DatedSet(year, eves) + MovableSet(year)
  }

  predicate IsBusiness(d: Date, eves: bool)
    requires Valid(d)
  {
    var w := Weekday(Number(d));
    w != 0 && w != 6 && MonthDayOf(d) !in HolidaySet(d.year, eves)
  }

  /** The calendar on day numbers. */
  function Business(eves: bool): int -> bool {
    (n: int) => IsBusiness(DateOf(n), eves)
  }

  lemma BusinessOf(d: Date, eves: bool)
    requires Valid(d)
    ensures Business(eves)(Number(d)) == IsBusiness(d, eves)
  {
    DateOfNumber(d);
  }

  // ----- The movable holidays stay in their year -----

  /** A move that does not leave the year moves the day of the year. */
  lemma ShiftInYear(d: Date, k: int)
    requires Valid(d) && 0 <= DayOfYear(d) + k < 365 + LeapDay(d.year)
    ensures Shift(d, k).year == d.year && DayOfYear(Shift(d, k)) == DayOfYear(d) + k
  {
    hide YearStart, LeapDay, DayOfYear, DateOf, Shift;
    var r := Shift(d, k);
    DayOfYearRange(r);
    YearLength(d.year);
    YearLength(r.year);
    if r.year < d.year {
      YearsApart(r.year + 1, d.year);
    } else if r.year > d.year {
      YearsApart(d.year + 1, r.year);
    }
  }

  /** Each movable holiday falls in the year it is computed for, on its own day of the week. */
  lemma MovableInYear(year: int, offset: int)
    requires offset in OFFSETS
    ensures Movable(year, offset).year == year
    ensures DayOfYear(Movable(year, offset)) == 80 + LeapDay(year) + DaysAfterMarch22(year) + offset
    ensures Weekday(Number(Movable(year, offset))) ==
            if offset == -48 then 1 else if offset == -47 then 2 else if offset == -2 then 5 else 4
  {
    hide DaysAfterMarch22, IsLeap, DateOf, YearStart, EasterSunday;
    EasterBetween(year);
    SpreadRange(year);
    EasterYear(year);
    ShiftInYear(EasterSunday(year), offset);
    EasterIsSunday(year);
    EpochNumber();
    WeekdayShift(Number(EasterSunday(year)), offset);
  }

  lemma EasterYear(year: int)
    ensures EasterSunday(year).year == year
  {
  }

  lemma WeekdayShift(n: int, k: int)
    ensures Weekday(n + k) == (Weekday(n) + k) % 7
  {
    EpochNumber();
  }

  /** Within a year, a day of the year is one date. */
  lemma SameDayOfYear(d: Date, e: Date)
    requires Valid(d) && Valid(e) && d.year == e.year
    ensures MonthDayOf(d) == MonthDayOf(e) <==> d == e
    ensures DayOfYear(d) == DayOfYear(e) <==> d == e
  {
    if DayOfYear(d) == DayOfYear(e) {
      NumberInjective(d, e);
    }
  }

  /** Keeping only month and day loses nothing: a date of the year is in the set exactly when it is a movable holiday. */
  lemma MemoLosesNothing(d: Date)
    requires Valid(d)
    ensures MonthDayOf(d) in MovableSet(d.year) <==> exists i :: 0 <= i < |OFFSETS| && d == Movable(d.year, OFFSETS[i])
  {
    hide Movable;
    var y := d.year;
    forall i | 0 <= i < |OFFSETS|
      ensures MonthDayOf(d) == MonthDayOf(Movable(y, OFFSETS[i])) <==> d == Movable(y, OFFSETS[i])
    {
      MovableInYear(y, OFFSETS[i]);
      SameDayOfYear(d, Movable(y, OFFSETS[i]));
    }
    assert OFFSETS[0] == -48 && OFFSETS[1] == -47 && OFFSETS[2] == -2 && OFFSETS[3] == 60;
  }

  // ----- Gaps -----

  /** Where a holiday can fall in a year, by leap day and Easter; the widest set, with eves and 20 November. */
  predicate HolidayDay(t: int, leap: int, p: int) {
    || t == 0 || t == 110 + leap || t == 120 + leap || t == 249 + leap || t == 284 + leap || t == 305 + leap
    || t == 318 + leap || t == 323 + leap || t == 357 + leap || t == 358 + leap || t == 364 + leap
    || t == 32 + leap + p || t == 33 + leap + p || t == 78 + leap + p || t == 140 + leap + p
  }

  lemma DatedHolidayDay(d: Date, eves: bool)
    requires Valid(d) && MonthDayOf(d) in DatedSet(d.year, eves)
    ensures HolidayDay(DayOfYear(d), LeapDay(d.year), DaysAfterMarch22(d.year))
  {
    hide LeapDay, DaysAfterMarch22;
  }

  lemma HolidayFallsOn(d: Date, eves: bool)
    requires Valid(d) && MonthDayOf(d) in HolidaySet(d.year, eves)
    ensures HolidayDay(DayOfYear(d), LeapDay(d.year), DaysAfterMarch22(d.year))
  {
    hide LeapDay, DaysAfterMarch22, DatedSet, Movable, DayOfYear;
    if MonthDayOf(d) in DatedSet(d.year, eves) {
      DatedHolidayDay(d, eves);
    } else {
      MemoLosesNothing(d);
      var i :| 0 <= i < |OFFSETS| && d == Movable(d.year, OFFSETS[i]);
      MovableInYear(d.year, OFFSETS[i]);
    }
  }

  /** No three holidays of a year fall within five days. */
  lemma NoThreeInYear(t1: int, t2: int, t3: int, leap: int, p: int)
    requires 0 <= leap <= 1 && 0 <= p <= 34 && t1 < t2 < t3 <= t1 + 4
    ensures !(HolidayDay(t1, leap, p) && HolidayDay(t2, leap, p) && HolidayDay(t3, leap, p))
  {
  }

  /** Around New Year only 31 December and 1 January are less than five days from the other year. */
  lemma NewYear(t: int, leap: int, p: int)
    requires 0 <= leap <= 1 && 0 <= p <= 34 && HolidayDay(t, leap, p)
    ensures t <= 3 ==> t == 0
    ensures t >= 361 + leap ==> t == 364 + leap
  {
  }

  predicate IsHoliday(d: Date, eves: bool) {
    MonthDayOf(d) in HolidaySet(d.year, eves)
  }

  /** Days apart by less than a year are in the same year or in neighbouring ones. */
  lemma NearbyYears(d: Date, e: Date)
    requires Valid(d) && Valid(e) && Number(d) < Number(e) <= Number(d) + 4
    ensures e.year == d.year || e.year == d.year + 1
    ensures Number(e) - Number(d) ==
            DayOfYear(e) - DayOfYear(d) + (if e.year == d.year then 0 else 365 + LeapDay(d.year))
  {
    hide YearStart, LeapDay, DayOfYear;
    DayOfYearRange(d);
    DayOfYearRange(e);
    YearLength(d.year);
    YearLength(e.year);
    if e.year < d.year {
      YearsApart(e.year + 1, d.year);
    } else if e.year > d.year + 1 {
      YearsApart(d.year + 2, e.year);
      YearLength(d.year + 1);
      LeapDayRange(d.year + 1);
    }
  }

  lemma LeapDayRange(y: int)
    ensures 0 <= LeapDay(y) <= 1
  {
  }

  /** Never three holidays within five days, also across New Year. */
  lemma NoThreeHolidays(d1: Date, d2: Date, d3: Date, eves: bool)
    requires Valid(d1) && Valid(d2) && Valid(d3) && Number(d1) < Number(d2) < Number(d3) <= Number(d1) + 4
    ensures !(IsHoliday(d1, eves) && IsHoliday(d2, eves) && IsHoliday(d3, eves))
  {
    hide YearStart, LeapDay, DayOfYear, DaysAfterMarch22, HolidaySet, HolidayDay, Number;
    if IsHoliday(d1, eves) && IsHoliday(d2, eves) && IsHoliday(d3, eves) {
      HolidayFallsOn(d1, eves);
      HolidayFallsOn(d2, eves);
      HolidayFallsOn(d3, eves);
      SpreadRange(d1.year);
      SpreadRange(d3.year);
      LeapDayRange(d1.year);
      LeapDayRange(d3.year);
      NearbyYears(d1, d2);
      NearbyYears(d2, d3);
      NearbyYears(d1, d3);
      if d1.year == d3.year {
        NoThreeInYear(DayOfYear(d1), DayOfYear(d2), DayOfYear(d3), LeapDay(d1.year), DaysAfterMarch22(d1.year));
      } else {
        DayOfYearRange(d1);
        DayOfYearRange(d2);
        DayOfYearRange(d3);
        NewYear(DayOfYear(d1), LeapDay(d1.year), DaysAfterMarch22(d1.year));
        NewYear(DayOfYear(d3), LeapDay(d3.year), DaysAfterMarch22(d3.year));
      }
    }
  }

  /** If days `i < j < k` of the next five are weekdays, one of them is a business day. */
  lemma OneOfThree(n: int, i: int, j: int, k: int, eves: bool)
    requires 1 <= i < j < k <= 5
    requires Weekday(n + i) !in {0, 6} && Weekday(n + j) !in {0, 6} && Weekday(n + k) !in {0, 6}
    ensures ComesWithin(Business(eves), n, 5)
  {
    hide YearStart, HolidaySet, DateOf, Weekday;
    var d1, d2, d3 := DateOf(n + i), DateOf(n + j), DateOf(n + k);
    NoThreeHolidays(d1, d2, d3, eves);
    assert Business(eves)(n + i) || Business(eves)(n + j) || Business(eves)(n + k);
  }

  /** Of any five days in a row one is a business day: the bank is never closed for more than four. */
  lemma NeverClosedForFive(n: int, eves: bool)
    ensures ComesWithin(Business(eves), n, 5)
  {
    hide Weekday, ComesWithin;
    WeekdayShift(n, 1);
    WeekdayShift(n, 2);
    WeekdayShift(n, 3);
    WeekdayShift(n, 4);
    WeekdayShift(n, 5);
    var w := Weekday(n);
    assert 0 <= w < 7 by { WeekdayRange(n); }
    if w == 6 {
      OneOfThree(n, 2, 3, 4, eves);
    } else if w <= 2 {
      OneOfThree(n, 1, 2, 3, eves);
    } else if w == 3 {
      OneOfThree(n, 1, 2, 5, eves);
    } else if w == 4 {
      OneOfThree(n, 1, 4, 5, eves);
    } else {
      OneOfThree(n, 3, 4, 5, eves);
    }
  }

  lemma WeekdayRange(n: int)
    ensures 0 <= Weekday(n) < 7
  {
  }

  lemma CalendarIsDense(eves: bool)
    ensures Dense(Business(eves), 5)
  {
    hide ComesWithin;
    forall n: int ensures ComesWithin(Business(eves), n, 5) {
      NeverClosedForFive(n, eves);
    }
  }

  lemma Easter2024()
    ensures EasterSunday(2024) == Date(2024, 3, 31)
  {
    hide EpactTerm, WeekTerm;
    Terms2024();
    assert DaysAfterMarch22(2024) == 4 + 5 - 7 * ((10 + 44 + 110) / 451);
  }

  lemma Terms2024()
    ensures EpactTerm(2024) == 4 && WeekTerm(2024, 4) == 5
  {
    assert 2024 % 19 == 10;
    assert 2024 / 100 == 20 && 2024 % 100 == 24;
    assert EpactTerm(2024) == (19 * 10 + 20 - 5 - 6 + 15) % 30;
    assert WeekTerm(2024, 4) == (32 + 0 + 12 - 4 - 0) % 7;
  }

  lemma Carnival2024()
    ensures Movable(2024, -48) == Date(2024, 2, 12) && Movable(2024, -47) == Date(2024, 2, 13)
  {
    hide DateOf, EasterSunday, YearStart;
    Easter2024();
    NumberInjective(Movable(2024, -48), Date(2024, 2, 12));
    NumberInjective(Movable(2024, -47), Date(2024, 2, 13));
  }

  lemma ClosedOn(day: int)
    requires 10 <= day <= 13
    ensures !IsBusiness(Date(2024, 2, day), false)
  {
    hide DateOf, Movable, EasterSunday;
    EpochNumber();
    Carnival2024();
    if day <= 11 {
      assert Number(Date(2024, 2, day)) == 739281 + day;
    }
  }

  /** Four days do occur: the Carnival weekend of 2024. */
  lemma ClosedForFour()
    ensures !ComesWithin(Business(false), Number(Date(2024, 2, 9)), 4)
  {
    hide DateOf, IsBusiness;
    var n := Number(Date(2024, 2, 9));
    forall m | n < m <= n + 4 ensures !Business(false)(m) {
      var d := Date(2024, 2, 9 + (m - n));
      ClosedOn(d.day);
      assert Number(d) == m;
      BusinessOf(d, false);
    }
  }

  // ----- WeekendOnlyCalendar -----

  function WeekendOnly(): int -> bool {
    (n: int) => Weekday(n) != 0 && Weekday(n) != 6
  }

  /** With weekends alone the wait is at most three days, so the same loops end and the same laws hold. */
  lemma WeekendOnlyIsDense()
    ensures Dense(WeekendOnly(), 3)
  {
    forall n: int ensures ComesWithin(WeekendOnly(), n, 3) {
      WeekdayShift(n, 1);
      WeekdayShift(n, 3);
      assert WeekendOnly()(n + 1) || WeekendOnly()(n + 3);
    }
  }
}
