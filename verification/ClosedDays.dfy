/** Which days the bank is closed, told from the almanac: weekends, dated holidays, and the moon. */
module ClosedDays {
  import opened CivilDates
  import opened Easter
  import opened Computus
  import opened BankCalendar

  predicate Weekend(d: Date)
    requires Valid(d)
  {
    Weekday(Number(d)) == 0 || Weekday(Number(d)) == 6
  }

  /** New Year, Tiradentes, Labour, Independence, Aparecida, All Souls, Republic, Black Awareness from 2024, Christmas. */
  predicate DatedHoliday(d: Date, eves: bool) {
    match d.month
    case 1 => d.day == 1
    case 4 => d.day == 21
    case 5 => d.day == 1
    case 9 => d.day == 7
    case 10 => d.day == 12
    case 11 => d.day == 2 || d.day == 15 || (d.day == 20 && d.year >= 2024)
    case 12 => d.day == 25 || (eves && (d.day == 24 || d.day == 31))
    case _ => false
  }

  /** The first Sunday after day `n`. */
  function SundayAfter(n: int): int {
    n + 7 - Weekday(n)
  }

  /** Carnival Monday and Tuesday, Good Friday and Corpus Christi, counted from the Sunday after the full moon. */
  predicate MovableHoliday(d: Date)
    requires Valid(d)
  {
    var k := Number(d) - SundayAfter(MarchDay(d.year, FullMoon(d.year)));
    k == -48 || k == -47 || k == -2 || k == 60
  }

  lemma SundayAfterIs(n: int, m: int)
    requires Weekday(m) == 0 && n < m <= n + 7
    ensures SundayAfter(n) == m
  {
    EpochNumber();
  }

  lemma EasterIsSundayAfter(year: int)
    ensures EasterSunday(year).month in {3, 4}
    ensures SundayAfter(MarchDay(year, FullMoon(year))) == Number(EasterSunday(year))
  {
    hide FullMoon, EasterSunday, DaysAfterMarch22, Number, Weekday, SundayAfter;
    EasterInMarch(year);
    EasterIsSunday(year);
    WithinAWeek(year);
    SundayAfterIs(MarchDay(year, FullMoon(year)), Number(EasterSunday(year)));
  }

  lemma DatedExactly(d: Date, eves: bool)
    ensures MonthDayOf(d) in DatedSet(d.year, eves) <==> DatedHoliday(d, eves)
  {
  }

  lemma MovableAt(d: Date, offset: int)
    requires Valid(d)
    ensures EasterSunday(d.year).month in {3, 4}
    ensures d == Movable(d.year, offset) <==> Number(d) == Number(EasterSunday(d.year)) + offset
  {
    hide DateOf, Number, MonthLength, EasterSunday;
    EasterBetween(d.year);
    if Number(d) == Number(EasterSunday(d.year)) + offset {
      NumberInjective(d, Movable(d.year, offset));
    }
  }

  lemma MovableExactly(d: Date)
    requires Valid(d)
    ensures MonthDayOf(d) in MovableSet(d.year) <==> MovableHoliday(d)
  {
    hide FullMoon, EasterSunday, Number, SundayAfter, Movable, MovableSet, MonthLength;
    MemoLosesNothing(d);
    EasterIsSundayAfter(d.year);
    forall i | 0 <= i < |OFFSETS|
      ensures d == Movable(d.year, OFFSETS[i]) <==> Number(d) == Number(EasterSunday(d.year)) + OFFSETS[i]
    {
      MovableAt(d, OFFSETS[i]);
    }
    assert OFFSETS[0] == -48 && OFFSETS[1] == -47 && OFFSETS[2] == -2 && OFFSETS[3] == 60;
  }

  /** In every year, a date is a business day exactly when it is no weekend, no dated holiday and no movable one. */
  lemma BusinessExactlyWhen(d: Date, eves: bool)
    requires Valid(d)
    ensures IsBusiness(d, eves) <==> !Weekend(d) && !DatedHoliday(d, eves) && !MovableHoliday(d)
  {
    hide DatedSet, MovableSet, DatedHoliday, MovableHoliday, Number, MonthLength;
    DatedExactly(d, eves);
    MovableExactly(d);
  }
}
