/** The calendar objects of packages/reconciliation/src/calendar.ts, with their loops and the yearly cache. */
module BusinessCalendar {
  import opened CivilDates
  import opened Easter
  import opened BusinessDays
  import opened BankCalendar

  class BrazilianBankCalendar {
    const treatChristmasEveAsHoliday: bool
    var byYear: map<int, set<MonthDay>>

    /** The cache holds nothing but what would be computed again. */
    ghost predicate CacheOk()
      reads this
    {
      forall y | y in byYear :: byYear[y] == HolidaySet(y, treatChristmasEveAsHoliday)
    }

    constructor (treatChristmasEveAsHoliday: bool)
      ensures CacheOk() && this.treatChristmasEveAsHoliday == treatChristmasEveAsHoliday
    {
      this.treatChristmasEveAsHoliday := treatChristmasEveAsHoliday;
      byYear := map[];
    }

    /** What `holidays` computes for a year it has not met. */
    method ComputeHolidays(year: int) returns (r: set<MonthDay>)
      ensures r == HolidaySet(year, treatChristmasEveAsHoliday)
    {
      hide DateOf, EasterSunday, Valid, MovedSet, MovableSet, Shift;
      r := FIXED;
      if year >= BLACK_AWARENESS_SINCE {
        r := r + {MonthDay(11, 20)};
      }
      if treatChristmasEveAsHoliday {
        r := r + {MonthDay(12, 24), MonthDay(12, 31)};
      }
      ghost var dated := r;
      assert dated == DatedSet(year, treatChristmasEveAsHoliday);
      EasterBetween(year);
      var base := EasterSunday(year);
      MovedNone(base);
      for i := 0 to |OFFSETS|
        invariant r == dated + MovedSet(base, i)
      {
        MovedNext(base, i);
        r := r + {MonthDayOf(Shift(base, OFFSETS[i]))};
      }
      OffsetsListed(year);
    }

    /** Remembers each year's set. */
    method Holidays(year: int) returns (r: set<MonthDay>)
      requires CacheOk()
      modifies this`byYear
      ensures CacheOk() && r == HolidaySet(year, treatChristmasEveAsHoliday)
      ensures byYear == old(byYear)[year := r]
    {
      hide HolidaySet;
      if year in byYear {
        r := byYear[year];
        assert byYear == byYear[year := r];
      } else {
        r := ComputeHolidays(year);
        byYear := byYear[year := r];
      }
    }

    method IsBusinessDay(date: Date) returns (b: bool)
      requires CacheOk() && Valid(date)
      modifies this`byYear
      ensures CacheOk() && b == IsBusiness(date, treatChristmasEveAsHoliday)
    {
      var weekday := Weekday(Number(date));
      if weekday == 0 || weekday == 6 {
        return false;
      }
      var holidays := Holidays(date.year);
      b := MonthDayOf(date) !in holidays;
    }

    /** Ends for every date and count: the next business day is never more than five days off. */
    method AddBusinessDays(date: Date, days: int) returns (r: Date)
      requires CacheOk() && Valid(date)
      modifies this`byYear
      ensures CacheOk() && Valid(r)
      ensures IsAdded(Business(treatChristmasEveAsHoliday), Number(date), days, Number(r))
    {
      hide IsBusiness, DateOf, Number, MonthLength, HolidaySet, Business;
      if days == 0 {
        return date;
      }
      var step := if days > 0 then 1 else -1;
      var remaining := if days > 0 then days else -days;
      r := date;
      ghost var business := Business(treatChristmasEveAsHoliday);
      CalendarIsDense(treatChristmasEveAsHoliday);
      ghost var ahead := BusinessDayAhead(business, Number(date), step, 5);
      while remaining > 0
        invariant CacheOk() && Valid(r)
        invariant Walked(business, Number(date), days, step, remaining, Number(r))
        invariant remaining > 0 ==> business(ahead) && step * (ahead - Number(r)) > 0
        decreases remaining, step * (ahead - Number(r))
      {
        r := Shift(r, step);
        var open := IsBusinessDay(r);
        BusinessOf(r, treatChristmasEveAsHoliday);
        WalkOn(business, Number(date), days, step, remaining, Number(r) - step);
        if open {
          remaining := remaining - 1;
          ahead := BusinessDayAhead(business, Number(r), step, 5);
        }
      }
    }

    method BusinessDaysBetween(from: Date, to: Date) returns (total: nat)
      requires CacheOk() && Valid(from) && Valid(to)
      modifies this`byYear
      ensures CacheOk() && total == Distance(Business(treatChristmasEveAsHoliday), Number(from), Number(to))
    {
      hide IsBusiness, DateOf, Number, MonthLength, HolidaySet, Business;
      if from == to {
        return 0;
      }
      var start, end := if Earlier(from, to) then from else to, if Earlier(from, to) then to else from;
      NumberMonotone(start, end);
      var current := start;
      total := 0;
      ghost var business := Business(treatChristmasEveAsHoliday);
      while Earlier(current, end)
        invariant CacheOk() && Valid(current)
        invariant Number(start) <= Number(current) <= Number(end)
        invariant total == Count(business, Number(start), Number(current))
        decreases Number(end) - Number(current)
      {
        NumberMonotone(current, end);
        current := Shift(current, 1);
        var open := IsBusinessDay(current);
        BusinessOf(current, treatChristmasEveAsHoliday);
        if open {
          total := total + 1;
        }
      }
      NotEarlier(current, end);
    }
  }

  /** The days the first `i` offsets lead to. */
  ghost function MovedSet(base: Date, i: nat): set<MonthDay>
    requires Valid(base) && i <= |OFFSETS|
  {
    if i == 0 then {} else MovedSet(base, i - 1) + {MonthDayOf(Shift(base, OFFSETS[i - 1]))}
  }

  lemma MovedNone(base: Date)
    requires Valid(base)
    ensures MovedSet(base, 0) == {}
  {
  }

  lemma MovedNext(base: Date, i: nat)
    requires Valid(base) && i < |OFFSETS|
    ensures MovedSet(base, i + 1) == MovedSet(base, i) + {MonthDayOf(Shift(base, OFFSETS[i]))}
  {
  }

  lemma OffsetsListed(year: int)
    ensures Valid(EasterSunday(year)) && MovedSet(EasterSunday(year), |OFFSETS|) == MovableSet(year)
  {
    hide DateOf, EasterSunday, Valid;
    EasterBetween(year);
    var base := EasterSunday(year);
    assert MovedSet(base, 1) == {MonthDayOf(Shift(base, -48))};
    assert MovedSet(base, 2) == MovedSet(base, 1) + {MonthDayOf(Shift(base, -47))};
    assert MovedSet(base, 3) == MovedSet(base, 2) + {MonthDayOf(Shift(base, -2))};
    assert MovedSet(base, 4) == MovedSet(base, 3) + {MonthDayOf(Shift(base, 60))};
  }

  lemma NotEarlier(d: Date, e: Date)
    requires Valid(d) && Valid(e) && !Earlier(d, e) && Number(d) <= Number(e)
    ensures d == e
  {
    hide Valid, Number;
    if Earlier(e, d) {
      NumberMonotone(e, d);
    }
  }

  /** Part of the way: `days - remaining` business days passed, the last of them today if none remains. */
  predicate Walked(business: int -> bool, n: int, days: int, step: int, remaining: int, r: int) {
    && (if step > 0 then days > 0 && n <= r && Count(business, n, r) == days - remaining
        else days < 0 && r <= n && Count(business, r - 1, n - 1) == -days - remaining)
    && (remaining == 0 ==> business(r) && r != n)
    && 0 <= remaining
  }

  lemma WalkOn(business: int -> bool, n: int, days: int, step: int, remaining: int, r: int)
    requires (step == 1 || step == -1) && remaining > 0 && Walked(business, n, days, step, remaining, r)
    ensures Walked(business, n, days, step, remaining - (if business(r + step) then 1 else 0), r + step)
  {
    if step < 0 {
      CountSplit(business, r - 2, r - 1, n - 1);
    }
  }
}
