/** `easterSunday` of packages/reconciliation/src/calendar.ts: the Meeus, Jones and Butcher rule. */
module Easter {
  import opened CivilDates

  function EpactTerm(year: int): int {
    var a, b := year % 19, year / 100;
    var d, f := b / 4, (b + 8) / 25;
    var g := (b - f + 1) / 3;
    (19 * a + b - d - g + 15) % 30
  }

  function WeekTerm(year: int, h: int): int {
    var b, c := year / 100, year % 100;
    var e, i, k := b % 4, c / 4, c % 4;
    (32 + 2 * e + 2 * i - h - k) % 7
  }

  /** `h + l - 7m`: the days from 22 March. */
  function DaysAfterMarch22(year: int): int {
    var a, h := year % 19, EpactTerm(year);
    var l := WeekTerm(year, h);
    var m := (a + 11 * h + 22 * l) / 451;
    h + l - 7 * m
  }

  function EasterSunday(year: int): Date {
    var p := DaysAfterMarch22(year);
    Date(year, (p + 114) / 31, (p + 114) % 31 + 1)
  }

  /** The operands of `%` are never negative, so the remainder is the mathematical one. */
  lemma RemaindersArePlain(year: int)
    requires year >= 0
    ensures var a, b := year % 19, year / 100;
            19 * a + b - b / 4 - (b - (b + 8) / 25 + 1) / 3 + 15 >= 0
    ensures var b, c := year / 100, year % 100;
            32 + 2 * (b % 4) + 2 * (c / 4) - EpactTerm(year) - c % 4 >= 0
  {
  }

  lemma Correction(a: int, h: int, l: int)
    requires 0 <= a < 19 && 0 <= h < 30 && 0 <= l < 7
    ensures var m := (a + 11 * h + 22 * l) / 451; (m == 0 || m == 1) && 0 <= h + l - 7 * m <= 34
  {
  }

  lemma SpreadRange(year: int)
    ensures 0 <= DaysAfterMarch22(year) <= 34
  {
    hide EpactTerm, WeekTerm;
    EpactRange(year);
    WeekRange(year, EpactTerm(year));
    Correction(year % 19, EpactTerm(year), WeekTerm(year, EpactTerm(year)));
  }

  lemma EpactRange(year: int)
    ensures 0 <= EpactTerm(year) < 30
  {
  }

  lemma WeekRange(year: int, h: int)
    ensures 0 <= WeekTerm(year, h) < 7
  {
  }

  /** Easter falls between 22 March and 25 April. */
  lemma EasterBetween(year: int)
    ensures Valid(EasterSunday(year))
    ensures var e := EasterSunday(year); (e.month == 3 && 22 <= e.day <= 31) || (e.month == 4 && 1 <= e.day <= 25)
    ensures DayOfYear(EasterSunday(year)) == 80 + LeapDay(year) + DaysAfterMarch22(year)
  {
    hide DaysAfterMarch22, IsLeap;
    SpreadRange(year);
  }

  /** The parts of a year: 400 d + 100 e + 4 i + k. */
  lemma YearParts(year: int)
    ensures var b, c := year / 100, year % 100;
            var d, e, i, k := b / 4, b % 4, c / 4, c % 4;
            && year == 400 * d + 100 * e + 4 * i + k
            && Leaps(year) == 97 * d + 24 * e + i
  {
    var b, c := year / 100, year % 100;
    assert year / 4 == 25 * b + c / 4;
    assert year / 400 == b / 4;
  }

  lemma March22(year: int)
    ensures YearStart(year) + 80 + LeapDay(year) == 365 * year + Leaps(year) + 81
  {
    LeapsStep(year);
  }

  lemma Congruent(t: int, h: int, l: int, m: int, x: int)
    requires l == t % 7 && x == t + h
    ensures (h + l - 7 * m - x) % 7 == 0
  {
    assert h + l - 7 * m - x == 7 * (-(t / 7) - m);
  }

  /** The corrected sum keeps the weekday that the week term aims at. */
  lemma SpreadMod7(year: int)
    ensures var b, c := year / 100, year % 100;
            (DaysAfterMarch22(year) - (32 + 2 * (b % 4) + 2 * (c / 4) - c % 4)) % 7 == 0
  {
    hide EpactTerm;
    var h := EpactTerm(year);
    var l := WeekTerm(year, h);
    var b, c := year / 100, year % 100;
    var x := 32 + 2 * (b % 4) + 2 * (c / 4) - c % 4;
    Congruent(x - h, h, l, (year % 19 + 11 * h + 22 * l) / 451, x);
  }

  lemma EasterNumber(year: int)
    ensures EasterSunday(year).month in {3, 4}
    ensures Number(EasterSunday(year)) == 365 * year + Leaps(year) + 81 + DaysAfterMarch22(year)
  {
    hide DaysAfterMarch22, IsLeap, Leaps, YearStart;
    EasterBetween(year);
    March22(year);
  }

  /** Whatever the year, the date is a Sunday. */
  lemma EasterIsSunday(year: int)
    ensures EasterSunday(year).month in {3, 4} && Weekday(Number(EasterSunday(year))) == 0
  {
    hide DaysAfterMarch22, Leaps, Number, EasterSunday;
    EasterNumber(year);
    YearParts(year);
    SpreadMod7(year);
    EpochNumber();
    var b, c := year / 100, year % 100;
    SundayArithmetic(b / 4, b % 4, c / 4, c % 4, DaysAfterMarch22(year));
  }

  lemma SundayArithmetic(d: int, e: int, i: int, k: int, p: int)
    requires (p - (32 + 2 * e + 2 * i - k)) % 7 == 0
    ensures (365 * (400 * d + 100 * e + 4 * i + k) + 97 * d + 24 * e + i + 81 + p - 719528 + 4) % 7 == 0
  {
    var q := Sevenths(p - (32 + 2 * e + 2 * i - k));
    SundaySum(d, e, i, k, p, q);
    SevenDivides(20871 * d + 5218 * e + 209 * i + 52 * k - 102773 + q);
  }

  lemma Sevenths(x: int) returns (q: int)
    requires x % 7 == 0
    ensures x == 7 * q
  {
    q := x / 7;
  }

  lemma SevenDivides(t: int)
    ensures 7 * t % 7 == 0
  {
  }

  /** Term by term: 146097, 36526, 1463 and 364 are multiples of seven. */
  lemma SundaySum(d: int, e: int, i: int, k: int, p: int, q: int)
    requires p - (32 + 2 * e + 2 * i - k) == 7 * q
    ensures 365 * (400 * d + 100 * e + 4 * i + k) + 97 * d + 24 * e + i + 81 + p - 719528 + 4 ==
            7 * (20871 * d + 5218 * e + 209 * i + 52 * k - 102773 + q)
  {
  }
}
