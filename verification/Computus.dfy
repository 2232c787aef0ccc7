/**
 The ecclesiastical full moon of the Gregorian calendar, told apart from the Easter formula, and Easter as
 the first Sunday after it.
 */
module Computus {
  import opened CivilDates
  import opened Easter

  // ----- The calendar moon -----

  /** The place of a year in the nineteen-year lunar cycle, from 1. */
  function GoldenNumber(year: int): int {
    year % 19 + 1
  }

  /** Leap days dropped at century years, since the reform. */
  function SolarCorrection(century: int): int {
    (3 * century + 3) / 4 - 12
  }

  /** Days by which the nineteen-year cycle has been moved, eight in 2500 years. */
  function LunarCorrection(century: int): int {
    (8 * century + 13) / 25 - 5
  }

  /** The plain epact: eleven days more every year, corrected by century. */
  function PlainEpact(year: int): int {
    (11 * GoldenNumber(year) + 20 + LunarCorrection(year / 100) - SolarCorrection(year / 100)) % 30
  }

  /** 24 counts as 25, and 25 as 26 in the later years of the cycle, so that no two years of one cycle share a moon. */
  function Epact(year: int): int {
    var e := PlainEpact(year);
    if e == 24 then 25 else if e == 25 && GoldenNumber(year) > 11 then 26 else e
  }

  /** On day `n` of March, counted on into April, the calendar moon is in its fourteenth day. */
  predicate Fourteenth(year: int, n: int) {
    (n + Epact(year)) % 30 == 14
  }

  /** The fourteenth day of the moon that comes first from 21 March on. */
  function FullMoon(year: int): (n: int)
    ensures 21 <= n < 51
  {
    21 + (23 - Epact(year)) % 30
  }

  lemma FullMoonIsFirst(year: int, m: int)
    ensures Fourteenth(year, FullMoon(year))
    ensures 21 <= m && Fourteenth(year, m) ==> FullMoon(year) <= m
  {
    hide Epact;
    FirstFourteenth(Epact(year), m);
  }

  lemma FirstFourteenth(e: int, m: int)
    ensures var n := 21 + (23 - e) % 30;
            (n + e) % 30 == 14 && (21 <= m && (m + e) % 30 == 14 ==> n <= m)
  {
    var x := 23 - e;
    assert 21 + x % 30 + e == 44 - 30 * (x / 30);
    if 21 <= m && (m + e) % 30 == 14 {
      var k := (m + e) / 30;
      assert m - 21 - x % 30 == 30 * (k + x / 30 - 1);
    }
  }

  /** The solar correction grows by one at exactly the century years that are not leap years; it was 0 at the reform. */
  lemma SolarMeaning(century: int)
    ensures SolarCorrection(century) == SolarCorrection(century - 1) + 1 - LeapDay(100 * century)
    ensures SolarCorrection(15) == 0
  {
    CenturyLeap(century);
    hide IsLeap;
    var q, r := century / 4, century % 4;
    assert 3 * century + 3 == 4 * (3 * q) + (3 * r + 3);
    assert 3 * (century - 1) + 3 == 4 * (3 * q) + 3 * r;
  }

  lemma CenturyLeap(century: int)
    ensures IsLeap(100 * century) <==> century % 4 == 0
  {
    var q, r := century / 4, century % 4;
    assert 100 * century == 4 * (25 * century);
    assert 100 * century == 400 * q + 100 * r;
  }

  /** The lunar correction grows by one in 1800 and then seven times every 300 years and once after 400; it was 0 at the reform. */
  lemma LunarMeaning(century: int)
    ensures var k := (century - 18) % 25;
            LunarCorrection(century) == LunarCorrection(century - 1) + if k % 3 == 0 && k < 24 then 1 else 0
    ensures LunarCorrection(15) == 0
  {
    var q, k := (century - 18) / 25, (century - 18) % 25;
    WholeAndRest(8 * q + 6, 8 * k + 7);
    WholeAndRest(8 * q + 6, 8 * k - 1);
    LunarSteps(k);
    assert 8 * century + 13 == 25 * (8 * q + 6) + (8 * k + 7);
  }

  lemma WholeAndRest(q: int, r: int)
    ensures (25 * q + r) / 25 == q + r / 25
  {
  }

  lemma LunarSteps(k: int)
    requires 0 <= k < 25
    ensures (8 * k + 7) / 25 == (8 * k - 1) / 25 + if k % 3 == 0 && k < 24 then 1 else 0
  {
    var j, i := k / 3, k % 3;
    WholeAndRest(j, 8 * i + 7 - j);
    WholeAndRest(j, 8 * i - 1 - j);
    assert 8 * k == 25 * j + 8 * i - j;
  }

  // ----- Easter -----

  /** The day number of day `n` of March. */
  function MarchDay(year: int, n: int): int {
    Number(Date(year, 3, 1)) + n - 1
  }

  /** The two ways to count the lunar correction. */
  lemma LunarTerm(b: int)
    ensures (b - (b + 8) / 25 + 1) / 3 == LunarCorrection(b) + 5
  {
    var q, r := b / 25, b % 25;
    WholeAndRest(q, r + 8);
    WholeAndRest(8 * q, 8 * r + 13);
    LunarThirds(q, r);
    assert b + 8 == 25 * q + (r + 8) && 8 * b + 13 == 25 * (8 * q) + (8 * r + 13);
  }

  lemma LunarThirds(q: int, r: int)
    requires 0 <= r < 25
    ensures (25 * q + r - (q + (r + 8) / 25) + 1) / 3 == 8 * q + (8 * r + 13) / 25
  {
    assert 25 * q + r - (q + (r + 8) / 25) + 1 == 3 * (8 * q) + (r - (r + 8) / 25 + 1);
  }

  lemma SolarTerm(b: int)
    ensures b - b / 4 == SolarCorrection(b) + 12
  {
  }

  /** What the formula calls h and the epact add up to 23, around thirty. */
  lemma EpactTermIs(year: int)
    ensures EpactTerm(year) == (23 - PlainEpact(year)) % 30
  {
    var a, b := year % 19, year / 100;
    LunarTerm(b);
    SolarTerm(b);
    hide LunarCorrection, SolarCorrection;
    Complement(19 * a + SolarCorrection(b) - LunarCorrection(b) + 22, 11 * a + 31 + LunarCorrection(b) - SolarCorrection(b), a);
  }

  lemma Complement(x: int, e: int, a: int)
    requires x + e == 30 * a + 53
    ensures x % 30 == (23 - e % 30) % 30
  {
    assert x == 23 - e % 30 + 30 * (a + 1 - e / 30);
  }

  /** The correction by a week is made in exactly the two exceptional cases of the epact, and then only from a Sunday. */
  lemma WeekBack(a: int, h: int, l: int)
    requires 0 <= a < 19 && 0 <= h < 30 && 0 <= l < 7
    ensures (a + 11 * h + 22 * l) / 451 == if l == 6 && (h == 29 || (h == 28 && a > 10)) then 1 else 0
  {
  }

  lemma FullMoonIs(year: int)
    ensures var a, h := year % 19, EpactTerm(year);
            FullMoon(year) == 21 + if h == 29 || (h == 28 && a > 10) then h - 1 else h
  {
    hide EpactTerm;
    EpactTermIs(year);
    hide PlainEpact;
    PlainEpactRange(year);
  }

  lemma PlainEpactRange(year: int)
    ensures 0 <= PlainEpact(year) < 30
  {
  }

  lemma EasterInMarch(year: int)
    ensures EasterSunday(year).month in {3, 4}
    ensures Number(EasterSunday(year)) == MarchDay(year, 22 + DaysAfterMarch22(year))
  {
    hide DaysAfterMarch22, IsLeap, YearStart;
    EasterBetween(year);
  }

  /** In days of March: one to seven days after the full moon. */
  lemma WithinAWeek(year: int)
    ensures FullMoon(year) < 22 + DaysAfterMarch22(year) <= FullMoon(year) + 7
  {
    hide EpactTerm, WeekTerm, FullMoon;
    FullMoonIs(year);
    EpactRange(year);
    WeekRange(year, EpactTerm(year));
    WeekBack(year % 19, EpactTerm(year), WeekTerm(year, EpactTerm(year)));
  }

  /** For every year: Easter is the first Sunday after the ecclesiastical full moon, which determines it. */
  lemma EasterFollowsFullMoon(year: int)
    ensures EasterSunday(year).month in {3, 4}
    ensures var moon, easter := MarchDay(year, FullMoon(year)), Number(EasterSunday(year));
            && moon < easter
            && Weekday(easter) == 0
            && forall day | moon < day < easter :: Weekday(day) != 0
  {
    hide FullMoon, EasterSunday, DaysAfterMarch22, Number, Weekday;
    EasterInMarch(year);
    EasterIsSunday(year);
    WithinAWeek(year);
    var moon, easter := MarchDay(year, FullMoon(year)), Number(EasterSunday(year));
    forall day | moon < day < easter ensures Weekday(day) != 0 {
      SameSunday(easter, day);
    }
  }

  lemma SameSunday(n: int, m: int)
    requires Weekday(n) == 0 && -7 < n - m < 7
    ensures Weekday(m) == 0 ==> n == m
  {
    EpochNumber();
  }

  lemma EasterDetermined(year: int, d: Date)
    requires Valid(d) && Weekday(Number(d)) == 0
    requires MarchDay(year, FullMoon(year)) < Number(d) <= MarchDay(year, FullMoon(year)) + 7
    ensures d == EasterSunday(year)
  {
    hide FullMoon, EasterSunday, DaysAfterMarch22, Number, MonthLength, Weekday;
    EasterInMarch(year);
    EasterIsSunday(year);
    WithinAWeek(year);
    EasterBetween(year);
    SameSunday(Number(d), Number(EasterSunday(year)));
    NumberInjective(d, EasterSunday(year));
  }

  // ----- Why there are exceptions -----

  function AdjustedEpact(g: int, c: int): int {
    var e := (11 * g + c) % 30;
    if e == 24 then 25 else if e == 25 && g > 11 then 26 else e
  }

  /** Years of one century with different golden numbers have different full moons. */
  lemma MoonsApart(y: int, z: int)
    requires y / 100 == z / 100 && FullMoon(y) == FullMoon(z)
    ensures GoldenNumber(y) == GoldenNumber(z)
  {
    hide LunarCorrection, SolarCorrection, Epact, AdjustedEpact, FullMoon;
    EpactIs(y);
    EpactIs(z);
    EpactsApart(GoldenNumber(y), GoldenNumber(z), CenturyTerm(y / 100));
  }

  function CenturyTerm(century: int): int {
    20 + LunarCorrection(century) - SolarCorrection(century)
  }

  lemma EpactIs(y: int)
    ensures Epact(y) == AdjustedEpact(GoldenNumber(y), CenturyTerm(y / 100))
    ensures FullMoon(y) == 21 + (23 - Epact(y)) % 30 && 0 <= Epact(y) < 30
  {
    hide LunarCorrection, SolarCorrection;
    PlainEpactRange(y);
  }

  lemma EpactsApart(g: int, k: int, c: int)
    requires 1 <= g <= 19 && 1 <= k <= 19 && AdjustedEpact(g, c) == AdjustedEpact(k, c)
    ensures g == k
  {
    ElevensApart(g, k, c);
  }

  lemma ElevensApart(g: int, k: int, c: int)
    requires 1 <= g <= 19 && 1 <= k <= 19
    ensures var d := (11 * g + c) % 30 - (11 * k + c) % 30;
            && (d == 0 ==> g == k)
            && (d == 1 ==> g == k + 11 || g + 19 == k)
            && (d == -1 ==> k == g + 11 || k + 19 == g)
  {
  }
}
