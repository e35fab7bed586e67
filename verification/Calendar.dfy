/** The Gregorian calendar behind time.Date and AddDate, proleptic in both
    directions. A day is numbered from 1 January of year 1, a month from January of
    year 0, an instant in nanoseconds from midnight of day 0. */
module Calendar {

  predicate Leap(year: int) {
    year % 4 == 0 && (year % 100 != 0 || year % 400 == 0)
  }

  function LeapDay(year: int): int {
    if Leap(year) then 1 else 0
  }

  function DaysBeforeYear(year: int): int {
    365 * (year - 1) + (year - 1) / 4 - (year - 1) / 100 + (year - 1) / 400
  }

  /** Days of a year before its month m, counting months from 0; m = 12 is the year's end. */
  function DaysBeforeMonth(m: int, leapDay: int): int {
    if m <= 0 then 0
    else if m == 1 then 31
    else leapDay + if m == 2 then 59 else if m == 3 then 90 else if m == 4 then 120
                   else if m == 5 then 151 else if m == 6 then 181 else if m == 7 then 212
                   else if m == 8 then 243 else if m == 9 then 273 else if m == 10 then 304
                   else if m == 11 then 334 else 365
  }

  function MonthStart(month: int): int {
    DaysBeforeYear(month / 12) + DaysBeforeMonth(month % 12, LeapDay(month / 12))
  }

  function DaysIn(month: int): int {
    if month % 12 == 1 then 28 + LeapDay(month / 12)
    else if month % 12 in {3, 5, 8, 10} then 30
    else 31
  }

  lemma StepBy4(y: int)
    ensures y / 4 == (y - 1) / 4 + (if y % 4 == 0 then 1 else 0)
  {
  }

  lemma StepBy100(y: int)
    ensures y / 100 == (y - 1) / 100 + (if y % 100 == 0 then 1 else 0)
  {
  }

  lemma StepBy400(y: int)
    ensures y / 400 == (y - 1) / 400 + (if y % 400 == 0 then 1 else 0)
  {
  }

  lemma CenturiesAreFourths(y: int)
    ensures y % 100 == 0 ==> y % 4 == 0
  {
    assert y % 100 == 0 ==> y == 4 * (25 * (y / 100));
  }

  lemma FourthCenturiesAreCenturies(y: int)
    ensures y % 400 == 0 ==> y % 100 == 0
  {
    assert y % 400 == 0 ==> y == 100 * (4 * (y / 400));
  }

  lemma YearLength(year: int)
    ensures DaysBeforeYear(year + 1) == DaysBeforeYear(year) + 365 + LeapDay(year)
  {
    StepBy4(year);
    StepBy100(year);
    StepBy400(year);
    CenturiesAreFourths(year);
    FourthCenturiesAreCenturies(year);
  }

  lemma MonthLength(month: int)
    ensures MonthStart(month + 1) == MonthStart(month) + DaysIn(month)
    ensures 28 <= DaysIn(month) <= 31
  {
    if month % 12 == 11 {
      assert (month + 1) / 12 == month / 12 + 1 && (month + 1) % 12 == 0;
      YearLength(month / 12);
    } else {
      assert (month + 1) / 12 == month / 12 && (month + 1) % 12 == month % 12 + 1;
    }
  }

  lemma MonthOfYear(year: int, m: int)
    requires 0 <= m < 12
    ensures (12 * year + m) / 12 == year && (12 * year + m) % 12 == m
  {
  }

  /** The Gregorian rules. Month 12 * y + m is month m of year y, counting from 0: April,
      June, September and November have 30 days, February 28 or, in years divisible by
      four, but of the centuries only in every fourth, 29. */
  lemma MonthsAreGregorian(year: int, m: int)
    requires 0 <= m < 12
    ensures MonthStart(12 * year + m + 1) - MonthStart(12 * year + m) ==
              if m == 1 then (if year % 4 == 0 && (year % 100 != 0 || year % 400 == 0) then 29 else 28)
              else if m == 3 || m == 5 || m == 8 || m == 10 then 30
              else 31
  {
    MonthOfYear(year, m);
    MonthLength(12 * year + m);
    hide MonthStart;
  }

  lemma YearsOfFourCenturies(year: int)
    ensures DaysBeforeYear(year + 400) == DaysBeforeYear(year) + 146_097
  {
    assert (year + 399) / 4 == (year - 1) / 4 + 100;
    assert (year + 399) / 100 == (year - 1) / 100 + 4;
    assert (year + 399) / 400 == (year - 1) / 400 + 1;
  }

  lemma FourCenturies(year: int)
    ensures MonthStart(12 * (year + 400)) - MonthStart(12 * year) == 146_097
  {
    MonthOfYear(year, 0);
    MonthOfYear(year + 400, 0);
    YearsOfFourCenturies(year);
    hide DaysBeforeYear, LeapDay;
  }

  // ------------------------------------------------------ from a day to its month

  /** The period of a calendar, given by its start days, that holds a day. */
  function Locate(start: int -> int, day: int, guess: int): (period: int)
    requires forall p :: start(p) < start(p + 1)
    ensures start(period) <= day < start(period + 1)
    decreases day < start(guess), if day < start(guess) then start(guess) - day else day - start(guess)
  {
    assert start(guess - 1) < start(guess - 1 + 1) == start(guess);
    if day < start(guess) then Locate(start, day, guess - 1)
    else if day < start(guess + 1) then guess
    else Locate(start, day, guess + 1)
  }

  lemma {:induction false} StartsInOrder(start: int -> int, a: int, b: int)
    requires forall p :: start(p) < start(p + 1)
    requires a <= b
    ensures start(a) <= start(b)
    decreases b - a
  {
    if a < b {
      assert start(a) < start(a + 1);
      StartsInOrder(start, a + 1, b);
    }
  }

  lemma LocateIsUnique(start: int -> int, day: int, a: int, b: int)
    requires forall p :: start(p) < start(p + 1)
    requires start(a) <= day < start(a + 1) && start(b) <= day < start(b + 1)
    ensures a == b
  {
    if a < b {
      StartsInOrder(start, a + 1, b);
    } else if b < a {
      StartsInOrder(start, b + 1, a);
    }
  }

  const MONTHS: int -> int := month => MonthStart(month)

  lemma MonthsAdvance()
    ensures forall m :: MONTHS(m) < MONTHS(m + 1)
  {
    forall m: int
      ensures MONTHS(m) < MONTHS(m + 1)
    {
      MonthLength(m);
    }
  }

  function MonthOf(day: int): (month: int)
    ensures MonthStart(month) <= day < MonthStart(month + 1)
  {
    MonthsAdvance();
    Locate(MONTHS, day, 12)
  }

  lemma MonthsInOrder(a: int, b: int)
    requires a < b
    ensures MonthStart(a) + DaysIn(a) <= MonthStart(b)
  {
    MonthsAdvance();
    StartsInOrder(MONTHS, a + 1, b);
    MonthLength(a);
    assert MONTHS(a + 1) == MonthStart(a + 1) && MONTHS(b) == MonthStart(b);
  }

  lemma MonthsIs(m: int)
    ensures MONTHS(m) == MonthStart(m)
  {
    hide MonthStart;
  }

  lemma MonthOfUnique(day: int, month: int)
    requires MonthStart(month) <= day < MonthStart(month + 1)
    ensures MonthOf(day) == month
  {
    hide *;
    MonthsAdvance();
    var found := MonthOf(day);
    MonthsIs(found);
    MonthsIs(found + 1);
    MonthsIs(month);
    MonthsIs(month + 1);
    LocateIsUnique(MONTHS, day, found, month);
  }

  function DayOfMonth(day: int): int {
    day - MonthStart(MonthOf(day)) + 1
  }

  /** Month and day of month name a day, and every day has one such name. */
  lemma DateNamesDay(month: int, dayOfMonth: int)
    requires 1 <= dayOfMonth <= DaysIn(month)
    ensures MonthOf(MonthStart(month) + dayOfMonth - 1) == month
    ensures DayOfMonth(MonthStart(month) + dayOfMonth - 1) == dayOfMonth
  {
    MonthLength(month);
    hide MonthStart, MonthOf, DaysIn;
    MonthOfUnique(MonthStart(month) + dayOfMonth - 1, month);
  }

  // ------------------------------------------------------------------- instants

  function DayOf(t: int): int {
    t / 86_400_000_000_000
  }

  function ClockOf(t: int): int {
    t % 86_400_000_000_000
  }

  function At(day: int, clock: int): int {
    day * 86_400_000_000_000 + clock
  }

  function Clock(hour: int, minute: int): int {
    (hour * 3600 + minute * 60) * 1_000_000_000
  }

  /** Sunday is 0; 1 January of year 1 was a Monday. */
  function Weekday(day: int): int {
    (day + 1) % 7
  }

  /** time.Date: months and days outside their range carry over. */
  function Date(month: int, dayOfMonth: int, clock: int): int {
    At(MonthStart(month) + dayOfMonth - 1, clock)
  }

  function AddDays(t: int, days: int): int {
    Date(MonthOf(DayOf(t)), DayOfMonth(DayOf(t)) + days, ClockOf(t))
  }

  lemma AtSplits(day: int, clock: int)
    requires 0 <= clock < 86_400_000_000_000
    ensures DayOf(At(day, clock)) == day && ClockOf(At(day, clock)) == clock
  {
  }

  lemma AddDaysAdds(day: int, clock: int, days: int)
    requires 0 <= clock < 86_400_000_000_000
    ensures AddDays(At(day, clock), days) == At(day + days, clock)
  {
    AtSplits(day, clock);
  }

  lemma AtInOrder(d1: int, c1: int, d2: int, c2: int)
    requires 0 <= c1 < 86_400_000_000_000 && 0 <= c2 < 86_400_000_000_000
    ensures At(d1, c1) < At(d2, c2) <==> d1 < d2 || (d1 == d2 && c1 < c2)
  {
  }

  /** Two anchors: day 0 is Monday 1 January of year 1, and 31 July 2026 is a Friday. */
  lemma KnownDates()
    ensures MonthStart(12) == 0 && Weekday(0) == 1
    ensures MonthStart(24318) + 30 == 739827 && 24318 == 12 * 2026 + 6
    ensures Weekday(739827) == 5
  {
    assert 24318 / 12 == 2026 && 24318 % 12 == 6;
    assert DaysBeforeYear(2026) == 739616;
    assert 2026 % 4 == 2;
  }
}
