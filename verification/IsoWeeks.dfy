/**
 * Week arithmetic on Gregorian dates. The ISO week calendar (section 3.2.2 of ISO 8601:2004) gives a week to the
 * year its Thursday lies in; week 1 is the one with the year's first Thursday.
 */
module IsoWeeks {
  datatype Date = Date(year: int, month: int, day: int)

  predicate IsLeap(y: int) { y % 4 == 0 && (y % 100 != 0 || y % 400 == 0) }

  function DaysInMonth(y: int, m: int): int {
    if m == 2 then (if IsLeap(y) then 29 else 28)
    else if m == 4 || m == 6 || m == 9 || m == 11 then 30
    else 31
  }

  predicate ValidDate(d: Date) {
    d.year >= 1 && 1 <= d.month <= 12 && 1 <= d.day <= DaysInMonth(d.year, d.month)
  }

  function DaysBeforeYear(y: int): int { (y - 1) * 365 + (y - 1) / 4 - (y - 1) / 100 + (y - 1) / 400 }

  function DaysBeforeMonth(y: int, m: int): int
    requires 1 <= m <= 13
  {
    if m == 1 then 0 else DaysBeforeMonth(y, m - 1) + DaysInMonth(y, m - 1)
  }

  /** Day number; 1 January of year 1 is day 1, a Monday. */
  function Ordinal(d: Date): int
    requires ValidDate(d)
  {
    DaysBeforeYear(d.year) + DaysBeforeMonth(d.year, d.month) + d.day
  }

  /** 0 for Monday to 6 for Sunday. */
  function Weekday(d: Date): int
    requires ValidDate(d)
  {
    (Ordinal(d) + 6) % 7
  }

  function Thursday(d: Date): int
    requires ValidDate(d)
  {
    Ordinal(d) - Weekday(d) + 3
  }

  datatype IsoWeek = IsoWeek(year: int, week: int)

  /** Number within year `y` of the week whose Thursday is day `t`. */
  function WeekNumber(y: int, t: int): int { (t - DaysBeforeYear(y) - 1) / 7 + 1 }

  /** The first two components of `isocalendar`. */
  function IsoCalendar(d: Date): (w: IsoWeek)
    requires ValidDate(d)
    ensures w.year >= 1
  {
    ThursdayNotBeforeFirst(d);
    FirstYear();
    var t := Thursday(d);
    var y := if t <= DaysBeforeYear(d.year) then d.year - 1
             else if t > DaysBeforeYear(d.year + 1) then d.year + 1
             else d.year;
    IsoWeek(y, WeekNumber(y, t))
  }

  predicate Before(a: IsoWeek, b: IsoWeek) { a.year < b.year || (a.year == b.year && a.week < b.week) }

  /** The test on two weeks already in order: next week of the year, or last week of one year to first of the next. */
  predicate Adjoins(first: IsoWeek, second: IsoWeek)
    requires first.year >= 1
  {
    || (first.year == second.year && second.week - first.week == 1)
    || (second.year == first.year + 1 && second.week == 1 &&
        first.week == IsoCalendar(Date(first.year, 12, 28)).week)
  }

  predicate AreAdjacentWeeks(d1: Date, d2: Date)
    requires ValidDate(d1) && ValidDate(d2)
  {
    var a, b := IsoCalendar(d1), IsoCalendar(d2);
    if Before(b, a) then Adjoins(b, a) else Adjoins(a, b)
  }

  predicate AreSameWeeks(d1: Date, d2: Date)
    requires ValidDate(d1) && ValidDate(d2)
  {
    IsoCalendar(d1) == IsoCalendar(d2)
  }

  // ----- the calendar -----

  /** Monday-based weeks counted from day 1. */
  function WeekIndex(d: Date): int
    requires ValidDate(d)
  {
    (Ordinal(d) - 1) / 7
  }

  lemma YearLength(y: int)
    ensures DaysBeforeYear(y + 1) == DaysBeforeYear(y) + (if IsLeap(y) then 366 else 365)
  {
    Quotient(y, 4);
    Quotient(y, 100);
    Quotient(y, 400);
    MultiplesOf400(y);
  }

  lemma MultiplesOf400(y: int)
    ensures y % 100 == 0 ==> y % 4 == 0
    ensures y % 400 == 0 ==> y % 100 == 0
  {
    assert y % 100 == 0 ==> y == 4 * (25 * (y / 100));
    assert y % 400 == 0 ==> y == 100 * (4 * (y / 400));
  }

  lemma Quotient(y: int, n: int)
    requires n == 4 || n == 100 || n == 400
    ensures y / n == (y - 1) / n + (if y % n == 0 then 1 else 0)
  {
  }

  lemma {:induction false} YearsApart(a: int, b: int)
    requires a < b
    ensures DaysBeforeYear(a) + 365 * (b - a) <= DaysBeforeYear(b)
    decreases b - a
  {
    hide DaysBeforeYear;
    YearLength(b - 1);
    if a < b - 1 { YearsApart(a, b - 1); }
  }

  lemma {:induction false} MonthsApart(y: int, m: int, n: int)
    requires 1 <= m <= n <= 13
    ensures DaysBeforeMonth(y, m) <= DaysBeforeMonth(y, n)
    ensures m < n ==> DaysBeforeMonth(y, m) + DaysInMonth(y, m) <= DaysBeforeMonth(y, n)
  {
    if m < n { MonthsApart(y, m, n - 1); }
  }

  lemma YearFromMonths(y: int)
    ensures DaysBeforeMonth(y, 13) == (if IsLeap(y) then 366 else 365)
    ensures DaysBeforeMonth(y, 12) == DaysBeforeMonth(y, 13) - 31
  {
    hide IsLeap;
    assert DaysBeforeMonth(y, 2) == 31;
    assert DaysBeforeMonth(y, 3) == 59 + (if IsLeap(y) then 1 else 0);
    assert DaysBeforeMonth(y, 5) == DaysBeforeMonth(y, 3) + 61;
    assert DaysBeforeMonth(y, 7) == DaysBeforeMonth(y, 5) + 61;
    assert DaysBeforeMonth(y, 9) == DaysBeforeMonth(y, 7) + 62;
    assert DaysBeforeMonth(y, 11) == DaysBeforeMonth(y, 9) + 61;
  }

  /** A date lies within its year, and days count from 1. */
  lemma OrdinalInYear(d: Date)
    requires ValidDate(d)
    ensures DaysBeforeYear(d.year) < Ordinal(d) <= DaysBeforeYear(d.year + 1)
    ensures Ordinal(d) >= 1
  {
    hide DaysBeforeYear, DaysInMonth, IsLeap;
    MonthsApart(d.year, d.month, 13);
    MonthsApart(d.year, 1, d.month);
    YearFromMonths(d.year);
    YearLength(d.year);
    FirstYear();
    if d.year > 1 { YearsApart(1, d.year); }
  }

  lemma FirstYear()
    ensures DaysBeforeYear(1) == 0
  {
  }

  /** Later dates have larger day numbers, so `date1 < date2` may be read off them. */
  lemma OrdinalOrdersDates(a: Date, b: Date)
    requires ValidDate(a) && ValidDate(b)
    ensures Ordinal(a) < Ordinal(b) <==>
      a.year < b.year || (a.year == b.year && (a.month < b.month || (a.month == b.month && a.day < b.day)))
    ensures Ordinal(a) == Ordinal(b) <==> a == b
  {
    OrdinalInYear(a);
    OrdinalInYear(b);
    hide DaysBeforeYear, DaysInMonth, IsLeap;
    if a.year < b.year && a.year + 1 < b.year { YearsApart(a.year + 1, b.year); }
    if b.year < a.year && b.year + 1 < a.year { YearsApart(b.year + 1, a.year); }
    if a.month < b.month { MonthsApart(a.year, a.month, b.month); }
    if b.month < a.month { MonthsApart(a.year, b.month, a.month); }
  }

  lemma ThursdayNotBeforeFirst(d: Date)
    requires ValidDate(d)
    ensures Thursday(d) >= 4
  {
    OrdinalInYear(d);
    ThursdayOfWeek(d);
    hide Ordinal, Thursday;
  }

  lemma ThursdayOfWeek(d: Date)
    requires ValidDate(d)
    ensures Thursday(d) == 7 * WeekIndex(d) + 4
    ensures Ordinal(d) - 3 <= Thursday(d) <= Ordinal(d) + 3
  {
    hide Ordinal;
  }

  /** Day `t` lies in year `y`. */
  ghost predicate InYear(t: int, y: int) { DaysBeforeYear(y) < t <= DaysBeforeYear(y + 1) }

  lemma IsoYearHoldsThursday(d: Date)
    requires ValidDate(d)
    ensures InYear(Thursday(d), IsoCalendar(d).year)
    ensures IsoCalendar(d).week == WeekNumber(IsoCalendar(d).year, Thursday(d))
    ensures IsoCalendar(d).year >= 1
  {
    hide DaysBeforeYear, Ordinal, Weekday, IsLeap, Thursday, WeekNumber, WeekIndex;
    OrdinalInYear(d);
    ThursdayOfWeek(d);
    YearLength(d.year - 1);
    YearLength(d.year + 1);
  }

  lemma YearIsUnique(t: int, u: int, y: int, z: int)
    requires InYear(t, y) && InYear(u, z)
    ensures t <= u ==> y <= z
    ensures t == u ==> y == z
  {
    hide DaysBeforeYear;
    if z < y && z + 1 < y { YearsApart(z + 1, y); }
    if y < z && y + 1 < z { YearsApart(y + 1, z); }
  }

  /** Within a year, weeks are numbered by their Thursdays. */
  lemma WeekNumbersStep(y: int, t: int, u: int)
    requires t % 7 == 4 && u % 7 == 4
    ensures 7 * (WeekNumber(y, u) - WeekNumber(y, t)) == u - t
  {
    hide DaysBeforeYear;
    var k := (u - t) / 7;
    assert u == t + 7 * k;
    ShiftedQuotient(t - DaysBeforeYear(y) - 1, k);
  }

  lemma ShiftedQuotient(a: int, k: int)
    ensures (a + 7 * k) / 7 == a / 7 + k
  {
  }

  lemma Dec28Ordinal(y: int)
    requires y >= 1
    ensures ValidDate(Date(y, 12, 28)) && Ordinal(Date(y, 12, 28)) == DaysBeforeYear(y + 1) - 3
  {
    hide DaysBeforeYear, DaysBeforeMonth, IsLeap;
    YearFromMonths(y);
    YearLength(y);
  }

  lemma Dec28IsInLastWeek(y: int)
    requires y >= 1
    ensures ValidDate(Date(y, 12, 28))
    ensures IsoCalendar(Date(y, 12, 28)).year == y
    ensures InYear(Thursday(Date(y, 12, 28)), y) && Thursday(Date(y, 12, 28)) + 7 > DaysBeforeYear(y + 1)
    ensures IsoCalendar(Date(y, 12, 28)).week == WeekNumber(y, Thursday(Date(y, 12, 28)))
    ensures Thursday(Date(y, 12, 28)) % 7 == 4
  {
    hide DaysBeforeYear, DaysBeforeMonth, Ordinal, IsLeap, IsoCalendar, Thursday, WeekNumber;
    var d := Date(y, 12, 28);
    Dec28Ordinal(y);
    YearLength(y);
    ThursdayOfWeek(d);
    IsoYearHoldsThursday(d);
    YearIsUnique(Thursday(d), Thursday(d), y, IsoCalendar(d).year);
  }

  /** 28 December lies in the last ISO week of its year, which is week 52 or 53. */
  lemma Dec28LastWeek(y: int, d: Date)
    requires y >= 1 && ValidDate(d) && IsoCalendar(d).year == y
    ensures ValidDate(Date(y, 12, 28))
    ensures IsoCalendar(Date(y, 12, 28)).year == y
    ensures IsoCalendar(d).week <= IsoCalendar(Date(y, 12, 28)).week
    ensures 52 <= IsoCalendar(Date(y, 12, 28)).week <= 53
    ensures 1 <= IsoCalendar(d).week
  {
    hide DaysBeforeYear, IsoCalendar, Thursday, WeekIndex;
    Dec28IsInLastWeek(y);
    IsoYearHoldsThursday(d);
    ThursdayOfWeek(d);
    YearLength(y);
    WeekNumbersStep(y, Thursday(d), Thursday(Date(y, 12, 28)));
    FirstWeekRange(y, Thursday(Date(y, 12, 28)));
    FirstWeekRange(y, Thursday(d));
  }

  lemma FirstWeekRange(y: int, t: int)
    requires InYear(t, y)
    ensures 7 * (WeekNumber(y, t) - 1) < t - DaysBeforeYear(y) <= 7 * WeekNumber(y, t)
  {
    hide DaysBeforeYear;
  }

  /** 4 January is always in week 1 of its own year. */
  lemma Jan4IsInFirstWeek(y: int)
    requires y >= 1
    ensures ValidDate(Date(y, 1, 4)) && IsoCalendar(Date(y, 1, 4)) == IsoWeek(y, 1)
  {
    var d := Date(y, 1, 4);
    assert Ordinal(d) == DaysBeforeYear(y) + 4;
    YearLength(y);
    hide DaysBeforeYear, Ordinal, IsLeap;
    ThursdayOfWeek(d);
    FirstWeekRange(y, Thursday(d));
  }

  // ----- the theorem -----

  /** Two Thursdays in year order: the test of the code holds exactly when they are seven days apart. */
  lemma AdjacentThursdays(t: int, u: int, a: IsoWeek, b: IsoWeek)
    requires t % 7 == 4 && u % 7 == 4 && InYear(t, a.year) && InYear(u, b.year) && a.year >= 1
    requires a.week == WeekNumber(a.year, t) && b.week == WeekNumber(b.year, u)
    ensures Before(a, b) <==> t < u
    ensures u - t == 7 <==> Adjoins(a, b)
  {
    hide DaysBeforeYear, IsoCalendar, Thursday, WeekNumber;
    YearIsUnique(t, u, a.year, b.year);
    YearIsUnique(u, t, b.year, a.year);
    WeekNumbersStep(a.year, t, u);
    Dec28IsInLastWeek(a.year);
    WeekNumbersStep(a.year, t, Thursday(Date(a.year, 12, 28)));
    FirstWeekRange(b.year, u);
    if b.year > a.year + 1 { YearsApart(a.year + 1, b.year); }
  }

  lemma SevenTimes(i: int)
    ensures (7 * i + 4) % 7 == 4
  {}

  /** What the week of a date says about its Thursday. */
  lemma ThursdayFacts(d: Date)
    requires ValidDate(d)
    ensures var t, week := Thursday(d), IsoCalendar(d);
      && t == 7 * WeekIndex(d) + 4 && t % 7 == 4 && InYear(t, week.year)
      && week.year >= 1 && week.week == WeekNumber(week.year, t)
  {
    hide IsoCalendar, Thursday, WeekIndex, InYear, WeekNumber;
    IsoYearHoldsThursday(d);
    ThursdayOfWeek(d);
    SevenTimes(WeekIndex(d));
  }

  /** `are_adjacent_weeks` holds exactly when the Monday-based week indices differ by one. */
  lemma AdjacentIffNextIndex(d1: Date, d2: Date)
    requires ValidDate(d1) && ValidDate(d2)
    ensures AreAdjacentWeeks(d1, d2) <==>
      WeekIndex(d2) - WeekIndex(d1) == 1 || WeekIndex(d1) - WeekIndex(d2) == 1
  {
    hide IsoCalendar, Thursday, WeekIndex, InYear, WeekNumber, Adjoins, Before;
    var a, b := IsoCalendar(d1), IsoCalendar(d2);
    ThursdayFacts(d1);
    ThursdayFacts(d2);
    AdjacentThursdays(Thursday(d1), Thursday(d2), a, b);
    AdjacentThursdays(Thursday(d2), Thursday(d1), b, a);
  }

  /** `are_same_weeks` holds exactly when the indices are equal. */
  lemma SameIffEqualIndex(d1: Date, d2: Date)
    requires ValidDate(d1) && ValidDate(d2)
    ensures AreSameWeeks(d1, d2) <==> WeekIndex(d1) == WeekIndex(d2)
  {
    hide IsoCalendar, Thursday, WeekIndex, InYear, WeekNumber, ValidDate;
    ThursdayFacts(d1);
    ThursdayFacts(d2);
    SameThursday(Thursday(d1), Thursday(d2), IsoCalendar(d1), IsoCalendar(d2));
  }

  lemma SameThursday(t: int, u: int, a: IsoWeek, b: IsoWeek)
    requires t % 7 == 4 && u % 7 == 4 && InYear(t, a.year) && InYear(u, b.year)
    requires a.week == WeekNumber(a.year, t) && b.week == WeekNumber(b.year, u)
    ensures a == b <==> t == u
  {
    hide DaysBeforeYear, WeekNumber;
    YearIsUnique(t, u, a.year, b.year);
    WeekNumbersStep(a.year, t, u);
  }


  // ----- the calendar day by day -----

  /** The date that follows, by the lengths of the months of the Gregorian calendar. */
  function NextDay(d: Date): Date
    requires ValidDate(d)
  {
    if d.day < DaysInMonth(d.year, d.month) then Date(d.year, d.month, d.day + 1)
    else if d.month < 12 then Date(d.year, d.month + 1, 1)
    else Date(d.year + 1, 1, 1)
  }

  /** Day numbers count the days one by one. */
  lemma NextDayIsNext(d: Date)
    requires ValidDate(d)
    ensures ValidDate(NextDay(d)) && Ordinal(NextDay(d)) == Ordinal(d) + 1
  {
    YearFromMonths(d.year);
    YearLength(d.year);
    hide DaysBeforeYear, IsLeap;
  }

  /** Four centuries have 97 leap days, and some dates whose day numbers and weeks are known. */
  lemma KnownDates()
    ensures DaysBeforeYear(401) == 400 * 365 + 97
    ensures !IsLeap(1900) && IsLeap(2000) && IsLeap(2024) && !IsLeap(2025)
    ensures Ordinal(Date(1970, 1, 1)) == 719163 && Weekday(Date(1970, 1, 1)) == 3
    ensures IsoCalendar(Date(2021, 1, 3)) == IsoWeek(2020, 53) && IsoCalendar(Date(2021, 1, 4)) == IsoWeek(2021, 1)
    ensures IsoCalendar(Date(2024, 12, 29)) == IsoWeek(2024, 52) && IsoCalendar(Date(2024, 12, 30)) == IsoWeek(2025, 1)
  {
    var days := DaysBeforeMonth(2024, 12);
    assert DaysBeforeMonth(1970, 1) == DaysBeforeMonth(2021, 1) == 0;
  }
}
