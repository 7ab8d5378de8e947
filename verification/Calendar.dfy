/** Days, weeks and months of the Gregorian calendar. Days are numbered from 1 January 1970,
    months from January 1970. */
module Calendar {

  const DAY: int := 86400

  function DayOf(t: int): int { t / DAY }

  lemma DaysLater(t: int, n: int)
    ensures DayOf(t + n * DAY) == DayOf(t) + n
  {
  }

  /** 1 January 1970 was a Thursday. */
  function DaysFromSunday(day: int): int { (day + 4) % 7 }

  function Sunday(day: int): int { day - DaysFromSunday(day) }

  predicate Leap(year: int) { year % 4 == 0 && (year % 100 != 0 || year % 400 == 0) }

  function MonthLength(m: int): (n: nat)
    ensures 28 <= n <= 31
  {
    var i := m % 12;
    if i == 1 then (if Leap(1970 + m / 12) then 29 else 28)
    else if i == 3 || i == 5 || i == 8 || i == 10 then 30
    else 31
  }

  /** Each month starts where the one before ends. */
  function MonthStart(m: int): int
    decreases if m < 0 then -m else m
  {
    if m == 0 then 0
    else if m > 0 then MonthStart(m - 1) + MonthLength(m - 1)
    else MonthStart(m + 1) - MonthLength(m)
  }

  lemma NextMonth(m: int)
    ensures MonthStart(m + 1) == MonthStart(m) + MonthLength(m)
  {
  }

  lemma {:induction false} MonthsAscend(m: int, n: int)
    requires m < n
    ensures MonthStart(m) + MonthLength(m) <= MonthStart(n)
    decreases n - m
  {
    NextMonth(n - 1);
    if m == n - 1 {
    } else {
      MonthsAscend(m, n - 1);
    }
  }

  predicate InMonth(day: int, m: int) { MonthStart(m) <= day < MonthStart(m) + MonthLength(m) }

  /** The month of a day, looked for from `m` on. */
  function MonthFrom(day: int, m: int): (r: int)
    requires MonthStart(m) <= day
    ensures InMonth(day, r)
    decreases day - MonthStart(m)
  {
    NextMonth(m);
    if day < MonthStart(m) + MonthLength(m) then m else MonthFrom(day, m + 1)
  }

  function MonthOf(day: int): (m: int)
    requires day >= 0
    ensures InMonth(day, m)
  {
    MonthFrom(day, 0)
  }

  /** A day is in one month only. */
  lemma MonthIsUnique(day: int, m: int, n: int)
    requires InMonth(day, m) && InMonth(day, n)
    ensures m == n
  {
    if m < n {
      MonthsAscend(m, n);
    } else if n < m {
      MonthsAscend(n, m);
    }
  }

  // ----- years -----

  /** Leap years up to and including `year`, counted from a multiple of 400. */
  function Leaps(year: int): int { year / 4 - year / 100 + year / 400 }

  lemma FourthsStep(n: int)
    ensures n / 4 == (n - 1) / 4 + if n % 4 == 0 then 1 else 0
  {
  }

  lemma HundredthsStep(n: int)
    ensures n / 100 == (n - 1) / 100 + if n % 100 == 0 then 1 else 0
  {
  }

  lemma FourHundredthsStep(n: int)
    ensures n / 400 == (n - 1) / 400 + if n % 400 == 0 then 1 else 0
  {
  }

  lemma Hundreds(n: int, k: int)
    requires n == 100 * k
    ensures n % 100 == 0
  {
  }

  lemma Fours(n: int, k: int)
    requires n == 4 * k
    ensures n % 4 == 0
  {
  }

  lemma CenturiesAreFourths(n: int)
    ensures n % 400 == 0 ==> n % 100 == 0
    ensures n % 100 == 0 ==> n % 4 == 0
  {
    if n % 400 == 0 {
      Hundreds(n, 4 * (n / 400));
    }
    if n % 100 == 0 {
      Fours(n, 25 * (n / 100));
    }
  }

  lemma LeapsStep(year: int)
    ensures Leaps(year) == Leaps(year - 1) + if Leap(year) then 1 else 0
  {
    FourthsStep(year);
    HundredthsStep(year);
    FourHundredthsStep(year);
    CenturiesAreFourths(year);
  }

  /** How many days after 1 January 1970 the year `1970 + y` begins. */
  function YearStart(y: int): int { 365 * y + Leaps(1969 + y) - Leaps(1969) }

  /** Days of a year before its month `i`, January being 0. */
  function DaysBefore(leap: bool, i: nat): int
    requires i <= 12
  {
    if i == 0 then 0 else if i == 1 then 31
    else [59, 90, 120, 151, 181, 212, 243, 273, 304, 334, 365][i - 2] + if leap then 1 else 0
  }

  lemma MonthAt(y: int, i: nat, m: int)
    requires i < 12 && m == 12 * y + i
    ensures m / 12 == y && m % 12 == i
  {
  }

  lemma MonthLengthAt(y: int, i: nat, m: int)
    requires i < 12 && m == 12 * y + i
    ensures MonthLength(m) == DaysBefore(Leap(1970 + y), i + 1) - DaysBefore(Leap(1970 + y), i)
  {
    MonthAt(y, i, m);
  }

  lemma {:induction false} MonthsOfYear(y: int, i: nat, m: int)
    requires i <= 12 && m == 12 * y + i
    ensures MonthStart(m) == MonthStart(12 * y) + DaysBefore(Leap(1970 + y), i)
    decreases i
  {
    if i > 0 {
      MonthsOfYear(y, i - 1, m - 1);
      MonthLengthAt(y, i - 1, m - 1);
      NextMonth(m - 1);
    }
  }

  lemma NextYear(y: int, leap: bool)
    requires leap == Leap(1970 + y)
    ensures MonthStart(12 * (y + 1)) == MonthStart(12 * y) + 365 + if leap then 1 else 0
    ensures YearStart(y + 1) == YearStart(y) + 365 + if leap then 1 else 0
  {
    MonthsOfYear(y, 12, 12 * (y + 1));
    LeapsStep(1970 + y);
    assert 1969 + (y + 1) == 1970 + y && 1970 + y - 1 == 1969 + y;
  }

  /** The closed form of the start of a year, before 1970 as well as after. */
  lemma {:induction false} YearsStart(y: int)
    ensures MonthStart(12 * y) == YearStart(y)
    decreases if y < 0 then -y else y
  {
    if y > 0 {
      YearsStart(y - 1);
      NextYear(y - 1, Leap(1969 + y));
    } else if y < 0 {
      YearsStart(y + 1);
      NextYear(y, Leap(1970 + y));
    }
  }

  /** Day `d` of month `i` of the year `1970 + y`, counted from 0, in the closed form. */
  lemma CivilDay(y: int, i: nat, m: int, d: int)
    requires i <= 12 && m == 12 * y + i
    ensures MonthStart(m) + d == YearStart(y) + DaysBefore(Leap(1970 + y), i) + d
  {
    YearsStart(y);
    MonthsOfYear(y, i, m);
  }

  lemma SameYearAgain(y: int)
    ensures Leap(1970 + y + 400) <==> Leap(1970 + y)
    ensures YearStart(y + 400) == YearStart(y) + 146097
  {
    var n := 1969 + y;
    assert (n + 400) / 4 == n / 4 + 100 && (n + 400) / 100 == n / 100 + 4 && (n + 400) / 400 == n / 400 + 1;
  }

  lemma FourHundredYears(y: int, i: nat, m: int)
    requires i <= 12 && m == 12 * y + i
    ensures MonthStart(m + 4800) == MonthStart(m) + 146097
  {
    CivilDay(y, i, m, 0);
    CivilDay(y + 400, i, m + 4800, 0);
    SameYearAgain(y);
  }

  lemma WholeWeeks(day: int)
    ensures DaysFromSunday(day + 7 * 20871) == DaysFromSunday(day)
  {
  }

  /** 4800 months are 146097 days, and those are whole weeks, so the calendar repeats with its
      weekdays. */
  lemma CalendarRepeats(m: int, k: int)
    ensures MonthStart(m + 4800) == MonthStart(m) + 146097
    ensures DaysFromSunday(MonthStart(m + 4800) + k) == DaysFromSunday(MonthStart(m) + k)
  {
    FourHundredYears(m / 12, m % 12, m);
    WholeWeeks(MonthStart(m) + k);
  }

  /** The first day of the Gregorian calendar, 15 October 1582, was a Friday. */
  lemma FirstGregorianDay(y: int, m: int)
    requires 1970 + y == 1582 && m == 12 * y + 9
    ensures MonthStart(m) + 14 == -141427 && DaysFromSunday(MonthStart(m) + 14) == 5
  {
    CivilDay(y, 9, m, 14);
  }

  /** 29 February 2000 was a Tuesday. */
  lemma LeapDayOf2000(y: int, m: int)
    requires 1970 + y == 2000 && m == 12 * y + 1
    ensures MonthLength(m) == 29 && DaysFromSunday(MonthStart(m) + 28) == 2
  {
    CivilDay(y, 1, m, 28);
  }

  /** A week begins on its Sunday, at most six days back. */
  lemma SundayStarts(day: int)
    ensures Sunday(day) <= day < Sunday(day) + 7 && DaysFromSunday(Sunday(day)) == 0
  {
  }
}
