/** Calendar days as integers, following the proleptic Gregorian calendar that Go's
    `time` package uses. Day 0 is 0001-01-01, the date of Go's zero `time.Time`.
    Only whole days are modelled: every time in the program is a midnight in one zone. */
module Dates {
  import opened Results

  /** A calendar day, counted from 0001-01-01 (day 0). Negative days are earlier. */
  type Day = int

  /** The date of the zero `time.Time`, which every schedule cursor starts from. */
  const ZeroTime: Day := 0

  /** Go's `time.Weekday`: Sunday = 0, ..., Saturday = 6. */
  type Weekday = w: int | 0 <= w < 7

  const Sunday: Weekday := 0
  const Monday: Weekday := 1
  const Tuesday: Weekday := 2
  const Wednesday: Weekday := 3
  const Thursday: Weekday := 4
  const Friday: Weekday := 5
  const Saturday: Weekday := 6

  /** 0001-01-01 is a Monday, so day n falls on weekday (n + 1) mod 7. */
  function WeekdayOf(n: Day): Weekday
  {
    (n + 1) % 7
  }

  predicate IsLeap(y: int)
  {
    y % 4 == 0 && (y % 100 != 0 || y % 400 == 0)
  }

  function DaysInYear(y: int): int
  {
    if IsLeap(y) then 366 else 365
  }

  /** Days before the start of each month in a non-leap year (Go's `daysBefore`). */
  const CumulativeDays: seq<int> := [0, 31, 59, 90, 120, 151, 181, 212, 243, 273, 304, 334, 365]

  /** Number of days in month m of year y. */
  function DaysIn(y: int, m: int): int
    requires 1 <= m <= 12
  {
    if m == 2 && IsLeap(y) then 29 else CumulativeDays[m] - CumulativeDays[m - 1]
  }

  /** Days from January 1 of year y to the first of month m. */
  function DaysBeforeMonth(y: int, m: int): int
    requires 1 <= m <= 12
  {
    CumulativeDays[m - 1] + (if IsLeap(y) && m >= 3 then 1 else 0)
  }

  /** Day number of January 1 of year y. */
  function DaysBeforeYear(y: int): Day
  {
    var p := y - 1;
    365 * p + p / 4 - p / 100 + p / 400
  }

  /** Go's `time.Date(y, m, d, 0, 0, 0, 0, loc)`: a month outside 1..12 carries into the year
      (rounding toward minus infinity), and a day outside the month is an offset from its first day. */
  function Date(y: int, m: int, d: int): Day
  {
    var y' := y + (m - 1) / 12;
    var m' := (m - 1) % 12 + 1;
    DaysBeforeYear(y') + DaysBeforeMonth(y', m') + d - 1
  }

  /** A year, month and day as returned by Go's `Time.Date()`. */
  datatype Civil = Civil(year: int, month: int, day: int)

  ghost predicate ValidCivil(c: Civil)
  {
    1 <= c.month <= 12 && 1 <= c.day <= DaysIn(c.year, c.month)
  }

  lemma MonthTable(y: int, m: int)
    requires 1 <= m <= 12
    ensures m < 12 ==> DaysBeforeMonth(y, m + 1) == DaysBeforeMonth(y, m) + DaysIn(y, m)
    ensures m == 12 ==> DaysBeforeMonth(y, m) + DaysIn(y, m) == DaysInYear(y)
    ensures DaysBeforeMonth(y, m) + DaysIn(y, m) <= DaysInYear(y)
    ensures DaysIn(y, m) >= 28
  {
  }

  /** Day numbers of January 1 in a 400-year cycle, by centuries, 4-year groups and years. */
  lemma CycleYears(q: int, c: int, f: int, e: int)
    requires 0 <= c <= 3 && 0 <= f <= 24 && 0 <= e <= 3
    ensures DaysBeforeYear(400 * q + 100 * c + 4 * f + e + 1) == 146097 * q + 36524 * c + 1461 * f + 365 * e
  {
    var p := 400 * q + 100 * c + 4 * f + e;
    assert p == 4 * (100 * q + 25 * c + f) + e;
    assert p / 4 == 100 * q + 25 * c + f;
    assert p == 100 * (4 * q + c) + (4 * f + e);
    assert p / 100 == 4 * q + c;
    assert p == 400 * q + (100 * c + 4 * f + e);
    assert p / 400 == q;
  }

  /** Splits a position r inside a 400-year cycle into centuries c, 4-year groups f, years e
      and the remaining day of the year. */
  function CycleSplit(r: int): (s: (int, int, int, int))
    requires 0 <= r < 146097
    ensures 0 <= s.0 <= 3 && 0 <= s.1 <= 24 && 0 <= s.2 <= 3 && 0 <= s.3 <= 365
    ensures r == 36524 * s.0 + 1461 * s.1 + 365 * s.2 + s.3
    ensures s.3 == 365 ==> s.2 == 3 && (s.1 == 24 ==> s.0 == 3)
  {
    var c := if r / 36524 < 3 then r / 36524 else 3;
    var r2 := r - 36524 * c;
    assert 0 <= r2 <= 36524;
    assert r2 == 36524 ==> c == 3;
    var f := r2 / 1461;
    var r3 := r2 % 1461;
    var e := if r3 / 365 < 3 then r3 / 365 else 3;
    (c, f, e, r3 - 365 * e)
  }

  lemma LeapAtCycleEnd(q: int, c: int, f: int)
    requires 0 <= c <= 3 && 0 <= f <= 24 && (f == 24 ==> c == 3)
    ensures IsLeap(400 * q + 100 * c + 4 * f + 4)
  {
    var y := 400 * q + 100 * c + 4 * f + 4;
    assert y == 4 * (100 * q + 25 * c + f + 1);
    if f == 24 {
      assert y == 400 * (q + 1);
    } else {
      assert y == 100 * (4 * q + c) + (4 * f + 4);
      assert 4 <= 4 * f + 4 < 100;
    }
  }

  /** The year that contains day n, and n's 0-based position within that year. */
  function YearOf(n: Day): (r: (int, int))
    ensures DaysBeforeYear(r.0) + r.1 == n
    ensures 0 <= r.1 < DaysInYear(r.0)
  {
    var q := n / 146097;
    var (c, f, e, doy) := CycleSplit(n % 146097);
    CycleYears(q, c, f, e);
    if doy == 365 then
      LeapAtCycleEnd(q, c, f);
      (400 * q + 100 * c + 4 * f + e + 1, doy)
    else
      (400 * q + 100 * c + 4 * f + e + 1, doy)
  }

  /** The month of year y that contains the 0-based day-of-year doy, searching down from month m. */
  function MonthFrom(y: int, doy: int, m: int): (r: int)
    requires 1 <= m <= 12 && 0 <= doy < DaysBeforeMonth(y, m) + DaysIn(y, m)
    ensures 1 <= r <= m
    ensures DaysBeforeMonth(y, r) <= doy < DaysBeforeMonth(y, r) + DaysIn(y, r)
    decreases m
  {
    if DaysBeforeMonth(y, m) <= doy then m
    else
      MonthTable(y, m - 1);
      MonthFrom(y, doy, m - 1)
  }

  /** Go's `Time.Date()`: the year, month and day of day n. */
  function CivilOf(n: Day): (c: Civil)
    ensures ValidCivil(c)
    ensures Date(c.year, c.month, c.day) == n
  {
    var yd := YearOf(n);
    MonthTable(yd.0, 12);
    var m := MonthFrom(yd.0, yd.1, 12);
    DateInYear(yd.0, m, yd.1 - DaysBeforeMonth(yd.0, m) + 1);
    Civil(yd.0, m, yd.1 - DaysBeforeMonth(yd.0, m) + 1)
  }

  /** For a month of 1 to 12, `Date` needs no normalisation of the month. */
  lemma DateInYear(y: int, m: int, d: int)
    requires 1 <= m <= 12
    ensures Date(y, m, d) == DaysBeforeYear(y) + DaysBeforeMonth(y, m) + d - 1
  {
    assert (m - 1) / 12 == 0 && (m - 1) % 12 + 1 == m;
  }

  /** Go's `Time.AddDate`: add to the year, month and day fields, then normalise with `Date`. */
  function AddDate(n: Day, years: int, months: int, days: int): Day
  {
    var c := CivilOf(n);
    Date(c.year + years, c.month + months, c.day + days)
  }

  /** Stepping from y - 1 to y passes one more multiple of k exactly when k divides y. */
  lemma DivStep(y: int, k: int, q: int, r: int)
    requires k > 0 && y - 1 == k * q + r && 0 <= r < k
    ensures y / k - (y - 1) / k == (if y % k == 0 then 1 else 0)
  {
    DivMod(y - 1, k, q, r);
    if r == k - 1 {
      DivMod(y, k, q + 1, 0);
    } else {
      DivMod(y, k, q, r + 1);
    }
  }

  /** Division is determined by any quotient and remainder in range. */
  lemma DivMod(a: int, k: int, q: int, r: int)
    requires k > 0 && a == k * q + r && 0 <= r < k
    ensures a / k == q && a % k == r
  {
    var q', r' := a / k, a % k;
    if q' < q {
      assert k * q - k * q' == k * (q - q');
      MulAtLeast(k, q - q');
    } else if q < q' {
      assert k * q' - k * q == k * (q' - q);
      MulAtLeast(k, q' - q);
    }
  }

  lemma {:induction false} MulAtLeast(k: int, m: int)
    requires k > 0 && m >= 1
    ensures k * m >= k
    decreases m
  {
    if m > 1 {
      MulAtLeast(k, m - 1);
      assert k * m == k * (m - 1) + k;
    }
  }

  /** January 1 of the next year is DaysInYear days after January 1. */
  lemma YearStep(y: int)
    ensures DaysBeforeYear(y + 1) == DaysBeforeYear(y) + DaysInYear(y)
  {
    var p := y - 1;
    DivStep(y, 4, p / 4, p % 4);
    DivStep(y, 100, p / 100, p % 100);
    DivStep(y, 400, p / 400, p % 400);
    DivisorsOfYear(y);
    var d4, d100, d400 := y / 4 - p / 4, y / 100 - p / 100, y / 400 - p / 400;
    assert DaysBeforeYear(y + 1) == DaysBeforeYear(y) + 365 + d4 - d100 + d400;
  }

  /** A multiple of 400 is a multiple of 100, and a multiple of 100 a multiple of 4. */
  lemma DivisorsOfYear(y: int)
    ensures y % 400 == 0 ==> y % 100 == 0
    ensures y % 100 == 0 ==> y % 4 == 0
  {
    if y % 400 == 0 {
      DivMod(y, 100, 4 * (y / 400), 0);
    }
    if y % 100 == 0 {
      DivMod(y, 4, 25 * (y / 100), 0);
    }
  }

  lemma {:induction false} YearsMonotone(a: int, b: int)
    requires a <= b
    ensures DaysBeforeYear(a) + 365 * (b - a) <= DaysBeforeYear(b)
    decreases b - a
  {
    if a < b {
      YearStep(b - 1);
      YearsMonotone(a, b - 1);
    }
  }

  /** Day n lies in the year returned by YearOf and in no other. */
  lemma YearUnique(y: int, n: Day)
    requires DaysBeforeYear(y) <= n < DaysBeforeYear(y) + DaysInYear(y)
    ensures YearOf(n).0 == y
  {
    var y' := YearOf(n).0;
    if y' < y {
      YearStep(y');
      YearsMonotone(y' + 1, y);
    } else if y < y' {
      YearStep(y);
      YearsMonotone(y + 1, y');
    }
  }

  lemma MonthsMonotone(y: int, m1: int, m2: int)
    requires 1 <= m1 < m2 <= 12
    ensures DaysBeforeMonth(y, m1) + DaysIn(y, m1) <= DaysBeforeMonth(y, m2)
  {
  }

  /** The month search finds the one month whose days contain doy. */
  lemma MonthFromUnique(y: int, doy: int, m: int)
    requires 1 <= m <= 12 && DaysBeforeMonth(y, m) <= doy < DaysBeforeMonth(y, m) + DaysIn(y, m)
    ensures MonthFrom(y, doy, 12) == m
  {
    MonthTable(y, 12);
    var r := MonthFrom(y, doy, 12);
    if r < m {
      MonthsMonotone(y, r, m);
    } else if m < r {
      MonthsMonotone(y, m, r);
    }
  }

  /** A valid year, month and day, given as separate numbers, come back from CivilOf(Date(...)). */
  lemma CivilOfYmd(y: int, m: int, d: int)
    requires 1 <= m <= 12 && 1 <= d <= DaysIn(y, m)
    ensures CivilOf(Date(y, m, d)) == Civil(y, m, d)
  {
    var doy := DaysBeforeMonth(y, m) + d - 1;
    var n := DaysBeforeYear(y) + doy;
    assert (m - 1) / 12 == 0 && (m - 1) % 12 + 1 == m;
    assert Date(y, m, d) == n;
    MonthTable(y, m);
    YearUnique(y, n);
    assert YearOf(n) == (y, doy);
    MonthFromUnique(y, doy, m);
  }

  /** CivilOf inverts Date on every valid year, month and day. */
  lemma CivilOfDate(c: Civil)
    requires ValidCivil(c)
    ensures CivilOf(Date(c.year, c.month, c.day)) == c
  {
    CivilOfYmd(c.year, c.month, c.day);
  }

  /** Adding days through AddDate is plain addition: `t.AddDate(0, 0, k)` is k days after t. */
  lemma AddDays(n: Day, k: int)
    ensures AddDate(n, 0, 0, k) == n + k
  {
    var c := CivilOf(n);
    assert (c.month - 1) / 12 == 0 && (c.month - 1) % 12 + 1 == c.month;
  }

  /** First day of the month with index i = 12 * year + (month - 1). */
  function MonthStart(i: int): Day
  {
    Date(0, i + 1, 1)
  }

  function MonthIndex(c: Civil): int
  {
    12 * c.year + c.month - 1
  }

  /** Date(y, m, d) is day d of the month with index i = 12 * y + (m - 1), whatever m is. */
  lemma DateFromMonthStart(y: int, m: int, d: int, i: int)
    requires i == 12 * y + m - 1
    ensures Date(y, m, d) == MonthStart(i) + d - 1
  {
    assert i / 12 == y + (m - 1) / 12 && i % 12 == (m - 1) % 12;
  }

  /** The first of the next month is DaysIn days after the first of month m. */
  lemma NextMonthStart(y: int, m: int)
    requires 1 <= m <= 12
    ensures Date(y, m + 1, 1) == Date(y, m, 1) + DaysIn(y, m)
  {
    MonthTable(y, m);
    assert (m - 1) / 12 == 0 && (m - 1) % 12 + 1 == m;
    if m == 12 {
      assert m / 12 == 1 && m % 12 + 1 == 1;
      YearStep(y);
    } else {
      assert m / 12 == 0 && m % 12 + 1 == m + 1;
    }
  }

  lemma MonthStartStep(i: int)
    ensures MonthStart(i + 1) == MonthStart(i) + DaysIn(i / 12, i % 12 + 1)
  {
    var y, m := i / 12, i % 12 + 1;
    DateFromMonthStart(y, m, 1, i);
    DateFromMonthStart(y, m + 1, 1, i + 1);
    NextMonthStart(y, m);
  }

  /** Every month has between 28 and 31 days. */
  lemma MonthStartGap(i: int)
    ensures MonthStart(i) + 28 <= MonthStart(i + 1) <= MonthStart(i) + 31
  {
    MonthStartStep(i);
    MonthTable(i / 12, i % 12 + 1);
  }

  /** Day numbers f(k) that grow by at least 28 from each k to the next keep growing over any
      distance. */
  lemma {:induction false} GapsMonotone(f: int -> Day, i: int, j: int)
    requires forall k :: f(k) + 28 <= f(k + 1)
    requires i < j
    ensures f(i + 1) <= f(j)
    ensures f(i) + 28 <= f(j)
    decreases j - i
  {
    if i + 1 < j {
      GapsMonotone(f, i + 1, j);
    }
  }

  /** Month starts increase: a later month starts at least 28 days after an earlier one. */
  lemma MonthStartMonotone(i: int, j: int)
    requires i < j
    ensures MonthStart(i + 1) <= MonthStart(j)
    ensures MonthStart(i) + 28 <= MonthStart(j)
  {
    forall k ensures MonthStart(k) + 28 <= MonthStart(k + 1) {
      MonthStartGap(k);
    }
    GapsMonotone(MonthStart, i, j);
  }

  /** A valid day of month m lies between the first of that month and the first of the next. */
  lemma DayInMonth(y: int, m: int, d: int, i: int)
    requires 1 <= m <= 12 && 1 <= d <= DaysIn(y, m) && i == 12 * y + m - 1
    ensures MonthStart(i) <= Date(y, m, d) < MonthStart(i + 1)
  {
    NextMonthStart(y, m);
    DateFromMonthStart(y, m, d, i);
    DateFromMonthStart(y, m, 1, i);
    DateFromMonthStart(y, m + 1, 1, i + 1);
  }

  /** Every day lies in the month that CivilOf names for it; i is that month's index. */
  lemma MonthOfDay(n: Day) returns (i: int)
    ensures i == MonthIndex(CivilOf(n))
    ensures MonthStart(i) <= n < MonthStart(i + 1)
  {
    var c := CivilOf(n);
    i := MonthIndex(c);
    DayInMonth(c.year, c.month, c.day, i);
  }

  /** The day OnOrBefore(n, wd) is the last day on or before n that falls on weekday wd. */
  function OnOrBefore(n: Day, wd: Weekday): (r: Day)
    ensures n - 6 <= r <= n
    ensures WeekdayOf(r) == wd
  {
    n - (WeekdayOf(n) - wd + 7) % 7
  }

  /** A week later is the same weekday. */
  lemma WeekLater(n: Day)
    ensures WeekdayOf(n + 7) == WeekdayOf(n)
  {
    DivMod(n + 8, 7, (n + 1) / 7 + 1, (n + 1) % 7);
  }

  /** Exactly one day in any seven consecutive days falls on a given weekday. */
  lemma OnOrBeforeUnique(n: Day, wd: Weekday, r: Day)
    requires n - 6 <= r <= n && WeekdayOf(r) == wd
    ensures r == OnOrBefore(n, wd)
  {
    var o := OnOrBefore(n, wd);
    var qr, qo := (r + 1) / 7, (o + 1) / 7;
    assert r + 1 == 7 * qr + wd && o + 1 == 7 * qo + wd;
    assert qr == qo;
  }

  /** `t.AddDate(0, 0, k)`: shifting by whole days moves the day count by exactly k. */
  method ShiftDays(n: Day, k: int) returns (r: Day)
    ensures r == n + k
  {
    AddDays(n, k);
    r := AddDate(n, 0, 0, k);
  }

  /** The walk-back loop of `weeklySchedule.ShouldApply`, `biweeklySchedule.ShouldApply` and
      `weeklyFrequency.Next`: step back one day at a time until the weekday matches. */
  method WalkBack(n: Day, wd: Weekday) returns (r: Day)
    ensures r == OnOrBefore(n, wd)
  {
    r := n;
    while WeekdayOf(r) != wd
      invariant OnOrBefore(n, wd) <= r <= n
      decreases r - OnOrBefore(n, wd)
    {
      AddDays(r, -1);
      r := AddDate(r, 0, 0, -1);
    }
    OnOrBeforeUnique(n, wd, r);
  }

  /** Go's `daysOfWeek` table: capitalised English weekday names. */
  function WeekdayNamed(name: string): (r: Option<Weekday>)
  {
    if name == "Sunday" then Some(Sunday)
    else if name == "Monday" then Some(Monday)
    else if name == "Tuesday" then Some(Tuesday)
    else if name == "Wednesday" then Some(Wednesday)
    else if name == "Thursday" then Some(Thursday)
    else if name == "Friday" then Some(Friday)
    else if name == "Saturday" then Some(Saturday)
    else None
  }
}
