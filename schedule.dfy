/** Recurrence rules (schedule.go): Weekly, Biweekly, Monthly and Once. Each schedule keeps a
    cursor, the day it last fired (or, for Once, whether it has fired), and answers "should the
    event fire on day t?", moving its cursor to t when the answer is yes. */
module Schedules {
  import opened Results
  import opened Dates
  import Text
  import Strconv

  /** The four schedule types, with the configuration each one is built from. */
  datatype Kind = Weekly(weekday: Weekday) | Biweekly(weekday: Weekday) | Monthly(day: int) | Once(time: Day)
  {
    /** `YearlyFactor`: the average number of firings in a year, used only for statistics.
        A one-time event is left out of yearly figures. */
    function YearlyFactor(): (f: real)
      ensures f >= 0.0
      ensures f == 0.0 <==> Once?
    {
      match this
      case Weekly(_) => 52.0
      case Biweekly(_) => 26.0
      case Monthly(_) => 12.0
      case Once(_) => 0.0
    }
  }

  /** The mutable state of a schedule: the last day it fired (Weekly, Biweekly, Monthly) and
      whether it has fired (Once). A fresh schedule holds the zero time and false. */
  datatype Cursor = Cursor(lastApplied: Day, applied: bool)

  const Unfired: Cursor := Cursor(ZeroTime, false)

  /** The first day on which a recurring schedule that last fired on lastApplied is due again.
      Weekly: walk back from lastApplied + 7 days to the schedule's weekday; Biweekly: the same
      from lastApplied + 14 days; Monthly: the schedule's day in the year and month of
      lastApplied + 1 month, both after Go's normalisation. */
  function NextDue(k: Kind, lastApplied: Day): (r: Day)
    requires !k.Once?
    ensures k.Weekly? ==> lastApplied < r <= lastApplied + 7 && WeekdayOf(r) == k.weekday
    ensures k.Biweekly? ==> lastApplied + 7 < r <= lastApplied + 14 && WeekdayOf(r) == k.weekday
  {
    match k
    case Weekly(wd) => OnOrBefore(lastApplied + 7, wd)
    case Biweekly(wd) => OnOrBefore(lastApplied + 14, wd)
    case Monthly(d) =>
      var c := CivilOf(AddDate(lastApplied, 0, 1, 0));
      Date(c.year, c.month, d)
  }

  /** Whether `ShouldApply(t)` answers yes from cursor cur: Once fires if it has not fired and t is
      not before its date; the others fire if t is not before their next due day. */
  predicate Fires(k: Kind, cur: Cursor, t: Day)
  {
    if k.Once? then !cur.applied && !(t < k.time) else !(t < NextDue(k, cur.lastApplied))
  }

  /** The cursor after `ShouldApply(t)`: unchanged when it does not fire; otherwise Once is marked
      applied and the others remember t. */
  function Advance(k: Kind, cur: Cursor, t: Day): Cursor
  {
    if !Fires(k, cur, t) then cur
    else if k.Once? then cur.(applied := true)
    else cur.(lastApplied := t)
  }

  /** A schedule object: its kind is fixed, its cursor fields change when it fires. */
  class Schedule {
    const kind: Kind
    var lastApplied: Day
    var applied: bool

    function State(): Cursor
      reads this
    {
      Cursor(lastApplied, applied)
    }

    /** `Weekly(day)`, `Biweekly(day)`, `Monthly(day)`, `Once(t)`. */
    constructor (k: Kind)
      ensures kind == k && State() == Unfired
    {
      kind := k;
      lastApplied := ZeroTime;
      applied := false;
    }

    /** `ShouldApply(t)` of each schedule type. */
    method ShouldApply(t: Day) returns (fire: bool)
      modifies this
      ensures fire == Fires(kind, old(State()), t)
      ensures State() == Advance(kind, old(State()), t)
    {
      if kind.Once? {
        if applied || t < kind.time {
          return false;
        }
        applied := true;
        return true;
      }
      var due: Day;
      match kind {
        case Weekly(wd) =>
          due := WalkBackFrom(lastApplied, 7, wd);
        case Biweekly(wd) =>
          due := WalkBackFrom(lastApplied, 14, wd);
        case Monthly(_) =>
          due := NextDue(kind, lastApplied);
      }
      if t < due {
        return false;
      }
      lastApplied := t;
      return true;
    }
  }

  /** The Weekly and Biweekly due day: `lastApplied.AddDate(0, 0, days)`, then stepped back one
      day at a time until it falls on weekday wd. */
  method WalkBackFrom(lastApplied: Day, days: int, wd: Weekday) returns (due: Day)
    ensures due == OnOrBefore(lastApplied + days, wd)
  {
    AddDays(lastApplied, days);
    due := WalkBack(AddDate(lastApplied, 0, 0, days), wd);
  }

  /** A Weekly schedule is next due on the one day among the seven after lastApplied that falls
      on its weekday. */
  lemma WeeklyDueWindow(wd: Weekday, lastApplied: Day)
    ensures lastApplied + 1 <= NextDue(Weekly(wd), lastApplied) <= lastApplied + 7
    ensures WeekdayOf(NextDue(Weekly(wd), lastApplied)) == wd
    ensures forall d :: lastApplied + 1 <= d <= lastApplied + 7 && WeekdayOf(d) == wd ==>
      d == NextDue(Weekly(wd), lastApplied)
  {
    forall d | lastApplied + 1 <= d <= lastApplied + 7 && WeekdayOf(d) == wd
      ensures d == NextDue(Weekly(wd), lastApplied)
    {
      OnOrBeforeUnique(lastApplied + 7, wd, d);
    }
  }

  /** A Biweekly schedule is next due on the one day among days 8 to 14 after lastApplied that
      falls on its weekday. */
  lemma BiweeklyDueWindow(wd: Weekday, lastApplied: Day)
    ensures lastApplied + 8 <= NextDue(Biweekly(wd), lastApplied) <= lastApplied + 14
    ensures WeekdayOf(NextDue(Biweekly(wd), lastApplied)) == wd
    ensures forall d :: lastApplied + 8 <= d <= lastApplied + 14 && WeekdayOf(d) == wd ==>
      d == NextDue(Biweekly(wd), lastApplied)
  {
    forall d | lastApplied + 8 <= d <= lastApplied + 14 && WeekdayOf(d) == wd
      ensures d == NextDue(Biweekly(wd), lastApplied)
    {
      OnOrBeforeUnique(lastApplied + 14, wd, d);
    }
  }

  /** Once a Weekly or Biweekly schedule has fired on its own weekday, it is next due exactly one
      stride later: 7 days for Weekly (52 firings in 364 days), 14 for Biweekly (26 in 364). */
  lemma SteadyStride(wd: Weekday, lastApplied: Day)
    requires WeekdayOf(lastApplied) == wd
    ensures NextDue(Weekly(wd), lastApplied) == lastApplied + 7
    ensures NextDue(Biweekly(wd), lastApplied) == lastApplied + 14
  {
    WeekLater(lastApplied);
    WeekLater(lastApplied + 7);
    OnOrBeforeUnique(lastApplied + 7, wd, lastApplied + 7);
    OnOrBeforeUnique(lastApplied + 14, wd, lastApplied + 14);
  }

  /** Adding one month to a day of month i lands no earlier than the first of month i + 1. */
  lemma AddMonthReachesNextMonth(n: Day, i: int)
    requires i == MonthIndex(CivilOf(n))
    ensures AddDate(n, 0, 1, 0) >= MonthStart(i + 1)
  {
    var c := CivilOf(n);
    DateFromMonthStart(c.year, c.month + 1, c.day, i + 1);
  }

  /** A day of month i that is on or after the first of month j has i >= j. */
  lemma MonthIndexFrom(n: Day, i: int, j: int)
    requires MonthStart(i) <= n < MonthStart(i + 1)
    requires n >= MonthStart(j)
    ensures i >= j
  {
    if i + 1 < j {
      MonthStartMonotone(i + 1, j);
    }
  }

  /** The month arithmetic behind MonthlyDueAfter, stated on month starts alone: a last firing in
      month i0, a month-later day in month i1 that is past month i0, and a due day d - 1 days into
      month i1. */
  lemma MonthlyDueInLaterMonth(lastApplied: Day, n: Day, i0: int, i1: int, d: int, due: Day)
    requires d >= 1
    requires MonthStart(i0) <= lastApplied < MonthStart(i0 + 1)
    requires n >= MonthStart(i0 + 1)
    requires MonthStart(i1) <= n < MonthStart(i1 + 1)
    requires due == MonthStart(i1) + d - 1
    ensures due > lastApplied
    ensures due >= MonthStart(i0 + 1)
  {
    MonthIndexFrom(n, i1, i0 + 1);
    MonthStartMonotone(i0, i1);
  }

  /** A Monthly schedule's next due day is d - 1 days into month i, the month of lastApplied plus
      one month. */
  lemma MonthlyDueFromMonthStart(d: int, lastApplied: Day, i: int)
    requires i == MonthIndex(CivilOf(AddDate(lastApplied, 0, 1, 0)))
    ensures NextDue(Monthly(d), lastApplied) == MonthStart(i) + d - 1
  {
    var c1 := CivilOf(AddDate(lastApplied, 0, 1, 0));
    DateFromMonthStart(c1.year, c1.month, d, i);
  }

  /** A Monthly schedule for a day of 1 or more that last fired in month i0 is next due strictly
      after lastApplied and no earlier than the first of month i0 + 1: it fires at most once in
      any calendar month. */
  lemma MonthlyDueAfter(d: int, lastApplied: Day, i0: int)
    requires d >= 1
    requires MonthStart(i0) <= lastApplied < MonthStart(i0 + 1)
    ensures NextDue(Monthly(d), lastApplied) > lastApplied
    ensures NextDue(Monthly(d), lastApplied) >= MonthStart(i0 + 1)
  {
    var i := MonthOfDay(lastApplied);
    MonthIndexFrom(lastApplied, i, i0);
    MonthIndexFrom(lastApplied, i0, i);
    var n := AddDate(lastApplied, 0, 1, 0);
    AddMonthReachesNextMonth(lastApplied, i0);
    var i1 := MonthOfDay(n);
    MonthlyDueFromMonthStart(d, lastApplied, i1);
    MonthlyDueInLaterMonth(lastApplied, n, i0, i1, d, NextDue(Monthly(d), lastApplied));
  }

  /** Per-day idempotence: a schedule that fired on day t does not fire again on day t
      (for Monthly, when its day is 1 or more). */
  lemma FiresOncePerDay(k: Kind, cur: Cursor, t: Day)
    requires k.Monthly? ==> k.day >= 1
    requires Fires(k, cur, t)
    ensures !Fires(k, Advance(k, cur, t), t)
  {
    match k
    case Weekly(wd) => WeeklyDueWindow(wd, t);
    case Biweekly(wd) => BiweeklyDueWindow(wd, t);
    case Monthly(d) =>
      var i := MonthOfDay(t);
      MonthlyDueAfter(d, t, i);
    case Once(_) =>
  }

  /** A Once schedule fires only on or after its date, and after firing never fires again. */
  lemma OnceFiresOnce(time: Day, cur: Cursor, t: Day, t': Day)
    ensures Fires(Once(time), cur, t) ==> t >= time && !cur.applied
    ensures Fires(Once(time), cur, t) ==> !Fires(Once(time), Advance(Once(time), cur, t), t')
  {
  }

  /** Adding one month to a valid date before December keeps the day and moves to the next month. */
  lemma AddMonth(y: int, m: int, d: int)
    requires 1 <= m < 12 && 1 <= d <= DaysIn(y, m)
    ensures AddDate(Date(y, m, d), 0, 1, 0) == Date(y, m + 1, d)
  {
    CivilOfYmd(y, m, d);
  }

  /** In a leap year, "February 31" is March 2. */
  lemma LeapFebruaryOverflow(y: int)
    requires IsLeap(y)
    ensures Date(y, 2, 31) == Date(y, 3, 2)
  {
    DateInYear(y, 2, 31);
    DateInYear(y, 3, 2);
  }

  /** From a lastApplied on January 31 of a leap year, a Monthly(15) schedule skips February:
      adding a month gives February 31, which normalises to March 2, so the next due day is
      March 15. */
  lemma MonthlySkipsShortMonth(y: int)
    requires IsLeap(y)
    ensures NextDue(Monthly(15), Date(y, 1, 31)) == Date(y, 3, 15)
  {
    AddMonth(y, 1, 31);
    LeapFebruaryOverflow(y);
    CivilOfYmd(y, 3, 2);
  }

  /** A day beyond the month's length rolls over: in a leap year, Monthly(31) after January 15
      is due on "February 31", that is March 2. */
  lemma MonthlyDayRollsOver(y: int)
    requires IsLeap(y)
    ensures NextDue(Monthly(31), Date(y, 1, 15)) == Date(y, 3, 2)
  {
    AddMonth(y, 1, 15);
    CivilOfYmd(y, 2, 15);
    LeapFebruaryOverflow(y);
  }

  // ---------------------------------------------------------------------------------------
  // Parsing schedule arguments

  /** The schedule parsers registered by name at start-up. */
  datatype ScheduleParser = WeeklyParser | BiweeklyParser | MonthlyParser | OnceParser

  function ParserNamed(name: string): (p: Option<ScheduleParser>)
    ensures p.Some? <==> name in {"Weekly", "Biweekly", "Monthly", "Once"}
  {
    if name == "Weekly" then Some(WeeklyParser)
    else if name == "Biweekly" then Some(BiweeklyParser)
    else if name == "Monthly" then Some(MonthlyParser)
    else if name == "Once" then Some(OnceParser)
    else None
  }

  datatype ParseError =
    | InvalidWeekday(arg: string)          // "invalid weekday: <arg>"
    | BadNumber(cause: Strconv.NumError)   // the error of strconv.Atoi, returned unchanged
    | OnceNeedsDate                        // "Once schedule requires a date"
    | BadDate(value: string)               // any error of time.Parse

  /** `time.Parse("2006-01-02", s)`: four year digits, '-', two month digits, '-', two day digits
      and nothing else, with a month of 1 to 12 and a day that exists in that month. */
  function ParseDate(s: string): (r: Option<Day>)
    ensures r.Some? ==> |s| == 10 && s[4] == '-' && s[7] == '-'
  {
    if |s| == 10 && s[4] == '-' && s[7] == '-' && AllDigits(s[..4]) && AllDigits(s[5..7]) && AllDigits(s[8..]) then
      var y, m, d := Number(s[..4]), Number(s[5..7]), Number(s[8..]);
      if 1 <= m <= 12 && 1 <= d <= DaysIn(y, m) then Some(Date(y, m, d)) else None
    else None
  }

  predicate AllDigits(s: string)
  {
    forall i :: 0 <= i < |s| ==> Strconv.IsDigit(s[i])
  }

  /** The value of a string of decimal digits. */
  function Number(s: string): nat
    requires AllDigits(s)
  {
    if s == [] then 0 else Number(s[..|s| - 1]) * 10 + Strconv.DigitValue(s[|s| - 1])
  }

  /** The "2006-01-02" rendering of a date with a year of 0 to 9999. */
  function FormatDate(y: int, m: int, d: int): string
    requires 0 <= y <= 9999 && 1 <= m <= 12 && 1 <= d <= 31
  {
    Padded(y, 4) + "-" + Padded(m, 2) + "-" + Padded(d, 2)
  }

  function Power10(k: nat): nat
  {
    if k == 0 then 1 else 10 * Power10(k - 1)
  }

  /** n in exactly k decimal digits, with leading zeros. */
  function Padded(n: nat, k: nat): (s: string)
    requires n < Power10(k)
    ensures |s| == k && AllDigits(s)
  {
    if k == 0 then "" else Padded(n / 10, k - 1) + [Strconv.DigitChar(n % 10)]
  }

  lemma {:induction false} NumberPadded(n: nat, k: nat)
    requires n < Power10(k)
    ensures Number(Padded(n, k)) == n
  {
    if k > 0 {
      var s := Padded(n, k);
      assert s[..|s| - 1] == Padded(n / 10, k - 1);
      NumberPadded(n / 10, k - 1);
    }
  }

  /** ParseDate reads back every valid date that FormatDate writes. */
  lemma ParseFormatDate(y: int, m: int, d: int)
    requires 0 <= y <= 9999 && 1 <= m <= 12 && 1 <= d <= DaysIn(y, m)
    ensures ParseDate(FormatDate(y, m, d)) == Some(Date(y, m, d))
  {
    var s := FormatDate(y, m, d);
    assert Power10(4) == 10000 && Power10(2) == 100;
    assert s[..4] == Padded(y, 4) && s[5..7] == Padded(m, 2) && s[8..] == Padded(d, 2);
    NumberPadded(y, 4);
    NumberPadded(m, 2);
    NumberPadded(d, 2);
  }

  /** The weekday argument of the Weekly and Biweekly parsers: Sunday when there is none;
      otherwise the lower-cased argument looked up in the capitalised weekday table. */
  function WeekdayArg(args: seq<string>): (r: Result<Weekday, ParseError>)
    ensures |args| == 0 ==> r == Ok(Sunday)
    ensures |args| > 0 ==> (r.Ok? <==> WeekdayNamed(Text.ToLower(args[0])).Some?)
    ensures r.Ok? && |args| > 0 ==> WeekdayNamed(Text.ToLower(args[0])) == Some(r.value)
    ensures r.Err? ==> |args| > 0 && r.error == InvalidWeekday(args[0])
  {
    if |args| > 0 then
      match WeekdayNamed(Text.ToLower(args[0]))
      case Some(wd) => Ok(wd)
      case None => Err(InvalidWeekday(args[0]))
    else Ok(Sunday)
  }

  /** `ParseSchedule(args)` of each schedule type. */
  function ParseSchedule(p: ScheduleParser, args: seq<string>): (r: Result<Kind, ParseError>)
    ensures r.Ok? ==> (r.value.Weekly? <==> p.WeeklyParser?) && (r.value.Biweekly? <==> p.BiweeklyParser?) &&
                      (r.value.Monthly? <==> p.MonthlyParser?) && (r.value.Once? <==> p.OnceParser?)
    ensures r.Err? && r.error.InvalidWeekday? ==> p.WeeklyParser? || p.BiweeklyParser?
    ensures r.Err? && (r.error.OnceNeedsDate? || r.error.BadDate?) ==> p.OnceParser?
  {
    match p
    case WeeklyParser =>
      (match WeekdayArg(args) case Ok(wd) => Ok(Weekly(wd)) case Err(e) => Err(e))
    case BiweeklyParser =>
      (match WeekdayArg(args) case Ok(wd) => Ok(Biweekly(wd)) case Err(e) => Err(e))
    case MonthlyParser =>
      if |args| > 0 then
        (match Strconv.Atoi(args[0]) case Ok(d) => Ok(Monthly(d)) case Err(e) => Err(BadNumber(e)))
      else Ok(Monthly(1))
    case OnceParser =>
      if |args| != 1 then Err(OnceNeedsDate)
      else
        match ParseDate(args[0])
        case Some(t) => Ok(Once(t))
        case None => Err(BadDate(args[0]))
  }

  /** With no arguments, Weekly and Biweekly default to Sunday, Monthly to day 1, and Once fails. */
  lemma ParseDefaults()
    ensures ParseSchedule(WeeklyParser, []) == Ok(Weekly(Sunday))
    ensures ParseSchedule(BiweeklyParser, []) == Ok(Biweekly(Sunday))
    ensures ParseSchedule(MonthlyParser, []) == Ok(Monthly(1))
    ensures ParseSchedule(OnceParser, []) == Err(OnceNeedsDate)
  {
  }

  /** Monthly accepts exactly the arguments Atoi accepts, and passes Atoi's error on unchanged. */
  lemma ParseMonthly(args: seq<string>)
    requires |args| > 0
    ensures ParseSchedule(MonthlyParser, args).Ok? <==> Strconv.Atoi(args[0]).Ok?
    ensures Strconv.Atoi(args[0]).Ok? ==> ParseSchedule(MonthlyParser, args) == Ok(Monthly(Strconv.Atoi(args[0]).value))
    ensures Strconv.Atoi(args[0]).Err? ==> ParseSchedule(MonthlyParser, args) == Err(BadNumber(Strconv.Atoi(args[0]).error))
  {
  }

  /** Once needs exactly one argument, a "2006-01-02" date. */
  lemma ParseOnce(args: seq<string>)
    ensures |args| != 1 ==> ParseSchedule(OnceParser, args) == Err(OnceNeedsDate)
    ensures |args| == 1 ==> (ParseSchedule(OnceParser, args).Ok? <==> ParseDate(args[0]).Some?)
  {
  }

  /** As written, no explicit weekday is accepted: the argument is lower-cased before it is
      looked up, and every key of the table starts with a capital letter. */
  lemma ExplicitWeekdayRejected(p: ScheduleParser, args: seq<string>)
    requires p == WeeklyParser || p == BiweeklyParser
    requires |args| > 0
    ensures ParseSchedule(p, args) == Err(InvalidWeekday(args[0]))
  {
    var lower := Text.ToLower(args[0]);
    if |lower| > 0 {
      assert !('A' <= lower[0] <= 'Z');
    }
    assert WeekdayNamed(lower).None?;
  }

  /** The evidently intended weekday lookup: the argument matches a table key when both are
      lower-cased, so "Monday", "monday" and "MONDAY" all name Monday. */
  function WeekdayArgFolded(args: seq<string>): Result<Weekday, ParseError>
  {
    if |args| > 0 then
      match WeekdayNamedFolded(Text.ToLower(args[0]))
      case Some(wd) => Ok(wd)
      case None => Err(InvalidWeekday(args[0]))
    else Ok(Sunday)
  }

  function WeekdayNamedFolded(lower: string): Option<Weekday>
  {
    if lower == Text.ToLower("Sunday") then Some(Sunday)
    else if lower == Text.ToLower("Monday") then Some(Monday)
    else if lower == Text.ToLower("Tuesday") then Some(Tuesday)
    else if lower == Text.ToLower("Wednesday") then Some(Wednesday)
    else if lower == Text.ToLower("Thursday") then Some(Thursday)
    else if lower == Text.ToLower("Friday") then Some(Friday)
    else if lower == Text.ToLower("Saturday") then Some(Saturday)
    else None
  }

  /** The Weekly and Biweekly parsers with the intended, case-insensitive weekday lookup. */
  function ParseScheduleFolded(p: ScheduleParser, args: seq<string>): (r: Result<Kind, ParseError>)
  {
    match p
    case WeeklyParser =>
      (match WeekdayArgFolded(args) case Ok(wd) => Ok(Weekly(wd)) case Err(e) => Err(e))
    case BiweeklyParser =>
      (match WeekdayArgFolded(args) case Ok(wd) => Ok(Biweekly(wd)) case Err(e) => Err(e))
    case _ => ParseSchedule(p, args)
  }

  /** With the intended lookup, every spelling that lower-cases to a table key names that
      weekday, so the table's own keys are accepted. */
  lemma FoldedAcceptsTableKeys(name: string, spelled: string)
    requires WeekdayNamed(name).Some?
    requires Text.ToLower(spelled) == Text.ToLower(name)
    ensures ParseScheduleFolded(WeeklyParser, [spelled]) == Ok(Weekly(WeekdayNamed(name).value))
    ensures ParseScheduleFolded(BiweeklyParser, [spelled]) == Ok(Biweekly(WeekdayNamed(name).value))
  {
    var lower := Text.ToLower(spelled);
    var s, m, tu, w, th, f, sa := Text.ToLower("Sunday"), Text.ToLower("Monday"), Text.ToLower("Tuesday"),
      Text.ToLower("Wednesday"), Text.ToLower("Thursday"), Text.ToLower("Friday"), Text.ToLower("Saturday");
    assert s[1] == 'u' && m[1] == 'o' && tu[1] == 'u' && w[1] == 'e' && th[1] == 'h' && f[1] == 'r' && sa[1] == 'a';
    assert s[0] == 's' && tu[0] == 't' && th[0] == 't' && sa[0] == 's';
  }
}
