/** The portfolio of the earlier revision (portfolio.go): accounts, date-sorted manual
    adjustments that overwrite a balance, and scheduled transactions with a weekly or monthly
    frequency, projected day by day over a date range.

    Accounts, adjustments and transactions are values held in the portfolio's three sequences;
    a pointer to an account becomes the account's index in `accounts`. */
module Ledger {
  import opened Results
  import opened Dates
  import Schedules

  datatype Account = Account(name: string, balance: real)

  /** A balance override for one account, taking effect on or after its time. */
  datatype ManualAdjustment = ManualAdjustment(account: nat, time: Day, balance: real, applied: bool)

  /** A value of Go's `Frequency` interface: all the portfolio ever asks of it is `Next(t)`, so
      the value is that method. `Weekly` and `Monthly` below build the two implementations. */
  datatype Frequency = Frequency(next: Day -> Day)

  /** Moves amount from fromAccount to toAccount; an absent account is money leaving or
      entering the portfolio. */
  datatype ScheduledTransaction = ScheduledTransaction(
    description: string,
    frequency: Frequency,
    fromAccount: Option<nat>,
    toAccount: Option<nat>,
    amount: real,
    lastApplied: Day)

  /** One line of a snapshot: a day, an account name and that account's balance. */
  datatype Record = Record(time: Day, name: string, balance: real)

  /** The whole portfolio as a value. */
  datatype State = State(
    accounts: seq<Account>,
    transactions: seq<ScheduledTransaction>,
    adjustments: seq<ManualAdjustment>)

  predicate Refers(accounts: seq<Account>, a: Option<nat>)
  {
    a.Some? ==> a.value < |accounts|
  }

  /** Every account reference points into `accounts`. */
  predicate WellFormed(s: State)
  {
    (forall i :: 0 <= i < |s.adjustments| ==> s.adjustments[i].account < |s.accounts|) &&
    (forall i :: 0 <= i < |s.transactions| ==>
      Refers(s.accounts, s.transactions[i].fromAccount) && Refers(s.accounts, s.transactions[i].toAccount))
  }

  function Names(accounts: seq<Account>): seq<string>
  {
    seq(|accounts|, i requires 0 <= i < |accounts| => accounts[i].name)
  }

  /** Sum of all balances. */
  function Total(accounts: seq<Account>): real
  {
    if accounts == [] then 0.0 else Total(accounts[..|accounts| - 1]) + accounts[|accounts| - 1].balance
  }

  // ---------------------------------------------------------------------------------------
  // Frequencies

  /** `Weekly(day)`: a `weeklyFrequency`, due on the last day with that weekday within seven
      days of t. */
  function Weekly(wd: Weekday): (f: Frequency)
    ensures forall t :: t < f.next(t) <= t + 7 && WeekdayOf(f.next(t)) == wd
  {
    Frequency(t => Schedules.NextDue(Schedules.Weekly(wd), t))
  }

  /** `Monthly(day)`: a `monthlyFrequency`, due on that day of the month that t + 1 month
      normalises to. */
  function Monthly(day: int): Frequency
  {
    Frequency(t => Schedules.NextDue(Schedules.Monthly(day), t))
  }

  /** `weeklyFrequency.Next(t)` is the one day in t+1..t+7 with the frequency's weekday. */
  lemma WeeklyNextWindow(wd: Weekday, t: Day)
    ensures t < Weekly(wd).next(t) <= t + 7 && WeekdayOf(Weekly(wd).next(t)) == wd
    ensures forall n :: t < n <= t + 7 && WeekdayOf(n) == wd ==> n == Weekly(wd).next(t)
  {
    Schedules.WeeklyDueWindow(wd, t);
  }

  /** `monthlyFrequency.Next(t)` is day `day` counted from the first of the month that t + 1
      month normalises to, so a day past the month's end rolls into the next month. */
  lemma MonthlyNextInMonth(day: int, t: Day)
    ensures Monthly(day).next(t) == MonthStart(MonthIndex(CivilOf(AddDate(t, 0, 1, 0)))) + day - 1
  {
    Schedules.MonthlyDueFromMonthStart(day, t, MonthIndex(CivilOf(AddDate(t, 0, 1, 0))));
  }

  /** `weeklyFrequency.Next(t)`: seven days on, then back one day at a time to the weekday. */
  method WeeklyNext(wd: Weekday, t: Day) returns (n: Day)
    ensures n == Weekly(wd).next(t)
  {
    n := Schedules.WalkBackFrom(t, 7, wd);
  }

  // ---------------------------------------------------------------------------------------
  // Single events

  /** Adds delta to the balance of account a, if there is one. */
  function Credit(accounts: seq<Account>, a: Option<nat>, delta: real): (r: seq<Account>)
    requires Refers(accounts, a)
    ensures |r| == |accounts| && Names(r) == Names(accounts)
  {
    if a.None? then accounts else accounts[a.value := accounts[a.value].(balance := accounts[a.value].balance + delta)]
  }

  /** `ManualAdjustment.Apply(now)` of adjustment k: nothing before its time or once applied;
      otherwise its account's balance becomes exactly its balance and it is marked applied. */
  function AdjustmentStep(s: State, k: nat, now: Day): (r: (State, bool))
    requires WellFormed(s) && k < |s.adjustments|
    ensures r.1 <==> !s.adjustments[k].applied && s.adjustments[k].time <= now
    ensures !r.1 ==> r.0 == s
    ensures r.1 ==> (r.0.transactions == s.transactions &&
      r.0.adjustments == s.adjustments[k := s.adjustments[k].(applied := true)])
  {
    var adj := s.adjustments[k];
    if adj.applied || now < adj.time then (s, false)
    else
      var acc := s.accounts[adj.account];
      (s.(accounts := s.accounts[adj.account := acc.(balance := adj.balance)],
          adjustments := s.adjustments[k := adj.(applied := true)]), true)
  }

  /** `ScheduledTransaction.Apply(now)` of transaction k: nothing before `Next(lastApplied)`;
      otherwise the amount leaves fromAccount and reaches toAccount (each when present), and
      lastApplied becomes now. */
  function TransactionStep(s: State, k: nat, now: Day): (r: (State, bool))
    requires WellFormed(s) && k < |s.transactions|
    ensures r.1 <==> now >= s.transactions[k].frequency.next(s.transactions[k].lastApplied)
    ensures !r.1 ==> r.0 == s
    ensures r.1 ==> (r.0.adjustments == s.adjustments &&
      r.0.transactions == s.transactions[k := s.transactions[k].(lastApplied := now)])
  {
    var tr := s.transactions[k];
    if now < tr.frequency.next(tr.lastApplied) then (s, false)
    else
      var debited := Credit(s.accounts, tr.fromAccount, -tr.amount);
      (s.(accounts := Credit(debited, tr.toAccount, tr.amount),
          transactions := s.transactions[k := tr.(lastApplied := now)]), true)
  }

  /** Both steps keep the shape of the portfolio: same lengths, same names, same references. */
  lemma StepsKeepShape(s: State, k: nat, now: Day)
    requires WellFormed(s)
    ensures k < |s.adjustments| ==> Same(s, AdjustmentStep(s, k, now).0)
    ensures k < |s.transactions| ==> Same(s, TransactionStep(s, k, now).0)
  {
    if k < |s.adjustments| {
      var t := AdjustmentStep(s, k, now).0;
      assert Names(t.accounts) == Names(s.accounts);
    }
  }

  /** s and t have the same accounts (by name), the same transactions apart from their cursors and
      the same adjustments apart from their applied flags. */
  ghost predicate Same(s: State, t: State)
  {
    WellFormed(t) && Names(t.accounts) == Names(s.accounts) &&
    |t.transactions| == |s.transactions| && |t.adjustments| == |s.adjustments| &&
    (forall i :: 0 <= i < |s.transactions| ==> t.transactions[i] == s.transactions[i].(lastApplied := t.transactions[i].lastApplied)) &&
    (forall i :: 0 <= i < |s.adjustments| ==> t.adjustments[i] == s.adjustments[i].(applied := t.adjustments[i].applied))
  }

  lemma SameTransitive(a: State, b: State, c: State)
    requires Same(a, b) && Same(b, c)
    ensures Same(a, c)
  {
  }

  /** An adjustment reports a change at most once: after it has applied, it never applies again. */
  lemma AdjustmentAppliesOnce(s: State, k: nat, now: Day, later: Day)
    requires WellFormed(s) && k < |s.adjustments|
    ensures AdjustmentStep(s, k, now).1 <==> !s.adjustments[k].applied && now >= s.adjustments[k].time
    ensures AdjustmentStep(s, k, now).1 ==>
      AdjustmentStep(s, k, now).0.accounts[s.adjustments[k].account].balance == s.adjustments[k].balance &&
      !AdjustmentStep(AdjustmentStep(s, k, now).0, k, later).1
    ensures AdjustmentStep(s, k, now).1 ==>
      |AdjustmentStep(s, k, now).0.accounts| == |s.accounts| &&
      forall i :: 0 <= i < |s.accounts| && i != s.adjustments[k].account ==>
        AdjustmentStep(s, k, now).0.accounts[i] == s.accounts[i]
  {
    StepsKeepShape(s, k, now);
  }

  /** A transaction that fires changes the sum of all balances by the money entering minus the
      money leaving the portfolio: a transfer between two accounts keeps the sum. */
  lemma TransactionMovesMoney(s: State, k: nat, now: Day)
    requires WellFormed(s) && k < |s.transactions|
    ensures var r := TransactionStep(s, k, now); var tr := s.transactions[k];
      (r.1 <==> now >= tr.frequency.next(tr.lastApplied)) &&
      (!r.1 ==> r.0 == s) &&
      (r.1 ==> r.0.adjustments == s.adjustments && r.0.transactions == s.transactions[k := tr.(lastApplied := now)])
    ensures var r := TransactionStep(s, k, now); var tr := s.transactions[k];
      r.1 ==> (|r.0.accounts| == |s.accounts| &&
        forall i :: 0 <= i < |s.accounts| ==>
          r.0.accounts[i].balance == s.accounts[i].balance
            - (if tr.fromAccount == Some(i) then tr.amount else 0.0)
            + (if tr.toAccount == Some(i) then tr.amount else 0.0))
    ensures var r := TransactionStep(s, k, now); var tr := s.transactions[k];
      r.1 ==> (Total(r.0.accounts) == Total(s.accounts)
        - (if tr.fromAccount.Some? then tr.amount else 0.0)
        + (if tr.toAccount.Some? then tr.amount else 0.0))
  {
    var tr := s.transactions[k];
    var r := TransactionStep(s, k, now);
    if r.1 {
      var c := Credit(Credit(s.accounts, tr.fromAccount, -tr.amount), tr.toAccount, tr.amount);
      assert r.0.accounts == c;
      Transfer(s.accounts, tr.fromAccount, tr.toAccount, tr.amount);
    }
  }

  /** Debiting one optional account and crediting another, balance by balance and in total. */
  lemma Transfer(accounts: seq<Account>, from: Option<nat>, to: Option<nat>, amount: real)
    requires Refers(accounts, from) && Refers(accounts, to)
    ensures var c := Credit(Credit(accounts, from, -amount), to, amount);
      |c| == |accounts| &&
      (forall i :: 0 <= i < |accounts| ==>
        c[i].balance == accounts[i].balance - (if from == Some(i) then amount else 0.0)
          + (if to == Some(i) then amount else 0.0)) &&
      Total(c) == Total(accounts) - (if from.Some? then amount else 0.0) + (if to.Some? then amount else 0.0)
  {
    var debited := Credit(accounts, from, -amount);
    CreditTotal(accounts, from, -amount);
    CreditTotal(debited, to, amount);
    CreditBalances(accounts, from, -amount);
    CreditBalances(debited, to, amount);
  }

  /** Crediting changes the balance of the credited account only. */
  lemma CreditBalances(accounts: seq<Account>, a: Option<nat>, delta: real)
    requires Refers(accounts, a)
    ensures forall i :: 0 <= i < |accounts| ==>
      Credit(accounts, a, delta)[i].balance == accounts[i].balance + (if a == Some(i) then delta else 0.0)
  {
  }

  lemma TransferConservesTotal(s: State, k: nat, now: Day)
    requires WellFormed(s) && k < |s.transactions|
    requires s.transactions[k].fromAccount.Some? && s.transactions[k].toAccount.Some?
    ensures Total(TransactionStep(s, k, now).0.accounts) == Total(s.accounts)
  {
    TransactionMovesMoney(s, k, now);
  }

  lemma {:induction false} CreditTotal(accounts: seq<Account>, a: Option<nat>, delta: real)
    requires Refers(accounts, a)
    ensures Total(Credit(accounts, a, delta)) == Total(accounts) + (if a.Some? then delta else 0.0)
    decreases |accounts|
  {
    if a.Some? {
      var r := Credit(accounts, a, delta);
      var n := |accounts| - 1;
      if a.value == n {
        assert r[..n] == accounts[..n];
      } else {
        CreditTotal(accounts[..n], a, delta);
        assert r[..n] == Credit(accounts[..n], a, delta);
      }
    }
  }

  // ---------------------------------------------------------------------------------------
  // Insertion of manual adjustments

  predicate SortedByTime(s: seq<ManualAdjustment>)
  {
    forall i, j :: 0 <= i < j < |s| ==> s[i].time <= s[j].time
  }

  /** Index of the first adjustment later than t, or |s| when there is none. */
  function FirstAfter(s: seq<ManualAdjustment>, t: Day): (k: nat)
    ensures k <= |s|
    ensures forall j :: 0 <= j < k ==> s[j].time <= t
    ensures k < |s| ==> s[k].time > t
  {
    if s == [] || s[0].time > t then 0 else 1 + FirstAfter(s[1..], t)
  }

  /** The list with m placed after every entry whose time is not later than m's. */
  function InsertSorted(s: seq<ManualAdjustment>, m: ManualAdjustment): (r: seq<ManualAdjustment>)
    ensures |r| == |s| + 1
  {
    var k := FirstAfter(s, m.time);
    s[..k] + [m] + s[k..]
  }

  lemma {:induction false} FirstAfterUnique(s: seq<ManualAdjustment>, t: Day, k: nat)
    requires k <= |s|
    requires forall j :: 0 <= j < k ==> s[j].time <= t
    requires k < |s| ==> s[k].time > t
    ensures FirstAfter(s, t) == k
    decreases k
  {
    if k > 0 {
      FirstAfterUnique(s[1..], t, k - 1);
    }
  }

  /** Insertion keeps the list sorted by time. */
  lemma InsertKeepsSorted(s: seq<ManualAdjustment>, m: ManualAdjustment)
    requires SortedByTime(s)
    ensures SortedByTime(InsertSorted(s, m))
  {
    var k := FirstAfter(s, m.time);
    var r := InsertSorted(s, m);
    forall i, j | 0 <= i < j < |r|
      ensures r[i].time <= r[j].time
    {
      if i < k && j == k {
      } else if i == k && j > k {
        assert r[j] == s[j - 1];
        assert s[k].time <= s[j - 1].time;
      } else {
        assert i != k && j != k;
        var i' := if i < k then i else i - 1;
        var j' := if j < k then j else j - 1;
        assert r[i] == s[i'] && r[j] == s[j'];
      }
    }
  }

  /** Insertion is stable and loses nothing: the new entry sits after every entry with an equal
      or earlier time, and taking it out again gives back the old entries in their old order. */
  lemma InsertIsStable(s: seq<ManualAdjustment>, m: ManualAdjustment)
    ensures var k := FirstAfter(s, m.time);
      var r := InsertSorted(s, m);
      |r| == |s| + 1 && r[k] == m && r[..k] + r[k + 1..] == s
      && (forall j :: 0 <= j < k ==> r[j].time <= m.time)
  {
    var k := FirstAfter(s, m.time);
    var a, b := s[..k], s[k..];
    var r := InsertSorted(s, m);
    assert r == a + [m] + b;
    assert r[..k] == a && r[k + 1..] == b;
    assert s == a + b;
  }

  /** In a sorted list, every entry after the new one is strictly later than it. */
  lemma InsertBeforeLater(s: seq<ManualAdjustment>, m: ManualAdjustment)
    requires SortedByTime(s)
    ensures var k := FirstAfter(s, m.time);
      forall j :: k < j < |InsertSorted(s, m)| ==> InsertSorted(s, m)[j].time > m.time
  {
    var k := FirstAfter(s, m.time);
    var r := InsertSorted(s, m);
    forall j | k < j < |r|
      ensures r[j].time > m.time
    {
      assert r[j] == s[j - 1] && s[k].time <= s[j - 1].time;
    }
  }

  /** Insertion adds exactly the new entry to the list's contents. */
  lemma InsertAddsOne(s: seq<ManualAdjustment>, m: ManualAdjustment)
    ensures multiset(InsertSorted(s, m)) == multiset(s) + multiset{m}
  {
    var k := FirstAfter(s, m.time);
    assert s == s[..k] + s[k..];
  }

  // ---------------------------------------------------------------------------------------
  // Projection

  /** The state after applying adjustments 0..k-1 at now, and whether any of them changed. */
  function AdjustUpTo(s: State, k: nat, now: Day): (r: (State, bool))
    requires WellFormed(s) && k <= |s.adjustments|
    ensures Same(s, r.0)
    decreases k
  {
    if k == 0 then (s, false)
    else
      var (t, changed) := AdjustUpTo(s, k - 1, now);
      StepsKeepShape(t, k - 1, now);
      SameTransitive(s, t, AdjustmentStep(t, k - 1, now).0);
      var (u, c) := AdjustmentStep(t, k - 1, now);
      (u, changed || c)
  }

  /** The state after applying transactions 0..k-1 at now, and whether any of them fired. */
  function TransactUpTo(s: State, k: nat, now: Day): (r: (State, bool))
    requires WellFormed(s) && k <= |s.transactions|
    ensures Same(s, r.0)
    decreases k
  {
    if k == 0 then (s, false)
    else
      var t := TransactUpTo(s, k - 1, now);
      StepsKeepShape(t.0, k - 1, now);
      var u := TransactionStep(t.0, k - 1, now);
      SameTransitive(s, t.0, u.0);
      (u.0, t.1 || u.1)
  }

  /** One day of the projection loop: every adjustment, then every transaction, in list order. */
  function DayStep(s: State, now: Day): (r: (State, bool))
    requires WellFormed(s)
    ensures Same(s, r.0)
  {
    var (t, c1) := AdjustUpTo(s, |s.adjustments|, now);
    var (u, c2) := TransactUpTo(t, |t.transactions|, now);
    SameTransitive(s, t, u);
    (u, c1 || c2)
  }

  /** One line per account, in account order, for day now. */
  function Snapshot(accounts: seq<Account>, now: Day): (r: seq<Record>)
    ensures |r| == |accounts|
  {
    seq(|accounts|, i requires 0 <= i < |accounts| => Record(now, accounts[i].name, accounts[i].balance))
  }

  /** Days now..to-1 of the projection loop: a snapshot on the first day and on every day on
      which something changed. */
  function ProjectDays(s: State, now: Day, to: Day, first: bool): (r: (State, seq<Record>))
    requires WellFormed(s)
    ensures Same(s, r.0)
    decreases if now < to then to - now else 0
  {
    if now >= to then (s, [])
    else
      var (t, changed) := DayStep(s, now);
      var (u, rest) := ProjectDays(t, now + 1, to, false);
      SameTransitive(s, t, u);
      (u, (if first || changed then Snapshot(t.accounts, now) else []) + rest)
  }

  lemma AppendAssociates<T>(a: seq<T>, b: seq<T>, c: seq<T>)
    ensures a + (b + c) == (a + b) + c
  {
  }

  /** One turn of the day loop of `ProjectDays`, stated for a state and a next day the caller
      already holds. */
  lemma ProjectDaysStep(s: State, now: Day, next: Day, to: Day, first: bool, t: State, changed: bool)
    requires WellFormed(s) && now < to && next == now + 1 && (t, changed) == DayStep(s, now)
    ensures WellFormed(t)
    ensures ProjectDays(s, now, to, first).0 == ProjectDays(t, next, to, false).0
    ensures ProjectDays(s, now, to, first).1 ==
      (if first || changed then Snapshot(t.accounts, now) else []) + ProjectDays(t, next, to, false).1
  {
  }

  /** Adjustments 0..k-1 that are dated before from, each applied at its own time. */
  /** One more turn of the setup pass, from the state t reached after k turns. */
  lemma SetupUpToNext(s: State, k: nat, from: Day, t: State)
    requires WellFormed(s) && k < |s.adjustments| && t == SetupUpTo(s, k, from)
    ensures WellFormed(t) && k < |t.adjustments|
    ensures SetupUpTo(s, k + 1, from) ==
      if t.adjustments[k].time < from then AdjustmentStep(t, k, t.adjustments[k].time).0 else t
  {
  }

  function SetupUpTo(s: State, k: nat, from: Day): (r: State)
    requires WellFormed(s) && k <= |s.adjustments|
    ensures Same(s, r)
    decreases k
  {
    if k == 0 then s
    else
      var t := SetupUpTo(s, k - 1, from);
      StepsKeepShape(t, k - 1, t.adjustments[k - 1].time);
      if t.adjustments[k - 1].time < from then
        SameTransitive(s, t, AdjustmentStep(t, k - 1, t.adjustments[k - 1].time).0);
        AdjustmentStep(t, k - 1, t.adjustments[k - 1].time).0
      else t
  }

  function ResetCursors(ts: seq<ScheduledTransaction>, from: Day): (r: seq<ScheduledTransaction>)
    ensures |r| == |ts|
  {
    seq(|ts|, i requires 0 <= i < |ts| => ts[i].(lastApplied := from))
  }

  /** The start of `Project(from, to)`: earlier adjustments applied, every cursor set to from. */
  function Setup(s: State, from: Day): (r: State)
    requires WellFormed(s)
    ensures Same(s, r)
  {
    var t := SetupUpTo(s, |s.adjustments|, from);
    t.(transactions := ResetCursors(t.transactions, from))
  }

  /** `Project(from, to)` as a value: the final state and the snapshot lines. */
  function Projection(s: State, from: Day, to: Day): (r: (State, seq<Record>))
    requires WellFormed(s)
    ensures Same(s, r.0)
  {
    var t := Setup(s, from);
    var r := ProjectDays(t, from, to, true);
    SameTransitive(s, t, r.0);
    r
  }

  // ---------------------------------------------------------------------------------------
  // What a projection promises

  /** Setup leaves every transaction as it was apart from its cursor, which is now from. */
  lemma SetupResetsCursors(s: State, from: Day)
    requires WellFormed(s)
    ensures forall i :: 0 <= i < |s.transactions| ==>
      Setup(s, from).transactions[i] == s.transactions[i].(lastApplied := from)
  {
    var t := SetupUpTo(s, |s.adjustments|, from);
    assert Same(s, t);
  }

  /** out is a run of snapshots: blocks of one line per name, in the order of names, each block
      on a single day, the days strictly increasing from lo and all before hi. */
  ghost predicate Lines(out: seq<Record>, names: seq<string>, lo: Day, hi: Day)
    decreases |out|
  {
    out == [] ||
    (|names| > 0 && |out| >= |names| && lo <= out[0].time < hi &&
     (forall i :: 0 <= i < |names| ==> out[i].time == out[0].time && out[i].name == names[i]) &&
     Lines(out[|names|..], names, out[0].time + 1, hi))
  }

  lemma LinesFromEarlier(out: seq<Record>, names: seq<string>, lo: Day, lo': Day, hi: Day)
    requires lo' <= lo && Lines(out, names, lo, hi)
    ensures Lines(out, names, lo', hi)
  {
  }

  /** A snapshot of day now followed by lines of later days is again a run of snapshots. */
  lemma LinesAfterSnapshot(accounts: seq<Account>, now: Day, next: Day, to: Day, rest: seq<Record>)
    requires now < to && next == now + 1 && Lines(rest, Names(accounts), next, to)
    ensures Lines(Snapshot(accounts, now) + rest, Names(accounts), now, to)
  {
    var names := Names(accounts);
    var out := Snapshot(accounts, now) + rest;
    if |names| > 0 {
      assert out[|names|..] == rest;
      assert out[0].time == now;
    }
  }

  /** The snapshot lines of days now..to-1 are blocks of one line per account, in account order,
      one block per day at most, the days increasing and inside [now, to). */
  lemma {:induction false} ProjectDaysLines(s: State, now: Day, to: Day, first: bool)
    requires WellFormed(s)
    ensures Lines(ProjectDays(s, now, to, first).1, Names(s.accounts), now, to)
    decreases if now < to then to - now else 0
  {
    if now < to {
      var next := now + 1;
      var day := DayStep(s, now);
      var t := day.0;
      ProjectDaysStep(s, now, next, to, first, t, day.1);
      var rest := ProjectDays(t, next, to, false).1;
      ProjectDaysLines(t, next, to, false);
      var names := Names(s.accounts);
      assert Names(t.accounts) == names;
      var out := ProjectDays(s, now, to, first).1;
      if first || day.1 {
        assert out == Snapshot(t.accounts, now) + rest;
        LinesAfterSnapshot(t.accounts, now, next, to, rest);
      } else {
        assert out == [] + rest == rest;
        LinesFromEarlier(rest, names, next, now, to);
      }
    }
  }

  /** `Project(from, to)` prints nothing unless from is before to, and then its first lines are a
      snapshot of every account on day from. */
  lemma ProjectionShowsFirstDay(s: State, from: Day, to: Day)
    requires WellFormed(s)
    ensures from >= to ==> Projection(s, from, to).1 == []
    ensures from < to ==> |Projection(s, from, to).1| >= |s.accounts|
    ensures from < to ==> forall i :: 0 <= i < |s.accounts| ==>
      Projection(s, from, to).1[i].time == from && Projection(s, from, to).1[i].name == s.accounts[i].name
  {
    var u := Setup(s, from);
    if from < to {
      var t := DayStep(u, from).0;
      assert Names(t.accounts) == Names(u.accounts) == Names(s.accounts);
      var out := Projection(s, from, to).1;
      assert out == Snapshot(t.accounts, from) + ProjectDays(t, from + 1, to, false).1;
      forall i | 0 <= i < |s.accounts|
        ensures out[i].time == from && out[i].name == s.accounts[i].name
      {
        assert out[i] == Snapshot(t.accounts, from)[i];
        assert Names(t.accounts)[i] == t.accounts[i].name;
        assert Names(s.accounts)[i] == s.accounts[i].name;
      }
    }
  }

  /** `Project(from, to)` prints blocks of one line per account, in account order, one block per
      day at most, the days increasing and inside [from, to). */
  lemma ProjectionLines(s: State, from: Day, to: Day)
    requires WellFormed(s)
    ensures Lines(Projection(s, from, to).1, Names(s.accounts), from, to)
  {
    var u := Setup(s, from);
    ProjectDaysLines(u, from, to, true);
    assert Names(u.accounts) == Names(s.accounts);
  }

  /** No adjustment that was applied in s is unapplied in t. */
  ghost predicate AppliedGrows(s: State, t: State)
  {
    |t.adjustments| == |s.adjustments| &&
    forall j :: 0 <= j < |s.adjustments| && s.adjustments[j].applied ==> t.adjustments[j].applied
  }

  /** Transactions never touch adjustments. */
  lemma {:induction false} TransactUpToKeepsAdjustments(s: State, k: nat, now: Day)
    requires WellFormed(s) && k <= |s.transactions|
    ensures TransactUpTo(s, k, now).0.adjustments == s.adjustments
    decreases k
  {
    if k > 0 {
      TransactUpToKeepsAdjustments(s, k - 1, now);
    }
  }

  /** After adjustments 0..k-1 ran on day now, each of them dated on or before now is applied. */
  lemma {:induction false} AdjustUpToApplies(s: State, k: nat, now: Day)
    requires WellFormed(s) && k <= |s.adjustments|
    ensures AppliedGrows(s, AdjustUpTo(s, k, now).0)
    ensures forall j :: 0 <= j < k && s.adjustments[j].time <= now ==> AdjustUpTo(s, k, now).0.adjustments[j].applied
    decreases k
  {
    if k > 0 {
      AdjustUpToApplies(s, k - 1, now);
      var t := AdjustUpTo(s, k - 1, now).0;
      var u := AdjustmentStep(t, k - 1, now).0;
      assert AdjustUpTo(s, k, now).0 == u;
      assert AppliedGrows(t, u);
      forall j | 0 <= j < k && s.adjustments[j].time <= now
        ensures u.adjustments[j].applied
      {
        if j < k - 1 {
          assert t.adjustments[j].applied;
        } else {
          assert t.adjustments[j].time == s.adjustments[j].time;
        }
      }
    }
  }

  /** Whether adj is for account a and still waiting to take effect on day now. */
  predicate Due(adj: ManualAdjustment, a: nat, now: Day)
  {
    adj.account == a && !adj.applied && adj.time <= now
  }

  /** The highest index below k of an adjustment for account a that is pending and due on now. */
  function LastDue(adjs: seq<ManualAdjustment>, k: nat, a: nat, now: Day): (r: Option<nat>)
    requires k <= |adjs|
    ensures r.Some? ==> r.value < k && Due(adjs[r.value], a, now)
    ensures forall j :: (if r.Some? then r.value else -1) < j < k ==> !Due(adjs[j], a, now)
    decreases k
  {
    if k == 0 then None
    else if Due(adjs[k - 1], a, now) then Some(k - 1)
    else LastDue(adjs, k - 1, a, now)
  }

  /** One adjustment sets account a's balance exactly when it is for a and due. */
  lemma AdjustmentStepBalance(t: State, k: nat, now: Day, a: nat)
    requires WellFormed(t) && k < |t.adjustments| && a < |t.accounts|
    ensures var u := AdjustmentStep(t, k, now).0;
      |u.accounts| == |t.accounts| &&
      u.accounts[a].balance == (if Due(t.adjustments[k], a, now) then t.adjustments[k].balance else t.accounts[a].balance)
  {
  }

  /** Running adjustments 0..k-1 on day now leaves each account with the balance of the last of
      them that was for it and due, or its old balance if there was none.
      AdjustUpToKeeps states that later adjustments are untouched. */
  lemma {:induction false} AdjustUpToBalances(s: State, k: nat, now: Day, a: nat)
    requires WellFormed(s) && k <= |s.adjustments| && a < |s.accounts|
    ensures var t := AdjustUpTo(s, k, now).0; var last := LastDue(s.adjustments, k, a, now);
      |t.accounts| == |s.accounts| &&
      t.accounts[a].balance == (if last.Some? then s.adjustments[last.value].balance else s.accounts[a].balance)
    decreases k
  {
    if k > 0 {
      AdjustUpToBalances(s, k - 1, now, a);
      AdjustUpToKeeps(s, k - 1, now, k - 1);
      var t := AdjustUpTo(s, k - 1, now).0;
      assert |Names(t.accounts)| == |Names(s.accounts)|;
      AdjustmentStepBalance(t, k - 1, now, a);
      var u := AdjustmentStep(t, k - 1, now).0;
      assert AdjustUpTo(s, k, now).0 == u;
      assert t.adjustments[k - 1] == s.adjustments[k - 1];
      if Due(s.adjustments[k - 1], a, now) {
        assert LastDue(s.adjustments, k, a, now) == Some(k - 1);
      } else {
        assert LastDue(s.adjustments, k, a, now) == LastDue(s.adjustments, k - 1, a, now);
        assert u.accounts[a].balance == t.accounts[a].balance;
      }
    }
  }

  /** Adjustment j, from k on, is not touched by running 0..k-1. */
  lemma {:induction false} AdjustUpToKeeps(s: State, k: nat, now: Day, j: nat)
    requires WellFormed(s) && k <= j < |s.adjustments|
    ensures AdjustUpTo(s, k, now).0.adjustments[j] == s.adjustments[j]
    decreases k
  {
    if k > 0 {
      AdjustUpToKeeps(s, k - 1, now, j);
      assert AdjustUpTo(s, k, now).0 == AdjustmentStep(AdjustUpTo(s, k - 1, now).0, k - 1, now).0;
    }
  }

  /** After a day of the loop, every adjustment dated on or before that day is applied. */
  lemma DayStepApplies(s: State, now: Day)
    requires WellFormed(s)
    ensures AppliedGrows(s, DayStep(s, now).0)
    ensures forall j :: 0 <= j < |s.adjustments| && s.adjustments[j].time <= now ==> DayStep(s, now).0.adjustments[j].applied
  {
    AdjustUpToApplies(s, |s.adjustments|, now);
    var t := AdjustUpTo(s, |s.adjustments|, now).0;
    TransactUpToKeepsAdjustments(t, |t.transactions|, now);
  }

  /** After days now..to-1, every adjustment dated in that range is applied. */
  lemma {:induction false} ProjectDaysApplies(s: State, now: Day, to: Day, first: bool)
    requires WellFormed(s)
    ensures AppliedGrows(s, ProjectDays(s, now, to, first).0)
    ensures forall j :: 0 <= j < |s.adjustments| && now <= s.adjustments[j].time < to ==>
      ProjectDays(s, now, to, first).0.adjustments[j].applied
    decreases if now < to then to - now else 0
  {
    if now < to {
      var next := now + 1;
      var day := DayStep(s, now);
      var t := day.0;
      ProjectDaysStep(s, now, next, to, first, t, day.1);
      DayStepApplies(s, now);
      ProjectDaysApplies(t, next, to, false);
      var u := ProjectDays(t, next, to, false).0;
      assert ProjectDays(s, now, to, first).0 == u;
      forall j | 0 <= j < |s.adjustments| && now <= s.adjustments[j].time < to
        ensures u.adjustments[j].applied
      {
        if s.adjustments[j].time == now {
          assert t.adjustments[j].applied;
        } else {
          assert next <= t.adjustments[j].time < to;
        }
      }
    }
  }

  /** The setup pass applies every adjustment among 0..k-1 dated before from. */
  lemma {:induction false} SetupUpToApplies(s: State, k: nat, from: Day)
    requires WellFormed(s) && k <= |s.adjustments|
    ensures AppliedGrows(s, SetupUpTo(s, k, from))
    ensures forall j :: 0 <= j < k && s.adjustments[j].time < from ==> SetupUpTo(s, k, from).adjustments[j].applied
    decreases k
  {
    if k > 0 {
      SetupUpToApplies(s, k - 1, from);
      var t := SetupUpTo(s, k - 1, from);
      var u := SetupUpTo(s, k, from);
      assert t.adjustments[k - 1].time == s.adjustments[k - 1].time;
      assert u == if s.adjustments[k - 1].time < from then AdjustmentStep(t, k - 1, t.adjustments[k - 1].time).0 else t;
      assert AppliedGrows(t, u);
      forall j | 0 <= j < k && s.adjustments[j].time < from
        ensures u.adjustments[j].applied
      {
        if j < k - 1 {
          assert t.adjustments[j].applied;
        }
      }
    }
  }

  /** When `Project(from, to)` returns, every adjustment dated before to has been applied: those
      before from by the setup pass, the others on their own day of the loop. */
  lemma ProjectionAppliesAdjustments(s: State, from: Day, to: Day)
    requires WellFormed(s)
    ensures forall j :: 0 <= j < |s.adjustments| && s.adjustments[j].time < to ==>
      Projection(s, from, to).0.adjustments[j].applied
  {
    SetupUpToApplies(s, |s.adjustments|, from);
    var u := Setup(s, from);
    ProjectDaysApplies(u, from, to, true);
  }

  /** A transaction whose frequency moves strictly forward fires at most once on a given day. */
  lemma TransactionFiresOncePerDay(s: State, k: nat, now: Day)
    requires WellFormed(s) && k < |s.transactions|
    requires s.transactions[k].frequency.next(now) > now
    ensures TransactionStep(s, k, now).1 ==> !TransactionStep(TransactionStep(s, k, now).0, k, now).1
  {
    StepsKeepShape(s, k, now);
  }

  /** Both frequencies move strictly forward (the monthly one from day 1 of the month on), so a
      scheduled transaction of either fires at most once a day. */
  lemma FrequenciesMoveForward(wd: Weekday, day: int, t: Day)
    ensures Weekly(wd).next(t) > t
    ensures day >= 1 ==> Monthly(day).next(t) > t
  {
    WeeklyNextWindow(wd, t);
    if day >= 1 {
      var i := MonthOfDay(t);
      Schedules.MonthlyDueAfter(day, t, i);
    }
  }

  // ---------------------------------------------------------------------------------------
  // The portfolio object

  class Portfolio {
    var accounts: seq<Account>
    var transactions: seq<ScheduledTransaction>
    var adjustments: seq<ManualAdjustment>

    function Contents(): State
      reads this
    {
      State(accounts, transactions, adjustments)
    }

    predicate Valid()
      reads this
    {
      WellFormed(Contents())
    }

    /** `&Portfolio{}`. */
    constructor ()
      ensures Contents() == State([], [], []) && Valid()
    {
      accounts, transactions, adjustments := [], [], [];
    }

    /** `NewAccount(name)`: appends one zero-balance account and returns it (its index). */
    method NewAccount(name: string) returns (a: nat)
      requires Valid()
      modifies this
      ensures Valid()
      ensures accounts == old(accounts) + [Account(name, 0.0)] && a == |old(accounts)|
      ensures transactions == old(transactions) && adjustments == old(adjustments)
    {
      accounts := accounts + [Account(name, 0.0)];
      a := |accounts| - 1;
    }

    /** `NewManualAdjustment(acc, t, balance)`: finds the first entry later than t, then shifts
        the rest up by one to make room. */
    method NewManualAdjustment(account: nat, t: Day, balance: real)
      requires Valid() && account < |accounts|
      modifies this
      ensures Valid()
      ensures adjustments == InsertSorted(old(adjustments), ManualAdjustment(account, t, balance, false))
      ensures accounts == old(accounts) && transactions == old(transactions)
    {
      var i := 0;
      while i < |adjustments|
        invariant 0 <= i <= |adjustments|
        invariant forall j :: 0 <= j < i ==> adjustments[j].time <= t
      {
        if adjustments[i].time > t {
          break;
        }
        i := i + 1;
      }
      FirstAfterUnique(adjustments, t, i);
      adjustments := adjustments[..i] + [ManualAdjustment(account, t, balance, false)] + adjustments[i..];
    }

    /** `NewScheduledTransaction(from, to, desc, f, amt)`: appends a transaction whose cursor is
        the zero time. */
    method NewScheduledTransaction(from: Option<nat>, to: Option<nat>, desc: string, f: Frequency, amt: real)
      returns (k: nat)
      requires Valid() && Refers(accounts, from) && Refers(accounts, to)
      modifies this
      ensures Valid()
      ensures transactions == old(transactions) + [ScheduledTransaction(desc, f, from, to, amt, ZeroTime)]
      ensures k == |old(transactions)|
      ensures accounts == old(accounts) && adjustments == old(adjustments)
    {
      transactions := transactions + [ScheduledTransaction(desc, f, from, to, amt, ZeroTime)];
      k := |transactions| - 1;
    }

    /** `ManualAdjustment.Apply(now)` of adjustment k. */
    method ApplyAdjustment(k: nat, now: Day) returns (changed: bool)
      requires Valid() && k < |adjustments|
      modifies this
      ensures Valid()
      ensures (Contents(), changed) == AdjustmentStep(old(Contents()), k, now)
    {
      StepsKeepShape(Contents(), k, now);
      var adj := adjustments[k];
      if adj.applied || now < adj.time {
        return false;
      }
      adjustments := adjustments[k := adj.(applied := true)];
      accounts := accounts[adj.account := accounts[adj.account].(balance := adj.balance)];
      return true;
    }

    /** `ScheduledTransaction.Apply(now)` of transaction k. */
    method ApplyTransaction(k: nat, now: Day) returns (changed: bool)
      requires Valid() && k < |transactions|
      modifies this
      ensures Valid()
      ensures (Contents(), changed) == TransactionStep(old(Contents()), k, now)
    {
      StepsKeepShape(Contents(), k, now);
      var tr := transactions[k];
      var next := tr.frequency.next(tr.lastApplied);
      if now < next {
        return false;
      }
      if tr.fromAccount.Some? {
        var a := tr.fromAccount.value;
        accounts := accounts[a := accounts[a].(balance := accounts[a].balance - tr.amount)];
      }
      if tr.toAccount.Some? {
        var a := tr.toAccount.value;
        accounts := accounts[a := accounts[a].(balance := accounts[a].balance + tr.amount)];
      }
      transactions := transactions[k := tr.(lastApplied := now)];
      return true;
    }

    /** The adjustments before from, applied at their own times (results ignored). */
    method SetupAdjustments(from: Day)
      requires Valid()
      modifies this
      ensures Valid()
      ensures Contents() == SetupUpTo(old(Contents()), |old(adjustments)|, from)
    {
      var k := 0;
      while k < |adjustments|
        invariant Valid() && k <= |adjustments| == |old(adjustments)|
        invariant Contents() == SetupUpTo(old(Contents()), k, from)
      {
        SetupUpToNext(old(Contents()), k, from, Contents());
        if adjustments[k].time < from {
          var _ := ApplyAdjustment(k, adjustments[k].time);
        }
        k := k + 1;
      }
    }

    /** The adjustment loop of one day. */
    method AdjustAll(now: Day) returns (changed: bool)
      requires Valid()
      modifies this
      ensures Valid()
      ensures (Contents(), changed) == AdjustUpTo(old(Contents()), |old(adjustments)|, now)
    {
      changed := false;
      var k := 0;
      while k < |adjustments|
        invariant Valid() && k <= |adjustments| == |old(adjustments)|
        invariant (Contents(), changed) == AdjustUpTo(old(Contents()), k, now)
      {
        var c := ApplyAdjustment(k, now);
        changed := changed || c;
        k := k + 1;
      }
    }

    /** The transaction loop of one day. */
    method TransactAll(now: Day) returns (changed: bool)
      requires Valid()
      modifies this
      ensures Valid()
      ensures (Contents(), changed) == TransactUpTo(old(Contents()), |old(transactions)|, now)
    {
      changed := false;
      var k := 0;
      while k < |transactions|
        invariant Valid() && k <= |transactions| == |old(transactions)|
        invariant (Contents(), changed) == TransactUpTo(old(Contents()), k, now)
      {
        var c := ApplyTransaction(k, now);
        changed := changed || c;
        k := k + 1;
      }
    }

    /** One day of the loop of `Project`: adjustments, then transactions. */
    method RunDay(now: Day) returns (changed: bool)
      requires Valid()
      modifies this
      ensures Valid()
      ensures (Contents(), changed) == DayStep(old(Contents()), now)
    {
      var c1 := AdjustAll(now);
      var c2 := TransactAll(now);
      changed := c1 || c2;
    }

    /** The snapshot loop of `Project`: one line per account, in account order. */
    method SnapshotLines(now: Day) returns (lines: seq<Record>)
      ensures lines == Snapshot(accounts, now)
    {
      lines := [];
      var i := 0;
      while i < |accounts|
        invariant i <= |accounts|
        invariant lines == Snapshot(accounts[..i], now)
      {
        lines := lines + [Record(now, accounts[i].name, accounts[i].balance)];
        i := i + 1;
      }
      assert accounts[..i] == accounts;
    }

    /** The start of `Project(from, to)`: adjustments dated before from are applied, then every
        transaction's cursor is set to from. */
    method Prepare(from: Day)
      requires Valid()
      modifies this
      ensures Valid()
      ensures Contents() == Setup(old(Contents()), from)
    {
      SetupAdjustments(from);
      transactions := ResetCursors(transactions, from);
    }

    /** One turn of the day loop of `Project(from, to)`: run the day, then print a snapshot if
        this is the first day or anything changed. */
    method DayLines(now: Day, next: Day, to: Day, first: bool) returns (lines: seq<Record>)
      requires Valid() && now < to && next == now + 1
      modifies this
      ensures Valid()
      ensures ProjectDays(old(Contents()), now, to, first).0 == ProjectDays(Contents(), next, to, false).0
      ensures ProjectDays(old(Contents()), now, to, first).1 == lines + ProjectDays(Contents(), next, to, false).1
    {
      ghost var before := Contents();
      var c := RunDay(now);
      ProjectDaysStep(before, now, next, to, first, Contents(), c);
      lines := [];
      if first || c {
        lines := SnapshotLines(now);
      }
    }

    /** The day loop of `Project(from, to)`. */
    method RunDays(from: Day, to: Day) returns (out: seq<Record>)
      requires Valid()
      modifies this
      ensures Valid()
      ensures (Contents(), out) == ProjectDays(old(Contents()), from, to, true)
    {
      ghost var result := ProjectDays(Contents(), from, to, true);
      out := [];
      var changed := true;
      var now := from;
      assert out + result.1 == result.1;
      while now < to
        invariant Valid()
        invariant ProjectDays(Contents(), now, to, changed).0 == result.0
        invariant out + ProjectDays(Contents(), now, to, changed).1 == result.1
        decreases if now < to then to - now else 0
      {
        ghost var rest := ProjectDays(Contents(), now, to, changed).1;
        var next := ShiftDays(now, 1);
        var lines := DayLines(now, next, to, changed);
        AppendAssociates(out, lines, ProjectDays(Contents(), next, to, false).1);
        out := out + lines;
        changed := false;
        now := next;
      }
      assert ProjectDays(Contents(), now, to, changed) == (Contents(), []);
      assert out + [] == out;
    }

    /** `Project(from, to)`: the snapshot lines it prints, in order. */
    method Project(from: Day, to: Day) returns (out: seq<Record>)
      requires Valid()
      modifies this
      ensures Valid()
      ensures (Contents(), out) == Projection(old(Contents()), from, to)
    {
      Prepare(from);
      out := RunDays(from, to);
    }
  }
}
