/** The portfolio of the later revision (portfolio_project.go, portfolio_stats.go): the
    projection over a number of years that starts at the earliest manual adjustment, records a
    snapshot of every account at most once per day, detects the first day the portfolio can
    afford retirement, and the annualised statistics of the transactions.

    As in the earlier revision, accounts, adjustments and transactions are values held in the
    portfolio's sequences, and a pointer to one of them is its index. `Account.GainInterest` and
    `Transaction.Apply` belong to types whose code is not part of this model; they enter as the
    two functions of `Hooks`. */
module Projection {
  import opened Results
  import opened Dates
  import Schedules

  /** An account: its name, its balance and the cursor of the schedule its interest accrues on. */
  datatype Account = Account(name: string, balance: real, interest: Schedules.Cursor)

  /** A balance override for one account, taking effect on or after its time. */
  datatype ManualAdjustment = ManualAdjustment(account: nat, time: Day, balance: real, applied: bool)

  /** A transaction: source accounts, an optional destination, an amount, its schedule and the
      schedule's cursor. */
  datatype Transaction = Transaction(
    fromAccounts: seq<nat>,
    toAccount: Option<nat>,
    amount: real,
    schedule: Schedules.Kind,
    cursor: Schedules.Cursor)

  /** `RetirementPlan`: the balance needed on a given day, and the retirement date once found. */
  datatype RetirementPlan = RetirementPlan(balanceNeeded: Day -> real, retireDate: Option<Day>)

  /** The calls `Project` makes into code that is not part of this model.
      `gainInterest(acc, now)` is `acc.GainInterest(now)`: whether it changed anything, the new
      balance and the new interest cursor. `applyTransaction(tr, balances, now)` is
      `tr.Apply(now)`: whether it fired, the transaction's new cursor and the balances after it. */
  datatype Hooks = Hooks(
    gainInterest: (Account, Day) -> (bool, real, Schedules.Cursor),
    applyTransaction: (Transaction, seq<real>, Day) -> (bool, Schedules.Cursor, seq<real>))

  /** The whole portfolio as a value. */
  datatype State = State(
    accounts: seq<Account>,
    transactions: seq<Transaction>,
    adjustments: seq<ManualAdjustment>,
    plan: Option<RetirementPlan>)

  /** `ProjectionRecord`: a day, an account name and that account's balance. */
  datatype Record = Record(time: Day, name: string, balance: real)

  /** One call of `recordAccounts` that did record: its day and its lines. */
  datatype Snapshot = Snapshot(time: Day, lines: seq<Record>)

  /** What `Project` accumulates: `recs`, the set `recordedTimes`, and the same records grouped by
      the call that appended them. */
  datatype Log = Log(recs: seq<Record>, recorded: set<Day>, snapshots: seq<Snapshot>)

  const NoRecords: Log := Log([], {}, [])

  /** Every adjustment names an account of the portfolio. */
  predicate WellFormed(s: State)
  {
    forall i :: 0 <= i < |s.adjustments| ==> s.adjustments[i].account < |s.accounts|
  }

  function Names(accounts: seq<Account>): seq<string>
  {
    seq(|accounts|, i requires 0 <= i < |accounts| => accounts[i].name)
  }

  function Balances(accounts: seq<Account>): seq<real>
  {
    seq(|accounts|, i requires 0 <= i < |accounts| => accounts[i].balance)
  }

  /** The account and time of every adjustment: what applying adjustments never changes. */
  function Slots(adjs: seq<ManualAdjustment>): seq<(nat, Day)>
  {
    seq(|adjs|, i requires 0 <= i < |adjs| => (adjs[i].account, adjs[i].time))
  }

  /** t has the same accounts (by name, in order), transactions and adjustment slots as s. */
  ghost predicate Same(s: State, t: State)
  {
    Names(s.accounts) == Names(t.accounts) && |s.transactions| == |t.transactions| &&
    Slots(s.adjustments) == Slots(t.adjustments)
  }

  function Sum(xs: seq<real>): real
  {
    if |xs| == 0 then 0.0 else Sum(xs[..|xs| - 1]) + xs[|xs| - 1]
  }

  /** `TotalBalance()`: the sum of the balances of all accounts. */
  function Total(accounts: seq<Account>): real
  {
    Sum(Balances(accounts))
  }

  // ---------------------------------------------------------------------------------------
  // Single steps
  // ---------------------------------------------------------------------------------------

  /** `ManualAdjustment.Apply(now)` of adjustment k: nothing before its time or once applied;
      otherwise its account's balance becomes exactly its balance and it is marked applied. */
  function AdjustmentStep(s: State, k: nat, now: Day): (r: (State, bool))
    requires WellFormed(s) && k < |s.adjustments|
    ensures WellFormed(r.0) && Same(s, r.0)
    ensures r.0.plan == s.plan && r.0.transactions == s.transactions
    ensures r.1 <==> !s.adjustments[k].applied && s.adjustments[k].time <= now
    ensures !r.1 ==> r.0 == s
    ensures var a := s.adjustments[k].account;
      r.1 ==> (r.0.accounts == s.accounts[a := s.accounts[a].(balance := s.adjustments[k].balance)] &&
               r.0.adjustments == s.adjustments[k := s.adjustments[k].(applied := true)])
  {
    var adj := s.adjustments[k];
    if adj.applied || now < adj.time then (s, false)
    else
      var acc := s.accounts[adj.account];
      (s.(accounts := s.accounts[adj.account := acc.(balance := adj.balance)],
          adjustments := s.adjustments[k := adj.(applied := true)]), true)
  }

  /** `acc.GainInterest(now)` for account i. */
  function InterestStep(s: State, hooks: Hooks, i: nat, now: Day): (r: (State, bool))
    requires WellFormed(s) && i < |s.accounts|
    ensures WellFormed(r.0) && Same(s, r.0)
    ensures r.0.plan == s.plan && r.0.adjustments == s.adjustments
  {
    var (changed, balance, cursor) := hooks.gainInterest(s.accounts[i], now);
    (s.(accounts := s.accounts[i := s.accounts[i].(balance := balance, interest := cursor)]), changed)
  }

  /** The accounts with new balances; a balance list of another length, which pointer updates
      of existing accounts cannot produce, leaves them as they are. */
  function WithBalances(accounts: seq<Account>, balances: seq<real>): (r: seq<Account>)
    ensures Names(r) == Names(accounts)
    ensures |balances| == |accounts| ==> Balances(r) == balances
  {
    if |balances| != |accounts| then accounts
    else seq(|accounts|, i requires 0 <= i < |accounts| => accounts[i].(balance := balances[i]))
  }

  /** `trans.Apply(now)` for transaction k. */
  function TransactionStep(s: State, hooks: Hooks, k: nat, now: Day): (r: (State, bool))
    requires WellFormed(s) && k < |s.transactions|
    ensures WellFormed(r.0) && Same(s, r.0)
    ensures r.0.plan == s.plan && r.0.adjustments == s.adjustments
  {
    var tr := s.transactions[k];
    var (changed, cursor, balances) := hooks.applyTransaction(tr, Balances(s.accounts), now);
    (s.(accounts := WithBalances(s.accounts, balances),
        transactions := s.transactions[k := tr.(cursor := cursor)]), changed)
  }

  // ---------------------------------------------------------------------------------------
  // The loops over accounts, transactions and one day's adjustments
  // ---------------------------------------------------------------------------------------

  /** Interest on accounts 0..n-1 at now, and whether any of them changed. */
  function InterestUpTo(s: State, hooks: Hooks, n: nat, now: Day): (r: (State, bool))
    requires WellFormed(s) && n <= |s.accounts|
    ensures WellFormed(r.0) && Same(s, r.0)
    ensures r.0.plan == s.plan && r.0.adjustments == s.adjustments
    decreases n
  {
    if n == 0 then (s, false)
    else
      var (t, changed) := InterestUpTo(s, hooks, n - 1, now);
      var (u, c) := InterestStep(t, hooks, n - 1, now);
      (u, changed || c)
  }

  /** Transactions 0..n-1 applied at now, and whether any of them fired. */
  function TransactUpTo(s: State, hooks: Hooks, n: nat, now: Day): (r: (State, bool))
    requires WellFormed(s) && n <= |s.transactions|
    ensures WellFormed(r.0) && Same(s, r.0)
    ensures r.0.plan == s.plan && r.0.adjustments == s.adjustments
    decreases n
  {
    if n == 0 then (s, false)
    else
      var (t, changed) := TransactUpTo(s, hooks, n - 1, now);
      var (u, c) := TransactionStep(t, hooks, n - 1, now);
      (u, changed || c)
  }

  /** The adjustments group[0..n-1] applied at now, and whether any of them changed. */
  function AdjustGroup(s: State, group: seq<nat>, n: nat, now: Day): (r: (State, bool))
    requires WellFormed(s) && n <= |group|
    requires forall j :: 0 <= j < |group| ==> group[j] < |s.adjustments|
    ensures WellFormed(r.0) && Same(s, r.0)
    ensures r.0.plan == s.plan
    decreases n
  {
    if n == 0 then (s, false)
    else
      var (t, changed) := AdjustGroup(s, group, n - 1, now);
      assert |Slots(t.adjustments)| == |Slots(s.adjustments)|;
      var (u, c) := AdjustmentStep(t, group[n - 1], now);
      (u, changed || c)
  }

  // ---------------------------------------------------------------------------------------
  // recordAccounts
  // ---------------------------------------------------------------------------------------

  /** One line per account, in account order, all dated now. */
  function Lines(accounts: seq<Account>, now: Day): seq<Record>
  {
    seq(|accounts|, i requires 0 <= i < |accounts| => Record(now, accounts[i].name, accounts[i].balance))
  }

  /** The retirement check: a plan without a retirement date takes now as its date when the
      total balance is strictly above the balance needed on that day. */
  function Retire(plan: Option<RetirementPlan>, accounts: seq<Account>, now: Day): (r: Option<RetirementPlan>)
    ensures r.Some? <==> plan.Some?
    ensures plan.Some? ==> r.value.balanceNeeded == plan.value.balanceNeeded
    ensures plan.Some? && plan.value.retireDate.Some? ==> r == plan
    ensures plan.Some? && plan.value.retireDate.None? ==>
      (r.value.retireDate == Some(now) <==> Total(accounts) > plan.value.balanceNeeded(now)) &&
      (r.value.retireDate == Some(now) || r.value.retireDate.None?)
  {
    if plan.Some? && plan.value.retireDate.None? && Total(accounts) > plan.value.balanceNeeded(now)
    then Some(plan.value.(retireDate := Some(now)))
    else plan
  }

  /** The `recordAccounts` closure at now: nothing if now was recorded before; otherwise a
      snapshot of every account, now marked recorded, and the retirement check. */
  function RecordAccounts(s: State, log: Log, now: Day): (r: (State, Log))
    ensures r.0.accounts == s.accounts && r.0.transactions == s.transactions
    ensures r.0.adjustments == s.adjustments
  {
    if now in log.recorded then (s, log)
    else
      var snap := Snapshot(now, Lines(s.accounts, now));
      (s.(plan := Retire(s.plan, s.accounts, now)),
       Log(log.recs + snap.lines, log.recorded + {now}, log.snapshots + [snap]))
  }

  // ---------------------------------------------------------------------------------------
  // manTimes and manGrp
  // ---------------------------------------------------------------------------------------

  /** The grouping loop over adjustments 0..n-1: `manTimes` (each time when first seen) and
      `manGrp` (the indices of the adjustments at each time, in list order). */
  function Grouping(adjs: seq<ManualAdjustment>, n: nat): (r: (seq<Day>, map<Day, seq<nat>>))
    requires n <= |adjs|
    ensures |r.0| <= n
  {
    if n == 0 then ([], map[])
    else
      var prev := Grouping(adjs, n - 1);
      var t := adjs[n - 1].time;
      (if t in prev.1 then prev.0 else prev.0 + [t],
       prev.1[t := (if t in prev.1 then prev.1[t] else []) + [n - 1]])
  }

  /** g is a non-empty, strictly increasing list of indices below n of adjustments at time t. */
  ghost predicate GroupOf(adjs: seq<ManualAdjustment>, n: nat, t: Day, g: seq<nat>)
    requires n <= |adjs|
  {
    |g| > 0 &&
    (forall j :: 0 <= j < |g| ==> g[j] < n && adjs[g[j]].time == t) &&
    (forall j, k :: 0 <= j < k < |g| ==> g[j] < g[k])
  }

  predicate Distinct(ts: seq<Day>)
  {
    forall i, j :: 0 <= i < j < |ts| ==> ts[i] != ts[j]
  }

  /** `manTimes` lists each time of the first n adjustments exactly once, and its times are
      the keys of `manGrp`. */
  lemma {:induction false} GroupingKeys(adjs: seq<ManualAdjustment>, n: nat)
    requires n <= |adjs|
    ensures forall t :: t in Grouping(adjs, n).1 <==> t in Grouping(adjs, n).0
    ensures Distinct(Grouping(adjs, n).0)
    ensures forall i :: 0 <= i < n ==> adjs[i].time in Grouping(adjs, n).1
  {
    if n > 0 {
      GroupingKeys(adjs, n - 1);
    }
  }

  /** Every one of the first n adjustments is in `manGrp` at its own time. */
  lemma {:induction false} GroupingMembers(adjs: seq<ManualAdjustment>, n: nat)
    requires n <= |adjs|
    ensures forall i :: 0 <= i < n ==>
      adjs[i].time in Grouping(adjs, n).1 && i in Grouping(adjs, n).1[adjs[i].time]
  {
    if n > 0 {
      GroupingMembers(adjs, n - 1);
      var groups := Grouping(adjs, n - 1).1;
      var t := adjs[n - 1].time;
      var groups' := groups[t := (if t in groups then groups[t] else []) + [n - 1]];
      assert Grouping(adjs, n).1 == groups';
      forall i | 0 <= i < n
        ensures adjs[i].time in groups' && i in groups'[adjs[i].time]
      {
        if i < n - 1 && adjs[i].time == t {
          assert i in groups[t];
        }
      }
    }
  }

  /** `manGrp[t]` is a non-empty list, in list order, of indices of adjustments at time t. */
  lemma {:induction false} GroupingGroups(adjs: seq<ManualAdjustment>, n: nat)
    requires n <= |adjs|
    ensures forall t :: t in Grouping(adjs, n).1 ==> GroupOf(adjs, n, t, Grouping(adjs, n).1[t])
  {
    if n > 0 {
      GroupingGroups(adjs, n - 1);
      var groups := Grouping(adjs, n - 1).1;
      var t := adjs[n - 1].time;
      var groups' := groups[t := (if t in groups then groups[t] else []) + [n - 1]];
      assert Grouping(adjs, n).1 == groups';
      forall u | u in groups'
        ensures GroupOf(adjs, n, u, groups'[u])
      {
        if u == t {
          GroupSnoc(adjs, n, t, if t in groups then groups[t] else []);
        } else {
          GroupWiden(adjs, n, u, groups[u]);
        }
      }
    }
  }

  /** Appending adjustment n - 1 to the group of its own time keeps it a group. */
  lemma GroupSnoc(adjs: seq<ManualAdjustment>, n: nat, t: Day, g: seq<nat>)
    requires 0 < n <= |adjs| && adjs[n - 1].time == t
    requires g == [] || GroupOf(adjs, n - 1, t, g)
    ensures GroupOf(adjs, n, t, g + [n - 1])
  {
  }

  /** A group among the first n - 1 adjustments is one among the first n. */
  lemma GroupWiden(adjs: seq<ManualAdjustment>, n: nat, u: Day, g: seq<nat>)
    requires 0 < n <= |adjs| && GroupOf(adjs, n - 1, u, g)
    ensures GroupOf(adjs, n, u, g)
  {
  }

  /** Strictly increasing days. */
  predicate Ascending(ts: seq<Day>)
  {
    forall i, j :: 0 <= i < j < |ts| ==> ts[i] < ts[j]
  }

  /** Non-decreasing days: what `sort.Sort` with `Less` = `Before` guarantees. */
  predicate Sorted(ts: seq<Day>)
  {
    forall i, j :: 0 <= i < j < |ts| ==> ts[i] <= ts[j]
  }

  /** t added to an ascending list, unless it is there already. */
  function InsertTime(ts: seq<Day>, t: Day): (r: seq<Day>)
    requires Ascending(ts)
    ensures |r| > 0 && Ascending(r)
    ensures r[0] == if |ts| == 0 || t < ts[0] then t else ts[0]
  {
    if |ts| == 0 then [t]
    else if t < ts[0] then [t] + ts
    else if t == ts[0] then ts
    else
      var rest := InsertTime(ts[1..], t);
      assert ts[0] < rest[0];
      [ts[0]] + rest
  }

  /** Inserting adds t to the elements exactly when it was missing. */
  lemma {:induction false} InsertTimeCount(ts: seq<Day>, t: Day)
    requires Ascending(ts)
    ensures multiset(InsertTime(ts, t)) == if t in ts then multiset(ts) else multiset(ts) + multiset{t}
  {
    if |ts| == 0 {
      assert InsertTime(ts, t) == [t];
    } else if t < ts[0] {
      assert t !in ts by {
        forall i | 0 <= i < |ts|
          ensures ts[i] != t
        {
          assert i == 0 || ts[0] < ts[i];
        }
      }
      assert InsertTime(ts, t) == [t] + ts;
      assert multiset([t] + ts) == multiset{t} + multiset(ts);
    } else if t == ts[0] {
      assert InsertTime(ts, t) == ts;
    } else {
      var rest := InsertTime(ts[1..], t);
      InsertTimeCount(ts[1..], t);
      assert InsertTime(ts, t) == [ts[0]] + rest;
      assert multiset([ts[0]] + rest) == multiset{ts[0]} + multiset(rest);
      assert ts == [ts[0]] + ts[1..];
      assert multiset(ts) == multiset{ts[0]} + multiset(ts[1..]);
      assert t in ts <==> t in ts[1..];
    }
  }

  /** The distinct times of the first n adjustments, ascending: `manTimes` once sorted. */
  function SortedTimes(adjs: seq<ManualAdjustment>, n: nat): (r: seq<Day>)
    requires n <= |adjs|
    ensures Ascending(r) && (n > 0 ==> |r| > 0)
  {
    if n == 0 then [] else InsertTime(SortedTimes(adjs, n - 1), adjs[n - 1].time)
  }

  /** The ascending list holds the same times as `manTimes`. */
  lemma {:induction false} SortedTimesPermutes(adjs: seq<ManualAdjustment>, n: nat)
    requires n <= |adjs|
    ensures multiset(SortedTimes(adjs, n)) == multiset(Grouping(adjs, n).0)
  {
    if n > 0 {
      SortedTimesPermutes(adjs, n - 1);
      GroupingKeys(adjs, n - 1);
      var g := Grouping(adjs, n - 1);
      var t := adjs[n - 1].time;
      assert t in g.1 <==> t in g.0;
      InsertTimePermutes(SortedTimes(adjs, n - 1), g.0, t, Grouping(adjs, n).0);
    }
  }

  /** Inserting t into an ascending list with the same elements as times gives the same
      elements as adding t to times when it is new. */
  lemma InsertTimePermutes(prev: seq<Day>, times: seq<Day>, t: Day, times': seq<Day>)
    requires Ascending(prev) && multiset(prev) == multiset(times)
    requires times' == if t in times then times else times + [t]
    ensures multiset(InsertTime(prev, t)) == multiset(times')
  {
    InsertTimeCount(prev, t);
    assert t in prev <==> t in times by {
      assert t in prev <==> t in multiset(prev);
      assert t in times <==> t in multiset(times);
    }
    if t !in times {
      assert multiset(times + [t]) == multiset(times) + multiset{t};
    }
  }

  /** Two non-decreasing lists with the same elements are the same list. */
  lemma {:induction false} SortedUnique(a: seq<Day>, b: seq<Day>)
    requires Sorted(a) && Sorted(b) && multiset(a) == multiset(b)
    ensures a == b
  {
    if |a| == 0 {
      assert |multiset(b)| == 0;
    } else {
      SortedHeads(a, b);
      TailElements(a);
      TailElements(b);
      SortedUnique(a[1..], b[1..]);
    }
  }

  /** Two non-empty non-decreasing lists with the same elements start with the same day, their
      least element. */
  lemma SortedHeads(a: seq<Day>, b: seq<Day>)
    requires Sorted(a) && Sorted(b) && multiset(a) == multiset(b) && |a| > 0
    ensures |b| > 0 && a[0] == b[0]
  {
    assert a[0] in multiset(b);
    var i :| 0 <= i < |b| && b[i] == a[0];
    assert b[0] in multiset(a);
    var j :| 0 <= j < |a| && a[j] == b[0];
  }

  lemma TailElements(a: seq<Day>)
    requires |a| > 0
    ensures multiset(a[1..]) == multiset(a) - multiset{a[0]}
  {
    assert a == [a[0]] + a[1..];
  }

  /** What `Project` needs of `manTimes` and `manGrp`: the sorted times are non-empty keys of
      `manGrp`, whose groups index adjustments. */
  lemma ManTimes(adjs: seq<ManualAdjustment>)
    requires |adjs| > 0
    ensures |SortedTimes(adjs, |adjs|)| > 0
    ensures forall i :: 0 <= i < |SortedTimes(adjs, |adjs|)| ==>
      SortedTimes(adjs, |adjs|)[i] in Grouping(adjs, |adjs|).1
    ensures GroupsFit(Grouping(adjs, |adjs|).1, |adjs|)
    ensures forall i :: 0 <= i < |adjs| ==> adjs[i].time in SortedTimes(adjs, |adjs|)
  {
    GroupingKeys(adjs, |adjs|);
    GroupingMembers(adjs, |adjs|);
    GroupingGroups(adjs, |adjs|);
    SortedTimesPermutes(adjs, |adjs|);
    var times := SortedTimes(adjs, |adjs|);
    forall i | 0 <= i < |adjs|
      ensures adjs[i].time in times
    {
      assert adjs[i].time in Grouping(adjs, |adjs|).0;
      assert adjs[i].time in multiset(times);
    }
    forall i | 0 <= i < |times|
      ensures times[i] in Grouping(adjs, |adjs|).1
    {
      assert times[i] in multiset(Grouping(adjs, |adjs|).0);
    }
    forall t | t in Grouping(adjs, |adjs|).1
      ensures forall j :: 0 <= j < |Grouping(adjs, |adjs|).1[t]| ==> Grouping(adjs, |adjs|).1[t][j] < |adjs|
    {
      assert GroupOf(adjs, |adjs|, t, Grouping(adjs, |adjs|).1[t]);
    }
  }

  /** Every group indexes an adjustment. */
  predicate GroupsFit(groups: map<Day, seq<nat>>, n: nat)
  {
    forall t :: t in groups ==> forall j :: 0 <= j < |groups[t]| ==> groups[t][j] < n
  }

  // ---------------------------------------------------------------------------------------
  // The two phases of Project(years)
  // ---------------------------------------------------------------------------------------

  /** One turn of the adjustment phase, at time t: every transaction (results ignored), then
      the adjustments at t; a snapshot only if one of those adjustments changed something. */
  function AdjustTime(s: State, log: Log, hooks: Hooks, groups: map<Day, seq<nat>>, t: Day): (r: (State, Log))
    requires WellFormed(s) && t in groups && GroupsFit(groups, |s.adjustments|)
    ensures WellFormed(r.0) && Same(s, r.0)
  {
    var (s1, _) := TransactUpTo(s, hooks, |s.transactions|, t);
    assert |Slots(s1.adjustments)| == |Slots(s.adjustments)|;
    var (s2, changed) := AdjustGroup(s1, groups[t], |groups[t]|, t);
    if changed then RecordAccounts(s2, log, t) else (s2, log)
  }

  /** The adjustment phase over times[0..k-1]. */
  function AdjustPhase(s: State, log: Log, hooks: Hooks, times: seq<Day>, groups: map<Day, seq<nat>>, k: nat)
    : (r: (State, Log))
    requires WellFormed(s) && k <= |times| && GroupsFit(groups, |s.adjustments|)
    requires forall i :: 0 <= i < |times| ==> times[i] in groups
    ensures WellFormed(r.0) && Same(s, r.0)
    decreases k
  {
    if k == 0 then (s, log)
    else
      var r := AdjustPhase(s, log, hooks, times, groups, k - 1);
      assert |Slots(r.0.adjustments)| == |Slots(s.adjustments)|;
      AdjustTime(r.0, r.1, hooks, groups, times[k - 1])
  }

  /** One day of the main loop: interest on every account, then every transaction; a snapshot
      if either changed something. */
  function DayStep(s: State, log: Log, hooks: Hooks, now: Day): (r: (State, Log))
    requires WellFormed(s)
    ensures WellFormed(r.0) && Same(s, r.0)
  {
    var (t, c1) := InterestUpTo(s, hooks, |s.accounts|, now);
    var (u, c2) := TransactUpTo(t, hooks, |t.transactions|, now);
    if c1 || c2 then RecordAccounts(u, log, now) else (u, log)
  }

  /** The main loop: every day from now up to and including to. */
  function MainLoop(s: State, log: Log, hooks: Hooks, now: Day, to: Day): (r: (State, Log))
    requires WellFormed(s)
    ensures WellFormed(r.0) && Same(s, r.0)
    decreases if now <= to then to - now + 1 else 0
  {
    if to < now then (s, log)
    else
      var r := DayStep(s, log, hooks, now);
      MainLoop(r.0, r.1, hooks, now + 1, to)
  }

  /** `Project(years)`: from the earliest adjustment time, the adjustment phase over the
      distinct adjustment times in ascending order, then the main loop from the last of them
      through from + years. */
  function Projected(s: State, hooks: Hooks, years: int): (r: (State, Log))
    requires WellFormed(s) && |s.adjustments| > 0
    ensures WellFormed(r.0) && Same(s, r.0)
  {
    ManTimes(s.adjustments);
    var groups := Grouping(s.adjustments, |s.adjustments|).1;
    var times := SortedTimes(s.adjustments, |s.adjustments|);
    var from := times[0];
    var to := AddDate(from, years, 0, 0);
    var r := AdjustPhase(s, NoRecords, hooks, times, groups, |times|);
    MainLoop(r.0, r.1, hooks, times[|times| - 1], to)
  }

  // ---------------------------------------------------------------------------------------
  // What a projection promises
  // ---------------------------------------------------------------------------------------

  /** snap has one line per name, in order, all dated at its day. */
  ghost predicate SnapshotOf(snap: Snapshot, names: seq<string>)
  {
    |snap.lines| == |names| &&
    forall j :: 0 <= j < |names| ==> snap.lines[j].time == snap.time && snap.lines[j].name == names[j]
  }

  /** The lines of the snapshots, one snapshot after the other. */
  function Flatten(snaps: seq<Snapshot>): seq<Record>
  {
    if |snaps| == 0 then [] else Flatten(snaps[..|snaps| - 1]) + snaps[|snaps| - 1].lines
  }

  /** The log is a run of snapshots of the accounts named names, on strictly increasing days
      between lo and hi; `recs` is their lines in order and `recordedTimes` their days. */
  ghost predicate Shaped(log: Log, names: seq<string>, lo: Day, hi: Day)
  {
    log.recs == Flatten(log.snapshots) &&
    log.recorded == (set k | 0 <= k < |log.snapshots| :: log.snapshots[k].time) &&
    (forall k :: 0 <= k < |log.snapshots| ==>
      SnapshotOf(log.snapshots[k], names) && lo <= log.snapshots[k].time <= hi) &&
    (forall i, j :: 0 <= i < j < |log.snapshots| ==> log.snapshots[i].time < log.snapshots[j].time)
  }

  function LineBalances(lines: seq<Record>): seq<real>
  {
    seq(|lines|, i requires 0 <= i < |lines| => lines[i].balance)
  }

  /** The total of a snapshot is strictly above the balance needed on its day. */
  predicate Crosses(snap: Snapshot, needed: Day -> real)
  {
    Sum(LineBalances(snap.lines)) > needed(snap.time)
  }

  /** The day of the earliest snapshot that crosses, if there is one. */
  function FirstCrossing(snaps: seq<Snapshot>, needed: Day -> real): Option<Day>
  {
    if |snaps| == 0 then None
    else
      var earlier := FirstCrossing(snaps[..|snaps| - 1], needed);
      if earlier.Some? then earlier
      else if Crosses(snaps[|snaps| - 1], needed) then Some(snaps[|snaps| - 1].time)
      else None
  }

  /** No snapshot before the k-th crosses. */
  ghost predicate NoneBefore(snaps: seq<Snapshot>, k: int, needed: Day -> real)
    requires k <= |snaps|
  {
    forall j :: 0 <= j < k ==> !Crosses(snaps[j], needed)
  }

  /** `FirstCrossing` is absent exactly when no snapshot crosses. */
  lemma {:induction false} FirstCrossingNone(snaps: seq<Snapshot>, needed: Day -> real)
    ensures FirstCrossing(snaps, needed).None? <==> NoneBefore(snaps, |snaps|, needed)
  {
    if |snaps| > 0 {
      var n := |snaps| - 1;
      var init := snaps[..n];
      FirstCrossingNone(init, needed);
      assert NoneBefore(snaps, |snaps|, needed) <==> NoneBefore(init, n, needed) && !Crosses(snaps[n], needed) by {
        assert forall j :: 0 <= j < n ==> init[j] == snaps[j];
      }
    }
  }

  /** `FirstCrossing` is the day of a snapshot that crosses when no earlier one does. */
  lemma {:induction false} FirstCrossingFirst(snaps: seq<Snapshot>, needed: Day -> real, k: int)
    requires 0 <= k < |snaps| && Crosses(snaps[k], needed) && NoneBefore(snaps, k, needed)
    ensures FirstCrossing(snaps, needed) == Some(snaps[k].time)
  {
    var n := |snaps| - 1;
    var init := snaps[..n];
    if k < n {
      assert init[k] == snaps[k];
      assert NoneBefore(init, k, needed) by {
        assert forall j :: 0 <= j < k ==> init[j] == snaps[j];
      }
      FirstCrossingFirst(init, needed, k);
    } else {
      FirstCrossingNone(init, needed);
      assert NoneBefore(init, n, needed) by {
        assert forall j :: 0 <= j < n ==> init[j] == snaps[j];
      }
    }
  }

  /** The retirement date of plan, started from plan0, is what the first-crossing rule gives on
      snaps: kept if plan0 had one, otherwise the first crossing day. */
  ghost predicate RetireTracks(plan0: Option<RetirementPlan>, plan: Option<RetirementPlan>, snaps: seq<Snapshot>)
  {
    (plan0.Some? <==> plan.Some?) &&
    (plan0.Some? ==>
      plan.value.balanceNeeded == plan0.value.balanceNeeded &&
      plan.value.retireDate ==
        if plan0.value.retireDate.Some? then plan0.value.retireDate
        else FirstCrossing(snaps, plan0.value.balanceNeeded))
  }

  /** The invariant of `Project`: same accounts, a well-shaped log, and a retirement date that
      follows the first-crossing rule. */
  ghost predicate Tracks(plan0: Option<RetirementPlan>, names: seq<string>, lo: Day, s: State, log: Log, hi: Day)
  {
    Names(s.accounts) == names && Shaped(log, names, lo, hi) && RetireTracks(plan0, s.plan, log.snapshots)
  }

  /** A recorded snapshot adds its lines after the earlier ones, its day to the recorded set,
      and keeps days strictly increasing when it is later than every earlier one. */
  lemma ShapedSnoc(log: Log, names: seq<string>, lo: Day, hi: Day, accounts: seq<Account>, now: Day)
    requires Shaped(log, names, lo, hi) && Names(accounts) == names && lo <= now && hi <= now
    requires now !in log.recorded
    ensures Shaped(RecordAccounts(State(accounts, [], [], None), log, now).1, names, lo, now)
  {
    var snap := Snapshot(now, Lines(accounts, now));
    var snaps := log.snapshots + [snap];
    assert snaps[..|snaps| - 1] == log.snapshots;
    assert Flatten(snaps) == log.recs + snap.lines;
    TimesSnoc(log.snapshots, snap, snaps);
    forall k | 0 <= k < |log.snapshots|
      ensures log.snapshots[k].time < now
    {
      assert log.snapshots[k].time in log.recorded;
    }
    LinesNamed(accounts, names, now);
  }

  /** The days of snapshots with one more appended are the earlier days and its day. */
  lemma TimesSnoc(snaps: seq<Snapshot>, snap: Snapshot, snaps': seq<Snapshot>)
    requires snaps' == snaps + [snap]
    ensures (set k | 0 <= k < |snaps'| :: snaps'[k].time) ==
      (set k | 0 <= k < |snaps| :: snaps[k].time) + {snap.time}
  {
    forall k | 0 <= k < |snaps|
      ensures snaps[k].time in (set k' | 0 <= k' < |snaps'| :: snaps'[k'].time)
    {
      assert snaps'[k].time == snaps[k].time;
    }
    assert snaps'[|snaps'| - 1].time == snap.time;
  }

  /** The lines of accounts named names form a snapshot of names. */
  lemma LinesNamed(accounts: seq<Account>, names: seq<string>, now: Day)
    requires Names(accounts) == names
    ensures SnapshotOf(Snapshot(now, Lines(accounts, now)), names)
  {
    var snap := Snapshot(now, Lines(accounts, now));
    forall j | 0 <= j < |names|
      ensures snap.lines[j].name == names[j]
    {
      assert names[j] == Names(accounts)[j];
    }
  }

  /** A snapshot's total is the total balance of the accounts it was taken of. */
  lemma LinesTotal(accounts: seq<Account>, now: Day)
    ensures Sum(LineBalances(Lines(accounts, now))) == Total(accounts)
  {
    assert LineBalances(Lines(accounts, now)) == Balances(accounts);
  }

  /** `recordAccounts` keeps the invariant, with now as the new latest day. */
  lemma RecordTracks(plan0: Option<RetirementPlan>, names: seq<string>, lo: Day, hi: Day, s: State, log: Log, now: Day)
    requires Tracks(plan0, names, lo, s, log, hi) && lo <= now && hi <= now
    ensures Tracks(plan0, names, lo, RecordAccounts(s, log, now).0, RecordAccounts(s, log, now).1, now)
  {
    if now !in log.recorded {
      ShapedSnoc(log, names, lo, hi, s.accounts, now);
      var snap := Snapshot(now, Lines(s.accounts, now));
      var snaps := log.snapshots + [snap];
      assert snaps[..|snaps| - 1] == log.snapshots;
      LinesTotal(s.accounts, now);
    }
  }

  /** One turn of the adjustment phase keeps the invariant, with t as the new latest day. */
  lemma AdjustTimeTracks(plan0: Option<RetirementPlan>, names: seq<string>, lo: Day, hi: Day,
                         s: State, log: Log, hooks: Hooks, groups: map<Day, seq<nat>>, t: Day)
    requires WellFormed(s) && t in groups && GroupsFit(groups, |s.adjustments|)
    requires Tracks(plan0, names, lo, s, log, hi) && lo <= t && hi <= t
    ensures Tracks(plan0, names, lo, AdjustTime(s, log, hooks, groups, t).0, AdjustTime(s, log, hooks, groups, t).1, t)
  {
    var (s1, _) := TransactUpTo(s, hooks, |s.transactions|, t);
    assert |Slots(s1.adjustments)| == |Slots(s.adjustments)|;
    var (s2, changed) := AdjustGroup(s1, groups[t], |groups[t]|, t);
    if changed {
      RecordTracks(plan0, names, lo, hi, s2, log, t);
    }
  }

  /** The adjustment phase over ascending times keeps the invariant; its latest day is the
      last time handled. */
  lemma {:induction false} AdjustPhaseTracks(plan0: Option<RetirementPlan>, names: seq<string>, lo: Day, hi: Day,
      s: State, log: Log, hooks: Hooks, times: seq<Day>, groups: map<Day, seq<nat>>, k: nat)
    requires WellFormed(s) && k <= |times| && GroupsFit(groups, |s.adjustments|)
    requires forall i :: 0 <= i < |times| ==> times[i] in groups
    requires Ascending(times) && Tracks(plan0, names, lo, s, log, hi)
    requires |times| > 0 ==> lo <= times[0] && hi <= times[0]
    ensures Tracks(plan0, names, lo, AdjustPhase(s, log, hooks, times, groups, k).0,
                   AdjustPhase(s, log, hooks, times, groups, k).1, if k == 0 then hi else times[k - 1])
  {
    if k > 0 {
      AdjustPhaseTracks(plan0, names, lo, hi, s, log, hooks, times, groups, k - 1);
      var r := AdjustPhase(s, log, hooks, times, groups, k - 1);
      assert |Slots(r.0.adjustments)| == |Slots(s.adjustments)|;
      var hi' := if k - 1 == 0 then hi else times[k - 2];
      assert hi' <= times[k - 1] && lo <= times[k - 1];
      AdjustTimeTracks(plan0, names, lo, hi', r.0, r.1, hooks, groups, times[k - 1]);
    }
  }

  /** One day of the main loop keeps the invariant, with now as the new latest day. */
  lemma DayStepTracks(plan0: Option<RetirementPlan>, names: seq<string>, lo: Day, hi: Day,
      s: State, log: Log, hooks: Hooks, now: Day)
    requires WellFormed(s) && Tracks(plan0, names, lo, s, log, hi) && lo <= now && hi <= now
    ensures Tracks(plan0, names, lo, DayStep(s, log, hooks, now).0, DayStep(s, log, hooks, now).1, now)
  {
    var (t, c1) := InterestUpTo(s, hooks, |s.accounts|, now);
    var (u, c2) := TransactUpTo(t, hooks, |t.transactions|, now);
    if c1 || c2 {
      RecordTracks(plan0, names, lo, hi, u, log, now);
    }
  }

  /** The main loop keeps the invariant; its latest day is `to` when it ran at all. */
  lemma {:induction false} MainLoopTracks(plan0: Option<RetirementPlan>, names: seq<string>, lo: Day, hi: Day,
      s: State, log: Log, hooks: Hooks, now: Day, to: Day)
    requires WellFormed(s) && Tracks(plan0, names, lo, s, log, hi) && lo <= now && hi <= now
    ensures var m := MainLoop(s, log, hooks, now, to); Tracks(plan0, names, lo, m.0, m.1, if to < now then hi else to)
    decreases if now <= to then to - now + 1 else 0
  {
    if now <= to {
      DayStepTracks(plan0, names, lo, hi, s, log, hooks, now);
      var r := DayStep(s, log, hooks, now);
      MainLoopTracks(plan0, names, lo, now, r.0, r.1, hooks, now + 1, to);
      assert MainLoop(s, log, hooks, now, to) == MainLoop(r.0, r.1, hooks, now + 1, to);
    }
  }

  /** What `Project(years)` promises about its records and the retirement date. Records come
      in snapshots of every account, by name and in account order, one per day at most, on
      strictly increasing days from the earliest adjustment time to the later of the last
      adjustment time and from + years; `recs` is their lines and `recordedTimes` their days.
      The retirement date, when the plan had none, becomes the day of the first snapshot whose
      total is strictly above the balance needed on that day (see `FirstCrossingNone` and
      `FirstCrossingFirst`); a date already set is kept. */
  lemma ProjectionRecords(s: State, hooks: Hooks, years: int)
    requires WellFormed(s) && |s.adjustments| > 0
    ensures var times := SortedTimes(s.adjustments, |s.adjustments|);
      var to := AddDate(times[0], years, 0, 0);
      var r := Projected(s, hooks, years);
      Names(r.0.accounts) == Names(s.accounts) &&
      Shaped(r.1, Names(s.accounts), times[0], if to < times[|times| - 1] then times[|times| - 1] else to) &&
      RetireTracks(s.plan, r.0.plan, r.1.snapshots)
  {
    ManTimes(s.adjustments);
    var times := SortedTimes(s.adjustments, |s.adjustments|);
    PhasesTrack(s, hooks, times, Grouping(s.adjustments, |s.adjustments|).1, AddDate(times[0], years, 0, 0));
  }

  /** The two phases from an empty log keep the invariant from the first time on. */
  lemma PhasesTrack(s: State, hooks: Hooks, times: seq<Day>, groups: map<Day, seq<nat>>, to: Day)
    requires WellFormed(s) && |times| > 0 && GroupsFit(groups, |s.adjustments|) && Ascending(times)
    requires forall i :: 0 <= i < |times| ==> times[i] in groups
    ensures var r := AdjustPhase(s, NoRecords, hooks, times, groups, |times|);
      var last := times[|times| - 1];
      var m := MainLoop(r.0, r.1, hooks, last, to);
      Tracks(s.plan, Names(s.accounts), times[0], m.0, m.1, if to < last then last else to)
  {
    var from := times[0];
    var names := Names(s.accounts);
    assert Tracks(s.plan, names, from, s, NoRecords, from);
    AdjustPhaseTracks(s.plan, names, from, from, s, NoRecords, hooks, times, groups, |times|);
    var r := AdjustPhase(s, NoRecords, hooks, times, groups, |times|);
    var last := times[|times| - 1];
    assert from <= last;
    MainLoopTracks(s.plan, names, from, last, r.0, r.1, hooks, last, to);
  }

  /** `from`, the first of the sorted times, is the earliest adjustment time: it is the time of
      adjustment i, and no adjustment is earlier. */
  lemma EarliestTime(adjs: seq<ManualAdjustment>) returns (i: nat)
    requires |adjs| > 0
    ensures i < |adjs| && adjs[i].time == SortedTimes(adjs, |adjs|)[0]
    ensures forall j :: 0 <= j < |adjs| ==> SortedTimes(adjs, |adjs|)[0] <= adjs[j].time
  {
    ManTimes(adjs);
    GroupingMembers(adjs, |adjs|);
    GroupingGroups(adjs, |adjs|);
    var times := SortedTimes(adjs, |adjs|);
    var g := Grouping(adjs, |adjs|).1[times[0]];
    assert GroupOf(adjs, |adjs|, times[0], g);
    i := g[0];
    forall j | 0 <= j < |adjs|
      ensures times[0] <= adjs[j].time
    {
      assert adjs[j].time in times;
    }
  }

  /** Applying group[0..n-1] at now marks applied exactly the listed adjustments dated on or
      before now, and reports a change when the first of them was pending and due. */
  lemma {:induction false} AdjustGroupApplies(s: State, group: seq<nat>, n: nat, now: Day)
    requires WellFormed(s) && n <= |group|
    requires forall j :: 0 <= j < |group| ==> group[j] < |s.adjustments|
    ensures |AdjustGroup(s, group, n, now).0.adjustments| == |s.adjustments|
    ensures forall i :: 0 <= i < |s.adjustments| ==>
      AdjustGroup(s, group, n, now).0.adjustments[i].time == s.adjustments[i].time &&
      (AdjustGroup(s, group, n, now).0.adjustments[i].applied <==>
        s.adjustments[i].applied || (i in group[..n] && s.adjustments[i].time <= now))
    ensures n > 0 && !s.adjustments[group[0]].applied && s.adjustments[group[0]].time <= now ==>
      AdjustGroup(s, group, n, now).1
  {
    if n > 0 {
      AdjustGroupApplies(s, group, n - 1, now);
      var r := AdjustGroup(s, group, n - 1, now);
      assert group[..n] == group[..n - 1] + [group[n - 1]];
      var u := AdjustmentStep(r.0, group[n - 1], now);
      assert |Slots(u.0.adjustments)| == |Slots(r.0.adjustments)|;
      forall i | 0 <= i < |s.adjustments|
        ensures u.0.adjustments[i].time == r.0.adjustments[i].time
      {
        assert Slots(u.0.adjustments)[i] == Slots(r.0.adjustments)[i];
      }
    }
  }

  /** Whether adj is for account a and still waiting to take effect on day now. */
  predicate Due(adj: ManualAdjustment, a: nat, now: Day)
  {
    adj.account == a && !adj.applied && adj.time <= now
  }

  /** The last position below n in group whose adjustment is for account a, pending and due. */
  function LastDue(adjs: seq<ManualAdjustment>, group: seq<nat>, n: nat, a: nat, now: Day): (r: Option<nat>)
    requires n <= |group|
    requires forall j :: 0 <= j < |group| ==> group[j] < |adjs|
    ensures r.Some? ==> r.value < n && Due(adjs[group[r.value]], a, now)
    ensures forall j :: (if r.Some? then r.value else -1) < j < n ==> !Due(adjs[group[j]], a, now)
    decreases n
  {
    if n == 0 then None
    else if Due(adjs[group[n - 1]], a, now) then Some(n - 1)
    else LastDue(adjs, group, n - 1, a, now)
  }

  /** One adjustment sets account a's balance exactly when it is for a and due. */
  lemma AdjustmentStepBalance(t: State, k: nat, now: Day, a: nat)
    requires WellFormed(t) && k < |t.adjustments| && a < |t.accounts|
    ensures var u := AdjustmentStep(t, k, now).0;
      |u.accounts| == |t.accounts| &&
      u.accounts[a].balance == (if Due(t.adjustments[k], a, now) then t.adjustments[k].balance else t.accounts[a].balance)
  {
  }

  /** An adjustment not among group[0..n-1] is not touched by applying them. */
  lemma {:induction false} AdjustGroupKeeps(s: State, group: seq<nat>, n: nat, now: Day, g: nat)
    requires WellFormed(s) && n <= |group|
    requires forall j :: 0 <= j < |group| ==> group[j] < |s.adjustments|
    requires g < |s.adjustments| && g !in group[..n]
    ensures AdjustGroup(s, group, n, now).0.adjustments[g] == s.adjustments[g]
    decreases n
  {
    if n > 0 {
      assert group[..n] == group[..n - 1] + [group[n - 1]];
      AdjustGroupKeeps(s, group, n - 1, now, g);
      var t := AdjustGroup(s, group, n - 1, now).0;
      assert |Slots(t.adjustments)| == |Slots(s.adjustments)|;
      assert AdjustGroup(s, group, n, now).0 == AdjustmentStep(t, group[n - 1], now).0;
    }
  }

  /** Applying the distinct adjustments group[0..n-1] on day now leaves each account with the
      balance of the last of them, in group order, that was for it and due, or with its old
      balance if there was none. */
  lemma {:induction false} AdjustGroupBalances(s: State, group: seq<nat>, n: nat, now: Day, a: nat)
    requires WellFormed(s) && n <= |group| && a < |s.accounts|
    requires forall j :: 0 <= j < |group| ==> group[j] < |s.adjustments|
    requires forall i, j :: 0 <= i < j < |group| ==> group[i] != group[j]
    ensures var t := AdjustGroup(s, group, n, now).0; var last := LastDue(s.adjustments, group, n, a, now);
      |t.accounts| == |s.accounts| &&
      t.accounts[a].balance == (if last.Some? then s.adjustments[group[last.value]].balance else s.accounts[a].balance)
    decreases n
  {
    if n > 0 {
      AdjustGroupBalances(s, group, n - 1, now, a);
      var g := group[n - 1];
      assert g !in group[..n - 1];
      AdjustGroupKeeps(s, group, n - 1, now, g);
      var t := AdjustGroup(s, group, n - 1, now).0;
      assert |Names(t.accounts)| == |Names(s.accounts)|;
      AdjustmentStepBalance(t, g, now, a);
      var u := AdjustmentStep(t, g, now).0;
      assert AdjustGroup(s, group, n, now).0 == u;
      if Due(s.adjustments[g], a, now) {
        assert LastDue(s.adjustments, group, n, a, now) == Some(n - 1);
      } else {
        assert LastDue(s.adjustments, group, n, a, now) == LastDue(s.adjustments, group, n - 1, a, now);
        assert u.accounts[a].balance == t.accounts[a].balance;
      }
    }
  }

  /** Adjustment i is applied exactly when its time is before bound. */
  ghost predicate AppliedBefore(adjs: seq<ManualAdjustment>, bound: Day)
  {
    forall i :: 0 <= i < |adjs| ==> (adjs[i].applied <==> adjs[i].time < bound)
  }

  /** The days of the snapshots, in order. */
  function Days(snaps: seq<Snapshot>): seq<Day>
  {
    seq(|snaps|, k requires 0 <= k < |snaps| => snaps[k].time)
  }

  /** The bound after k turns of the adjustment phase: the next time, or past the last one. */
  function Handled(times: seq<Day>, k: nat): Day
    requires 0 < |times| && k <= |times|
  {
    if k < |times| then times[k] else times[|times| - 1] + 1
  }

  /** manGrp as the grouping loop builds it, for adjustments whose times are all in times. */
  ghost predicate GroupsExact(adjs: seq<ManualAdjustment>, times: seq<Day>, groups: map<Day, seq<nat>>)
  {
    (forall t :: t in groups ==> GroupOf(adjs, |adjs|, t, groups[t])) &&
    (forall i :: 0 <= i < |adjs| ==>
      adjs[i].time in times && adjs[i].time in groups && i in groups[adjs[i].time])
  }

  /** One turn of the adjustment phase over fresh adjustments: the adjustments at the current
      time become applied, and a snapshot of that time is recorded. */
  lemma AdjustTimeRecords(s0: State, s: State, log: Log, hooks: Hooks, times: seq<Day>, groups: map<Day, seq<nat>>, k: nat)
    requires WellFormed(s) && k < |times| && Ascending(times) && GroupsFit(groups, |s.adjustments|)
    requires forall i :: 0 <= i < |times| ==> times[i] in groups
    requires GroupsExact(s0.adjustments, times, groups) && Slots(s.adjustments) == Slots(s0.adjustments)
    requires AppliedBefore(s.adjustments, times[k])
    requires Days(log.snapshots) == times[..k] && log.recorded == (set j | 0 <= j < k :: times[j])
    ensures var r := AdjustTime(s, log, hooks, groups, times[k]);
      AppliedBefore(r.0.adjustments, Handled(times, k + 1)) &&
      Days(r.1.snapshots) == times[..k + 1] && r.1.recorded == (set j | 0 <= j < k + 1 :: times[j])
  {
    var t := times[k];
    var s1 := TransactUpTo(s, hooks, |s.transactions|, t).0;
    var g := groups[t];
    GroupAppliesAt(s0, s1, times, groups, k);
    var r2 := AdjustGroup(s1, g, |g|, t);
    assert t !in log.recorded;
    var snaps := log.snapshots + [Snapshot(t, Lines(r2.0.accounts, t))];
    assert Days(snaps) == Days(log.snapshots) + [t];
    assert times[..k + 1] == times[..k] + [t];
  }

  /** The adjustments at times[k], applied when every earlier one is and no later one is,
      leave applied exactly those up to times[k], and report a change. */
  lemma GroupAppliesAt(s0: State, s: State, times: seq<Day>, groups: map<Day, seq<nat>>, k: nat)
    requires WellFormed(s) && k < |times| && Ascending(times) && GroupsFit(groups, |s.adjustments|)
    requires times[k] in groups
    requires GroupsExact(s0.adjustments, times, groups) && Slots(s.adjustments) == Slots(s0.adjustments)
    requires AppliedBefore(s.adjustments, times[k])
    ensures var r := AdjustGroup(s, groups[times[k]], |groups[times[k]]|, times[k]);
      AppliedBefore(r.0.adjustments, Handled(times, k + 1)) && r.1
  {
    var t := times[k];
    var g := groups[t];
    assert GroupOf(s0.adjustments, |s0.adjustments|, t, g);
    forall i | 0 <= i < |s.adjustments|
      ensures s.adjustments[i].time == s0.adjustments[i].time
    {
      assert Slots(s.adjustments)[i] == Slots(s0.adjustments)[i];
    }
    AdjustGroupApplies(s, g, |g|, t);
    assert g[..|g|] == g;
    var r := AdjustGroup(s, g, |g|, t);
    forall i | 0 <= i < |r.0.adjustments|
      ensures r.0.adjustments[i].applied <==> r.0.adjustments[i].time < Handled(times, k + 1)
    {
      var d := s.adjustments[i].time;
      assert i in g <==> d == t;
      HandledBound(times, k, d);
    }
  }

  /** For a time d of the list, d is at most times[k] exactly when it is before the bound
      after k + 1 turns. */
  lemma HandledBound(times: seq<Day>, k: nat, d: Day)
    requires Ascending(times) && k < |times| && d in times
    ensures d <= times[k] <==> d < Handled(times, k + 1)
  {
    var j :| 0 <= j < |times| && times[j] == d;
    assert d <= times[k] <==> j <= k;
  }

  /** The adjustment phase over adjustments none of which was applied: every adjustment
      becomes applied, and the snapshots recorded are exactly one per distinct adjustment time,
      in ascending order. */
  lemma {:induction false} AdjustPhaseRecords(s: State, hooks: Hooks, times: seq<Day>, groups: map<Day, seq<nat>>, k: nat)
    requires WellFormed(s) && 0 < |times| && k <= |times| && Ascending(times) && GroupsFit(groups, |s.adjustments|)
    requires forall i :: 0 <= i < |times| ==> times[i] in groups
    requires GroupsExact(s.adjustments, times, groups)
    requires forall i :: 0 <= i < |s.adjustments| ==> !s.adjustments[i].applied
    ensures var r := AdjustPhase(s, NoRecords, hooks, times, groups, k);
      AppliedBefore(r.0.adjustments, Handled(times, k)) &&
      Days(r.1.snapshots) == times[..k] && r.1.recorded == (set j | 0 <= j < k :: times[j])
  {
    if k == 0 {
      forall i | 0 <= i < |s.adjustments|
        ensures times[0] <= s.adjustments[i].time
      {
        var j :| 0 <= j < |times| && times[j] == s.adjustments[i].time;
        assert j == 0 || times[0] < times[j];
      }
    } else {
      AdjustPhaseRecords(s, hooks, times, groups, k - 1);
      var r := AdjustPhase(s, NoRecords, hooks, times, groups, k - 1);
      assert Handled(times, k - 1) == times[k - 1];
      assert Slots(r.0.adjustments) == Slots(s.adjustments);
      assert |r.0.adjustments| == |Slots(r.0.adjustments)|;
      AdjustTimeRecords(s, r.0, r.1, hooks, times, groups, k - 1);
      AdjustPhaseNext(s, NoRecords, hooks, times, groups, k - 1);
    }
  }

  /** `Project(years)` over a portfolio whose adjustments are all pending starts its records
      with one snapshot per distinct adjustment time, ascending, and leaves every adjustment
      applied. */
  lemma ProjectionRecordsAdjustments(s: State, hooks: Hooks, years: int)
    requires WellFormed(s) && |s.adjustments| > 0
    requires forall i :: 0 <= i < |s.adjustments| ==> !s.adjustments[i].applied
    ensures var times := SortedTimes(s.adjustments, |s.adjustments|);
      var r := Projected(s, hooks, years);
      |r.1.snapshots| >= |times| && Days(r.1.snapshots)[..|times|] == times &&
      forall i :: 0 <= i < |r.0.adjustments| ==> r.0.adjustments[i].applied
  {
    ManTimes(s.adjustments);
    GroupingMembers(s.adjustments, |s.adjustments|);
    GroupingGroups(s.adjustments, |s.adjustments|);
    var times := SortedTimes(s.adjustments, |s.adjustments|);
    PhasesRecordAdjustments(s, hooks, times, Grouping(s.adjustments, |s.adjustments|).1,
      AddDate(times[0], years, 0, 0));
  }

  /** The two phases over fresh adjustments, with the times and groups as parameters. */
  lemma PhasesRecordAdjustments(s: State, hooks: Hooks, times: seq<Day>, groups: map<Day, seq<nat>>, to: Day)
    requires WellFormed(s) && 0 < |times| && Ascending(times) && GroupsFit(groups, |s.adjustments|)
    requires forall i :: 0 <= i < |times| ==> times[i] in groups
    requires GroupsExact(s.adjustments, times, groups)
    requires forall i :: 0 <= i < |s.adjustments| ==> !s.adjustments[i].applied
    ensures var r := AdjustPhase(s, NoRecords, hooks, times, groups, |times|);
      var m := MainLoop(r.0, r.1, hooks, times[|times| - 1], to);
      |m.1.snapshots| >= |times| && Days(m.1.snapshots)[..|times|] == times &&
      forall i :: 0 <= i < |m.0.adjustments| ==> m.0.adjustments[i].applied
  {
    AdjustPhaseRecords(s, hooks, times, groups, |times|);
    var r := AdjustPhase(s, NoRecords, hooks, times, groups, |times|);
    var last := times[|times| - 1];
    MainLoopKeeps(r.0, r.1, hooks, last, to);
    var m := MainLoop(r.0, r.1, hooks, last, to);
    assert times[..|times|] == times;
    DaysPrefix(r.1.snapshots, m.1.snapshots);
    AllApplied(s.adjustments, r.0.adjustments, times);
  }

  /** The days of a prefix are a prefix of the days. */
  lemma DaysPrefix(a: seq<Snapshot>, b: seq<Snapshot>)
    requires |a| <= |b| && b[..|a|] == a
    ensures Days(b)[..|a|] == Days(a)
  {
    assert forall k :: 0 <= k < |a| ==> b[k] == a[k];
  }

  /** Once everything up to the last time is applied, every adjustment is. */
  lemma AllApplied(adjs0: seq<ManualAdjustment>, adjs: seq<ManualAdjustment>, times: seq<Day>)
    requires 0 < |times| && Ascending(times) && Slots(adjs) == Slots(adjs0)
    requires forall i :: 0 <= i < |adjs0| ==> adjs0[i].time in times
    requires AppliedBefore(adjs, Handled(times, |times|))
    ensures forall i :: 0 <= i < |adjs| ==> adjs[i].applied
  {
    assert |Slots(adjs)| == |Slots(adjs0)|;
    var last := times[|times| - 1];
    forall i | 0 <= i < |adjs|
      ensures adjs[i].applied
    {
      assert Slots(adjs)[i] == Slots(adjs0)[i];
      var j :| 0 <= j < |times| && times[j] == adjs0[i].time;
      assert j == |times| - 1 || times[j] < last;
    }
  }

  /** The main loop leaves the adjustments alone and only appends snapshots. */
  lemma {:induction false} MainLoopKeeps(s: State, log: Log, hooks: Hooks, now: Day, to: Day)
    requires WellFormed(s)
    ensures MainLoop(s, log, hooks, now, to).0.adjustments == s.adjustments
    ensures |log.snapshots| <= |MainLoop(s, log, hooks, now, to).1.snapshots|
    ensures MainLoop(s, log, hooks, now, to).1.snapshots[..|log.snapshots|] == log.snapshots
    decreases if now <= to then to - now + 1 else 0
  {
    if now <= to {
      var r := DayStep(s, log, hooks, now);
      MainLoopKeeps(r.0, r.1, hooks, now + 1, to);
      MainLoopStep(s, log, hooks, now, now + 1, to);
      var m := MainLoop(s, log, hooks, now, to);
      assert m.1.snapshots[..|r.1.snapshots|] == r.1.snapshots;
      assert r.1.snapshots[..|log.snapshots|] == log.snapshots;
    }
  }

  /** One more turn of the adjustment phase. */
  lemma AdjustPhaseNext(s: State, log: Log, hooks: Hooks, times: seq<Day>, groups: map<Day, seq<nat>>, k: nat)
    requires WellFormed(s) && k < |times| && GroupsFit(groups, |s.adjustments|)
    requires forall i :: 0 <= i < |times| ==> times[i] in groups
    ensures var r := AdjustPhase(s, log, hooks, times, groups, k);
      |r.0.adjustments| == |s.adjustments| &&
      AdjustPhase(s, log, hooks, times, groups, k + 1) == AdjustTime(r.0, r.1, hooks, groups, times[k])
  {
    var r := AdjustPhase(s, log, hooks, times, groups, k);
    assert |Slots(r.0.adjustments)| == |Slots(s.adjustments)|;
  }

  /** One turn of the main loop, with the next day passed as a value. */
  lemma MainLoopStep(s: State, log: Log, hooks: Hooks, now: Day, next: Day, to: Day)
    requires WellFormed(s) && now <= to && next == now + 1
    ensures MainLoop(s, log, hooks, now, to) ==
      MainLoop(DayStep(s, log, hooks, now).0, DayStep(s, log, hooks, now).1, hooks, next, to)
  {
  }

  /** `Swap` of the sort.Interface that sortTime implements. */
  method SwapTimes(a: array<Day>, i: nat, j: nat)
    requires i < a.Length && j < a.Length
    modifies a
    ensures a[..] == old(a[..])[i := old(a[j])][j := old(a[i])]
    ensures multiset(a[..]) == multiset(old(a[..]))
  {
    a[i], a[j] := a[j], a[i];
  }

  /** `sort.Sort(sortTime(manTimes))`: sorts the times in place by `Less` (`Before`), with
      `Swap` as its only way of moving them; here by insertion. */
  method SortTimes(a: array<Day>)
    modifies a
    ensures Sorted(a[..])
    ensures multiset(a[..]) == multiset(old(a[..]))
  {
    var i := 0;
    while i < a.Length
      invariant i <= a.Length
      invariant Sorted(a[..i])
      invariant multiset(a[..]) == multiset(old(a[..]))
    {
      var j := i;
      while 0 < j && a[j] < a[j - 1]
        invariant 0 <= j <= i
        invariant forall p, q :: 0 <= p < q <= i && p != j && q != j ==> a[p] <= a[q]
        invariant forall q :: j < q <= i ==> a[j] <= a[q]
        invariant multiset(a[..]) == multiset(old(a[..]))
      {
        SwapTimes(a, j - 1, j);
        j := j - 1;
      }
      i := i + 1;
    }
  }

  // ---------------------------------------------------------------------------------------
  // Stats (portfolio_stats.go)
  // ---------------------------------------------------------------------------------------

  datatype PortfolioStats = PortfolioStats(
    averageMonthlyExpenses: real,
    averageMonthlyIncome: real,
    averageMonthlyGrowth: real)

  /** A transaction's amount over a year: its amount times its schedule's yearly factor. */
  function Yearly(t: Transaction): real
  {
    t.amount * t.schedule.YearlyFactor()
  }

  /** Money leaving the portfolio: no destination account. */
  predicate IsExpense(t: Transaction)
  {
    t.toAccount.None?
  }

  /** Money counted as income: a destination and at least one source account. */
  predicate IsIncome(t: Transaction)
  {
    t.toAccount.Some? && |t.fromAccounts| > 0
  }

  function YearlyExpenses(trs: seq<Transaction>): real
  {
    if |trs| == 0 then 0.0 else (if IsExpense(trs[0]) then Yearly(trs[0]) else 0.0) + YearlyExpenses(trs[1..])
  }

  function YearlyIncome(trs: seq<Transaction>): real
  {
    if |trs| == 0 then 0.0 else (if IsIncome(trs[0]) then Yearly(trs[0]) else 0.0) + YearlyIncome(trs[1..])
  }

  /** The yearly amounts of the transactions in neither bucket: a destination and no source. */
  function YearlyUncounted(trs: seq<Transaction>): real
  {
    if |trs| == 0 then 0.0
    else (if !IsExpense(trs[0]) && !IsIncome(trs[0]) then Yearly(trs[0]) else 0.0) + YearlyUncounted(trs[1..])
  }

  function YearlyAll(trs: seq<Transaction>): real
  {
    if |trs| == 0 then 0.0 else Yearly(trs[0]) + YearlyAll(trs[1..])
  }

  /** The two sums over a list with one more transaction at its end. */
  lemma {:induction false} YearlySnoc(trs: seq<Transaction>, t: Transaction)
    ensures YearlyExpenses(trs + [t]) == YearlyExpenses(trs) + if IsExpense(t) then Yearly(t) else 0.0
    ensures YearlyIncome(trs + [t]) == YearlyIncome(trs) + if IsIncome(t) then Yearly(t) else 0.0
  {
    if |trs| > 0 {
      assert (trs + [t])[1..] == trs[1..] + [t];
      YearlySnoc(trs[1..], t);
    } else {
      assert (trs + [t])[1..] == [];
    }
  }

  /** Every transaction's yearly amount lands in exactly one of expenses, income and neither. */
  lemma {:induction false} BucketsPartition(trs: seq<Transaction>)
    ensures YearlyExpenses(trs) + YearlyIncome(trs) + YearlyUncounted(trs) == YearlyAll(trs)
  {
    if |trs| > 0 {
      BucketsPartition(trs[1..]);
    }
  }

  /** A one-time transaction adds nothing to either figure: its yearly factor is 0. */
  lemma OnceCountsNothing(trs: seq<Transaction>, t: Transaction)
    requires t.schedule.Once?
    ensures YearlyExpenses(trs + [t]) == YearlyExpenses(trs)
    ensures YearlyIncome(trs + [t]) == YearlyIncome(trs)
  {
    YearlySnoc(trs, t);
  }

  /** A transaction with a destination and no source adds to neither figure. */
  lemma DestinationOnlyUncounted(trs: seq<Transaction>, t: Transaction)
    requires t.toAccount.Some? && |t.fromAccounts| == 0
    ensures YearlyExpenses(trs + [t]) == YearlyExpenses(trs)
    ensures YearlyIncome(trs + [t]) == YearlyIncome(trs)
  {
    YearlySnoc(trs, t);
  }

  /** The portfolio as the projection and the statistics see it. */
  class Portfolio {
    var accounts: seq<Account>
    var transactions: seq<Transaction>
    var adjustments: seq<ManualAdjustment>
    var plan: Option<RetirementPlan>

    function Contents(): State
      reads this
    {
      State(accounts, transactions, adjustments, plan)
    }

    predicate Valid()
      reads this
    {
      WellFormed(Contents())
    }

    /** `adj.Apply(now)` for adjustment k. */
    method ApplyAdjustment(k: nat, now: Day) returns (changed: bool)
      requires Valid() && k < |adjustments|
      modifies this
      ensures Valid()
      ensures (Contents(), changed) == AdjustmentStep(old(Contents()), k, now)
    {
      var adj := adjustments[k];
      if adj.applied || now < adj.time {
        return false;
      }
      accounts := accounts[adj.account := accounts[adj.account].(balance := adj.balance)];
      adjustments := adjustments[k := adj.(applied := true)];
      return true;
    }

    /** The loop over `manGrp[now]` in the adjustment phase. */
    method ApplyGroup(group: seq<nat>, now: Day) returns (changed: bool)
      requires Valid() && forall j :: 0 <= j < |group| ==> group[j] < |adjustments|
      modifies this
      ensures Valid()
      ensures (Contents(), changed) == AdjustGroup(old(Contents()), group, |group|, now)
    {
      changed := false;
      var j := 0;
      while j < |group|
        invariant Valid() && j <= |group| && |adjustments| == |old(adjustments)|
        invariant (Contents(), changed) == AdjustGroup(old(Contents()), group, j, now)
      {
        var c := ApplyAdjustment(group[j], now);
        changed := changed || c;
        j := j + 1;
      }
    }

    /** The interest loop of a day: `acc.GainInterest(now)` for every account. */
    method GainInterestAll(now: Day, hooks: Hooks) returns (changed: bool)
      requires Valid()
      modifies this
      ensures Valid()
      ensures (Contents(), changed) == InterestUpTo(old(Contents()), hooks, |old(accounts)|, now)
    {
      changed := false;
      var i := 0;
      while i < |accounts|
        invariant Valid() && i <= |accounts| == |old(accounts)|
        invariant (Contents(), changed) == InterestUpTo(old(Contents()), hooks, i, now)
      {
        var (c, balance, cursor) := hooks.gainInterest(accounts[i], now);
        accounts := accounts[i := accounts[i].(balance := balance, interest := cursor)];
        changed := changed || c;
        i := i + 1;
      }
    }

    /** The transaction loop: `trans.Apply(now)` for every transaction. */
    method TransactAll(now: Day, hooks: Hooks) returns (changed: bool)
      requires Valid()
      modifies this
      ensures Valid()
      ensures (Contents(), changed) == TransactUpTo(old(Contents()), hooks, |old(transactions)|, now)
    {
      changed := false;
      var k := 0;
      while k < |transactions|
        invariant Valid() && k <= |transactions| == |old(transactions)|
        invariant (Contents(), changed) == TransactUpTo(old(Contents()), hooks, k, now)
      {
        var tr := transactions[k];
        var (c, cursor, balances) := hooks.applyTransaction(tr, Balances(accounts), now);
        accounts := WithBalances(accounts, balances);
        transactions := transactions[k := tr.(cursor := cursor)];
        changed := changed || c;
        k := k + 1;
      }
    }

    /** The `recordAccounts` closure at now. */
    method RecordAt(now: Day, log: Log) returns (log': Log)
      modifies this
      ensures (Contents(), log') == RecordAccounts(old(Contents()), log, now)
    {
      if now in log.recorded {
        return log;
      }
      var recs := log.recs;
      var i := 0;
      while i < |accounts|
        invariant i <= |accounts|
        invariant recs == log.recs + Lines(accounts, now)[..i]
      {
        assert Lines(accounts, now)[..i + 1] == Lines(accounts, now)[..i] + [Record(now, accounts[i].name, accounts[i].balance)];
        recs := recs + [Record(now, accounts[i].name, accounts[i].balance)];
        i := i + 1;
      }
      assert Lines(accounts, now)[..i] == Lines(accounts, now);
      log' := Log(recs, log.recorded + {now}, log.snapshots + [Snapshot(now, Lines(accounts, now))]);
      if plan.Some? && plan.value.retireDate.None? {
        if Total(accounts) > plan.value.balanceNeeded(now) {
          plan := Some(plan.value.(retireDate := Some(now)));
        }
      }
    }

    /** One turn of the adjustment phase, at time t. */
    method AdjustAt(t: Day, groups: map<Day, seq<nat>>, log: Log, hooks: Hooks) returns (log': Log)
      requires Valid() && t in groups && GroupsFit(groups, |adjustments|)
      modifies this
      ensures Valid()
      ensures (Contents(), log') == AdjustTime(old(Contents()), log, hooks, groups, t)
    {
      var _ := TransactAll(t, hooks);
      assert |Slots(adjustments)| == |Slots(old(adjustments))|;
      var changed := ApplyGroup(groups[t], t);
      if changed {
        log' := RecordAt(t, log);
      } else {
        log' := log;
      }
    }

    /** The adjustment phase: `for _, t := range manTimes`. */
    method AdjustAll(times: seq<Day>, groups: map<Day, seq<nat>>, hooks: Hooks) returns (log: Log)
      requires Valid() && GroupsFit(groups, |adjustments|)
      requires forall i :: 0 <= i < |times| ==> times[i] in groups
      modifies this
      ensures Valid()
      ensures (Contents(), log) == AdjustPhase(old(Contents()), NoRecords, hooks, times, groups, |times|)
    {
      log := NoRecords;
      var k := 0;
      while k < |times|
        invariant Valid() && k <= |times| && |adjustments| == |old(adjustments)|
        invariant (Contents(), log) == AdjustPhase(old(Contents()), NoRecords, hooks, times, groups, k)
      {
        AdjustPhaseNext(old(Contents()), NoRecords, hooks, times, groups, k);
        log := AdjustAt(times[k], groups, log, hooks);
        k := k + 1;
      }
    }

    /** One day of the main loop: interest, then transactions, then a snapshot on a change. */
    method RunDay(now: Day, log: Log, hooks: Hooks) returns (log': Log)
      requires Valid()
      modifies this
      ensures Valid()
      ensures (Contents(), log') == DayStep(old(Contents()), log, hooks, now)
    {
      var c1 := GainInterestAll(now, hooks);
      var c2 := TransactAll(now, hooks);
      if c1 || c2 {
        log' := RecordAt(now, log);
      } else {
        log' := log;
      }
    }

    /** The main loop: `for ; !now.After(to); now = now.AddDate(0, 0, 1)`. */
    method RunDays(from: Day, to: Day, log: Log, hooks: Hooks) returns (log': Log)
      requires Valid()
      modifies this
      ensures Valid()
      ensures (Contents(), log') == MainLoop(old(Contents()), log, hooks, from, to)
    {
      log' := log;
      var now := from;
      while !(to < now)
        invariant Valid()
        invariant MainLoop(Contents(), log', hooks, now, to) == MainLoop(old(Contents()), log, hooks, from, to)
        decreases if now <= to then to - now + 1 else 0
      {
        var next := ShiftDays(now, 1);
        MainLoopStep(Contents(), log', hooks, now, next, to);
        log' := RunDay(now, log', hooks);
        now := next;
      }
    }

    /** The grouping loop: `manTimes` and `manGrp`. */
    method GroupAdjustments() returns (times: seq<Day>, groups: map<Day, seq<nat>>)
      ensures (times, groups) == Grouping(adjustments, |adjustments|)
    {
      times, groups := [], map[];
      var i := 0;
      while i < |adjustments|
        invariant i <= |adjustments|
        invariant (times, groups) == Grouping(adjustments, i)
      {
        var t := adjustments[i].time;
        if t !in groups {
          times := times + [t];
        }
        groups := groups[t := (if t in groups then groups[t] else []) + [i]];
        i := i + 1;
      }
    }

    /** The grouping loop followed by `sort.Sort(sortTime(manTimes))`. */
    method SortedManTimes() returns (manTimes: seq<Day>, manGrp: map<Day, seq<nat>>)
      requires |adjustments| > 0
      ensures manTimes == SortedTimes(adjustments, |adjustments|)
      ensures manGrp == Grouping(adjustments, |adjustments|).1
    {
      manTimes, manGrp := GroupAdjustments();
      var a := new Day[|manTimes|](i requires 0 <= i < |manTimes| => manTimes[i]);
      assert a[..] == manTimes;
      SortTimes(a);
      SortedTimesPermutes(adjustments, |adjustments|);
      SortedUnique(a[..], SortedTimes(adjustments, |adjustments|));
      manTimes := a[..];
    }

    /** `Project(years)`. The source indexes `manTimes[0]`, so it needs an adjustment. */
    method Project(years: int, hooks: Hooks) returns (recs: seq<Record>)
      requires Valid() && |adjustments| > 0
      modifies this
      ensures Valid()
      ensures Contents() == Projected(old(Contents()), hooks, years).0
      ensures recs == Projected(old(Contents()), hooks, years).1.recs
    {
      var manTimes, manGrp := SortedManTimes();
      ManTimes(adjustments);
      var from := manTimes[0];
      var to := AddDate(from, years, 0, 0);
      var log := AdjustAll(manTimes, manGrp, hooks);
      log := RunDays(manTimes[|manTimes| - 1], to, log, hooks);
      recs := log.recs;
    }

    /** `Stats()`: yearly expenses and income summed over the transactions, then averaged per
        month. It changes nothing. */
    method Stats() returns (stats: PortfolioStats)
      ensures stats.averageMonthlyExpenses == YearlyExpenses(transactions) / 12.0
      ensures stats.averageMonthlyIncome == YearlyIncome(transactions) / 12.0
      ensures stats.averageMonthlyGrowth == stats.averageMonthlyIncome - stats.averageMonthlyExpenses
    {
      var yearlyExpenses, yearlyIncome := 0.0, 0.0;
      var k := 0;
      while k < |transactions|
        invariant k <= |transactions|
        invariant yearlyExpenses == YearlyExpenses(transactions[..k])
        invariant yearlyIncome == YearlyIncome(transactions[..k])
      {
        var t := transactions[k];
        if t.toAccount.None? {
          yearlyExpenses := yearlyExpenses + t.amount * t.schedule.YearlyFactor();
        } else if |t.fromAccounts| > 0 {
          yearlyIncome := yearlyIncome + t.amount * t.schedule.YearlyFactor();
        }
        YearlySnoc(transactions[..k], t);
        assert transactions[..k + 1] == transactions[..k] + [t];
        k := k + 1;
      }
      assert transactions[..k] == transactions;
      stats := PortfolioStats(yearlyExpenses / 12.0, yearlyIncome / 12.0, (yearlyIncome - yearlyExpenses) / 12.0);
    }
  }
}
