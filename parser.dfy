/** The part of parser.go that runs after JSON decoding and after the frequency regex has matched:
    the name/argument dispatch of `jsonFrequency.UnmarshalJSON`, and the account resolution of
    `Parse` that builds a portfolio through `NewAccount`, `NewManualAdjustment` and
    `NewScheduledTransaction`. */
module LedgerParser {
  import opened Results
  import opened Dates
  import opened Text
  import opened Strconv
  import opened Ledger

  /** The errors the two parsers return. */
  datatype ParseError =
    | InvalidWeekday(arg: string)    // "invalid weekday: %s"
    | BadDay(cause: NumError)        // the error of strconv.Atoi, returned as it is
    | InvalidFrequency(text: string) // "invalid frequency: %s"
    | InvalidAccount(id: int)        // "invalid account: %d"

  // ---------------------------------------------------------------------------------------
  // Frequencies

  /** The argument list: the third submatch, surrounding parentheses trimmed, split at commas. */
  function Args(matches: seq<string>): (args: seq<string>)
    ensures |matches| > 2 ==> |args| >= 1
    ensures |matches| <= 2 ==> args == []
  {
    if |matches| > 2 then Split(Trim(matches[2], {'(', ')'}), ',') else []
  }

  /** `jsonFrequency.UnmarshalJSON` from the regex submatches of s onwards: "Weekly" takes a
      weekday name (default Sunday), "Monthly" a day number (default 1); only the first argument
      is read. */
  function ParseFrequency(s: string, matches: seq<string>): (r: Result<Frequency, ParseError>)
    ensures r.Ok? ==> |matches| > 1 && (matches[1] == "Weekly" || matches[1] == "Monthly")
  {
    if |matches| > 1 && matches[1] == "Weekly" then
      var args := Args(matches);
      if |args| > 0 then
        match WeekdayNamed(args[0])
        case None => Err(InvalidWeekday(args[0]))
        case Some(wd) => Ok(Weekly(wd))
      else Ok(Weekly(Sunday))
    else if |matches| > 1 && matches[1] == "Monthly" then
      var args := Args(matches);
      if |args| > 0 then
        match Atoi(args[0])
        case Err(e) => Err(BadDay(e))
        case Ok(d) => Ok(Monthly(d))
      else Ok(Monthly(1))
    else Err(InvalidFrequency(s))
  }

  /** Only the names Weekly and Monthly are accepted: every other name, and a string the regex did
      not match at all, is an invalid frequency; a known name fails only on its argument. */
  lemma OnlyWeeklyAndMonthly(s: string, matches: seq<string>)
    ensures ParseFrequency(s, matches) == Err(InvalidFrequency(s)) <==>
      |matches| <= 1 || (matches[1] != "Weekly" && matches[1] != "Monthly")
    ensures ParseFrequency(s, matches).Err? && |matches| > 1 && matches[1] == "Weekly" ==>
      ParseFrequency(s, matches).error.InvalidWeekday?
    ensures ParseFrequency(s, matches).Err? && |matches| > 1 && matches[1] == "Monthly" ==>
      ParseFrequency(s, matches).error.BadDay?
  {
  }

  /** Trimming the parentheses off "(" + a + ")" gives a back when a neither starts nor ends with
      a parenthesis. */
  lemma TrimParenthesised(a: string)
    requires a == [] || (a[0] !in {'(', ')'} && a[|a| - 1] !in {'(', ')'})
    ensures Trim("(" + a + ")", {'(', ')'}) == a
  {
    var cut := {'(', ')'};
    var s := "(" + a + ")";
    if a == [] {
      assert s == "()" && s[1..] == ")" && s[1..][1..] == "";
      assert TrimLeft(s, cut) == "";
    } else {
      assert s[1..] == a + ")";
      assert TrimLeft(s, cut) == TrimLeft(a + ")", cut) == a + ")";
      var l := a + ")";
      assert l[..|l| - 1] == a;
      assert TrimRight(l, cut) == TrimRight(a, cut) == a;
    }
  }

  /** A regex match has three submatches, so there is always at least one argument, and a bare
      "Weekly" or "Monthly" (an empty third submatch) is rejected on the empty argument. */
  lemma BareNameRejected(s: string)
    ensures ParseFrequency(s, [s, "Weekly", ""]) == Err(InvalidWeekday(""))
    ensures ParseFrequency(s, [s, "Monthly", ""]) == Err(BadDay(Syntax("")))
  {
    TrimParenthesised("");
    assert Trim("", {'(', ')'}) == "" by {
      assert "(" + "" + ")" == "()";
    }
    assert Split("", ',') == [""];
    AtoiNeedsDigits("");
  }

  /** "Weekly(name)" with a single argument parses to the weekly frequency of that weekday when name
      is, letter for letter, one of the seven keys of `daysOfWeek`; any other name is an invalid
      weekday. */
  lemma WeeklyArgument(s: string, name: string)
    requires name == [] || (name[0] !in {'(', ')'} && name[|name| - 1] !in {'(', ')'})
    requires ',' !in name
    ensures WeekdayNamed(name).Some? ==>
      ParseFrequency(s, [s, "Weekly", "(" + name + ")"]) == Ok(Weekly(WeekdayNamed(name).value))
    ensures WeekdayNamed(name).None? ==>
      ParseFrequency(s, [s, "Weekly", "(" + name + ")"]) == Err(InvalidWeekday(name))
  {
    FirstArgument(s, "Weekly", name);
  }

  /** "Monthly(n)" with n written as `strconv.Itoa` writes it parses to the monthly frequency of
      day n, for every n that fits in an int64 (zero and negative days included). */
  lemma MonthlyArgument(s: string, n: int)
    requires -Int64Bound <= n < Int64Bound
    ensures ParseFrequency(s, [s, "Monthly", "(" + Itoa(n) + ")"]) == Ok(Monthly(n))
  {
    var a := Itoa(n);
    ItoaPlain(n);
    assert a[0] == '-' || IsDigit(a[0]);
    assert a[|a| - 1] == '-' || IsDigit(a[|a| - 1]);
    assert forall i :: 0 <= i < |a| ==> a[i] != ',';
    FirstArgument(s, "Monthly", a);
    AtoiItoa(n);
    var m := [s, "Monthly", "(" + a + ")"];
    assert m[1] != "Weekly" by {
      assert m[1][0] != "Weekly"[0];
    }
  }

  lemma FirstArgument(s: string, name: string, a: string)
    requires a == [] || (a[0] !in {'(', ')'} && a[|a| - 1] !in {'(', ')'})
    requires ',' !in a
    ensures Args([s, name, "(" + a + ")"])[0] == a
  {
    TrimParenthesised(a);
    SplitFirst(a, ',');
    assert IndexOf(a, ',') == |a|;
    assert a[..|a|] == a;
  }

  /** Itoa writes a sign and digits only: no parenthesis and no comma. */
  lemma ItoaPlain(n: int)
    ensures forall i :: 0 <= i < |Itoa(n)| ==> Itoa(n)[i] == '-' || IsDigit(Itoa(n)[i])
  {
    if n < 0 {
      DigitsPlain(-n);
    } else {
      DigitsPlain(n);
    }
  }

  lemma {:induction false} DigitsPlain(u: nat)
    ensures forall i :: 0 <= i < |Digits(u)| ==> IsDigit(Digits(u)[i])
    decreases u
  {
    if u >= 10 {
      DigitsPlain(u / 10);
    }
  }

  // ---------------------------------------------------------------------------------------
  // Portfolio specs

  /** One entry of the decoded `Accounts` list. */
  datatype AccountSpec = AccountSpec(id: int, name: string)

  /** One entry of the decoded `ManualAdjustments` list. */
  datatype AdjustmentSpec = AdjustmentSpec(account: int, time: Day, balance: real)

  /** One entry of the decoded `ScheduledTransactions` list; 0 as an account ID means none. */
  datatype TransactionSpec = TransactionSpec(
    fromAccount: int,
    toAccount: int,
    description: string,
    amount: real,
    frequency: Frequency)

  /** `portfolioSpec` after decoding. */
  datatype PortfolioSpec = PortfolioSpec(
    accounts: seq<AccountSpec>,
    adjustments: seq<AdjustmentSpec>,
    transactions: seq<TransactionSpec>)

  /** `accountsMap` after the first loop of `Parse`: each ID to the index of the account made for
      it, a later entry with the same ID overwriting an earlier one. */
  function AccountIds(specs: seq<AccountSpec>): (ids: map<int, nat>)
    ensures forall id :: id in ids ==> ids[id] < |specs|
  {
    if specs == [] then map[]
    else AccountIds(specs[..|specs| - 1])[specs[|specs| - 1].id := |specs| - 1]
  }

  /** An ID resolves exactly when some account declares it, and then to the last account that
      does. */
  lemma {:induction false} LastIdWins(specs: seq<AccountSpec>, id: int)
    ensures id in AccountIds(specs) <==> exists i :: 0 <= i < |specs| && specs[i].id == id
    ensures id in AccountIds(specs) ==>
      specs[AccountIds(specs)[id]].id == id &&
      forall j :: AccountIds(specs)[id] < j < |specs| ==> specs[j].id != id
    decreases |specs|
  {
    if specs != [] {
      var init := specs[..|specs| - 1];
      LastIdWins(init, id);
      if specs[|specs| - 1].id != id {
        if exists i :: 0 <= i < |specs| && specs[i].id == id {
          var i :| 0 <= i < |specs| && specs[i].id == id;
          assert init[i].id == id;
        }
        if id in AccountIds(init) {
          assert specs[AccountIds(init)[id]] == init[AccountIds(init)[id]];
        }
      }
    }
  }

  /** The accounts `Parse` creates: one zero-balance account per spec entry, in spec order. */
  function NewAccounts(specs: seq<AccountSpec>): (r: seq<Account>)
    ensures |r| == |specs|
  {
    seq(|specs|, i requires 0 <= i < |specs| => Account(specs[i].name, 0.0))
  }

  /** The second loop of `Parse`: each adjustment resolved and inserted in time order; the first
      unknown account ID aborts. */
  function AdjustmentsFrom(specs: seq<AdjustmentSpec>, ids: map<int, nat>): (r: Result<seq<ManualAdjustment>, ParseError>)
    ensures r.Ok? ==> |r.value| == |specs|
    ensures r.Ok? ==> forall j :: 0 <= j < |r.value| ==> r.value[j].account in ids.Values
  {
    if specs == [] then Ok([])
    else
      match AdjustmentsFrom(specs[..|specs| - 1], ids)
      case Err(e) => Err(e)
      case Ok(adjs) =>
        var m := specs[|specs| - 1];
        if m.account !in ids then Err(InvalidAccount(m.account))
        else
          var r := InsertSorted(adjs, ManualAdjustment(ids[m.account], m.time, m.balance, false));
          InsertAddsOne(adjs, ManualAdjustment(ids[m.account], m.time, m.balance, false));
          assert forall j :: 0 <= j < |r| ==> r[j] in multiset(r);
          Ok(r)
  }

  /** Resolves a transaction's account ID: 0 is no account, an unknown ID is an error. */
  function Resolve(id: int, ids: map<int, nat>): (r: Result<Option<nat>, ParseError>)
    ensures r.Ok? <==> id == 0 || id in ids
    ensures r.Ok? ==> (r.value.None? <==> id == 0)
    ensures r.Ok? && r.value.Some? ==> r.value.value == ids[id]
    ensures r.Err? ==> r.error == InvalidAccount(id)
  {
    if id == 0 then Ok(None)
    else if id in ids then Ok(Some(ids[id]))
    else Err(InvalidAccount(id))
  }

  /** The third loop of `Parse`: each transaction with its accounts resolved, from before to, in
      spec order; the first unknown ID aborts. */
  function TransactionsFrom(specs: seq<TransactionSpec>, ids: map<int, nat>): (r: Result<seq<ScheduledTransaction>, ParseError>)
    ensures r.Ok? ==> |r.value| == |specs|
  {
    if specs == [] then Ok([])
    else
      match TransactionsFrom(specs[..|specs| - 1], ids)
      case Err(e) => Err(e)
      case Ok(ts) =>
        var t := specs[|specs| - 1];
        match Resolve(t.fromAccount, ids)
        case Err(e) => Err(e)
        case Ok(from) =>
          match Resolve(t.toAccount, ids)
          case Err(e) => Err(e)
          case Ok(to) => Ok(ts + [ScheduledTransaction(t.description, t.frequency, from, to, t.amount, ZeroTime)])
  }

  /** `Parse` as a value: the portfolio it returns, or its error. */
  function Parsed(spec: PortfolioSpec): (r: Result<State, ParseError>)
    ensures r.Ok? ==> (|r.value.accounts| == |spec.accounts| &&
      |r.value.adjustments| == |spec.adjustments| && |r.value.transactions| == |spec.transactions|)
  {
    var ids := AccountIds(spec.accounts);
    match AdjustmentsFrom(spec.adjustments, ids)
    case Err(e) => Err(e)
    case Ok(adjs) =>
      match TransactionsFrom(spec.transactions, ids)
      case Err(e) => Err(e)
      case Ok(ts) => Ok(State(NewAccounts(spec.accounts), ts, adjs))
  }

  /** The adjustments of the specs, each pointing at its resolved account. */
  function Resolved(specs: seq<AdjustmentSpec>, ids: map<int, nat>): (r: seq<ManualAdjustment>)
    requires forall i :: 0 <= i < |specs| ==> specs[i].account in ids
    ensures |r| == |specs|
  {
    seq(|specs|, i requires 0 <= i < |specs| =>
      ManualAdjustment(ids[specs[i].account], specs[i].time, specs[i].balance, false))
  }

  /** Adjustments come out sorted by time whatever the input order. */
  lemma {:induction false} AdjustmentsSorted(specs: seq<AdjustmentSpec>, ids: map<int, nat>)
    ensures AdjustmentsFrom(specs, ids).Ok? ==> SortedByTime(AdjustmentsFrom(specs, ids).value)
    decreases |specs|
  {
    if specs != [] {
      var init := specs[..|specs| - 1];
      AdjustmentsSorted(init, ids);
      var r := AdjustmentsFrom(init, ids);
      if AdjustmentsFrom(specs, ids).Ok? {
        var m := specs[|specs| - 1];
        InsertKeepsSorted(r.value, ManualAdjustment(ids[m.account], m.time, m.balance, false));
      }
    }
  }

  /** Nothing is lost or duplicated: the adjustments are exactly the spec entries, resolved. */
  lemma {:induction false} AdjustmentsPermuted(specs: seq<AdjustmentSpec>, ids: map<int, nat>)
    ensures AdjustmentsFrom(specs, ids).Ok? ==>
      (forall i :: 0 <= i < |specs| ==> specs[i].account in ids) &&
      multiset(AdjustmentsFrom(specs, ids).value) == multiset(Resolved(specs, ids))
    decreases |specs|
  {
    AdjustmentsResolved(specs, ids);
    if specs != [] && AdjustmentsFrom(specs, ids).Ok? {
      var init := specs[..|specs| - 1];
      AdjustmentsResolved(init, ids);
      AdjustmentsPermuted(init, ids);
      var r := AdjustmentsFrom(init, ids);
      var m := specs[|specs| - 1];
      var a := ManualAdjustment(ids[m.account], m.time, m.balance, false);
      InsertAddsOne(r.value, a);
      assert Resolved(specs, ids) == Resolved(init, ids) + [a];
    }
  }

  /** The adjustments resolve exactly when every one of them names a declared account; otherwise
      the error names an account ID that no account declares. */
  lemma {:induction false} AdjustmentsResolved(specs: seq<AdjustmentSpec>, ids: map<int, nat>)
    ensures AdjustmentsFrom(specs, ids).Ok? <==> forall i :: 0 <= i < |specs| ==> specs[i].account in ids
    ensures AdjustmentsFrom(specs, ids).Err? ==>
      AdjustmentsFrom(specs, ids).error.InvalidAccount? && AdjustmentsFrom(specs, ids).error.id !in ids
    decreases |specs|
  {
    if specs != [] {
      var init := specs[..|specs| - 1];
      AdjustmentsResolved(init, ids);
      assert forall i :: 0 <= i < |init| ==> init[i] == specs[i];
    }
  }

  /** The transactions resolve exactly when every non-zero ID among them is declared; then the
      n-th transaction is the n-th spec entry, with 0 resolved to no account, cursor at zero time. */
  lemma {:induction false} TransactionsResolved(specs: seq<TransactionSpec>, ids: map<int, nat>)
    ensures TransactionsFrom(specs, ids).Ok? <==>
      forall i :: 0 <= i < |specs| ==> Resolve(specs[i].fromAccount, ids).Ok? && Resolve(specs[i].toAccount, ids).Ok?
    ensures TransactionsFrom(specs, ids).Ok? ==> forall i :: 0 <= i < |specs| ==>
      TransactionsFrom(specs, ids).value[i] == ScheduledTransaction(specs[i].description, specs[i].frequency,
        Resolve(specs[i].fromAccount, ids).value, Resolve(specs[i].toAccount, ids).value, specs[i].amount, ZeroTime)
    ensures TransactionsFrom(specs, ids).Err? ==>
      TransactionsFrom(specs, ids).error.InvalidAccount? && TransactionsFrom(specs, ids).error.id != 0 &&
      TransactionsFrom(specs, ids).error.id !in ids
    decreases |specs|
  {
    if specs != [] {
      var init := specs[..|specs| - 1];
      TransactionsResolved(init, ids);
      assert forall i :: 0 <= i < |init| ==> init[i] == specs[i];
    }
  }

  /** A parsed portfolio has one zero-balance account per spec entry in spec order, every
      reference resolved, and its adjustments sorted by time. */
  lemma ParsedPortfolio(spec: PortfolioSpec)
    ensures Parsed(spec).Ok? ==> WellFormed(Parsed(spec).value)
    ensures Parsed(spec).Ok? ==> Parsed(spec).value.accounts == NewAccounts(spec.accounts)
    ensures Parsed(spec).Ok? ==> SortedByTime(Parsed(spec).value.adjustments)
  {
    var ids := AccountIds(spec.accounts);
    AdjustmentsSorted(spec.adjustments, ids);
    AdjustmentsResolved(spec.adjustments, ids);
    TransactionsResolved(spec.transactions, ids);
    if Parsed(spec).Ok? {
      var st := Parsed(spec).value;
      assert forall id :: id in ids ==> ids[id] < |st.accounts|;
    }
  }

  // ---------------------------------------------------------------------------------------
  // The parser object

  /** `Parse(r)` after JSON decoding: builds the portfolio through its own constructors and
      returns it, or the first invalid account ID. */
  method Parse(spec: PortfolioSpec) returns (r: Result<Portfolio, ParseError>)
    ensures r.Ok? <==> Parsed(spec).Ok?
    ensures r.Ok? ==> fresh(r.value) && r.value.Valid() && r.value.Contents() == Parsed(spec).value
    ensures r.Err? ==> r.error == Parsed(spec).error
  {
    var p := new Portfolio();
    var ids: map<int, nat> := map[];
    var i := 0;
    while i < |spec.accounts|
      invariant i <= |spec.accounts| && fresh(p) && p.Valid()
      invariant ids == AccountIds(spec.accounts[..i])
      invariant p.Contents() == State(NewAccounts(spec.accounts[..i]), [], [])
    {
      var a := p.NewAccount(spec.accounts[i].name);
      assert spec.accounts[..i + 1][..i] == spec.accounts[..i];
      ids := ids[spec.accounts[i].id := a];
      i := i + 1;
    }
    assert spec.accounts[..i] == spec.accounts;
    var adjs := AdjustmentsStep(p, spec.adjustments, ids);
    if adjs.Some? {
      return Err(adjs.value);
    }
    var trs := TransactionsStep(p, spec.transactions, ids);
    if trs.Some? {
      return Err(trs.value);
    }
    return Ok(p);
  }

  /** The adjustment loop of `Parse`: resolve, then `NewManualAdjustment`; stop at the first
      unknown ID. */
  method AdjustmentsStep(p: Portfolio, specs: seq<AdjustmentSpec>, ids: map<int, nat>) returns (err: Option<ParseError>)
    requires p.Valid() && p.adjustments == [] && p.transactions == []
    requires forall id :: id in ids ==> ids[id] < |p.accounts|
    modifies p
    ensures p.Valid() && p.accounts == old(p.accounts) && p.transactions == []
    ensures err.Some? <==> AdjustmentsFrom(specs, ids).Err?
    ensures err.Some? ==> err.value == AdjustmentsFrom(specs, ids).error
    ensures err.None? ==> p.adjustments == AdjustmentsFrom(specs, ids).value
  {
    var i := 0;
    while i < |specs|
      invariant i <= |specs| && p.Valid() && p.accounts == old(p.accounts) && p.transactions == []
      invariant AdjustmentsFrom(specs[..i], ids).Ok?
      invariant p.adjustments == AdjustmentsFrom(specs[..i], ids).value
    {
      var m := specs[i];
      AdjustmentsFromSnoc(specs, ids, i);
      if m.account !in ids {
        AdjustmentsFromPrefixErr(specs, ids, i + 1);
        return Some(InvalidAccount(m.account));
      }
      p.NewManualAdjustment(ids[m.account], m.time, m.balance);
      i := i + 1;
    }
    assert specs[..i] == specs;
    return None;
  }

  /** The transaction loop of `Parse`: resolve from, then to, then `NewScheduledTransaction`; stop
      at the first unknown non-zero ID. */
  method TransactionsStep(p: Portfolio, specs: seq<TransactionSpec>, ids: map<int, nat>) returns (err: Option<ParseError>)
    requires p.Valid() && p.transactions == []
    requires forall id :: id in ids ==> ids[id] < |p.accounts|
    modifies p
    ensures p.Valid() && p.accounts == old(p.accounts) && p.adjustments == old(p.adjustments)
    ensures err.Some? <==> TransactionsFrom(specs, ids).Err?
    ensures err.Some? ==> err.value == TransactionsFrom(specs, ids).error
    ensures err.None? ==> p.transactions == TransactionsFrom(specs, ids).value
  {
    var i := 0;
    while i < |specs|
      invariant i <= |specs| && p.Valid() && p.accounts == old(p.accounts) && p.adjustments == old(p.adjustments)
      invariant TransactionsFrom(specs[..i], ids).Ok?
      invariant p.transactions == TransactionsFrom(specs[..i], ids).value
    {
      var t := specs[i];
      assert specs[..i + 1][..i] == specs[..i];
      var from: Option<nat> := None;
      if t.fromAccount != 0 {
        if t.fromAccount !in ids {
          TransactionsFromPrefixErr(specs, ids, i + 1);
          return Some(InvalidAccount(t.fromAccount));
        }
        from := Some(ids[t.fromAccount]);
      }
      var to: Option<nat> := None;
      if t.toAccount != 0 {
        if t.toAccount !in ids {
          TransactionsFromPrefixErr(specs, ids, i + 1);
          return Some(InvalidAccount(t.toAccount));
        }
        to := Some(ids[t.toAccount]);
      }
      var _ := p.NewScheduledTransaction(from, to, t.description, t.frequency, t.amount);
      i := i + 1;
    }
    assert specs[..i] == specs;
    return None;
  }

  /** One more turn of the adjustment loop. */
  lemma AdjustmentsFromSnoc(specs: seq<AdjustmentSpec>, ids: map<int, nat>, i: nat)
    requires i < |specs| && AdjustmentsFrom(specs[..i], ids).Ok?
    ensures AdjustmentsFrom(specs[..i + 1], ids) ==
      if specs[i].account !in ids then Err(InvalidAccount(specs[i].account))
      else Ok(InsertSorted(AdjustmentsFrom(specs[..i], ids).value,
        ManualAdjustment(ids[specs[i].account], specs[i].time, specs[i].balance, false)))
  {
    assert specs[..i + 1][..i] == specs[..i];
  }

  /** Once a prefix fails, the whole list fails with the same error. */
  lemma {:induction false} AdjustmentsFromPrefixErr(specs: seq<AdjustmentSpec>, ids: map<int, nat>, n: nat)
    requires n <= |specs| && AdjustmentsFrom(specs[..n], ids).Err?
    ensures AdjustmentsFrom(specs, ids) == AdjustmentsFrom(specs[..n], ids)
    decreases |specs| - n
  {
    if n < |specs| {
      assert specs[..n + 1][..n] == specs[..n];
      AdjustmentsFromPrefixErr(specs, ids, n + 1);
    } else {
      assert specs[..n] == specs;
    }
  }

  lemma {:induction false} TransactionsFromPrefixErr(specs: seq<TransactionSpec>, ids: map<int, nat>, n: nat)
    requires n <= |specs| && TransactionsFrom(specs[..n], ids).Err?
    ensures TransactionsFrom(specs, ids) == TransactionsFrom(specs[..n], ids)
    decreases |specs| - n
  {
    if n < |specs| {
      assert specs[..n + 1][..n] == specs[..n];
      TransactionsFromPrefixErr(specs, ids, n + 1);
    } else {
      assert specs[..n] == specs;
    }
  }
}
