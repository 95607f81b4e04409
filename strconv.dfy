/** Go's `strconv.Atoi` on a 64-bit platform, as the Monthly argument parsers call it. */
module Strconv {
  import opened Results

  const MaxUint64: int := 0x1_0000_0000_0000_0000 - 1
  /** 2^63: one more than the largest int64, and the magnitude of the smallest. */
  const Int64Bound: int := 0x8000_0000_0000_0000

  /** `*strconv.NumError` with Func "Atoi": the input is kept whole, the cause is syntax or range. */
  datatype NumError = Syntax(num: string) | Range(num: string)

  datatype Failure = BadDigit | Overflow

  predicate IsDigit(c: char)
  {
    '0' <= c <= '9'
  }

  function DigitValue(c: char): int
    requires IsDigit(c)
  {
    c as int - '0' as int
  }

  /** The digit loop of `strconv.ParseUint` in base 10, from accumulated value acc: a non-digit is a
      syntax error; a value above 2^64 - 1 is a range error as soon as it arises. */
  function Scan(ds: string, acc: nat): (r: Result<nat, Failure>)
    requires acc <= MaxUint64
    ensures r.Ok? ==> r.value <= MaxUint64
  {
    if ds == [] then Ok(acc)
    else if !IsDigit(ds[0]) then Err(BadDigit)
    else if acc * 10 + DigitValue(ds[0]) > MaxUint64 then Err(Overflow)
    else Scan(ds[1..], acc * 10 + DigitValue(ds[0]))
  }

  /** `strconv.Atoi(s)`: an optional '+' or '-', then at least one decimal digit, and a value
      that fits in int64. Every error carries the whole input. */
  function Atoi(s: string): (r: Result<int, NumError>)
    ensures r.Ok? ==> -Int64Bound <= r.value < Int64Bound
    ensures r.Err? ==> r.error.num == s
  {
    if s == [] then Err(Syntax(s))
    else
      var signed := s[0] == '+' || s[0] == '-';
      var ds := if signed then s[1..] else s;
      if ds == [] then Err(Syntax(s))
      else match Scan(ds, 0)
        case Err(BadDigit) => Err(Syntax(s))
        case Err(Overflow) => Err(Range(s))
        case Ok(u) =>
          if s[0] == '-' then (if u > Int64Bound then Err(Range(s)) else Ok(-(u as int)))
          else if u >= Int64Bound then Err(Range(s)) else Ok(u as int)
  }

  function DigitChar(d: int): (c: char)
    requires 0 <= d < 10
    ensures IsDigit(c) && DigitValue(c) == d
  {
    ('0' as int + d) as char
  }

  /** Decimal digits of u, most significant first, without leading zeros (`strconv.Itoa` for u >= 0). */
  function Digits(u: nat): (ds: string)
    ensures |ds| >= 1
    decreases u
  {
    if u < 10 then [DigitChar(u)] else Digits(u / 10) + [DigitChar(u % 10)]
  }

  /** `strconv.Itoa`. */
  function Itoa(n: int): string
  {
    if n < 0 then "-" + Digits(-n) else Digits(n)
  }

  /** Scanning one more character continues from where the shorter scan stopped. */
  lemma {:induction false} ScanSnoc(ds: string, c: char, acc: nat)
    requires acc <= MaxUint64
    ensures Scan(ds + [c], acc) ==
      match Scan(ds, acc)
      case Err(f) => Err(f)
      case Ok(v) => Scan([c], v)
    decreases |ds|
  {
    if ds != [] {
      assert (ds + [c])[0] == ds[0] && (ds + [c])[1..] == ds[1..] + [c];
      if IsDigit(ds[0]) && acc * 10 + DigitValue(ds[0]) <= MaxUint64 {
        ScanSnoc(ds[1..], c, acc * 10 + DigitValue(ds[0]));
      }
    }
  }

  lemma {:induction false} ScanDigits(u: nat)
    requires u <= MaxUint64
    ensures Scan(Digits(u), 0) == Ok(u)
    decreases u
  {
    if u >= 10 {
      ScanDigits(u / 10);
      ScanSnoc(Digits(u / 10), DigitChar(u % 10), 0);
    }
  }

  /** Atoi reads back every int64 that Itoa writes. */
  lemma AtoiItoa(n: int)
    requires -Int64Bound <= n < Int64Bound
    ensures Atoi(Itoa(n)) == Ok(n)
  {
    if n < 0 {
      ScanDigits(-n);
      var s := Itoa(n);
      assert s[0] == '-' && s[1..] == Digits(-n);
    } else {
      ScanDigits(n);
      var s := Digits(n);
      assert s[0] != '+' && s[0] != '-' by {
        if n >= 10 { assert s[0] == Digits(n / 10)[0]; FirstIsDigit(n / 10); }
      }
    }
  }

  lemma {:induction false} FirstIsDigit(u: nat)
    ensures IsDigit(Digits(u)[0])
    decreases u
  {
    if u >= 10 { FirstIsDigit(u / 10); }
  }

  /** The empty string and a lone sign are syntax errors. */
  lemma AtoiNeedsDigits(s: string)
    requires s == "" || s == "+" || s == "-"
    ensures Atoi(s) == Err(Syntax(s))
  {
  }
}
