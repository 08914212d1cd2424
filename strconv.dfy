/**
 * Go's 64-bit `int`, strconv.Atoi and decimal rendering (strconv.Itoa, fmt's %d).
 *
 * Atoi accepts an optional sign followed by one or more decimal digits (leading zeros
 * allowed) whose value fits in 64 bits; everything else is a syntax or range error.
 */
module StrConv {
  import opened Wrappers

  const MinInt: int := -0x8000_0000_0000_0000
  const MaxInt: int := 0x7fff_ffff_ffff_ffff

  /** The values of Go's `int` on a 64-bit platform. */
  type GoInt = n: int | MinInt <= n <= MaxInt

  /** `n + 1` on a Go `int`: two's-complement addition, so MaxInt wraps round to MinInt. */
  function Inc(n: GoInt): (r: GoInt)
    ensures r == (n - MinInt + 1) % 0x1_0000_0000_0000_0000 + MinInt
    ensures n < MaxInt ==> r > n
  {
    if n == MaxInt then MinInt else n + 1
  }

  predicate IsDigit(c: char) {
    '0' <= c <= '9'
  }

  predicate AllDigits(s: string) {
    forall i :: 0 <= i < |s| ==> IsDigit(s[i])
  }

  function DigitChar(d: nat): (c: char)
    requires d < 10
    ensures IsDigit(c)
  {
    ('0' as int + d) as char
  }

  function DigitValue(c: char): nat
    requires IsDigit(c)
  {
    c as int - '0' as int
  }

  /** The number a string of decimal digits denotes, most significant digit first. */
  function DigitsValue(s: string): nat
    requires AllDigits(s)
  {
    if s == [] then 0 else DigitsValue(s[..|s| - 1]) * 10 + DigitValue(s[|s| - 1])
  }

  /** The length of the run of decimal digits that starts at s[i]. */
  function DigitRun(s: string, i: nat): (n: nat)
    requires i <= |s|
    ensures i + n <= |s|
    ensures i + n < |s| ==> !IsDigit(s[i + n])
    decreases |s| - i
  {
    if i < |s| && IsDigit(s[i]) then 1 + DigitRun(s, i + 1) else 0
  }

  /** The run DigitRun measures is made of digits only. */
  lemma {:induction false} DigitRunAll(s: string, i: nat)
    requires i <= |s|
    ensures forall j :: i <= j < i + DigitRun(s, i) ==> IsDigit(s[j])
    decreases |s| - i
  {
    if i < |s| && IsDigit(s[i]) {
      DigitRunAll(s, i + 1);
    }
  }

  /** Digits from s[i] to s[i + n - 1], then a non-digit or the end: the run is n long. */
  lemma {:induction false} DigitRunExact(s: string, i: nat, n: nat)
    requires i + n <= |s|
    requires forall j :: i <= j < i + n ==> IsDigit(s[j])
    requires i + n == |s| || !IsDigit(s[i + n])
    ensures DigitRun(s, i) == n
    decreases n
  {
    if n > 0 {
      DigitRunExact(s, i + 1, n - 1);
    }
  }

  /** Digits `d` between `p` and a non-digit (or nothing) are a run of their own length. */
  lemma {:induction false} DigitRunOf(p: string, d: string, rest: string)
    requires AllDigits(d)
    requires rest == [] || !IsDigit(rest[0])
    ensures DigitRun(p + d + rest, |p|) == |d|
  {
    var s := p + d + rest;
    forall j | |p| <= j < |p| + |d|
      ensures IsDigit(s[j])
    {
      assert s[j] == d[j - |p|];
    }
    assert |p| + |d| < |s| ==> s[|p| + |d|] == rest[0];
    DigitRunExact(s, |p|, |d|);
  }

  /** Digits that start a string, before a non-digit or the end, are its leading run. */
  lemma {:induction false} DigitRunStart(d: string, rest: string)
    requires AllDigits(d)
    requires rest == [] || !IsDigit(rest[0])
    ensures DigitRun(d + rest, 0) == |d|
  {
    assert [] + d + rest == d + rest;
    DigitRunOf([], d, rest);
  }

  /** Digits that end a string are a run of their own length. */
  lemma {:induction false} DigitRunEnd(p: string, d: string)
    requires AllDigits(d)
    ensures DigitRun(p + d, |p|) == |d|
  {
    assert p + d + [] == p + d;
    DigitRunOf(p, d, []);
  }

  /** The largest value of Go's uint64, the widest ParseUint reads into. */
  const MaxUint64: int := 0xffff_ffff_ffff_ffff

  /** The value of the run of digits that starts `s` (0 when there is none). */
  function RunValue(s: string): nat {
    DigitRunAll(s, 0);
    DigitsValue(s[..DigitRun(s, 0)])
  }

  /** The decimal digits of `n`, without leading zeros. */
  function Decimal(n: nat): (s: string)
    ensures s != [] && AllDigits(s)
    ensures s == "0" <==> n == 0
    ensures |s| == 1 || s[0] != '0'
  {
    if n < 10 then [DigitChar(n)] else Decimal(n / 10) + [DigitChar(n % 10)]
  }

  /** strconv.Itoa, and fmt's %d on an int: a minus sign for negative values, then Decimal. */
  function Itoa(n: int): (r: string)
    ensures r != [] && (r[0] == '-' <==> n < 0)
    ensures AllDigits(if n < 0 then r[1..] else r)
  {
    if n < 0 then "-" + Decimal(-n) else Decimal(n)
  }

  /** The digits Atoi reads: `s` without one leading sign character. */
  function Unsigned(s: string): string {
    if s != [] && (s[0] == '-' || s[0] == '+') then s[1..] else s
  }

  /** The two errors strconv.Atoi reports. */
  datatype NumError = ErrSyntax | ErrRange

  /**
   * strconv.Atoi: the value and the error. The digits after the sign are read from the left,
   * and as soon as the digits read so far exceed what a uint64 holds the result is a range
   * error, whatever follows. Otherwise anything but one optional sign and digits is a syntax
   * error with value 0. On a range error the value is the nearest int (MaxInt or MinInt), as
   * strconv.ParseInt returns it.
   */
  function Atoi(s: string): (r: (GoInt, Option<NumError>))
    ensures r.1 == Some(ErrSyntax) <==>
      RunValue(Unsigned(s)) <= MaxUint64 && !(Unsigned(s) != [] && AllDigits(Unsigned(s)))
    ensures r.1 == Some(ErrSyntax) ==> r.0 == 0
    ensures r.1 == Some(ErrRange) ==> s != [] && r.0 == (if s[0] == '-' then MinInt else MaxInt)
  {
    var digits := Unsigned(s);
    if RunValue(digits) > MaxUint64 then
      (if s[0] == '-' then MinInt else MaxInt, Some(ErrRange))
    else if digits == [] || !AllDigits(digits) then (0, Some(ErrSyntax))
    else
      var v: int := if s[0] == '-' then -(DigitsValue(digits) as int) else DigitsValue(digits);
      if v < MinInt then (MinInt, Some(ErrRange))
      else if v > MaxInt then (MaxInt, Some(ErrRange))
      else (v, None)
  }

  /** A string of digits is its own leading run. */
  lemma {:induction false} RunValueAll(d: string)
    requires AllDigits(d)
    ensures RunValue(d) == DigitsValue(d)
  {
    DigitRunStart(d, []);
    assert d + [] == d;
    assert d[..|d|] == d;
  }

  /**
   * Digits that overflow a uint64 are a range error even when something other than a digit
   * follows them: Atoi("99999999999999999999x") is MaxInt with a range error.
   */
  lemma {:induction false} OverflowBeforeJunk(d: string, rest: string)
    requires AllDigits(d) && DigitsValue(d) > MaxUint64
    requires rest == [] || !IsDigit(rest[0])
    ensures Atoi(d + rest) == (MaxInt, Some(ErrRange))
    ensures Atoi("-" + d + rest) == (MinInt, Some(ErrRange))
  {
    assert d != [];
    assert IsDigit(d[0]);
    DigitRunStart(d, rest);
    assert (d + rest)[..|d|] == d;
    assert Unsigned(d + rest) == d + rest;
    assert Unsigned("-" + d + rest) == d + rest;
  }

  /** How %d prints some int: an optional '-', then digits without leading zeros, and no "-0". */
  predicate Canonical(s: string) {
    var digits := if s != [] && s[0] == '-' then s[1..] else s;
    && digits != []
    && AllDigits(digits)
    && (|digits| == 1 || digits[0] != '0')
    && (s != [] && s[0] == '-' ==> digits != "0")
  }

  lemma {:induction false} DecimalValue(n: nat)
    ensures DigitsValue(Decimal(n)) == n
  {
    if n >= 10 {
      DecimalValue(n / 10);
      var s := Decimal(n);
      assert s[..|s| - 1] == Decimal(n / 10);
    }
  }

  lemma {:induction false} LeadingNonZeroPositive(s: string)
    requires s != [] && AllDigits(s) && s[0] != '0'
    ensures DigitsValue(s) >= 1
  {
    if |s| > 1 {
      LeadingNonZeroPositive(s[..|s| - 1]);
    }
  }

  lemma {:induction false} ValueDecimal(s: string)
    requires s != [] && AllDigits(s)
    requires |s| == 1 || s[0] != '0'
    ensures Decimal(DigitsValue(s)) == s
  {
    var n := DigitsValue(s);
    var d := DigitValue(s[|s| - 1]);
    if |s| == 1 {
      assert s[..0] == [];
      assert DigitsValue(s[..0]) == 0;
      assert n == d;
    } else {
      var p := s[..|s| - 1];
      ValueDecimal(p);
      LeadingNonZeroPositive(p);
      var q := DigitsValue(p);
      assert n == q * 10 + d;
      assert n / 10 == q && n % 10 == d;
      assert s == p + [s[|s| - 1]];
    }
  }

  lemma {:induction false} AtoiUnsigned(d: string)
    requires d != [] && AllDigits(d) && DigitsValue(d) <= MaxInt
    ensures Atoi(d) == (DigitsValue(d), None)
  {
    assert IsDigit(d[0]);
    assert Unsigned(d) == d;
    RunValueAll(d);
  }

  lemma {:induction false} AtoiNegative(d: string)
    requires d != [] && AllDigits(d) && MinInt <= -(DigitsValue(d) as int)
    ensures Atoi("-" + d) == (-(DigitsValue(d) as int), None)
  {
    assert Unsigned("-" + d) == d;
    RunValueAll(d);
  }

  /** Every int survives printing with %d and reading back with Atoi. */
  lemma {:induction false} AtoiItoa(n: GoInt)
    ensures Atoi(Itoa(n)) == (n, None)
  {
    var m: int := n;
    if m < 0 {
      DecimalValue(-m);
      AtoiNegative(Decimal(-m));
    } else {
      DecimalValue(m);
      AtoiUnsigned(Decimal(m));
    }
  }

  /** What %d prints is canonical. */
  lemma {:induction false} ItoaCanonical(n: int)
    ensures Canonical(Itoa(n))
  {
    if n < 0 {
      assert Itoa(n)[1..] == Decimal(-n);
    }
  }

  /** A canonical numeral that Atoi accepts is printed back unchanged. */
  lemma {:induction false} ItoaAtoi(s: string)
    requires Canonical(s) && Atoi(s).1.None?
    ensures Itoa(Atoi(s).0) == s
  {
    var digits := Unsigned(s);
    if s[0] == '-' {
      ValueDecimal(digits);
      LeadingNonZeroPositive(digits);
      assert s == "-" + digits;
    } else {
      assert !IsDigit('+');
      ValueDecimal(digits);
    }
  }

  /** Itoa writes nothing but digits and a leading minus sign. */
  lemma {:induction false} ItoaExcludes(n: int, c: char)
    requires !IsDigit(c) && c != '-'
    ensures c !in Itoa(n)
  {
    var r := Itoa(n);
    if n < 0 {
      assert r == [r[0]] + r[1..];
    }
  }

  lemma {:induction false} DecimalTwoDigits(n: nat)
    requires 10 <= n < 100
    ensures Decimal(n) == [DigitChar(n / 10), DigitChar(n % 10)]
  {
  }

  lemma {:induction false} DecimalThreeDigits(n: nat)
    requires 100 <= n < 1000
    ensures Decimal(n) == [DigitChar(n / 100), DigitChar(n / 10 % 10), DigitChar(n % 10)]
  {
    DecimalTwoDigits(n / 10);
  }
}
