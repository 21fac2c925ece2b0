/**
 Unsigned decimal numerals, as the operator reads and writes them: the order of numerals,
 `strconv.ParseUint`, and the `%d` verb of `fmt.Sprintf`.
 */
module Decimal {
  import opened Basics

  const UINT64_LIMIT: nat := 0x1_0000_0000_0000_0000

  predicate IsDigit(c: char) {
    '0' <= c <= '9'
  }

  predicate AllDigits(s: string) {
    forall i :: 0 <= i < |s| ==> IsDigit(s[i])
  }

  function DigitValue(c: char): (d: nat)
    requires IsDigit(c)
    ensures d <= 9
  {
    c as int - '0' as int
  }

  function DigitChar(d: nat): (c: char)
    requires d <= 9
    ensures IsDigit(c) && DigitValue(c) == d
  {
    ('0' as int + d) as char
  }

  function Pow10(n: nat): (p: nat)
    ensures p > 0
  {
    if n == 0 then 1 else 10 * Pow10(n - 1)
  }

  /** The number a digit string denotes; leading zeros are allowed here. */
  function Value(s: string): nat
    requires AllDigits(s)
  {
    if s == [] then 0 else DigitValue(s[0]) * Pow10(|s| - 1) + Value(s[1..])
  }

  /** The language of `^(0|[1-9][0-9]*)$`. */
  predicate Canonical(s: string) {
    AllDigits(s) && s != [] && (s == "0" || s[0] != '0')
  }

  function Repeat(c: char, n: nat): (s: string)
    ensures |s| == n && forall i :: 0 <= i < n ==> s[i] == c
  {
    seq(n, i => c)
  }

  /** `strconv.ParseUint(s, 10, 64)` when it reports no error. */
  function ParseUint(s: string): (r: Option<nat>)
    ensures r.Some? <==> s != [] && AllDigits(s) && Value(s) < UINT64_LIMIT
  {
    if s != [] && AllDigits(s) && Value(s) < UINT64_LIMIT then Some(Value(s)) else None
  }

  /** The number `strconv.ParseUint` returns next to an error the caller drops: 0 for a syntax
      error, the largest uint64 for an overflow. */
  function ParseUintOrDefault(s: string): nat {
    if s == [] || !AllDigits(s) then 0
    else if Value(s) < UINT64_LIMIT then Value(s)
    else UINT64_LIMIT - 1
  }

  /** The `%d` verb on a natural number. */
  function Numeral(n: nat): (s: string)
    ensures s != []
  {
    if n < 10 then [DigitChar(n)] else Numeral(n / 10) + [DigitChar(n % 10)]
  }

  lemma ScaleMonotone(a: nat, b: nat, p: nat)
    requires a <= b
    ensures a * p <= b * p
  {
    assert b * p == a * p + (b - a) * p;
  }

  lemma {:induction false} ValueBound(s: string)
    requires AllDigits(s)
    ensures Value(s) < Pow10(|s|)
  {
    if s != [] {
      ValueBound(s[1..]);
      ScaleMonotone(DigitValue(s[0]), 9, Pow10(|s| - 1));
    }
  }

  lemma HeadDecides(a: nat, b: nat, p: nat, x: nat, y: nat)
    requires a < b && x < p
    ensures a * p + x < b * p + y
  {
    ScaleMonotone(a + 1, b, p);
    assert (a + 1) * p == a * p + p;
  }

  /** On digit strings of one length the first digit decides, and ties pass to the tails. */
  lemma HeadOrder(s: string, t: string)
    requires AllDigits(s) && AllDigits(t) && |s| == |t| > 0
    ensures s[0] < t[0] ==> Value(s) < Value(t)
    ensures s[0] == t[0] ==> (Value(s) <= Value(t) <==> Value(s[1..]) <= Value(t[1..]))
  {
    if s[0] < t[0] {
      ValueBound(s[1..]);
      HeadDecides(DigitValue(s[0]), DigitValue(t[0]), Pow10(|s| - 1), Value(s[1..]), Value(t[1..]));
    }
  }

  lemma {:induction false} ValueInjective(s: string, t: string)
    requires AllDigits(s) && AllDigits(t) && |s| == |t| && Value(s) == Value(t)
    ensures s == t
  {
    if s != [] {
      HeadOrder(s, t);
      HeadOrder(t, s);
      ValueInjective(s[1..], t[1..]);
      assert s == [s[0]] + s[1..] && t == [t[0]] + t[1..];
    }
  }

  lemma {:induction false} Pow10Monotone(m: nat, n: nat)
    requires m <= n
    ensures Pow10(m) <= Pow10(n)
  {
    if m < n {
      Pow10Monotone(m, n - 1);
    }
  }

  lemma CanonicalLowerBound(s: string)
    requires Canonical(s) && |s| > 1
    ensures Pow10(|s| - 1) <= Value(s)
  {
    ScaleMonotone(1, DigitValue(s[0]), Pow10(|s| - 1));
  }

  /** Numeric order on canonical numerals is length first, then digit by digit. */
  lemma ShorterIsSmaller(s: string, t: string)
    requires Canonical(s) && Canonical(t) && |s| < |t|
    ensures Value(s) < Value(t)
  {
    ValueBound(s);
    Pow10Monotone(|s|, |t| - 1);
    CanonicalLowerBound(t);
  }

  lemma CanonicalInjective(s: string, t: string)
    requires Canonical(s) && Canonical(t) && Value(s) == Value(t)
    ensures s == t
  {
    if |s| < |t| {
      ShorterIsSmaller(s, t);
    } else if |t| < |s| {
      ShorterIsSmaller(t, s);
    } else {
      ValueInjective(s, t);
    }
  }

  lemma {:induction false} ValueAppend(s: string, c: char)
    requires AllDigits(s) && IsDigit(c)
    ensures AllDigits(s + [c]) && Value(s + [c]) == 10 * Value(s) + DigitValue(c)
  {
    var t := s + [c];
    if s == [] {
      assert t[1..] == [];
    } else {
      assert t[1..] == s[1..] + [c];
      ValueAppend(s[1..], c);
      ShiftDigits(DigitValue(s[0]), Pow10(|s| - 1), Value(s[1..]), DigitValue(c));
    }
  }

  lemma ShiftDigits(d: nat, p: nat, v: nat, e: nat)
    ensures d * (10 * p) + (10 * v + e) == 10 * (d * p + v) + e
  {
  }

  lemma {:induction false} NumeralIsCanonical(n: nat)
    ensures Canonical(Numeral(n)) && Value(Numeral(n)) == n
  {
    if n < 10 {
      assert Numeral(n)[1..] == [];
    } else {
      NumeralIsCanonical(n / 10);
      ValueAppend(Numeral(n / 10), DigitChar(n % 10));
      assert Numeral(n / 10) != "0";
    }
  }

  lemma NumeralOfValue(s: string)
    requires Canonical(s)
    ensures Numeral(Value(s)) == s
  {
    NumeralIsCanonical(Value(s));
    CanonicalInjective(Numeral(Value(s)), s);
  }

  lemma {:induction false} NinesValue(n: nat)
    ensures AllDigits(Repeat('9', n)) && Value(Repeat('9', n)) == Pow10(n) - 1
  {
    if n > 0 {
      NinesValue(n - 1);
      assert Repeat('9', n)[1..] == Repeat('9', n - 1);
    }
  }

  lemma {:induction false} ZerosValue(n: nat)
    ensures AllDigits(Repeat('0', n)) && Value(Repeat('0', n)) == 0
  {
    if n > 0 {
      ZerosValue(n - 1);
      assert Repeat('0', n)[1..] == Repeat('0', n - 1);
    }
  }

  /** A canonical numeral that fits into 64 bits has at most 20 digits. */
  lemma Uint64Digits(s: string)
    requires Canonical(s) && Value(s) < UINT64_LIMIT
    ensures |s| <= 20
  {
    assert Pow10(20) == 100000000000000000000 by {
      assert Pow10(4) == 10000;
      assert Pow10(8) == 100000000;
      assert Pow10(12) == 1000000000000;
      assert Pow10(16) == 10000000000000000;
    }
    if |s| > 20 {
      CanonicalLowerBound(s);
      Pow10Monotone(20, |s| - 1);
    }
  }
}
