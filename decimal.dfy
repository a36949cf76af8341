/** Decimal numerals of non-negative integers, as JavaScript's `Number.prototype.toString`
    writes them, and the value such a numeral denotes. */
module Decimal {

  /** 10^k; its use is in `ParseSuffix` and `ToStringLength`. */
  function Pow10(k: nat): (p: nat)
    ensures p >= 1
  {
    if k == 0 then 1 else 10 * Pow10(k - 1)
  }

  predicate IsDigit(c: char)
  {
    '0' <= c <= '9'
  }

  predicate AllDigits(s: string)
  {
    forall i :: 0 <= i < |s| ==> IsDigit(s[i])
  }

  function DigitValue(c: char): (d: nat)
    requires IsDigit(c)
    ensures d < 10
  {
    c as int - '0' as int
  }

  function DigitChar(d: nat): (c: char)
    requires d < 10
    ensures IsDigit(c) && DigitValue(c) == d
  {
    ('0' as int + d) as char
  }

  /** The numeral of `n`: most significant digit first, no leading zero. */
  function ToString(n: nat): (s: string)
    ensures |s| >= 1 && AllDigits(s)
    ensures s[0] == '0' ==> n == 0
    decreases n
  {
    if n < 10 then [DigitChar(n)] else ToString(n / 10) + [DigitChar(n % 10)]
  }

  /** The value of a string of digits; the empty string denotes 0, and leading zeros add nothing. */
  function Parse(s: string): nat
    requires AllDigits(s)
  {
    if s == [] then 0 else Parse(s[..|s| - 1]) * 10 + DigitValue(s[|s| - 1])
  }

  /** The last `k` characters of `s`. */
  function Suffix(s: string, k: nat): string
    requires k <= |s|
  {
    s[|s| - k..]
  }

  lemma ParseAppend(s: string, c: char)
    requires AllDigits(s) && IsDigit(c)
    ensures AllDigits(s + [c]) && Parse(s + [c]) == Parse(s) * 10 + DigitValue(c)
  {
    assert (s + [c])[..|s|] == s;
  }

  /** Parsing a numeral gives back the number it was written from. */
  lemma {:induction false} ParseToString(n: nat)
    ensures Parse(ToString(n)) == n
  {
    if n >= 10 {
      ParseToString(n / 10);
      ParseAppend(ToString(n / 10), DigitChar(n % 10));
    }
  }

  /** The last `k` digits of a numeral denote the number modulo 10^k. */
  lemma {:induction false} ParseSuffix(n: nat, k: nat)
    requires k <= |ToString(n)|
    ensures AllDigits(Suffix(ToString(n), k)) && Parse(Suffix(ToString(n), k)) == n % Pow10(k)
  {
    if k == 0 {
      assert Suffix(ToString(n), k) == [];
      assert n % Pow10(0) == 0;
    } else if n < 10 {
      assert k == 1;
      ParseToString(n);
      assert n % Pow10(1) == n;
    } else {
      ToStringShorter(n);
      ParseSuffix(n / 10, k - 1);
      ParseSuffixStep(n, k);
    }
  }

  lemma ToStringShorter(n: nat)
    requires n >= 10
    ensures |ToString(n)| == |ToString(n / 10)| + 1
  {
  }

  /** The inductive step of `ParseSuffix`: one more digit on the right. */
  lemma ParseSuffixStep(n: nat, k: nat)
    requires n >= 10 && 1 <= k <= |ToString(n)|
    requires AllDigits(Suffix(ToString(n / 10), k - 1))
    requires Parse(Suffix(ToString(n / 10), k - 1)) == (n / 10) % Pow10(k - 1)
    ensures AllDigits(Suffix(ToString(n), k)) && Parse(Suffix(ToString(n), k)) == n % Pow10(k)
  {
    var u := Suffix(ToString(n / 10), k - 1);
    var c := DigitChar(n % 10);
    assert Suffix(ToString(n), k) == u + [c];
    ParseAppend(u, c);
    ModOfShift(n, Pow10(k - 1));
  }

  lemma ModOfShift(n: nat, p: nat)
    requires p >= 1
    ensures (n / 10) % p * 10 + n % 10 == n % (10 * p)
  {
    var q, d := n / 10, n % 10;
    var a, b := q / p, q % p;
    assert q == p * a + b;
    assert n == 10 * q + d;
    assert n == (10 * p) * a + (10 * b + d) by {
      assert 10 * q == 10 * (p * a) + 10 * b;
    }
    ModUnique(n, 10 * p, a, 10 * b + d);
  }

  lemma ModUnique(n: int, m: int, a: int, r: int)
    requires m > 0 && 0 <= r < m && n == m * a + r
    ensures n % m == r
  {
    var a', r' := n / m, n % m;
    assert m * (a - a') == r' - r;
    if a > a' {
      MulAtLeast(m, a - a');
      assert false;
    } else if a < a' {
      MulAtLeast(m, a' - a);
      assert false;
    }
  }

  lemma MulAtLeast(m: int, x: int)
    requires m > 0 && x >= 1
    ensures m * x >= m
  {
    assert m * x == m * (x - 1) + m;
  }

  /** A numeral has more than `k` digits exactly when the number is at least 10^k (for k >= 1). */
  lemma {:induction false} ToStringLength(n: nat, k: nat)
    requires k >= 1
    ensures |ToString(n)| > k <==> n >= Pow10(k)
  {
    if n >= 10 && k >= 2 {
      ToStringLength(n / 10, k - 1);
    }
  }

  /** Prefixing zeros leaves the value unchanged. */
  lemma {:induction false} ParseLeadingZero(s: string)
    requires AllDigits(s)
    ensures AllDigits(['0'] + s) && Parse(['0'] + s) == Parse(s)
  {
    if s != [] {
      var init := s[..|s| - 1];
      ParseLeadingZero(init);
      assert ['0'] + s == (['0'] + init) + [s[|s| - 1]];
      ParseAppend(['0'] + init, s[|s| - 1]);
    }
  }
}
