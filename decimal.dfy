/**
 * Decimal renderings of natural numbers, as `Number.prototype.toString()`
 * produces them for integers, and `String.prototype.slice(-k)`.
 */
module Decimal {

  predicate IsDigit(c: char) {
    '0' <= c <= '9'
  }

  predicate IsDigits(s: string) {
    forall i :: 0 <= i < |s| ==> IsDigit(s[i])
  }

  /** The canonical form `toString()` gives: at least one digit, no leading zero unless it is "0". */
  predicate IsCanonical(s: string) {
    |s| >= 1 && IsDigits(s) && (|s| > 1 ==> s[0] != '0')
  }

  function Pow10(k: nat): (p: nat)
    ensures p >= 1
  {
    if k == 0 then 1 else 10 * Pow10(k - 1)
  }

  function DigitValue(c: char): (d: nat)
    requires IsDigit(c)
    ensures d < 10
  {
    c as int - '0' as int
  }

  function DigitChar(d: nat): (c: char)
    requires d < 10
    ensures IsDigit(c) && DigitValue(c) == d
  {
    ('0' as int + d) as char
  }

  /** The number a string of decimal digits denotes, most significant digit first. */
  function Value(s: string): (v: nat)
    requires IsDigits(s)
  {
    if s == [] then 0 else Value(s[..|s| - 1]) * 10 + DigitValue(s[|s| - 1])
  }

  /**
   * `n.toString()` for a natural number `n` below 10^21 (above that,
   * JavaScript switches to exponent notation).
   */
  function NatToDecimal(n: nat): (s: string)
    ensures IsCanonical(s)
  {
    if n < 10 then [DigitChar(n)] else NatToDecimal(n / 10) + [DigitChar(n % 10)]
  }

  /** `s.slice(-k)` for `k >= 1`: the last `k` characters, or all of `s` when it is shorter. */
  function TakeLast(s: string, k: nat): (r: string)
    requires k >= 1
    ensures |r| == if |s| < k then |s| else k
    ensures s == s[..|s| - |r|] + r
  {
    if |s| <= k then s else s[|s| - k..]
  }

  /** Rendering then reading back gives the number again. */
  lemma {:induction false} ValueOfDecimal(n: nat)
    ensures Value(NatToDecimal(n)) == n
  {
    var s := NatToDecimal(n);
    if n < 10 {
      assert s[..0] == [];
    } else {
      assert s[..|s| - 1] == NatToDecimal(n / 10);
      ValueOfDecimal(n / 10);
    }
  }

  /** A canonical digit string with a nonzero first digit denotes a positive number. */
  lemma {:induction false} LeadingDigitPositive(s: string)
    requires IsDigits(s) && |s| >= 1 && s[0] != '0'
    ensures Value(s) >= 1
  {
    if |s| == 1 {
      assert s[..0] == [];
    } else {
      var t := s[..|s| - 1];
      assert t[0] == s[0];
      LeadingDigitPositive(t);
    }
  }

  /** Reading then rendering gives the string again: NatToDecimal is onto the canonical strings. */
  lemma {:induction false} DecimalOfValue(s: string)
    requires IsCanonical(s)
    ensures NatToDecimal(Value(s)) == s
  {
    if |s| == 1 {
      assert s[..0] == [];
      assert [DigitChar(DigitValue(s[0]))] == s;
    } else {
      var t := s[..|s| - 1];
      var d := DigitValue(s[|s| - 1]);
      assert t[0] == s[0];
      LeadingDigitPositive(t);
      DecimalOfValue(t);
      assert Value(s) / 10 == Value(t) && Value(s) % 10 == d;
      assert [DigitChar(d)] == [s[|s| - 1]];
      assert s == t + [s[|s| - 1]];
    }
  }

  /** For k >= 1, the rendering of n has more than k digits exactly when n >= 10^k. */
  lemma {:induction false} DecimalLength(n: nat, k: nat)
    requires k >= 1
    ensures |NatToDecimal(n)| > k <==> n >= Pow10(k)
  {
    if n >= 10 && k > 1 {
      DecimalLength(n / 10, k - 1);
      DivBound(n, Pow10(k - 1));
    }
  }

  lemma DivBound(n: nat, p: nat)
    ensures n / 10 >= p <==> n >= 10 * p
  {
  }

  /** A digit string of length n denotes a number below 10^n. */
  lemma {:induction false} ValueBound(s: string)
    requires IsDigits(s)
    ensures Value(s) < Pow10(|s|)
  {
    if s != [] {
      ValueBound(s[..|s| - 1]);
    }
  }

  /** Appending a digit shifts the number one place left and adds the digit. */
  lemma ValueSnoc(t: string, c: char)
    requires IsDigits(t) && IsDigit(c)
    ensures IsDigits(t + [c]) && Value(t + [c]) == Value(t) * 10 + DigitValue(c)
  {
    assert (t + [c])[..|t|] == t;
  }

  /**
   * Splitting a digit string k digits from its end splits the number it
   * denotes: the prefix counts in units of 10^k, the suffix is the remainder.
   */
  lemma {:induction false} SplitValue(s: string, k: nat)
    requires IsDigits(s) && k <= |s|
    ensures Value(s) == Value(s[..|s| - k]) * Pow10(k) + Value(s[|s| - k..])
  {
    if k == 0 {
      assert s[..|s|] == s;
      assert s[|s|..] == [];
    } else {
      var t, c := s[..|s| - 1], s[|s| - 1];
      var prefix, rest := s[..|s| - k], t[|t| - (k - 1)..];
      assert s == t + [c];
      assert prefix == t[..|t| - (k - 1)];
      assert s[|s| - k..] == rest + [c];
      SplitValue(t, k - 1);
      ValueSnoc(t, c);
      ValueSnoc(rest, c);
      ShiftLeft(Value(prefix), Pow10(k - 1), Value(rest), DigitValue(c));
    }
  }

  lemma ShiftLeft(a: nat, p: nat, b: nat, d: nat)
    ensures (a * p + b) * 10 + d == a * (10 * p) + (b * 10 + d)
  {
  }

  /** Two numbers written as q * 10 + d with a digit d agree only when both parts agree. */
  lemma LastDigitSplit(q: nat, d: nat, q': nat, d': nat)
    requires d < 10 && d' < 10 && q * 10 + d == q' * 10 + d'
    ensures q == q' && d == d'
  {
  }

  /** Two digit strings of the same length that denote the same number are equal. */
  lemma {:induction false} ValueInjective(s: string, t: string)
    requires IsDigits(s) && IsDigits(t) && |s| == |t|
    requires Value(s) == Value(t)
    ensures s == t
  {
    if |s| > 0 {
      var s', t' := s[..|s| - 1], t[..|t| - 1];
      LastDigitSplit(Value(s'), DigitValue(s[|s| - 1]), Value(t'), DigitValue(t[|t| - 1]));
      ValueInjective(s', t');
      assert s == s' + [s[|s| - 1]] && t == t' + [t[|t| - 1]];
    }
  }
}
