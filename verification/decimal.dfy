/** Decimal text of natural numbers: `Number.prototype.toString()` on a
    non-negative integer, the value a digit string denotes, and
    `String.prototype.slice(-k)`, which the order number is cut with. */
module Decimal {

  predicate IsDigit(c: char) { '0' <= c <= '9' }

  predicate AllDigits(s: string) {
    forall i :: 0 <= i < |s| ==> IsDigit(s[i])
  }

  function DigitChar(d: nat): (c: char)
    requires d < 10
    ensures IsDigit(c)
  {
    ('0' as int + d) as char
  }

  function DigitValue(c: char): (d: nat)
    requires IsDigit(c)
    ensures d < 10
  {
    c as int - '0' as int
  }

  function Pow10(k: nat): (p: nat)
    ensures p >= 1
    ensures k >= 1 ==> p >= 10
  {
    if k == 0 then 1 else 10 * Pow10(k - 1)
  }

  /** The shortest decimal numeral of `n`, most significant digit first. */
  function ToDecimal(n: nat): (s: string)
    ensures |s| >= 1 && AllDigits(s)
    ensures s[0] == '0' ==> n == 0
  {
    if n < 10 then [DigitChar(n)] else ToDecimal(n / 10) + [DigitChar(n % 10)]
  }

  /** The number a digit string denotes (the empty string denotes 0). */
  function Value(s: string): nat
    requires AllDigits(s)
  {
    if |s| == 0 then 0 else 10 * Value(s[..|s| - 1]) + DigitValue(s[|s| - 1])
  }

  /** `s.slice(-k)` for k > 0: the last `k` characters, or all of `s` when it is shorter. */
  function Last(s: string, k: nat): (r: string)
    ensures |r| == if k < |s| then k else |s|
    ensures r == s[|s| - |r|..]
  {
    if k >= |s| then s else s[|s| - k..]
  }

  /** Reading back the numeral gives the number. */
  lemma {:induction false} ValueOfToDecimal(n: nat)
    ensures Value(ToDecimal(n)) == n
  {
    if n >= 10 {
      var s := ToDecimal(n);
      assert s[..|s| - 1] == ToDecimal(n / 10);
      ValueOfToDecimal(n / 10);
    }
  }

  /** Division with remainder is unique. */
  lemma ModUnique(n: nat, d: nat, q: nat, r: nat)
    requires d > 0 && n == q * d + r && r < d
    ensures n % d == r && n / d == q
  {
    var q', r' := n / d, n % d;
    assert n == q' * d + r';
    MulMonotone(q + 1, q', d);
    MulMonotone(q' + 1, q, d);
  }

  lemma MulMonotone(a: int, b: int, d: nat)
    ensures a <= b ==> a * d <= b * d
  {
    if a <= b {
      assert b * d == a * d + (b - a) * d;
    }
  }

  /** Appending a digit and keeping one more digit than before keeps the kept front digits, then the digit. */
  lemma ModShift(m: nat, d: nat, p: nat)
    requires d < 10 && p >= 1
    ensures (m % p) * 10 + d == (10 * m + d) % (10 * p)
  {
    var t := m % p;
    var q := m / p;
    assert m == q * p + t;
    assert 10 * m + d == q * (10 * p) + (10 * t + d);
    ModUnique(10 * m + d, 10 * p, q, 10 * t + d);
  }

  lemma LastAppend(s: string, c: char, k: nat)
    requires k >= 1
    ensures Last(s + [c], k) == Last(s, k - 1) + [c]
  {
    if k - 1 < |s| {
      assert (s + [c])[|s| + 1 - k..] == s[|s| - (k - 1)..] + [c];
    }
  }

  /** The last `k` digits of a digit string denote its value modulo `10^k`. */
  lemma {:induction false} ValueOfLast(s: string, k: nat)
    requires AllDigits(s)
    ensures Value(Last(s, k)) == Value(s) % Pow10(k)
    decreases |s|
  {
    if k == 0 || |s| == 0 {
      LastTrivial(s, k);
    } else {
      var front, c := s[..|s| - 1], s[|s| - 1];
      assert s == front + [c];
      ValueOfLast(front, k - 1);
      LastStep(front, c, k);
    }
  }

  lemma LastTrivial(s: string, k: nat)
    requires AllDigits(s) && (k == 0 || |s| == 0)
    ensures Value(Last(s, k)) == Value(s) % Pow10(k)
  {
    var p := Pow10(k);
    if k == 0 {
      assert Last(s, k) == [];
      assert p == 1;
      ModUnique(Value(s), 1, Value(s), 0);
    } else {
      assert Last(s, k) == s == [];
      ModUnique(0, p, 0, 0);
    }
  }

  lemma LastStep(front: string, c: char, k: nat)
    requires AllDigits(front) && IsDigit(c) && k >= 1
    requires Value(Last(front, k - 1)) == Value(front) % Pow10(k - 1)
    ensures Value(Last(front + [c], k)) == Value(front + [c]) % Pow10(k)
  {
    AppendDigit(front, c, k);
    AppendDigitMod(Value(front), DigitValue(c), k);
  }

  lemma AppendDigit(front: string, c: char, k: nat)
    requires AllDigits(front) && IsDigit(c) && k >= 1
    ensures AllDigits(front + [c])
    ensures Value(Last(front + [c], k)) == 10 * Value(Last(front, k - 1)) + DigitValue(c)
    ensures Value(front + [c]) == 10 * Value(front) + DigitValue(c)
  {
    var tail := Last(front, k - 1);
    LastAppend(front, c, k);
    assert AllDigits(tail);
    ValueAppend(tail, c);
    ValueAppend(front, c);
  }

  lemma AppendDigitMod(m: nat, d: nat, k: nat)
    requires d < 10 && k >= 1
    ensures 10 * (m % Pow10(k - 1)) + d == (10 * m + d) % Pow10(k)
  {
    var p := Pow10(k - 1);
    ModShift(m, d, p);
    assert Pow10(k) == 10 * p;
  }

  lemma ValueAppend(s: string, c: char)
    requires AllDigits(s) && IsDigit(c)
    ensures AllDigits(s + [c]) && Value(s + [c]) == 10 * Value(s) + DigitValue(c)
  {
    assert (s + [c])[..|s|] == s;
  }

  /** The last `k` digits of the numeral of `n` denote `n % 10^k`. */
  lemma ValueOfLastDigits(n: nat, k: nat)
    ensures Value(Last(ToDecimal(n), k)) == n % Pow10(k)
  {
    ValueOfLast(ToDecimal(n), k);
    ValueOfToDecimal(n);
  }

  /** A number of at least `10^k` has at least `k + 1` digits. */
  lemma {:induction false} ToDecimalLength(n: nat, k: nat)
    requires n >= Pow10(k)
    ensures |ToDecimal(n)| >= k + 1
  {
    if k > 0 {
      var p := Pow10(k - 1);
      assert n >= 10 * p;
      var q, r := n / 10, n % 10;
      assert n == 10 * q + r && r < 10;
      assert q >= p;
      ToDecimalLength(q, k - 1);
    }
  }

  /** Digit strings of one length that denote the same number are the same string. */
  lemma {:induction false} ValueInjective(a: string, b: string)
    requires AllDigits(a) && AllDigits(b) && |a| == |b|
    requires Value(a) == Value(b)
    ensures a == b
    decreases |a|
  {
    if |a| > 0 {
      var n := |a| - 1;
      var da, db := DigitValue(a[n]), DigitValue(b[n]);
      ModUnique(Value(a), 10, Value(a[..n]), da);
      ModUnique(Value(b), 10, Value(b[..n]), db);
      ValueInjective(a[..n], b[..n]);
      assert a == a[..n] + [a[n]] && b == b[..n] + [b[n]];
    }
  }

  /** Adding the modulus leaves the remainder unchanged. */
  lemma AddModulus(n: nat, d: nat)
    requires d > 0
    ensures (n + d) % d == n % d
  {
    var q, r := n / d, n % d;
    assert n == q * d + r;
    assert n + d == (q + 1) * d + r;
    ModUnique(n + d, d, q + 1, r);
  }

  /** Two numbers with the same remainder that are less than the modulus apart are equal. */
  lemma CloseCongruentEqual(n: nat, m: nat, p: nat)
    requires p > 0 && n % p == m % p
    requires n < m + p && m < n + p
    ensures n == m
  {
    var q, q' := n / p, m / p;
    assert n == q * p + n % p && m == q' * p + m % p;
    MulMonotone(q + 1, q', p);
    MulMonotone(q' + 1, q, p);
  }
}
