/** Decimal digit strings and the numbers they stand for. */
module Decimals {
  predicate IsDigit(c: char) { '0' <= c <= '9' }

  predicate AreDigits(s: string) { forall i :: 0 <= i < |s| ==> IsDigit(s[i]) }

  function DigitOf(c: char): nat
    requires IsDigit(c)
  {
    c as int - '0' as int
  }

  function CharOf(d: nat): char
    requires d < 10
  {
    (d + '0' as int) as char
  }

  function Value(s: string): nat
    requires AreDigits(s)
  {
    if s == "" then 0 else 10 * Value(s[..|s| - 1]) + DigitOf(s[|s| - 1])
  }

  /** The digits of n, without leading zeros. */
  function Digits(n: nat): (s: string)
    ensures AreDigits(s) && s != ""
  {
    if n < 10 then [CharOf(n)] else Digits(n / 10) + [CharOf(n % 10)]
  }

  function Zeros(k: nat): (s: string)
    ensures AreDigits(s) && |s| == k
  {
    if k == 0 then "" else Zeros(k - 1) + "0"
  }

  function Pow10(k: nat): (p: nat)
    ensures p > 0
  {
    if k == 0 then 1 else 10 * Pow10(k - 1)
  }

  lemma ValueSnoc(s: string, c: char)
    requires AreDigits(s) && IsDigit(c)
    ensures AreDigits(s + [c]) && Value(s + [c]) == 10 * Value(s) + DigitOf(c)
  {
    assert (s + [c])[..|s|] == s;
  }

  lemma {:induction false} DigitsHaveTheirValue(n: nat)
    ensures Value(Digits(n)) == n
    ensures n < Pow10(|Digits(n)|)
  {
    if n < 10 {
      ValueSnoc("", CharOf(n));
      assert "" + [CharOf(n)] == [CharOf(n)];
    } else {
      DigitsHaveTheirValue(n / 10);
      ValueSnoc(Digits(n / 10), CharOf(n % 10));
    }
  }

  lemma DigitsAreUnique(m: nat, n: nat)
    ensures Digits(m) == Digits(n) <==> m == n
  {
    DigitsHaveTheirValue(m);
    DigitsHaveTheirValue(n);
  }

  lemma TenTimes(a: int, b: int)
    ensures 10 * (a * b) == a * (10 * b)
  {
  }

  /** Appending k zeros multiplies by the k-th power of ten. */
  lemma {:induction false} AppendingZerosMultiplies(s: string, k: nat)
    requires AreDigits(s)
    ensures AreDigits(s + Zeros(k)) && Value(s + Zeros(k)) == Value(s) * Pow10(k)
  {
    if k == 0 {
      assert s + "" == s;
    } else {
      AppendingZerosMultiplies(s, k - 1);
      ValueSnoc(s + Zeros(k - 1), '0');
      assert s + Zeros(k) == (s + Zeros(k - 1)) + ['0'];
      TenTimes(Value(s), Pow10(k - 1));
    }
  }

  /** Dropping the last k digits divides by the k-th power of ten. */
  lemma {:induction false} DroppingDigitsDivides(s: string, k: nat)
    requires AreDigits(s) && k <= |s|
    ensures Value(s[..|s| - k]) == Value(s) / Pow10(k)
  {
    if k == 0 {
      assert s[..|s|] == s;
    } else {
      var front := s[..|s| - 1];
      DroppingDigitsDivides(front, k - 1);
      assert front[..|front| - (k - 1)] == s[..|s| - k];
      DivideTwice(Value(s), 10, Pow10(k - 1));
      assert Value(s) / 10 == Value(front);
    }
  }

  lemma DivideTwice(x: nat, a: nat, b: nat)
    requires a > 0 && b > 0
    ensures a * b > 0 && x / (a * b) == (x / a) / b
  {
    var y := x / a;
    var q, r := y / b, y % b;
    MulLeq(b, 1, a);
    MulLeq(a, r + 1, b);
    Regroup(a, b, q, r);
    DivIs(x, a * b, q, a * r + x % a);
  }

  lemma Regroup(a: int, b: int, q: int, r: int)
    ensures a * (b * q + r) == (a * b) * q + a * r
    ensures a * b == b * a && a * (r + 1) == a * r + a
  {
  }

  lemma {:induction false} MulLeq(a: nat, x: int, y: int)
    requires x <= y
    ensures a * x <= a * y
    decreases y - x
  {
    if x < y {
      MulLeq(a, x + 1, y);
      assert a * (x + 1) == a * x + a;
    }
  }

  lemma SameQuotient(d: int, a: int, r: int, b: int, s: int)
    requires d * a + r == d * b + s && 0 <= r < d && 0 <= s < d
    ensures a == b
  {
    if a < b {
      MulLeq(d, a + 1, b);
    } else if b < a {
      MulLeq(d, b + 1, a);
    }
  }

  /** The quotient is the q with x = d * q + r and 0 <= r < d. */
  lemma DivIs(x: int, d: int, q: int, r: int)
    requires x == d * q + r && 0 <= r < d
    ensures x / d == q && x % d == r
  {
    SameQuotient(d, q, r, x / d, x % d);
  }

  /** A string of at most k digits stands for less than the k-th power of ten. */
  lemma {:induction false} FewDigitsAreSmall(s: string, k: nat)
    requires AreDigits(s) && |s| <= k
    ensures Value(s) < Pow10(k)
  {
    if s == "" {
    } else {
      FewDigitsAreSmall(s[..|s| - 1], k - 1);
    }
  }

  /** A first digit other than zero makes the value positive. */
  lemma {:induction false} LeadingDigitShows(s: string)
    requires AreDigits(s) && s != "" && s[0] != '0'
    ensures Value(s) > 0
  {
    if |s| > 1 {
      LeadingDigitShows(s[..|s| - 1]);
    }
  }
}
