/** Decimal digits: what std::to_chars writes for an unsigned integer, and how to read it back. */
module Decimals {

  predicate IsDigit(c: char) {
    '0' <= c <= '9'
  }

  function Digit(d: nat): (c: char)
    requires d < 10
    ensures IsDigit(c) && DigitValue(c) == d && c == "0123456789"[d]
  {
    '0' + d as char
  }

  function DigitValue(c: char): nat
    requires IsDigit(c)
  {
    (c - '0') as nat
  }

  predicate AllDigits(s: string) {
    forall i :: 0 <= i < |s| ==> IsDigit(s[i])
  }

  /** Shortest decimal text of `n`. */
  function Decimal(n: nat): string {
    if n < 10 then [Digit(n)] else Decimal(n / 10) + [Digit(n % 10)]
  }

  /** The number a digit string denotes; leading zeros are allowed and "" denotes 0. */
  function Value(s: string): nat
    requires AllDigits(s)
  {
    if s == [] then 0 else Value(s[..|s| - 1]) * 10 + DigitValue(s[|s| - 1])
  }

  function Pow10(k: nat): nat {
    if k == 0 then 1 else 10 * Pow10(k - 1)
  }

  /** Decimal text is nonempty, all digits, and denotes the number it was made from. */
  lemma {:induction false} DecimalRoundTrip(n: nat)
    ensures Decimal(n) != [] && AllDigits(Decimal(n)) && Value(Decimal(n)) == n
  {
    if n >= 10 {
      DecimalRoundTrip(n / 10);
      assert Decimal(n)[..|Decimal(n)| - 1] == Decimal(n / 10);
    } else {
      assert Decimal(n)[..0] == [];
    }
  }

  /** No leading zeros: only 0 itself begins with one. */
  lemma {:induction false} DecimalShortest(n: nat)
    ensures Decimal(n) != [] && (Decimal(n)[0] == '0' <==> n == 0)
  {
    if n >= 10 {
      DecimalShortest(n / 10);
    }
  }

  lemma DecimalInjective(a: nat, b: nat)
    requires Decimal(a) == Decimal(b)
    ensures a == b
  {
    DecimalRoundTrip(a);
    DecimalRoundTrip(b);
  }

  /** A number below 10^k needs at most k digits. */
  lemma {:induction false} DecimalLength(n: nat, k: nat)
    requires k >= 1 && n < Pow10(k)
    ensures 1 <= |Decimal(n)| <= k
  {
    if n >= 10 {
      DecimalLength(n / 10, k - 1);
    }
  }

  /** Digits behind digits: the first shift left by the number of the second. */
  lemma {:induction false} ValueAppend(a: string, b: string)
    requires AllDigits(a) && AllDigits(b)
    ensures AllDigits(a + b) && Value(a + b) == Value(a) * Pow10(|b|) + Value(b)
  {
    if b == [] {
      assert a + b == a;
    } else {
      var b' := b[..|b| - 1];
      ValueAppend(a, b');
      assert (a + b)[..|a + b| - 1] == a + b';
      TimesTen(Value(a), Pow10(|b'|));
    }
  }

  lemma TimesTen(x: nat, p: nat)
    ensures x * p * 10 == x * (10 * p)
  {
  }
}
