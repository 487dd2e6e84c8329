/**
 * Java `int` arithmetic: 32-bit two's-complement values, wrap-around on
 * overflow, `/` truncating toward zero and `%` taking the sign of the
 * dividend, and the decimal text `Integer.toString` produces.
 */
module JavaInt {

  const MinInt: int := -0x8000_0000
  const MaxInt: int := 0x7FFF_FFFF
  const Modulus: int := 0x1_0000_0000

  type Int32 = x: int | MinInt <= x <= MaxInt

  /** The 32-bit value congruent to `x`: what the JVM keeps of an overflowing result. */
  function Wrap(x: int): (r: Int32)
    ensures (r - x) % Modulus == 0
    ensures MinInt <= x <= MaxInt ==> r == x
  {
    (x - MinInt) % Modulus + MinInt
  }

  function Abs(x: int): nat { if x < 0 then -x else x }

  /** The mathematical quotient rounded toward zero (before any wrap-around). */
  function TruncQuot(a: int, b: int): int
    requires b != 0
  {
    if (a < 0) == (b < 0) then Abs(a) / Abs(b) else -(Abs(a) / Abs(b))
  }

  /** The remainder that goes with `TruncQuot`. */
  function TruncRem(a: int, b: int): int
    requires b != 0
  {
    a - b * TruncQuot(a, b)
  }

  /** Division rounds toward zero and the remainder has the sign of the dividend. */
  lemma TruncDivision(a: int, b: int)
    requires b != 0
    ensures a == b * TruncQuot(a, b) + TruncRem(a, b)
    ensures Abs(TruncRem(a, b)) < Abs(b)
    ensures TruncRem(a, b) == 0 || (TruncRem(a, b) < 0 <==> a < 0)
    ensures Abs(b * TruncQuot(a, b)) <= Abs(a)
  {
    var n, m := Abs(a), Abs(b);
    var q, r := n / m, n % m;
    assert n == m * q + r && 0 <= r < m;
    MagnitudeProduct(a, b);
  }

  /** `b * TruncQuot(a, b)` is the truncated multiple of `|b|`, with the sign of `a`. */
  lemma MagnitudeProduct(a: int, b: int)
    requires b != 0
    ensures b * TruncQuot(a, b) == if a < 0 then -(Abs(b) * (Abs(a) / Abs(b))) else Abs(b) * (Abs(a) / Abs(b))
  {
    var m: int, q: int := Abs(b), Abs(a) / Abs(b);
    if b < 0 {
      assert b == -m;
      if a < 0 {
        assert TruncQuot(a, b) == q;
        NegTimes(m, q);
      } else {
        assert TruncQuot(a, b) == -q;
        NegTimesNeg(m, q);
      }
    } else if a < 0 {
      assert TruncQuot(a, b) == -q;
      TimesNeg(m, q);
    }
  }

  lemma NegTimes(m: int, q: int)
    ensures (-m) * q == -(m * q)
  {
  }

  lemma TimesNeg(m: int, q: int)
    ensures m * (-q) == -(m * q)
  {
  }

  lemma NegTimesNeg(m: int, q: int)
    ensures (-m) * (-q) == m * q
  {
  }

  function IAdd(a: Int32, b: Int32): Int32 { Wrap(a + b) }

  function ISub(a: Int32, b: Int32): Int32 { Wrap(a - b) }

  function IMul(a: Int32, b: Int32): Int32 { Wrap(a * b) }

  /** Java's `a / b`: rounds toward zero; only MinInt / -1 overflows (to MinInt). */
  function IDiv(a: Int32, b: Int32): (r: Int32)
    requires b != 0
    ensures a == MinInt && b == -1 ==> r == MinInt
    ensures !(a == MinInt && b == -1) ==> r == TruncQuot(a, b)
  {
    if !(a == MinInt && b == -1) then QuotientInRange(a, b); Wrap(TruncQuot(a, b))
    else Wrap(TruncQuot(a, b))
  }

  /** Only MinInt / -1 has a quotient outside the 32-bit range. */
  lemma QuotientInRange(a: Int32, b: Int32)
    requires b != 0 && !(a == MinInt && b == -1)
    ensures MinInt <= TruncQuot(a, b) <= MaxInt
  {
    var n := Abs(a);
    var m := Abs(b);
    var q := n / m;
    QuotientBound(n, m);
    if m == 1 {
      assert q == n;
    }
  }

  /** A natural quotient is at most the dividend, and at most half of it for a divisor of two or more. */
  lemma QuotientBound(n: nat, m: nat)
    requires m >= 1
    ensures n / m <= n
    ensures m >= 2 ==> 2 * (n / m) <= n
  {
    var q := n / m;
    assert m * q <= n;
    ScaleUp(q, 1, m);
    if m >= 2 {
      ScaleUp(q, 2, m);
    }
  }

  lemma ScaleUp(q: nat, k: nat, m: nat)
    requires k <= m
    ensures k * q <= m * q
  {
    var d: nat := m - k;
    assert m * q == k * q + d * q;
  }

  /** Java's `a % b`: `|r| < |b|` and `r` has the sign of `a`; never overflows. */
  function IRem(a: Int32, b: Int32): (r: Int32)
    requires b != 0
    ensures Abs(r) < Abs(b)
    ensures r == 0 || (r < 0 <==> a < 0)
    ensures a == b * TruncQuot(a, b) + r
  {
    TruncDivision(a, b);
    TruncRem(a, b)
  }

  /** Decimal digits of a natural number, most significant first, no leading zeros. */
  function NatText(n: nat): (s: string)
    ensures |s| > 0
    decreases n
  {
    if n < 10 then [Digit(n)] else NatText(n / 10) + [Digit(n % 10)]
  }

  /** Every character of the decimal text is a digit, and only zero is written with a leading `0`. */
  lemma {:induction false} NatTextDigits(n: nat)
    ensures forall i | 0 <= i < |NatText(n)| :: '0' <= NatText(n)[i] <= '9'
    ensures NatText(n)[0] == '0' <==> n == 0
    decreases n
  {
    if n >= 10 {
      NatTextDigits(n / 10);
      var s := NatText(n / 10) + [Digit(n % 10)];
      assert s[0] == NatText(n / 10)[0];
    }
  }

  function Digit(d: nat): (c: char)
    requires d < 10
    ensures '0' <= c <= '9'
  {
    "0123456789"[d]
  }

  /** `Integer.toString(i)`: a minus sign for negative values, then the digits. */
  function IntText(i: int): (s: string)
    ensures |s| > 0
    ensures s[0] == '-' <==> i < 0
  {
    if i < 0 then "-" + NatText(-i) else NatTextDigits(i); NatText(i)
  }

  // Reading decimal text back: the partner of `NatText` and `IntText`.

  /** The value of a decimal digit character (0 for any other character). */
  function DigitValue(c: char): (d: nat)
    ensures d < 10
  {
    if '0' <= c <= '9' then c as int - '0' as int else 0
  }

  /** The number a string of decimal digits denotes, most significant first. */
  function DecimalValue(s: string): nat
    decreases |s|
  {
    if s == [] then 0 else DecimalValue(s[..|s| - 1]) * 10 + DigitValue(s[|s| - 1])
  }

  /** The number a decimal text with an optional leading minus sign denotes. */
  function SignedValue(s: string): int {
    if |s| > 0 && s[0] == '-' then -(DecimalValue(s[1..]) as int) else DecimalValue(s)
  }

  lemma {:induction false} DigitValueOfDigit(d: nat)
    requires d < 10
    ensures DigitValue(Digit(d)) == d
  {
    if d == 0 { assert Digit(d) == '0'; }
    else if d == 1 { assert Digit(d) == '1'; }
    else if d == 2 { assert Digit(d) == '2'; }
    else if d == 3 { assert Digit(d) == '3'; }
    else if d == 4 { assert Digit(d) == '4'; }
    else if d == 5 { assert Digit(d) == '5'; }
    else if d == 6 { assert Digit(d) == '6'; }
    else if d == 7 { assert Digit(d) == '7'; }
    else if d == 8 { assert Digit(d) == '8'; }
    else { assert Digit(d) == '9'; }
  }

  /** The decimal text of `n` denotes `n`. */
  lemma {:induction false} NatTextValue(n: nat)
    ensures DecimalValue(NatText(n)) == n
    decreases n
  {
    var s := NatText(n);
    DigitValueOfDigit(n % 10);
    if n < 10 {
      assert s[..|s| - 1] == [];
    } else {
      NatTextValue(n / 10);
      assert s[..|s| - 1] == NatText(n / 10);
    }
  }

  /** `Integer.toString(i)` denotes `i`: different values get different texts. */
  lemma {:induction false} IntTextValue(i: int)
    ensures SignedValue(IntText(i)) == i
  {
    if i < 0 {
      NatTextValue(-i);
      assert IntText(i)[1..] == NatText(-i);
    } else {
      NatTextValue(i);
    }
  }
}
