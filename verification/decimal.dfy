/** Decimal rendering and parsing of natural numbers: `ToString()`, `ToString("00000")` and `uint.Parse`. */
module Decimal {

  predicate IsDigit(c: char) {
    '0' <= c <= '9'
  }

  predicate AllDigits(s: string) {
    forall i :: 0 <= i < |s| ==> IsDigit(s[i])
  }

  function DigitChar(d: nat): (c: char)
    requires d < 10
    ensures IsDigit(c)
  {
    ('0' as int + d) as char
  }

  function DigitValue(c: char): (d: nat)
    requires IsDigit(c)
    ensures d < 10 && DigitChar(d) == c
  {
    c as int - '0' as int
  }

  function Pow10(k: nat): (p: nat)
    ensures p >= 1
  {
    if k == 0 then 1 else 10 * Pow10(k - 1)
  }

  /** The number a string of digits denotes (`uint.Parse` without overflow). */
  function Value(s: string): nat
    requires AllDigits(s)
  {
    if s == [] then 0 else Value(s[..|s| - 1]) * 10 + DigitValue(s[|s| - 1])
  }

  /** Shortest decimal rendering: no leading zeros, "0" for zero. */
  function Digits(n: nat): (s: string)
    ensures 1 <= |s| && AllDigits(s)
  {
    if n < 10 then [DigitChar(n)] else Digits(n / 10) + [DigitChar(n % 10)]
  }

  function Zeros(k: nat): (s: string)
    ensures |s| == k && AllDigits(s)
  {
    if k == 0 then "" else "0" + Zeros(k - 1)
  }

  /** A custom numeric format of `width` zeros, as in `ToString("00000")`: left-padded with
      zeros to at least `width` characters, never truncated. */
  function ZeroPad(n: nat, width: nat): (s: string)
    ensures AllDigits(s)
    ensures |s| == if |Digits(n)| < width then width else |Digits(n)|
    ensures Value(s) == n
  {
    var d := Digits(n);
    ValueOfDigits(n);
    if |d| < width then
      ValueLeadingZeros(width - |d|, d);
      Zeros(width - |d|) + d
    else d
  }

  /** `int.ToString()`: a minus sign for negative numbers. */
  function IntToString(i: int): (s: string)
    ensures 1 <= |s|
    ensures i >= 0 <==> AllDigits(s)
    ensures i < 0 <==> s[0] == '-'
  {
    if i < 0 then
      var s := "-" + Digits(-i);
      assert !IsDigit(s[0]);
      s
    else Digits(i)
  }

  lemma {:induction false} ValueAppend(a: string, b: string)
    requires AllDigits(a) && AllDigits(b)
    ensures AllDigits(a + b)
    ensures Value(a + b) == Value(a) * Pow10(|b|) + Value(b)
    decreases |b|
  {
    var ab := a + b;
    if b == [] {
      assert ab == a;
    } else {
      var b' := b[..|b| - 1];
      assert ab[..|ab| - 1] == a + b';
      assert ab[|ab| - 1] == b[|b| - 1];
      ValueAppend(a, b');
      var d := DigitValue(b[|b| - 1]);
      var p := Pow10(|b'|);
      assert Pow10(|b|) == 10 * p;
      assert Value(b) == Value(b') * 10 + d;
      assert Value(ab) == Value(a + b') * 10 + d;
      ShiftDigit(Value(a), p, Value(b'), d);
    }
  }

  /** Appending a digit to `x * p + y` multiplies `p` by ten. */
  lemma ShiftDigit(x: int, p: int, y: int, d: int)
    ensures (x * p + y) * 10 + d == x * (10 * p) + (y * 10 + d)
  {
  }

  lemma {:induction false} ValueOfZeros(k: nat)
    ensures Value(Zeros(k)) == 0
  {
    if k > 0 {
      ValueOfZeros(k - 1);
      ValueAppend("0", Zeros(k - 1));
      assert Value("0") == 0;
    }
  }

  lemma ValueLeadingZeros(k: nat, s: string)
    requires AllDigits(s)
    ensures AllDigits(Zeros(k) + s)
    ensures Value(Zeros(k) + s) == Value(s)
  {
    ValueAppend(Zeros(k), s);
    ValueOfZeros(k);
  }

  /** Parsing inverts rendering. */
  lemma {:induction false} ValueOfDigits(n: nat)
    ensures Value(Digits(n)) == n
  {
    if n >= 10 {
      ValueOfDigits(n / 10);
      var s := Digits(n);
      assert s[..|s| - 1] == Digits(n / 10);
    }
  }

  /** A string of k digits denotes a number below 10^k. */
  lemma {:induction false} ValueBound(s: string)
    requires AllDigits(s)
    ensures Value(s) < Pow10(|s|)
  {
    if s != [] {
      ValueBound(s[..|s| - 1]);
    }
  }

  /** Shortest rendering fits in k characters exactly when the number is below 10^k. */
  lemma {:induction false} DigitsLength(n: nat, k: nat)
    requires n > 0 || k > 0
    ensures |Digits(n)| <= k <==> n < Pow10(k)
  {
    if n < 10 {
      if k > 0 { Pow10Positive(k); }
    } else {
      if k > 0 {
        DigitsLength(n / 10, k - 1);
      } else {
        assert Pow10(0) == 1;
      }
    }
  }

  lemma Pow10Positive(k: nat)
    requires k > 0
    ensures Pow10(k) >= 10
  {
  }

  /** Padding to five places yields exactly five digits for every number that fits. */
  lemma FivePlaces(n: nat)
    requires n < 100000
    ensures |ZeroPad(n, 5)| == 5
  {
    assert Pow10(5) == 100000;
    DigitsLength(n, 5);
  }

  /** Two-digit padding of a number below 100. */
  lemma TwoPlaces(n: nat)
    requires n < 100
    ensures |ZeroPad(n, 2)| == 2
  {
    assert Pow10(2) == 100;
    DigitsLength(n, 2);
  }

  /** Four-digit padding of a number below 10000. */
  lemma FourPlaces(n: nat)
    requires n < 10000
    ensures |ZeroPad(n, 4)| == 4
  {
    assert Pow10(4) == 10000;
    DigitsLength(n, 4);
  }

  /** Equal-width paddings are equal only for equal numbers. */
  lemma ZeroPadInjective(m: nat, n: nat, width: nat)
    requires ZeroPad(m, width) == ZeroPad(n, width)
    ensures m == n
  {
  }

  /** The sequence format of the test suite: 77 renders as "00077". */
  lemma SeventySevenPadded()
    ensures ZeroPad(77, 5) == "00077"
  {
    assert Digits(7) == "7";
    assert Digits(77) == "77";
    assert Zeros(3) == "000";
  }

  /** Zero renders as "00000". */
  lemma ZeroPadded()
    ensures ZeroPad(0, 5) == "00000"
  {
    assert Digits(0) == "0";
    assert Zeros(4) == "0000";
  }

  /** 1200 renders as "01200". */
  lemma TwelveHundredPadded()
    ensures ZeroPad(1200, 5) == "01200"
  {
    assert Digits(1) == "1";
    assert Digits(12) == Digits(1) + [DigitChar(2)];
    assert Digits(120) == Digits(12) + [DigitChar(0)];
    assert Digits(1200) == Digits(120) + [DigitChar(0)];
    assert Digits(1200) == "1200";
    assert Zeros(1) == "0";
  }
}
