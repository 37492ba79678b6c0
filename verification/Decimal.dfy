/** Decimal numerals: the digits Python's `int` and `str` read and write. */
module Decimal {

  predicate IsDigit(c: char) {
    '0' <= c <= '9'
  }

  predicate AllDigits(s: string) {
    forall i :: 0 <= i < |s| ==> IsDigit(s[i])
  }

  function DigitValue(c: char): nat
    requires IsDigit(c)
  {
    c as int - '0' as int
  }

  function DigitChar(d: nat): (c: char)
    requires d < 10
    ensures IsDigit(c) && DigitValue(c) == d
  {
    '0' + d as char
  }

  function Pow10(n: nat): (p: nat)
    ensures p > 0
  {
    if n == 0 then 1 else 10 * Pow10(n - 1)
  }

  /** `int(s)`; leading zeros are allowed. */
  function ToNat(s: string): nat
    requires AllDigits(s)
  {
    if s == "" then 0 else 10 * ToNat(s[..|s| - 1]) + DigitValue(s[|s| - 1])
  }

  /** `str(n)`. */
  function OfNat(n: nat): (s: string)
    ensures s != "" && AllDigits(s)
  {
    if n < 10 then [DigitChar(n)] else OfNat(n / 10) + [DigitChar(n % 10)]
  }

  function Zeros(n: nat): (s: string)
    ensures |s| == n && AllDigits(s)
  {
    if n == 0 then "" else Zeros(n - 1) + "0"
  }

  // ---------- Numerals and numbers ----------

  /** Printing then reading a number gives it back. */
  lemma {:induction false} ReadPrinted(n: nat)
    ensures ToNat(OfNat(n)) == n
  {
    if n >= 10 {
      ReadPrinted(n / 10);
      var (front, s) := (OfNat(n / 10), OfNat(n));
      assert s == front + [DigitChar(n % 10)] && s[..|s| - 1] == front;
    }
  }

  lemma {:induction false} ToNatConcat(a: string, b: string)
    requires AllDigits(a) && AllDigits(b)
    ensures AllDigits(a + b)
    ensures ToNat(a + b) == ToNat(a) * Pow10(|b|) + ToNat(b)
  {
    if b == "" {
      assert a + b == a;
    } else {
      var front := b[..|b| - 1];
      ToNatConcat(a, front);
      assert (a + b)[..|a + b| - 1] == a + front;
      assert ToNat(a + b) == 10 * (ToNat(a) * Pow10(|front|) + ToNat(front)) + DigitValue(b[|b| - 1]);
      assert 10 * (ToNat(a) * Pow10(|front|)) == ToNat(a) * Pow10(|b|);
    }
  }

  lemma {:induction false} ToNatBound(s: string)
    requires AllDigits(s)
    ensures ToNat(s) < Pow10(|s|)
  {
    if s != "" {
      ToNatBound(s[..|s| - 1]);
    }
  }

  /** A numeral is positional: each digit is worth its distance from '0', and ten times what the next place is worth. */
  lemma {:induction false} DigitAt(s: string, i: nat)
    requires AllDigits(s) && i < |s|
    ensures ToNat(s) / Pow10(|s| - 1 - i) % 10 == s[i] as int - '0' as int
  {
    var front := s[..|s| - 1];
    var last := DigitValue(s[|s| - 1]);
    if i < |front| {
      DigitAt(front, i);
      Shifted(ToNat(front), last, Pow10(|front| - 1 - i), ToNat(s), Pow10(|s| - 1 - i));
    } else {
      LastDigit(ToNat(front), last, ToNat(s), Pow10(|s| - 1 - i));
    }
  }

  lemma LastDigit(x: nat, d: nat, n: nat, m: nat)
    requires d < 10 && n == 10 * x + d && m == 1
    ensures n / m % 10 == d
  {
  }

  lemma Shifted(x: nat, d: nat, m: nat, n: nat, m': nat)
    requires d < 10 && m > 0 && n == 10 * x + d && m' == 10 * m
    ensures n / m' == x / m
  {
    var (q, r) := (x / m, x % m);
    assert x == q * m + r;
    var low := 10 * r + d;
    assert n == q * m' + low by { assert 10 * (q * m) == q * m'; }
    Quotient(q, low, m');
  }

  lemma SmallMultiple(d: int, m: int)
    requires m > 0
    ensures -m < d * m < m ==> d == 0
  {
    if d >= 1 {
      assert (d - 1) * m >= 0;
    } else if d <= -1 {
      assert (-1 - d) * m >= 0;
    }
  }

  lemma Quotient(q: nat, r: nat, m: nat)
    requires r < m
    ensures (q * m + r) / m == q
  {
    var (q', r') := ((q * m + r) / m, (q * m + r) % m);
    assert q' * m + r' == q * m + r;
    SmallMultiple(q' - q, m);
    assert (q' - q) * m == r - r';
  }

  /** The digits `str` writes are the number's own, place by place. */
  lemma PrintedDigits(n: nat, i: nat)
    requires i < |OfNat(n)|
    ensures OfNat(n)[i] as int - '0' as int == n / Pow10(|OfNat(n)| - 1 - i) % 10
  {
    ReadPrinted(n);
    DigitAt(OfNat(n), i);
  }

  lemma {:induction false} ToNatZeros(n: nat)
    ensures ToNat(Zeros(n)) == 0
  {
    if n > 0 {
      ToNatZeros(n - 1);
      assert Zeros(n)[..n - 1] == Zeros(n - 1);
    }
  }

  lemma {:induction false} Pow10Add(a: nat, b: nat)
    ensures Pow10(a + b) == Pow10(a) * Pow10(b)
  {
    if a > 0 {
      Pow10Add(a - 1, b);
    }
  }

  /** A numeral with no needless leading zero. */
  predicate Plain(s: string) {
    s != "" && AllDigits(s) && (|s| == 1 || s[0] != '0')
  }

  lemma {:induction false} OfNatPlain(n: nat)
    ensures Plain(OfNat(n))
    ensures n > 0 ==> OfNat(n)[0] != '0'
  {
    if n >= 10 {
      OfNatPlain(n / 10);
    }
  }

  /** The numeral without needless leading zeros is unique. */
  lemma {:induction false} PrintRead(s: string)
    requires Plain(s)
    ensures OfNat(ToNat(s)) == s
  {
    var front := s[..|s| - 1];
    assert s == front + [s[|s| - 1]];
    if |s| == 1 {
      assert front == "";
    } else {
      assert Plain(front);
      PrintRead(front);
      PlainPositive(front);
      assert ToNat(s) / 10 == ToNat(front) && ToNat(s) % 10 == DigitValue(s[|s| - 1]);
    }
  }

  lemma {:induction false} PlainPositive(s: string)
    requires s != "" && AllDigits(s) && s[0] != '0'
    ensures ToNat(s) > 0
  {
    if |s| > 1 {
      PlainPositive(s[..|s| - 1]);
    } else {
      assert s[..0] == "";
    }
  }

  lemma PrintedNumbersDiffer(m: nat, n: nat)
    requires OfNat(m) == OfNat(n)
    ensures m == n
  {
    ReadPrinted(m);
    ReadPrinted(n);
  }

  /** A number printed takes no more digits than it is allowed. */
  lemma {:induction false} OfNatLength(n: nat, width: nat)
    requires n < Pow10(width) && width > 0
    ensures |OfNat(n)| <= width
  {
    if n >= 10 {
      assert width > 1;
      OfNatLength(n / 10, width - 1);
    }
  }

  // ---------- Trailing zeros ----------

  /** `s.rstrip("0")`. */
  function StripZeros(s: string): string {
    if s != "" && s[|s| - 1] == '0' then StripZeros(s[..|s| - 1]) else s
  }

  lemma {:induction false} StripZerosSplit(s: string)
    ensures |StripZeros(s)| <= |s|
    ensures s == StripZeros(s) + Zeros(|s| - |StripZeros(s)|)
    ensures StripZeros(s) != "" ==> StripZeros(s)[|StripZeros(s)| - 1] != '0'
  {
    if s != "" && s[|s| - 1] == '0' {
      StripZerosSplit(s[..|s| - 1]);
      assert s == s[..|s| - 1] + "0";
    }
  }

  lemma {:induction false} StripZerosAppend(s: string, n: nat)
    requires s == "" || s[|s| - 1] != '0'
    ensures StripZeros(s + Zeros(n)) == s
  {
    if n == 0 {
      assert s + Zeros(0) == s;
    } else {
      var t := s + Zeros(n);
      assert t[|t| - 1] == '0';
      assert t[..|t| - 1] == s + Zeros(n - 1);
      StripZerosAppend(s, n - 1);
    }
  }
}
