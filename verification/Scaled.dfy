/** Exact decimal amounts: `_decimal_to_scaled_int` and `_format_scaled`. */
module Scaled {
  import opened Wrappers
  import opened Decimal

  datatype UnitError = TooManyDecimals | Ambiguous | InvalidFormat | SymbolMismatch

  /** The length of the longest prefix whose characters all satisfy p. */
  function Run(p: char -> bool, s: string): (n: nat)
    ensures n <= |s|
    ensures forall i :: 0 <= i < n ==> p(s[i])
    ensures n < |s| ==> !p(s[n])
  {
    if s != "" && p(s[0]) then 1 + Run(p, s[1..]) else 0
  }

  /** The run of a text that starts with satisfying characters and then stops. */
  lemma {:induction false} RunOf(p: char -> bool, a: string, b: string)
    requires forall i :: 0 <= i < |a| ==> p(a[i])
    requires b == "" || !p(b[0])
    ensures Run(p, a + b) == |a|
  {
    if a == "" {
      assert a + b == b;
    } else {
      assert (a + b)[1..] == a[1..] + b;
      RunOf(p, a[1..], b);
    }
  }

  /** `\d+(?:\.\d+)?` as a whole. */
  predicate IsNumber(s: string) {
    var w := Run(IsDigit, s);
    w > 0 && (w == |s| || (s[w] == '.' && w + 1 < |s| && AllDigits(s[w + 1..])))
  }

  /** `value.partition(".")`: before the first point, and after it. */
  function Whole(value: string): (w: string)
    requires IsNumber(value)
    ensures w != "" && AllDigits(w)
  {
    value[..Run(IsDigit, value)]
  }

  function Frac(value: string): (f: string)
    requires IsNumber(value)
    ensures AllDigits(f)
  {
    if Run(IsDigit, value) == |value| then "" else value[Run(IsDigit, value) + 1..]
  }

  function DecimalToScaled(value: string, scale: nat): Result<nat, UnitError>
    requires IsNumber(value)
  {
    var frac := Frac(value);
    if |frac| > scale then Failure(TooManyDecimals)
    else
      ToNatConcat(Whole(value), frac + Zeros(scale - |frac|));
      Success(ToNat(Whole(value) + (frac + Zeros(scale - |frac|))))
  }

  /** `str(frac).rjust(scale, "0")`. */
  function RightJustify(s: string, width: nat): string {
    if |s| >= width then s else Zeros(width - |s|) + s
  }

  /** `divmod(n, m)` of a non-negative number. */
  function DivMod(n: nat, m: nat): (qr: (nat, nat))
    requires m > 0
    ensures n == qr.0 * m + qr.1 && qr.1 < m
  {
    (n / m, n % m)
  }

  lemma DivModUnique(q: nat, r: nat, m: nat)
    requires r < m
    ensures DivMod(q * m + r, m) == (q, r)
  {
    var (q', r') := DivMod(q * m + r, m);
    SmallMultiple(q' - q, m);
    assert (q' - q) * m == r - r';
  }

  /** The number part of `_format_scaled`. */
  function FormatNumber(value: nat, scale: nat): string {
    var (whole, frac) := DivMod(value, Pow10(scale));
    if frac == 0 then OfNat(whole)
    else OfNat(whole) + "." + StripZeros(RightJustify(OfNat(frac), scale))
  }

  function WithUnit(number: string, unit: string): string {
    number + " " + unit
  }

  function FormatScaled(value: nat, scale: nat, unit: string): string {
    WithUnit(FormatNumber(value, scale), unit)
  }

  // ---------- Spellings ----------

  /** A decimal spelled with these digits before and after the point. */
  function Spelling(w: string, f: string): string {
    if f == "" then w else w + "." + f
  }

  lemma SpellingParts(w: string, f: string)
    requires w != "" && AllDigits(w) && AllDigits(f)
    ensures IsNumber(Spelling(w, f))
    ensures Whole(Spelling(w, f)) == w && Frac(Spelling(w, f)) == f
  {
    if f == "" {
      RunOf(IsDigit, w, "");
      assert w + "" == w;
    } else {
      RunOf(IsDigit, w, "." + f);
      assert w + "." + f == w + ("." + f);
    }
  }

  /** The number spelled by w and f, in units of 10^-scale. */
  function Denotes(w: string, f: string, scale: nat): nat
    requires AllDigits(w) && AllDigits(f) && |f| <= scale
  {
    ToNat(w) * Pow10(scale) + ToNat(f) * Pow10(scale - |f|)
  }

  lemma PaddedFraction(f: string, scale: nat)
    requires AllDigits(f) && |f| <= scale
    ensures AllDigits(f + Zeros(scale - |f|))
    ensures ToNat(f + Zeros(scale - |f|)) == ToNat(f) * Pow10(scale - |f|) < Pow10(scale)
  {
    var zeros := Zeros(scale - |f|);
    ToNatConcat(f, zeros);
    ToNatZeros(scale - |f|);
    assert |f + zeros| == scale;
    ToNatBound(f + zeros);
  }

  /** Parsing is exact, and refuses exactly the fractions longer than the scale. */
  lemma ParsingIsExact(w: string, f: string, scale: nat)
    requires w != "" && AllDigits(w) && AllDigits(f)
    ensures IsNumber(Spelling(w, f))
    ensures DecimalToScaled(Spelling(w, f), scale)
            == if |f| <= scale then Success(Denotes(w, f, scale)) else Failure(TooManyDecimals)
  {
    SpellingParts(w, f);
    if |f| <= scale {
      PaddedFraction(f, scale);
      ToNatConcat(w, f + Zeros(scale - |f|));
    }
  }

  /** Numerals of one width are told apart by their values. */
  lemma {:induction false} FixedWidth(a: string, b: string)
    requires AllDigits(a) && AllDigits(b) && |a| == |b| && ToNat(a) == ToNat(b)
    ensures a == b
  {
    if a != "" {
      var (fa, fb) := (a[..|a| - 1], b[..|b| - 1]);
      assert DigitValue(a[|a| - 1]) == DigitValue(b[|b| - 1]) && ToNat(fa) == ToNat(fb);
      FixedWidth(fa, fb);
      assert a == fa + [a[|a| - 1]] && b == fb + [b[|b| - 1]];
    }
  }

  lemma Justified(s: string, width: nat)
    requires AllDigits(s) && |s| <= width
    ensures |RightJustify(s, width)| == width && AllDigits(RightJustify(s, width))
    ensures ToNat(RightJustify(s, width)) == ToNat(s)
  {
    var pad := Zeros(width - |s|);
    ToNatConcat(pad, s);
    ToNatZeros(width - |s|);
    assert RightJustify(s, width) == pad + s;
  }

  lemma JustifiedFraction(frac: nat, scale: nat)
    requires 0 < frac < Pow10(scale)
    ensures |RightJustify(OfNat(frac), scale)| == scale && AllDigits(RightJustify(OfNat(frac), scale))
    ensures ToNat(RightJustify(OfNat(frac), scale)) == frac
  {
    assert Pow10(0) == 1;
    OfNatLength(frac, scale);
    ReadPrinted(frac);
    Justified(OfNat(frac), scale);
  }

  /** Spellings with no needless zero on either side. */
  predicate Canonical(w: string, f: string) {
    Plain(w) && AllDigits(f) && (f != "" ==> f[|f| - 1] != '0')
  }

  /** Every number prints as a canonical spelling of itself. */
  lemma PrintsCanonically(value: nat, scale: nat) returns (w: string, f: string)
    ensures Canonical(w, f) && |f| <= scale
    ensures FormatNumber(value, scale) == Spelling(w, f) && Denotes(w, f, scale) == value
  {
    var (whole, frac) := DivMod(value, Pow10(scale));
    w, f := OfNat(whole), "";
    OfNatPlain(whole);
    ReadPrinted(whole);
    if frac != 0 {
      JustifiedFraction(frac, scale);
      var padded := RightJustify(OfNat(frac), scale);
      StripZerosSplit(padded);
      f := StripZeros(padded);
      assert forall i :: 0 <= i < |f| ==> f[i] == padded[i];
      PaddedFraction(f, scale);
      assert f != "" by {
        ToNatZeros(scale);
        assert f == "" ==> padded == Zeros(scale);
      }
    }
  }

  /** Parsing what was printed gives the number back, at every scale. */
  lemma PrintThenParse(value: nat, scale: nat)
    ensures IsNumber(FormatNumber(value, scale))
    ensures DecimalToScaled(FormatNumber(value, scale), scale) == Success(value)
  {
    var w, f := PrintsCanonically(value, scale);
    ParsingIsExact(w, f, scale);
  }

  /** A fraction that ends in another digit than zero is positive, and prints as itself. */
  lemma FractionPrints(f: string, scale: nat)
    requires AllDigits(f) && f != "" && f[|f| - 1] != '0' && |f| <= scale
    ensures 0 < ToNat(f) * Pow10(scale - |f|) < Pow10(scale)
    ensures StripZeros(RightJustify(OfNat(ToNat(f) * Pow10(scale - |f|)), scale)) == f
  {
    PaddedFraction(f, scale);
    var frac := ToNat(f) * Pow10(scale - |f|);
    var padded := f + Zeros(scale - |f|);
    StripZerosAppend(f, scale - |f|);
    if frac == 0 {
      ToNatZeros(scale);
      FixedWidth(padded, Zeros(scale));
      ZerosOnly(scale, |f| - 1);
      assert false;
    }
    JustifiedFraction(frac, scale);
    FixedWidth(RightJustify(OfNat(frac), scale), padded);
  }

  /** The printed form is the only canonical spelling of the number. */
  lemma CanonicalIsPrinted(w: string, f: string, scale: nat)
    requires Canonical(w, f) && |f| <= scale
    ensures FormatNumber(Denotes(w, f, scale), scale) == Spelling(w, f)
  {
    var frac := ToNat(f) * Pow10(scale - |f|);
    FractionBelow(f, scale);
    PrintedAs(w, frac, scale, Denotes(w, f, scale));
    if f != "" {
      FractionPrints(f, scale);
    }
  }

  lemma PrintedAs(w: string, frac: nat, scale: nat, value: nat)
    requires Plain(w) && frac < Pow10(scale) && value == ToNat(w) * Pow10(scale) + frac
    ensures FormatNumber(value, scale)
            == if frac == 0 then w else w + "." + StripZeros(RightJustify(OfNat(frac), scale))
  {
    PrintRead(w);
    PrintedParts(ToNat(w), frac, scale);
  }

  lemma FractionBelow(f: string, scale: nat)
    requires AllDigits(f) && |f| <= scale
    ensures ToNat(f) * Pow10(scale - |f|) < Pow10(scale)
    ensures f == "" ==> ToNat(f) * Pow10(scale - |f|) == 0
  {
    PaddedFraction(f, scale);
  }

  lemma PrintedParts(whole: nat, frac: nat, scale: nat)
    requires frac < Pow10(scale)
    ensures FormatNumber(whole * Pow10(scale) + frac, scale)
            == if frac == 0 then OfNat(whole)
               else OfNat(whole) + "." + StripZeros(RightJustify(OfNat(frac), scale))
  {
    DivModUnique(whole, frac, Pow10(scale));
  }

  lemma {:induction false} ZerosOnly(n: nat, i: nat)
    requires i < n
    ensures Zeros(n)[i] == '0'
  {
    if i < n - 1 {
      ZerosOnly(n - 1, i);
    }
  }

  /** Two spellings print alike exactly when they denote the same number. */
  lemma PrintAlike(w: string, f: string, w': string, f': string, scale: nat)
    requires AllDigits(w) && AllDigits(f) && |f| <= scale
    requires AllDigits(w') && AllDigits(f') && |f'| <= scale
    ensures FormatNumber(Denotes(w, f, scale), scale) == FormatNumber(Denotes(w', f', scale), scale)
            <==> Denotes(w, f, scale) == Denotes(w', f', scale)
  {
    PrintThenParse(Denotes(w, f, scale), scale);
    PrintThenParse(Denotes(w', f', scale), scale);
  }

  // ---------- Small numbers ----------

  lemma Multiple(a: nat, m: nat)
    requires a > 0
    ensures a * m >= m
  {
  }

  lemma Pow10Monotone(a: nat, b: nat)
    requires a <= b
    ensures Pow10(a) <= Pow10(b)
  {
    Pow10Add(b - a, a);
    Multiple(Pow10(b - a), Pow10(a));
  }

  lemma Scale(a: nat, b: nat, m: nat)
    requires m > 0
    ensures a < b <==> a * m < b * m
  {
  }

  lemma CutBelow(high: nat, m: nat, low: nat)
    requires low < m
    ensures high * m + low < m <==> high == 0
  {
    if high > 0 {
      Multiple(high, m);
    }
  }

  /** A number whose digits are cut in two is below the place of the cut exactly when the first part is all zeros. */
  lemma HeadCounts(head: string, tail: string)
    requires AllDigits(head) && AllDigits(tail)
    ensures AllDigits(head + tail)
    ensures ToNat(head + tail) < Pow10(|tail|) <==> head == Zeros(|head|)
  {
    ToNatConcat(head, tail);
    ToNatBound(tail);
    CutBelow(ToNat(head), Pow10(|tail|), ToNat(tail));
    ToNatZeros(|head|);
    if ToNat(head) == 0 {
      FixedWidth(head, Zeros(|head|));
    }
  }

  /** A fraction is below 10^-lead exactly when that many zeros lead it and more follows. */
  lemma LeadingZeros(f: string, scale: nat, lead: nat)
    requires AllDigits(f) && f != "" && f[|f| - 1] != '0' && |f| <= scale && lead <= scale
    ensures ToNat(f) * Pow10(scale - |f|) < Pow10(scale - lead) <==> |f| > lead && f[..lead] == Zeros(lead)
  {
    if |f| <= lead {
      FractionPrints(f, scale);
      assert ToNat(f) > 0;
      Multiple(ToNat(f), Pow10(scale - |f|));
      Pow10Monotone(scale - lead, scale - |f|);
    } else {
      assert f == f[..lead] + f[lead..];
      HeadCounts(f[..lead], f[lead..]);
      Pow10Add(|f| - lead, scale - |f|);
      Scale(ToNat(f), Pow10(|f| - lead), Pow10(scale - |f|));
    }
  }

  /** A positive number is below 10^-lead exactly when its spelling has no whole part and that many leading zeros. */
  lemma SmallNumbers(w: string, f: string, scale: nat, lead: nat)
    requires Canonical(w, f) && |f| <= scale && lead <= scale && Denotes(w, f, scale) > 0
    ensures Denotes(w, f, scale) < Pow10(scale - lead) <==> w == "0" && |f| > lead && f[..lead] == Zeros(lead)
  {
    if ToNat(w) > 0 {
      Multiple(ToNat(w), Pow10(scale));
      Pow10Monotone(scale - lead, scale);
    } else {
      PrintRead(w);
      assert OfNat(0) == "0";
      assert f != "" by { assert ToNat("") == 0; }
      LeadingZeros(f, scale, lead);
    }
  }
}
