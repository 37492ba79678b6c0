/**
NEAR amounts, gas and token amounts as text. Characters are ASCII: digits
0-9, the whitespace Python strips in that range, and upper or lower case.
*/
module Units {
  import opened Wrappers
  import opened Decimal
  import opened Scaled

  // ---------- Python's text operations ----------

  /** `str.isspace` and `\s`, in ASCII. */
  predicate IsSpace(c: char) {
    c == ' ' || '\t' <= c <= '\r' || 28 as char <= c <= 31 as char
  }

  /** By code: tab to carriage return, the four separators from 28, and the blank. */
  lemma SpaceCodes(c: char)
    ensures IsSpace(c) <==> c as int in {9, 10, 11, 12, 13, 28, 29, 30, 31, 32}
  {
  }

  predicate SpaceFree(s: string) {
    forall i :: 0 <= i < |s| ==> !IsSpace(s[i])
  }

  predicate AllSpace(s: string) {
    forall i :: 0 <= i < |s| ==> IsSpace(s[i])
  }

  function StripRight(s: string): string {
    if s != "" && IsSpace(s[|s| - 1]) then StripRight(s[..|s| - 1]) else s
  }

  /** `text.strip()`. */
  function Strip(s: string): string {
    StripRight(s[Run(IsSpace, s)..])
  }

  function UpperChar(c: char): char {
    if 'a' <= c <= 'z' then 'A' + (c - 'a') else c
  }

  /** `s.upper()`, which is also what re.IGNORECASE compares. */
  function Upper(s: string): (u: string)
    ensures |u| == |s|
  {
    seq(|s|, i requires 0 <= i < |s| => UpperChar(s[i]))
  }

  /** The same character but for the case of a letter; ASCII has the two cases 32 apart. */
  predicate SameLetter(c: char, d: char) {
    || c == d
    || ('a' <= c <= 'z' && c as int - d as int == 32)
    || ('a' <= d <= 'z' && d as int - c as int == 32)
  }

  /** The same text but for the case of its letters. */
  predicate InAnyCase(s: string, name: string) {
    |s| == |name| && forall i :: 0 <= i < |s| ==> SameLetter(s[i], name[i])
  }

  /** Upper-casing tells texts apart exactly when they differ in more than case. */
  lemma UpperAlike(s: string, name: string)
    ensures Upper(s) == Upper(name) <==> InAnyCase(s, name)
  {
    if |s| == |name| {
      forall i | 0 <= i < |s| ensures Upper(s)[i] == Upper(name)[i] <==> SameLetter(s[i], name[i]) {
        LetterAlike(s[i], name[i]);
      }
    }
  }

  lemma LetterAlike(c: char, d: char)
    ensures UpperChar(c) == UpperChar(d) <==> SameLetter(c, d)
  {
  }

  // ---------- A number and what follows it ----------

  /** How far `\d+(?:\.\d+)?` reaches from the start of s; 0 when it does not match. */
  function NumberEnd(s: string): (n: nat)
    ensures n <= |s|
    ensures n > 0 ==> IsNumber(s[..n])
  {
    var w := Run(IsDigit, s);
    if w > 0 && w < |s| && s[w] == '.' && Run(IsDigit, s[w + 1..]) > 0 then
      var f := Run(IsDigit, s[w + 1..]);
      NumberPrefix(s, w, f);
      w + 1 + f
    else
      DigitsPrefix(s, w);
      w
  }

  lemma DigitsPrefix(s: string, w: nat)
    requires w == Run(IsDigit, s)
    ensures w > 0 ==> IsNumber(s[..w])
  {
    RunOf(IsDigit, s[..w], "");
    assert s[..w] + "" == s[..w];
  }

  lemma NumberPrefix(s: string, w: nat, f: nat)
    requires w == Run(IsDigit, s) && 0 < w < |s| && s[w] == '.' && f == Run(IsDigit, s[w + 1..]) && f > 0
    ensures IsNumber(s[..w + 1 + f])
  {
    var t := s[..w + 1 + f];
    var tail := t[w..];
    assert t == s[..w] + tail && tail[0] == '.';
    RunOf(IsDigit, s[..w], tail);
    assert t[w + 1..] == s[w + 1..][..f];
  }

  lemma Regroup(a: string, b: string, c: string)
    ensures a + (b + c) == a + b + c
  {
  }

  /** The whitespace a text starts with. */
  function Gap(s: string): (gap: string)
    ensures gap <= s && AllSpace(gap)
  {
    s[..Run(IsSpace, s)]
  }

  lemma Cut(text: string, number: string, gap: string, unit: string)
    requires number <= text && gap <= text[|number|..] && unit == text[|number|..][|gap|..]
    ensures number + gap + unit == text
  {
    assert number + text[|number|..] == text && gap + unit == text[|number|..];
    Regroup(number, gap, unit);
  }

  /** A text split into a number, the whitespace after it, and the rest. */
  function Split(text: string): (parts: (string, string, string))
    ensures parts.0 + parts.1 + parts.2 == text
    ensures AllSpace(parts.1)
    ensures parts.0 != "" ==> IsNumber(parts.0)
  {
    var (number, rest) := (text[..NumberEnd(text)], text[NumberEnd(text)..]);
    var gap := Gap(rest);
    var unit := rest[|gap|..];
    Cut(text, number, gap, unit);
    (number, gap, unit)
  }

  /** The split is the one every match of number, whitespace, rest must make. */
  lemma SplitOf(number: string, gap: string, rest: string)
    requires IsNumber(number) && AllSpace(gap)
    requires gap == "" ==> rest == ""
    requires rest == "" || !IsSpace(rest[0])
    ensures Split(number + gap + rest) == (number, gap, rest)
  {
    var tail := gap + rest;
    var text := number + tail;
    assert text == number + gap + rest;
    NumberEndOf(number, tail);
    assert text[|number|..] == tail;
    RunOf(IsSpace, gap, rest);
  }

  lemma NumberEndOf(number: string, tail: string)
    requires IsNumber(number) && (tail == "" || IsSpace(tail[0]))
    ensures NumberEnd(number + tail) == |number|
  {
    var w := Run(IsDigit, number);
    var text := number + tail;
    if w == |number| {
      RunOf(IsDigit, number, tail);
    } else {
      var (whole, point, frac) := (number[..w], number[w..], number[w + 1..]);
      assert text == whole + (point + tail) && (point + tail)[0] == '.';
      RunOf(IsDigit, whole, point + tail);
      assert text[w + 1..] == frac + tail;
      RunOf(IsDigit, frac, tail);
    }
  }

  // ---------- Amount and Gas ----------

  const NEAR_SCALE: nat := 24
  const TGAS_SCALE: nat := 12
  /** Below this many yoctoNEAR an amount prints in yocto. */
  const DUST_DIGITS: nat := 21

  /** A stripped text as an amount: what it says depends on its unit. */
  function AmountOf(text: string, number: string, gap: string, unit: string): Result<nat, UnitError>
    requires number != "" ==> IsNumber(number)
  {
    if number != "" && gap != "" && Upper(unit) == "NEAR" then DecimalToScaled(number, NEAR_SCALE)
    else if number != "" && AllDigits(number) && gap != "" && (Upper(unit) == "YOCTO" || Upper(unit) == "YOCTONEAR") then
      Success(ToNat(number))
    else if number != "" && number == text then Failure(Ambiguous)
    else Failure(InvalidFormat)
  }

  /** `Amount(text)`, in yoctoNEAR. */
  function ParseAmount(input: string): Result<nat, UnitError> {
    var text := Strip(input);
    var parts := Split(text);
    AmountOf(text, parts.0, parts.1, parts.2)
  }

  /** `str(amount)`. */
  function PrintAmount(yocto: nat): string {
    if 0 < yocto < Pow10(DUST_DIGITS) then WithUnit(OfNat(yocto), "yocto")
    else FormatScaled(yocto, NEAR_SCALE, "NEAR")
  }

  function GasOf(text: string, number: string, gap: string, unit: string): Result<nat, UnitError>
    requires number != "" ==> IsNumber(number)
  {
    if number != "" && gap != "" && Upper(unit) == "TGAS" then DecimalToScaled(number, TGAS_SCALE)
    else if text != "" && AllDigits(text) then Success(ToNat(text))
    else Failure(InvalidFormat)
  }

  /** `Gas(text)`, in gas units. */
  function ParseGas(input: string): Result<nat, UnitError> {
    var text := Strip(input);
    var parts := Split(text);
    GasOf(text, parts.0, parts.1, parts.2)
  }

  /** `str(gas)`. */
  function PrintGas(gas: nat): string {
    FormatScaled(gas, TGAS_SCALE, "Tgas")
  }

  // ---------- Token amounts ----------

  function TokenOf(number: string, gap: string, unit: string, symbol: string, decimals: nat): Result<nat, UnitError>
    requires number != "" ==> IsNumber(number)
  {
    if number == "" || (gap == "") != (unit == "") || !SpaceFree(unit) then Failure(InvalidFormat)
    else if unit != "" && Upper(unit) != Upper(symbol) then Failure(SymbolMismatch)
    else DecimalToScaled(number, decimals)
  }

  /** `TokenAmount.parse(text, metadata)`, in raw units. */
  function ParseToken(input: string, symbol: string, decimals: nat): Result<nat, UnitError> {
    var parts := Split(Strip(input));
    TokenOf(parts.0, parts.1, parts.2, symbol, decimals)
  }

  /** `str(token_amount)`. */
  function PrintToken(raw: nat, symbol: string, decimals: nat): string {
    FormatScaled(raw, decimals, symbol)
  }

  // ---------- What parsing accepts ----------

  lemma {:induction false} StripRightText(s: string, spaces: string)
    requires s != "" && !IsSpace(s[|s| - 1]) && AllSpace(spaces)
    ensures StripRight(s + spaces) == s
  {
    if spaces == "" {
      assert s + spaces == s;
    } else {
      var t := s + spaces;
      assert t[..|t| - 1] == s + spaces[..|spaces| - 1];
      StripRightText(s, spaces[..|spaces| - 1]);
    }
  }

  /** Stripping removes exactly the whitespace around a text. */
  lemma StripText(lead: string, s: string, trail: string)
    requires s != "" && !IsSpace(s[0]) && !IsSpace(s[|s| - 1]) && AllSpace(lead) && AllSpace(trail)
    ensures Strip(lead + s + trail) == s
  {
    var text := lead + s + trail;
    assert text == lead + (s + trail);
    RunOf(IsSpace, lead, s + trail);
    assert text[|lead|..] == s + trail;
    StripRightText(s, trail);
  }

  lemma NumberEnds(number: string)
    requires IsNumber(number)
    ensures IsDigit(number[0]) && IsDigit(number[|number| - 1])
  {
  }

  lemma LettersOnly(unit: string, name: string)
    requires InAnyCase(unit, name) && name != "" && forall i :: 0 <= i < |name| ==> 'a' <= name[i] <= 'z'
    ensures unit != "" && SpaceFree(unit)
  {
    forall i | 0 <= i < |unit| ensures !IsSpace(unit[i]) {
      assert SameLetter(unit[i], name[i]);
    }
  }

  /** What case-insensitive matching makes of a unit's name, given in lower case. */
  lemma NamedUnit(unit: string, name: string)
    requires name != "" && forall i :: 0 <= i < |name| ==> 'a' <= name[i] <= 'z'
    ensures Upper(unit) == Upper(name) <==> InAnyCase(unit, name)
    ensures InAnyCase(unit, name) ==> unit != "" && SpaceFree(unit)
  {
    UpperAlike(unit, name);
    if InAnyCase(unit, name) {
      LettersOnly(unit, name);
    }
  }

  /** The names a unit may have, in any case, are what the patterns match. */
  lemma NamedUnits(unit: string)
    ensures Upper(unit) == "NEAR" <==> InAnyCase(unit, "near")
    ensures Upper(unit) == "YOCTO" <==> InAnyCase(unit, "yocto")
    ensures Upper(unit) == "YOCTONEAR" <==> InAnyCase(unit, "yoctonear")
    ensures Upper(unit) == "TGAS" <==> InAnyCase(unit, "tgas")
    ensures Upper(unit) in {"NEAR", "YOCTO", "YOCTONEAR", "TGAS"} ==> unit != "" && SpaceFree(unit)
  {
    UnitNames();
    NamedUnit(unit, "near");
    NamedUnit(unit, "yocto");
    NamedUnit(unit, "yoctonear");
    NamedUnit(unit, "tgas");
  }

  lemma UnitNames()
    ensures Upper("near") == "NEAR" && Upper("yocto") == "YOCTO" && Upper("yoctonear") == "YOCTONEAR"
    ensures Upper("tgas") == "TGAS"
  {
  }

  /** A number, whitespace and a unit, stripped of the whitespace around them, split into themselves. */
  lemma SplitText(lead: string, number: string, gap: string, unit: string, trail: string)
    requires IsNumber(number) && AllSpace(lead) && AllSpace(gap) && AllSpace(trail)
    requires gap == "" ==> unit == ""
    requires if unit == "" then gap == "" else !IsSpace(unit[0]) && !IsSpace(unit[|unit| - 1])
    ensures Strip(lead + (number + gap + unit) + trail) == number + gap + unit
    ensures Split(number + gap + unit) == (number, gap, unit)
  {
    NumberEnds(number);
    StripText(lead, number + gap + unit, trail);
    SplitOf(number, gap, unit);
  }

  /** The number a text starts with, as its digits before and after the point. */
  lemma NumberSpelled(number: string)
    requires IsNumber(number)
    ensures number == Spelling(Whole(number), Frac(number))
  {
  }

  /** What stripping removes. */
  lemma StripSplit(input: string) returns (lead: string, trail: string)
    ensures input == lead + Strip(input) + trail && AllSpace(lead) && AllSpace(trail)
  {
    lead := input[..Run(IsSpace, input)];
    var rest := input[|lead|..];
    trail := StripRightTail(rest);
    assert input == lead + rest;
    Regroup(lead, Strip(input), trail);
  }

  lemma {:induction false} StripRightTail(s: string) returns (tail: string)
    ensures s == StripRight(s) + tail && AllSpace(tail)
  {
    if s != "" && IsSpace(s[|s| - 1]) {
      var front := s[..|s| - 1];
      tail := StripRightTail(front);
      var last := s[|s| - 1..];
      assert s == front + last;
      Regroup(StripRight(front), tail, last);
      tail := tail + last;
    } else {
      tail := "";
    }
  }

  /** Any text that starts with a number once stripped, part by part. */
  lemma TextParts(input: string)
    returns (lead: string, w: string, f: string, gap: string, unit: string, trail: string)
    requires Split(Strip(input)).0 != ""
    ensures w != "" && AllDigits(w) && AllDigits(f) && AllSpace(lead) && AllSpace(gap) && AllSpace(trail)
    ensures input == lead + (Spelling(w, f) + gap + unit) + trail
    ensures Split(Strip(input)) == (Spelling(w, f), gap, unit)
  {
    lead, trail := StripSplit(input);
    var parts := Split(Strip(input));
    w, f, gap, unit := Whole(parts.0), Frac(parts.0), parts.1, parts.2;
    NumberSpelled(parts.0);
  }

  lemma DigitsOnly(w: string, f: string)
    requires w != "" && AllDigits(w) && AllDigits(f)
    ensures AllDigits(Spelling(w, f)) <==> f == ""
  {
    if f != "" {
      assert !IsDigit(Spelling(w, f)[|w|]);
    }
  }

  /** Any NEAR amount in any spacing and case reads as exactly the number it spells, unless it is too fine. */
  lemma AmountReads(lead: string, w: string, f: string, gap: string, unit: string, trail: string)
    requires w != "" && AllDigits(w) && AllDigits(f) && InAnyCase(unit, "near")
    requires AllSpace(lead) && AllSpace(gap) && gap != "" && AllSpace(trail)
    ensures ParseAmount(lead + (Spelling(w, f) + gap + unit) + trail)
            == if |f| <= 24 then Success(Denotes(w, f, 24)) else Failure(TooManyDecimals)
  {
    ParsingIsExact(w, f, 24);
    NamedUnits(unit);
    SplitText(lead, Spelling(w, f), gap, unit, trail);
  }

  /** Digits followed by yocto or yoctoNEAR, in any spacing and case, read as the number they spell. */
  lemma YoctoReads(lead: string, digits: string, gap: string, unit: string, trail: string)
    requires digits != "" && AllDigits(digits) && (InAnyCase(unit, "yocto") || InAnyCase(unit, "yoctonear"))
    requires AllSpace(lead) && AllSpace(gap) && gap != "" && AllSpace(trail)
    ensures ParseAmount(lead + (digits + gap + unit) + trail) == Success(ToNat(digits))
  {
    NamedUnits(unit);
    DigitsAreNumber(digits);
    SplitText(lead, digits, gap, unit, trail);
  }

  /** A number without a unit is refused as ambiguous, whatever whitespace is around it. */
  lemma BareNumberAmbiguous(lead: string, w: string, f: string, trail: string)
    requires w != "" && AllDigits(w) && AllDigits(f) && AllSpace(lead) && AllSpace(trail)
    ensures ParseAmount(lead + Spelling(w, f) + trail) == Failure(Ambiguous)
  {
    var number := Spelling(w, f);
    SpellingParts(w, f);
    SplitText(lead, number, "", "", trail);
    assert number + "" + "" == number;
  }

  /**
  Everything else is an invalid format: a text read as an amount is a NEAR
  amount or yocto digits, with the value it spells; one refused otherwise is a
  NEAR amount that is too fine or a bare number.
  */
  lemma AmountAcceptsOnly(input: string)
    returns (lead: string, w: string, f: string, gap: string, unit: string, trail: string)
    requires ParseAmount(input) != Failure(InvalidFormat)
    ensures input == lead + (Spelling(w, f) + gap + unit) + trail
    ensures w != "" && AllDigits(w) && AllDigits(f) && AllSpace(lead) && AllSpace(gap) && AllSpace(trail)
    ensures match ParseAmount(input)
            case Success(yocto) =>
              gap != "" && ((InAnyCase(unit, "near") && |f| <= 24 && yocto == Denotes(w, f, 24)) ||
                            ((InAnyCase(unit, "yocto") || InAnyCase(unit, "yoctonear")) && f == "" && yocto == ToNat(w)))
            case Failure(Ambiguous) => gap == "" && unit == ""
            case Failure(error) => error == TooManyDecimals && gap != "" && InAnyCase(unit, "near") && |f| > 24
  {
    lead, w, f, gap, unit, trail := TextParts(input);
    NamedUnits(unit);
    DigitsOnly(w, f);
    ParsingIsExact(w, f, 24);
  }

  /** Any Tgas amount in any spacing and case reads as exactly the gas it spells, unless it is too fine. */
  lemma GasReads(lead: string, w: string, f: string, gap: string, unit: string, trail: string)
    requires w != "" && AllDigits(w) && AllDigits(f) && InAnyCase(unit, "tgas")
    requires AllSpace(lead) && AllSpace(gap) && gap != "" && AllSpace(trail)
    ensures ParseGas(lead + (Spelling(w, f) + gap + unit) + trail)
            == if |f| <= 12 then Success(Denotes(w, f, 12)) else Failure(TooManyDecimals)
  {
    ParsingIsExact(w, f, 12);
    NamedUnits(unit);
    SplitText(lead, Spelling(w, f), gap, unit, trail);
  }

  /** Bare digits are raw gas units. */
  lemma RawGasReads(lead: string, digits: string, trail: string)
    requires digits != "" && AllDigits(digits) && AllSpace(lead) && AllSpace(trail)
    ensures ParseGas(lead + digits + trail) == Success(ToNat(digits))
  {
    DigitsAreNumber(digits);
    SplitText(lead, digits, "", "", trail);
    assert digits + "" + "" == digits;
  }

  /** No other text is read as gas. */
  lemma GasAcceptsOnly(input: string)
    returns (lead: string, w: string, f: string, gap: string, unit: string, trail: string)
    requires ParseGas(input) != Failure(InvalidFormat)
    ensures input == lead + (Spelling(w, f) + gap + unit) + trail
    ensures w != "" && AllDigits(w) && AllDigits(f) && AllSpace(lead) && AllSpace(gap) && AllSpace(trail)
    ensures match ParseGas(input)
            case Success(gas) =>
              (gap != "" && InAnyCase(unit, "tgas") && |f| <= 12 && gas == Denotes(w, f, 12)) ||
              (gap == "" && unit == "" && f == "" && gas == ToNat(w))
            case Failure(error) => error == TooManyDecimals && gap != "" && InAnyCase(unit, "tgas") && |f| > 12
  {
    GasText(Strip(input));
    lead, w, f, gap, unit, trail := TextParts(input);
    GasParts(Strip(input), w, f, gap, unit);
  }

  lemma GasText(text: string)
    ensures var parts := Split(text);
            GasOf(text, parts.0, parts.1, parts.2) == Failure(InvalidFormat) ||
            (parts.0 != "" && (AllDigits(text) ==> parts == (text, "", "")))
  {
    if text != "" && AllDigits(text) {
      DigitsAreNumber(text);
      assert text + "" + "" == text;
      SplitOf(text, "", "");
    }
  }

  lemma GasParts(text: string, w: string, f: string, gap: string, unit: string)
    requires w != "" && AllDigits(w) && AllDigits(f) && IsNumber(Spelling(w, f))
    requires AllDigits(text) ==> (text, "", "") == (Spelling(w, f), gap, unit)
    ensures match GasOf(text, Spelling(w, f), gap, unit)
            case Success(gas) =>
              (gap != "" && InAnyCase(unit, "tgas") && |f| <= 12 && gas == Denotes(w, f, 12)) ||
              (gap == "" && unit == "" && f == "" && gas == ToNat(w))
            case Failure(error) =>
              error == InvalidFormat || (error == TooManyDecimals && gap != "" && InAnyCase(unit, "tgas") && |f| > 12)
  {
    NamedUnits(unit);
    DigitsOnly(w, f);
    ParsingIsExact(w, f, 12);
  }

  /**
  A token amount with a symbol reads as exactly the number it spells when the
  symbol is the token's in any case, unless it is too fine; any other symbol is
  refused.
  */
  lemma TokenReads(lead: string, w: string, f: string, gap: string, unit: string, trail: string,
                   symbol: string, decimals: nat)
    requires w != "" && AllDigits(w) && AllDigits(f) && unit != "" && SpaceFree(unit)
    requires AllSpace(lead) && AllSpace(gap) && gap != "" && AllSpace(trail)
    ensures ParseToken(lead + (Spelling(w, f) + gap + unit) + trail, symbol, decimals)
            == if !InAnyCase(unit, symbol) then Failure(SymbolMismatch)
               else if |f| <= decimals then Success(Denotes(w, f, decimals)) else Failure(TooManyDecimals)
  {
    ParsingIsExact(w, f, decimals);
    UpperAlike(unit, symbol);
    SplitText(lead, Spelling(w, f), gap, unit, trail);
  }

  /** A token amount may leave the symbol out. */
  lemma BareTokenReads(lead: string, w: string, f: string, trail: string, symbol: string, decimals: nat)
    requires w != "" && AllDigits(w) && AllDigits(f) && AllSpace(lead) && AllSpace(trail)
    ensures ParseToken(lead + Spelling(w, f) + trail, symbol, decimals)
            == if |f| <= decimals then Success(Denotes(w, f, decimals)) else Failure(TooManyDecimals)
  {
    var number := Spelling(w, f);
    ParsingIsExact(w, f, decimals);
    SplitText(lead, number, "", "", trail);
    assert number + "" + "" == number;
  }

  /** No other text is read as a token amount: a number, and at most one more word. */
  lemma TokenAcceptsOnly(input: string, symbol: string, decimals: nat)
    returns (lead: string, w: string, f: string, gap: string, unit: string, trail: string)
    requires ParseToken(input, symbol, decimals) != Failure(InvalidFormat)
    ensures input == lead + (Spelling(w, f) + gap + unit) + trail
    ensures w != "" && AllDigits(w) && AllDigits(f) && AllSpace(lead) && AllSpace(gap) && AllSpace(trail)
    ensures SpaceFree(unit) && (gap == "" <==> unit == "")
    ensures match ParseToken(input, symbol, decimals)
            case Success(raw) => (unit == "" || InAnyCase(unit, symbol)) && |f| <= decimals && raw == Denotes(w, f, decimals)
            case Failure(SymbolMismatch) => unit != "" && !InAnyCase(unit, symbol)
            case Failure(error) => error == TooManyDecimals && (unit == "" || InAnyCase(unit, symbol)) && |f| > decimals
  {
    lead, w, f, gap, unit, trail := TextParts(input);
    UpperAlike(unit, symbol);
    ParsingIsExact(w, f, decimals);
  }

  /** The powers of ten behind the units, spelled out. */
  lemma Magnitudes()
    ensures Pow10(12) == 1_000_000_000_000
    ensures Pow10(21) == 1_000_000_000_000_000_000_000
    ensures Pow10(24) == 1_000_000_000_000_000_000_000_000
  {
    Pow10Add(12, 9);
    Pow10Add(12, 12);
  }

  // ---------- Printing then parsing ----------

  /** A printed number and unit are a text with nothing around them and one space between. */
  lemma PrintedText(number: string, unit: string)
    ensures WithUnit(number, unit) == "" + (number + " " + unit) + ""
  {
  }

  lemma DustRoundTrip(yocto: nat)
    ensures ParseAmount(WithUnit(OfNat(yocto), "yocto")) == Success(yocto)
  {
    ReadPrinted(yocto);
    PrintedText(OfNat(yocto), "yocto");
    YoctoReads("", OfNat(yocto), " ", "yocto", "");
  }

  lemma NearRoundTrip(yocto: nat)
    ensures ParseAmount(FormatScaled(yocto, NEAR_SCALE, "NEAR")) == Success(yocto)
  {
    var w, f := PrintsCanonically(yocto, NEAR_SCALE);
    PrintedText(Spelling(w, f), "NEAR");
    AmountReads("", w, f, " ", "NEAR", "");
  }

  /** `Amount(str(a)) == a`, on both sides of the switch from yocto to NEAR. */
  lemma AmountRoundTrip(yocto: nat)
    ensures ParseAmount(PrintAmount(yocto)) == Success(yocto)
  {
    DustRoundTrip(yocto);
    NearRoundTrip(yocto);
  }

  /**
  Exactly the amounts whose NEAR spelling would start 0.000 are printed in
  yocto; every other one is printed as its NEAR spelling.
  */
  lemma DustReadsAsYocto(w: string, f: string)
    requires Canonical(w, f) && |f| <= 24
    ensures var yocto := Denotes(w, f, 24);
            PrintAmount(yocto) ==
            if w == "0" && |f| > 3 && f[..3] == "000" then OfNat(yocto) + " yocto" else Spelling(w, f) + " NEAR"
  {
    var yocto := Denotes(w, f, 24);
    DustSpelled(w, f, 24, DUST_DIGITS, yocto);
    ThreeZeros();
    UnitAfter(OfNat(yocto), "yocto", " yocto");
    UnitAfter(Spelling(w, f), "NEAR", " NEAR");
  }

  lemma DustSpelled(w: string, f: string, scale: nat, dust: nat, value: nat)
    requires Canonical(w, f) && |f| <= scale && dust <= scale && value == Denotes(w, f, scale)
    ensures 0 < value < Pow10(dust) <==> w == "0" && |f| > scale - dust && f[..scale - dust] == Zeros(scale - dust)
    ensures FormatScaled(value, scale, "NEAR") == WithUnit(Spelling(w, f), "NEAR")
  {
    CanonicalIsPrinted(w, f, scale);
    if value > 0 {
      SmallNumbers(w, f, scale, scale - dust);
    } else {
      NothingToPrint(w, f, scale);
    }
  }

  /** Gas prints as its Tgas spelling, and a token amount as its spelling and the symbol. */
  lemma GasAndTokensPrint(w: string, f: string, symbol: string, decimals: nat)
    requires Canonical(w, f)
    ensures |f| <= 12 ==> PrintGas(Denotes(w, f, 12)) == Spelling(w, f) + " Tgas"
    ensures |f| <= decimals ==> PrintToken(Denotes(w, f, decimals), symbol, decimals) == Spelling(w, f) + " " + symbol
  {
    UnitAfter(Spelling(w, f), "Tgas", " Tgas");
    if |f| <= 12 {
      CanonicalIsPrinted(w, f, 12);
    }
    if |f| <= decimals {
      CanonicalIsPrinted(w, f, decimals);
    }
  }

  lemma UnitAfter(number: string, unit: string, spaced: string)
    requires spaced == " " + unit
    ensures WithUnit(number, unit) == number + spaced
  {
  }

  lemma ThreeZeros()
    ensures NEAR_SCALE - DUST_DIGITS == 3 && Zeros(3) == "000"
  {
    assert Zeros(1) == "0" && Zeros(2) == "00";
  }

  lemma NothingToPrint(w: string, f: string, scale: nat)
    requires Canonical(w, f) && |f| <= scale && Denotes(w, f, scale) == 0
    ensures f == ""
  {
    if f != "" {
      FractionPrints(f, scale);
      SumOfNothing(ToNat(w), Pow10(scale), ToNat(f) * Pow10(scale - |f|));
    }
  }

  lemma SumOfNothing(a: nat, b: nat, c: nat)
    requires a * b + c == 0
    ensures c == 0
  {
    assert a * b >= 0;
  }

  lemma DigitsAreNumber(s: string)
    requires s != "" && AllDigits(s)
    ensures IsNumber(s)
  {
    RunOf(IsDigit, s, "");
    assert s + "" == s;
  }

  /** `Gas(str(g)) == g`. */
  lemma GasRoundTrip(gas: nat)
    ensures ParseGas(PrintGas(gas)) == Success(gas)
  {
    var w, f := PrintsCanonically(gas, TGAS_SCALE);
    PrintedText(Spelling(w, f), "Tgas");
    GasReads("", w, f, " ", "Tgas", "");
  }

  /** `TokenAmount.parse(str(t), m) == t` exactly for symbols without whitespace, or of nothing but whitespace. */
  lemma TokenRoundTrip(raw: nat, symbol: string, decimals: nat)
    ensures ParseToken(PrintToken(raw, symbol, decimals), symbol, decimals) == Success(raw)
            <==> SpaceFree(symbol) || AllSpace(symbol)
  {
    var number := FormatNumber(raw, decimals);
    PrintThenParse(raw, decimals);
    if AllSpace(symbol) {
      BlankSymbolReads(number, symbol, decimals);
    } else if SpaceFree(symbol) {
      SpaceFreeSymbolReads(number, symbol, decimals);
    } else {
      SpacedSymbolFails(number, symbol, decimals);
    }
  }

  lemma SpaceFreeSymbolReads(number: string, symbol: string, decimals: nat)
    requires IsNumber(number) && SpaceFree(symbol) && symbol != ""
    ensures ParseToken(WithUnit(number, symbol), symbol, decimals) == DecimalToScaled(number, decimals)
  {
    PrintedText(number, symbol);
    SplitText("", number, " ", symbol, "");
  }

  lemma BlankSymbolReads(number: string, symbol: string, decimals: nat)
    requires IsNumber(number) && AllSpace(symbol)
    ensures ParseToken(WithUnit(number, symbol), symbol, decimals) == DecimalToScaled(number, decimals)
  {
    NumberEnds(number);
    assert WithUnit(number, symbol) == "" + number + (" " + symbol);
    StripText("", number, " " + symbol);
    SplitOf(number, "", "");
    assert number + "" + "" == number;
  }

  /** A printed amount whose symbol has text splits into the number and what stripping keeps of the symbol. */
  lemma SpacedSymbolSplit(number: string, symbol: string) returns (gap: string, core: string)
    requires IsNumber(number) && !AllSpace(symbol)
    ensures Split(Strip(WithUnit(number, symbol))) == (number, gap, core)
    ensures core != "" && gap != "" && !IsSpace(core[0]) && !IsSpace(core[|core| - 1])
    ensures |core| <= |symbol| && (|core| == |symbol| ==> core == symbol)
  {
    var lead;
    lead, core := SymbolCore(symbol);
    gap := " " + symbol[..lead];
    var trail := symbol[lead + |core|..];
    assert WithUnit(number, symbol) == "" + (number + gap + core) + trail;
    NumberEnds(number);
    StripText("", number + gap + core, trail);
    SplitOf(number, gap, core);
  }

  /** A symbol with both whitespace and text: what is left of it has whitespace or is too short. */
  lemma SpacedSymbolFails(number: string, symbol: string, decimals: nat)
    requires IsNumber(number) && !SpaceFree(symbol) && !AllSpace(symbol)
    ensures ParseToken(WithUnit(number, symbol), symbol, decimals).Failure?
  {
    var gap, core := SpacedSymbolSplit(number, symbol);
    assert |Upper(core)| == |core| && |Upper(symbol)| == |symbol|;
  }

  /** The part of a symbol that stripping keeps. */
  lemma SymbolCore(symbol: string) returns (lead: nat, core: string)
    requires !AllSpace(symbol)
    ensures lead + |core| <= |symbol| && core == symbol[lead..lead + |core|]
    ensures AllSpace(symbol[..lead]) && AllSpace(symbol[lead + |core|..])
    ensures core != "" && !IsSpace(core[0]) && !IsSpace(core[|core| - 1])
  {
    lead := Run(IsSpace, symbol);
    var rest := symbol[lead..];
    core := StripRight(rest);
    StripRightSplit(rest);
    assert lead < |symbol| && rest[0] == symbol[lead];
    forall k | |core| <= k < |rest| ensures IsSpace(rest[k]) && rest[k] == symbol[lead + k] {}
  }

  lemma {:induction false} StripRightSplit(s: string)
    ensures |StripRight(s)| <= |s| && s[..|StripRight(s)|] == StripRight(s)
    ensures forall k :: |StripRight(s)| <= k < |s| ==> IsSpace(s[k])
    ensures StripRight(s) != "" ==> !IsSpace(StripRight(s)[|StripRight(s)| - 1])
  {
    if s != "" && IsSpace(s[|s| - 1]) {
      StripRightSplit(s[..|s| - 1]);
    }
  }
}
