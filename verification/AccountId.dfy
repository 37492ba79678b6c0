/** NEAR account ids: the naming rule, and the ids derived from initial state. */
module AccountId {
  import opened Regex

  const SEPARATORS: set<char> := {'-', '_'}
  const DOT: set<char> := {'.'}

  predicate IsAsciiDigit(c: char) {
    '0' <= c <= '9'
  }

  predicate IsLower(c: char) {
    'a' <= c <= 'z'
  }

  /** What `\d` may match: the ASCII digits and, in a text pattern, the decimal digits of other scripts. */
  ghost predicate DecimalDigits(digits: set<char>) {
    && (forall c: char :: IsAsciiDigit(c) ==> c in digits)
    && (forall c: char :: IsLower(c) ==> c !in digits)
    && digits !! SEPARATORS + DOT + {':', '\n'}
  }

  function AsciiDigits(): set<char> {
    set c: char | IsAsciiDigit(c)
  }

  function WordChars(digits: set<char>): set<char> {
    (set c: char | IsLower(c)) + digits
  }

  /** `(([a-z\d]+[-_])*[a-z\d]+\.)*([a-z\d]+[-_])*[a-z\d]+`. */
  function AccountIdRe(digits: set<char>): Re {
    SeparatedBy(SeparatedBy(Plus(Class(WordChars(digits))), SEPARATORS), DOT)
  }

  /** Words of letters and digits, joined one at a time by dashes, underscores and dots. */
  predicate Words(digits: set<char>, s: string) {
    Joined(s, WordChars(digits), SEPARATORS + DOT)
  }

  /** The naming rule proper: ASCII digits only. */
  predicate WellNamed(s: string) {
    Words(AsciiDigits(), s)
  }

  /** `is_valid_account_id`, where `\d` matches these digits. */
  ghost predicate Accepts(digits: set<char>, s: string) {
    2 <= |s| <= 64 && Anchored(AccountIdRe(digits), s)
  }

  /** Accepted, whichever scripts' digits count. */
  ghost predicate IsValid(s: string) {
    exists digits :: DecimalDigits(digits) && Accepts(digits, s)
  }

  /** The pattern accepts exactly what one pass accepts, give or take the final newline `$` overlooks. */
  lemma PatternIsOnePass(digits: set<char>, s: string)
    requires DecimalDigits(digits)
    ensures Matches(AccountIdRe(digits), s) <==> Words(digits, s)
    ensures Anchored(AccountIdRe(digits), s) <==>
              Words(digits, s) || (s != "" && s[|s| - 1] == '\n' && Words(digits, s[..|s| - 1]))
  {
    var chars := WordChars(digits);
    PlusMeansJoined(chars);
    SeparatedMeansJoined(Plus(Class(chars)), chars, {}, SEPARATORS);
    assert {} + SEPARATORS == SEPARATORS;
    SeparatedMeansJoined(SeparatedBy(Plus(Class(chars)), SEPARATORS), chars, SEPARATORS, DOT);
  }

  /** No digit of another script. */
  predicate AsciiOnly(digits: set<char>, s: string) {
    forall i :: 0 <= i < |s| && s[i] in digits ==> IsAsciiDigit(s[i])
  }

  lemma WordsAreNames(digits: set<char>, s: string)
    requires DecimalDigits(digits)
    ensures WellNamed(s) ==> Words(digits, s)
    ensures Words(digits, s) && AsciiOnly(digits, s) ==> WellNamed(s)
    ensures WellNamed(s) ==> forall i :: 0 <= i < |s| ==> s[i] != '\n'
  {
  }

  /**
   So a valid id is well named exactly when it neither ends in a newline nor
   holds a digit of another script.
   */
  lemma ValidIdsWellNamed(digits: set<char>, s: string)
    requires DecimalDigits(digits) && Accepts(digits, s)
    ensures WellNamed(s) <==> s[|s| - 1] != '\n' && AsciiOnly(digits, s)
  {
    PatternIsOnePass(digits, s);
    WordsAreNames(digits, s);
  }

  /** And both do occur: a name with a newline added, and two digits of another script. */
  lemma BothSlipThrough(digits: set<char>, s: string, d: char)
    requires DecimalDigits(digits)
    ensures 1 <= |s| <= 63 && WellNamed(s) ==> Accepts(digits, s + "\n") && !WellNamed(s + "\n")
    ensures d in digits && !IsAsciiDigit(d) ==> Accepts(digits, [d, d]) && !WellNamed([d, d])
  {
    var t := s + "\n";
    PatternIsOnePass(digits, t);
    WordsAreNames(digits, s);
    assert t[..|s|] == s && t[|s|] == '\n';
    PatternIsOnePass(digits, [d, d]);
    assert [d, d][0] == d;
  }

  predicate IsMark(c: char) {
    c == '-' || c == '_' || c == '.'
  }

  /** The rule character by character: lower-case letters, digits and single marks between them. */
  lemma WellNamedSpelled(s: string)
    ensures WellNamed(s) <==>
            && s != ""
            && (forall i :: 0 <= i < |s| ==> 'a' <= s[i] <= 'z' || '0' <= s[i] <= '9' || IsMark(s[i]))
            && !IsMark(s[0]) && !IsMark(s[|s| - 1])
            && (forall i :: 0 < i < |s| ==> !(IsMark(s[i - 1]) && IsMark(s[i])))
  {
    assert forall c :: c in SEPARATORS + DOT <==> IsMark(c);
    assert forall c :: c in WordChars(AsciiDigits()) <==> 'a' <= c <= 'z' || '0' <= c <= '9';
  }

  /** Ids of fewer than 2 or more than 64 characters are refused, all others go by the pattern alone. */
  lemma LengthRule(digits: set<char>, s: string)
    requires DecimalDigits(digits)
    ensures |s| == 0 || |s| == 1 || |s| >= 65 ==> !Accepts(digits, s)
    ensures 2 <= |s| <= 64 && WellNamed(s) ==> Accepts(digits, s)
  {
    PatternIsOnePass(digits, s);
    WordsAreNames(digits, s);
  }

  /** No valid id contains a colon. */
  lemma NoColon(s: string, i: nat)
    requires IsValid(s) && i < |s|
    ensures s[i] != ':'
  {
    var digits :| DecimalDigits(digits) && Accepts(digits, s);
    PatternIsOnePass(digits, s);
    if !Words(digits, s) && i < |s| - 1 {
      assert s[i] == s[..|s| - 1][i];
    }
  }

  // ---------- Deterministic ids ----------

  predicate IsHex(c: char) {
    '0' <= c <= '9' || 'a' <= c <= 'f'
  }

  predicate DeterministicShape(s: string) {
    |s| == 42 && s[0] == '0' && s[1] == 's' && forall i :: 2 <= i < 42 ==> IsHex(s[i])
  }

  /** `is_deterministic_account_id`, with the same anchor. */
  predicate IsDeterministic(s: string) {
    || DeterministicShape(s)
    || (s != "" && s[|s| - 1] == '\n' && DeterministicShape(s[..|s| - 1]))
  }

  /** Every id of the deterministic shape is a valid account id, and a well-named one. */
  lemma DeterministicIsValid(digits: set<char>, s: string)
    requires DecimalDigits(digits) && DeterministicShape(s)
    ensures Accepts(digits, s) && WellNamed(s) && IsDeterministic(s)
  {
    assert forall i :: 0 <= i < 42 ==> s[i] in WordChars(AsciiDigits());
    WordsAreNames(digits, s);
    PatternIsOnePass(digits, s);
  }

  const HEX: set<char> := {'0', '1', '2', '3', '4', '5', '6', '7', '8', '9', 'a', 'b', 'c', 'd', 'e', 'f'}

  /** `0s[0-9a-f]{40}`. */
  function DeterministicRe(): Re {
    Cat(Class({'0'}), Cat(Class({'s'}), Times(Class(HEX), 40)))
  }

  /** `is_deterministic_account_id` accepts exactly what its pattern does. */
  lemma DeterministicPattern(s: string)
    ensures Anchored(DeterministicRe(), s) <==> IsDeterministic(s)
  {
    ShapeMatches(s);
    if s != "" {
      ShapeMatches(s[..|s| - 1]);
    }
  }

  lemma ShapeMatches(s: string)
    ensures Matches(DeterministicRe(), s) <==> DeterministicShape(s)
  {
    if Matches(DeterministicRe(), s) {
      MatchHasShape(s);
    }
    if DeterministicShape(s) {
      ShapeHasMatch(s);
    }
  }

  lemma HexIsHex()
    ensures forall c :: c in HEX <==> IsHex(c)
  {
  }

  lemma MatchHasShape(s: string)
    requires Matches(DeterministicRe(), s)
    ensures DeterministicShape(s)
  {
    var tail := Times(Class(HEX), 40);
    var a, t := CatElim(Class({'0'}), Cat(Class({'s'}), tail), s);
    var b, u := CatElim(Class({'s'}), tail, t);
    HexIsHex();
    TimesOfClass(HEX, 40, u);
    assert s == a + (b + u);
  }

  lemma ShapeHasMatch(s: string)
    requires DeterministicShape(s)
    ensures Matches(DeterministicRe(), s)
  {
    var tail := Times(Class(HEX), 40);
    HexIsHex();
    TimesOfClass(HEX, 40, s[2..]);
    CatIntro(Class({'s'}), tail, s[1..2], s[2..]);
    assert s[1..] == s[1..2] + s[2..];
    CatIntro(Class({'0'}), Cat(Class({'s'}), tail), s[..1], s[1..]);
    assert s == s[..1] + s[1..];
  }
}
