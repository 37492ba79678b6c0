/** Regular expressions as sets of strings, and Python's end-of-string anchor. */
module Regex {

  datatype Re =
    | Class(chars: set<char>)
    | Cat(left: Re, right: Re)
    | Star(body: Re)

  /** The strings a pattern matches from end to end. */
  ghost predicate Matches(re: Re, s: string)
    decreases |s|, re
  {
    match re
    case Class(chars) => |s| == 1 && s[0] in chars
    case Cat(left, right) => exists i :: 0 <= i <= |s| && Matches(left, s[..i]) && Matches(right, s[i..])
    case Star(body) => s == "" || exists i :: 0 < i <= |s| && Matches(body, s[..i]) && Matches(re, s[i..])
  }

  function Plus(re: Re): Re {
    Cat(re, Star(re))
  }

  /** `re{n}`, for n of at least one. */
  function Times(re: Re, n: nat): Re {
    if n <= 1 then re else Cat(re, Times(re, n - 1))
  }

  /** `^re$`: the anchor `$` also matches before one newline that ends the string. */
  ghost predicate Anchored(re: Re, s: string) {
    || Matches(re, s)
    || (s != "" && s[|s| - 1] == '\n' && Matches(re, s[..|s| - 1]))
  }

  lemma CatIntro(left: Re, right: Re, a: string, b: string)
    requires Matches(left, a) && Matches(right, b)
    ensures Matches(Cat(left, right), a + b)
  {
    var s := a + b;
    assert s[..|a|] == a && s[|a|..] == b;
  }

  lemma StarIntro(body: Re, a: string, b: string)
    requires a != "" && Matches(body, a) && Matches(Star(body), b)
    ensures Matches(Star(body), a + b)
  {
    var s := a + b;
    assert s[..|a|] == a && s[|a|..] == b;
  }

  lemma CatElim(left: Re, right: Re, s: string) returns (a: string, b: string)
    requires Matches(Cat(left, right), s)
    ensures s == a + b && Matches(left, a) && Matches(right, b)
  {
    var i :| 0 <= i <= |s| && Matches(left, s[..i]) && Matches(right, s[i..]);
    a, b := s[..i], s[i..];
  }

  lemma StarElim(body: Re, s: string) returns (a: string, b: string)
    requires Matches(Star(body), s) && s != ""
    ensures s == a + b && a != "" && Matches(body, a) && Matches(Star(body), b)
  {
    var i :| 0 < i <= |s| && Matches(body, s[..i]) && Matches(Star(body), s[i..]);
    a, b := s[..i], s[i..];
  }

  lemma {:induction false} TimesOfClass(chars: set<char>, n: nat, s: string)
    requires n > 0
    ensures Matches(Times(Class(chars), n), s) <==> |s| == n && forall i :: 0 <= i < n ==> s[i] in chars
    decreases n
  {
    if n > 1 {
      var rest := Times(Class(chars), n - 1);
      if Matches(Cat(Class(chars), rest), s) {
        var a, b := CatElim(Class(chars), rest, s);
        TimesOfClass(chars, n - 1, b);
      }
      if |s| == n && forall i :: 0 <= i < n ==> s[i] in chars {
        TimesOfClass(chars, n - 1, s[1..]);
        CatIntro(Class(chars), rest, s[..1], s[1..]);
        assert s == s[..1] + s[1..];
      }
    }
  }

  // ---------- Words joined by separators ----------

  /** One pass over s: only these characters, no separator first or last, no two separators in a row. */
  predicate Joined(s: string, chars: set<char>, seps: set<char>) {
    && s != ""
    && (forall i :: 0 <= i < |s| ==> s[i] in chars || s[i] in seps)
    && s[0] !in seps && s[|s| - 1] !in seps
    && (forall i :: 0 < i < |s| && s[i - 1] in seps ==> s[i] !in seps)
  }

  /** `(re[seps])*re`. */
  function SeparatedBy(re: Re, seps: set<char>): Re {
    Cat(Star(Cat(re, Class(seps))), re)
  }

  ghost predicate MeansJoined(re: Re, chars: set<char>, seps: set<char>) {
    forall s :: Matches(re, s) <==> Joined(s, chars, seps)
  }

  /** `[chars]+` is words without separators. */
  lemma PlusMeansJoined(chars: set<char>)
    ensures MeansJoined(Plus(Class(chars)), chars, {})
  {
    forall s ensures Matches(Plus(Class(chars)), s) <==> Joined(s, chars, {}) {
      if Matches(Plus(Class(chars)), s) {
        var a, b := CatElim(Class(chars), Star(Class(chars)), s);
        StarOfClass(chars, b);
      }
      if Joined(s, chars, {}) {
        StarOfClass(chars, s[1..]);
        CatIntro(Class(chars), Star(Class(chars)), s[..1], s[1..]);
        assert s == s[..1] + s[1..];
      }
    }
  }

  lemma {:induction false} StarOfClass(chars: set<char>, s: string)
    ensures Matches(Star(Class(chars)), s) <==> forall i :: 0 <= i < |s| ==> s[i] in chars
    decreases |s|
  {
    if s != "" {
      if Matches(Star(Class(chars)), s) {
        var a, b := StarElim(Class(chars), s);
        StarOfClass(chars, b);
      }
      if forall i :: 0 <= i < |s| ==> s[i] in chars {
        StarOfClass(chars, s[1..]);
        StarIntro(Class(chars), s[..1], s[1..]);
        assert s == s[..1] + s[1..];
      }
    }
  }

  lemma JoinedConcat(a: string, d: char, b: string, chars: set<char>, inner: set<char>, outer: set<char>)
    requires chars !! inner && chars !! outer && inner !! outer
    requires Joined(a, chars, inner) && d in outer && Joined(b, chars, inner + outer)
    ensures Joined(a + [d] + b, chars, inner + outer)
  {
  }

  /** A match of `(re[seps])*re` is one match of re, or a first one, a separator, and the rest. */
  lemma SeparatedElim(re: Re, seps: set<char>, s: string) returns (t: string, d: string, u: string)
    requires Matches(SeparatedBy(re, seps), s)
    ensures s == t + d + u && Matches(re, t)
    ensures d == u == "" || (|d| == 1 && d[0] in seps && Matches(SeparatedBy(re, seps), u))
  {
    var pair := Cat(re, Class(seps));
    var a, b := CatElim(Star(pair), re, s);
    if a == "" {
      t, d, u := b, "", "";
    } else {
      var p, rest := StarElim(pair, a);
      t, d := CatElim(re, Class(seps), p);
      u := rest + b;
      CatIntro(Star(pair), re, rest, b);
    }
  }

  lemma SeparatedOne(re: Re, seps: set<char>, s: string)
    requires Matches(re, s)
    ensures Matches(SeparatedBy(re, seps), s)
  {
    CatIntro(Star(Cat(re, Class(seps))), re, "", s);
    assert "" + s == s;
  }

  lemma StarMore(re: Re, seps: set<char>, t: string, d: string, a: string)
    requires Matches(re, t) && Matches(Class(seps), d) && Matches(Star(Cat(re, Class(seps))), a)
    ensures Matches(Star(Cat(re, Class(seps))), t + d + a)
  {
    CatIntro(re, Class(seps), t, d);
    StarIntro(Cat(re, Class(seps)), t + d, a);
  }

  lemma SeparatedMore(re: Re, seps: set<char>, t: string, d: string, u: string)
    requires Matches(re, t) && Matches(Class(seps), d) && Matches(SeparatedBy(re, seps), u)
    ensures Matches(SeparatedBy(re, seps), t + d + u)
  {
    var a, b := CatElim(Star(Cat(re, Class(seps))), re, u);
    StarMore(re, seps, t, d, a);
    assert t + d + u == (t + d + a) + b;
    CatIntro(Star(Cat(re, Class(seps))), re, t + d + a, b);
  }

  lemma {:induction false} SeparatedIsJoined(re: Re, chars: set<char>, inner: set<char>, outer: set<char>, s: string)
    requires chars !! inner && chars !! outer && inner !! outer && MeansJoined(re, chars, inner)
    requires Matches(SeparatedBy(re, outer), s)
    ensures Joined(s, chars, inner + outer)
    decreases |s|
  {
    var t, d, u := SeparatedElim(re, outer, s);
    assert Joined(t, chars, inner);
    if d == "" {
      assert s == t;
    } else {
      SeparatedIsJoined(re, chars, inner, outer, u);
      JoinedConcat(t, d[0], u, chars, inner, outer);
      assert d == [d[0]];
    }
  }

  /** One pass over s splits at the first outer separator. */
  lemma JoinedSplit(s: string, k: nat, chars: set<char>, inner: set<char>, outer: set<char>)
    requires chars !! inner && chars !! outer && inner !! outer && Joined(s, chars, inner + outer)
    requires k == FirstIn(s, outer)
    ensures k == |s| ==> Joined(s, chars, inner)
    ensures k < |s| ==> Joined(s[..k], chars, inner) && Joined(s[k + 1..], chars, inner + outer)
  {
    if k < |s| {
      assert s[k] in inner + outer;
      assert k > 0 && k < |s| - 1;
      assert s[k - 1] !in inner + outer;
      assert s[k + 1] !in inner + outer;
    }
  }

  lemma {:induction false} JoinedIsSeparated(re: Re, chars: set<char>, inner: set<char>, outer: set<char>, s: string)
    requires chars !! inner && chars !! outer && inner !! outer && MeansJoined(re, chars, inner)
    requires Joined(s, chars, inner + outer)
    ensures Matches(SeparatedBy(re, outer), s)
    decreases |s|
  {
    var k := FirstIn(s, outer);
    JoinedSplit(s, k, chars, inner, outer);
    if k == |s| {
      SeparatedOne(re, outer, s);
    } else {
      JoinedIsSeparated(re, chars, inner, outer, s[k + 1..]);
      SeparatedMore(re, outer, s[..k], s[k..k + 1], s[k + 1..]);
      assert s == s[..k] + s[k..k + 1] + s[k + 1..];
    }
  }

  /** The first position of s with a character of the set, or its length. */
  function FirstIn(s: string, chars: set<char>): (k: nat)
    ensures k <= |s|
    ensures forall i :: 0 <= i < k ==> s[i] !in chars
    ensures k < |s| ==> s[k] in chars
  {
    if s == "" || s[0] in chars then 0 else 1 + FirstIn(s[1..], chars)
  }

  /** Joining by further separators means one pass with more separators. */
  lemma SeparatedMeansJoined(re: Re, chars: set<char>, inner: set<char>, outer: set<char>)
    requires chars !! inner && chars !! outer && inner !! outer && MeansJoined(re, chars, inner)
    ensures MeansJoined(SeparatedBy(re, outer), chars, inner + outer)
  {
    forall s ensures Matches(SeparatedBy(re, outer), s) <==> Joined(s, chars, inner + outer) {
      if Matches(SeparatedBy(re, outer), s) {
        SeparatedIsJoined(re, chars, inner, outer, s);
      }
      if Joined(s, chars, inner + outer) {
        JoinedIsSeparated(re, chars, inner, outer, s);
      }
    }
  }
}
