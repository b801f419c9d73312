/**
 * The parts of Python's `str` that the modelled code relies on: `strip`,
 * `strip(chars)`, `lower`, `in` on strings, `join`, and the decimal
 * rendering and parsing of non-negative integers.
 */
module Strings {

  /**
   * The characters for which Python's `str.isspace()` holds; these are also
   * the characters `\s` matches in a `str` regular expression.
   */
  const WHITESPACE: set<char> := {
    '\t', '\n', '\U{B}', '\U{C}', '\r', '\U{1C}', '\U{1D}', '\U{1E}', '\U{1F}', ' ',
    '\U{85}', '\U{A0}', '\U{1680}', '\U{2000}', '\U{2001}', '\U{2002}', '\U{2003}',
    '\U{2004}', '\U{2005}', '\U{2006}', '\U{2007}', '\U{2008}', '\U{2009}', '\U{200A}',
    '\U{2028}', '\U{2029}', '\U{202F}', '\U{205F}', '\U{3000}'
  }

  predicate IsDigit(c: char) {
    '0' <= c <= '9'
  }

  predicate AllDigits(s: string) {
    forall i :: 0 <= i < |s| ==> IsDigit(s[i])
  }

  predicate AllIn(s: string, cs: set<char>) {
    forall i :: 0 <= i < |s| ==> s[i] in cs
  }

  // ---------------------------------------------------------------------------
  // lower()

  /**
   * Lower-casing of one character as far as it matters for comparisons with
   * ASCII words: ASCII capitals and the Kelvin sign (whose lower case is 'k')
   * map to ASCII; every other character is kept.
   */
  function LowerChar(c: char): char {
    if 'A' <= c <= 'Z' then (c as int + 32) as char
    else if c == '\U{212A}' then 'k'
    else c
  }

  function Lower(s: string): (r: string)
    ensures |r| == |s|
    ensures forall i :: 0 <= i < |s| ==> r[i] == LowerChar(s[i])
  {
    if s == [] then [] else [LowerChar(s[0])] + Lower(s[1..])
  }

  lemma LowerConcat(a: string, b: string)
    ensures Lower(a + b) == Lower(a) + Lower(b)
  {
    assert forall i :: 0 <= i < |a + b| ==> Lower(a + b)[i] == (Lower(a) + Lower(b))[i];
  }

  /** `w.lower()` is `l` when `l` is `w` lowered character by character. */
  lemma LowerIs(w: string, l: string)
    requires |w| == |l| && forall i :: 0 <= i < |w| ==> l[i] == LowerChar(w[i])
    ensures Lower(w) == l
  {
  }

  /** Lower-casing keeps whitespace, so it never changes what `strip` removes. */
  lemma LowerKeepsWhitespace(c: char)
    ensures c in WHITESPACE <==> LowerChar(c) in WHITESPACE
  {
  }

  // ---------------------------------------------------------------------------
  // strip() and strip(chars)

  /** `s.lstrip(chars)` for the set of characters `cs`. */
  function TrimLeft(s: string, cs: set<char>): (r: string)
    ensures |r| <= |s| && r == s[|s| - |r|..]
    ensures r == [] || r[0] !in cs
    ensures forall i :: 0 <= i < |s| - |r| ==> s[i] in cs
  {
    if |s| > 0 && s[0] in cs then TrimLeft(s[1..], cs) else s
  }

  /** `s.rstrip(chars)` for the set of characters `cs`. */
  function TrimRight(s: string, cs: set<char>): (r: string)
    ensures |r| <= |s| && r == s[..|r|]
    ensures r == [] || r[|r| - 1] !in cs
    ensures forall i :: |r| <= i < |s| ==> s[i] in cs
  {
    if |s| > 0 && s[|s| - 1] in cs then TrimRight(s[..|s| - 1], cs) else s
  }

  /** `s.strip(chars)`: leading and trailing characters of `cs` removed. */
  function StripChars(s: string, cs: set<char>): string {
    TrimRight(TrimLeft(s, cs), cs)
  }

  /** `s.strip()`. */
  function Strip(s: string): string {
    StripChars(s, WHITESPACE)
  }

  /** Stripping leaves nothing exactly when every character is stripped. */
  lemma StripCharsEmptyIff(s: string, cs: set<char>)
    ensures StripChars(s, cs) == [] <==> AllIn(s, cs)
  {
    var t := TrimLeft(s, cs);
    if t != [] {
      assert t[0] !in cs;
      assert s[|s| - |t|] == t[0];
    }
  }

  /** What stripping returns has no strippable character at either end. */
  lemma StripCharsEnds(s: string, cs: set<char>)
    ensures var r := StripChars(s, cs); r == [] || (r[0] !in cs && r[|r| - 1] !in cs)
  {
    var t := TrimLeft(s, cs);
    var r := TrimRight(t, cs);
    if r != [] {
      assert r[0] == t[0];
    }
  }

  /** Stripping twice with the same characters is stripping once. */
  lemma StripCharsIdempotent(s: string, cs: set<char>)
    ensures StripChars(StripChars(s, cs), cs) == StripChars(s, cs)
  {
    var r := StripChars(s, cs);
    StripCharsEnds(s, cs);
    if r != [] {
      assert TrimLeft(r, cs) == r;
      assert TrimRight(r, cs) == r;
    }
  }

  /** Left-trimming never reaches past a kept first character of `y`. */
  lemma {:induction false} TrimLeftConcat(x: string, y: string, cs: set<char>)
    requires y == [] || y[0] !in cs
    ensures TrimLeft(x + y, cs) == TrimLeft(x, cs) + y
    decreases |x|
  {
    if x == [] {
      assert x + y == y;
    } else if x[0] in cs {
      assert (x + y)[1..] == x[1..] + y;
      TrimLeftConcat(x[1..], y, cs);
    }
  }

  /** Right-trimming never reaches past a kept last character of `x`. */
  lemma {:induction false} TrimRightConcat(x: string, y: string, cs: set<char>)
    requires x == [] || x[|x| - 1] !in cs
    ensures TrimRight(x + y, cs) == x + TrimRight(y, cs)
    decreases |y|
  {
    if y == [] {
      assert x + y == x;
      if x != [] {
        assert (x + y)[|x + y| - 1] == x[|x| - 1];
      }
    } else if y[|y| - 1] in cs {
      assert (x + y)[..|x + y| - 1] == x + y[..|y| - 1];
      TrimRightConcat(x, y[..|y| - 1], cs);
    }
  }

  /**
   * A word that begins and ends with characters outside `cs` survives
   * stripping of the text around it: only the surrounding text is trimmed.
   */
  lemma StripCharsInfix(a: string, w: string, b: string, cs: set<char>)
    requires w != [] && w[0] !in cs && w[|w| - 1] !in cs
    ensures StripChars(a + w + b, cs) == TrimLeft(a, cs) + w + TrimRight(b, cs)
  {
    assert a + w + b == a + (w + b);
    TrimLeftConcat(a, w + b, cs);
    var a' := TrimLeft(a, cs);
    assert a' + (w + b) == (a' + w) + b;
    TrimRightConcat(a' + w, b, cs);
  }

  lemma StripCharsKeepsInfix(a: string, w: string, b: string, cs: set<char>)
    requires w != [] && w[0] !in cs && w[|w| - 1] !in cs
    ensures Contains(StripChars(a + w + b, cs), w)
  {
    StripCharsInfix(a, w, b, cs);
    ContainsInfix(TrimLeft(a, cs), w, TrimRight(b, cs));
  }

  // ---------------------------------------------------------------------------
  // `w in s`, startswith, join

  /** `w` occurs in `s` starting at index `i`. */
  predicate OccursAt(s: string, w: string, i: int) {
    0 <= i <= |s| - |w| && s[i..i + |w|] == w
  }

  /** Python's `w in s` on strings. */
  predicate Contains(s: string, w: string) {
    exists i :: 0 <= i <= |s| - |w| && OccursAt(s, w, i)
  }

  /** A word whose first character is missing where it could start does not occur. */
  lemma NotContainsHead(s: string, w: string)
    requires w != [] && forall i :: 0 <= i <= |s| - |w| ==> s[i] != w[0]
    ensures !Contains(s, w)
  {
    forall i | 0 <= i <= |s| - |w| ensures !OccursAt(s, w, i) {
      assert s[i..i + |w|][0] == s[i];
    }
  }

  lemma ContainsInfix(a: string, w: string, b: string)
    ensures Contains(a + w + b, w)
  {
    assert (a + w + b)[|a|..|a| + |w|] == w;
    assert OccursAt(a + w + b, w, |a|);
  }

  predicate StartsWith(s: string, p: string) {
    |p| <= |s| && s[..|p|] == p
  }

  /** `sep.join(parts)`. */
  function Join(sep: string, parts: seq<string>): string
    decreases |parts|
  {
    if |parts| == 0 then ""
    else if |parts| == 1 then parts[0]
    else parts[0] + sep + Join(sep, parts[1..])
  }

  // ---------------------------------------------------------------------------
  // str(n) and int(digits) on non-negative integers

  function DigitChar(d: nat): (c: char)
    requires d < 10
    ensures IsDigit(c) && c as int - '0' as int == d
  {
    (48 + d) as char
  }

  /** Python's `str(n)` for `n >= 0`. */
  function Decimal(n: nat): (r: string)
    ensures r != [] && AllDigits(r)
  {
    if n < 10 then [DigitChar(n)] else Decimal(n / 10) + [DigitChar(n % 10)]
  }

  /** Python's `int(s)` on a non-empty run of ASCII digits. */
  function DigitsValue(s: string): nat
    requires AllDigits(s)
  {
    if s == [] then 0 else DigitsValue(s[..|s| - 1]) * 10 + (s[|s| - 1] as int - '0' as int)
  }

  /** Reading back the decimal rendering of a number gives the number. */
  lemma {:induction false} DecimalRoundTrip(n: nat)
    ensures DigitsValue(Decimal(n)) == n
  {
    var s := Decimal(n);
    if n >= 10 {
      assert s[..|s| - 1] == Decimal(n / 10);
      DecimalRoundTrip(n / 10);
    }
  }
}
