/**
 * The pieces of Python's regular expressions on `str` that the judges'
 * parsers use: greedy runs of `\s` and of digits, and literal text matched
 * exactly or under `re.IGNORECASE`.
 */
module Patterns {
  import opened Strings

  /** Where a greedy `\s*` from `i` stops. */
  function SpacesEnd(s: string, i: nat): (j: nat)
    requires i <= |s|
    ensures i <= j <= |s| && (j == |s| || s[j] !in WHITESPACE)
    ensures forall k :: i <= k < j ==> s[k] in WHITESPACE
    decreases |s| - i
  {
    if i < |s| && s[i] in WHITESPACE then SpacesEnd(s, i + 1) else i
  }

  /** Where a greedy run of ASCII digits from `i` stops. */
  function DigitsEnd(s: string, i: nat): (j: nat)
    requires i <= |s|
    ensures i <= j <= |s| && (j == |s| || !IsDigit(s[j]))
    ensures forall k :: i <= k < j ==> IsDigit(s[k])
    decreases |s| - i
  {
    if i < |s| && IsDigit(s[i]) then DigitsEnd(s, i + 1) else i
  }

  /** A run of digits from `i` ends where the first non-digit after it is. */
  lemma DigitsEndAt(s: string, i: nat, j: nat)
    requires i <= j <= |s| && (forall k :: i <= k < j ==> IsDigit(s[k])) && (j == |s| || !IsDigit(s[j]))
    ensures DigitsEnd(s, i) == j
  {
  }

  /** A run of whitespace from `i` ends where the first other character after it is. */
  lemma SpacesEndAt(s: string, i: nat, j: nat)
    requires i <= j <= |s| && (forall k :: i <= k < j ==> s[k] in WHITESPACE) && (j == |s| || s[j] !in WHITESPACE)
    ensures SpacesEnd(s, i) == j
  {
  }

  /**
   * The characters a pattern character matches under `re.IGNORECASE`: an
   * ASCII capital matches itself, its lower case and every character whose
   * lower case it is, and Python adds the dotless i to `I` and the long s
   * to `S`; other pattern characters match only themselves.
   */
  predicate CaselessEq(c: char, p: char) {
    if 'A' <= p <= 'Z' then
      c == p || c == LowerChar(p)
      || (p == 'I' && (c == '\U{130}' || c == '\U{131}'))
      || (p == 'S' && c == '\U{17F}')
      || (p == 'K' && c == '\U{212A}')
    else c == p
  }

  /** The literal `w` matches at `i` under `re.IGNORECASE`. */
  predicate CaselessAt(s: string, i: nat, w: string) {
    i + |w| <= |s| && forall k :: 0 <= k < |w| ==> CaselessEq(s[i + k], w[k])
  }

  /** The literal `w` matches at `i`. */
  predicate LiteralAt(s: string, i: nat, w: string) {
    i + |w| <= |s| && s[i..i + |w|] == w
  }

  /** Every text matches itself case-insensitively. */
  lemma CaselessAtSelf(w: string, rest: string)
    ensures CaselessAt(w + rest, 0, w)
  {
    forall k | 0 <= k < |w| ensures CaselessEq((w + rest)[k], w[k]) {
      assert (w + rest)[k] == w[k];
    }
  }
}
