/**
 * `ProfileJudge`: the user prompt, the parsing of a total score and of the
 * six category scores out of the judge model's answer, and the
 * short-circuit for profiles too short to judge. The model behind the
 * client is an oracle from the user prompt to the answer's text.
 */
module ProfileJudge {
  import opened Basics
  import opened Strings
  import opened Patterns

  // ---------------------------------------------------------------------------
  // The patterns and `re.search`

  /** The patterns the parsers search for; each captures one number. */
  datatype Pattern =
    // The name, then `\s*(\d+)\s*`, a slash, `\s*` and `100` (or `\d+` when
    // `hundred` is false); the name is matched case-insensitively.
    | Labeled(name: string, hundred: bool)
    // `(\d+)\s*`, a slash, `\s*` and `100`.
    | OutOfHundred
    // `(\d+)\s*$`.
    | Trailing

  /** From `e`: `\s*`, a slash, `\s*` and then `100`, or a digit when `hundred` is false. */
  predicate SlashAt(s: string, e: nat, hundred: bool)
    requires e <= |s|
  {
    var k := SpacesEnd(s, e);
    k < |s| && s[k] == '/'
    && var m := SpacesEnd(s, k + 1);
    if hundred then LiteralAt(s, m, "100") else m < |s| && IsDigit(s[m])
  }

  /**
   * `(\d+)`, then a slash pattern as in `SlashAt`, from `j`; and the number captured. The digit run is
   * greedy, and giving a digit back cannot help, since a digit is neither
   * whitespace nor `/`; so the capture is the whole run.
   */
  function NumberAt(s: string, j: nat, hundred: bool): Option<nat>
    requires j <= |s|
  {
    var e := DigitsEnd(s, j);
    if e > j && SlashAt(s, e, hundred) then Some(DigitsValue(s[j..e])) else None
  }

  /** The number a match of `p` starting at `i` captures, if `p` matches there. */
  function MatchAt(s: string, i: nat, p: Pattern): Option<nat>
    requires i <= |s|
  {
    match p
    case Labeled(name, hundred) =>
      if CaselessAt(s, i, name) then NumberAt(s, SpacesEnd(s, i + |name|), hundred) else None
    case OutOfHundred => NumberAt(s, i, true)
    case Trailing =>
      var e := DigitsEnd(s, i);
      if e > i && SpacesEnd(s, e) == |s| then Some(DigitsValue(s[i..e])) else None
  }

  /** What a match of `p` captures at each position of `s`, the end of `s` included. */
  function Matches(s: string, p: Pattern): (ms: seq<Option<nat>>)
    ensures |ms| == |s| + 1 && forall k :: 0 <= k <= |s| ==> ms[k] == MatchAt(s, k, p)
  {
    seq(|s| + 1, k requires 0 <= k <= |s| => MatchAt(s, k, p))
  }

  /** The first position at or after `i` where `ms` holds a capture. */
  function FirstSome(ms: seq<Option<nat>>, i: nat): (q: Option<nat>)
    requires i <= |ms|
    ensures q.Some? ==> i <= q.value < |ms| && ms[q.value].Some?
    ensures q.Some? ==> forall k :: i <= k < q.value ==> ms[k].None?
    ensures q.None? ==> forall k :: i <= k < |ms| ==> ms[k].None?
    decreases |ms| - i
  {
    if i == |ms| then None
    else if ms[i].Some? then Some(i)
    else FirstSome(ms, i + 1)
  }

  /** The number `re.search(p, s)` captures: that of the first position where `p` matches, if any. */
  function Search(s: string, p: Pattern): Option<nat> {
    var ms := Matches(s, p);
    match FirstSome(ms, 0)
    case Some(q) => ms[q]
    case None => None
  }

  /**
   * `re.search` finds nothing exactly when `p` matches nowhere; otherwise
   * it captures what `p` captures at some position, before which `p` does
   * not match.
   */
  lemma SearchIsFirst(s: string, p: Pattern)
    ensures Search(s, p).None? <==> forall k :: 0 <= k <= |s| ==> MatchAt(s, k, p).None?
    ensures Search(s, p).Some? ==>
      exists q :: 0 <= q <= |s| && Search(s, p) == MatchAt(s, q, p) && forall k :: 0 <= k < q ==> MatchAt(s, k, p).None?
  {
    var ms := Matches(s, p);
    var first := FirstSome(ms, 0);
    if first.Some? {
      var q := first.value;
      assert Search(s, p) == ms[q] == MatchAt(s, q, p);
      assert forall k :: 0 <= k < q ==> ms[k] == MatchAt(s, k, p);
    } else {
      assert forall k :: 0 <= k <= |s| ==> ms[k] == MatchAt(s, k, p);
    }
  }

  /** When `p` matches at the start, that is the match found. */
  lemma SearchAtStart(s: string, p: Pattern)
    requires MatchAt(s, 0, p).Some?
    ensures Search(s, p) == MatchAt(s, 0, p)
  {
    assert Matches(s, p)[0] == MatchAt(s, 0, p);
  }

  /** `min(hi, max(0, n))`. */
  function Clamp(n: int, hi: nat): (r: int)
    ensures 0 <= r <= hi
    ensures 0 <= n <= hi ==> r == n
    ensures n > hi ==> r == hi
  {
    if n < 0 then 0 else if n > hi then hi else n
  }

  // ---------------------------------------------------------------------------
  // _parse_score

  const TOTAL_LABEL := "TOTAL:"
  const MAX_SCORE := 100
  const DEFAULT_SCORE := 50

  /**
   * `_parse_score`: the first `TOTAL: N/100`, case-insensitive and clamped;
   * failing that, the first `N/100`, clamped; failing that, a number
   * ending the text, if it is at most 100; failing all, 50.
   */
  function ParseScore(response: string): (score: int)
    ensures 0 <= score <= MAX_SCORE
  {
    match Search(response, Labeled(TOTAL_LABEL, true))
    case Some(n) => Clamp(n, MAX_SCORE)
    case None =>
      match Search(response, OutOfHundred)
      case Some(n) => Clamp(n, MAX_SCORE)
      case None =>
        match Search(response, Trailing)
        case Some(n) => if n <= MAX_SCORE then n else DEFAULT_SCORE
        case None => DEFAULT_SCORE
  }

  /** A run of digits written at `j` and followed by `/` is the whole run from `j`. */
  lemma DigitRun(s: string, j: nat, d: string)
    requires d != [] && AllDigits(d) && j + |d| < |s| && s[j..j + |d|] == d && s[j + |d|] == '/'
    ensures DigitsEnd(s, j) == j + |d|
  {
    forall k | j <= k < j + |d| ensures IsDigit(s[k]) {
      assert s[k] == s[j..j + |d|][k - j];
    }
    DigitsEndAt(s, j, j + |d|);
  }

  /** A run of digits at `j`, then a slash pattern, is captured as the value of the run. */
  lemma NumberAtRun(s: string, j: nat, d: string, hundred: bool)
    requires d != [] && AllDigits(d) && j + |d| < |s| && s[j..j + |d|] == d && s[j + |d|] == '/'
    requires SlashAt(s, j + |d|, hundred)
    ensures NumberAt(s, j, hundred) == Some(DigitsValue(d))
  {
    DigitRun(s, j, d);
  }

  /** `/100` at `e` is the slash-and-hundred part of a pattern. */
  lemma SlashHundredAt(s: string, e: nat)
    requires e + 4 <= |s| && s[e..e + 4] == "/100"
    ensures s[e] == '/' && SlashAt(s, e, true)
  {
    assert s[e] == s[e..e + 4][0] == '/' && s[e + 1] == s[e..e + 4][1] == '1';
    SpacesEndAt(s, e, e);
    SpacesEndAt(s, e + 1, e + 1);
    assert s[e + 1..e + 4] == s[e..e + 4][1..];
  }

  /** Digits written after `pre` and followed by `/100` are captured as their value. */
  lemma NumberBeforeHundred(pre: string, d: string, rest: string)
    requires d != [] && AllDigits(d)
    ensures NumberAt(pre + d + "/100" + rest, |pre|, true) == Some(DigitsValue(d))
  {
    var s := pre + d + "/100" + rest;
    var e := |pre| + |d|;
    assert s[|pre|..e] == d;
    assert s[e..e + 4] == "/100";
    SlashHundredAt(s, e);
    NumberAtRun(s, |pre|, d, true);
  }

  /** `N/100` written after `pre` is captured as `N`. */
  lemma NumberAtDecimal(pre: string, n: nat, rest: string)
    ensures NumberAt(pre + Decimal(n) + "/100" + rest, |pre|, true) == Some(n)
  {
    NumberBeforeHundred(pre, Decimal(n), rest);
    DecimalRoundTrip(n);
  }

  /**
   * A total written as `TOTAL: N/100`, in any letter case and followed by
   * anything, is read back as `N`, capped at 100.
   */
  lemma TotalRoundTrip(head: string, n: nat, rest: string)
    requires |head| == |TOTAL_LABEL| && CaselessAt(head, 0, TOTAL_LABEL)
    ensures ParseScore(head + " " + Decimal(n) + "/100" + rest) == if n <= MAX_SCORE then n else MAX_SCORE
  {
    var d := Decimal(n);
    var s := head + " " + d + "/100" + rest;
    assert CaselessAt(s, 0, TOTAL_LABEL) by {
      forall k | 0 <= k < |TOTAL_LABEL| ensures CaselessEq(s[k], TOTAL_LABEL[k]) {
        assert s[k] == head[k];
      }
    }
    assert s[6] == ' ' && s[7] == d[0];
    assert IsDigit(d[0]);
    SpacesEndAt(s, 6, 7);
    NumberAtDecimal(head + " ", n, rest);
    assert MatchAt(s, 0, Labeled(TOTAL_LABEL, true)) == Some(n);
    SearchAtStart(s, Labeled(TOTAL_LABEL, true));
  }

  /** An out-of-range total is capped: `TOTAL: 150/100` reads as 100. */
  lemma TotalAboveHundredCapped()
    ensures ParseScore("TOTAL: 150/100") == 100
  {
    assert Decimal(150) == "150" by {
      assert Decimal(15) == "15";
    }
    assert TOTAL_LABEL + " " + Decimal(150) + "/100" + "" == "TOTAL: 150/100";
    CaselessAtSelf(TOTAL_LABEL, "");
    assert TOTAL_LABEL + "" == TOTAL_LABEL;
    TotalRoundTrip(TOTAL_LABEL, 150, "");
  }

  /**
   * Without a `TOTAL:` label the first `N/100` is used: an answer that
   * starts with `N/100` and has no letter `t` in any case reads as `N`,
   * capped at 100.
   */
  lemma HundredFallback(n: nat, rest: string)
    requires forall k :: 0 <= k < |rest| ==> !CaselessEq(rest[k], 'T')
    ensures ParseScore(Decimal(n) + "/100" + rest) == if n <= MAX_SCORE then n else MAX_SCORE
  {
    var d := Decimal(n);
    var s := d + "/100" + rest;
    NoLetterT(d, rest);
    NoTotalLabel(s);
    NumberAtDecimal("", n, rest);
    assert "" + d + "/100" + rest == s;
    assert MatchAt(s, 0, OutOfHundred) == Some(n);
    SearchAtStart(s, OutOfHundred);
    assert Search(s, OutOfHundred) == Some(n);
  }

  /** Digits, then `/100`, then a text without `t` have no `t`. */
  lemma NoLetterT(d: string, rest: string)
    requires AllDigits(d) && forall k :: 0 <= k < |rest| ==> !CaselessEq(rest[k], 'T')
    ensures forall k :: 0 <= k < |d + "/100" + rest| ==> !CaselessEq((d + "/100" + rest)[k], 'T')
  {
    var s := d + "/100" + rest;
    forall k | 0 <= k < |s| ensures !CaselessEq(s[k], 'T') {
      if k < |d| {
        assert s[k] == d[k];
      } else if k >= |d| + 4 {
        assert s[k] == rest[k - |d| - 4];
      } else {
        assert s[k] == "/100"[k - |d|];
      }
    }
  }

  /** A text without the letter `t` in any case has no `TOTAL:` label. */
  lemma NoTotalLabel(s: string)
    requires forall k :: 0 <= k < |s| ==> !CaselessEq(s[k], 'T')
    ensures Search(s, Labeled(TOTAL_LABEL, true)).None?
  {
    forall q | 0 <= q <= |s| ensures MatchAt(s, q, Labeled(TOTAL_LABEL, true)).None? {
      assert !CaselessAt(s, q, TOTAL_LABEL) by {
        if q < |s| {
          assert !CaselessEq(s[q + 0], TOTAL_LABEL[0]);
        }
      }
    }
    SearchIsFirst(s, Labeled(TOTAL_LABEL, true));
  }

  /** A text without `/` matches neither slash pattern anywhere. */
  lemma NoSlashNoMatch(s: string, p: Pattern)
    requires !p.Trailing? && forall k :: 0 <= k < |s| ==> s[k] != '/'
    ensures Search(s, p).None?
  {
    forall q | 0 <= q <= |s| ensures MatchAt(s, q, p).None? {
    }
    SearchIsFirst(s, p);
  }

  /** An answer that is only a number is that number when it is at most 100, and 50 otherwise. */
  lemma PlainNumber(n: nat)
    ensures ParseScore(Decimal(n)) == if n <= MAX_SCORE then n else DEFAULT_SCORE
  {
    var s := Decimal(n);
    NoSlashNoMatch(s, Labeled(TOTAL_LABEL, true));
    NoSlashNoMatch(s, OutOfHundred);
    DigitsEndAt(s, 0, |s|);
    assert s[0..|s|] == s;
    DecimalRoundTrip(n);
    assert MatchAt(s, 0, Trailing) == Some(n);
  }

  // ---------------------------------------------------------------------------
  // _parse_breakdown

  const CATEGORIES: seq<string> := ["ACCURACY", "SUCCINCT", "RELEVANT", "COMPLETE", "CONTACT", "PERSONA"]
  const CATEGORY_KEYS: seq<string> := ["accuracy", "succinct", "relevant", "complete", "contact", "persona"]
  const MAX_SCORES: seq<nat> := [60, 10, 10, 10, 10, 10]

  /** The key of category `k` is its name in lower case. */
  lemma CategoryKey(k: nat)
    requires k < |CATEGORIES|
    ensures Lower(CATEGORIES[k]) == CATEGORY_KEYS[k]
  {
    LowerIs(CATEGORIES[k], CATEGORY_KEYS[k]);
  }

  /** The six keys are distinct, so no category's entry overwrites another's. */
  lemma KeysDistinct()
    ensures forall j, k :: 0 <= j < k < 6 ==> CATEGORY_KEYS[j] != CATEGORY_KEYS[k]
  {
    forall j, k | 0 <= j < k < 6 ensures CATEGORY_KEYS[j] != CATEGORY_KEYS[k] {
      if j == 3 && k == 4 {
        assert CATEGORY_KEYS[j][2] != CATEGORY_KEYS[k][2];
      } else {
        assert CATEGORY_KEYS[j][0] != CATEGORY_KEYS[k][0];
      }
    }
  }

  /** The maxima of the six categories add up to 110, not to the 100 of the total. */
  lemma MaximaSum()
    ensures MAX_SCORES[0] + MAX_SCORES[1] + MAX_SCORES[2] + MAX_SCORES[3] + MAX_SCORES[4] + MAX_SCORES[5] == MAX_SCORE + 10
  {
  }

  /** The score of category `k`: its first `NAME: N/M`, case-insensitive, clamped to the category's maximum; 0 if absent. */
  function CategoryScore(response: string, k: nat): (score: int)
    requires k < |CATEGORIES|
    ensures 0 <= score <= MAX_SCORES[k]
    ensures Search(response, Labeled(CATEGORIES[k] + ":", false)).None? ==> score == 0
  {
    match Search(response, Labeled(CATEGORIES[k] + ":", false))
    case Some(n) => Clamp(n, MAX_SCORES[k])
    case None => 0
  }

  /** The six category scores of `response`, in the order of `CATEGORIES`. */
  function Scores(response: string): (r: seq<int>)
    ensures |r| == |CATEGORIES| && forall k :: 0 <= k < |CATEGORIES| ==> r[k] == CategoryScore(response, k)
  {
    seq(|CATEGORIES|, k requires 0 <= k < |CATEGORIES| => CategoryScore(response, k))
  }

  /** The map built by setting `keys[j]` to `values[j]` for each `j < k` in turn. */
  function Assigned(keys: seq<string>, values: seq<int>, k: nat): map<string, int>
    requires k <= |keys| == |values|
  {
    if k == 0 then map[] else Assigned(keys, values, k - 1)[keys[k - 1] := values[k - 1]]
  }

  /** No key occurs twice. */
  ghost predicate Distinct(keys: seq<string>) {
    forall i, j :: 0 <= i < j < |keys| ==> keys[i] != keys[j]
  }

  /** After `k` assignments the map holds exactly the first `k` keys. */
  lemma {:induction false} AssignedKeys(keys: seq<string>, values: seq<int>, k: nat)
    requires k <= |keys| == |values|
    ensures forall x :: x in Assigned(keys, values, k) <==> x in keys[..k]
  {
    if k > 0 {
      AssignedKeys(keys, values, k - 1);
      assert keys[..k] == keys[..k - 1] + [keys[k - 1]];
    }
  }

  /** After `k` assignments of distinct keys each of the first `k` keys holds its value. */
  lemma {:induction false} AssignedValues(keys: seq<string>, values: seq<int>, k: nat)
    requires k <= |keys| == |values| && Distinct(keys)
    ensures forall j :: 0 <= j < k ==> keys[j] in Assigned(keys, values, k) && Assigned(keys, values, k)[keys[j]] == values[j]
  {
    if k > 0 {
      AssignedValues(keys, values, k - 1);
      forall j | 0 <= j < k - 1 ensures keys[j] != keys[k - 1] {
      }
    }
  }

  /** Once every category is scored, the breakdown holds the six keys, each with its category's score. */
  lemma CollectedAll(response: string)
    ensures forall x :: x in Assigned(CATEGORY_KEYS, Scores(response), |CATEGORIES|) <==> x in CATEGORY_KEYS
    ensures forall k :: 0 <= k < |CATEGORIES| ==>
      Assigned(CATEGORY_KEYS, Scores(response), |CATEGORIES|)[CATEGORY_KEYS[k]] == CategoryScore(response, k)
  {
    KeysDistinct();
    assert Distinct(CATEGORY_KEYS);
    AssignedKeys(CATEGORY_KEYS, Scores(response), |CATEGORIES|);
    AssignedValues(CATEGORY_KEYS, Scores(response), |CATEGORIES|);
    assert CATEGORY_KEYS[..|CATEGORIES|] == CATEGORY_KEYS;
  }

  /** `_parse_breakdown`: one entry per category, keyed by its lower-case name. */
  method ParseBreakdown(response: string) returns (breakdown: map<string, int>)
    ensures forall x :: x in breakdown <==> x in CATEGORY_KEYS
    ensures forall k :: 0 <= k < |CATEGORIES| ==> breakdown[CATEGORY_KEYS[k]] == CategoryScore(response, k)
  {
    breakdown := map[];
    var k := 0;
    while k < |CATEGORIES|
      invariant 0 <= k <= |CATEGORIES|
      invariant breakdown == Assigned(CATEGORY_KEYS, Scores(response), k)
    {
      var key, score := ScoreCategory(response, k);
      breakdown := breakdown[key := score];
      k := k + 1;
    }
    CollectedAll(response);
  }

  /** One round of `_parse_breakdown`'s loop: the lower-case key of category `k` and its score. */
  method ScoreCategory(response: string, k: nat) returns (key: string, score: int)
    requires k < |CATEGORIES|
    ensures key == CATEGORY_KEYS[k] && score == Scores(response)[k]
  {
    var category := CATEGORIES[k];
    score := 0;
    var found := Search(response, Labeled(category + ":", false));
    if found.Some? {
      score := Clamp(found.value, MAX_SCORES[k]);
    }
    CategoryKey(k);
    key := Lower(category);
  }

  /** A slash at `e` followed by a digit is the slash part of a category pattern. */
  lemma SlashNumberAt(s: string, e: nat)
    requires e + 1 < |s| && s[e] == '/' && IsDigit(s[e + 1])
    ensures SlashAt(s, e, false)
  {
    SpacesEndAt(s, e, e);
    SpacesEndAt(s, e + 1, e + 1);
  }

  /** Digits written after `pre` and followed by `/` and more digits are captured as their value. */
  lemma NumberBeforeFraction(pre: string, d: string, m: string, rest: string)
    requires d != [] && AllDigits(d) && m != [] && AllDigits(m)
    ensures NumberAt(pre + d + "/" + m + rest, |pre|, false) == Some(DigitsValue(d))
  {
    var s := pre + d + "/" + m + rest;
    var e := |pre| + |d|;
    assert s[|pre|..e] == d;
    assert s[e] == '/';
    assert IsDigit(s[e + 1]) by {
      assert s[e + 1] == m[0];
    }
    FractionAt(s, |pre|, d);
  }

  /** A run of digits at `j` followed by `/` and a digit is captured as the value of the run. */
  lemma FractionAt(s: string, j: nat, d: string)
    requires d != [] && AllDigits(d) && j + |d| + 1 < |s| && s[j..j + |d|] == d
    requires s[j + |d|] == '/' && IsDigit(s[j + |d| + 1])
    ensures NumberAt(s, j, false) == Some(DigitsValue(d))
  {
    SlashNumberAt(s, j + |d|);
    NumberAtRun(s, j, d, false);
  }

  /** `N/M` written after `pre` is captured as `N` by a category pattern. */
  lemma NumberAtFraction(pre: string, n: nat, m: nat, rest: string)
    ensures NumberAt(pre + Decimal(n) + "/" + Decimal(m) + rest, |pre|, false) == Some(n)
  {
    NumberBeforeFraction(pre, Decimal(n), Decimal(m), rest);
    DecimalRoundTrip(n);
  }

  /** A label followed by a space and `N/M` matches at the start and captures `N`. */
  lemma LabeledFraction(name: string, n: nat, m: nat, rest: string)
    ensures MatchAt(name + " " + Decimal(n) + "/" + Decimal(m) + rest, 0, Labeled(name, false)) == Some(n)
  {
    var pre := name + " ";
    var s := pre + Decimal(n) + "/" + Decimal(m) + rest;
    assert CaselessAt(s, 0, name) by {
      forall j | 0 <= j < |name| ensures CaselessEq(s[j], name[j]) {
        assert s[j] == name[j];
      }
    }
    assert SpacesEnd(s, |name|) == |pre| by {
      assert s[|name|] == ' ' && s[|pre|] == Decimal(n)[0];
      SpacesEndAt(s, |name|, |pre|);
    }
    NumberAtFraction(pre, n, m, rest);
  }

  /**
   * A category line in the rubric's format, `NAME: N/M` at the start of the
   * answer, is read back as `N`, capped at the category's maximum.
   */
  lemma CategoryRoundTrip(k: nat, n: nat, m: nat, rest: string)
    requires k < |CATEGORIES|
    ensures CategoryScore(CATEGORIES[k] + ":" + " " + Decimal(n) + "/" + Decimal(m) + rest, k)
      == if n <= MAX_SCORES[k] then n else MAX_SCORES[k]
  {
    var name := CATEGORIES[k] + ":";
    var s := name + " " + Decimal(n) + "/" + Decimal(m) + rest;
    LabeledFraction(name, n, m, rest);
    SearchAtStart(s, Labeled(name, false));
  }

  /** The six category scores of any answer add up to at most 110. */
  lemma BreakdownBound(response: string)
    ensures CategoryScore(response, 0) + CategoryScore(response, 1) + CategoryScore(response, 2)
      + CategoryScore(response, 3) + CategoryScore(response, 4) + CategoryScore(response, 5) <= MAX_SCORE + 10
  {
    MaximaSum();
  }

  // ---------------------------------------------------------------------------
  // judge and judge_with_breakdown

  const MIN_PROFILE_LENGTH := 10
  const TOO_SHORT_MESSAGE := "Profile is empty or too short"

  /** `not profile or len(profile.strip()) < 10`. */
  predicate TooShort(profile: Option<string>) {
    profile.None? || profile.value == "" || |Strip(profile.value)| < MIN_PROFILE_LENGTH
  }

  /** `_build_user_prompt`. */
  function UserPrompt(profile: string, blackboard: string): string {
    "Evaluate the following profile:\n\n## Research on the Lead (Blackboard):\n" + blackboard
    + "\n\n## Profile to Evaluate:\n" + profile
    + "\n\nTotal Characters in profile: " + Decimal(|profile|)
    + "\n\nScore this profile based on the rubric."
  }

  /** What a judging run returns, with the user prompts it sent to the model. */
  datatype Scored = Scored(total: int, prompts: seq<string>)

  /**
   * `judge`: a profile too short to judge scores 0 and the model is not
   * asked; otherwise the model is asked once and its stripped answer parsed.
   */
  function Judge(client: string -> string, profile: Option<string>, blackboard: string): (r: Scored)
    ensures 0 <= r.total <= MAX_SCORE
    ensures TooShort(profile) ==> r == Scored(0, [])
    ensures !TooShort(profile) ==> |r.prompts| == 1 && r.prompts[0] == UserPrompt(profile.value, blackboard)
  {
    if TooShort(profile) then Scored(0, [])
    else
      var prompt := UserPrompt(profile.value, blackboard);
      Scored(ParseScore(Strip(client(prompt))), [prompt])
  }

  /** What `judge_with_breakdown` returns, with the user prompts it sent to the model. */
  datatype Breakdown = Breakdown(total: int, breakdown: map<string, int>, rawResponse: string, prompts: seq<string>)

  /**
   * `judge_with_breakdown`: the short-circuit gives total 0 and all six
   * categories 0 without asking the model; otherwise one question, whose
   * stripped answer yields the total and the six category scores.
   */
  method JudgeWithBreakdown(client: string -> string, profile: Option<string>, blackboard: string)
    returns (r: Breakdown)
    ensures forall x :: x in r.breakdown <==> x in CATEGORY_KEYS
    ensures 0 <= r.total <= MAX_SCORE
    ensures TooShort(profile) ==>
      r.total == 0 && r.rawResponse == TOO_SHORT_MESSAGE && r.prompts == []
      && forall k :: 0 <= k < |CATEGORIES| ==> r.breakdown[CATEGORY_KEYS[k]] == 0
    ensures !TooShort(profile) ==>
      r.prompts == [UserPrompt(profile.value, blackboard)]
      && r.rawResponse == Strip(client(r.prompts[0]))
      && r.total == ParseScore(r.rawResponse) == Judge(client, profile, blackboard).total
      && forall k :: 0 <= k < |CATEGORIES| ==> r.breakdown[CATEGORY_KEYS[k]] == CategoryScore(r.rawResponse, k)
  {
    if TooShort(profile) {
      var zeros := map["accuracy" := 0, "succinct" := 0, "relevant" := 0, "complete" := 0, "contact" := 0, "persona" := 0];
      return Breakdown(0, zeros, TOO_SHORT_MESSAGE, []);
    }
    var prompt := UserPrompt(profile.value, blackboard);
    var raw := Strip(client(prompt));
    var breakdown := ParseBreakdown(raw);
    return Breakdown(ParseScore(raw), breakdown, raw, [prompt]);
  }
}
