/**
 * `LlmJudge`: the user prompt of the classification judge, the scan of its
 * answer for a label, and the comparison against a human label. The model
 * behind the client is an oracle from the user prompt to the answer's text.
 */
module LlmJudge {
  import opened Basics
  import opened Strings

  const STRONG_FIT := "strong_fit"
  const WEAK_FIT := "weak_fit"
  const NOT_A_FIT := "not_a_fit"
  const VALID_CLASSIFICATIONS: seq<string> := [STRONG_FIT, WEAK_FIT, NOT_A_FIT]

  // ---------------------------------------------------------------------------
  // The label scan

  /** The label scan on lower-cased text: `strong_fit` first, then `weak_fit`, else `not_a_fit`. */
  function Verdict(text: string): (r: string)
    ensures r in VALID_CLASSIFICATIONS
    ensures r == STRONG_FIT <==> Contains(text, STRONG_FIT)
    ensures r == WEAK_FIT <==> !Contains(text, STRONG_FIT) && Contains(text, WEAK_FIT)
    ensures r == NOT_A_FIT <==> !Contains(text, STRONG_FIT) && !Contains(text, WEAK_FIT)
  {
    if Contains(text, STRONG_FIT) then STRONG_FIT
    else if Contains(text, WEAK_FIT) then WEAK_FIT
    else NOT_A_FIT
  }

  /** What `judge` makes of the model's answer: stripped, lower-cased, then scanned. */
  function ParseVerdict(raw: string): (r: string)
    ensures r in VALID_CLASSIFICATIONS
  {
    Verdict(Lower(Strip(raw)))
  }

  /** `strip(chars)` returns a slice of its input with only characters of `cs` cut off on both sides. */
  lemma StripBounds(s: string, cs: set<char>) returns (p: nat, q: nat)
    ensures p <= q <= |s| && StripChars(s, cs) == s[p..q]
    ensures forall k :: 0 <= k < p ==> s[k] in cs
    ensures forall k :: q <= k < |s| ==> s[k] in cs
  {
    var left := TrimLeft(s, cs);
    var right := TrimRight(left, cs);
    p := |s| - |left|;
    q := p + |right|;
    assert right == left[..|right|];
    assert left == s[p..];
    assert right == s[p..q];
    forall k | q <= k < |s| ensures s[k] in cs {
      assert s[k] == left[k - p];
    }
  }

  /** Lower-casing commutes with slicing. */
  lemma LowerSlice(s: string, p: nat, q: nat)
    requires p <= q <= |s|
    ensures Lower(s[p..q]) == Lower(s)[p..q]
  {
  }

  /**
   * Cutting characters of `cs` off both ends of `t` keeps every occurrence
   * of a word that has none of them.
   */
  lemma ContainsSlice(t: string, p: nat, q: nat, w: string, cs: set<char>)
    requires p <= q <= |t|
    requires forall k :: 0 <= k < p ==> t[k] in cs
    requires forall k :: q <= k < |t| ==> t[k] in cs
    requires w != [] && w[0] !in cs && w[|w| - 1] !in cs
    ensures Contains(t[p..q], w) <==> Contains(t, w)
  {
    if Contains(t[p..q], w) {
      var i :| 0 <= i <= |t[p..q]| - |w| && OccursAt(t[p..q], w, i);
      assert p + i + |w| <= q;
      forall j | 0 <= j < |w| ensures t[p + i + j] == w[j] {
        assert w[j] == t[p..q][i..i + |w|][j];
      }
      assert t[p + i..p + i + |w|] == w;
      assert OccursAt(t, w, p + i);
    }
    if Contains(t, w) {
      var i :| 0 <= i <= |t| - |w| && OccursAt(t, w, i);
      assert t[i] == w[0] && t[i + |w| - 1] == w[|w| - 1] by {
        assert t[i] == t[i..i + |w|][0] && t[i + |w| - 1] == t[i..i + |w|][|w| - 1];
      }
      assert p <= i && i + |w| <= q;
      forall j | 0 <= j < |w| ensures t[p..q][i - p + j] == w[j] {
        assert w[j] == t[i..i + |w|][j];
      }
      assert t[p..q][i - p..i - p + |w|] == w;
      assert OccursAt(t[p..q], w, i - p);
    }
  }

  /** A word that neither starts nor ends with whitespace occurs in the stripped, lower-cased text exactly when it occurs in the lower-cased text. */
  lemma ContainsStripped(raw: string, w: string)
    requires w != [] && w[0] !in WHITESPACE && w[|w| - 1] !in WHITESPACE
    ensures Contains(Lower(Strip(raw)), w) <==> Contains(Lower(raw), w)
  {
    var p, q := StripBounds(raw, WHITESPACE);
    var t := Lower(raw);
    LowerSlice(raw, p, q);
    forall k | 0 <= k < |t| && (k < p || q <= k) ensures t[k] in WHITESPACE {
      LowerKeepsWhitespace(raw[k]);
    }
    ContainsSlice(t, p, q, w, WHITESPACE);
  }

  /** The labels neither start nor end with whitespace. */
  lemma LabelEnds()
    ensures STRONG_FIT != [] && STRONG_FIT[0] !in WHITESPACE && STRONG_FIT[|STRONG_FIT| - 1] !in WHITESPACE
    ensures WEAK_FIT != [] && WEAK_FIT[0] !in WHITESPACE && WEAK_FIT[|WEAK_FIT| - 1] !in WHITESPACE
  {
    assert STRONG_FIT[0] == 's' && STRONG_FIT[|STRONG_FIT| - 1] == 't';
    assert WEAK_FIT[0] == 'w' && WEAK_FIT[|WEAK_FIT| - 1] == 't';
  }

  /**
   * Stripping never changes the verdict: each label is a single word, so it
   * is found in the stripped answer exactly when it is found in the whole
   * answer. The verdict is therefore that of the lower-cased answer.
   */
  lemma ParseVerdictUnstripped(raw: string)
    ensures ParseVerdict(raw) == Verdict(Lower(raw))
  {
    LabelEnds();
    ContainsStripped(raw, STRONG_FIT);
    ContainsStripped(raw, WEAK_FIT);
  }

  /** Answers that agree up to letter case get the same verdict. */
  lemma ParseVerdictCaseless(a: string, b: string)
    requires Lower(a) == Lower(b)
    ensures ParseVerdict(a) == ParseVerdict(b)
  {
    ParseVerdictUnstripped(a);
    ParseVerdictUnstripped(b);
  }

  /** An answer containing `strong_fit` in any letter case is `strong_fit`, whatever else it says. */
  lemma StrongFitWins(a: string, w: string, b: string)
    requires Lower(w) == STRONG_FIT
    ensures ParseVerdict(a + w + b) == STRONG_FIT
  {
    ParseVerdictUnstripped(a + w + b);
    LowerConcat(a + w, b);
    LowerConcat(a, w);
    ContainsInfix(Lower(a), STRONG_FIT, Lower(b));
  }

  /** `strong_fit`, answered on its own, is read back as itself. */
  lemma StrongFitRoundTrip()
    ensures ParseVerdict(STRONG_FIT) == STRONG_FIT
  {
    LowerIs(STRONG_FIT, STRONG_FIT);
    StrongFitWins([], STRONG_FIT, []);
    assert [] + STRONG_FIT + [] == STRONG_FIT;
  }

  /** `weak_fit` is already lower case. */
  lemma LowerWeakFit()
    ensures Lower(WEAK_FIT) == WEAK_FIT
  {
    LowerIs(WEAK_FIT, WEAK_FIT);
  }

  /** `not_a_fit` is already lower case. */
  lemma LowerNotAFit()
    ensures Lower(NOT_A_FIT) == NOT_A_FIT
  {
    LowerIs(NOT_A_FIT, NOT_A_FIT);
  }

  /** `weak_fit`, answered on its own, is read back as itself. */
  lemma WeakFitRoundTrip()
    ensures ParseVerdict(WEAK_FIT) == WEAK_FIT
  {
    ParseVerdictUnstripped(WEAK_FIT);
    LowerWeakFit();
    WeakFitVerdict();
  }

  /** The scan finds `weak_fit`, and not `strong_fit`, in `weak_fit` itself. */
  lemma WeakFitVerdict()
    ensures Verdict(WEAK_FIT) == WEAK_FIT
  {
    assert !Contains(WEAK_FIT, STRONG_FIT) by {
      assert |WEAK_FIT| < |STRONG_FIT|;
    }
    assert Contains(WEAK_FIT, WEAK_FIT) by {
      assert OccursAt(WEAK_FIT, WEAK_FIT, 0);
    }
  }

  /** `not_a_fit` contains neither of the other two labels. */
  lemma NoOtherLabel()
    ensures !Contains(NOT_A_FIT, STRONG_FIT) && !Contains(NOT_A_FIT, WEAK_FIT)
  {
    assert |NOT_A_FIT| < |STRONG_FIT|;
    assert |NOT_A_FIT| - |WEAK_FIT| == 1 && NOT_A_FIT[0] != WEAK_FIT[0] && NOT_A_FIT[1] != WEAK_FIT[0];
    NotContainsHead(NOT_A_FIT, WEAK_FIT);
  }

  /** `not_a_fit`, answered on its own, is read back as itself. */
  lemma NotAFitRoundTrip()
    ensures ParseVerdict(NOT_A_FIT) == NOT_A_FIT
  {
    NoOtherLabel();
    ParseVerdictUnstripped(NOT_A_FIT);
    LowerNotAFit();
  }

  /** Each label, answered on its own, is read back as itself. */
  lemma LabelRoundTrip(v: string)
    requires v in VALID_CLASSIFICATIONS
    ensures ParseVerdict(v) == v
  {
    if v == STRONG_FIT { StrongFitRoundTrip(); }
    else if v == WEAK_FIT { WeakFitRoundTrip(); }
    else { NotAFitRoundTrip(); }
  }

  // ---------------------------------------------------------------------------
  // The user prompt

  const LEAD_HEAD := "Evaluate the following lead:\n\nLead Context:\n"
  const PROPOSED_HEAD := "\n\nPipeline's Proposed Classification: "
  const RATIONALE_HEAD := "\nProposed Rationale: "
  const QUESTION := "\n\nWhat is the CORRECT classification for this lead? Respond with ONLY: strong_fit, weak_fit, or not_a_fit."

  /** The rationale line, present only for a truthy rationale. */
  function RationaleSection(rationale: Option<string>): string {
    if TruthyText(rationale) then RATIONALE_HEAD + rationale.value else ""
  }

  /** `_build_user_prompt`. */
  function UserPrompt(leadContext: string, proposed: string, rationale: Option<string>): string {
    LEAD_HEAD + leadContext + PROPOSED_HEAD + proposed + RationaleSection(rationale) + QUESTION
  }

  /** The concatenation facts behind `PromptParts`, for arbitrary pieces. */
  lemma Pieces(h1: string, x: string, h2: string, y: string, sec: string, tail: string)
    ensures Contains(h1 + x + h2 + y + sec + tail, x)
    ensures Contains(h1 + x + h2 + y + sec + tail, h2 + y)
    ensures h1 + x + h2 + y + sec + tail == (h1 + x + h2 + y) + sec + tail
  {
    assert h1 + x + h2 + y + sec + tail == h1 + x + (h2 + y + sec + tail);
    ContainsInfix(h1, x, h2 + y + sec + tail);
    assert h1 + x + h2 + y + sec + tail == (h1 + x) + (h2 + y) + (sec + tail);
    ContainsInfix(h1 + x, h2 + y, sec + tail);
  }

  /**
   * The prompt carries the lead context and the proposed label. A truthy
   * rationale inserts the rationale line just before the closing question
   * of the prompt built without one; a missing or empty rationale gives
   * exactly the prompt built without one.
   */
  lemma PromptParts(leadContext: string, proposed: string, rationale: Option<string>)
    ensures Contains(UserPrompt(leadContext, proposed, rationale), leadContext)
    ensures Contains(UserPrompt(leadContext, proposed, rationale), PROPOSED_HEAD + proposed)
    ensures !TruthyText(rationale) ==> UserPrompt(leadContext, proposed, rationale) == UserPrompt(leadContext, proposed, None)
    ensures TruthyText(rationale) ==> exists head ::
      UserPrompt(leadContext, proposed, None) == head + QUESTION
      && UserPrompt(leadContext, proposed, rationale) == head + (RATIONALE_HEAD + rationale.value) + QUESTION
  {
    var head := LEAD_HEAD + leadContext + PROPOSED_HEAD + proposed;
    Pieces(LEAD_HEAD, leadContext, PROPOSED_HEAD, proposed, RationaleSection(rationale), QUESTION);
    Pieces(LEAD_HEAD, leadContext, PROPOSED_HEAD, proposed, "", QUESTION);
    assert head + "" == head;
  }

  // ---------------------------------------------------------------------------
  // judge and evaluate_against_ground_truth

  /** `judge`: one question to the model; its answer is scanned for a label. */
  function Judge(client: string -> string, leadContext: string, proposed: string, rationale: Option<string>): (r: string)
    ensures r in VALID_CLASSIFICATIONS
    ensures r == Verdict(Lower(client(UserPrompt(leadContext, proposed, rationale))))
  {
    ParseVerdictUnstripped(client(UserPrompt(leadContext, proposed, rationale)));
    ParseVerdict(client(UserPrompt(leadContext, proposed, rationale)))
  }

  /** The record `evaluate_against_ground_truth` returns. */
  datatype Evaluation = Evaluation(judgeClassification: string, groundTruth: string, proposed: string, isCorrect: bool)

  /** `evaluate_against_ground_truth`. */
  function EvaluateAgainstGroundTruth(
    client: string -> string, leadContext: string, proposed: string, groundTruth: string, rationale: Option<string>
  ): (r: Evaluation)
    ensures r.judgeClassification == Judge(client, leadContext, proposed, rationale)
    ensures r.groundTruth == groundTruth && r.proposed == proposed
  {
    Evaluation(Judge(client, leadContext, proposed, rationale), groundTruth, proposed, proposed == groundTruth)
  }

  /** Correctness is decided by the two labels alone: neither the judge's answer nor the context changes it. */
  lemma CorrectnessIgnoresJudge(
    c1: string -> string, c2: string -> string, ctx1: string, ctx2: string,
    proposed: string, groundTruth: string, r1: Option<string>, r2: Option<string>
  )
    ensures EvaluateAgainstGroundTruth(c1, ctx1, proposed, groundTruth, r1).isCorrect
      == EvaluateAgainstGroundTruth(c2, ctx2, proposed, groundTruth, r2).isCorrect
      == (proposed == groundTruth)
  {
  }
}
