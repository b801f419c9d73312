/**
 * `Metrics`: the classification score table and the training and test-set
 * metrics of the lead evolver, which compare a prediction with the static
 * judge's verdict or with the human label. The values the metrics receive
 * are dynamically typed; scores are exact `real`s.
 */
module Metrics {
  import opened Basics
  import opened Strings
  import opened Values
  import LlmJudge

  const FIT_CLASSES: set<string> := {LlmJudge.STRONG_FIT, LlmJudge.WEAK_FIT}

  // ---------------------------------------------------------------------------
  // compute_classification_score

  /** `compute_classification_score` on two labels. */
  function Score(predicted: string, expected: string): (r: real)
    ensures r == 1.0 <==> predicted == expected
    ensures r == 0.5 <==> predicted != expected && predicted in FIT_CLASSES && expected in FIT_CLASSES
    ensures r == 0.0 <==> predicted != expected && !(predicted in FIT_CLASSES && expected in FIT_CLASSES)
  {
    if predicted == expected then 1.0
    else if predicted in FIT_CLASSES && expected in FIT_CLASSES then 0.5
    else 0.0
  }

  /** The score does not depend on which label is the prediction. */
  lemma ScoreSymmetric(a: string, b: string)
    ensures Score(a, b) == Score(b, a)
  {
  }

  /** Every score is 0, 1/2 or 1. */
  lemma ScoreValues(a: string, b: string)
    ensures Score(a, b) in {0.0, 0.5, 1.0}
  {
  }

  /** Mixing up the two fit classes earns half credit; confusing a fit with `not_a_fit` earns none. */
  lemma ScoreTable()
    ensures Score(LlmJudge.STRONG_FIT, LlmJudge.WEAK_FIT) == 0.5 && Score(LlmJudge.WEAK_FIT, LlmJudge.STRONG_FIT) == 0.5
    ensures Score(LlmJudge.STRONG_FIT, LlmJudge.NOT_A_FIT) == 0.0 && Score(LlmJudge.NOT_A_FIT, LlmJudge.WEAK_FIT) == 0.0
  {
    assert LlmJudge.STRONG_FIT[0] != LlmJudge.WEAK_FIT[0];
    assert LlmJudge.NOT_A_FIT !in FIT_CLASSES by {
      assert LlmJudge.NOT_A_FIT[0] != LlmJudge.STRONG_FIT[0] && LlmJudge.NOT_A_FIT[0] != LlmJudge.WEAK_FIT[0];
    }
  }

  /** `v in fit_classes` for a hashable value: only the two strings are members. */
  predicate InFitClasses(v: Value) {
    v.VStr? && v.s in FIT_CLASSES
  }

  /**
   * `compute_classification_score` on the values it is actually given:
   * equal values score 1; otherwise `predicted in fit_classes` is evaluated
   * first and, only when it holds, `expected in fit_classes`; testing an
   * unhashable value for membership raises `TypeError`.
   */
  function ScoreOf(predicted: Value, expected: Value): Result<real> {
    if predicted == expected then Ok(1.0)
    else if !Hashable(predicted) then Err(TypeError)
    else if !InFitClasses(predicted) then Ok(0.0)
    else if !Hashable(expected) then Err(TypeError)
    else if InFitClasses(expected) then Ok(0.5)
    else Ok(0.0)
  }

  /** On two strings the dynamic score is the score table. */
  lemma ScoreOfStrings(predicted: string, expected: string)
    ensures ScoreOf(VStr(predicted), VStr(expected)) == Ok(Score(predicted, expected))
  {
  }

  /** The dynamic score raises only for an unhashable value, and otherwise is 0, 1/2 or 1. */
  lemma ScoreOfOutcomes(predicted: Value, expected: Value)
    ensures ScoreOf(predicted, expected).Err? ==>
      (!Hashable(predicted) || !Hashable(expected)) && ScoreOf(predicted, expected).error == TypeError
    ensures ScoreOf(predicted, expected).Ok? ==> ScoreOf(predicted, expected).value in {0.0, 0.5, 1.0}
    ensures Hashable(predicted) && Hashable(expected) ==> ScoreOf(predicted, expected).Ok?
  {
  }

  // ---------------------------------------------------------------------------
  // training_metric

  /**
   * The lead context `training_metric` hands to the judge: the
   * prediction's `blackboard` (read as an attribute, as a dict key, or
   * `''`); when that is falsy, the example's `context` attribute, or its
   * `context` key (default `''`) when the example is a dict.
   */
  function LeadContext(example: Value, prediction: Value): (ctx: Value)
    ensures Truthy(SafeGet(prediction, "blackboard", VStr(""))) ==> ctx == SafeGet(prediction, "blackboard", VStr(""))
    ensures !Truthy(SafeGet(prediction, "blackboard", VStr(""))) && example.VObject? && "context" in example.attrs
      ==> ctx == example.attrs["context"]
    ensures !Truthy(SafeGet(prediction, "blackboard", VStr(""))) && example.VDict?
      ==> ctx == SafeGet(example, "context", VStr(""))
  {
    var fromPrediction := SafeGet(prediction, "blackboard", VStr(""));
    if Truthy(fromPrediction) then fromPrediction
    else match example
      case VObject(attrs) => if "context" in attrs then attrs["context"] else fromPrediction
      case VDict(entries) => if "context" in entries then entries["context"] else VStr("")
      case _ => fromPrediction
  }

  /** The rationale `training_metric` passes on, as `_build_user_prompt` will use it: only a truthy one is shown. */
  function RationaleText(pyStr: Value -> string, rationale: Value): Option<string> {
    if Truthy(rationale) then Some(Format(pyStr, rationale)) else None
  }

  /**
   * `training_metric`: 0 without a predicted label or without any lead
   * context; otherwise the judge is asked once and the prediction scored
   * against its verdict. `pyStr` renders non-string values in the prompt.
   */
  function TrainingMetric(client: string -> string, pyStr: Value -> string, example: Value, prediction: Value): (r: Result<real>)
    ensures SafeGet(prediction, "lead_quality", VNone).VNone? ==> r == Ok(0.0)
    ensures !Truthy(LeadContext(example, prediction)) ==> r == Ok(0.0)
  {
    var ctx := LeadContext(example, prediction);
    var predicted := SafeGet(prediction, "lead_quality", VNone);
    if predicted.VNone? || !Truthy(ctx) then Ok(0.0)
    else
      var rationale := SafeGet(prediction, "rationale", VNone);
      var verdict := LlmJudge.Judge(client, Format(pyStr, ctx), Format(pyStr, predicted), RationaleText(pyStr, rationale));
      ScoreOf(predicted, VStr(verdict))
  }

  /**
   * With a string label and a non-empty context, the training metric is
   * the score of the label against the judge's verdict on exactly that
   * context, label and rationale; it lies in {0, 1/2, 1}.
   */
  lemma TrainingMetricScores(client: string -> string, pyStr: Value -> string, example: Value, prediction: Value)
    requires SafeGet(prediction, "lead_quality", VNone).VStr?
    requires Truthy(LeadContext(example, prediction))
    ensures var lq := SafeGet(prediction, "lead_quality", VNone).s;
      var verdict := LlmJudge.Judge(client, Format(pyStr, LeadContext(example, prediction)), lq,
        RationaleText(pyStr, SafeGet(prediction, "rationale", VNone)));
      TrainingMetric(client, pyStr, example, prediction) == Ok(Score(lq, verdict))
      && Score(lq, verdict) in {0.0, 0.5, 1.0}
  {
    var lq := SafeGet(prediction, "lead_quality", VNone).s;
    var verdict := LlmJudge.Judge(client, Format(pyStr, LeadContext(example, prediction)), lq,
      RationaleText(pyStr, SafeGet(prediction, "rationale", VNone)));
    ScoreOfStrings(lq, verdict);
    ScoreValues(lq, verdict);
  }

  /** An empty blackboard in the prediction falls back to the example's context. */
  lemma ContextFallback(example: Value, prediction: Value)
    requires prediction.VDict? && "blackboard" !in prediction.entries
    requires example.VObject? && "context" in example.attrs
    ensures LeadContext(example, prediction) == example.attrs["context"]
  {
  }

  // ---------------------------------------------------------------------------
  // test_set_metric

  /**
   * `test_set_metric`: 0 without a human label or without a predicted
   * label; otherwise the prediction scored against the human label.
   */
  function TestSetMetric(example: Value, prediction: Value): (r: Result<real>)
    ensures SafeGet(example, "icp_match", VNone).VNone? ==> r == Ok(0.0)
    ensures SafeGet(prediction, "lead_quality", VNone).VNone? ==> r == Ok(0.0)
    ensures !SafeGet(example, "icp_match", VNone).VNone? && !SafeGet(prediction, "lead_quality", VNone).VNone?
      ==> r == ScoreOf(SafeGet(prediction, "lead_quality", VNone), SafeGet(example, "icp_match", VNone))
  {
    var groundTruth := SafeGet(example, "icp_match", VNone);
    if groundTruth.VNone? then Ok(0.0)
    else
      var predicted := SafeGet(prediction, "lead_quality", VNone);
      if predicted.VNone? then Ok(0.0)
      else ScoreOf(predicted, groundTruth)
  }

  /** With string labels on both sides, the test-set metric is the score table. */
  lemma TestSetMetricStrings(example: Value, prediction: Value)
    requires SafeGet(example, "icp_match", VNone).VStr? && SafeGet(prediction, "lead_quality", VNone).VStr?
    ensures TestSetMetric(example, prediction)
      == Ok(Score(SafeGet(prediction, "lead_quality", VNone).s, SafeGet(example, "icp_match", VNone).s))
  {
    ScoreOfStrings(SafeGet(prediction, "lead_quality", VNone).s, SafeGet(example, "icp_match", VNone).s);
  }
}
