/**
 * `ClassifierMetrics`: the metrics of the lead classifier pipeline. They
 * read the prediction with `safe_get`, render its blackboard to text, score
 * with the same 1 / 0.5 / 0 table as the evolver metrics, and turn every
 * exception into a score of 0.
 */
module ClassifierMetrics {
  import opened Basics
  import opened Values
  import opened BlackboardSchema
  import Metrics

  /**
   * The blackboard text handed to a judge: a dict is validated as a
   * `Blackboard` and rendered (a value that is not a string fails
   * validation), a string is used as it is, an object with a `to_string`
   * method is rendered by it (`toString`), and anything else is `str()` of
   * it when truthy and `""` otherwise.
   */
  function BlackboardText(toString: Value -> string, pyStr: Value -> string, data: Value): (r: Result<string>)
    ensures data.VDict? ==> (r.Ok? <==> FromDict(data.entries).Ok?)
    ensures data.VDict? && r.Ok? ==> r.value == Render(FromDict(data.entries).value)
    ensures data.VStr? ==> r == Ok(data.s)
    ensures data.VObject? && "to_string" in data.attrs ==> r == Ok(toString(data))
    ensures !data.VDict? && !data.VStr? && !(data.VObject? && "to_string" in data.attrs)
      ==> r == Ok(if Truthy(data) then pyStr(data) else "")
    ensures r.Err? ==> data.VDict? && r.error == ValidationError
  {
    match data
    case VDict(entries) =>
      var board := FromDict(entries);
      if board.Ok? then Ok(Render(board.value)) else Err(board.error)
    case VStr(s) => Ok(s)
    case VObject(attrs) => if "to_string" in attrs then Ok(toString(data)) else Ok(pyStr(data))
    case _ => Ok(if Truthy(data) then pyStr(data) else "")
  }

  /** The dict form of a blackboard renders exactly as the blackboard does. */
  lemma BlackboardTextOfDict(toString: Value -> string, pyStr: Value -> string, b: Board)
    ensures BlackboardText(toString, pyStr, VDict(ToDict(b))) == Ok(Render(b))
  {
    FromDictToDict(b);
  }

  /** A prediction without a blackboard reads as the empty dict, whose text is empty. */
  lemma MissingBlackboardIsEmpty(toString: Value -> string, pyStr: Value -> string, prediction: Value)
    requires "blackboard" !in Fields(prediction)
    ensures BlackboardText(toString, pyStr, SafeGet(prediction, "blackboard", VDict(map[]))) == Ok("")
  {
    FromDictEmpty();
  }

  /** A Python `try`/`except Exception` around a score: any exception scores 0. */
  function Caught(r: Result<real>): (score: real)
    ensures r.Ok? ==> score == r.value
    ensures r.Err? ==> score == 0.0
  {
    if r.Ok? then r.value else 0.0
  }

  /**
   * `training_metric` before its exception handler: 0 without a predicted
   * label; otherwise the blackboard is rendered, the classifier judge asked
   * (`judge` gives `None` when the call raises) and the label scored against
   * the judge's answer.
   */
  function TrainingOutcome(judge: (string, Value, Value) -> Option<Value>, toString: Value -> string,
                           pyStr: Value -> string, prediction: Value): (r: Result<real>)
    ensures SafeGet(prediction, "lead_quality", VNone).VNone? ==> r == Ok(0.0)
    ensures r.Ok? ==> r.value in {0.0, 0.5, 1.0}
  {
    var leadQuality := SafeGet(prediction, "lead_quality", VNone);
    var rationale := SafeGet(prediction, "rationale", VNone);
    var data := SafeGet(prediction, "blackboard", VDict(map[]));
    if leadQuality.VNone? then Ok(0.0)
    else
      var text := BlackboardText(toString, pyStr, data);
      if text.Err? then Err(text.error)
      else
        var answer := judge(text.value, leadQuality, rationale);
        if answer.None? then Err(TypeError)
        else Metrics.ScoreOf(leadQuality, answer.value)
  }

  /** `training_metric`: total, with every exception scored 0. */
  function TrainingMetric(judge: (string, Value, Value) -> Option<Value>, toString: Value -> string,
                          pyStr: Value -> string, prediction: Value): (r: real)
    ensures r in {0.0, 0.5, 1.0}
    ensures SafeGet(prediction, "lead_quality", VNone).VNone? ==> r == 0.0
  {
    Caught(TrainingOutcome(judge, toString, pyStr, prediction))
  }

  /**
   * With a string label, a blackboard that renders and a judge that answers
   * with a string, the metric is the score of the label against that
   * answer, the judge being shown exactly the rendered blackboard.
   */
  lemma TrainingMetricScores(judge: (string, Value, Value) -> Option<Value>, toString: Value -> string,
                             pyStr: Value -> string, prediction: Value, text: string, answer: string)
    requires SafeGet(prediction, "lead_quality", VNone).VStr?
    requires BlackboardText(toString, pyStr, SafeGet(prediction, "blackboard", VDict(map[]))) == Ok(text)
    requires judge(text, SafeGet(prediction, "lead_quality", VNone), SafeGet(prediction, "rationale", VNone)) == Some(VStr(answer))
    ensures TrainingMetric(judge, toString, pyStr, prediction)
      == Metrics.Score(SafeGet(prediction, "lead_quality", VNone).s, answer)
  {
    Metrics.ScoreOfStrings(SafeGet(prediction, "lead_quality", VNone).s, answer);
  }

  /** A dict blackboard that fails validation scores 0, before the judge is asked. */
  lemma InvalidBlackboardScoresZero(judge: (string, Value, Value) -> Option<Value>, toString: Value -> string,
                                    pyStr: Value -> string, prediction: Value)
    requires SafeGet(prediction, "blackboard", VDict(map[])).VDict?
    requires FromDict(SafeGet(prediction, "blackboard", VDict(map[])).entries).Err?
    ensures TrainingMetric(judge, toString, pyStr, prediction) == 0.0
  {
  }

  /** A judge that raises scores 0. */
  lemma FailedJudgeScoresZero(judge: (string, Value, Value) -> Option<Value>, toString: Value -> string,
                              pyStr: Value -> string, prediction: Value)
    requires forall t: string, p: Value, q: Value :: judge(t, p, q).None?
    ensures TrainingMetric(judge, toString, pyStr, prediction) == 0.0
  {
  }

  /**
   * `test_set_metric`: the evolver's test-set comparison with the human
   * label, `safe_get` reading both fields, and any exception scored 0.
   */
  function TestSetMetric(example: Value, prediction: Value): (r: real)
    ensures r in {0.0, 0.5, 1.0}
    ensures SafeGet(example, "icp_match", VNone).VNone? ==> r == 0.0
    ensures SafeGet(prediction, "lead_quality", VNone).VNone? ==> r == 0.0
    ensures !SafeGet(example, "icp_match", VNone).VNone? && !SafeGet(prediction, "lead_quality", VNone).VNone?
      && Metrics.ScoreOf(SafeGet(prediction, "lead_quality", VNone), SafeGet(example, "icp_match", VNone)).Ok?
      ==> r == Metrics.ScoreOf(SafeGet(prediction, "lead_quality", VNone), SafeGet(example, "icp_match", VNone)).value
  {
    Caught(Metrics.TestSetMetric(example, prediction))
  }

  /** With string labels on both sides, the test-set metric is the score table. */
  lemma TestSetMetricStrings(example: Value, prediction: Value)
    requires SafeGet(example, "icp_match", VNone).VStr? && SafeGet(prediction, "lead_quality", VNone).VStr?
    ensures TestSetMetric(example, prediction)
      == Metrics.Score(SafeGet(prediction, "lead_quality", VNone).s, SafeGet(example, "icp_match", VNone).s)
  {
    Metrics.TestSetMetricStrings(example, prediction);
  }

  /** An unhashable predicted value that differs from the human label raises inside the score, which scores 0. */
  lemma UnhashablePredictionScoresZero(example: Value, prediction: Value)
    requires !SafeGet(example, "icp_match", VNone).VNone?
    requires SafeGet(prediction, "lead_quality", VNone).VDict?
    requires SafeGet(prediction, "lead_quality", VNone) != SafeGet(example, "icp_match", VNone)
    ensures TestSetMetric(example, prediction) == 0.0
  {
  }
}
