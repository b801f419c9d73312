/**
 * `ProfilerMetrics`: the training metric of the lead profiler pipeline. It
 * refuses a missing or too short profile, renders the prediction's
 * blackboard as the classifier metrics do, asks the profile judge for a
 * score out of 100 and normalises it to [0, 1].
 */
module ProfilerMetrics {
  import opened Basics
  import opened Strings
  import opened Values
  import BlackboardSchema
  import ClassifierMetrics
  import ProfileJudge

  /** `profile is None or profile == "None" or len(str(profile).strip()) < 10`. */
  predicate Unusable(pyStr: Value -> string, profile: Value) {
    profile.VNone? || profile == VStr("None") || |Strip(Format(pyStr, profile))| < ProfileJudge.MIN_PROFILE_LENGTH
  }

  /**
   * `training_metric` before its exception handler: 0 for an unusable
   * profile, an error when the blackboard cannot be validated, and
   * otherwise the judge's score over 100 for `str(profile)`.
   */
  function TrainingOutcome(client: string -> string, toString: Value -> string, pyStr: Value -> string,
                           prediction: Value): (r: Result<real>)
    ensures Unusable(pyStr, SafeGet(prediction, "profile", VNone)) ==> r == Ok(0.0)
    ensures r.Ok? ==> 0.0 <= r.value <= 1.0
    ensures !Unusable(pyStr, SafeGet(prediction, "profile", VNone)) ==>
      (r.Err? <==> ClassifierMetrics.BlackboardText(toString, pyStr, SafeGet(prediction, "blackboard", VDict(map[]))).Err?)
    ensures r.Err? ==> r.error == ValidationError
  {
    var profile := SafeGet(prediction, "profile", VNone);
    var data := SafeGet(prediction, "blackboard", VDict(map[]));
    if Unusable(pyStr, profile) then Ok(0.0)
    else
      var text := ClassifierMetrics.BlackboardText(toString, pyStr, data);
      if text.Err? then Err(text.error)
      else
        var score := ProfileJudge.Judge(client, Some(Format(pyStr, profile)), text.value).total;
        Ok(score as real / 100.0)
  }

  /** `training_metric`: total, with every exception scored 0. */
  function TrainingMetric(client: string -> string, toString: Value -> string, pyStr: Value -> string,
                          prediction: Value): (r: real)
    ensures 0.0 <= r <= 1.0
    ensures Unusable(pyStr, SafeGet(prediction, "profile", VNone)) ==> r == 0.0
  {
    ClassifierMetrics.Caught(TrainingOutcome(client, toString, pyStr, prediction))
  }

  /**
   * A usable profile with a blackboard that renders asks the judge exactly
   * once, with `str(profile)` and the rendered blackboard, and scores its
   * parsed answer divided by 100.
   */
  lemma TrainingMetricScores(client: string -> string, toString: Value -> string, pyStr: Value -> string,
                             prediction: Value, text: string)
    requires !Unusable(pyStr, SafeGet(prediction, "profile", VNone))
    requires ClassifierMetrics.BlackboardText(toString, pyStr, SafeGet(prediction, "blackboard", VDict(map[]))) == Ok(text)
    ensures var profile := Format(pyStr, SafeGet(prediction, "profile", VNone));
      ProfileJudge.Judge(client, Some(profile), text).prompts == [ProfileJudge.UserPrompt(profile, text)]
      && TrainingMetric(client, toString, pyStr, prediction)
         == ProfileJudge.ParseScore(Strip(client(ProfileJudge.UserPrompt(profile, text)))) as real / 100.0
  {
    UsableIsJudged(pyStr, SafeGet(prediction, "profile", VNone));
  }

  /**
   * The metric's guard is at least as strict as the judge's own: a profile
   * the metric accepts is never short-circuited by the judge.
   */
  lemma UsableIsJudged(pyStr: Value -> string, profile: Value)
    requires !Unusable(pyStr, profile)
    ensures !ProfileJudge.TooShort(Some(Format(pyStr, profile)))
  {
  }

  /** The literal string `"None"` scores 0 although it is a string. */
  lemma NoneStringScoresZero(client: string -> string, toString: Value -> string, pyStr: Value -> string,
                             prediction: Value)
    requires SafeGet(prediction, "profile", VNone) == VStr("None")
    ensures TrainingMetric(client, toString, pyStr, prediction) == 0.0
  {
  }

  /** An unusable profile never consults the judge: the score is the same for every client. */
  lemma UnusableIgnoresClient(c1: string -> string, c2: string -> string, toString: Value -> string,
                              pyStr: Value -> string, prediction: Value)
    requires Unusable(pyStr, SafeGet(prediction, "profile", VNone))
    ensures TrainingMetric(c1, toString, pyStr, prediction) == TrainingMetric(c2, toString, pyStr, prediction) == 0.0
  {
  }

  /** A dict blackboard that fails validation scores 0. */
  lemma InvalidBlackboardScoresZero(client: string -> string, toString: Value -> string, pyStr: Value -> string,
                                    prediction: Value)
    requires SafeGet(prediction, "blackboard", VDict(map[])).VDict?
    requires BlackboardSchema.FromDict(SafeGet(prediction, "blackboard", VDict(map[])).entries).Err?
    ensures TrainingMetric(client, toString, pyStr, prediction) == 0.0
  {
  }
}
