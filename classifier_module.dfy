/**
 * `LeadClassifierModule.forward`: fill in the default ICP and offering, ask
 * the predictor once, and decide whether its answer is a final verdict or a
 * request for more research.
 */
module ClassifierModule {
  import opened Basics
  import opened Strings

  const DEFAULT_ICP: seq<string> := [
    "Software engineers or teams building AI/ML systems that need optimization",
    "Companies using DSPy or similar prompt optimization frameworks",
    "Teams with compound AI systems involving multiple LLM calls",
    "Organizations seeking to improve accuracy or efficiency of AI workflows",
    "Engineers working on RAG, agents, or multi-hop reasoning systems"
  ]

  const DEFAULT_OFFERING: string :=
    "\n    A prompt optimization service for continuously improving AI workflows and systems.\n"
    + "    We help optimize systems that have one or more outcome metrics, including ground truth\n"
    + "    and non-ground truth outcomes. Our service is particularly valuable for engineers\n"
    + "    already using DSPy or building compound AI systems.\n    "

  /** The ideal customer profile handed to the module: a list of descriptions, or one text. */
  datatype Icp = IcpList(items: seq<string>) | IcpText(text: string)

  predicate IcpTruthy(icp: Option<Icp>) {
    icp.Some? && match icp.value
      case IcpList(items) => items != []
      case IcpText(text) => text != ""
  }

  /**
   * The arguments of a call of `forward`. `force` stands for the
   * `force_classification` argument that the pipelines pass.
   */
  datatype ModuleCall = ModuleCall(leadContext: string, icp: Option<Icp>, offering: Option<string>, force: bool)

  /** What the predictor is asked. */
  datatype ClassifierRequest = ClassifierRequest(leadContext: string, icp: Icp, offering: string, force: bool)

  /** The predictor's raw outputs. */
  datatype Prediction = Prediction(leadQuality: Option<string>, rationale: Option<string>, furtherInvestigation: Option<string>)

  /** The dict `forward` returns. */
  datatype Classification = Classification(
    leadQuality: Option<string>,
    rationale: Option<string>,
    furtherInvestigation: Option<string>,
    isFinal: bool)

  /** The request `forward` sends: a missing or falsy ICP or offering is replaced by its default. */
  function Request(leadContext: string, icp: Option<Icp>, offering: Option<string>, force: bool): (r: ClassifierRequest)
    ensures r.leadContext == leadContext && r.force == force
    ensures r.icp == if IcpTruthy(icp) then icp.value else IcpList(DEFAULT_ICP)
    ensures r.offering == if TruthyText(offering) then offering.value else DEFAULT_OFFERING
  {
    ClassifierRequest(leadContext, if IcpTruthy(icp) then icp.value else IcpList(DEFAULT_ICP),
      OrDefault(offering, DEFAULT_OFFERING), force)
  }

  const NONE_WORD := "none"

  /** The predictor named no further research goal: no value, only whitespace, or the word "none" in any case. */
  predicate NoGoal(goal: Option<string>) {
    goal.None? || Strip(goal.value) == "" || Lower(goal.value) == NONE_WORD
  }

  /** The finality rule of `forward`. */
  function Decide(p: Prediction): (c: Classification)
    ensures c.isFinal <==>
      p.leadQuality.Some?
      && (p.furtherInvestigation.None?
          || AllIn(p.furtherInvestigation.value, WHITESPACE)
          || Lower(p.furtherInvestigation.value) == NONE_WORD)
    ensures c.leadQuality == p.leadQuality && c.rationale == p.rationale
    ensures c.furtherInvestigation == if c.isFinal then None else p.furtherInvestigation
  {
    assert p.furtherInvestigation.Some? ==>
      (Strip(p.furtherInvestigation.value) == "" <==> AllIn(p.furtherInvestigation.value, WHITESPACE)) by {
      if p.furtherInvestigation.Some? {
        StripCharsEmptyIff(p.furtherInvestigation.value, WHITESPACE);
      }
    }
    var isFinal := p.leadQuality.Some? && NoGoal(p.furtherInvestigation);
    Classification(p.leadQuality, p.rationale, if isFinal then None else p.furtherInvestigation, isFinal)
  }

  /** `forward` as a whole: the completed request goes to the predictor once, and its answer is decided. */
  function Classify(predict: ClassifierRequest -> Prediction, call: ModuleCall): Classification {
    Decide(predict(Request(call.leadContext, call.icp, call.offering, call.force)))
  }

  /** Without a lead-quality label there is no final verdict, whatever the goal says. */
  lemma NullLabelNotFinal(rationale: Option<string>, goal: Option<string>)
    ensures !Decide(Prediction(None, rationale, goal)).isFinal
  {
  }

  /** The "none" test is not trimmed: a padded " none " is a research goal. */
  lemma PaddedNoneNotFinal(verdict: string, rationale: Option<string>)
    ensures !Decide(Prediction(Some(verdict), rationale, Some(" none "))).isFinal
    ensures Decide(Prediction(Some(verdict), rationale, Some(" none "))).furtherInvestigation == Some(" none ")
  {
    assert " none "[1] == 'n' && 'n' !in WHITESPACE;
    assert |Lower(" none ")| == 6;
  }

  /** The word "none" is recognised in any letter case. */
  lemma NoneAnyCaseFinal(verdict: string, rationale: Option<string>, goal: string)
    requires |goal| == 4 && LowerChar(goal[0]) == 'n' && LowerChar(goal[1]) == 'o'
      && LowerChar(goal[2]) == 'n' && LowerChar(goal[3]) == 'e'
    ensures Decide(Prediction(Some(verdict), rationale, Some(goal))).isFinal
    ensures Decide(Prediction(Some(verdict), rationale, Some(goal))).furtherInvestigation.None?
  {
    assert Lower(goal) == NONE_WORD;
  }

  /**
   * When the pipelines research: a non-final answer with a non-empty goal
   * is either an unlabelled answer with any non-empty goal, or a labelled one
   * whose goal has a visible character and is not the word "none".
   */
  lemma ResearchRequested(p: Prediction)
    ensures var c := Decide(p); (!c.isFinal && TruthyText(c.furtherInvestigation)) <==>
      TruthyText(p.furtherInvestigation)
      && (p.leadQuality.None?
          || (!AllIn(p.furtherInvestigation.value, WHITESPACE) && Lower(p.furtherInvestigation.value) != NONE_WORD))
  {
  }
}
