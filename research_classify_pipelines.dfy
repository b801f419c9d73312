/**
 * `LeadEvolverPipeline.forward` and `LeadClassifierPipeline.forward`: one
 * initial research call, up to five rounds of classify-then-research, and a
 * final classification when no round gave a verdict. The two pipelines
 * share the loop and differ in the arguments they pass to the classifier
 * module and in the label that stands in for a missing final one.
 */
module ResearchClassifyPipelines {
  import opened Basics
  import opened Strings
  import opened Values
  import opened BlackboardSchema
  import opened ClassifierModule
  import opened PipelineTrace

  const MAX_INVESTIGATION_ROUNDS: nat := 5

  const EXHAUSTED_NOTE := "[RESEARCH EXHAUSTED: Maximum investigation rounds reached. Make final classification with available information.]"

  /** The note the evolver puts, on a line of its own after a blank line, before the blackboard of its last call. */
  const EXHAUSTED_MARKER := "\n\n" + EXHAUSTED_NOTE + "\n"

  /**
   * `Evolver` passes the configured ICP text and offering to every
   * classification; `ClassifierOnly` passes neither, so the module's
   * defaults apply.
   */
  datatype Variant = Evolver(icpProfile: string, offering: string) | ClassifierOnly

  /** The dict `forward` returns. */
  datatype PipelineResult = PipelineResult(
    leadQuality: Option<string>,
    rationale: Option<string>,
    blackboard: map<string, Value>,
    investigationRounds: nat)

  /**
   * The state the loop carries: the blackboard, the round counter, the
   * number of research and classifier calls so far, and those calls.
   */
  datatype Progress = Progress(board: Board, rounds: nat, researchCalls: nat, classifierCalls: nat, trace: seq<Call>)

  // ---------------------------------------------------------------------------
  // The initial research goal

  const GOAL_HEAD := "Find information related to whether they might be an ideal customer, by visiting only the initial url (profile page). "

  /** The goal text after a first line `head`. */
  function GoalLines(head: string, url: string, username: string, name: string): string {
    head + "\nLead: " + username + "\nName: " + name + "\nInitial Url: " + url
  }

  lemma GoalLinesStart(head: string, url: string, username: string, name: string)
    ensures StartsWith(GoalLines(head, url, username, name), head)
  {
    var rest := "\nLead: " + username + "\nName: " + name + "\nInitial Url: " + url;
    assert GoalLines(head, url, username, name) == head + rest;
    assert (head + rest)[..|head|] == head;
  }

  lemma GoalLinesLead(head: string, url: string, username: string, name: string)
    ensures Contains(GoalLines(head, url, username, name), "\nLead: " + username + "\n")
  {
    var rest := "Name: " + name + "\nInitial Url: " + url;
    assert GoalLines(head, url, username, name) == head + ("\nLead: " + username + "\n") + rest;
    ContainsInfix(head, "\nLead: " + username + "\n", rest);
  }

  lemma GoalLinesName(head: string, url: string, username: string, name: string)
    ensures Contains(GoalLines(head, url, username, name), "\nName: " + name + "\n")
  {
    var before := head + "\nLead: " + username;
    var rest := "Initial Url: " + url;
    assert GoalLines(head, url, username, name) == before + ("\nName: " + name + "\n") + rest;
    ContainsInfix(before, "\nName: " + name + "\n", rest);
  }

  lemma GoalLinesEnd(head: string, url: string, username: string, name: string)
    ensures var g := GoalLines(head, url, username, name); |g| >= |url| && g[|g| - |url|..] == url
  {
    var before := head + "\nLead: " + username + "\nName: " + name + "\nInitial Url: ";
    assert GoalLines(head, url, username, name) == before + url;
    assert (before + url)[|before|..] == url;
  }

  /** The goal of the first research call. */
  function InitialGoal(url: string, username: string, name: string): string {
    GoalLines(GOAL_HEAD, url, username, name)
  }

  /**
   * The first goal names the user, the lead and the profile URL, and allows
   * visiting only that URL.
   */
  lemma InitialGoalMentions(url: string, username: string, name: string)
    ensures var g := InitialGoal(url, username, name);
      StartsWith(g, GOAL_HEAD)
      && Contains(g, "\nLead: " + username + "\n")
      && Contains(g, "\nName: " + name + "\n")
      && |g| >= |url| && g[|g| - |url|..] == url
  {
    GoalLinesStart(GOAL_HEAD, url, username, name);
    GoalLinesLead(GOAL_HEAD, url, username, name);
    GoalLinesName(GOAL_HEAD, url, username, name);
    GoalLinesEnd(GOAL_HEAD, url, username, name);
  }

  // ---------------------------------------------------------------------------
  // The calls of the classifier module

  /** The call of one loop round: the rendered blackboard, not forced. */
  function LoopRequest(v: Variant, b: Board): (r: ModuleCall)
    ensures r.leadContext == Render(b) && !r.force
    ensures v.Evolver? ==> r.icp == Some(IcpText(v.icpProfile)) && r.offering == Some(v.offering)
    ensures v.ClassifierOnly? ==> r.icp.None? && r.offering.None?
  {
    match v
    case Evolver(icp, offering) => ModuleCall(Render(b), Some(IcpText(icp)), Some(offering), false)
    case ClassifierOnly => ModuleCall(Render(b), None, None, false)
  }

  /**
   * The call after the loop: the evolver prefixes the blackboard with the
   * exhausted marker, the classifier pipeline forces a verdict instead.
   */
  function FinalRequest(v: Variant, b: Board): (r: ModuleCall)
    ensures v.Evolver? ==> r == ModuleCall(EXHAUSTED_MARKER + Render(b), Some(IcpText(v.icpProfile)), Some(v.offering), false)
    ensures v.ClassifierOnly? ==> r == ModuleCall(Render(b), None, None, true)
  {
    match v
    case Evolver(icp, offering) => ModuleCall(EXHAUSTED_MARKER + Render(b), Some(IcpText(icp)), Some(offering), false)
    case ClassifierOnly => ModuleCall(Render(b), None, None, true)
  }

  /**
   * A loop classification and the one after the loop never ask the same:
   * the classifier pipeline's is forced, and the evolver's context starts
   * with the exhausted marker, which no rendered blackboard does.
   */
  lemma LoopAndFinalDiffer(v: Variant, b: Board, b': Board)
    ensures LoopRequest(v, b) != FinalRequest(v, b')
  {
    if v.Evolver? {
      var r := Render(b);
      var m := EXHAUSTED_MARKER + Render(b');
      assert m == "\n\n" + (EXHAUSTED_NOTE + "\n" + Render(b'));
      assert m[0] == '\n' && m[1] == '\n';
      if r != "" {
        if b.researchFindings != "" {
          assert r[0] == RESEARCH_HEADING[0] == 'R';
        } else {
          assert |r| >= 2 && r[1] == PAGES_HEADING[1] == 'P';
        }
      }
    }
  }

  /** What stands in for a missing or empty final label. */
  function FallbackLabel(v: Variant): string {
    if v.Evolver? then "not_a_fit" else "None"
  }

  // ---------------------------------------------------------------------------
  // The run, as functions

  /** The classification after the loop and the result built from it. */
  function Final(v: Variant, classify: (nat, ModuleCall) -> Classification, st: Progress): (PipelineResult, seq<Call>) {
    var req := FinalRequest(v, st.board);
    var c := classify(st.classifierCalls, req);
    (PipelineResult(Some(OrDefault(c.leadQuality, FallbackLabel(v))), c.rationale, ToDict(st.board), st.rounds),
     st.trace + [ClassifierCall(req, c)])
  }

  /** How one round of the loop ends: with a verdict, with the next round, or by leaving the loop. */
  datatype RoundEnd = Verdict(result: PipelineResult, trace: seq<Call>) | NextRound(next: Progress) | LeaveLoop(last: Progress)

  /**
   * One round: classify the rendered blackboard; return on a final answer;
   * research a non-empty goal, leaving the loop if that research fails.
   */
  function Round(v: Variant, research: (nat, string, Board) -> ResearchOutcome,
                 classify: (nat, ModuleCall) -> Classification, st: Progress): RoundEnd
  {
    var req := LoopRequest(v, st.board);
    var c := classify(st.classifierCalls, req);
    var t := st.trace + [ClassifierCall(req, c)];
    if c.isFinal then
      Verdict(PipelineResult(c.leadQuality, c.rationale, ToDict(st.board), st.rounds), t)
    else if TruthyText(c.furtherInvestigation) then
      var goal := c.furtherInvestigation.value;
      var outcome := research(st.researchCalls, goal, st.board);
      var t' := t + [ResearchCall(goal, st.board, outcome)];
      match outcome
      case Researched(nb) => NextRound(Progress(nb, st.rounds + 1, st.researchCalls + 1, st.classifierCalls + 1, t'))
      case ResearchFailed => LeaveLoop(Progress(st.board, st.rounds, st.researchCalls + 1, st.classifierCalls + 1, t'))
    else
      NextRound(Progress(st.board, st.rounds, st.researchCalls, st.classifierCalls + 1, t))
  }

  /** Rounds `i`, `i + 1`, ... of the loop, then the final classification unless a round returned. */
  function Loop(v: Variant, research: (nat, string, Board) -> ResearchOutcome,
                classify: (nat, ModuleCall) -> Classification, i: nat, st: Progress): (PipelineResult, seq<Call>)
    requires i <= MAX_INVESTIGATION_ROUNDS
    decreases MAX_INVESTIGATION_ROUNDS - i
  {
    if i == MAX_INVESTIGATION_ROUNDS then Final(v, classify, st)
    else
      match Round(v, research, classify, st)
      case Verdict(r, t) => (r, t)
      case NextRound(next) => Loop(v, research, classify, i + 1, next)
      case LeaveLoop(last) => Final(v, classify, last)
  }

  /** The state after the initial research, whose failure is swallowed. */
  function Start(research: (nat, string, Board) -> ResearchOutcome, url: string, username: string, name: string): (st: Progress)
    ensures |st.trace| == 1 && st.trace[0].ResearchCall?
    ensures st.trace[0].goal == InitialGoal(url, username, name) && st.trace[0].input == EMPTY_BOARD
    ensures st.trace[0].outcome.ResearchFailed? ==> st.board == EMPTY_BOARD && st.rounds == 0
    ensures st.trace[0].outcome.Researched? ==> st.board == st.trace[0].outcome.board && st.rounds == 1
    ensures st.researchCalls == 1 && st.classifierCalls == 0
  {
    var goal := InitialGoal(url, username, name);
    var outcome := research(0, goal, EMPTY_BOARD);
    var t := [ResearchCall(goal, EMPTY_BOARD, outcome)];
    match outcome
    case Researched(b) => Progress(b, 1, 1, 0, t)
    case ResearchFailed => Progress(EMPTY_BOARD, 0, 1, 0, t)
  }

  /** A whole run of either pipeline. */
  function Run(v: Variant, research: (nat, string, Board) -> ResearchOutcome,
               classify: (nat, ModuleCall) -> Classification,
               url: string, username: string, name: string): (PipelineResult, seq<Call>)
  {
    Loop(v, research, classify, 0, Start(research, url, username, name))
  }

  // ---------------------------------------------------------------------------
  // `forward`, as the source runs it

  lemma LoopNext(v: Variant, research: (nat, string, Board) -> ResearchOutcome,
                 classify: (nat, ModuleCall) -> Classification, i: nat, st: Progress, next: Progress)
    requires i < MAX_INVESTIGATION_ROUNDS && Round(v, research, classify, st) == NextRound(next)
    ensures Loop(v, research, classify, i, st) == Loop(v, research, classify, i + 1, next)
  {
  }

  lemma LoopLeave(v: Variant, research: (nat, string, Board) -> ResearchOutcome,
                  classify: (nat, ModuleCall) -> Classification, i: nat, st: Progress, last: Progress)
    requires i < MAX_INVESTIGATION_ROUNDS && Round(v, research, classify, st) == LeaveLoop(last)
    ensures Loop(v, research, classify, i, st) == Final(v, classify, last)
  {
  }

  lemma LoopVerdict(v: Variant, research: (nat, string, Board) -> ResearchOutcome,
                    classify: (nat, ModuleCall) -> Classification, i: nat, st: Progress,
                    r: PipelineResult, t: seq<Call>)
    requires i < MAX_INVESTIGATION_ROUNDS && Round(v, research, classify, st) == Verdict(r, t)
    ensures Loop(v, research, classify, i, st) == (r, t)
  {
  }

  /** The initial research call of `forward`, whose failure is swallowed. */
  method Begin(research: (nat, string, Board) -> ResearchOutcome, url: string, username: string, name: string)
    returns (st: Progress)
    ensures st == Start(research, url, username, name)
  {
    var blackboard := EMPTY_BOARD;
    var rounds: nat := 0;
    var goal := InitialGoal(url, username, name);
    var outcome := research(0, goal, blackboard);
    var trace := [ResearchCall(goal, blackboard, outcome)];
    if outcome.Researched? {
      blackboard := outcome.board;
      rounds := rounds + 1;
    }
    st := Progress(blackboard, rounds, 1, 0, trace);
  }

  /** One pass of the loop body of `forward`. */
  method PlayRound(v: Variant, research: (nat, string, Board) -> ResearchOutcome,
                   classify: (nat, ModuleCall) -> Classification, st: Progress)
    returns (end: RoundEnd)
    ensures end == Round(v, research, classify, st)
  {
    var blackboard, rounds, trace := st.board, st.rounds, st.trace;
    var researchCalls, classifierCalls := st.researchCalls, st.classifierCalls;
    var request := LoopRequest(v, blackboard);
    var classification := classify(classifierCalls, request);
    trace := trace + [ClassifierCall(request, classification)];
    classifierCalls := classifierCalls + 1;
    if classification.isFinal {
      return Verdict(PipelineResult(classification.leadQuality, classification.rationale, ToDict(blackboard), rounds), trace);
    }
    if TruthyText(classification.furtherInvestigation) {
      var goal := classification.furtherInvestigation.value;
      var outcome := research(researchCalls, goal, blackboard);
      trace := trace + [ResearchCall(goal, blackboard, outcome)];
      researchCalls := researchCalls + 1;
      if outcome.ResearchFailed? {
        return LeaveLoop(Progress(blackboard, rounds, researchCalls, classifierCalls, trace));
      }
      blackboard := outcome.board;
      rounds := rounds + 1;
    }
    return NextRound(Progress(blackboard, rounds, researchCalls, classifierCalls, trace));
  }

  /** The classification after the loop of `forward`. */
  method Conclude(v: Variant, classify: (nat, ModuleCall) -> Classification, st: Progress)
    returns (result: PipelineResult, trace: seq<Call>)
    ensures (result, trace) == Final(v, classify, st)
  {
    var request := FinalRequest(v, st.board);
    var classification := classify(st.classifierCalls, request);
    trace := st.trace + [ClassifierCall(request, classification)];
    result := PipelineResult(Some(OrDefault(classification.leadQuality, FallbackLabel(v))), classification.rationale,
      ToDict(st.board), st.rounds);
  }

  /** The loop of `forward` and the classification after it. */
  method Rounds(v: Variant, research: (nat, string, Board) -> ResearchOutcome,
                classify: (nat, ModuleCall) -> Classification, start: Progress)
    returns (result: PipelineResult, trace: seq<Call>)
    ensures (result, trace) == Loop(v, research, classify, 0, start)
  {
    var st := start;
    ghost var spec := Loop(v, research, classify, 0, start);
    var i := 0;
    while i < MAX_INVESTIGATION_ROUNDS
      invariant 0 <= i <= MAX_INVESTIGATION_ROUNDS
      invariant spec == Loop(v, research, classify, i, st)
    {
      var end := PlayRound(v, research, classify, st);
      match end {
        case Verdict(r, t) =>
          LoopVerdict(v, research, classify, i, st, r, t);
          return r, t;
        case LeaveLoop(last) =>
          LoopLeave(v, research, classify, i, st, last);
          st := last;
          break;
        case NextRound(next) =>
          LoopNext(v, research, classify, i, st, next);
          st := next;
      }
      i := i + 1;
    }
    result, trace := Conclude(v, classify, st);
  }

  /** `forward` of either pipeline. */
  method Forward(v: Variant, research: (nat, string, Board) -> ResearchOutcome,
                 classify: (nat, ModuleCall) -> Classification,
                 url: string, username: string, name: string)
    returns (result: PipelineResult, trace: seq<Call>)
    ensures (result, trace) == Run(v, research, classify, url, username, name)
  {
    var st := Begin(research, url, username, name);
    result, trace := Rounds(v, research, classify, st);
  }
}
