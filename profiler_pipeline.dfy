/**
 * `LeadProfilerPipeline.forward`: start from the cached blackboard, which
 * must not render empty; three rounds of drafting a profile and researching
 * the goal a draft names; one more draft, from the blackboard's text, when
 * no round was ready; and, when configured, a forced classification of the
 * final blackboard.
 */
module ProfilerPipeline {
  import opened Basics
  import opened Values
  import opened BlackboardSchema
  import opened ClassifierModule
  import opened PipelineTrace

  const MAX_PROFILE_ROUNDS: nat := 3

  /** A research goal is researched only when it is longer than this. */
  const SHORT_GOAL_LENGTH := 5

  /** The two constructor flags of the pipeline. */
  datatype Config = Config(useSystemCache: bool, updateClassification: bool)

  /** The dict `forward` returns. */
  datatype ProfilerResult = ProfilerResult(
    leadQuality: Option<string>,
    leadQualityRationale: Option<string>,
    profile: Option<string>,
    researchGoal: Option<string>,
    blackboard: map<string, Value>,
    investigationRounds: nat)

  /**
   * The state the loop carries: the blackboard, the round counter, the
   * `output_ready` flag, the latest draft, the number of research and
   * profiler calls so far, and those calls.
   */
  datatype Drafting = Drafting(
    board: Board,
    rounds: nat,
    outputReady: bool,
    draft: Draft,
    researchCalls: nat,
    profilerCalls: nat,
    trace: seq<Call>)

  /** A draft asks for research when its goal is present and longer than five characters. */
  predicate NeedsResearch(d: Draft) {
    d.researchGoal.Some? && |d.researchGoal.value| > SHORT_GOAL_LENGTH
  }

  // ---------------------------------------------------------------------------
  // The starting blackboard

  /**
   * The blackboard before the loop. With the system cache it is read from
   * the JSON file stored for the user name, where `cache` returns that
   * file's dict or `None` when there is none; a missing file, or no cache,
   * gives an empty blackboard.
   */
  function StartBoard(cfg: Config, cache: string -> Option<map<string, Value>>, username: string): Result<Board> {
    if cfg.useSystemCache && cache(username).Some? then FromDict(cache(username).value) else Ok(EMPTY_BOARD)
  }

  function Initial(b: Board): Drafting {
    Drafting(b, 0, false, Draft(None, None), 0, 0, [])
  }

  // ---------------------------------------------------------------------------
  // The run, as functions

  /** How one round ends: it goes on, or a failed research breaks the loop. */
  datatype RoundEnd = Continue(next: Drafting) | Break(last: Drafting)

  /**
   * One round: draft from the blackboard; research a long enough goal and
   * leave the loop if that fails; without such a goal, the output is ready.
   */
  function Round(research: (nat, string, Board) -> ResearchOutcome, profile: (nat, ProfilerInput) -> Draft,
                 st: Drafting): RoundEnd
  {
    var d := profile(st.profilerCalls, BoardInput(st.board));
    var t := st.trace + [ProfilerCall(BoardInput(st.board), d)];
    if NeedsResearch(d) then
      var goal := d.researchGoal.value;
      var outcome := research(st.researchCalls, goal, st.board);
      var t' := t + [ResearchCall(goal, st.board, outcome)];
      match outcome
      case Researched(nb) =>
        Continue(Drafting(nb, st.rounds + 1, st.outputReady, d, st.researchCalls + 1, st.profilerCalls + 1, t'))
      case ResearchFailed =>
        Break(Drafting(st.board, st.rounds, st.outputReady, d, st.researchCalls + 1, st.profilerCalls + 1, t'))
    else
      Continue(Drafting(st.board, st.rounds, true, d, st.researchCalls, st.profilerCalls + 1, t))
  }

  /** Rounds `i`, `i + 1`, ... of the loop. */
  function Loop(research: (nat, string, Board) -> ResearchOutcome, profile: (nat, ProfilerInput) -> Draft,
                i: nat, st: Drafting): Drafting
    requires i <= MAX_PROFILE_ROUNDS
    decreases MAX_PROFILE_ROUNDS - i
  {
    if i == MAX_PROFILE_ROUNDS then st
    else
      match Round(research, profile, st)
      case Continue(next) => Loop(research, profile, i + 1, next)
      case Break(last) => last
  }

  /** After the loop: unless some round was ready, one more draft from the blackboard's text. */
  function Redraft(profile: (nat, ProfilerInput) -> Draft, st: Drafting): Drafting {
    if st.outputReady then st
    else
      var input := TextInput(Render(st.board));
      var d := profile(st.profilerCalls, input);
      Drafting(st.board, st.rounds, st.outputReady, d, st.researchCalls, st.profilerCalls + 1,
        st.trace + [ProfilerCall(input, d)])
  }

  /** The classification after drafting: the blackboard's text, forced, with the module's defaults. */
  function ForcedRequest(b: Board): (r: ModuleCall)
    ensures r.leadContext == Render(b) && r.force && r.icp.None? && r.offering.None?
  {
    ModuleCall(Render(b), None, None, true)
  }

  /** The dict the classifier module returns. */
  function AsDict(c: Classification): map<string, Value> {
    map[
      "lead_quality" := OptionValue(c.leadQuality),
      "rationale" := OptionValue(c.rationale),
      "further_investigation" := OptionValue(c.furtherInvestigation),
      "is_final" := VOther(c.isFinal, true)]
  }

  function OptionValue(x: Option<string>): (v: Value)
    ensures x.None? <==> v.VNone?
    ensures x.Some? ==> v == VStr(x.value)
  {
    if x.Some? then VStr(x.value) else VNone
  }

  function ValueOption(v: Value): (x: Option<string>)
    ensures v.VStr? <==> x.Some?
    ensures v.VStr? ==> x.value == v.s
  {
    if v.VStr? then Some(v.s) else None
  }

  /**
   * `final_classification[key]`, the read the pipeline intends: the label
   * and the rationale the classifier module returned.
   */
  function ReadVerdict(d: map<string, Value>): (Option<string>, Option<string>) {
    (if "lead_quality" in d then ValueOption(d["lead_quality"]) else None,
     if "rationale" in d then ValueOption(d["rationale"]) else None)
  }

  /** The corrected read gives back what the classifier module returned. */
  lemma ReadVerdictOfClassification(c: Classification)
    ensures ReadVerdict(AsDict(c)) == (c.leadQuality, c.rationale)
  {
    var d := AsDict(c);
    assert d["lead_quality"] == OptionValue(c.leadQuality);
    assert d["rationale"] == OptionValue(c.rationale);
  }

  /**
   * `hasattr(obj, name)`: a dict has no attribute named after one of its
   * keys, an object has the attributes it holds.
   */
  predicate HasAttr(obj: Value, name: string) {
    obj.VObject? && name in obj.attrs
  }

  /**
   * The read as the source writes it: `d[key] if hasattr(d, key) else None`,
   * applied to the dict the classifier module returns.
   */
  function ReadVerdictAsWritten(obj: Value): (Option<string>, Option<string>) {
    (if HasAttr(obj, "lead_quality") then ValueOption(Fields(obj)["lead_quality"]) else None,
     if HasAttr(obj, "rationale") then ValueOption(Fields(obj)["rationale"]) else None)
  }

  /** As written, the label and rationale of every classification are dropped. */
  lemma ReadVerdictAsWrittenDrops(c: Classification)
    ensures ReadVerdictAsWritten(VDict(AsDict(c))) == (None, None)
    ensures c.leadQuality.Some? ==> ReadVerdictAsWritten(VDict(AsDict(c))).0 != c.leadQuality
  {
  }

  /** The result, with the classification after drafting when the pipeline is configured to make one. */
  function Conclude(cfg: Config, classify: (nat, ModuleCall) -> Classification, st: Drafting): (ProfilerResult, seq<Call>) {
    if cfg.updateClassification then
      var req := ForcedRequest(st.board);
      var c := classify(0, req);
      var verdict := ReadVerdict(AsDict(c));
      (ProfilerResult(verdict.0, verdict.1, st.draft.profile, st.draft.researchGoal, ToDict(st.board), st.rounds),
       st.trace + [ClassifierCall(req, c)])
    else
      (ProfilerResult(None, None, st.draft.profile, st.draft.researchGoal, ToDict(st.board), st.rounds), st.trace)
  }

  /** A whole run: the starting blackboard must load and must not render empty. */
  function Run(cfg: Config, cache: string -> Option<map<string, Value>>,
               research: (nat, string, Board) -> ResearchOutcome, profile: (nat, ProfilerInput) -> Draft,
               classify: (nat, ModuleCall) -> Classification, username: string): Result<(ProfilerResult, seq<Call>)>
  {
    var start := StartBoard(cfg, cache, username);
    if start.Err? then Err(start.error)
    else if Render(start.value) == "" then Err(MissingBlackboard)
    else Ok(Conclude(cfg, classify, Redraft(profile, Loop(research, profile, 0, Initial(start.value)))))
  }

  // ---------------------------------------------------------------------------
  // `forward`, as the source runs it

  /** A draft without a goal worth researching makes the output ready. */
  lemma RoundReady(research: (nat, string, Board) -> ResearchOutcome, profile: (nat, ProfilerInput) -> Draft,
                   st: Drafting, next: Drafting)
    requires var d := profile(st.profilerCalls, BoardInput(st.board));
      !NeedsResearch(d)
      && next == Drafting(st.board, st.rounds, true, d, st.researchCalls, st.profilerCalls + 1,
                          st.trace + [ProfilerCall(BoardInput(st.board), d)])
    ensures Round(research, profile, st) == Continue(next)
  {
  }

  /** A researched goal replaces the blackboard and counts a round. */
  lemma RoundResearched(research: (nat, string, Board) -> ResearchOutcome, profile: (nat, ProfilerInput) -> Draft,
                        st: Drafting, next: Drafting)
    requires var d := profile(st.profilerCalls, BoardInput(st.board));
      NeedsResearch(d)
      && var outcome := research(st.researchCalls, d.researchGoal.value, st.board);
      outcome.Researched?
      && next == Drafting(outcome.board, st.rounds + 1, st.outputReady, d, st.researchCalls + 1, st.profilerCalls + 1,
                          st.trace + [ProfilerCall(BoardInput(st.board), d)] + [ResearchCall(d.researchGoal.value, st.board, outcome)])
    ensures Round(research, profile, st) == Continue(next)
  {
  }

  /** A failed research breaks the loop with the blackboard it had. */
  lemma RoundFailed(research: (nat, string, Board) -> ResearchOutcome, profile: (nat, ProfilerInput) -> Draft,
                    st: Drafting, last: Drafting)
    requires var d := profile(st.profilerCalls, BoardInput(st.board));
      NeedsResearch(d)
      && var outcome := research(st.researchCalls, d.researchGoal.value, st.board);
      outcome.ResearchFailed?
      && last == Drafting(st.board, st.rounds, st.outputReady, d, st.researchCalls + 1, st.profilerCalls + 1,
                          st.trace + [ProfilerCall(BoardInput(st.board), d)] + [ResearchCall(d.researchGoal.value, st.board, outcome)])
    ensures Round(research, profile, st) == Break(last)
  {
  }

  lemma LoopNext(research: (nat, string, Board) -> ResearchOutcome, profile: (nat, ProfilerInput) -> Draft,
                 i: nat, st: Drafting, next: Drafting)
    requires i < MAX_PROFILE_ROUNDS && Round(research, profile, st) == Continue(next)
    ensures Loop(research, profile, i, st) == Loop(research, profile, i + 1, next)
  {
  }

  lemma LoopBreak(research: (nat, string, Board) -> ResearchOutcome, profile: (nat, ProfilerInput) -> Draft,
                  i: nat, st: Drafting, last: Drafting)
    requires i < MAX_PROFILE_ROUNDS && Round(research, profile, st) == Break(last)
    ensures Loop(research, profile, i, st) == last
  {
  }

  /** One pass of the loop body of `forward`. */
  method DraftRound(research: (nat, string, Board) -> ResearchOutcome, profile: (nat, ProfilerInput) -> Draft,
                    st: Drafting)
    returns (end: RoundEnd)
    ensures end == Round(research, profile, st)
  {
    var blackboard, rounds, outputReady, trace := st.board, st.rounds, st.outputReady, st.trace;
    var researchCalls, profilerCalls := st.researchCalls, st.profilerCalls;
    var draft := profile(profilerCalls, BoardInput(blackboard));
    trace := trace + [ProfilerCall(BoardInput(blackboard), draft)];
    profilerCalls := profilerCalls + 1;
    if NeedsResearch(draft) {
      var goal := draft.researchGoal.value;
      var outcome := research(researchCalls, goal, blackboard);
      trace := trace + [ResearchCall(goal, blackboard, outcome)];
      researchCalls := researchCalls + 1;
      if outcome.ResearchFailed? {
        return Break(Drafting(blackboard, rounds, outputReady, draft, researchCalls, profilerCalls, trace));
      }
      blackboard := outcome.board;
      rounds := rounds + 1;
    } else {
      outputReady := true;
    }
    return Continue(Drafting(blackboard, rounds, outputReady, draft, researchCalls, profilerCalls, trace));
  }

  /** The loop of `forward`. */
  method DraftRounds(research: (nat, string, Board) -> ResearchOutcome, profile: (nat, ProfilerInput) -> Draft,
                     start: Drafting)
    returns (st: Drafting)
    ensures st == Loop(research, profile, 0, start)
  {
    st := start;
    ghost var spec := Loop(research, profile, 0, start);
    var i := 0;
    while i < MAX_PROFILE_ROUNDS
      invariant 0 <= i <= MAX_PROFILE_ROUNDS
      invariant spec == Loop(research, profile, i, st)
    {
      var end := DraftRound(research, profile, st);
      match end {
        case Break(last) =>
          LoopBreak(research, profile, i, st, last);
          st := last;
          return;
        case Continue(next) =>
          LoopNext(research, profile, i, st, next);
          st := next;
      }
      i := i + 1;
    }
  }

  /** What `forward` does after the loop. */
  method Finish(cfg: Config, profile: (nat, ProfilerInput) -> Draft, classify: (nat, ModuleCall) -> Classification,
                st: Drafting)
    returns (result: ProfilerResult, trace: seq<Call>)
    ensures (result, trace) == Conclude(cfg, classify, Redraft(profile, st))
  {
    var draft, profilerCalls := st.draft, st.profilerCalls;
    trace := st.trace;
    if !st.outputReady {
      var input := TextInput(Render(st.board));
      draft := profile(profilerCalls, input);
      trace := trace + [ProfilerCall(input, draft)];
      profilerCalls := profilerCalls + 1;
    }
    var leadQuality: Option<string>, rationale: Option<string> := None, None;
    if cfg.updateClassification {
      var request := ForcedRequest(st.board);
      var classification := classify(0, request);
      trace := trace + [ClassifierCall(request, classification)];
      var verdict := ReadVerdict(AsDict(classification));
      leadQuality, rationale := verdict.0, verdict.1;
    }
    result := ProfilerResult(leadQuality, rationale, draft.profile, draft.researchGoal, ToDict(st.board), st.rounds);
  }

  /** `forward`. */
  method Forward(cfg: Config, cache: string -> Option<map<string, Value>>,
                 research: (nat, string, Board) -> ResearchOutcome, profile: (nat, ProfilerInput) -> Draft,
                 classify: (nat, ModuleCall) -> Classification, username: string)
    returns (r: Result<(ProfilerResult, seq<Call>)>)
    ensures r == Run(cfg, cache, research, profile, classify, username)
  {
    var blackboard := EMPTY_BOARD;
    if cfg.useSystemCache {
      var cached := cache(username);
      if cached.Some? {
        var loaded := FromDict(cached.value);
        if loaded.Err? {
          return Err(loaded.error);
        }
        blackboard := loaded.value;
      }
    }
    if Render(blackboard) == "" {
      return Err(MissingBlackboard);
    }
    var st := DraftRounds(research, profile, Initial(blackboard));
    var result, trace := Finish(cfg, profile, classify, st);
    return Ok((result, trace));
  }
}
