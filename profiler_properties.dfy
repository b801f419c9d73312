/**
 * What a run of `LeadProfilerPipeline.forward` guarantees, for every
 * behaviour of the cache, research, profiler and classifier oracles: when
 * it raises, call bounds, when research happens, the sticky
 * `output_ready` flag, and where each field of the result comes from.
 */
module ProfilerProperties {
  import opened Basics
  import opened Values
  import opened BlackboardSchema
  import opened ClassifierModule
  import opened PipelineTrace
  import opened ProfilerPipeline

  /** Every research call follows the draft that named its goal. */
  predicate ResearchOnGoal(t: seq<Call>) {
    forall k :: 0 <= k < |t| && t[k].ResearchCall? ==>
      k >= 1 && t[k - 1].ProfilerCall? && NeedsResearch(t[k - 1].draft)
      && t[k].goal == t[k - 1].draft.researchGoal.value
  }

  /** Some draft of `t` from the blackboard object named no goal worth researching. */
  predicate Lacked(t: seq<Call>) {
    exists k :: 0 <= k < |t| && t[k].ProfilerCall? && t[k].profilerInput.BoardInput? && !NeedsResearch(t[k].draft)
  }

  /** Some draft of `t` was made from the blackboard's text. */
  predicate TextDrafted(t: seq<Call>) {
    exists k :: 0 <= k < |t| && t[k].ProfilerCall? && t[k].profilerInput.TextInput?
  }

  /** The answer of the last profiler call of `t`. */
  function LastDraft(t: seq<Call>): Option<Draft>
    decreases |t|
  {
    if t == [] then None
    else if t[|t| - 1].ProfilerCall? then Some(t[|t| - 1].draft)
    else LastDraft(t[..|t| - 1])
  }

  /** No failed research, no classification and no draft from text in `t`. */
  predicate InLoop(t: seq<Call>) {
    Count(t, Research) == Count(t, SuccessfulResearch) && Count(t, Classifier) == 0 && !TextDrafted(t)
  }

  /** What holds of the loop state at the start of round `i`, for a run that started on blackboard `b`. */
  predicate Inv(i: nat, st: Drafting, b: Board) {
    st.profilerCalls == i && Count(st.trace, Profiler) == i
    && st.researchCalls == Count(st.trace, Research) <= i && st.rounds == Count(st.trace, SuccessfulResearch)
    && InLoop(st.trace)
    && ResearchOnGoal(st.trace)
    && (st.outputReady <==> Lacked(st.trace))
    && st.board == LatestBoard(st.trace, b)
    && (i > 0 ==> LastDraft(st.trace) == Some(st.draft))
  }

  /**
   * What holds of the state the loop ends in: all three rounds ran, or a
   * failed research call, the last of the trace, broke the loop.
   */
  predicate LoopEnd(st: Drafting, b: Board) {
    var t := st.trace;
    1 <= st.profilerCalls <= MAX_PROFILE_ROUNDS && Count(t, Profiler) == st.profilerCalls
    && st.researchCalls == Count(t, Research) <= st.profilerCalls && st.rounds == Count(t, SuccessfulResearch)
    && Count(t, Classifier) == 0 && !TextDrafted(t)
    && ResearchOnGoal(t)
    && (st.outputReady <==> Lacked(t))
    && st.board == LatestBoard(t, b)
    && LastDraft(t) == Some(st.draft)
    && (Count(t, Research) == Count(t, SuccessfulResearch) ==> st.profilerCalls == MAX_PROFILE_ROUNDS)
    && (Count(t, Research) != Count(t, SuccessfulResearch) ==>
          t[|t| - 1].ResearchCall? && t[|t| - 1].outcome.ResearchFailed?
          && Count(t, Research) == Count(t, SuccessfulResearch) + 1)
  }

  // ---------------------------------------------------------------------------
  // Appending one call

  lemma SnocCounts(t: seq<Call>, c: Call)
    ensures Count(t + [c], Research) == Count(t, Research) + (if c.ResearchCall? then 1 else 0)
    ensures Count(t + [c], SuccessfulResearch) == Count(t, SuccessfulResearch) + (if c.ResearchCall? && c.outcome.Researched? then 1 else 0)
    ensures Count(t + [c], Classifier) == Count(t, Classifier) + (if c.ClassifierCall? then 1 else 0)
    ensures Count(t + [c], Profiler) == Count(t, Profiler) + (if c.ProfilerCall? then 1 else 0)
  {
    CountSnoc(t, c, Research);
    CountSnoc(t, c, SuccessfulResearch);
    CountSnoc(t, c, Classifier);
    CountSnoc(t, c, Profiler);
  }

  lemma SnocLatest(t: seq<Call>, c: Call, b: Board)
    ensures LatestBoard(t + [c], b) == if c.ResearchCall? && c.outcome.Researched? then c.outcome.board else LatestBoard(t, b)
    ensures LastDraft(t + [c]) == if c.ProfilerCall? then Some(c.draft) else LastDraft(t)
  {
    LatestBoardSnoc(t, c, b);
    assert (t + [c])[..|t|] == t;
  }

  /** A draft appended to `t`. */
  lemma SnocDraft(t: seq<Call>, c: Call)
    requires c.ProfilerCall? && ResearchOnGoal(t)
    ensures ResearchOnGoal(t + [c])
    ensures Lacked(t + [c]) <==> Lacked(t) || (c.profilerInput.BoardInput? && !NeedsResearch(c.draft))
    ensures TextDrafted(t + [c]) <==> TextDrafted(t) || c.profilerInput.TextInput?
  {
    var u := t + [c];
    forall k | 0 <= k < |t| ensures u[k] == t[k] { }
    assert u[|t|] == c;
    if Lacked(t) {
      var k :| 0 <= k < |t| && t[k].ProfilerCall? && t[k].profilerInput.BoardInput? && !NeedsResearch(t[k].draft);
      assert u[k] == t[k];
    }
    if TextDrafted(t) {
      var k :| 0 <= k < |t| && t[k].ProfilerCall? && t[k].profilerInput.TextInput?;
      assert u[k] == t[k];
    }
  }

  /** A classification, or the research the last draft asked for, appended to `t`. */
  lemma SnocOther(t: seq<Call>, c: Call)
    requires ResearchOnGoal(t) && !c.ProfilerCall?
    requires c.ResearchCall? ==>
      |t| >= 1 && t[|t| - 1].ProfilerCall? && NeedsResearch(t[|t| - 1].draft)
      && c.goal == t[|t| - 1].draft.researchGoal.value
    ensures ResearchOnGoal(t + [c])
    ensures Lacked(t + [c]) <==> Lacked(t)
    ensures TextDrafted(t + [c]) <==> TextDrafted(t)
  {
    var u := t + [c];
    forall k | 0 <= k < |t| ensures u[k] == t[k] { }
    assert u[|t|] == c;
    if Lacked(t) {
      var k :| 0 <= k < |t| && t[k].ProfilerCall? && t[k].profilerInput.BoardInput? && !NeedsResearch(t[k].draft);
      assert u[k] == t[k];
    }
    if TextDrafted(t) {
      var k :| 0 <= k < |t| && t[k].ProfilerCall? && t[k].profilerInput.TextInput?;
      assert u[k] == t[k];
    }
  }

  // ---------------------------------------------------------------------------
  // The loop

  lemma InitialInv(b: Board)
    ensures Inv(0, Initial(b), b)
  {
  }

  /** A round whose draft names no goal worth researching goes on, with the output ready. */
  lemma ReadyRoundStep(i: nat, st: Drafting, b: Board, d: Draft)
    requires i < MAX_PROFILE_ROUNDS && Inv(i, st, b) && !NeedsResearch(d)
    ensures Inv(i + 1, Drafting(st.board, st.rounds, true, d, st.researchCalls, st.profilerCalls + 1,
                                st.trace + [ProfilerCall(BoardInput(st.board), d)]), b)
  {
    var pc := ProfilerCall(BoardInput(st.board), d);
    SnocCounts(st.trace, pc);
    SnocLatest(st.trace, pc, b);
    SnocDraft(st.trace, pc);
  }

  /** The state after the draft of a round that names a goal: the same invariant, with one draft more. */
  predicate Asking(i: nat, st: Drafting, t: seq<Call>, b: Board) {
    |t| >= 1 && t[|t| - 1].ProfilerCall? && NeedsResearch(t[|t| - 1].draft)
    && Count(t, Profiler) == i + 1 && st.researchCalls == Count(t, Research) <= i
    && st.rounds == Count(t, SuccessfulResearch)
    && InLoop(t) && ResearchOnGoal(t)
    && (st.outputReady <==> Lacked(t))
    && st.board == LatestBoard(t, b)
  }

  lemma AskingStep(i: nat, st: Drafting, b: Board, d: Draft)
    requires i < MAX_PROFILE_ROUNDS && Inv(i, st, b) && NeedsResearch(d)
    ensures Asking(i, st, st.trace + [ProfilerCall(BoardInput(st.board), d)], b)
  {
    var pc := ProfilerCall(BoardInput(st.board), d);
    SnocCounts(st.trace, pc);
    SnocLatest(st.trace, pc, b);
    SnocDraft(st.trace, pc);
  }

  /** A successful research of the goal goes on with the new blackboard. */
  lemma ResearchedStep(i: nat, st: Drafting, t: seq<Call>, b: Board, nb: Board)
    requires i < MAX_PROFILE_ROUNDS && Asking(i, st, t, b)
    ensures var d := t[|t| - 1].draft;
      var rc := ResearchCall(d.researchGoal.value, st.board, Researched(nb));
      Inv(i + 1, Drafting(nb, st.rounds + 1, st.outputReady, d, st.researchCalls + 1, i + 1, t + [rc]), b)
  {
    var d := t[|t| - 1].draft;
    var rc := ResearchCall(d.researchGoal.value, st.board, Researched(nb));
    SnocCounts(t, rc);
    SnocLatest(t, rc, b);
    SnocOther(t, rc);
  }

  /** A failed research of the goal breaks the loop. */
  lemma FailedStep(i: nat, st: Drafting, t: seq<Call>, b: Board)
    requires i < MAX_PROFILE_ROUNDS && Asking(i, st, t, b)
    ensures var d := t[|t| - 1].draft;
      var rc := ResearchCall(d.researchGoal.value, st.board, ResearchFailed);
      LoopEnd(Drafting(st.board, st.rounds, st.outputReady, d, st.researchCalls + 1, i + 1, t + [rc]), b)
  {
    var d := t[|t| - 1].draft;
    var rc := ResearchCall(d.researchGoal.value, st.board, ResearchFailed);
    SnocCounts(t, rc);
    SnocLatest(t, rc, b);
    SnocOther(t, rc);
  }

  /** A round from a state satisfying the invariant reaches the next round's invariant or a loop end. */
  lemma RoundStep(research: (nat, string, Board) -> ResearchOutcome, profile: (nat, ProfilerInput) -> Draft,
                  i: nat, st: Drafting, b: Board)
    requires i < MAX_PROFILE_ROUNDS && Inv(i, st, b)
    ensures var end := Round(research, profile, st);
      (end.Continue? ==> Inv(i + 1, end.next, b)) && (end.Break? ==> LoopEnd(end.last, b))
  {
    var d := profile(st.profilerCalls, BoardInput(st.board));
    var t := st.trace + [ProfilerCall(BoardInput(st.board), d)];
    if !NeedsResearch(d) {
      ReadyRoundStep(i, st, b, d);
      RoundReady(research, profile, st, Drafting(st.board, st.rounds, true, d, st.researchCalls, st.profilerCalls + 1, t));
    } else {
      var goal := d.researchGoal.value;
      var outcome := research(st.researchCalls, goal, st.board);
      var t' := t + [ResearchCall(goal, st.board, outcome)];
      AskingStep(i, st, b, d);
      if outcome.Researched? {
        ResearchedStep(i, st, t, b, outcome.board);
        RoundResearched(research, profile, st,
          Drafting(outcome.board, st.rounds + 1, st.outputReady, d, st.researchCalls + 1, i + 1, t'));
      } else {
        FailedStep(i, st, t, b);
        RoundFailed(research, profile, st, Drafting(st.board, st.rounds, st.outputReady, d, st.researchCalls + 1, i + 1, t'));
      }
    }
  }

  /** Rounds `i`, `i + 1`, ... from a state satisfying the invariant end in a loop end. */
  lemma {:induction false} LoopSound(research: (nat, string, Board) -> ResearchOutcome, profile: (nat, ProfilerInput) -> Draft,
                                     i: nat, st: Drafting, b: Board)
    requires i <= MAX_PROFILE_ROUNDS && Inv(i, st, b)
    ensures LoopEnd(Loop(research, profile, i, st), b)
    decreases MAX_PROFILE_ROUNDS - i
  {
    if i < MAX_PROFILE_ROUNDS {
      RoundStep(research, profile, i, st, b);
      match Round(research, profile, st) {
        case Continue(next) =>
          LoopNext(research, profile, i, st, next);
          LoopSound(research, profile, i + 1, next, b);
        case Break(last) =>
          LoopBreak(research, profile, i, st, last);
      }
    }
  }

  // ---------------------------------------------------------------------------
  // After the loop

  /** What holds after the extra draft, if any. */
  predicate Drafted(s: Drafting, b: Board) {
    var t := s.trace;
    s.rounds == Count(t, SuccessfulResearch) && Count(t, Research) <= MAX_PROFILE_ROUNDS
    && ResearchOnGoal(t) && Count(t, Classifier) == 0
    && Count(t, Profiler) <= MAX_PROFILE_ROUNDS + 1
    && (Count(t, Research) == Count(t, SuccessfulResearch) ==>
          Count(t, Profiler) == MAX_PROFILE_ROUNDS + (if Lacked(t) then 0 else 1))
    && (TextDrafted(t) <==> !Lacked(t))
    && s.board == LatestBoard(t, b)
    && LastDraft(t) == Some(s.draft)
  }

  /** The extra draft happens exactly when no round was ready. */
  lemma RedraftSound(profile: (nat, ProfilerInput) -> Draft, st: Drafting, b: Board)
    requires LoopEnd(st, b)
    ensures Drafted(Redraft(profile, st), b)
  {
    if !st.outputReady {
      var input := TextInput(Render(st.board));
      var pc := ProfilerCall(input, profile(st.profilerCalls, input));
      SnocCounts(st.trace, pc);
      SnocLatest(st.trace, pc, b);
      SnocDraft(st.trace, pc);
    }
  }

  /**
   * What a run that got past the starting blackboard `b` returns.
   * `investigation_rounds` counts the successful research calls, at most
   * three; every research call follows the draft that named its goal; the
   * profiler is called three times in the loop unless a research call fails,
   * and once more, from the text, exactly when no draft from the blackboard
   * lacked a goal; the result holds the last draft and the dict of the last
   * blackboard research returned; and the label and rationale are those of
   * one forced classification of that blackboard, or absent when the
   * pipeline does not classify.
   */
  predicate Concluded(cfg: Config, classify: (nat, ModuleCall) -> Classification,
                      run: (ProfilerResult, seq<Call>), b: Board) {
    var (r, t) := run;
    var last := LatestBoard(t, b);
    var req := ForcedRequest(last);
    r.investigationRounds == Count(t, SuccessfulResearch) <= Count(t, Research) <= MAX_PROFILE_ROUNDS
    && ResearchOnGoal(t)
    && Count(t, Profiler) <= MAX_PROFILE_ROUNDS + 1
    && (Count(t, Research) == Count(t, SuccessfulResearch) ==>
          Count(t, Profiler) == MAX_PROFILE_ROUNDS + (if Lacked(t) then 0 else 1))
    && (TextDrafted(t) <==> !Lacked(t))
    && LastDraft(t) == Some(Draft(r.profile, r.researchGoal))
    && r.blackboard == ToDict(last)
    && (cfg.updateClassification ==>
          Count(t, Classifier) == 1 && t[|t| - 1] == ClassifierCall(req, classify(0, req))
          && r.leadQuality == classify(0, req).leadQuality
          && r.leadQualityRationale == classify(0, req).rationale)
    && (!cfg.updateClassification ==>
          Count(t, Classifier) == 0 && r.leadQuality.None? && r.leadQualityRationale.None?)
  }

  lemma ConcludeSound(cfg: Config, classify: (nat, ModuleCall) -> Classification, s: Drafting, b: Board)
    requires Drafted(s, b)
    ensures Concluded(cfg, classify, Conclude(cfg, classify, s), b)
  {
    SuccessfulAtMostResearch(s.trace);
    if cfg.updateClassification {
      var req := ForcedRequest(s.board);
      var cc := ClassifierCall(req, classify(0, req));
      SnocCounts(s.trace, cc);
      SnocLatest(s.trace, cc, b);
      SnocOther(s.trace, cc);
      ReadVerdictOfClassification(classify(0, req));
    }
  }

  /** Every run that does not raise is concluded as above, from the blackboard it started on. */
  lemma RunSound(cfg: Config, cache: string -> Option<map<string, Value>>,
                 research: (nat, string, Board) -> ResearchOutcome, profile: (nat, ProfilerInput) -> Draft,
                 classify: (nat, ModuleCall) -> Classification, username: string)
    requires Run(cfg, cache, research, profile, classify, username).Ok?
    ensures Concluded(cfg, classify, Run(cfg, cache, research, profile, classify, username).value,
                      StartBoard(cfg, cache, username).value)
  {
    var b := StartBoard(cfg, cache, username).value;
    InitialInv(b);
    LoopSound(research, profile, 0, Initial(b), b);
    var st := Loop(research, profile, 0, Initial(b));
    RedraftSound(profile, st, b);
    ConcludeSound(cfg, classify, Redraft(profile, st), b);
  }

  // ---------------------------------------------------------------------------
  // The starting blackboard

  /**
   * The pipeline raises exactly when the cached dict is not a valid
   * blackboard or the starting blackboard renders as the empty string.
   */
  lemma RaisesOnEmptyStart(cfg: Config, cache: string -> Option<map<string, Value>>,
                           research: (nat, string, Board) -> ResearchOutcome, profile: (nat, ProfilerInput) -> Draft,
                           classify: (nat, ModuleCall) -> Classification, username: string)
    ensures var start := StartBoard(cfg, cache, username);
      var r := Run(cfg, cache, research, profile, classify, username);
      (r.Err? <==> start.Err? || Render(start.value) == "")
      && (start.Ok? && Render(start.value) == "" ==> r == Err(MissingBlackboard))
      && (start.Err? ==> r == Err(ValidationError))
  {
  }

  /** Without the system cache the blackboard starts empty, so the pipeline always raises. */
  lemma NoCacheRaises(cfg: Config, cache: string -> Option<map<string, Value>>,
                      research: (nat, string, Board) -> ResearchOutcome, profile: (nat, ProfilerInput) -> Draft,
                      classify: (nat, ModuleCall) -> Classification, username: string)
    requires !cfg.useSystemCache
    ensures Run(cfg, cache, research, profile, classify, username) == Err(MissingBlackboard)
  {
    FromDictEmpty();
  }

  /** A user without a cache file has no prior research either. */
  lemma MissingCacheFileRaises(cfg: Config, cache: string -> Option<map<string, Value>>,
                               research: (nat, string, Board) -> ResearchOutcome, profile: (nat, ProfilerInput) -> Draft,
                               classify: (nat, ModuleCall) -> Classification, username: string)
    requires cache(username).None?
    ensures Run(cfg, cache, research, profile, classify, username) == Err(MissingBlackboard)
  {
    FromDictEmpty();
  }
}
