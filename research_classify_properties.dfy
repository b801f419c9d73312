/**
 * What a run of `LeadEvolverPipeline.forward` or
 * `LeadClassifierPipeline.forward` guarantees, for every behaviour of the
 * research and classifier oracles: call bounds, the round counter, when
 * research happens, and how the result is built from the last
 * classification.
 */
module ResearchClassifyProperties {
  import opened Basics
  import opened BlackboardSchema
  import opened ClassifierModule
  import opened PipelineTrace
  import opened ResearchClassifyPipelines

  /** The classifier answer `c` asks for research on `goal`. */
  predicate Requests(c: Classification, goal: string) {
    !c.isFinal && c.furtherInvestigation == Some(goal) && goal != ""
  }

  /** Every research call after the first follows a classification that asked for exactly that goal. */
  predicate ResearchOnRequest(t: seq<Call>) {
    forall k :: 1 <= k < |t| && t[k].ResearchCall? ==>
      t[k - 1].ClassifierCall? && Requests(t[k - 1].answer, t[k].goal)
  }

  /** No classifier answer in `t` was a final verdict. */
  predicate NoVerdict(t: seq<Call>) {
    forall k :: 0 <= k < |t| && t[k].ClassifierCall? ==> !t[k].answer.isFinal
  }

  /**
   * Every call of `t` saw the blackboard the last successful research
   * before it returned (the empty one before any): research was handed it,
   * and the classifier was asked about it in a loop round.
   */
  predicate Threaded(v: Variant, t: seq<Call>) {
    forall k :: 0 <= k < |t| ==> HandedLatest(v, t, k)
  }

  /** Call `k` of `t` saw the blackboard the last successful research before it returned. */
  predicate HandedLatest(v: Variant, t: seq<Call>, k: int) {
    0 <= k < |t|
    && (t[k].ResearchCall? ==> t[k].input == LatestBoard(t[..k], EMPTY_BOARD))
    && (t[k].ClassifierCall? ==> t[k].call == LoopRequest(v, LatestBoard(t[..k], EMPTY_BOARD)))
  }

  /** Call `k` of `t` is a research call after the initial one, and it failed. */
  predicate FailedFollowUp(t: seq<Call>, k: int) {
    1 <= k < |t| && t[k].ResearchCall? && t[k].outcome.ResearchFailed?
  }

  /** A failed follow-up research can only be the last call of `t`. */
  predicate FailureLast(t: seq<Call>) {
    forall k :: 0 <= k < |t| && FailedFollowUp(t, k) ==> k == |t| - 1
  }

  /**
   * A failed follow-up research is followed at once by the classification
   * after the loop, of the blackboard that research was handed, and that
   * classification ends the run and makes its result.
   */
  predicate BreaksToFinal(v: Variant, r: PipelineResult, t: seq<Call>) {
    forall k :: 0 <= k < |t| && FailedFollowUp(t, k) ==>
      k == |t| - 2 && t[k + 1].ClassifierCall? && t[k + 1].call == FinalRequest(v, t[k].input)
      && r.leadQuality == Some(OrDefault(t[k + 1].answer.leadQuality, FallbackLabel(v)))
      && r.rationale == t[k + 1].answer.rationale
      && r.blackboard == ToDict(t[k].input)
  }

  /**
   * After a classification that is not final, other than the last call,
   * comes the research of the goal it names or, when it names none, the
   * next classification: a request for research is always served, and an
   * answer with no goal uses up a round without leaving the loop.
   */
  predicate FollowsUp(t: seq<Call>) {
    forall k :: 0 <= k < |t| - 1 && t[k].ClassifierCall? && !t[k].answer.isFinal ==>
      if TruthyText(t[k].answer.furtherInvestigation)
      then t[k + 1].ResearchCall? && t[k + 1].goal == t[k].answer.furtherInvestigation.value
      else t[k + 1].ClassifierCall?
  }

  /** A classification ending `t` asked for no research, so nothing is owed to it yet. */
  predicate NothingOwed(t: seq<Call>) {
    |t| >= 1 && t[|t| - 1].ClassifierCall? ==> !TruthyText(t[|t| - 1].answer.furtherInvestigation)
  }

  /**
   * Why the loop ended, from the last call of `t`: a final answer to a loop
   * classification before the round budget was spent, or the classification
   * after the loop, made when all five rounds were used or right after a
   * failed follow-up research.
   */
  predicate LoopExit(v: Variant, t: seq<Call>) {
    |t| >= 2 && t[|t| - 1].ClassifierCall?
    && var n := |t| - 1;
      var b := LatestBoard(t, EMPTY_BOARD);
      (t[n].answer.isFinal && t[n].call == LoopRequest(v, b) && Count(t[..n], Classifier) < MAX_INVESTIGATION_ROUNDS)
      || (t[n].call == FinalRequest(v, b)
          && (Count(t[..n], Classifier) == MAX_INVESTIGATION_ROUNDS || FailedFollowUp(t, n - 1)))
  }

  /** What holds of the loop state in every round and when it leaves the loop. */
  predicate Core(v: Variant, st: Progress) {
    |st.trace| >= 1 && st.trace[0].ResearchCall?
    && st.researchCalls == Count(st.trace, Research)
    && st.classifierCalls == Count(st.trace, Classifier)
    && st.rounds == Count(st.trace, SuccessfulResearch)
    && ResearchOnRequest(st.trace)
    && NoVerdict(st.trace)
    && Threaded(v, st.trace)
    && st.board == LatestBoard(st.trace, EMPTY_BOARD)
    && FollowsUp(st.trace)
  }

  /** What holds of the loop state at the start of every round: no follow-up research has failed. */
  predicate Inv(v: Variant, st: Progress) {
    Core(v, st) && NothingOwed(st.trace) && forall k :: 0 <= k < |st.trace| ==> !FailedFollowUp(st.trace, k)
  }

  /** What holds of the loop state it leaves: a failed follow-up research can only be its last call. */
  predicate Left(v: Variant, st: Progress) {
    Core(v, st) && NothingOwed(st.trace) && FailureLast(st.trace)
  }

  /**
   * How the result comes from the last call, a classification of the board
   * `b` whose dict the result holds: either a final answer in the loop,
   * returned as it is, or the call after the loop, whose missing label is
   * replaced by the fallback.
   */
  predicate EndsWith(v: Variant, r: PipelineResult, last: Call, b: Board) {
    last.ClassifierCall?
    && r.rationale == last.answer.rationale
    && r.blackboard == ToDict(b)
    && ((last.answer.isFinal && last.call == LoopRequest(v, b) && r.leadQuality == last.answer.leadQuality)
        || (last.call == FinalRequest(v, b)
            && r.leadQuality == Some(OrDefault(last.answer.leadQuality, FallbackLabel(v)))))
  }

  /** `t` extends `s`. */
  predicate Extends(t: seq<Call>, s: seq<Call>) {
    |t| >= |s| && t[..|s|] == s
  }

  /** Everything the lemmas below establish about a run that went through `st`. */
  predicate Sound(v: Variant, run: (PipelineResult, seq<Call>), st: Progress) {
    var (r, t) := run;
    |t| > |st.trace| && Extends(t, st.trace)
    && Count(t, Classifier) <= MAX_INVESTIGATION_ROUNDS + 1
    && Count(t, Research) <= MAX_INVESTIGATION_ROUNDS + 1
    && r.investigationRounds == Count(t, SuccessfulResearch)
    && ResearchOnRequest(t)
    && NoVerdict(t[..|t| - 1])
    && Threaded(v, t[..|t| - 1])
    && BreaksToFinal(v, r, t)
    && FollowsUp(t)
    && LoopExit(v, t)
    && EndsWith(v, r, t[|t| - 1], LatestBoard(t, EMPTY_BOARD))
  }

  /** A step of the loop from `st` to `next`: one classification more, at most one research call more. */
  predicate Step(st: Progress, next: Progress) {
    next.classifierCalls == st.classifierCalls + 1
    && next.researchCalls <= st.researchCalls + 1
    && |next.trace| > |st.trace| && Extends(next.trace, st.trace)
  }

  lemma StartInv(v: Variant, research: (nat, string, Board) -> ResearchOutcome, url: string, username: string, name: string)
    ensures Inv(v, Start(research, url, username, name))
  {
    var st := Start(research, url, username, name);
    assert st.trace == [] + [st.trace[0]];
    CountSnoc([], st.trace[0], Research);
    CountSnoc([], st.trace[0], Classifier);
    CountSnoc([], st.trace[0], SuccessfulResearch);
    LatestBoardSnoc([], st.trace[0], EMPTY_BOARD);
    assert st.trace[..0] == [];
  }

  /** Appending a call that was handed the latest blackboard keeps the trace threaded. */
  lemma ThreadedSnoc(v: Variant, t: seq<Call>, c: Call)
    requires Threaded(v, t)
    requires c.ResearchCall? ==> c.input == LatestBoard(t, EMPTY_BOARD)
    requires c.ClassifierCall? ==> c.call == LoopRequest(v, LatestBoard(t, EMPTY_BOARD))
    ensures Threaded(v, t + [c])
  {
    var u := t + [c];
    forall k | 0 <= k < |u|
      ensures HandedLatest(v, u, k)
    {
      if k < |t| {
        assert HandedLatest(v, t, k);
        assert u[k] == t[k] && u[..k] == t[..k];
      } else {
        assert u[..k] == t;
      }
    }
  }

  /** The failed follow-up research calls of `t + [c]`: those of `t`, and `c` itself when it is one. */
  lemma FailedSnoc(t: seq<Call>, c: Call, k: int)
    ensures FailedFollowUp(t + [c], k) <==>
      FailedFollowUp(t, k) || (k == |t| >= 1 && c.ResearchCall? && c.outcome.ResearchFailed?)
  {
    if 0 <= k < |t| {
      assert (t + [c])[k] == t[k];
    }
  }

  /** Appending the call a non-final classification ending `t` asks for keeps the succession of calls. */
  lemma FollowsSnoc(t: seq<Call>, c: Call)
    requires FollowsUp(t)
    requires |t| >= 1 && t[|t| - 1].ClassifierCall? && !t[|t| - 1].answer.isFinal ==>
      if TruthyText(t[|t| - 1].answer.furtherInvestigation)
      then c.ResearchCall? && c.goal == t[|t| - 1].answer.furtherInvestigation.value
      else c.ClassifierCall?
    ensures FollowsUp(t + [c])
  {
    var u := t + [c];
    forall k | 0 <= k < |u| - 1 && u[k].ClassifierCall? && !u[k].answer.isFinal
      ensures if TruthyText(u[k].answer.furtherInvestigation)
        then u[k + 1].ResearchCall? && u[k + 1].goal == u[k].answer.furtherInvestigation.value
        else u[k + 1].ClassifierCall?
    {
      assert u[k] == t[k];
      if k + 1 < |t| {
        assert u[k + 1] == t[k + 1];
      }
    }
  }

  /** Appending a call that is not research keeps research on request. */
  lemma SnocClassifier(t: seq<Call>, c: Call)
    requires ResearchOnRequest(t) && NoVerdict(t) && c.ClassifierCall?
    ensures ResearchOnRequest(t + [c])
    ensures !c.answer.isFinal ==> NoVerdict(t + [c])
    ensures NoVerdict((t + [c])[..|t|])
  {
    assert (t + [c])[..|t|] == t;
    forall k | 1 <= k < |t + [c]| && (t + [c])[k].ResearchCall?
      ensures (t + [c])[k - 1].ClassifierCall? && Requests((t + [c])[k - 1].answer, (t + [c])[k].goal)
    {
      assert (t + [c])[k] == t[k] && (t + [c])[k - 1] == t[k - 1];
    }
  }

  /** Appending the research a classification asked for keeps research on request. */
  lemma SnocResearch(t: seq<Call>, c: Call)
    requires ResearchOnRequest(t) && NoVerdict(t) && |t| >= 1
    requires c.ResearchCall? && t[|t| - 1].ClassifierCall? && Requests(t[|t| - 1].answer, c.goal)
    ensures ResearchOnRequest(t + [c]) && NoVerdict(t + [c])
  {
    forall k | 1 <= k < |t + [c]| && (t + [c])[k].ResearchCall?
      ensures (t + [c])[k - 1].ClassifierCall? && Requests((t + [c])[k - 1].answer, (t + [c])[k].goal)
    {
      if k < |t| {
        assert (t + [c])[k] == t[k] && (t + [c])[k - 1] == t[k - 1];
      }
    }
  }

  lemma ExtendsTrans(a: seq<Call>, b: seq<Call>, c: seq<Call>)
    requires Extends(b, a) && Extends(c, b)
    ensures Extends(c, a)
  {
    assert c[..|a|] == c[..|b|][..|a|];
  }

  /** A run sound from a later state is sound from an earlier one. */
  lemma SoundThrough(v: Variant, run: (PipelineResult, seq<Call>), st: Progress, later: Progress)
    requires Step(st, later) && Sound(v, run, later)
    ensures Sound(v, run, st)
  {
    ExtendsTrans(st.trace, later.trace, run.1);
  }

  /** The blackboard a failed follow-up research was handed is the one the loop leaves with. */
  lemma LeftBoard(v: Variant, st: Progress, k: int)
    requires Threaded(v, st.trace) && FailureLast(st.trace) && FailedFollowUp(st.trace, k)
    requires st.board == LatestBoard(st.trace, EMPTY_BOARD)
    ensures k == |st.trace| - 1 && st.trace[k].input == st.board
  {
    var t := st.trace;
    assert HandedLatest(v, t, k);
    assert t == t[..k] + [t[k]];
    LatestBoardSnoc(t[..k], t[k], EMPTY_BOARD);
  }

  /** The classification after the loop, appended to a state it may leave with, ends the run as `BreaksToFinal` says. */
  lemma FinalBreaks(v: Variant, r: PipelineResult, st: Progress, c: Call)
    requires Threaded(v, st.trace) && FailureLast(st.trace) && st.board == LatestBoard(st.trace, EMPTY_BOARD)
    requires c.ClassifierCall? && c.call == FinalRequest(v, st.board)
    requires r.leadQuality == Some(OrDefault(c.answer.leadQuality, FallbackLabel(v)))
      && r.rationale == c.answer.rationale && r.blackboard == ToDict(st.board)
    ensures BreaksToFinal(v, r, st.trace + [c])
  {
    var t := st.trace + [c];
    forall k | 0 <= k < |t| && FailedFollowUp(t, k)
      ensures k == |t| - 2 && t[k + 1].ClassifierCall? && t[k + 1].call == FinalRequest(v, t[k].input)
        && r.leadQuality == Some(OrDefault(t[k + 1].answer.leadQuality, FallbackLabel(v)))
        && r.rationale == t[k + 1].answer.rationale
        && r.blackboard == ToDict(t[k].input)
    {
      FailedSnoc(st.trace, c, k);
      LeftBoard(v, st, k);
      assert t[k] == st.trace[k];
    }
  }

  /** The classification after the loop, made when the rounds are spent or a follow-up research failed, is a `LoopExit`. */
  lemma FinalExit(v: Variant, st: Progress, c: Call)
    requires |st.trace| >= 1 && st.board == LatestBoard(st.trace, EMPTY_BOARD)
    requires Count(st.trace, Classifier) == MAX_INVESTIGATION_ROUNDS || FailedFollowUp(st.trace, |st.trace| - 1)
    requires c.ClassifierCall? && c.call == FinalRequest(v, st.board)
    ensures LoopExit(v, st.trace + [c])
  {
    var t := st.trace + [c];
    LatestBoardSnoc(st.trace, c, EMPTY_BOARD);
    FailedSnoc(st.trace, c, |st.trace| - 1);
    assert t[..|st.trace|] == st.trace;
  }

  /** The classification after the loop ends the run soundly. */
  lemma FinalSound(v: Variant, classify: (nat, ModuleCall) -> Classification, st: Progress)
    requires Left(v, st) && st.classifierCalls <= MAX_INVESTIGATION_ROUNDS
    requires st.researchCalls <= MAX_INVESTIGATION_ROUNDS + 1
    requires st.classifierCalls == MAX_INVESTIGATION_ROUNDS || FailedFollowUp(st.trace, |st.trace| - 1)
    ensures Sound(v, Final(v, classify, st), st)
  {
    var (r, t) := Final(v, classify, st);
    var c := t[|t| - 1];
    assert t == st.trace + [c];
    FinalCalls(v, st, c);
    FinalBreaks(v, r, st, c);
    FinalExit(v, st, c);
    FinalEnds(v, r, c, st.board);
  }

  /** The classification after the loop of the board `b`, with its label or the fallback, ends the run as `EndsWith` says. */
  lemma FinalEnds(v: Variant, r: PipelineResult, c: Call, b: Board)
    requires c.ClassifierCall? && c.call == FinalRequest(v, b)
    requires r.leadQuality == Some(OrDefault(c.answer.leadQuality, FallbackLabel(v)))
      && r.rationale == c.answer.rationale && r.blackboard == ToDict(b)
    ensures EndsWith(v, r, c, b)
  {
  }

  /** The calls of a state the loop may leave with, and a classification after them. */
  lemma FinalCalls(v: Variant, st: Progress, c: Call)
    requires Core(v, st) && NothingOwed(st.trace) && c.ClassifierCall?
    ensures var t := st.trace + [c];
      Count(t, Classifier) == st.classifierCalls + 1 && Count(t, Research) == st.researchCalls
      && Count(t, SuccessfulResearch) == st.rounds
      && ResearchOnRequest(t) && NoVerdict(t[..|t| - 1]) && Threaded(v, t[..|t| - 1]) && FollowsUp(t)
      && LatestBoard(t, EMPTY_BOARD) == st.board && Extends(t, st.trace)
  {
    var t := st.trace + [c];
    CountSnoc(st.trace, c, Research);
    CountSnoc(st.trace, c, Classifier);
    CountSnoc(st.trace, c, SuccessfulResearch);
    SnocClassifier(st.trace, c);
    FollowsSnoc(st.trace, c);
    LatestBoardSnoc(st.trace, c, EMPTY_BOARD);
    assert t[..|st.trace|] == st.trace;
  }

  /** A round that returns a verdict ends the run soundly. */
  lemma VerdictSound(v: Variant, research: (nat, string, Board) -> ResearchOutcome,
                     classify: (nat, ModuleCall) -> Classification, st: Progress)
    requires Inv(v, st) && st.classifierCalls < MAX_INVESTIGATION_ROUNDS
    requires st.researchCalls <= MAX_INVESTIGATION_ROUNDS + 1
    requires Round(v, research, classify, st).Verdict?
    ensures var end := Round(v, research, classify, st); Sound(v, (end.result, end.trace), st)
  {
    var req := LoopRequest(v, st.board);
    var cc := ClassifierCall(req, classify(st.classifierCalls, req));
    var t := st.trace + [cc];
    CountSnoc(st.trace, cc, Research);
    CountSnoc(st.trace, cc, Classifier);
    CountSnoc(st.trace, cc, SuccessfulResearch);
    SnocClassifier(st.trace, cc);
    FollowsSnoc(st.trace, cc);
    LatestBoardSnoc(st.trace, cc, EMPTY_BOARD);
    assert t[..|st.trace|] == st.trace;
    forall k ensures !FailedFollowUp(t, k) {
      FailedSnoc(st.trace, cc, k);
    }
  }

  /** The state after a classification that is not final. */
  function Classified(v: Variant, classify: (nat, ModuleCall) -> Classification, st: Progress): Progress {
    var req := LoopRequest(v, st.board);
    Progress(st.board, st.rounds, st.researchCalls, st.classifierCalls + 1,
      st.trace + [ClassifierCall(req, classify(st.classifierCalls, req))])
  }

  lemma ClassifiedStep(v: Variant, classify: (nat, ModuleCall) -> Classification, st: Progress)
    requires Inv(v, st)
    requires var req := LoopRequest(v, st.board); !classify(st.classifierCalls, req).isFinal
    ensures var mid := Classified(v, classify, st);
      Step(st, mid) && Core(v, mid) && (forall k :: 0 <= k < |mid.trace| ==> !FailedFollowUp(mid.trace, k))
      && mid.trace[|mid.trace| - 1].ClassifierCall?
      && (!TruthyText(classify(st.classifierCalls, LoopRequest(v, st.board)).furtherInvestigation) ==> Inv(v, mid))
  {
    var req := LoopRequest(v, st.board);
    var cc := ClassifierCall(req, classify(st.classifierCalls, req));
    CountSnoc(st.trace, cc, Research);
    CountSnoc(st.trace, cc, Classifier);
    CountSnoc(st.trace, cc, SuccessfulResearch);
    SnocClassifier(st.trace, cc);
    ThreadedSnoc(v, st.trace, cc);
    FollowsSnoc(st.trace, cc);
    LatestBoardSnoc(st.trace, cc, EMPTY_BOARD);
    forall k ensures !FailedFollowUp(st.trace + [cc], k) {
      FailedSnoc(st.trace, cc, k);
    }
    assert (st.trace + [cc])[..|st.trace|] == st.trace;
  }

  /** The research a non-final classification asked for, appended to the state after that classification. */
  lemma ResearchStep(v: Variant, research: (nat, string, Board) -> ResearchOutcome,
                     st: Progress, mid: Progress, goal: string)
    requires Step(st, mid) && Core(v, mid) && (forall k :: 0 <= k < |mid.trace| ==> !FailedFollowUp(mid.trace, k))
    requires mid.board == st.board && mid.rounds == st.rounds && mid.researchCalls == st.researchCalls
    requires var c := mid.trace[|mid.trace| - 1];
      c.ClassifierCall? && !c.answer.isFinal && TruthyText(c.answer.furtherInvestigation)
      && goal == c.answer.furtherInvestigation.value
    ensures var outcome := research(st.researchCalls, goal, st.board);
      var t := mid.trace + [ResearchCall(goal, st.board, outcome)];
      (outcome.Researched? ==>
         var next := Progress(outcome.board, st.rounds + 1, st.researchCalls + 1, mid.classifierCalls, t);
         Step(st, next) && Inv(v, next))
      && (outcome.ResearchFailed? ==>
         var last := Progress(st.board, st.rounds, st.researchCalls + 1, mid.classifierCalls, t);
         Step(st, last) && Left(v, last) && FailedFollowUp(t, |t| - 1))
  {
    var rc := ResearchCall(goal, st.board, research(st.researchCalls, goal, st.board));
    var t := mid.trace;
    CountSnoc(t, rc, Research);
    CountSnoc(t, rc, Classifier);
    CountSnoc(t, rc, SuccessfulResearch);
    SnocResearch(t, rc);
    ThreadedSnoc(v, t, rc);
    FollowsSnoc(t, rc);
    LatestBoardSnoc(t, rc, EMPTY_BOARD);
    forall k ensures FailedFollowUp(t + [rc], k) <==> k == |t| && rc.outcome.ResearchFailed? {
      FailedSnoc(t, rc, k);
    }
    assert (t + [rc])[..|t|] == t;
    ExtendsTrans(st.trace, t, t + [rc]);
  }

  /** A round whose classification names no goal goes on, into the invariant. */
  lemma NoGoalStep(v: Variant, research: (nat, string, Board) -> ResearchOutcome,
                   classify: (nat, ModuleCall) -> Classification, st: Progress)
    requires Inv(v, st)
    requires var c := classify(st.classifierCalls, LoopRequest(v, st.board));
      !c.isFinal && !TruthyText(c.furtherInvestigation)
    ensures var end := Round(v, research, classify, st);
      end.NextRound? && Step(st, end.next) && Inv(v, end.next)
  {
    ClassifiedStep(v, classify, st);
    assert Round(v, research, classify, st) == NextRound(Classified(v, classify, st));
  }

  /** How a round whose classification names a goal ends, by the outcome of that research. */
  lemma GoalRound(v: Variant, research: (nat, string, Board) -> ResearchOutcome,
                  classify: (nat, ModuleCall) -> Classification, st: Progress)
    requires var c := classify(st.classifierCalls, LoopRequest(v, st.board));
      !c.isFinal && TruthyText(c.furtherInvestigation)
    ensures var c := classify(st.classifierCalls, LoopRequest(v, st.board));
      var goal := c.furtherInvestigation.value;
      var outcome := research(st.researchCalls, goal, st.board);
      var t := Classified(v, classify, st).trace + [ResearchCall(goal, st.board, outcome)];
      Round(v, research, classify, st)
        == if outcome.Researched?
           then NextRound(Progress(outcome.board, st.rounds + 1, st.researchCalls + 1, st.classifierCalls + 1, t))
           else LeaveLoop(Progress(st.board, st.rounds, st.researchCalls + 1, st.classifierCalls + 1, t))
  {
  }

  /** A round whose classification names a goal goes on into the invariant, or leaves the loop after a failed research. */
  lemma GoalStep(v: Variant, research: (nat, string, Board) -> ResearchOutcome,
                 classify: (nat, ModuleCall) -> Classification, st: Progress)
    requires Inv(v, st)
    requires var c := classify(st.classifierCalls, LoopRequest(v, st.board));
      !c.isFinal && TruthyText(c.furtherInvestigation)
    ensures var end := Round(v, research, classify, st);
      (end.NextRound? ==> Step(st, end.next) && Inv(v, end.next))
      && (end.LeaveLoop? ==>
            Step(st, end.last) && Left(v, end.last) && FailedFollowUp(end.last.trace, |end.last.trace| - 1))
  {
    var c := classify(st.classifierCalls, LoopRequest(v, st.board));
    ClassifiedStep(v, classify, st);
    ResearchStep(v, research, st, Classified(v, classify, st), c.furtherInvestigation.value);
    GoalRound(v, research, classify, st);
  }

  /**
   * A round that goes on makes a step into the invariant; one that leaves
   * the loop makes a step into a state it may leave with, whose last call
   * is a failed follow-up research.
   */
  lemma RoundStep(v: Variant, research: (nat, string, Board) -> ResearchOutcome,
                  classify: (nat, ModuleCall) -> Classification, st: Progress)
    requires Inv(v, st)
    ensures var end := Round(v, research, classify, st);
      (end.NextRound? ==> Step(st, end.next) && Inv(v, end.next))
      && (end.LeaveLoop? ==>
            Step(st, end.last) && Left(v, end.last) && FailedFollowUp(end.last.trace, |end.last.trace| - 1))
  {
    var c := classify(st.classifierCalls, LoopRequest(v, st.board));
    if !c.isFinal {
      if TruthyText(c.furtherInvestigation) {
        GoalStep(v, research, classify, st);
      } else {
        NoGoalStep(v, research, classify, st);
      }
    }
  }

  /** A run that stops at round `i`, with a verdict or by leaving the loop, ends soundly. */
  lemma StopSound(v: Variant, research: (nat, string, Board) -> ResearchOutcome,
                  classify: (nat, ModuleCall) -> Classification, i: nat, st: Progress)
    requires i <= MAX_INVESTIGATION_ROUNDS && Inv(v, st)
    requires st.classifierCalls == i && st.researchCalls <= i + 1
    requires i < MAX_INVESTIGATION_ROUNDS ==> !Round(v, research, classify, st).NextRound?
    ensures Sound(v, Loop(v, research, classify, i, st), st)
  {
    if i == MAX_INVESTIGATION_ROUNDS {
      FinalSound(v, classify, st);
    } else {
      RoundStep(v, research, classify, st);
      match Round(v, research, classify, st) {
        case Verdict(r, t) =>
          VerdictSound(v, research, classify, st);
          LoopVerdict(v, research, classify, i, st, r, t);
        case LeaveLoop(last) =>
          LoopLeave(v, research, classify, i, st, last);
          FinalSound(v, classify, last);
          SoundThrough(v, Final(v, classify, last), st, last);
      }
    }
  }

  /** The rounds from round `i` on, and the classification after them, end the run soundly. */
  lemma {:induction false} LoopSound(v: Variant, research: (nat, string, Board) -> ResearchOutcome,
                                     classify: (nat, ModuleCall) -> Classification, i: nat, st: Progress)
    requires i <= MAX_INVESTIGATION_ROUNDS && Inv(v, st)
    requires st.classifierCalls == i && st.researchCalls <= i + 1
    ensures Sound(v, Loop(v, research, classify, i, st), st)
    decreases MAX_INVESTIGATION_ROUNDS - i
  {
    if i < MAX_INVESTIGATION_ROUNDS && Round(v, research, classify, st).NextRound? {
      var next := Round(v, research, classify, st).next;
      RoundStep(v, research, classify, st);
      LoopNext(v, research, classify, i, st, next);
      LoopSound(v, research, classify, i + 1, next);
      SoundThrough(v, Loop(v, research, classify, i + 1, next), st, next);
    } else {
      StopSound(v, research, classify, i, st);
    }
  }

  /**
   * Every run, whatever research and the classifier answer: at most six
   * classifier and six research calls; the round count is the number of
   * successful research calls; research follows a request for it; no
   * classification but the last is final; the first call is the initial
   * research; every call is handed the blackboard of the last successful
   * research before it; a failed follow-up research is followed at once
   * by the classification after the loop; a requested research is always
   * made next, and an answer with neither verdict nor goal is followed by
   * the next classification; the loop ends only on a verdict, a failed
   * follow-up research or the fifth classification (`LoopExit`); and the
   * result comes from the last call, with the latest blackboard, as
   * `EndsWith` says.
   */
  lemma RunSound(v: Variant, research: (nat, string, Board) -> ResearchOutcome,
                 classify: (nat, ModuleCall) -> Classification,
                 url: string, username: string, name: string)
    ensures var (r, t) := Run(v, research, classify, url, username, name);
      |t| >= 2
      && t[0] == ResearchCall(InitialGoal(url, username, name), EMPTY_BOARD, research(0, InitialGoal(url, username, name), EMPTY_BOARD))
      && Count(t, Classifier) <= MAX_INVESTIGATION_ROUNDS + 1
      && Count(t, Research) <= MAX_INVESTIGATION_ROUNDS + 1
      && r.investigationRounds == Count(t, SuccessfulResearch) <= MAX_INVESTIGATION_ROUNDS + 1
      && ResearchOnRequest(t)
      && NoVerdict(t[..|t| - 1])
      && Threaded(v, t[..|t| - 1])
      && BreaksToFinal(v, r, t)
      && FollowsUp(t)
      && LoopExit(v, t)
      && EndsWith(v, r, t[|t| - 1], LatestBoard(t, EMPTY_BOARD))
  {
    var st := Start(research, url, username, name);
    StartInv(v, research, url, username, name);
    LoopSound(v, research, classify, 0, st);
    var (r, t) := Run(v, research, classify, url, username, name);
    assert t[0] == t[..|st.trace|][0];
    SuccessfulAtMostResearch(t);
  }

  /** A classifier whose final answers always carry a label, as `forward`'s finality rule guarantees. */
  ghost predicate LabelsVerdicts(classify: (nat, ModuleCall) -> Classification) {
    forall n, c :: classify(n, c).isFinal ==> classify(n, c).leadQuality.Some?
  }

  /**
   * With such a classifier the rounds from round `i` on end with a label:
   * a verdict in the loop has one, and the call after the loop falls back
   * to the variant's default label.
   */
  lemma {:induction false} LoopLabelled(v: Variant, research: (nat, string, Board) -> ResearchOutcome,
                                        classify: (nat, ModuleCall) -> Classification, i: nat, st: Progress)
    requires i <= MAX_INVESTIGATION_ROUNDS && LabelsVerdicts(classify)
    ensures Loop(v, research, classify, i, st).0.leadQuality.Some?
    decreases MAX_INVESTIGATION_ROUNDS - i
  {
    if i < MAX_INVESTIGATION_ROUNDS {
      match Round(v, research, classify, st) {
        case Verdict(r, t) =>
          LoopVerdict(v, research, classify, i, st, r, t);
          var req := LoopRequest(v, st.board);
          assert classify(st.classifierCalls, req).isFinal;
        case NextRound(next) =>
          LoopNext(v, research, classify, i, st, next);
          LoopLabelled(v, research, classify, i + 1, next);
        case LeaveLoop(last) =>
          LoopLeave(v, research, classify, i, st, last);
      }
    }
  }

  /** Every run of either pipeline with such a classifier returns a label. */
  lemma RunLabelled(v: Variant, research: (nat, string, Board) -> ResearchOutcome,
                    classify: (nat, ModuleCall) -> Classification,
                    url: string, username: string, name: string)
    requires LabelsVerdicts(classify)
    ensures Run(v, research, classify, url, username, name).0.leadQuality.Some?
  {
    LoopLabelled(v, research, classify, 0, Start(research, url, username, name));
  }

  /**
   * When the pipelines' classifier is `LeadClassifierModule.forward` over
   * any predictor, the public result always carries a label.
   */
  lemma DecidedRunLabelled(v: Variant, research: (nat, string, Board) -> ResearchOutcome,
                           predict: ClassifierRequest -> Prediction,
                           url: string, username: string, name: string)
    ensures Run(v, research, (n: nat, c: ModuleCall) => Classify(predict, c), url, username, name).0.leadQuality.Some?
  {
    var classify := (n: nat, c: ModuleCall) => Classify(predict, c);
    forall n: nat, c: ModuleCall
      ensures classify(n, c).isFinal ==> classify(n, c).leadQuality.Some?
    {
      var p := predict(Request(c.leadContext, c.icp, c.offering, c.force));
      if p.leadQuality.None? {
        NullLabelNotFinal(p.rationale, p.furtherInvestigation);
      }
    }
    RunLabelled(v, research, classify, url, username, name);
  }

  // ---------------------------------------------------------------------------
  // Scenarios

  /** The first call of a round: the classifier asked about the current blackboard. */
  function Asked(v: Variant, classify: (nat, ModuleCall) -> Classification, st: Progress): Call {
    var req := LoopRequest(v, st.board);
    ClassifierCall(req, classify(st.classifierCalls, req))
  }

  lemma RoundExtends(v: Variant, research: (nat, string, Board) -> ResearchOutcome,
                     classify: (nat, ModuleCall) -> Classification, st: Progress)
    ensures var end := Round(v, research, classify, st);
      var s := st.trace + [Asked(v, classify, st)];
      (end.Verdict? ==> Extends(end.trace, s))
      && (end.NextRound? ==> Extends(end.next.trace, s))
      && (end.LeaveLoop? ==> Extends(end.last.trace, s))
  {
    var s := st.trace + [Asked(v, classify, st)];
    assert s[..|s|] == s;
    forall x: Call ensures (s + [x])[..|s|] == s {
      assert (s + [x])[..|s|] == s;
    }
  }

  /** A run that stops at round `i < 6` keeps the calls made before it and the classifier call of that round. */
  lemma StopAsked(v: Variant, research: (nat, string, Board) -> ResearchOutcome,
                  classify: (nat, ModuleCall) -> Classification, i: nat, st: Progress)
    requires i < MAX_INVESTIGATION_ROUNDS && !Round(v, research, classify, st).NextRound?
    ensures Extends(Loop(v, research, classify, i, st).1, st.trace + [Asked(v, classify, st)])
  {
    RoundExtends(v, research, classify, st);
    var s := st.trace + [Asked(v, classify, st)];
    match Round(v, research, classify, st) {
      case Verdict(r, t) =>
        LoopVerdict(v, research, classify, i, st, r, t);
      case LeaveLoop(last) =>
        LoopLeave(v, research, classify, i, st, last);
        assert Final(v, classify, last).1[..|last.trace|] == last.trace;
        ExtendsTrans(s, last.trace, Final(v, classify, last).1);
    }
  }

  /** A run that goes on after round `i` keeps the calls made before it and the classifier call of that round. */
  lemma NextAsked(v: Variant, research: (nat, string, Board) -> ResearchOutcome,
                  classify: (nat, ModuleCall) -> Classification, i: nat, st: Progress)
    requires i < MAX_INVESTIGATION_ROUNDS && Round(v, research, classify, st).NextRound?
    ensures Extends(Loop(v, research, classify, i, st).1, st.trace + [Asked(v, classify, st)])
    decreases MAX_INVESTIGATION_ROUNDS - i, 0
  {
    var next := Round(v, research, classify, st).next;
    RoundExtends(v, research, classify, st);
    LoopNext(v, research, classify, i, st, next);
    LoopExtends(v, research, classify, i + 1, next);
    ExtendsTrans(st.trace + [Asked(v, classify, st)], next.trace, Loop(v, research, classify, i + 1, next).1);
  }

  /** A run from `st` keeps the calls made so far. */
  lemma {:induction false} LoopExtends(v: Variant, research: (nat, string, Board) -> ResearchOutcome,
                                       classify: (nat, ModuleCall) -> Classification, i: nat, st: Progress)
    requires i <= MAX_INVESTIGATION_ROUNDS
    ensures Extends(Loop(v, research, classify, i, st).1, st.trace)
    decreases MAX_INVESTIGATION_ROUNDS - i, 1
  {
    if i == MAX_INVESTIGATION_ROUNDS {
      assert Final(v, classify, st).1[..|st.trace|] == st.trace;
    } else {
      var s := st.trace + [Asked(v, classify, st)];
      assert Extends(s, st.trace) by { assert s[..|st.trace|] == st.trace; }
      if Round(v, research, classify, st).NextRound? {
        NextAsked(v, research, classify, i, st);
      } else {
        StopAsked(v, research, classify, i, st);
      }
      ExtendsTrans(st.trace, s, Loop(v, research, classify, i, st).1);
    }
  }

  /** Every round in the loop begins by asking the classifier about the current blackboard. */
  lemma LoopAsksFirst(v: Variant, research: (nat, string, Board) -> ResearchOutcome,
                      classify: (nat, ModuleCall) -> Classification, i: nat, st: Progress)
    requires i < MAX_INVESTIGATION_ROUNDS
    ensures var t := Loop(v, research, classify, i, st).1;
      |t| > |st.trace| && t[|st.trace|] == Asked(v, classify, st)
  {
    if Round(v, research, classify, st).NextRound? {
      NextAsked(v, research, classify, i, st);
    } else {
      StopAsked(v, research, classify, i, st);
    }
    var s := st.trace + [Asked(v, classify, st)];
    var t := Loop(v, research, classify, i, st).1;
    assert t[|st.trace|] == t[..|s|][|st.trace|];
  }

  /**
   * A failed initial research is swallowed: the loop classifies the empty
   * blackboard, and a verdict there reports zero rounds.
   */
  lemma InitialFailureSwallowed(v: Variant, research: (nat, string, Board) -> ResearchOutcome,
                                classify: (nat, ModuleCall) -> Classification,
                                url: string, username: string, name: string)
    requires research(0, InitialGoal(url, username, name), EMPTY_BOARD).ResearchFailed?
    ensures var (r, t) := Run(v, research, classify, url, username, name);
      var req := LoopRequest(v, EMPTY_BOARD);
      |t| >= 2 && t[1] == ClassifierCall(req, classify(0, req))
      && (classify(0, req).isFinal ==>
            |t| == 2 && r == PipelineResult(classify(0, req).leadQuality, classify(0, req).rationale, ToDict(EMPTY_BOARD), 0))
  {
    var st := Start(research, url, username, name);
    StartInv(v, research, url, username, name);
    LoopAsksFirst(v, research, classify, 0, st);
    var end := Round(v, research, classify, st);
    if end.Verdict? {
      LoopVerdict(v, research, classify, 0, st, end.result, end.trace);
    }
  }

  /** After a successful initial research, a final first answer is returned with one round. */
  lemma ImmediateVerdict(v: Variant, research: (nat, string, Board) -> ResearchOutcome,
                         classify: (nat, ModuleCall) -> Classification,
                         url: string, username: string, name: string, b: Board)
    requires research(0, InitialGoal(url, username, name), EMPTY_BOARD) == Researched(b)
    requires classify(0, LoopRequest(v, b)).isFinal
    ensures var (r, t) := Run(v, research, classify, url, username, name);
      var c := classify(0, LoopRequest(v, b));
      |t| == 2 && r == PipelineResult(c.leadQuality, c.rationale, ToDict(b), 1)
  {
    var st := Start(research, url, username, name);
    var end := Round(v, research, classify, st);
    LoopVerdict(v, research, classify, 0, st, end.result, end.trace);
  }

  /**
   * A failing follow-up research, in any round, leaves the loop: the next
   * and last call is the classification after the loop, of the blackboard
   * that research was handed, the one of the last successful research
   * before it; the result holds that classification and that blackboard.
   */
  lemma FollowUpFailureBreaks(v: Variant, research: (nat, string, Board) -> ResearchOutcome,
                              classify: (nat, ModuleCall) -> Classification,
                              url: string, username: string, name: string, k: int)
    requires FailedFollowUp(Run(v, research, classify, url, username, name).1, k)
    ensures var (r, t) := Run(v, research, classify, url, username, name);
      k == |t| - 2 && t[k].input == LatestBoard(t[..k], EMPTY_BOARD)
      && t[k + 1].ClassifierCall? && t[k + 1].call == FinalRequest(v, t[k].input)
      && r == PipelineResult(Some(OrDefault(t[k + 1].answer.leadQuality, FallbackLabel(v))),
                             t[k + 1].answer.rationale, ToDict(t[k].input), Count(t, SuccessfulResearch))
  {
    var (r, t) := Run(v, research, classify, url, username, name);
    assert |t| >= 1 && Threaded(v, t[..|t| - 1]) && BreaksToFinal(v, r, t)
      && r.investigationRounds == Count(t, SuccessfulResearch) by {
      RunSound(v, research, classify, url, username, name);
    }
    FailureResult(v, r, t, k, Count(t, SuccessfulResearch));
  }

  /** What a sound run's failed follow-up research says about that run's last call and result, which reports `n` rounds. */
  lemma FailureResult(v: Variant, r: PipelineResult, t: seq<Call>, k: int, n: nat)
    requires |t| >= 1 && Threaded(v, t[..|t| - 1]) && BreaksToFinal(v, r, t) && FailedFollowUp(t, k)
    requires r.investigationRounds == n
    ensures k == |t| - 2 && t[k].input == LatestBoard(t[..k], EMPTY_BOARD)
      && t[k + 1].ClassifierCall? && t[k + 1].call == FinalRequest(v, t[k].input)
      && r == PipelineResult(Some(OrDefault(t[k + 1].answer.leadQuality, FallbackLabel(v))),
                             t[k + 1].answer.rationale, ToDict(t[k].input), n)
  {
    assert HandedLatest(v, t[..|t| - 1], k);
    assert t[..|t| - 1][k] == t[k] && t[..|t| - 1][..k] == t[..k];
    assert r == PipelineResult(r.leadQuality, r.rationale, r.blackboard, r.investigationRounds);
  }



  /**
   * The scenario of a research failure in the second round: the initial
   * research succeeds, the first answer asks for more, and that research
   * fails; the fourth and last call classifies the blackboard as it was.
   */
  lemma FailureOnRoundTwo(v: Variant, research: (nat, string, Board) -> ResearchOutcome,
                              classify: (nat, ModuleCall) -> Classification,
                              url: string, username: string, name: string, b: Board)
    requires research(0, InitialGoal(url, username, name), EMPTY_BOARD) == Researched(b)
    requires var c := classify(0, LoopRequest(v, b));
      !c.isFinal && TruthyText(c.furtherInvestigation)
      && research(1, c.furtherInvestigation.value, b).ResearchFailed?
    ensures var (r, t) := Run(v, research, classify, url, username, name);
      var c := classify(1, FinalRequest(v, b));
      |t| == 4 && t[3] == ClassifierCall(FinalRequest(v, b), c)
      && r == PipelineResult(Some(OrDefault(c.leadQuality, FallbackLabel(v))), c.rationale, ToDict(b), 1)
  {
    var st := Start(research, url, username, name);
    var end := Round(v, research, classify, st);
    LoopLeave(v, research, classify, 0, st, end.last);
  }

  /** A classifier that never decides and never names a goal. */
  ghost predicate Stalls(classify: (nat, ModuleCall) -> Classification) {
    forall n, c :: !classify(n, c).isFinal && !TruthyText(classify(n, c).furtherInvestigation)
  }

  /** Every call of `t` from index `n` on is a classification. */
  predicate ClassifiedFrom(t: seq<Call>, n: nat) {
    forall k :: n <= k < |t| ==> t[k].ClassifierCall?
  }

  lemma ClassifiedFromSnoc(s: seq<Call>, cc: Call, t: seq<Call>)
    requires cc.ClassifierCall? && Extends(t, s + [cc]) && ClassifiedFrom(t, |s| + 1)
    ensures Extends(t, s) && ClassifiedFrom(t, |s|)
  {
    assert t[..|s|] == t[..|s| + 1][..|s|];
    assert t[|s|] == t[..|s| + 1][|s|];
  }

  /** The state after `k` classifications that are not final. */
  function Stalled(v: Variant, classify: (nat, ModuleCall) -> Classification, st: Progress, k: nat): Progress
    decreases k
  {
    if k == 0 then st else Stalled(v, classify, Classified(v, classify, st), k - 1)
  }

  /** Stalled classifications leave the blackboard and the rounds alone and only append classifier calls. */
  lemma {:induction false} StalledTrace(v: Variant, classify: (nat, ModuleCall) -> Classification, st: Progress, k: nat)
    ensures var s := Stalled(v, classify, st, k);
      s.board == st.board && s.rounds == st.rounds && s.classifierCalls == st.classifierCalls + k
      && |s.trace| == |st.trace| + k && Extends(s.trace, st.trace) && ClassifiedFrom(s.trace, |st.trace|)
    decreases k
  {
    if k > 0 {
      var next := Classified(v, classify, st);
      StalledTrace(v, classify, next, k - 1);
      ClassifiedFromSnoc(st.trace, next.trace[|st.trace|], Stalled(v, classify, next, k - 1).trace);
    } else {
      assert st.trace[..|st.trace|] == st.trace;
    }
  }

  /** With a stalling classifier, rounds `i`, ... only classify, and the run ends after the loop. */
  lemma {:induction false} StallingLoop(v: Variant, research: (nat, string, Board) -> ResearchOutcome,
                                        classify: (nat, ModuleCall) -> Classification, i: nat, st: Progress)
    requires i <= MAX_INVESTIGATION_ROUNDS && Stalls(classify)
    ensures Loop(v, research, classify, i, st) == Final(v, classify, Stalled(v, classify, st, MAX_INVESTIGATION_ROUNDS - i))
    decreases MAX_INVESTIGATION_ROUNDS - i
  {
    if i < MAX_INVESTIGATION_ROUNDS {
      var next := Classified(v, classify, st);
      assert Round(v, research, classify, st) == NextRound(next);
      LoopNext(v, research, classify, i, st, next);
      StallingLoop(v, research, classify, i + 1, next);
    }
  }

  /**
   * A stalling classifier is asked six times, five times in the loop and
   * once after it; the blackboard is the one of the initial research.
   */
  lemma StallingClassifier(v: Variant, research: (nat, string, Board) -> ResearchOutcome,
                           classify: (nat, ModuleCall) -> Classification,
                           url: string, username: string, name: string)
    requires Stalls(classify)
    ensures var (r, t) := Run(v, research, classify, url, username, name);
      var st := Start(research, url, username, name);
      |t| == 7 && ClassifiedFrom(t, 1)
      && t[6] == ClassifierCall(FinalRequest(v, st.board), classify(5, FinalRequest(v, st.board)))
      && r.investigationRounds == st.rounds && r.blackboard == ToDict(st.board)
  {
    var st := Start(research, url, username, name);
    StallingLoop(v, research, classify, 0, st);
    StalledTrace(v, classify, st, MAX_INVESTIGATION_ROUNDS);
  }
}
