/**
 * What the pipelines ask of their sub-modules. Research, the classifier
 * module and the profiler are oracles: functions of the index of the call
 * of that kind (0 for the first) and of what is passed to them. A run is
 * recorded as the sequence of calls it made, with the answer each one got.
 */
module PipelineTrace {
  import opened Basics
  import opened BlackboardSchema
  import opened ClassifierModule

  /** A researcher either returns a new blackboard or raises. */
  datatype ResearchOutcome = Researched(board: Board) | ResearchFailed

  /** The profiler is handed the blackboard object in the loop and its text after it. */
  datatype ProfilerInput = BoardInput(board: Board) | TextInput(text: string)

  /** The `profile` and `research_goal` attributes of a profiler answer; a missing attribute is `None`. */
  datatype Draft = Draft(profile: Option<string>, researchGoal: Option<string>)

  datatype Call =
    | ResearchCall(goal: string, input: Board, outcome: ResearchOutcome)
    | ClassifierCall(call: ModuleCall, answer: Classification)
    | ProfilerCall(profilerInput: ProfilerInput, draft: Draft)

  datatype Kind = Research | SuccessfulResearch | Classifier | Profiler

  predicate OfKind(c: Call, k: Kind) {
    match k
    case Research => c.ResearchCall?
    case SuccessfulResearch => c.ResearchCall? && c.outcome.Researched?
    case Classifier => c.ClassifierCall?
    case Profiler => c.ProfilerCall?
  }

  /** The number of calls of kind `k` in a trace. */
  function Count(t: seq<Call>, k: Kind): (n: nat)
    ensures n <= |t|
    decreases |t|
  {
    if t == [] then 0 else Count(t[..|t| - 1], k) + (if OfKind(t[|t| - 1], k) then 1 else 0)
  }

  lemma CountSnoc(t: seq<Call>, c: Call, k: Kind)
    ensures Count(t + [c], k) == Count(t, k) + (if OfKind(c, k) then 1 else 0)
  {
    assert (t + [c])[..|t|] == t;
  }

  /** Successful research calls are research calls. */
  lemma {:induction false} SuccessfulAtMostResearch(t: seq<Call>)
    ensures Count(t, SuccessfulResearch) <= Count(t, Research)
    decreases |t|
  {
    if t != [] {
      SuccessfulAtMostResearch(t[..|t| - 1]);
    }
  }

  /** The blackboard the last successful research of `t` returned, or `b` if there was none. */
  function LatestBoard(t: seq<Call>, b: Board): Board
    decreases |t|
  {
    if t == [] then b
    else if t[|t| - 1].ResearchCall? && t[|t| - 1].outcome.Researched? then t[|t| - 1].outcome.board
    else LatestBoard(t[..|t| - 1], b)
  }

  lemma LatestBoardSnoc(t: seq<Call>, c: Call, b: Board)
    ensures LatestBoard(t + [c], b) == if c.ResearchCall? && c.outcome.Researched? then c.outcome.board else LatestBoard(t, b)
  {
    assert (t + [c])[..|t|] == t;
  }
}
