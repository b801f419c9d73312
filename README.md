# LeadEvolver, modelled in Dafny

LeadEvolver decides whether a sales lead fits an ideal customer profile.
A research agent collects what it finds about the lead on a shared
*blackboard*. A classifier module looks at the blackboard's text and either
returns `strong_fit`, `weak_fit` or `not_a_fit`, or names a further research
goal. Three pipelines run this loop: the lead evolver, the lead classifier
and the lead profiler. The profiler drafts a profile of the lead instead of
classifying it. LLM judges and metric functions then score the pipelines'
outputs. A few data helpers extract few-shot examples and split the labelled
leads into a training set and a test set.

This project models that core and proves properties of the model. It has
one Dafny module per source file, plus a few shared helpers:

| module | models |
|---|---|
| `Basics` | `Option`, `Result`, the Python exceptions that reach a caller, `x or default`, filtering |
| `Strings`, `Patterns` | `str.lower`, `str.strip` with a character set, containment, decimal digits, and the regex pieces `\s*`, `\d+` and case-insensitive literals |
| `Values` | the dynamically typed values that metrics receive, `safe_get`, `str()` |
| `PageFindingsSchema` | `src/data_schema/page_findings.py` |
| `BlackboardSchema` | `src/data_schema/blackboard.py`: the value `Board` and the class `Blackboard`, whose `add_*` methods update its fields in place |
| `ClassifierModule` | `src/LeadEvolver/modules/lead_classifier_module.py` |
| `PipelineTrace` | the sub-module calls a pipeline run makes, recorded as a trace |
| `ResearchClassifyPipelines`, `ResearchClassifyProperties` | `lead_evolver_pipeline.py` and `lead_classifier_pipeline.py` |
| `ProfilerPipeline`, `ProfilerProperties` | `lead_profiler_pipeline.py` |
| `LlmJudge` | `src/LeadEvolver/judge/llm_judge.py` |
| `ProfileJudge` | `src/LeadEvolver/judge/profiler/judge.py` |
| `Metrics` | `src/LeadEvolver/judge/metrics.py` |
| `ClassifierMetrics` | `src/LeadEvolver/judge/classifier/metrics.py` |
| `ProfilerMetrics` | `src/LeadEvolver/judge/profiler/metrics.py` |
| `GeneralTools` | `clean_llm_outputted_url` in `src/tools/general_tools.py` |
| `JudgeExamples` | `src/LeadEvolver/judge/extract_judge_examples.py` |
| `Dataset` | `src/LeadEvolver/data_pipeline/dataset.py` |

The language models and the other services the code calls become parameters
of the model. Each is an arbitrary function, so every property holds for every
behaviour they could have:

- **Research agent:** the function `(nat, string, Board) -> ResearchOutcome`. It takes the call index, the research goal and the blackboard, and returns a new blackboard or `ResearchFailed`, which stands for an exception.
- **Classifier module (inside pipelines):** the function `(nat, ModuleCall) -> Classification`.
- **Profiler module:** the function `(nat, ProfilerInput) -> Draft`.
- **Judges' LLM client:** the function `string -> string`, from the user prompt to the text of the answer.
- **`json.loads`:** a function returning `None` where it raises.
- **Blackboard cache:** a function from a user name to the stored dict; `None` means there is no file.
- **Classifier judge (in the classifier metrics):** a function returning `None` where it raises.
- **`str()` and `repr()` of values other than strings and `None`:** the parameter `pyStr`.

The pipelines are written as imperative methods: `Begin`, `PlayRound`,
`Rounds`, `Conclude` and `Forward`, and their profiler counterparts. Each
method is proved equal to a specification function (`Start`, `Round`,
`Loop`, `Final`, `Run`). The run-level properties are then proved about those
functions. A run returns its result together with the trace of the calls it
made, so that the lemmas can state how often each oracle is called and with
what arguments.

Where the repository's own description and the code disagree, the model
follows the code:

- `add_page_findings` puts a single `"\n"` before each rendered page, not a blank line.
- `investigation_rounds` counts *successful* research calls, including the initial one. It is 0 when the initial research fails.
- With `use_system_cache=False`, the profiler pipeline starts from an empty blackboard and therefore always raises (`ProfilerProperties.NoCacheRaises`).
- The maxima of the six profile categories add up to 110, not 100: 60 + 5 × 10 (`ProfileJudge.MaximaSum`). The rubric in `data/profile_rubric.py` lists the same percentages under a heading of 100 points.

In one place the model deliberately departs from the code; "## Left out" says so
too:

- The lead classifier pipeline (lead_classifier_pipeline.py:101-104) and the profiler pipeline (lead_profiler_pipeline.py:96-99) pass `force_classification=True` to `LeadClassifierModule.forward`, whose signature (lead_classifier_module.py:33-38) has no such parameter. As written, both calls raise `TypeError`. The model instead treats the flag as an input the module accepts: it is the `force` field of `ModuleCall`, and the call returns a classification.

## Model

| member | source | states |
|---|---|---|
| Basics.OrDefault | src/LeadEvolver/modules/lead_evolver_pipeline.py:112 | `x or default` on an optional string: the value when it is a non-empty string, the default for `None` and for `""` |
| Basics.Filter | src/LeadEvolver/data_pipeline/dataset.py:81 | the kept elements are elements of the input that satisfy the predicate, every satisfying element is kept, and the result is no longer than the input |
| Basics.FilterMembers | src/LeadEvolver/data_pipeline/dataset.py:81 | an element is kept exactly when it occurs in the input and satisfies the predicate |
| Basics.FilterConcat | src/LeadEvolver/data_pipeline/dataset.py:81-85 | filtering a concatenation is the concatenation of the filtered parts, so the kept rows stay in order |
| Values.SafeGet | src/LeadEvolver/judge/classifier/metrics.py:25-54 | the value under the key when the object is a dict holding that key or an object with that attribute, and the default in every other case |
| Values.Format | src/LeadEvolver/judge/profiler/metrics.py:102 | `str()`: a string renders as itself and `None` as `"None"` |
| PageFindingsSchema.ToString | src/data_schema/page_findings.py:14-15 | the text starts with `URL: `, ends with a blank line, and is exactly as long as the five rendered fields plus the fixed labels |
| PageFindingsSchema.ToStringIgnoresLinks | src/data_schema/page_findings.py:12-15 | two records that differ only in `interesting_links` render the same |
| PageFindingsSchema.StrField | src/data_schema/page_findings.py:8-13 | a `str` field validates exactly when the key is present and holds a string, and the field is that string |
| PageFindingsSchema.FromFields | src/data_schema/page_findings.py:6-13 | validation succeeds exactly when the five text fields hold strings and `interesting_links` is present as a string or `None`; each field of the record is the dict's value |
| PageFindingsSchema.ToFields | src/data_schema/page_findings.py:8-13 | no contract of its own: a record's fields as a dict, for `FromFieldsToFields` |
| PageFindingsSchema.FromFieldsToFields | src/data_schema/page_findings.py:8-13 | validating a record's own fields gives the record back |
| BlackboardSchema.Render | src/data_schema/blackboard.py:24-39 | the text is empty exactly when both fields are; otherwise the research section and then the pages section, joined by a blank line only when both are present |
| BlackboardSchema.MergeResearch | src/data_schema/blackboard.py:59-73 | empty findings change nothing; an empty field takes the findings; otherwise new, then the prior heading, then old; the old text is always a suffix and the new text a prefix |
| BlackboardSchema.MergeAllNewestFirst | src/data_schema/blackboard.py:66-73 | after merging non-empty findings f1 … fn into a non-empty field, the field reads fn … f1 and then the original text, separated by the prior-research heading |
| BlackboardSchema.ContributionOf | src/data_schema/blackboard.py:51-57 | a record adds a newline and its rendering; a dict adds the rendering of the record validated from it, or fails; any other item is skipped |
| BlackboardSchema.AppendItemsKeepsPrefix | src/data_schema/blackboard.py:48-57 | the old page text is always a prefix of the new one |
| BlackboardSchema.AppendItemsInOrder | src/data_schema/blackboard.py:51-57 | when no item fails, the new text is the old text followed by every item's contribution in list order |
| BlackboardSchema.AppendItemsSplit | src/data_schema/blackboard.py:51-57 | processing `xs + ys` is processing `xs` and then, unless that failed, `ys` |
| BlackboardSchema.OtherItemSkipped | src/data_schema/blackboard.py:51-57 | an item that is neither a `PageFindings` nor a dict has no effect anywhere in the list |
| BlackboardSchema.DictItemAsRecord | src/data_schema/blackboard.py:54-57 | a valid dict item has the same effect as the record built from it |
| BlackboardSchema.InvalidDictStops | src/data_schema/blackboard.py:54-57 | a dict that fails validation raises, and the items before it stay appended |
| BlackboardSchema.ToDict | src/data_schema/blackboard.py:75-85 | exactly the two keys, holding the two fields |
| BlackboardSchema.StrOrEmpty | src/data_schema/blackboard.py:99-100 | a missing key reads as `""`; a present key validates exactly when it holds a string |
| BlackboardSchema.FromDict | src/data_schema/blackboard.py:87-101 | succeeds exactly when both fields read and validate, and then holds what was read |
| BlackboardSchema.FromDictToDict | src/data_schema/blackboard.py:75-101 | `from_dict(to_dict(b))` gives `b` back |
| BlackboardSchema.FromDictEmpty | src/data_schema/blackboard.py:99-100 | the empty dict gives the empty blackboard, whose text is `""` |
| BlackboardSchema.Blackboard.constructor | src/data_schema/blackboard.py:15-22 | the object holds the two given fields |
| BlackboardSchema.Blackboard.Snapshot | src/data_schema/blackboard.py:15-22 | the value of the object's two current fields |
| BlackboardSchema.Blackboard.ToText | src/data_schema/blackboard.py:24-39 | the text is empty exactly when both fields are |
| BlackboardSchema.Blackboard.AddPageFindings | src/data_schema/blackboard.py:41-57 | only the page field changes, to the old text with the items appended in order; it raises a validation error exactly when an item fails |
| BlackboardSchema.Blackboard.AddResearchFindings | src/data_schema/blackboard.py:59-73 | only the research field changes, to the new findings merged in front of the old ones |
| ClassifierModule.Request | src/LeadEvolver/modules/lead_classifier_module.py:53-60 | context and force flag are passed on; a missing or falsy ICP or offering is replaced by the module's default |
| ClassifierModule.Decide | src/LeadEvolver/modules/lead_classifier_module.py:62-78 | final exactly when there is a label and the goal is `None`, all whitespace, or `none` in any case; label and rationale pass through; the goal is dropped exactly when final |
| ClassifierModule.NullLabelNotFinal | src/LeadEvolver/modules/lead_classifier_module.py:67-71 | without a label nothing is final, whatever the goal |
| ClassifierModule.PaddedNoneNotFinal | src/LeadEvolver/modules/lead_classifier_module.py:69-71 | `" none "` is not recognised, since the word test does not strip, and is kept as a research goal |
| ClassifierModule.NoneAnyCaseFinal | src/LeadEvolver/modules/lead_classifier_module.py:70 | the word `none` in any letter case makes a labelled answer final |
| ClassifierModule.ResearchRequested | src/LeadEvolver/modules/lead_classifier_module.py:67-76 | a classification asks for research exactly when the goal is non-empty and either there is no label, or the goal is neither blank nor `none` |
| PipelineTrace.SuccessfulAtMostResearch | src/LeadEvolver/modules/lead_evolver_pipeline.py:61-102 | successful research calls never outnumber research calls |
| ResearchClassifyPipelines.InitialGoalMentions | src/LeadEvolver/modules/lead_evolver_pipeline.py:55-58 | the first research goal starts with the profile-page instruction, names the lead and the name on lines of their own, and ends with the URL |
| ResearchClassifyPipelines.InitialGoal | src/LeadEvolver/modules/lead_evolver_pipeline.py:55-58 | no contract of its own: the f-string of the first goal; `InitialGoalMentions` states what it holds |
| ResearchClassifyPipelines.LoopRequest | src/LeadEvolver/modules/lead_evolver_pipeline.py:75-79 | a round classifies the rendered blackboard without forcing; the evolver passes its ICP text and offering, the classifier pipeline neither (lead_classifier_pipeline.py:75) |
| ResearchClassifyPipelines.FinalRequest | src/LeadEvolver/modules/lead_evolver_pipeline.py:105-109 | after the loop, the evolver prefixes the exhausted marker and does not force; the classifier pipeline forces a verdict on the plain text (lead_classifier_pipeline.py:101-104) |
| ResearchClassifyPipelines.LoopAndFinalDiffer | src/LeadEvolver/modules/lead_evolver_pipeline.py:105-108 | a classification in the loop and the one after it are never the same request: the evolver's exhausted marker starts with a blank line that no rendered blackboard starts with, and the classifier pipeline's closing call is forced (lead_classifier_pipeline.py:101-104) |
| ResearchClassifyPipelines.Start | src/LeadEvolver/modules/lead_evolver_pipeline.py:61-71 | one research call with the initial goal on the empty blackboard; a failure is swallowed and leaves the empty blackboard and 0 rounds; a success gives its blackboard and 1 round |
| ResearchClassifyPipelines.Begin | src/LeadEvolver/modules/lead_evolver_pipeline.py:61-71 | the initial research step computes `Start` |
| ResearchClassifyPipelines.PlayRound | src/LeadEvolver/modules/lead_evolver_pipeline.py:73-102 | one loop body computes `Round`: classify, return a final verdict, else research the goal and leave the loop when research fails |
| ResearchClassifyPipelines.Conclude | src/LeadEvolver/modules/lead_evolver_pipeline.py:104-116 | the classification after the loop computes `Final` |
| ResearchClassifyPipelines.Rounds | src/LeadEvolver/modules/lead_evolver_pipeline.py:73-116 | the `for` loop and what follows it compute `Loop` from round 0 |
| ResearchClassifyPipelines.Forward | src/LeadEvolver/modules/lead_evolver_pipeline.py:28-116 | `forward` of either pipeline computes `Run`, whose properties `RunSound` states |
| ResearchClassifyProperties.RunSound | src/LeadEvolver/modules/lead_evolver_pipeline.py:61-116 | for every oracle behaviour, a run: starts with the initial research; makes at most six classifier and six research calls; reports rounds equal to its successful research calls; researches only a goal the previous classification asked for; hands every research call and every loop classification the blackboard of the last successful research before it (the empty one before any); has no final answer before its last call; follows any failed follow-up research at once with the closing classification of the blackboard that research was handed; follows every non-final answer that names a goal with the research of exactly that goal, and every non-final answer with no goal with the next classification (`FollowsUp`); ends only on a final answer in rounds 1-5, or on the closing classification made after the fifth round or right after a failed follow-up research (`LoopExit`); builds the result from the last call and the latest blackboard |
| ResearchClassifyProperties.LoopLabelled | src/LeadEvolver/modules/lead_evolver_pipeline.py:61-116 | for a classifier whose final answers always carry a label, the rounds from any round on end with a label: the verdict's own, or the closing call's label with the variant's fallback |
| ResearchClassifyProperties.RunLabelled | src/LeadEvolver/modules/lead_classifier_pipeline.py:106-107 | for such a classifier, the result of either pipeline always has a label (`or "not_a_fit"` at lead_evolver_pipeline.py:112, `or "None"` here); line 107 is reached only in the model, since the forced call before it raises `TypeError` in the source |
| ResearchClassifyProperties.DecidedRunLabelled | src/LeadEvolver/modules/lead_classifier_module.py:62-78 | when the classifier is the module's `forward` over any predictor, the result of either pipeline always has a label |
| ResearchClassifyProperties.LoopSound | src/LeadEvolver/modules/lead_evolver_pipeline.py:73-116 | the same guarantees, blackboard threading, requested research always made next, the three ways out of the loop and the break on a failed research included, for the rounds from any round `i` that start in the loop invariant |
| ResearchClassifyProperties.LoopAsksFirst | src/LeadEvolver/modules/lead_evolver_pipeline.py:73-79 | each round's first call is the classifier, asked about the current blackboard |
| ResearchClassifyProperties.LoopExtends | src/LeadEvolver/modules/lead_evolver_pipeline.py:73-116 | the rest of a run only appends calls to those already made |
| ResearchClassifyProperties.InitialFailureSwallowed | src/LeadEvolver/modules/lead_evolver_pipeline.py:61-88 | when the initial research fails, the empty blackboard is classified next, and a final answer there is returned with 0 rounds |
| ResearchClassifyProperties.ImmediateVerdict | src/LeadEvolver/modules/lead_evolver_pipeline.py:75-88 | after a successful initial research, a final first answer ends the run after two calls, with 1 round and that blackboard |
| ResearchClassifyProperties.FollowUpFailureBreaks | src/LeadEvolver/modules/lead_evolver_pipeline.py:91-116 | a failing follow-up research in any round leaves the loop: the next and last call is the closing classification of the blackboard that research was handed (the latest successful research's), and the result holds that call's label with the pipeline's fallback, its rationale, that blackboard and the round count |
| ResearchClassifyProperties.FailureOnRoundTwo | src/LeadEvolver/modules/lead_evolver_pipeline.py:91-116 | the scenario of a second research that fails after a successful first one: the fourth and last call classifies the first research's blackboard, with 1 round |
| ResearchClassifyProperties.StallingClassifier | src/LeadEvolver/modules/lead_evolver_pipeline.py:73-116 | a classifier that never decides and never names a goal is asked six times: five rounds and the final call; the blackboard stays that of the initial research |
| ProfilerPipeline.ForcedRequest | src/LeadEvolver/modules/lead_profiler_pipeline.py:95-99 | the classification after drafting is of the rendered blackboard, forced, with the module's defaults |
| ProfilerPipeline.NeedsResearch | src/LeadEvolver/modules/lead_profiler_pipeline.py:73 | no contract of its own: a goal that is present and longer than five characters; `RoundReady`, `RoundResearched` and `RoundFailed` state its effect |
| ProfilerPipeline.ReadVerdictOfClassification | src/LeadEvolver/modules/lead_profiler_pipeline.py:100-101 | the corrected read returns the label and rationale the classifier module produced |
| ProfilerPipeline.ReadVerdictAsWrittenDrops | src/LeadEvolver/modules/lead_profiler_pipeline.py:100-101 | as written, `hasattr` on the returned dict is false, so label and rationale are always `None`, and a label is lost |
| ProfilerPipeline.RoundReady | src/LeadEvolver/modules/lead_profiler_pipeline.py:71-87 | a draft without a goal longer than five characters sets `output_ready` and leaves the blackboard |
| ProfilerPipeline.RoundResearched | src/LeadEvolver/modules/lead_profiler_pipeline.py:73-80 | a successful research of the goal replaces the blackboard and counts a round |
| ProfilerPipeline.RoundFailed | src/LeadEvolver/modules/lead_profiler_pipeline.py:81-85 | a failed research breaks the loop with the blackboard unchanged |
| ProfilerPipeline.DraftRound | src/LeadEvolver/modules/lead_profiler_pipeline.py:65-87 | one loop body computes `Round` |
| ProfilerPipeline.DraftRounds | src/LeadEvolver/modules/lead_profiler_pipeline.py:64-87 | the `for` loop computes `Loop` from round 0 |
| ProfilerPipeline.Finish | src/LeadEvolver/modules/lead_profiler_pipeline.py:89-112 | the extra draft and the classification after the loop compute `Conclude` after `Redraft` |
| ProfilerPipeline.Forward | src/LeadEvolver/modules/lead_profiler_pipeline.py:31-112 | `forward` computes `Run`, whose properties `RunSound` and `RaisesOnEmptyStart` state |
| ProfilerProperties.LoopSound | src/LeadEvolver/modules/lead_profiler_pipeline.py:64-87 | the loop ends after three rounds, or with a failed research as its last call; every research call follows the draft that named its goal |
| ProfilerProperties.RedraftSound | src/LeadEvolver/modules/lead_profiler_pipeline.py:89-93 | the extra draft from the blackboard's text happens exactly when no round was ready |
| ProfilerProperties.ConcludeSound | src/LeadEvolver/modules/lead_profiler_pipeline.py:95-112 | the result holds the last draft and the last blackboard, and the label of one forced classification (or none when not configured) |
| ProfilerProperties.RunSound | src/LeadEvolver/modules/lead_profiler_pipeline.py:53-112 | every run that does not raise: reports rounds equal to its successful research calls and at most three; researches each goal right after the draft that named it; drafts once more from text exactly when no draft lacked a goal; returns the last draft and the last researched blackboard |
| ProfilerProperties.RaisesOnEmptyStart | src/LeadEvolver/modules/lead_profiler_pipeline.py:54-59 | the pipeline raises exactly when the cached dict is invalid (validation error) or the starting blackboard renders empty (missing blackboard) |
| ProfilerProperties.NoCacheRaises | src/LeadEvolver/modules/lead_profiler_pipeline.py:54-59 | without the system cache the pipeline always raises |
| ProfilerProperties.MissingCacheFileRaises | src/LeadEvolver/modules/lead_profiler_pipeline.py:54-59 | a user without a cache file always makes the pipeline raise |
| LlmJudge.Verdict | src/LeadEvolver/judge/llm_judge.py:129-138 | always a valid label: `strong_fit` exactly when it occurs; `weak_fit` exactly when that does not and `weak_fit` does; `not_a_fit` otherwise |
| LlmJudge.ParseVerdict | src/LeadEvolver/judge/llm_judge.py:127-138 | the answer, stripped and lower-cased, always gives one of the three labels; the lemmas below state which |
| LlmJudge.ParseVerdictUnstripped | src/LeadEvolver/judge/llm_judge.py:127-138 | stripping the answer never changes the verdict |
| LlmJudge.ParseVerdictCaseless | src/LeadEvolver/judge/llm_judge.py:127 | answers equal up to letter case get the same verdict |
| LlmJudge.StrongFitWins | src/LeadEvolver/judge/llm_judge.py:130-131 | an answer containing `strong_fit` in any case is `strong_fit`, whatever else it says |
| LlmJudge.LabelRoundTrip | src/LeadEvolver/judge/llm_judge.py:129-138 | each valid label, answered on its own, is read back as itself |
| LlmJudge.PromptParts | src/LeadEvolver/judge/llm_judge.py:73-91 | the prompt contains the lead context and the proposed label; a truthy rationale inserts its line just before the closing question, and a falsy one leaves the prompt without it |
| LlmJudge.UserPrompt | src/LeadEvolver/judge/llm_judge.py:73-91 | no contract of its own: `_build_user_prompt`; `PromptParts` states what it holds |
| LlmJudge.Judge | src/LeadEvolver/judge/llm_judge.py:93-138 | always a valid label, the verdict of the lower-cased answer to the user prompt |
| LlmJudge.EvaluateAgainstGroundTruth | src/LeadEvolver/judge/llm_judge.py:166-177 | the judge's label, with the ground truth and the proposed label echoed |
| LlmJudge.CorrectnessIgnoresJudge | src/LeadEvolver/judge/llm_judge.py:176 | `is_correct` is whether proposed equals ground truth, whatever the judge answers and whatever the context |
| ProfileJudge.SearchIsFirst | src/LeadEvolver/judge/profiler/judge.py:104 | `re.search` finds nothing exactly when the pattern matches nowhere, and otherwise captures at the leftmost match |
| ProfileJudge.Clamp | src/LeadEvolver/judge/profiler/judge.py:106 | result in `[0, hi]`, the number itself when in range, `hi` above |
| ProfileJudge.ParseScore | src/LeadEvolver/judge/profiler/judge.py:93-121 | every parsed total lies in `[0, 100]` |
| ProfileJudge.TotalRoundTrip | src/LeadEvolver/judge/profiler/judge.py:104-106 | `TOTAL: N/100` in any letter case, followed by anything, reads back as N capped at 100 |
| ProfileJudge.TotalAboveHundredCapped | src/LeadEvolver/judge/profiler/judge.py:104-106 | `TOTAL: 150/100` reads as 100 |
| ProfileJudge.HundredFallback | src/LeadEvolver/judge/profiler/judge.py:109-111 | without a `TOTAL:` label, an answer starting `N/100` reads as N capped at 100 |
| ProfileJudge.PlainNumber | src/LeadEvolver/judge/profiler/judge.py:114-121 | an answer that is only a number reads as it when at most 100, and as the default 50 otherwise |
| ProfileJudge.NoSlashNoMatch | src/LeadEvolver/judge/profiler/judge.py:104-111 | a text without `/` matches neither slash pattern |
| ProfileJudge.CategoryKey | src/LeadEvolver/judge/profiler/judge.py:142 | each category's key is its name in lower case |
| ProfileJudge.MaximaSum | src/LeadEvolver/judge/profiler/judge.py:135 | the six category maxima add up to 110 |
| ProfileJudge.CategoryScore | src/LeadEvolver/judge/profiler/judge.py:137-144 | every category score lies in `[0, max]`, and is 0 when the category is absent |
| ProfileJudge.CategoryRoundTrip | src/LeadEvolver/judge/profiler/judge.py:138-142 | `NAME: N/M` at the start of the answer reads back as N capped at the category's maximum |
| ProfileJudge.BreakdownBound | src/LeadEvolver/judge/profiler/judge.py:133-146 | the six category scores of any answer add up to at most 110 |
| ProfileJudge.CollectedAll | src/LeadEvolver/judge/profiler/judge.py:133-146 | after the loop, the map has exactly the six keys, each holding its category's score |
| ProfileJudge.ParseBreakdown | src/LeadEvolver/judge/profiler/judge.py:123-146 | exactly the six lower-case keys, each holding its category's score |
| ProfileJudge.ScoreCategory | src/LeadEvolver/judge/profiler/judge.py:137-144 | one loop round gives the category's lower-case key and its score |
| ProfileJudge.Judge | src/LeadEvolver/judge/profiler/judge.py:148-180 | the total lies in `[0, 100]`; a profile too short is 0 without asking the model; otherwise the model is asked exactly once, with the user prompt |
| ProfileJudge.TooShort | src/LeadEvolver/judge/profiler/judge.py:163 | no contract of its own: no profile, `""`, or fewer than ten characters once stripped; `Judge` states that such a profile scores 0 without a call |
| ProfileJudge.UserPrompt | src/LeadEvolver/judge/profiler/judge.py:73-91 | no contract of its own: `_build_user_prompt`; `Judge` states that it is the one prompt sent |
| ProfileJudge.JudgeWithBreakdown | src/LeadEvolver/judge/profiler/judge.py:182-229 | the six keys always; the short-circuit gives 0 everywhere, the fixed message and no prompt; otherwise one prompt, whose stripped answer gives the same total as `judge` and each category's score |
| Metrics.Score | src/LeadEvolver/judge/metrics.py:24-52 | 1 exactly when the labels are equal; 1/2 exactly when they differ and both are fit classes; 0 otherwise |
| Metrics.ScoreSymmetric | src/LeadEvolver/judge/metrics.py:24-52 | the score does not depend on which label is the prediction |
| Metrics.ScoreValues | src/LeadEvolver/judge/metrics.py:24-52 | every score is 0, 1/2 or 1 |
| Metrics.ScoreTable | src/LeadEvolver/judge/metrics.py:46-52 | confusing the two fit classes earns 1/2; confusing a fit with `not_a_fit` earns 0 |
| Metrics.ScoreOfStrings | src/LeadEvolver/judge/metrics.py:42-52 | on two strings the dynamic score is the score table |
| Metrics.ScoreOf | src/LeadEvolver/judge/metrics.py:42-52 | no contract of its own: the score on dynamic values, raising `TypeError` on an unhashable one; `ScoreOfStrings` and `ScoreOfOutcomes` state its outcomes |
| Metrics.ScoreOfOutcomes | src/LeadEvolver/judge/metrics.py:42-52 | the dynamic score raises `TypeError` only for an unhashable value; otherwise it is 0, 1/2 or 1 |
| Metrics.LeadContext | src/LeadEvolver/judge/metrics.py:78-90 | the prediction's blackboard when truthy; otherwise the example's `context` attribute, or its `context` key for a dict |
| Metrics.ContextFallback | src/LeadEvolver/judge/metrics.py:85-90 | a prediction without a blackboard falls back to the example's context |
| Metrics.TrainingMetric | src/LeadEvolver/judge/metrics.py:55-119 | 0 without a predicted label or without any lead context |
| Metrics.TrainingMetricScores | src/LeadEvolver/judge/metrics.py:93-119 | otherwise, the score of the label against the judge's verdict on exactly that context, label and rationale |
| Metrics.TestSetMetric | src/LeadEvolver/judge/metrics.py:122-163 | 0 without a human or a predicted label, else the dynamic score of the prediction against the human label |
| Metrics.TestSetMetricStrings | src/LeadEvolver/judge/metrics.py:141-163 | with string labels, the score table |
| ClassifierMetrics.BlackboardText | src/LeadEvolver/judge/classifier/metrics.py:124-132 | a dict renders exactly when it validates as a blackboard; a string is used as is; an object with `to_string` uses it; anything else is `str()` when truthy and `""` otherwise |
| ClassifierMetrics.BlackboardTextOfDict | src/LeadEvolver/judge/classifier/metrics.py:124-127 | the dict form of a blackboard gives exactly its text |
| ClassifierMetrics.MissingBlackboardIsEmpty | src/LeadEvolver/judge/classifier/metrics.py:118-127 | a prediction without a blackboard gives the empty text |
| ClassifierMetrics.Caught | src/LeadEvolver/judge/classifier/metrics.py:145-147 | any exception scores 0; otherwise the score itself |
| ClassifierMetrics.TrainingOutcome | src/LeadEvolver/judge/classifier/metrics.py:114-143 | 0 without a predicted label; every score is 0, 1/2 or 1 |
| ClassifierMetrics.TrainingMetric | src/LeadEvolver/judge/classifier/metrics.py:88-147 | always 0, 1/2 or 1, and 0 without a predicted label |
| ClassifierMetrics.TrainingMetricScores | src/LeadEvolver/judge/classifier/metrics.py:134-143 | the score of the label against the judge's answer, given exactly the blackboard's text |
| ClassifierMetrics.InvalidBlackboardScoresZero | src/LeadEvolver/judge/classifier/metrics.py:124-147 | a blackboard dict that fails validation scores 0 |
| ClassifierMetrics.FailedJudgeScoresZero | src/LeadEvolver/judge/classifier/metrics.py:134-147 | a judge that raises makes the score 0 |
| ClassifierMetrics.TestSetMetric | src/LeadEvolver/judge/classifier/metrics.py:150-192 | always 0, 1/2 or 1; 0 without either label; otherwise the score of the prediction against the human label |
| ClassifierMetrics.TestSetMetricStrings | src/LeadEvolver/judge/classifier/metrics.py:175-188 | with string labels, the score table |
| ClassifierMetrics.UnhashablePredictionScoresZero | src/LeadEvolver/judge/classifier/metrics.py:188-192 | an unhashable prediction that differs from the human label raises inside the score, which scores 0 |
| ProfilerMetrics.TrainingOutcome | src/LeadEvolver/judge/profiler/metrics.py:83-108 | 0 for an unusable profile; for a usable one, an error exactly when the blackboard does not render, and then a validation error; every score lies in `[0, 1]` |
| ProfilerMetrics.TrainingMetric | src/LeadEvolver/judge/profiler/metrics.py:83-112 | always in `[0, 1]`, and 0 for a missing, `"None"` or too short profile |
| ProfilerMetrics.TrainingMetricScores | src/LeadEvolver/judge/profiler/metrics.py:100-108 | a usable profile asks the judge exactly once, with `str(profile)` and the rendered blackboard, and scores the parsed total over 100 |
| ProfilerMetrics.UsableIsJudged | src/LeadEvolver/judge/profiler/metrics.py:86-88 | a profile the metric accepts is never short-circuited by the judge |
| ProfilerMetrics.Unusable | src/LeadEvolver/judge/profiler/metrics.py:86 | no contract of its own: the metric's guard; `TrainingOutcome` and `UsableIsJudged` state its effect |
| ProfilerMetrics.NoneStringScoresZero | src/LeadEvolver/judge/profiler/metrics.py:86-88 | the string `"None"` scores 0 |
| ProfilerMetrics.UnusableIgnoresClient | src/LeadEvolver/judge/profiler/metrics.py:86-88 | an unusable profile scores 0 whatever the model would answer |
| ProfilerMetrics.InvalidBlackboardScoresZero | src/LeadEvolver/judge/profiler/metrics.py:90-112 | a blackboard dict that fails validation scores 0 |
| GeneralTools.UnquotedEnds | src/tools/general_tools.py:7 | after the quote strips, neither end is a single quote |
| GeneralTools.Members | src/tools/general_tools.py:15 | a `for` loop visits an array's items, an object's keys and a string's characters; `null`, booleans and numbers raise `TypeError` |
| GeneralTools.FirstText | src/tools/general_tools.py:15-18 | the first non-empty string member, with none before it |
| GeneralTools.CleanLlmOutputtedUrl | src/tools/general_tools.py:5-21 | computes `CleanUrl`, whose properties the lemmas below state |
| GeneralTools.ResolveCleaned | src/tools/general_tools.py:10-21 | the loop over `anyOf` computes `Resolve` on the cleaned text |
| GeneralTools.PlainUrl | src/tools/general_tools.py:10-21 | text that does not start with `{` once cleaned is returned cleaned |
| GeneralTools.MalformedJsonUnchanged | src/tools/general_tools.py:11-21 | text that is not valid JSON is returned cleaned |
| GeneralTools.AnyOfArrayFirst | src/tools/general_tools.py:13-18 | an `anyOf` array gives its first non-empty string, unquoted |
| GeneralTools.AnyOfArrayNoText | src/tools/general_tools.py:13-21 | an `anyOf` array without such a string leaves the cleaned text |
| GeneralTools.AnyOfNotIterable | src/tools/general_tools.py:13-21 | an `anyOf` number, boolean or `null` raises `TypeError` |
| GeneralTools.AnyOfString | src/tools/general_tools.py:13-18 | an `anyOf` string is iterated by character, so only its first character is taken |
| GeneralTools.NoSingleQuoteAtEnds | src/tools/general_tools.py:5-21 | on every path, a returned URL neither starts nor ends with a single quote |
| GeneralTools.SingleQuotedText | src/tools/general_tools.py:7 | single quotes around a text are removed and nothing else is |
| GeneralTools.StripOrder | src/tools/general_tools.py:7 | the strips run in order, so `'"x"'` cleans to `"x"` |
| JudgeExamples.NormalizeClassification | src/LeadEvolver/judge/extract_judge_examples.py:25-27 | a display label maps to its internal form, and any other text is unchanged |
| JudgeExamples.NormalizeDisplayLabels | src/LeadEvolver/judge/extract_judge_examples.py:18-22 | the three display labels map to `strong_fit`, `weak_fit` and `not_a_fit` |
| JudgeExamples.NormalizeIdempotent | src/LeadEvolver/judge/extract_judge_examples.py:18-27 | normalising twice is normalising once |
| JudgeExamples.NormalizeIsCaseSensitive | src/LeadEvolver/judge/extract_judge_examples.py:27 | `strong fit` in lower case is not converted |
| JudgeExamples.JudgeFlag | src/LeadEvolver/judge/extract_judge_examples.py:51 | raises `AttributeError` exactly when the cell is `None`; a row without the column is not selected |
| JudgeExamples.ToJudgeExample | src/LeadEvolver/judge/extract_judge_examples.py:54-60 | username, context and rationale are the row's cells, with `""` for a missing column; the label is normalised |
| JudgeExamples.NameFallback | src/LeadEvolver/judge/extract_judge_examples.py:55 | the name when present and non-empty, else the username, else `""` |
| JudgeExamples.ExtractJudgeExamples | src/LeadEvolver/judge/extract_judge_examples.py:49-61 | the loop over the CSV rows computes `Extracted` |
| JudgeExamples.ExtractedSelects | src/LeadEvolver/judge/extract_judge_examples.py:49-61 | when no flag cell is `None`, the result is the selected rows, in CSV order, each shaped into an example |
| JudgeExamples.ExtractedRaises | src/LeadEvolver/judge/extract_judge_examples.py:49-61 | the extraction raises `AttributeError` exactly when some row's flag cell is `None` |
| JudgeExamples.FlagSpellings | src/LeadEvolver/judge/extract_judge_examples.py:51 | `TRUE` and `Yes` select a row; `" true"` does not, since nothing is stripped |
| Dataset.ExampleOf | src/LeadEvolver/data_pipeline/dataset.py:48-54 | URL and username are the row's cells; the name falls back to the username; the label is normalised; a missing rationale column gives `""` |
| Dataset.ToDspyExamples | src/LeadEvolver/data_pipeline/dataset.py:36-56 | one example per row in the rows' order; a frame that lacks a required column raises `KeyError` at its first row |
| Dataset.PrepareTrainTestSplit | src/LeadEvolver/data_pipeline/dataset.py:59-87 | raises `KeyError` without the label or assignment column, and `AttributeError` when the assignment column was not read as text, even if no row is selected; with both, text and all required columns, the training and the test rows as examples; with both but without `url` or `username`, two empty lists when no row is selected and `KeyError` otherwise |
| Dataset.TrainRowsMembers | src/LeadEvolver/data_pipeline/dataset.py:81-84 | a row is a training row exactly when it is labelled and assigned `train` in any letter case |
| Dataset.TestRowsMembers | src/LeadEvolver/data_pipeline/dataset.py:81-85 | a row is a test row exactly when it is labelled and assigned `test` in any letter case |
| Dataset.SplitDisjoint | src/LeadEvolver/data_pipeline/dataset.py:84-85 | no row is in both sets |
| Dataset.SplitSizes | src/LeadEvolver/data_pipeline/dataset.py:81-85 | the two sets together hold at most the labelled rows, which are at most all rows |
| Dataset.TrainRowsInOrder | src/LeadEvolver/data_pipeline/dataset.py:84 | the training rows keep the frame's order |
| Dataset.OtherRowsDropped | src/LeadEvolver/data_pipeline/dataset.py:81-85 | an unlabelled row, or one assigned to neither set, is in neither set |

## Left out

- File and console I/O are not modelled: reading the CSV and JSON files, writing the examples file, printing and logging, and `traceback`. The operations are modelled on the rows and dicts those files hold.
- The system prompts, the few-shot example texts and the DSPy signatures are not modelled. They are text handed to models, which are oracles here.
- The `get_judge` singletons and the DSPy language-model configuration are not modelled: the judge's client is a parameter.
- `src/LeadEvolver/judge/classifier/judge.py` is not part of this model. The classifier metrics take its `judge` as a parameter.
- The researcher modules, the profiler module and the DSPy predictor behind the classifier module are not modelled. They are oracles.
- `find_project_root` and `load_blackboard_from_cache` are not modelled: the cache is an oracle from a user name to the stored dict.
- The firecrawl scraping service, the optimizer scripts and the experiment runners are outside the core.
- The exceptions a judge client or an oracle may raise are not modelled separately. Research failures and the classifier judge's failures are modelled; the others would propagate unchanged.
- `Strings.Lower` covers ASCII letters and the Kelvin sign only, not the full Unicode case mapping of `str.lower`. The label and category tests depend only on ASCII.
- `Strings.IsDigit` (a regex `\d`) covers the ASCII digits only, not every Unicode decimal digit.
- Cells of a data frame are strings or `NaN`. A non-string cell is modelled only in a text `training_set` column, where `.str.lower()` turns it into `NaN`; the column's dtype itself is the frame's `trainingSetIsText` flag.
- JSON numbers are known only by their truthiness. An object with duplicate keys is taken as decoded, the last value winning.
- `Values.Value` compares the opaque values `VOther` structurally, which only approximates Python's `==` on numbers and containers.
- A chat answer whose `message.content` is `None` is not modelled: the client always returns a string.
- `Metrics.RationaleText` treats every truthy rationale as shown. One whose `str()` is `""` is not distinguished.
- ProfileJudge.ParseScore: its own contract states only the bound `[0, 100]`. Its three branches are stated by `TotalRoundTrip`, `HundredFallback` and `PlainNumber`. A general statement of the fallbacks for every text is not proved.
- ProfileJudge.ParseScore and ProfileJudge.CategoryScore: Python's `int()` raises `ValueError` on a digit run longer than 4300 digits (the integer-string conversion limit of CPython 3.11 and later), at judge.py:106, 111, 116 and 142; profiler/metrics.py:110 then catches it and scores 0. The model parses every digit run and clamps it, so such an answer scores 100 (or 50 on the last fallback) instead of raising.
- The forced classification: `force_classification=True` at lead_classifier_pipeline.py:101-104 and lead_profiler_pipeline.py:96-99 raises `TypeError` in the source, because `LeadClassifierModule.forward` has no such parameter. The model treats the flag as an input the module accepts, so `ResearchClassifyPipelines.Conclude`, `ResearchClassifyPipelines.Forward`, `ProfilerPipeline.Finish`, `ProfilerPipeline.Forward`, `ProfilerProperties.ConcludeSound`, `ProfilerProperties.RunSound`, and for the classifier pipeline `ResearchClassifyProperties.RunSound`, `LoopSound`, `LoopLabelled`, `RunLabelled`, `DecidedRunLabelled`, `StallingClassifier`, `FollowUpFailureBreaks` and `FailureOnRoundTwo` describe a forced call that returns a classification. In the source, the classifier pipeline raises whenever its loop ends without a verdict, and the profiler raises whenever `update_classification` is set. The profiler's `Conclude` then uses the corrected dict read, not lines 100-101 as written.
- GeneralTools.Resolve: `json.loads` is an oracle that either decodes or fails, and every failure is taken as the `json.JSONDecodeError` that general_tools.py:19 catches. Two other errors of `json.loads` propagate out of `clean_llm_outputted_url` in the source and are not modelled: the plain `ValueError` for an integer literal longer than 4300 digits, and the `RecursionError` for very deeply nested arrays. On such input the model returns the stripped text.
- ClassifierModule.Classify: it has no contract of its own. It is `Decide` applied to the predictor's answer to `Request`. The pipelines take an arbitrary classifier oracle instead; `DecidedRunLabelled` states what follows when that oracle is `Classify`.
- ProfilerPipeline.ReadVerdict: it has no contract of its own. `ReadVerdictOfClassification` states what it returns for a classification.

## Findings

| source | as written | input that shows it | evidently intended | confidence | as-written member | corrected member |
|---|---|---|---|---|---|---|
| src/LeadEvolver/modules/lead_profiler_pipeline.py:100-101 | the label and rationale are read only if the object has an attribute of that name, but the classifier module returns a plain dict, which has no such attribute, so both reads always give `None` | `update_classification=True` and a classifier answer `{"lead_quality": "strong_fit", "rationale": "r", ...}`: the result's `lead_quality` is `None`. In the source this is masked: the forced call at lines 96-99 raises `TypeError` first (see "## Left out") | read the dict's `lead_quality` and `rationale` keys | not executed | ProfilerPipeline.ReadVerdictAsWrittenDrops | ProfilerPipeline.ReadVerdictOfClassification |
