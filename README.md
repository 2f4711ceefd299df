# Bamba evaluation: result aggregation and job building

This project models the evaluation tooling of the Bamba language-model
repository. There are two halves.

- **Aggregation** (`evaluation/aggregation.py` with its helpers) turns
  per-model benchmark artifacts into one score table. Open LLM Leaderboard v2
  artifacts are normalised task by task. Other artifacts contribute the one
  metric that each scenario is scored by. The resulting records are checked
  for inconsistent duplicates, and MMLU subtasks are averaged into `mmlu`.
  Scores are rescaled to percentages and given display names. They are joined
  with the scores reported in papers and checked again for duplicates. Each
  model gets a win rate per scenario and a mean win rate ("MWR"). Finally the
  table is pivoted into one row per model.
- **Job building** (`evaluation/runner.py`) decides, for a model and a task,
  which subtasks still need to run, and builds the scheduler command line
  that runs them.

Scores are exact reals. Each error the Python code raises is a value of
`Wrappers.Error`, carried in a `Result`:

- KeyError
- IndexError
- ZeroDivisionError
- NotImplementedError
- AssertionError
- the ValueError on inconsistent duplicates
- the pivot's error on a repeated index
- the TypeError of `os.path.join` when the harness path is missing

The modules, one per source concern:

| module | file | models |
|---|---|---|
| `Wrappers`, `Strings`, `Sequences`, `Records` | `wrappers.dfy`, `strings.dfy`, `sequences.dfy`, `records.dfy` | results and errors, the Python string operations used, subsequences, the `(model, scenario, score)` record with sums and means |
| `Normalizations` | `normalizations.dfy` | `normalizations.py` |
| `AggregationUtils` | `aggregation_utils.dfy` | `aggregation_utils.py` (`handle_duplicates`) |
| `PrettyNames` | `pretty_names.dfy` | `pretty_names.py` |
| `ScoreExtraction` | `extraction.dfy` | the artifact loop of `get_results_df` |
| `Consolidation` | `consolidation.dfy` | subtask renaming, grouping, rescaling, display names, the model-id rewrite |
| `Reshape` | `reshape.dfy` | the melt of the paper table and the final pivot |
| `WinRate` | `win_rate.dfy` | `calculate_win_rate`, the per-scenario win rates, the mean win rate |
| `Aggregation` | `aggregation.dfy` | `get_results_df` end to end |
| `Runner` | `runner.dfy` | `sanitize_model_id` and `run_job` up to the submission |

The loops of the source are methods with loop invariants. Each method is
proved equal to a specification function, and the properties are lemmas about
those functions. These loops are:

- the artifact loop;
- the BBH and MuSR loops;
- the duplicate check;
- the `done_subtasks` loop;
- the construction of `model_args` and of the command.

The column-wise pandas operations are functions on sequences of records.
These are `apply`, `groupby`, `melt`, `concat` and `pivot`.

## Model

| member | source | states |
|---|---|---|
| Normalizations.NeedsNormalization | evaluation/normalizations.py:3 | fails with IndexError exactly on an empty key list; otherwise true exactly when the first result key contains "leaderboard" |
| Normalizations.NeedsNormalizationFirstKeyOnly | evaluation/normalizations.py:3 | two key lists with the same first key get the same answer, whatever follows |
| Normalizations.NormalizeWithinRange | evaluation/normalizations.py:18-19 | for a floor below the ceiling the rescaled value is non-negative, zero exactly at or below the floor, at most 100 up to the ceiling and exactly 100 at it |
| Normalizations.NormalizeMonotone | evaluation/normalizations.py:18-19 | the rescale is monotone in the raw value, and strictly so above the floor |
| Normalizations.TablesValid | evaluation/normalizations.py:22-49 | 24 BBH subtasks and 3 MuSR subtasks, each with at least two answer choices, so every floor is below 1 |
| Normalizations.Lookup | evaluation/normalizations.py:59 | two-level indexing succeeds exactly when both keys are present and yields the stored value; otherwise a KeyError naming the first missing level |
| Normalizations.BbhScore | evaluation/normalizations.py:53-67 | the BBH loop yields the average of the rescaled scores of the subtasks present, in table order |
| Normalizations.MusrScore | evaluation/normalizations.py:95-105 | the MuSR loop yields the average of the rescaled scores of all three subtasks |
| Normalizations.PrefixErrorPropagates | evaluation/normalizations.py:56-103 | once the loop over a prefix of the subtask table raises, the whole loop raises the same error |
| Normalizations.GetHfv2NormalizedScores | evaluation/normalizations.py:52-110 | the dispatch on the task name agrees with the normalised score of each of the six tasks |
| Normalizations.SubtaskScoreBounds | evaluation/normalizations.py:59-63 | a subtask score of a leaderboard entry whose read metrics are fractions lies in [0, 100] |
| Normalizations.SubtaskScoresBounds | evaluation/normalizations.py:56-64 | every collected BBH or MuSR subtask score of raw fractions lies in [0, 100] |
| Normalizations.Hfv2ScoreBounds | evaluation/normalizations.py:52-110 | when the metrics the normaliser reads from the leaderboard entries are fractions, every task that produces a score produces one in [0, 100] |
| Normalizations.SubtaskErrorsAreKeyErrors | evaluation/normalizations.py:56-103 | the BBH and MuSR loops raise nothing but KeyError |
| Normalizations.UnknownTaskNotImplemented | evaluation/normalizations.py:107-108 | NotImplementedError naming the task is raised exactly for names outside the six tasks |
| Normalizations.KnownTaskErrors | evaluation/normalizations.py:52-105 | the six handled tasks fail only with KeyError or, for an average over no subtask, ZeroDivisionError |
| Normalizations.BbhSkipsAbsent | evaluation/normalizations.py:58 | an absent BBH subtask is skipped rather than scored as 0 |
| Normalizations.BbhNonePresent | evaluation/normalizations.py:67 | with no BBH subtask present the average divides by zero |
| Normalizations.MusrMissingKey | evaluation/normalizations.py:100 | a missing MuSR subtask key is an error, not a skipped subtask |
| Normalizations.MusrMeanOfThree | evaluation/normalizations.py:95-105 | with all three entries present, MuSR is the mean of the three rescaled accuracies with floors 1/2, 1/5 and 1/3 |
| Normalizations.SingleMetricFloors | evaluation/normalizations.py:69-82 | GPQA, MMLU-PRO and MATH rescale their one metric with floors 0.25, 0.1 and 0 |
| Normalizations.IfevalMean | evaluation/normalizations.py:84-93 | IFEval is the mean of the two strict accuracies times 100 |
| Normalizations.BbhTwoSubtaskExample | evaluation/normalizations.py:53-67 | two present subtasks with 3 and 5 choices and raw accuracies 0.8 and 0.9 rescale to 70 and 87.5 and average to 78.75 |
| AggregationUtils.HandleDuplicates | evaluation/aggregation_utils.py:1-40 | raises exactly when some pair of rows with the same model and scenario fails the 1% tolerance test, naming the first row, in row order, that has such a partner; otherwise returns the rows with later duplicates dropped |
| AggregationUtils.DistinctUnchanged | evaluation/aggregation_utils.py:13 | without a repeated key nothing is rejected and nothing is dropped |
| AggregationUtils.DropDuplicatesKeys | evaluation/aggregation_utils.py:36-38 | de-duplication keeps every (model, scenario) key and invents none |
| AggregationUtils.DropDuplicatesDistinct | evaluation/aggregation_utils.py:36-38 | the de-duplicated rows have pairwise distinct keys |
| AggregationUtils.DropDuplicatesSubsequence | evaluation/aggregation_utils.py:36-38 | the de-duplicated rows are a subsequence of the input: rows are only removed, never reordered |
| AggregationUtils.DropDuplicatesFirstOccurrences | evaluation/aggregation_utils.py:36-38 | a row is kept exactly when it is the first occurrence of its key |
| AggregationUtils.HandleDuplicatesIdempotent | evaluation/aggregation_utils.py:1-40 | a second pass over the output accepts it and changes nothing |
| AggregationUtils.PairToleranceIsMinBased | evaluation/aggregation_utils.py:28-30 | for positive scores a pair is accepted exactly when their difference is below 1% of the smaller score |
| AggregationUtils.ToleranceBoundaryExamples | evaluation/aggregation_utils.py:28-30 | 100 against 100.99 is accepted, 100 against 101.01 is rejected |
| AggregationUtils.ZeroDuplicatesRejected | evaluation/aggregation_utils.py:28-30 | because the test is strict, two duplicates that both score 0 are rejected |
| AggregationUtils.FirstLabelConflict | evaluation/aggregation_utils.py:18-34 | from the given position on, the first row that has a conflicting partner under another label; none exactly when no row from there has one |
| AggregationUtils.HandleDuplicatesAsWritten | evaluation/aggregation_utils.py:13-40 | with index labels, raises exactly when some row has a conflicting partner under a different label, naming the first such row; otherwise returns the rows with later duplicates dropped |
| AggregationUtils.ConcatLabelsHideConflict | evaluation/aggregation_utils.py:22-26 | two inconsistent duplicates that carry the same index label are accepted, although they conflict |
| ScoreExtraction.ExtractLeaderboard | evaluation/aggregation.py:29-45 | the leaderboard loop returns the leaderboard records of the artifact |
| ScoreExtraction.ExtractLookup | evaluation/aggregation.py:48-68 | the metric-lookup loop returns the lookup records of the artifact |
| ScoreExtraction.ExtractArtifact | evaluation/aggregation.py:19-68 | an artifact without results raises IndexError; one whose first key names the leaderboard contributes its leaderboard records, any other its lookup records |
| ScoreExtraction.ExtractRecords | evaluation/aggregation.py:15-70 | the records of all artifacts, artifact by artifact, and the first error raised |
| ScoreExtraction.LeaderboardRecordsSpec | evaluation/aggregation.py:29-45 | fails exactly when an eligible task cannot be scored; each record is an eligible task of the model with its normalised score divided by 100; every eligible task has a record |
| ScoreExtraction.LeaderboardRecordsOnePerTask | evaluation/aggregation.py:29-45 | over tasks listed once each, no two records share a task, and every record's scenario is one of the tasks |
| ScoreExtraction.LookupRecordsSpec | evaluation/aggregation.py:48-68 | the assertion fails exactly when an expected scenario has zero or several matching metric keys; each record holds the value of a matching key; every expected scenario has a record |
| ScoreExtraction.LookupRecordsOnePerKey | evaluation/aggregation.py:48-68 | over result keys that occur once each, no two records share a key, and every record's scenario is one of the keys |
| Consolidation.RenameRowsKeeps | evaluation/aggregation.py:78-83 | renaming changes only the scenario column, to the umbrella name or to itself |
| Consolidation.RenameScenarioIdempotent | evaluation/aggregation.py:80-82 | renaming twice is renaming once |
| Consolidation.RenameScenarioExamples | evaluation/aggregation.py:76-83 | MMLU subtasks fold into `mmlu`, `mmlu_pro` stays, and the substring test also catches `cmmlu_art` |
| Consolidation.ScoresFor | evaluation/aggregation.py:84 | a (model, scenario) group is non-empty exactly when some row carries that key |
| Consolidation.GroupMean | evaluation/aggregation.py:84 | one output row per distinct key of the input |
| Consolidation.GroupMeanSpec | evaluation/aggregation.py:84 | the groups have distinct keys, exactly the keys of the input, and each holds the mean score of its rows |
| Consolidation.GroupMeanOfDistinct | evaluation/aggregation.py:84 | grouping rows with distinct keys changes nothing |
| Consolidation.GroupMeanBounds | evaluation/aggregation.py:84 | group means stay within any bounds the input scores respect |
| Consolidation.GroupTwoThenOne | evaluation/aggregation.py:84 | two rows of one group and a row of another give the pair's mean and the single score |
| Consolidation.MmluSubtasksAveraged | evaluation/aggregation.py:76-84 | two MMLU subtask scores 0.6 and 0.8 become one `mmlu` score of 0.7, while `mmlu_pro` is kept apart |
| Consolidation.Rescale | evaluation/aggregation.py:86 | the rescale keeps the number of rows |
| Consolidation.RescaleSpec | evaluation/aggregation.py:86 | keys are kept, scores are multiplied by 100, distinct keys stay distinct, and fractions become percentages |
| Consolidation.MapScenarioNames | evaluation/aggregation.py:97 | fails exactly when some scenario has no display name, with a KeyError for the first such scenario; otherwise each row gets its scenario's display name |
| Consolidation.MapScenarioNamesDistinct | evaluation/aggregation.py:97 | since the display names are distinct, distinct keys stay distinct |
| Consolidation.RewriteModelIds | evaluation/aggregation.py:104-106 | the rewrite keeps the number of rows |
| Consolidation.RewriteModelIdSpec | evaluation/aggregation.py:104-106 | an id without the local checkpoint directory is kept; the directory followed by a name becomes the hub organisation followed by that name |
| Consolidation.RewriteModelIdsKeeps | evaluation/aggregation.py:104-106 | the rewrite touches only the model column |
| Consolidation.RewriteMergesKeys | evaluation/aggregation.py:100-106 | the rewrite runs after the duplicate check, so a local path and its hub name pass the check and then share a key |
| Reshape.MeltMembers | evaluation/aggregation.py:89-95 | the melted records are exactly the non-empty cells, each under its column's model and its row's scenario |
| Reshape.MeltDistinct | evaluation/aggregation.py:89-95 | with distinct model columns and distinct scenario rows, the melted records have distinct keys |
| Reshape.PivotSpec | evaluation/aggregation.py:126-128 | the pivot fails exactly on a repeated key; otherwise it has a row for exactly the models present and a cell for exactly the keys present, with that key's score |
| Reshape.PivotCell | evaluation/aggregation.py:126-128 | a successful pivot holds each row's score in the cell of its model and scenario |
| Reshape.MeltPivotRoundTrip | evaluation/aggregation.py:89-95 | melting the paper table and pivoting it back gives every non-empty cell and only those |
| WinRate.CountBelow | evaluation/aggregation.py:112 | the number of beaten values never exceeds the series length |
| WinRate.CalculateWinRate | evaluation/aggregation.py:108-115 | fails the assertion with its message exactly on a series of at most one entry; otherwise returns one win rate per entry |
| WinRate.CalculateWinRateBounds | evaluation/aggregation.py:108-115 | every win rate lies in [0, 1] |
| WinRate.CalculateWinRateOrder | evaluation/aggregation.py:111-113 | a strictly higher score gets a strictly higher win rate |
| WinRate.CalculateWinRateMonotone | evaluation/aggregation.py:111-113 | a score no higher than another gets a win rate no higher |
| WinRate.CalculateWinRateExtremes | evaluation/aggregation.py:111-113 | the lowest score gets 0 and a score above all others gets 1 |
| WinRate.TiedScenario | evaluation/aggregation.py:111-113 | when every score of a series is equal, every win rate is 0 |
| WinRate.ScenarioScores | evaluation/aggregation.py:117 | a scenario's series is non-empty exactly when some row has that scenario |
| WinRate.GroupSize | evaluation/aggregation.py:117 | a row's scenario series has at most one entry exactly when no other row shares the scenario |
| WinRate.WinRatesError | evaluation/aggregation.py:109-117 | the win-rate column fails exactly when some scenario has a single row, with the assertion's message |
| WinRate.WinRatesBounds | evaluation/aggregation.py:117 | every row's win rate lies in [0, 1] |
| WinRate.WinRatesOrder | evaluation/aggregation.py:117 | within a scenario a row has a lower win rate than another exactly when it has a lower score, and equal scores get equal win rates |
| WinRate.WinRatesMinimum | evaluation/aggregation.py:117 | the lowest score of a scenario has win rate 0 |
| WinRate.UniqueModels | evaluation/aggregation.py:120 | the models of the rows, each exactly once |
| WinRate.ModelWinRates | evaluation/aggregation.py:120 | each entry is the win rate of a row of that model, and every such row contributes |
| WinRate.ModelWinRatesCount | evaluation/aggregation.py:120 | a model has exactly as many win rates as it has rows |
| WinRate.ModelWinRatesMultiplicity | evaluation/aggregation.py:120 | each value occurs among a model's win rates exactly as often as the model's rows carry it, so they are its rows' win rates as a multiset |
| WinRate.MeanWinRates | evaluation/aggregation.py:119-122 | one "MWR" row per model |
| WinRate.MeanWinRatesModels | evaluation/aggregation.py:119-123 | the "MWR" rows have distinct keys, all with scenario "MWR", for exactly the models of the table |
| WinRate.MeanWinRateOfModel | evaluation/aggregation.py:119-122 | each model of the table has an "MWR" row holding the mean of exactly its rows' win rates |
| WinRate.MeanWinRatesBounds | evaluation/aggregation.py:120-122 | every mean win rate lies in [0, 1] |
| Aggregation.PivotHasMeanWinRates | evaluation/aggregation.py:117-128 | whenever the pivot succeeds, every model has an "MWR" cell in [0, 1] |
| Aggregation.PivotMeanWinRateCell | evaluation/aggregation.py:119-136 | in the pivoted table, every model's "MWR" cell is the mean of the win rates of exactly that model's rows |
| Aggregation.AddWinRatesAndPivot | evaluation/aggregation.py:117-128 | the win-rate error propagates; otherwise the result is the pivot of the table with its "MWR" rows, and every pivoted model has an "MWR" cell in [0, 1] |
| Aggregation.MeanWinRateCollision | evaluation/aggregation.py:122-128 | a table that already has an "MWR" scenario collides with the mean win rates and the pivot fails |
| Aggregation.GetResultsDf | evaluation/aggregation.py:14-136 | an extraction error propagates; no records gives a KeyError on "scenario" (the first column the source reads, evaluation/aggregation.py:79); conflicting extracted duplicates give the inconsistency error; a result has an "MWR" cell in [0, 1] for every model |
| PrettyNames.LowerAll | evaluation/pretty_names.py:5 | every character lower-cased, the length kept |
| PrettyNames.GetPrettyName | evaluation/pretty_names.py:1-7 | a curated name maps to its table entry; any other name is returned capitalised, with the same letters up to case |
| PrettyNames.CapitalizeIdempotent | evaluation/pretty_names.py:5 | capitalising twice is capitalising once |
| PrettyNames.Name2TagInjective | evaluation/pretty_names.py:10-26 | distinct curated scenarios get distinct display names |
| Runner.SanitizeModelId | evaluation/runner.py:119-120 | same length; every `/` and `:` becomes `_` and every other character is kept, so the result has neither separator |
| Runner.SanitizeIdempotent | evaluation/runner.py:119-120 | sanitising twice is sanitising once |
| Runner.FlattenMembers | evaluation/runner.py:132-137 | a subtask is done exactly when some result file reports it |
| Runner.CollectDoneSubtasks | evaluation/runner.py:132-137 | the loop collects the keys of every result file, file after file |
| Runner.SelectSubtasksSpec | evaluation/runner.py:139-146 | with a request, the selection is exactly the requested subtasks the task has, in requested order; without one it is all the task's subtasks |
| Runner.RemainingSubtasksSpec | evaluation/runner.py:148-150 | the remaining subtasks are exactly the selected ones no result file reports, in selection order |
| Runner.AllDoneNothingToRun | evaluation/runner.py:148-156 | when every subtask of the task is reported by some result file, nothing remains to run |
| Runner.JoinSplit | evaluation/runner.py:195 | splitting the `--tasks` argument on commas gives back the joined subtasks, as long as no name contains a comma |
| Runner.ModelArgsSpec | evaluation/runner.py:163-171 | only precisions 4, 8 and 16 are accepted, others raise NotImplementedError; an accepted one names the checkpoint first and selects its own loading option |
| Runner.BaseCommand | evaluation/runner.py:173-203 | the fixed part of the command has 28 items, with the harness entry point joined below the given checkout |
| Runner.JobCommandErrors | evaluation/runner.py:163-189 | the command is built exactly when the precision is supported and the harness path is given; an unsupported precision is reported first, and a missing path is the TypeError of the join |
| Runner.JobCommandLayout | evaluation/runner.py:173-212 | the job is named task, then `_`, then model id; it carries the model arguments, the joined remaining subtasks (recoverable by splitting) and the sanitised output path; `--limit` and `--num_fewshot` follow, each only when non-zero |
| Runner.OutputPathSpec | evaluation/runner.py:126 | the output directory is one component below the output root, named by the sanitised id |
| Runner.RunJob | evaluation/runner.py:123-214 | a missing cache variable is a KeyError; nothing remaining returns None before the precision is looked at; otherwise the precision error, then the TypeError of a missing harness path, or the command is returned |

## Left out

- Reading files is not modelled: directory globbing, JSON and CSV parsing, and `argparse`. Artifacts, result-file keys, the paper table and the options are inputs instead.
- The `scenario2metric` table comes from `metrics_mapping`, which is not part of this model. It is an input map.
- Rounding is not modelled. `round(2)` on the combined scores is left out, since exact reals have no float rounding. It sits between the second duplicate check and the win rates; ties created only by rounding are therefore not modelled.
- Floating point is not modelled. Scores are exact reals, and `normalize_within_range` with equal bounds is excluded by its precondition: there the source divides floats by zero and gets inf or nan.
- Row order from `groupby` is not modelled. `groupby().agg()` sorts its groups; the model keeps first-appearance order. The final pivot is a map, so the table itself does not depend on the order. Three things do. The first is which unnamed scenario the KeyError of `MapScenarioNames` names, when several have no display name. The second is which row the error of the second duplicate check (evaluation/aggregation.py:100-101) names, since that check raises on the first conflicting row in row order: with harness groups `(b, MMLU)` and `(a, GSM8K)`, in that order of appearance, each conflicting with a paper row, the source names `a` and GSM8K where the model names `b` and MMLU. The third is the index labels of the grouped rows, which the source's second duplicate check compares.
- Wrappers.Error: `Inconsistent` carries the model, scenario and score of the rejected row but not the list of partner scores (`other_scores`) that the ValueError message at evaluation/aggregation_utils.py:31-33 also prints. The error identifies the row; the message text is not modelled.
- Column names of the pivot are not modelled. The flattening of the pivot's column index, and its sorted column order, do not exist in a map of maps.
- `dropna` on the melted paper table is modelled as dropping the empty cells. A paper row without a scenario name cannot be represented.
- `str.capitalize` is modelled on ASCII letters only. Other characters are kept as they are.
- Logging is left out, including the skip messages of `run_job`.
- The job submission itself is left out: `get_job_id`, which calls the scheduler. `RunJob` returns the command it would submit.
- The main loop of `runner.py` is left out, along with `lsf_runner_utils.py`, `get_model_from_s3.py`, `upload_to_lh.py`, `serve_results.py` and `test_load_hf_model.py`. These are process, network and storage glue.
- Environment access is a parameter: `RunJob` receives the environment as a map.
- `os.path.join` is modelled for two POSIX components only.
- Rows are records with named fields rather than untyped dictionaries or DataFrame rows. DataFrame index labels are not carried through the pipeline; they are modelled only in `AggregationUtils.HandleDuplicatesAsWritten`, which takes them as an argument.
- Aggregation.GetResultsDf: its second duplicate check (evaluation/aggregation.py:100-101) is the corrected, position-based `HandleDuplicates`. As written, the source compares index labels there, and after the `concat` at evaluation/aggregation.py:98 a harness row and a paper row can share a label. On such an input the source keeps the first score silently, where the model returns the inconsistency error. That label-based behaviour is modelled only by `AggregationUtils.HandleDuplicatesAsWritten` (see Findings).
- Aggregation.GetResultsDf: does not state the exact table on success, only the error cases and the "MWR" guarantee. The exact table is the composition of the specification functions, each of which is stated on its own.
- ScoreExtraction.ExtractArtifact: assumes each artifact's key order is duplicate-free and matches its results map (`AllWellFormed`), as a JSON object guarantees.

## Findings

| source | as written | input that shows it | evidently intended | confidence | as-written member | corrected member |
|---|---|---|---|---|---|---|
| evaluation/aggregation_utils.py:22-26 | partners are found by excluding rows whose DataFrame index label equals the current row's label; after `pd.concat` without `ignore_index` (evaluation/aggregation.py:98) a harness row and a paper row can share a label | a harness row `(m, MMLU, 40)` and a paper row `(m, MMLU, 70)`, both labelled 0: each excludes the other, no error is raised and the first score is kept silently | every other row with the same key is a partner, whatever its label, so the pair is rejected as inconsistent | not executed | AggregationUtils.ConcatLabelsHideConflict | AggregationUtils.HandleDuplicates |
