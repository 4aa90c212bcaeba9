# dspy_metric_learning in Dafny

A model of the core of `metric_learner`, a library that turns a language
model into a learned scoring metric:

- **`MetricModule`** (`metric_module.dfy`, `prompt.dfy`, `score_parser.dfy`) builds a
  prompt from few-shot demonstrations, a template with `{input}` and
  `{prediction}` slots, an optional gold answer and a fixed closing
  instruction. It asks the language model once and parses the first number of
  the reply as a score in [0, 1]. Any other reply raises `ValueError`: there is
  no clamping and no default score.
- **`MetricDataManager`** (`store.dfy`) is a directory of JSON records, one per
  scored instance, modelled as a map from file name to entry. Its operations:
  - save under a name derived from the save time;
  - load, skipping unreadable files and sorting by datetime;
  - set the user score of the first record with a given datetime;
  - list the labelled records as examples.
- **`label_instances`** (`repl.dfy`) is the console session that asks the user
  to score each unlabelled instance. It reads the replies `skip`, `exit`,
  `help`, a number in [0, 1], an out-of-range number or anything else. Its
  effect is a sequence of `update_user_score` calls.
- **`optimization.py`** (`optimization.dfy`) covers:
  - the squared-error metric;
  - the empty-dataset guard and defaults of `optimize_metric_module`;
  - the statistics `MetricEvaluator.evaluate` reports (mse, mae, max_error,
    num_examples and the correlation fallbacks).

Each source file keeps its own form:

- `_build_prompt`, the store's methods, the labelling loop and the
  error-collecting loop of `evaluate` are methods with loops.
- Each such method is proved equal to a specification function: `BuiltPrompt`,
  `Loaded`, `AfterUpdate`, `Labeled`, `Session` and `Evaluation`.
- The lemmas state what the source promises about those functions.

The language model is an object that answers each prompt as a fixed function
does and logs the prompts it is sent. The metric module under evaluation and
Python's `float()` on a console reply are function parameters. The directory listing
(`os.listdir`) and the clock (`datetime.now().isoformat()`) are passed in as
values.

`wrappers.dfy` holds the `Option` and `Result` types. `text.dfy` holds
`strip`, `lower`, `replace` and Python's string order.

## Model

| member | source | states |
|---|---|---|
| Text.TrimStart | metric_learner/metric_module.py:93 | `lstrip` keeps a suffix of the string, removes only whitespace, and what remains does not start with whitespace |
| Text.TrimEnd | metric_learner/metric_module.py:93 | `rstrip` keeps a prefix of the string, removes only whitespace, and what remains does not end with whitespace |
| Text.Strip | metric_learner/metric_module.py:93 | `strip` never lengthens the string; what remains neither starts nor ends with whitespace, and it is empty exactly when the string is all whitespace. StripIdempotent and StripLower state how it composes |
| Text.Lower | metric_learner/repl_interface.py:39 | `lower` keeps the length. LowerIdempotent and StripLower state how it composes |
| Text.StrLe | metric_learner/data_manager.py:83 | Python's `<=` on strings, lexicographic by code point. It has no contract of its own: StrLeTotal and StrLeTransitive state that it orders every pair of keys and is transitive |
| Text.ReplaceChar | metric_learner/data_manager.py:50 | `replace` keeps the length, turns every occurrence of one character into the other, and leaves every other character alone |
| Text.StrLeTotal | metric_learner/data_manager.py:83 | any two sort keys are comparable |
| Text.StrLeTransitive | metric_learner/data_manager.py:83 | the sort-key order is transitive |
| Text.TrimStartLower | metric_learner/repl_interface.py:39 | left-stripping commutes with lower-casing |
| Text.TrimEndLower | metric_learner/repl_interface.py:39 | right-stripping commutes with lower-casing |
| Text.StripIdempotent | metric_learner/repl_interface.py:39 | stripping twice is stripping once |
| Text.StripLower | metric_learner/repl_interface.py:39 | `strip` and `lower` commute |
| Text.LowerIdempotent | metric_learner/repl_interface.py:39 | lower-casing twice is lower-casing once |
| Text.NormalizeIdempotent | metric_learner/repl_interface.py:39 | `.strip().lower()` applied to its own result changes nothing |
| Repl.Normalize | metric_learner/repl_interface.py:39 | `.strip().lower()` never lengthens a reply. NormalizeIdempotent states that it is idempotent, and ClassifyNormalized that every command is read through it |
| ScoreParser.DigitRun | metric_learner/metric_module.py:97 | the greedy `\d*` run from `i`, possibly empty: every character in it is a digit, and it stops at a non-digit or at the end |
| ScoreParser.MatchAt | metric_learner/metric_module.py:97 | a match at a position ends after it and within the text. What it matches is stated by MatchAtIsNumber, MatchAtIsLongest and MatchAtSomeIff |
| ScoreParser.NumberValue | metric_learner/metric_module.py:99 | `float(t)` of a number literal. It has no contract of its own: DecimalValue, NegatedValue and ParseDecimal state its value |
| ScoreParser.Search | metric_learner/metric_module.py:97 | `re.search` finds the leftmost position where the expression matches; no earlier position matches, and None means no position matches |
| ScoreParser.FractionValue | metric_learner/metric_module.py:99 | the digits after the decimal point are worth at least 0 and less than 1 |
| ScoreParser.ParseScore | metric_learner/metric_module.py:80-108 | a returned score lies in [0, 1]; a number outside the range is rejected with that value |
| ScoreParser.ScoreIn | metric_learner/metric_module.py:97-105 | after `strip`: a successful result is in [0, 1], and a range failure carries a value outside it |
| ScoreParser.MatchAtIsNumber | metric_learner/metric_module.py:97 | what the scanner matches at a position is a literal of `-?\d+\.\d+\|-?\d+` |
| ScoreParser.MatchAtIsLongest | metric_learner/metric_module.py:97 | no literal at that position is longer than the match, so the decimal form is preferred to the integer |
| ScoreParser.MatchAtSomeIff | metric_learner/metric_module.py:97 | a position matches exactly when a digit starts there, possibly after `-` |
| ScoreParser.StripKeepsDigits | metric_learner/metric_module.py:93 | `strip` neither adds nor removes digits |
| ScoreParser.NoMatchIffNoDigit | metric_learner/metric_module.py:97-98 | the search fails exactly when the text has no digit |
| ScoreParser.NoNumberIffNoDigit | metric_learner/metric_module.py:93-105 | "No number found" is raised exactly when the reply has no digit |
| ScoreParser.StripNumberText | metric_learner/metric_module.py:93 | a number literal is unchanged by `strip` |
| ScoreParser.ParseLiteral | metric_learner/metric_module.py:93-103 | a reply that is one literal parses to its value when that is in [0, 1], and is rejected as out of range otherwise |
| ScoreParser.DigitsBelowPow10 | metric_learner/metric_module.py:99 | n digits are worth less than 10^n |
| ScoreParser.DecimalValue | metric_learner/metric_module.py:99 | `float("w.f")` is the whole part plus the fraction |
| ScoreParser.ParseDecimal | metric_learner/metric_module.py:97-103 | a decimal reply `w.f` is accepted exactly when its value is in [0, 1], and then with that value |
| ScoreParser.ParseZeroPoint | metric_learner/metric_module.py:97-103 | `0.d…d` is always accepted, with the value of its fraction |
| ScoreParser.NegatedValue | metric_learner/metric_module.py:99 | a leading `-` negates the value |
| ScoreParser.NegativeRejected | metric_learner/metric_module.py:97-102 | a negative non-zero reply is rejected with its negative value, never clamped to 0 |
| Prompt.FormatSegment | metric_learner/metric_module.py:69 | a piece of the template fails exactly when it names a field other than `input` and `prediction` |
| Prompt.Format | metric_learner/metric_module.py:69 | `str.format(input=…, prediction=…)` fails exactly when some field is not supplied, and then with `KeyError` for the leftmost such field |
| Prompt.FormatAppend | metric_learner/metric_module.py:69 | formatting two joined templates joins the two results; a failure in the first part wins over one in the second |
| Prompt.FormatDefault | metric_learner/metric_module.py:24-28 | the built-in template, filled in, is the fixed sentence with the prediction and the input in place |
| Prompt.GoldSentence | metric_learner/metric_module.py:72-73 | the gold sentence is present exactly when the gold answer is truthy |
| Prompt.DemoEntries | metric_learner/metric_module.py:58-64 | the demonstrations rendered in list order. It has no contract of its own: DemoEntriesFailure, DemoEntriesStep and DemoEntriesAppend state what it renders and how it fails |
| Prompt.BuiltPrompt | metric_learner/metric_module.py:52-78 | what `_build_prompt` returns or raises. It has no contract of its own: PromptFailsIff, PromptEndsWithTrailer, PromptWithoutDemos and PromptWithDemos state it |
| Prompt.DemoEntry | metric_learner/metric_module.py:60-64 | a demonstration renders exactly when it has `input`, `prediction` and `user_score` |
| Prompt.DemoEntriesFailure | metric_learner/metric_module.py:59-64 | the demonstration block fails exactly when some demonstration fails, and then with the first failing one's error |
| Prompt.DemoEntriesStep | metric_learner/metric_module.py:59-64 | rendering one more demonstration appends its entry, or fails with its error |
| Prompt.AccumulateEntry | metric_learner/metric_module.py:59-64 | the accumulator extended by entry `i` holds the first `i + 1` entries |
| Prompt.FirstBadDemo | metric_learner/metric_module.py:59-64 | the first demonstration that cannot be rendered decides the error of the whole block |
| Prompt.DemoEntriesFailurePersists | metric_learner/metric_module.py:59-64 | once a prefix of the demonstrations fails, the whole list fails the same way |
| Prompt.DemoEntriesAppend | metric_learner/metric_module.py:59-64 | the block for a joined list is the two blocks joined |
| Prompt.ExamplesSection | metric_learner/metric_module.py:57-66 | no demonstrations give an empty section |
| Prompt.PromptEndsWithTrailer | metric_learner/metric_module.py:76-78 | every built prompt ends with "Provide only a number between 0 and 1 as your response." |
| Prompt.PromptFailsIff | metric_learner/metric_module.py:52-78 | the build fails exactly when a demonstration lacks `input`, `prediction` or `user_score`, or the template names another field |
| Prompt.PromptWithoutDemos | metric_learner/metric_module.py:57-76 | without demonstrations the prompt is the filled template, then the gold sentence only for a non-empty gold, then the trailer |
| Prompt.PromptWithDemos | metric_learner/metric_module.py:57-66 | with demonstrations the prompt starts with the header, every demonstration in list order, and the transition line |
| Prompt.DefaultPrompt | metric_learner/metric_module.py:24-28 | a default module with no gold answer sends exactly the filled-in built-in sentence and the trailer |
| Prompt.GoldFieldFails | metric_learner/metric_module.py:69 | a template naming `{gold}` raises `KeyError('gold')` |
| Metric.Score | metric_learner/metric_module.py:32-50 | a successful `forward` result lies in [0, 1]; a range failure carries a value outside it |
| Metric.LanguageModel.constructor | metric_learner/metric_module.py:21 | a model that has been sent no prompt yet |
| Metric.LanguageModel.Call | metric_learner/metric_module.py:48 | `lm(prompt)` answers as the model's function does and logs exactly that prompt |
| Metric.MetricModule.constructor | metric_learner/metric_module.py:11-30 | the demonstrations default to none, and the template defaults to the built-in one |
| Metric.MetricModule.BuildPrompt | metric_learner/metric_module.py:52-78 | the string built by appending piece by piece is `BuiltPrompt`, or its first `KeyError` |
| Metric.MetricModule.Forward | metric_learner/metric_module.py:45-50 | `forward` returns `Score` of the model's answers; the model's prompt log grows by exactly the built prompt, or not at all when the build fails |
| Metric.ScoreIsParsedReply | metric_learner/metric_module.py:45-50 | `forward` succeeds exactly when the prompt builds and the model's reply parses, and it returns the parsed reply |
| Metric.NoDigitNoScore | metric_learner/metric_module.py:97-105 | a reply without a digit makes `forward` fail with "no number", never a default score |
| Metric.ScoreDependsOnReply | metric_learner/metric_module.py:45-49 | two models that answer the built prompt alike give the same result |
| Store.FileName | metric_learner/data_manager.py:50-51 | the file name is the datetime with every `:` and `.` turned into `-`, followed by `.json` |
| Store.NewInstance | metric_learner/data_manager.py:40-47 | a saved record has no user score and carries the save time |
| Store.SortKey | metric_learner/data_manager.py:83 | the key `x.get("datetime", "")`. It has no contract of its own: SortByDatetimeCorrect and LoadedContents state the order it gives |
| Store.Readables | metric_learner/data_manager.py:73-80 | at most one record per listed name. ReadablesMembers and ReadablesCount state which records and how many times each |
| Store.Insert | metric_learner/data_manager.py:83 | inserting makes the list one longer. InsertPermutes and InsertSorted state what it keeps |
| Store.SortByDatetime | metric_learner/data_manager.py:83 | sorting keeps the length. SortByDatetimeCorrect states that the result is a non-decreasing permutation |
| Store.Loaded | metric_learner/data_manager.py:73-83 | one record per readable listed `.json` file, so never more than the listing. LoadedContents states which records, how many times each, and their order |
| Store.FirstMatch | metric_learner/data_manager.py:96-105 | the first listed readable `.json` record with this datetime; None exactly when no listed file matches |
| Store.AfterUpdate | metric_learner/data_manager.py:105-113 | the same file names; only the first match changes, and only its user score is set |
| Store.Unlabeled | metric_learner/repl_interface.py:14 | keeps exactly the instances that have no user score |
| Store.UnlabeledAppend | metric_learner/repl_interface.py:14 | the filter keeps load order: the unlabelled part of a joined list is the joined unlabelled parts |
| Store.ToExample | metric_learner/data_manager.py:133-138 | the example built from a scored record. It has no contract of its own: LabeledMembers states which examples the dataset holds |
| Store.Labeled | metric_learner/data_manager.py:129-140 | the labelled list is never longer than the loaded one. LabeledAppend, LabeledCount and LabeledMembers state its order, size and members |
| Store.MetricDataManager.constructor | metric_learner/data_manager.py:14-24 | a manager over the metric's directory and its existing files, with no `update_user_score` call made yet |
| Store.MetricDataManager.SaveInstance | metric_learner/data_manager.py:26-57 | writes, or overwrites, the record under `FileName(now)` and returns that name; no other file changes, and the call log is unchanged |
| Store.MetricDataManager.LoadInstances | metric_learner/data_manager.py:59-83 | the loop over the listing, followed by the sort, returns `Loaded` |
| Store.MetricDataManager.UpdateUserScore | metric_learner/data_manager.py:85-117 | returns True exactly when some listed record has this datetime, and the directory becomes `AfterUpdate`; the manager's call log gains exactly this call |
| Store.MetricDataManager.GetLabeledDataset | metric_learner/data_manager.py:119-142 | returns the labelled loaded records as examples, in load order |
| Store.InsertPermutes | metric_learner/data_manager.py:83 | inserting adds exactly one element |
| Store.InsertSorted | metric_learner/data_manager.py:83 | inserting into a sorted list keeps it sorted |
| Store.SortByDatetimeCorrect | metric_learner/data_manager.py:83 | `sorted` by datetime gives a non-decreasing permutation of its input |
| Store.ReadablesMembers | metric_learner/data_manager.py:73-80 | a listed file contributes its record exactly when it is a readable `.json` file |
| Store.ReadablesCount | metric_learner/data_manager.py:73-80 | over a listing without repeats, each record is read once per listed file holding it |
| Store.LoadedContents | metric_learner/data_manager.py:59-83 | the loaded list is sorted by datetime, a missing one counting as ""; it holds exactly the readable `.json` records, each once per file that holds it |
| Store.SavedIsFound | metric_learner/data_manager.py:26-57 | after a save, `update_user_score` finds the record by its datetime |
| Store.SavedIsLoaded | metric_learner/data_manager.py:26-83 | after a save, the unlabelled record is among the loaded ones |
| Store.FirstMatchAfterUpdate | metric_learner/data_manager.py:105-113 | an update changes no datetime, so every later lookup finds the same file |
| Store.UpdateIdempotent | metric_learner/data_manager.py:85-117 | the same update twice is the update once |
| Store.LabeledAppend | metric_learner/data_manager.py:129-140 | the filter keeps the order: the labelled part of a joined list is the joined labelled parts |
| Store.LabeledCount | metric_learner/data_manager.py:129-131 | the labelled and unlabelled counts add up to the total; the labelled list is never longer, and is as long exactly when every record is scored |
| Store.LabeledMembers | metric_learner/data_manager.py:126-142 | the examples are exactly those built from the records that carry a user score |
| Repl.Classify | metric_learner/repl_interface.py:39-69 | an accepted reply's score lies in [0, 1] |
| Repl.Commands | metric_learner/repl_interface.py:39 | each reply is read in order, as `Classify` reads it |
| Repl.Label | metric_learner/repl_interface.py:27-69 | a pass makes at most one update per unlabelled instance |
| Repl.Session | metric_learner/repl_interface.py:11-73 | with nothing to label, no update; the closing count is the labelled and total counts of the list loaded at the start |
| Repl.ThenAppend | metric_learner/repl_interface.py:27-65 | helper: the calls made so far compose with those still to come |
| Repl.ApplyOneMore | metric_learner/repl_interface.py:60 | helper: one more update call is one more `AfterUpdate` |
| Repl.ApplyUpdates | metric_learner/repl_interface.py:56-65 | update calls never create or remove a file. ApplyOneMore states that each call is one more `AfterUpdate` |
| Repl.EndingOf | metric_learner/repl_interface.py:45-73 | the session completes exactly when the pass ran to its end, and then reports the labelled count, never above the total |
| Repl.LabelStep | metric_learner/repl_interface.py:38-69 | helper: a pass from reply `i` reads the command at `i` first |
| Repl.AskForScore | metric_learner/repl_interface.py:38-69 | the `while True` loop makes at most one `update_user_score` call, for the current instance, and the store's call log gains exactly the calls `done`; then it moves on or ends the session, as the pass `Label` says |
| Repl.LabelEach | metric_learner/repl_interface.py:27-69 | the `for` loop over the unlabelled instances: the store's call log gains exactly the `update_user_score` calls of the pass `Label`, in order, the directory ends as applying them one by one gives, and it stops as `Label` says |
| Repl.LabelInstances | metric_learner/repl_interface.py:1-73 | the store's call log gains exactly the `update_user_score` calls of `Session`, in order, and the directory ends as applying them one by one gives |
| Repl.UpdatesFollowInstances | metric_learner/repl_interface.py:27-65 | the updated datetimes are an in-order subsequence of the unlabelled instances' datetimes |
| Repl.SubsequenceDistinct | metric_learner/repl_interface.py:27-65 | a subsequence of distinct values is distinct, and draws only from them |
| Repl.NoRepeatedUpdates | metric_learner/repl_interface.py:27-65 | with distinct datetimes, no instance is updated twice, and every update names a presented instance |
| Repl.ScoresFromCommands | metric_learner/repl_interface.py:56-65 | a pass saves only scores that a command accepted |
| Repl.SavedScoresInRange | metric_learner/repl_interface.py:56-67 | every score the session saves is in [0, 1] |
| Repl.NothingUnlabeled | metric_learner/repl_interface.py:14-18 | with no unlabelled instance the session asks nothing and updates nothing |
| Repl.ClassifyNormalized | metric_learner/repl_interface.py:39 | replies are read after trimming and lower-casing |
| Repl.CommandsCons | metric_learner/repl_interface.py:39 | helper: the first reply is read first |
| Repl.ExitStops | metric_learner/repl_interface.py:45-47 | `exit` ends the session at once, with no further update |
| Repl.SkipMovesOn | metric_learner/repl_interface.py:41-43 | `skip` moves to the next instance without an update |
| Repl.RetrySameInstance | metric_learner/repl_interface.py:49-69 | `help`, an out-of-range number and a non-number keep the same instance, with no update |
| Repl.AcceptUpdatesOnce | metric_learner/repl_interface.py:56-65 | a number in [0, 1] makes exactly one update, keyed by the current instance's datetime, then moves on |
| Repl.LabelAccept | metric_learner/repl_interface.py:57-65 | helper: an accepted command at an instance with a datetime saves its score and moves on |
| Repl.ClosingCountExcludesSession | metric_learner/repl_interface.py:72-73 | a completed session reports the records labelled before it began, however many it saved |
| Optimization.GetLabeledDataset | metric_learner/optimization.py:4-14 | the store's labelled dataset, exactly the examples built from the loaded records with a user score |
| Optimization.MseMetric | metric_learner/optimization.py:16-30 | the negated squared error is never positive, and is zero exactly when the prediction equals the user score |
| Optimization.SquareSign | metric_learner/optimization.py:30 | helper: a square is non-negative, and positive unless its root is zero |
| Optimization.MseIgnoresTrace | metric_learner/optimization.py:16-30 | `trace` does not affect the metric |
| Optimization.MseMonotone | metric_learner/optimization.py:28-30 | moving the prediction further from the user score, on either side, never scores better |
| Optimization.ChosenMetric | metric_learner/optimization.py:50-51 | a supplied metric is used as given |
| Optimization.OptimizeMetricModule | metric_learner/optimization.py:32-66 | an empty dataset returns the very same module and builds no optimizer; otherwise it compiles on the whole dataset with the given optimizer, or `BootstrapFewShot` |
| Optimization.DefaultMetricIsMse | metric_learner/optimization.py:50-51 | without a metric of the caller's, `mse_metric` is the one used |
| Optimization.Abs | metric_learner/optimization.py:119 | `abs` is non-negative and is the value or its negation |
| Optimization.MaxAbs | metric_learner/optimization.py:120 | `max(abs(errors))` bounds every error's magnitude |
| Optimization.Errors | metric_learner/optimization.py:100-111 | one error per example, in order, each the model score minus the user score |
| Optimization.Evaluation | metric_learner/optimization.py:85-137 | the result is empty exactly for an empty dataset, and `num_examples` is the dataset length |
| Optimization.Summary | metric_learner/optimization.py:117-122 | the statistics dictionary has all its entries, with `num_examples` the number of errors |
| Optimization.UserScores | metric_learner/optimization.py:126 | one user score per example. CorrelationZeroIff states how the correlation uses it |
| Optimization.ModelScores | metric_learner/optimization.py:127 | one model score per example. CorrelationZeroIff states how the correlation uses it |
| Optimization.Mean | metric_learner/optimization.py:118-119 | `np.mean`. It has no contract of its own: MeanBelow, ErrorBounds and SpreadIffDistinct state what the model needs of it |
| Optimization.Variance | metric_learner/optimization.py:130 | the population variance is never negative. SpreadIffDistinct states when it is positive |
| Optimization.CorrelationOf | metric_learner/optimization.py:124-135 | one example gives correlation 0.0, and a computed correlation is over the two score lists as given. CorrelationZeroIff states exactly when it is 0.0 |
| Optimization.MetricEvaluator.constructor | metric_learner/optimization.py:74-83 | the evaluator keeps the module and the store |
| Optimization.MetricEvaluator.CollectErrors | metric_learner/optimization.py:100-111 | the loop collects `Errors` |
| Optimization.MetricEvaluator.Evaluate | metric_learner/optimization.py:85-137 | returns `Evaluation` of the store's labelled dataset |
| Optimization.SumAbsBounds | metric_learner/optimization.py:119 | the absolute errors sum to between 0 and n times their bound |
| Optimization.SquareBelow | metric_learner/optimization.py:118 | helper: a squared error is at most the square of its bound |
| Optimization.SumSquaresBounds | metric_learner/optimization.py:118 | the squared errors sum to between 0 and n times the squared bound |
| Optimization.MaxAbsAttained | metric_learner/optimization.py:120 | the largest magnitude is that of some error |
| Optimization.MeanBelow | metric_learner/optimization.py:118-119 | helper: the mean of values bounded by b is at most b |
| Optimization.ErrorBounds | metric_learner/optimization.py:117-122 | 0 <= mae <= max_error, and 0 <= mse <= max_error² |
| Optimization.SummaryBounds | metric_learner/optimization.py:117-122 | the same bounds, for any non-empty list of errors |
| Optimization.SquaredMeanBelow | metric_learner/optimization.py:118-120 | the mean squared error is at most the square of the largest magnitude |
| Optimization.MaxErrorAttained | metric_learner/optimization.py:120 | `max_error` is the error of some example, not only a bound |
| Optimization.PerfectModule | metric_learner/optimization.py:100-122 | a module that agrees with every user score reports mse = mae = max_error = 0 |
| Optimization.SumConstant | metric_learner/optimization.py:130 | helper: n equal values sum to n times the value |
| Optimization.DeviationsVanish | metric_learner/optimization.py:130 | helper: equal values have no deviation from their common value |
| Optimization.DeviationBelowSum | metric_learner/optimization.py:130 | helper: each squared deviation is at most their sum |
| Optimization.NonnegativeDeviations | metric_learner/optimization.py:130 | helper: the squared deviations sum to a non-negative number |
| Optimization.SpreadIffDistinct | metric_learner/optimization.py:130 | `np.std(xs) > 0` holds exactly when two scores differ |
| Optimization.CorrelationZeroIff | metric_learner/optimization.py:124-135 | `correlation` is 0.0 exactly when there is at most one example, or the user scores or the model scores are all the same |

## Left out

- The language model answers as a fixed function, and the metric module under evaluation is a pure function parameter. The network, dspy's `Module` machinery and any exception they raise are not modelled.
- `optimizer.compile` (dspy's `BootstrapFewShot` and what it learns) is a function parameter, as is the optimizer's construction. `dspy.Example` is a plain record. `metric_learner/learner.py` is not part of this model.
- File-system details are not modelled: the home-directory path, `makedirs`, JSON encoding and decoding, and the case where the directory is missing. The directory is a map from file name to entry, and a file that cannot be read or decoded is one entry kind.
- Store.MetricDataManager.LoadInstances: a record whose `datetime` is JSON `null` is not modelled; `datetime` is a string or a missing key. With such a record among two or more, the source's `sorted` raises `TypeError` comparing `None` with a key; the model has no such record, so `Loaded` always returns a list.
- Repl.Label: for the same reason a `null` datetime is not modelled in the session; the source would call `update_user_score(None, score)` and go on, where the model stops only for a missing key (`MissingDatetime`, the source's `KeyError`).
- A JSON file that decodes to something other than an object is modelled as `Unreadable`, which every operation skips. That matches `update_user_score`, whose `try` (metric_learner/data_manager.py:100-115) catches the `AttributeError` and moves on. It does not match `load_instances`, which keeps such a value and then raises `AttributeError` in the sort key (metric_learner/data_manager.py:83); that exception is not modelled.
- A record missing `input` or `prediction` is not modelled: an `Instance` always has both. In the source such a record loads; it raises `KeyError` only when `get_labeled_dataset` builds its example (metric_learner/data_manager.py:133-138, for a record with a user score) or when the session shows it (metric_learner/repl_interface.py:29-30).
- `os.listdir` order is the parameter `listing`, and `datetime.now().isoformat()` is the parameter `now`.
- Store.MetricDataManager.SaveInstance: returns the bare file name; the source returns it joined to the directory path.
- Console output is not modelled: the prompts, the help text, and the "saved" and "failed to save" messages. The session ignores `update_user_score`'s result, as the source does.
- Console replies are a finite sequence that is classified up front (`Commands`). The source reads them one at a time; running out of replies is `EOFError`, modelled as `InputExhausted`.
- Python's `float()` on a reply is the parameter `float` (None for `ValueError`). Its own syntax is not modelled: `inf`, `nan`, exponents, underscores.
- Repl.Classify: its contract states only the range of accepted scores. Which reply gives which command is stated by ExitStops, SkipMovesOn, RetrySameInstance and AcceptUpdatesOnce.
- Scores and errors are exact reals. IEEE rounding, and the float printed for a demonstration's rating, are not modelled. A demonstration's `input`, `prediction` and `user_score` are the text the f-string renders; its `gold` is None when the key is absent or the value is falsy, and otherwise the rendered text, so a falsy gold such as `0` or `False` gets no line, as in the source.
- The value of `np.corrcoef` is kept symbolic (`Pearson(users, models)`). Only when the correlation is computed rather than 0.0 is modelled. `np.std(xs) > 0` is modelled as a positive population variance.
- `evaluate` calls the metric module twice per example, once for the errors and once for the correlation, and the model does the same (`Errors` and `ModelScores`). Both calls give the same score only because the module is modelled as a pure function; a module whose answers vary between calls is not modelled.
- `str.format` is modelled on a template already split into literal pieces and `{name}` fields. Escaped braces, positional fields and format specifications are not modelled.
- Only ASCII is modelled: `\d` is ASCII digits, `strip` removes ASCII whitespace and `lower` folds ASCII letters.
- The text of exception messages is not modelled. A parse failure keeps only its cause (no number, or the out-of-range value), where the source re-raises every error as "Failed to parse score".
