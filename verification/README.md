# Agent-driver core, modelled in Dafny

Agent-driver runs language-model agents, singly or in batches, and keeps their context inside a token
budget. This project models the parts of it whose guarantees span loops, recursion or whole runs, and
proves those guarantees for every input, every schedule and every number of repetitions.

- **Batch runs** (`BatchContracts`, `BatchRetry`, `BatchScheduler`, `BatchRunner`). The coroutines of
  one batch share a semaphore, a spend counter and a store. They are a step system in which every task
  goes Waiting, Granted, InFlight, Done, Recorded. A step is a stretch of code between two awaits or a
  part of one, so every interleaving of the coroutines is a run here. The spend bound, exactly-once
  recording, deadlock freedom and the effect of resuming are proved over all runs. `BatchRunner.Run` is
  the whole call as imperative code under an arbitrary scheduler, proved to be such a run.
- **Order statistics** (`Percentile`). The type-7 percentile in exact reals, as an order statistic:
  monotone in both arguments, order free, within range, and characterised by counting.
- **Context budgeting** (`TokenEstimation`, `TokenPressure`, `RunBudget`, `Breakdown`,
  `Microcompaction`, `ToolArgTruncation`, `ToolContentShrink`, `Compress`). Estimates, the calibration
  average, the ladder of pressure states, and the lossy passes over messages.
- **History and streaming** (`Transcript`, `Sse`). Retry cuts against turn lookup, event cursors with
  real decimal printing and parsing, and SSE frames (section 9.2, Server-sent events, of the WHATWG HTML
  Living Standard) read with Python's line splitting.
- **Recognisers** (`EvalScoring`, `Validation`). The greedy subsequence scan and the metadata walk with
  one shared counter, each equal to a declarative definition.

`Prelude` holds sums over sequences and iteration, `Text` decimal printing, searching and stripping.

Code that updates variables or lists in the original is a method with a loop, or a class with fields,
proved equal to a function of its inputs; the theorems are then about that function.

## Where the code and its documentation part

Each of these is a theorem with the exact condition; where a promise fails, an input shows it.

- `batch/compress.py:67` promises messages that fit `max_tokens`. The result fits exactly when the input
  fits already or the marker-like turns of the assembled list do (`CompressedFitsIff`, `MarkerCanOverflow`).
- `context/breakdown.py:9-11` promises that the reported total is the number the trigger sees. They part
  for two reasons. The trigger divides by the calibrated ratio
  (`runtime/single_agent/llm_step/build.py:649`) while the breakdown always divides by four, so on string
  content they always agree only at the default ratio (`TotalEqualsTriggerIff`, `NeverDisagreesIff`,
  `CalibratedRatioDisagrees`). And the trigger renders a null or other falsy non-string content for which
  the breakdown counts nothing (`BreakdownAgreesIff`, `DefaultRatioAgreesIff`, `NullContentDisagrees`).
- The character budget that `context/run_budget.py:118` derives from the input tokens is rounded down, so
  a full one-token budget need not be blocking (`FullCharBudgetBlocksIff`, `OneTokenBudgetStaysOk`).
- `batch/compress.py` compressing its own output changes it when the marker alone is over budget
  (`CompressedStableIff`, `MarkerOverflowIsUnstable`).
- `chars_saved` of `context/tool_arg_truncation.py` counts a cut that changes nothing
  (`CutWithoutChangeIff`).
- `context/tool_arg_truncation.py:111-122` keeps structured values whole. A JSON string whose compact
  form is within the limit and whose text is not is cut (`StructuredKeptIff`, `PaddedJsonIsCut`).
- `adapters/sse.py:62-74` reads back what line 26 printed exactly when the JSON text holds none of the
  separators `str.splitlines` knows, as long as name and id bring no data line along; U+0085, U+2028 and
  U+2029 are printed raw (`FrameRoundTripIff`, `LineSeparatorCutsFrame`).
- `batch/runner.py:70-71` documents that resume skips by item. A batch interrupted with an item partly
  recorded therefore stays short of its repeats, and only then (`ResumeCompletesIff`,
  `PartlyRecordedStaysShort`).
- A clipped text can be longer than the original: by exactly how much was cut is settled in
  `ShrinkCanLengthen` and `ClipLength`.

## Model

| member | source | states |
|---|---|---|
| BatchScheduler.StepKeepsConsistent | agent_driver/batch/runner.py:88-107 | Every step keeps: at most `concurrency` slots held, spend is the sum of the finished runs' costs, each result belongs to its own task, a result without a query is the budget-skip record, and the log holds exactly the recorded results with multiplicity |
| BatchScheduler.RunIsConsistent | agent_driver/batch/runner.py:88-115 | That invariant holds in every state of every interleaving |
| BatchScheduler.StepKeepsBudget | agent_driver/batch/runner.py:91-104 | Every step keeps: nothing started, or spend plus in-flight runs times m stays below cap plus concurrency times m |
| BatchScheduler.SpendBound | agent_driver/batch/runner.py:73-107 | At every point of every run, spend equals the finished runs' costs and is below cap + concurrency·m; with a cap of zero or less it is zero |
| BatchScheduler.ClosedCapStartsNothing | agent_driver/batch/runner.py:93-101 | A cap that is not positive lets no task query the agent in any run |
| BatchScheduler.WaveOvershoots | agent_driver/batch/runner.py:73-76 | A completed batch exists, started wave by wave as the event loop does, that spends n payments of q under the cap and then m for each run of the wave in flight |
| BatchScheduler.SpendBoundIsTight | agent_driver/batch/runner.py:73-76 | The bound is the least one: for every amount below cap + concurrency·m some completed batch spends more |
| BatchScheduler.SpendOnlyGrows | agent_driver/batch/runner.py:103-104 | Spend never falls along a run |
| BatchScheduler.SkipMeansCapReached | agent_driver/batch/runner.py:93-101 | In every state with a budget skip the cap is reached and stays reached |
| BatchScheduler.NoQueryAfterSkip | agent_driver/batch/runner.py:73-76 | After one budget skip the set of tasks that have queried the agent never changes again |
| BatchScheduler.RunLength | agent_driver/batch/runner.py:91-115 | Every schedule ends within four steps per task |
| BatchScheduler.Progress | agent_driver/batch/runner.py:91-115 | No deadlock: some step is enabled exactly when some task is not recorded |
| BatchScheduler.ExactlyOnce | agent_driver/batch/runner.py:105-115 | A completed batch's log is a permutation of the gathered results, one per task, each for its own item and repeat |
| BatchContracts.SkipTells | agent_driver/batch/runner.py:94-101 | The record of a task the cap turned away: its ids, status "skipped_budget", no answer, tools, tokens, cost or error |
| BatchRunner.BatchSession.constructor | agent_driver/batch/runner.py:88-89 | A new session is the initial state of the step system |
| BatchRunner.BatchSession.Acquire | agent_driver/batch/runner.py:93 | Taking a slot is the Grant step |
| BatchRunner.BatchSession.CheckCap | agent_driver/batch/runner.py:94-101 | The cap check is the Skip step exactly when the cap is reached, else the Start step |
| BatchRunner.BatchSession.Charged | agent_driver/batch/runner.py:103-104 | Adding the cost after the query is the Finish step |
| BatchRunner.BatchSession.Persist | agent_driver/batch/runner.py:105-107 | Appending the trajectory is the Record step, on the session and on the store |
| BatchRunner.Move | agent_driver/batch/runner.py:91-107 | Whatever a task does next is a transition of the step system; it queries only when it finishes, then between one and retries + 1 times, and leaves what the retry loop produces |
| BatchRunner.Drive | agent_driver/batch/runner.py:109-115 | Under any scheduler the session ends complete after a run of the step system, with the log appended to the store and between one and retries + 1 queries per task that asked |
| BatchRunner.Run | agent_driver/batch/runner.py:57-118 | The whole call: fewer than one repeat fails and changes nothing; otherwise a complete run over the items the resume filter leaves, total = pending × repeats = completed + failed, skipped + pending = items, tasks ≤ queries ≤ (retries + 1) × tasks, the store grows by the log, and report and spend are those of the deciding outcomes |
| BatchRunner.OutcomesAreReported | agent_driver/batch/contracts.py:132-161 | In terms of the agent alone: completed counts the tasks whose deciding attempt returned status "completed"; each status counts the tasks it ended, raised ones as "error" and tasks not queried as "skipped_budget"; tokens, tools and spend are sums over the returned outputs |
| BatchRunner.TasksAreTold | agent_driver/batch/runner.py:91-107 | At the end of a complete batch every record tells what decided its own task |
| BatchRunner.BatchSpendBound | agent_driver/batch/runner.py:73-104 | When each agent output costs at most m, the trajectories of one call together cost less than cap + concurrency·m, for any schedule |
| BatchRunner.CompletedBatchLogsEveryItem | agent_driver/batch/runner.py:105-115 | After a completed batch every pending item's id is in the log |
| BatchRunner.RunThenResume | agent_driver/batch/runner.py:80-86 | Running a batch and running it again with resume: the second call queries the agent zero times, records nothing and reports every item as skipped |
| BatchRunner.CompletedBatchRunsPerItem | agent_driver/batch/runner.py:68-71 | A completed batch logs, for every id and every repeat below `repeats`, exactly one run per pending item with that id, repeated ids included, and nothing else |
| BatchRunner.DistinctMeansOneCopy | agent_driver/batch/runner.py:68-71 | With distinct ids that is exactly one run per (item, repeat) |
| BatchRunner.ResumeAfterInterrupt | agent_driver/batch/runner.py:69-86 | Interrupted anywhere and resumed to the end, an id has `repeats` runs per item carrying it when none were recorded before, else the number it had |
| BatchRunner.ResumeCompletesIff | agent_driver/batch/runner.py:69-86 | Resume completes the batch if and only if no id was left partly recorded |
| BatchRunner.PartlyRecordedStaysShort | agent_driver/batch/runner.py:69-86 | A concrete interruption after one of two repeats: resuming leaves the item at one run |
| BatchRetry.RunItem | agent_driver/batch/runner.py:120-174 | The run succeeds if and only if some attempt within the allowance returns after only transient failures; at most retries + 1 queries, one sleep per retried failure; the last query alone decides the record, which tells its output field by field, or status "error" with the error raised |
| BatchRetry.PauseDoubles | agent_driver/batch/runner.py:145-147 | The pauses before jitter start at the backoff and double |
| BatchRetry.RunIdsOfItemDiffer | agent_driver/batch/runner.py:121-125 | No two repeats of an item share a run id |
| BatchRetry.DecidingAttempt | agent_driver/batch/runner.py:132-147 | Success is settled exactly at the attempt where the loop stops |
| BatchRetry.MoreRetriesKeepSuccess | agent_driver/batch/runner.py:132-147 | A larger allowance never loses a success nor changes which attempt delivers it |
| BatchContracts.InMemoryTrajectoryStore.constructor | agent_driver/batch/store.py:28-30 | A new store is empty |
| BatchContracts.InMemoryTrajectoryStore.Append | agent_driver/batch/store.py:32-40 | Append adds one trajectory at the end and exactly its item id to the recorded ids |
| BatchContracts.FromTrajectories | agent_driver/batch/contracts.py:132-161 | total is the number of trajectories and equals completed + failed; the status histogram, the counters of tools, policy decisions and trace violations, and the token total count exactly what the trajectories hold |
| BatchContracts.FailedOf | agent_driver/batch/contracts.py:132-161 | Summing the histogram over the other statuses, in any order, gives every trajectory that is not completed |
| Percentile.SortMonotone | agent_driver/evals/aggregate.py:32 | Sorting preserves pointwise dominance |
| Percentile.AscendingUnique | agent_driver/evals/aggregate.py:32 | Two ascending arrangements of the same values are one list |
| Percentile.PercentileMonotoneInQ | agent_driver/evals/aggregate.py:22-39 | Monotone in q for every list, the empty one included |
| Percentile.PercentileMonotoneInValues | agent_driver/evals/aggregate.py:22-39 | Raising any values never lowers a percentile |
| Percentile.PercentileOrderFree | agent_driver/evals/aggregate.py:22-39 | The order of the input does not matter, for any q, the refused ones included |
| Percentile.PercentileInRange | agent_driver/evals/aggregate.py:22-39 | Every percentile lies between the minimum and the maximum |
| Percentile.PercentileSplitsValues | agent_driver/evals/aggregate.py:22-39 | With the rank between low and high, more than low values are at most the percentile and at least n − high are at least it |
| Percentile.PercentileAtRank | agent_driver/evals/aggregate.py:35-39 | Where the rank is a whole number the percentile is that order statistic |
| Percentile.PercentileBetweenRanks | agent_driver/evals/aggregate.py:35-39 | Between two ranks it is on the line through those two order statistics |
| Percentile.RankMeans | agent_driver/evals/aggregate.py:35 | The rank is q hundredths of the way from the first of n values to the last |
| Percentile.PercentileEdges | agent_driver/evals/aggregate.py:28-31 | Empty input gives zero for any q; otherwise exactly a q outside [0, 100] is refused |
| Percentile.PercentileLinear | agent_driver/evals/aggregate.py:35-39 | Between neighbouring order statistics the percentile is linear in q |
| Percentile.SummaryOrdered | agent_driver/evals/aggregate.py:53-67 | In every summary minimum ≤ p5 ≤ median ≤ p95 ≤ maximum, and the mean lies in the range |
| Percentile.SummaryMeans | agent_driver/evals/aggregate.py:53-67 | n is the number of filled entries; minimum and maximum are the extremes of the present values and the mean times n is their sum; nothing present gives zeros |
| Percentile.MedianHalves | agent_driver/evals/aggregate.py:62 | At least half of the present values are at or below the median and at least half at or above; it is the middle one of an odd count and the mean of the middle two of an even one |
| Percentile.SummaryTails | agent_driver/evals/aggregate.py:63-64 | p5 and p95 are the values 0.05 and 0.95 of the way through the sorted present values |
| Percentile.PresentCount | agent_driver/evals/aggregate.py:56 | One present value per filled entry |
| Percentile.PresentExact | agent_driver/evals/aggregate.py:56 | Each value is present as often as entries hold it |
| Compress.GeneratedMarkerRecognised | agent_driver/batch/compress.py:49-57 | Every generated elision marker is recognised as one |
| Compress.MarkerInjective | agent_driver/batch/compress.py:49-57 | Equal markers stand for the same number of turns and of tokens |
| Compress.MarkerOfItselfIff | agent_driver/batch/compress.py:49-57 | The marker of a marker is itself if and only if it stands for one turn of fifteen tokens |
| Compress.CutTextIsNoMarker | agent_driver/batch/compress.py:36-46 | Cutting the middle out of a text never makes it look like a marker |
| Compress.TruncateTurnKeepsKind | agent_driver/batch/compress.py:145-160 | Truncation keeps marker-like turns untouched and turns no other turn into one |
| Compress.TruncationBound | agent_driver/batch/compress.py:124-155 | Truncated totals lie between the marker-like tokens and the larger of those and the budget |
| Compress.EvenSplit | agent_driver/batch/compress.py:138-155 | What the markers leave is split evenly among the n other turns: with k·n ≤ room < (k + 1)·n, a turn over k tokens keeps exactly k and a turn of at most k is kept whole |
| Compress.TruncationUsesBudget | agent_driver/batch/compress.py:138-155 | When every such turn overflows, the total falls short of the budget by less than one token per turn |
| Compress.TokensRoundUp | agent_driver/batch/compress.py:27-33 | A text counts a quarter of its length in tokens, rounded up |
| Compress.TruncatedTurnKeepsEnds | agent_driver/batch/compress.py:36-46 | A truncated turn has exactly its share of characters: its own head and tail around the cut mark, or its head alone where the mark does not fit |
| Compress.TruncateMessagesToFit | agent_driver/batch/compress.py:124-155 | In place, each turn becomes its truncation, and `changed` is true exactly when some turn differs |
| Compress.CompressTrajectory | agent_driver/batch/compress.py:60-121 | Fails exactly on a budget that is not positive or a negative keep count; otherwise the compressed turns and the record of what was done |
| Compress.CompressedRecord | agent_driver/batch/compress.py:82-121 | A recording that fits is returned as it is; otherwise the record holds the counts and tokens before and after, the number elided, the budget, and whether any text was cut |
| Compress.CompressedStages | agent_driver/batch/compress.py:82-104 | Turns that fit stay; turns that fit once the middle is elided are not cut; only otherwise are those that remain truncated |
| Compress.AssembledTurns | agent_driver/batch/compress.py:85-99 | The first and last turns as they were with one marker for those between, or the whole list when there are none |
| Compress.MarkerText | agent_driver/batch/compress.py:49-57 | The marker is a system turn with the number of turns and tokens dropped in its fixed text |
| Compress.MarkerLooks | agent_driver/batch/compress.py:158-160 | A turn looks like a marker if and only if it starts with the opening and holds the phrase somewhere |
| Compress.ElisionPartitions | agent_driver/batch/compress.py:87-96 | Kept head, dropped middle and kept tail are the original list, and the marker adds its tokens to the marker-like ones |
| Compress.CompressedFitsIff | agent_driver/batch/compress.py:60-121 | The result fits the budget if and only if the input fits or the marker-like turns do; it never exceeds the larger of the budget and those turns |
| Compress.CompressedStableIff | agent_driver/batch/compress.py:60-121 | Compressing again changes nothing if and only if the first result fits, or nothing was elided, or exactly one turn of fifteen tokens was |
| Compress.MarkerCanOverflow | agent_driver/batch/compress.py:67 | Three one-token turns under a budget of two become fifteen tokens |
| Compress.MarkerOverflowIsUnstable | agent_driver/batch/compress.py:60-121 | Compressing that trajectory again replaces its marker by a different one |
| Transcript.TruncateTranscriptForRetry | agent_driver/context/transcript.py:29-52 | The loop cuts before the user turn of the run's first position; an absent, empty or unknown id leaves everything |
| Transcript.TurnTextForRun | agent_driver/context/transcript.py:76-100 | The loop finds the user turn at the run's first position and the assistant row next to it |
| Transcript.TurnTextMeans | agent_driver/context/transcript.py:76-100 | The turn of the k-th run is the text of the user row with k user rows before it and of the assistant row right after it; no such row or run gives nothing |
| Transcript.RetryMeans | agent_driver/context/transcript.py:29-52 | Retrying from the k-th run keeps the rows before that user row, or all, and the first k runs; an absent, empty or unknown id keeps everything |
| Transcript.RetryAgreesWithLookup | agent_driver/context/transcript.py:29-100 | After a retry cut, runs first seen before it look up the same turn, all other ids none, and min(user turns, i) user turns are left, repeated run ids included |
| Transcript.CutIsMaximal | agent_driver/context/transcript.py:29-52 | One row more would hold a user turn too many |
| Transcript.RetryIdempotent | agent_driver/context/transcript.py:29-52 | Cutting again at the same id changes nothing |
| Transcript.RetryComposes | agent_driver/context/transcript.py:29-52 | A retry from a later run followed by one from an earlier run is the earlier retry |
| Transcript.RequestsFollowRetry | agent_driver/context/transcript.py:63-73 | After a retry a client request survives exactly when its run was first seen before the cut, whether or not it was filtered before |
| ToolContentShrink.ShrinkValue | agent_driver/context/tool_content_shrink.py:34-57 | The recursive loops give the shrunk tree, and `changed` is true exactly when it differs |
| ToolContentShrink.ShrinkJsonToolContent | agent_driver/context/tool_content_shrink.py:60-84 | Content that opens and reads as a container is shrunk, printed only when changed; everything else is refused |
| ToolContentShrink.ContentMeans | agent_driver/context/tool_content_shrink.py:70-84 | Refused if and only if no bracket comes first after white space or it does not read as a list or object; the content itself when nothing changes, else the shrunk value printed |
| ToolContentShrink.MarkedIsRecognised | agent_driver/context/tool_content_shrink.py:30-31 | Text ending in a generated marker is recognised as marked, for every dropped count |
| ToolContentShrink.MarkerRecognisedIff | agent_driver/context/tool_content_shrink.py:30-31 | A text is taken as marked if and only if it ends in the opening, a count in digits and the closing, perhaps before a line feed |
| ToolContentShrink.OversizedMeansChange | agent_driver/context/tool_content_shrink.py:34-40 | A leaf changes exactly when it is over budget and unmarked |
| ToolContentShrink.ShrinkKeepsShape | agent_driver/context/tool_content_shrink.py:34-57 | Same keys in order, list lengths and scalars at every depth; each string leaf is itself or its own head plus the marker with the true count |
| ToolContentShrink.ShrinkIdempotent | agent_driver/context/tool_content_shrink.py:34-57 | Shrinking a shrunk tree returns the same tree |
| ToolContentShrink.ShrinkKeepsWellFormed | agent_driver/context/tool_content_shrink.py:34-57 | Distinct keys and printed number texts stay so at every depth |
| ToolContentShrink.ShrinkCanLengthen | agent_driver/context/tool_content_shrink.py:34-40 | A clipped leaf is longer than the original if and only if at most 11 characters were dropped, shorter if and only if at least 13; under a negative budget, longer if and only if fewer characters went than the marker has |
| ToolContentShrink.ContentShrinkIdempotent | agent_driver/context/tool_content_shrink.py:60-84 | For a reader that gives well-formed values and reads back those it prints: what comes back reads as the shrunk value and is returned as it is by a second pass |
| TokenEstimation.EstimateMonotone | agent_driver/context/token_estimation.py:38-42 | More characters never give fewer tokens, at any ratio |
| TokenEstimation.EstimateDefault | agent_driver/context/token_estimation.py:38-42 | At the default ratio the estimate is integer division by four |
| TokenEstimation.BudgetRoundTrip | agent_driver/context/token_estimation.py:38-54 | The estimate of the character budget for t tokens is t or t − 1, and t exactly when t times the ratio is whole |
| TokenEstimation.RatioBounded | agent_driver/context/token_estimation.py:106-119 | Over any responses the ratio stays in [2, 8], from any start after the first one |
| TokenEstimation.StartForgotten | agent_driver/context/token_estimation.py:106-119 | Two calibrations from different starts differ after k valid responses by exactly k shrinkings of their gap by 0.7 |
| TokenEstimation.ShrinkIsDecay | agent_driver/context/token_estimation.py:106-119 | k shrinkings multiply the gap by 0.7^k |
| TokenEstimation.SteadyContentConverges | agent_driver/context/token_estimation.py:106-119 | When every valid response has characters = truth × tokens, the error against the truth, or the nearer of 2 and 8 outside the range, is exactly k shrinkings of the initial error |
| TokenEstimation.CalibrateMeans | agent_driver/context/token_estimation.py:106-119 | One response with characters = truth × tokens gives 0.7 prior + 0.3 truth, with 2 or 8 in its place outside the range; one without tokens or characters changes nothing |
| TokenPressure.StateIsHighestTrigger | agent_driver/context/token_pressure.py:134-154 | The state is the highest one whose own condition holds, whatever the order of the thresholds |
| TokenPressure.StateMonotoneInTokens | agent_driver/context/token_pressure.py:134-158 | More tokens never lower the state, through division and rounding |
| TokenPressure.PressureMonotone | agent_driver/context/token_pressure.py:44-115 | Adding messages, schemas or observations anywhere never lowers the estimate or the state |
| TokenPressure.RequestGrows | agent_driver/context/token_pressure.py:46-66 | A further message counts its content and metadata, a schema its text, an observation its content, each in full and nothing else |
| TokenPressure.UsageMeans | agent_driver/context/token_pressure.py:71-76 | The usage is the used share of the window to four places, and absent without a window |
| TokenPressure.RoundMeans | agent_driver/context/token_pressure.py:73 | Rounding goes to the nearest, and from a half to the even number |
| RunBudget.ScaledCapMeaning | agent_driver/context/run_budget.py:24-34 | The scaled cap is the least whole number covering the proportional share, between the declared value and the ceiling |
| RunBudget.ScaledCapMonotone | agent_driver/context/run_budget.py:24-34 | A larger window never gets a smaller cap |
| RunBudget.ResolveMeans | agent_driver/context/run_budget.py:114-169 | Each cap is its own declaration, else its own default: kept when absent or negative, otherwise scaled to the window under its ceiling |
| RunBudget.ThresholdsMean | agent_driver/context/run_budget.py:170-172 | The thresholds are 3/4, 9/10 and 49/50 of the input tokens rounded down, at least one |
| RunBudget.CharBudgetsMean | agent_driver/context/run_budget.py:99-118 | The message budget is the window at the ratio and the summariser cap four fifths of it, both rounded down |
| RunBudget.CompactionMeans | agent_driver/context/run_budget.py:103-112 | The summariser budget is the declared one or the scaled default, within the cap |
| RunBudget.ThresholdsOrdered | agent_driver/context/run_budget.py:169-173 | 1 ≤ warning ≤ compact ≤ blocking ≤ input tokens, the last strict from two tokens on |
| RunBudget.FullWindowBlocks | agent_driver/context/run_budget.py:93-174 | An estimate that reaches the input tokens is blocking, whatever the ratio rungs |
| RunBudget.FullCharBudgetBlocksIff | agent_driver/context/run_budget.py:114-174 | A request that fills the resolved character budget is blocking if and only if the budget has two tokens or more, or the request holds a whole token, or the blocking rung is not positive |
| RunBudget.FullCharBudgetAlwaysBlocksIff | agent_driver/context/run_budget.py:114-174 | Every request that fills it is blocking if and only if the budget has two tokens or more, or the ratio is whole, or that rung is not positive |
| RunBudget.OneTokenBudgetStaysOk | agent_driver/context/run_budget.py:114-174 | At 2.5 characters per token two characters fill a one-token budget and the state is ok |
| RunBudget.CompactionWithinWindow | agent_driver/context/run_budget.py:99-112 | The summariser's input never exceeds the message budget, and is positive exactly when a cap or a positive default is given |
| Breakdown.EstimateContextBreakdown | agent_driver/context/breakdown.py:93-121 | The loop reports for each category the characters of its messages and tools, and their sum |
| Breakdown.CategoryGrows | agent_driver/context/breakdown.py:72-108 | A further message adds its content to the one category of its role and tag, system first, then scaffolding, then tool, and its metadata to the metadata; a further tool adds to the tool definitions |
| Breakdown.CategoriesPartition | agent_driver/context/breakdown.py:72-121 | The categories partition every character of the request |
| Breakdown.TokensFallShortByAtMostFour | agent_driver/context/breakdown.py:93-121 | Per-category tokens sum to the total or fall short of it by at most four |
| Breakdown.BreakdownAgreesIff | agent_driver/context/breakdown.py:36-40 | Breakdown and trigger count the same characters if and only if no message holds a falsy non-string content; else the trigger counts more |
| Breakdown.TotalEqualsTriggerIff | agent_driver/context/breakdown.py:93-121 | At any calibrated ratio the reported tokens are the trigger's if and only if the characters the trigger sees hold just that many tokens of that ratio |
| Breakdown.DefaultRatioAgreesIff | agent_driver/context/breakdown.py:93-121 | At the default ratio: if and only if the characters only the trigger counts complete no further group of four; always on string content |
| Breakdown.NeverDisagreesIff | agent_driver/context/breakdown.py:9-11 | The two agree on all string content if and only if the ratio is the default one |
| Breakdown.CalibratedRatioDisagrees | agent_driver/context/breakdown.py:93-121 | At two characters per token a four-character message shows one token and costs the trigger two |
| Breakdown.NullContentDisagrees | agent_driver/context/breakdown.py:36-40 | A message with null content shows no token and costs the trigger one |
| Microcompaction.CompactObservationRow | agent_driver/context/microcompaction.py:28-66 | The row, its audit entry and the saving, which is the preview's loss of length |
| Microcompaction.MicrocompactObservations | agent_driver/context/microcompaction.py:69-99 | The loop compacts the rows before the recent ones, audits each rewritten row in order, and its saving is the sum of the audit |
| Microcompaction.CompactRowMeans | agent_driver/context/microcompaction.py:28-66 | A row over the limit and longer than its stub gets the stub with its source, the truncated flag and both lengths; every other row stays |
| Microcompaction.CompactionAuditExact | agent_driver/context/microcompaction.py:84-99 | An entry is in the audit if and only if it names the ids and saving of a rewritten row before the recent ones |
| Microcompaction.CompactionConserves | agent_driver/context/microcompaction.py:28-99 | Preview characters before are those after plus the audited savings, each of them positive |
| Microcompaction.CompactionBounds | agent_driver/context/microcompaction.py:69-99 | Recent rows are untouched; an older row keeps its identity and ends within the limit or the stub's length |
| Microcompaction.CompactionIdempotent | agent_driver/context/microcompaction.py:69-99 | A second pass changes and saves nothing, even where the stub is over the limit |
| Microcompaction.CompactionComposes | agent_driver/context/microcompaction.py:69-99 | Passes with any two windows amount to one with the smaller |
| ToolArgTruncation.TruncateToolCallArgs | agent_driver/context/tool_arg_truncation.py:47-93 | Fails exactly on a negative limit; otherwise the clipped messages with the last protect_last as they were, the report that AuditExact and RetainedExact characterise, and chars_saved as the sum of the audited drops |
| ToolArgTruncation.ClippedHistory | agent_driver/context/tool_arg_truncation.py:61-88 | Message i is as it was when it is one of the last protect_last; every argument of each earlier message is clipped once and nothing else changes |
| ToolArgTruncation.ClipMeans | agent_driver/context/tool_arg_truncation.py:39-44 | A string over the limit that is not kept as structured becomes its first characters and the note of how many went; every other value stays |
| ToolArgTruncation.TruncateCalls | agent_driver/context/tool_arg_truncation.py:96-139 | The loops over calls and arguments give the clipped calls, their report in order and the sum of its drops |
| ToolArgTruncation.TruncateArg | agent_driver/context/tool_arg_truncation.py:110-138 | One argument: kept whole and reported, clipped and audited, or passed on |
| ToolArgTruncation.AuditExact | agent_driver/context/tool_arg_truncation.py:61-138 | An entry is in the audit if and only if its message is none of the last protect_last and passes that argument with a value cut by that many characters |
| ToolArgTruncation.RetainedExact | agent_driver/context/tool_arg_truncation.py:61-122 | An entry is among the values kept whole if and only if its message is none of the last protect_last and passes that argument with a structured value of that compact size over the limit |
| ToolArgTruncation.ReportedOnce | agent_driver/context/tool_arg_truncation.py:110-138 | No argument is reported both as cut and as kept, and one not reported as cut is unchanged |
| ToolArgTruncation.ClippingConserves | agent_driver/context/tool_arg_truncation.py:47-139 | Argument characters before are those after, plus chars_saved, less the markers written |
| ToolArgTruncation.CutWithoutChangeIff | agent_driver/context/tool_arg_truncation.py:39-44 | A reported cut leaves the text as it was if and only if it cuts the 27-character marker it writes, which every later pass reports as 27 characters saved |
| ToolArgTruncation.StructuredKeptIff | agent_driver/context/tool_arg_truncation.py:111-127 | A structured value is left whole if and only if it is no string, or its compact size is over the limit, or its text within it |
| ToolArgTruncation.PaddedJsonIsCut | agent_driver/context/tool_arg_truncation.py:111-127 | Seven characters of padded JSON are cut under a limit of four |
| ToolArgTruncation.ClipLength | agent_driver/context/tool_arg_truncation.py:39-44 | A clip lengthens the text if and only if it cut at most 26 characters |
| ToolArgTruncation.HeadSurvives | agent_driver/context/tool_arg_truncation.py:39-44 | After any number of passes a string still begins with its original first max_arg_chars characters; other values never change |
| ToolArgTruncation.ValueReachesFixpoint | agent_driver/context/tool_arg_truncation.py:39-44 | Every argument reaches a text that no further pass, of any number, changes |
| ToolArgTruncation.ThreePassesSuffice | agent_driver/context/tool_arg_truncation.py:39-44 | Three passes reach it unless the excess has more than 74 digits |
| ToolArgTruncation.PassesArePointwise | agent_driver/context/tool_arg_truncation.py:47-139 | Repeated passes act on each argument alone; names, calls, all other content and the last protect_last messages stay as they were |
| ToolArgTruncation.HistoryReachesFixpoint | agent_driver/context/tool_arg_truncation.py:47-139 | Every history reaches a state that no further pass changes |
| Sse.CursorRoundTrip | agent_driver/adapters/sse.py:46-59 | The run that minted a cursor reads its sequence number back, for every id and number |
| Sse.CursorRejectedElsewhere | agent_driver/adapters/sse.py:46-59 | Every other run reads None from it, colons in ids included |
| Sse.CursorInjective | agent_driver/contracts/harness_adapter.py:131-136 | Equal cursors come from the same run and number |
| Sse.CursorAcceptedIff | agent_driver/adapters/sse.py:46-59 | An id is accepted with a number if and only if it is the run, a colon and that integer, alone or in white space; an absent or empty one never is |
| Sse.NumeralsAreRead | agent_driver/adapters/sse.py:56-57 | Exactly digits with single underscores between them are read |
| Sse.NumeralValue | agent_driver/adapters/sse.py:56-57 | A further digit, after an underscore or not, adds its value to ten times the rest |
| Sse.ParsePayload | agent_driver/adapters/sse.py:62-74 | The loop decides by the first data line alone |
| Sse.SelectedAcross | agent_driver/adapters/sse.py:62-74 | Whatever separators two texts hold, a line feed between them keeps their lines apart for the parser |
| Sse.FrameSelects | agent_driver/adapters/sse.py:33-74 | From any rendered frame, with or without retry line, the parser selects a data line that the name or the id brings along, else the JSON text up to its first separator |
| Sse.FrameLines | agent_driver/adapters/sse.py:33-43 | A frame without separators in its parts is its event, id and data lines, the retry line if any, and an empty line |
| Sse.SplitAt | agent_driver/adapters/sse.py:64 | Any separator ends a line, and a carriage return takes a line feed after it along |
| Sse.BreakCharacters | agent_driver/adapters/sse.py:64 | The separators are the ten of `str.splitlines` |
| Sse.FrameRoundTripIff | agent_driver/adapters/sse.py:33-74 | It selects the whole text if and only if the text holds no separator, or a data line brought along equals it; a name and id without separators bring none |
| Sse.LineSeparatorCutsFrame | agent_driver/adapters/sse.py:26 | A payload with U+2028 comes back cut before it |
| Sse.RoundTrip | agent_driver/adapters/sse.py:33-74 | With a reader that inverts the printer and no data line in name or id, the payload sent is the payload read |
| EvalScoring.IsSubsequence | agent_driver/cli/eval_scoring.py:108-117 | True if and only if strictly increasing positions embed the expected names in the actual ones |
| EvalScoring.AllMatchedIff | agent_driver/cli/eval_scoring.py:108-117 | The greedy scan consumes everything if and only if an embedding exists |
| EvalScoring.EmbeddedIsMatched | agent_driver/cli/eval_scoring.py:108-117 | No embedding gets further than the greedy scan |
| Validation.MetadataWalk.constructor | agent_driver/contracts/validation.py:62 | A walk starts with no keys counted |
| Validation.MetadataWalk.Walk | agent_driver/contracts/validation.py:64-89 | The recursive walk with one shared counter and early exit accepts if and only if keys, depth and reserved keys meet the limits; it then has counted every key, and a reason it gives is a real one |
| Validation.EnsureBoundedJsonMetadata | agent_driver/contracts/validation.py:37-92 | Accepts if and only if the value is printable, within the byte limit and meets the limits of the walk; each error has its cause |
| Validation.ReservedMeans | agent_driver/contracts/validation.py:77-81 | A key is reserved if and only if it is a string that starts with `_ad_` |
| Validation.NestedMeasures | agent_driver/contracts/validation.py:64-89 | A leaf under n containers has depth n + 1 and a key for each that is a map |
| Validation.KeysAddUp | agent_driver/contracts/validation.py:70-89 | A further entry counts itself and the keys below it, a further item the keys below it |
| Validation.MeetsIsOrderFree | agent_driver/contracts/validation.py:64-92 | Acceptance and the key count do not depend on the order of map entries and list items at any depth |

## Left out

- Command line, chat loop, rendering, registries, configuration, session files: interface and lookup code that would add easy members only.
- Code-agent sandbox and executors: real execution, processes and resource limits.
- Control, lease, job and durable-lifecycle contracts: tables and field checks whose protocols are elsewhere.
- Secret and redaction validators, allow lists, provider catalogues: one-branch field validation.
- JSON text encoding and decoding: an arbitrary reader and printer, with the round trip of well-formed values as a hypothesis where a theorem needs it.
- Clocks and latency, jitter, error classification, cost estimation: parameters of the models.
- Floating-point rounding: costs, ratios, fractions and percentiles are exact reals.
- BatchScheduler.SpendBound: costs are assumed non-negative and at most m per run, because nothing in the runner bounds them.
- Batch trajectories: recorded messages and latency are not modelled; which policy-decision and trace-violation ids the report picks out of the metadata is a field of the metadata; the JSONL store is not part of this model.
- BatchScheduler steps are finer than the event loop's: the model allows every interleaving of the coroutines and some the event loop never chooses.
- BatchRunner.Run: the constructor's checks, which `NewRunner` makes, are its precondition, and the agent is a fixed table of outcomes per task and attempt, so an agent that reacts to the order of queries is covered only through the step system's theorems, which allow any outcome.
- ToolContentShrink and ToolArgTruncation hold map entries as ordered field lists.
- ToolArgTruncation.ThreePassesSuffice: texts whose excess has 75 digits or more are covered by ValueReachesFixpoint only.
- ToolArgTruncation: the compact JSON size of a string is an arbitrary table, so the theorems hold for every encoder.
- Compress, TokenPressure, Breakdown: message content that is no string is seen through its rendering.
- Compress.CompressTrajectory: batch-level `compress_trajectories` and the rest of the metadata are carried along unchanged and not modelled.
- Sse: the limit of Python's `int()` on very long digit strings, text capture and the asynchronous event stream are not modelled; digits of other scripts are an arbitrary table.
- RunBudget: the untyped branch of `resolve_run_context_budget` and the audit record are not modelled.
- Percentile: `aggregate_trajectories` only regroups trajectories before the summaries modelled here.
- Transcript: conversion between records and messages is not modelled; the rows are already user and assistant rows.
