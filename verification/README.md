# Verified models of the platform's algorithms

This project models the parts of the repository that hold real algorithms or state machines, and proves what they
are for. It covers six programs:

- the end-to-end test scheduler (`platform/scripts/e2e_impact.py`): packing specs into CI shards, aggregating and
  merging coverage records, choosing specs for changed lines, reading TypeScript line by line to tell which changed
  lines cannot run, and carrying line numbers from one version of a file to another;
- the trace delivery queue and the trace buffer of the agent (`agent/backend/app/observability.py`);
- the database starter (`platform/deploy/suite-adb.py`);
- the dependency walk behind the third-party notices (`scripts/third-party-notices.py`);
- the binary fixture writers (`rag/scripts/generate_file_processing_fixtures.py`): the PDF file with its
  cross-reference table, and text drawn as pixels;
- the environment-file migration (`platform/scripts/migrate_model_env_names.py`).

Loops that update variables are methods, and the queue, the trace buffer and the database waiter are classes. Each such
method is proved equal to a function of its inputs or of the old state; the theorems are then about those functions.

## How the modules fit together

- Shards: `GreedyLoads` holds the scheduling theory (a least loaded machine, a weight argument for long jobs, one step
  of the 4/3 bound). `ShardPlan` models `plan_shards`; `ShardBound` and `WorstSpecs` show that its bound is attained for
  every number of shards. `SplitPlan` models `plan_split_shards`, `SplitShares` says how many parts a spec
  gets, `SplitEmpty` tells from the inputs when a shard stays empty, and `ShardMatrix` is the shard count and the CI matrix made of a plan.
- Impact map: `ImpactRecords` gives a set of test records its meaning as a sum; `ImpactAggregation` proves that the
  sum says what the records say and that the aggregation loop computes it; `ImpactMap` models the merge and the query, and
  `ImpactChoice` tells from the records alone exactly which specs a query selects.
- Changed lines: `LineLexer` defines an automaton that reads a whole text character by character and proves the line
  scanner equal to it. `Brackets` is the grammar of well-nested brackets, `DeclarationTokens` keeps the second scanner in
  step with the same automaton, `BracketRestart` shows that a nested text is read alike from its own start and inside a
  longer text, `DeclarationEnd` models the end of a declaration and the marked lines, and `EndLines` what may follow it on
  its last line. `FirstStop` shows that a declaration ends at the first place where it can, and `MarkedLines` which lines
  are marked and that no code that runs is on them.
  `LineTranslation` models the line numbers, `TestDependents` the search for users of a test helper.
- Trace delivery: `SinkErrors` is the error text and its reading back, `RetryQueue` a step system in which events enter,
  batches are taken and items are sent in any interleaving, with any failures. `RetryReconfigured` lets the settings
  change at every step, `RetryOrder` shows that the queue is first in, first out, and `RetryDelays` is about the delays. `TraceExporter` is the queue object, whose flush is one of
  those runs. `TraceBuffer` is the pruned ring buffer.
- The database starter: `AdbTrace` is the world of the starter, which keeps a trace of every state call, reading of the
  clock and start call, and what a trace says about the start calls; `AdbWaiter` is the waiter, whose contracts say how
  that trace grows and at what pace (`AdbPolling`); `AdbPace` says what that pace means.
- `LockWalk`, `PdfWriter`, `GlyphRaster`, `EnvLines` and `EnvMigration` stand alone; `Collections`, `MapSums`, `Numbers`,
  `Ordering`, `Reachability` and `Strings` are shared vocabulary.

## Where a promise does not hold

Some promises of the source's comments and documentation are false for some inputs. The model follows the code, and the
exact condition is proved, with a lemma at a concrete failing input beside it.

- "No empty shard" (`e2e_impact.py:1045`): shard `i` is empty exactly when fewer than `i` specs have a positive duration
  (`ShardPlan.PlanShardEmpty`), so some shard is empty exactly when both the count and the number of specs are at least
  two more than the specs of positive duration (`ShardPlan.PlanHasEmptyShard`). A split plan has an empty shard exactly
  when at least two specs take no time, and the parts first asked for and the other specs of positive duration leave at
  least two of the usable shards (`SplitEmpty.SplitPlanHasEmptyShard`; example `SplitEmpty.SplitPlanEmptyExample`). The
  repair loop never decides this (`SplitEmpty.RepairLoad`).
- An empty shard is an empty `specs` text in the matrix, which runs every spec. This happens exactly under the two
  conditions above (`ShardMatrix.SomeEntryRunsAll`, `ShardMatrix.SomeSplitEntryRunsAll`; example
  `ShardMatrix.RunsAllExample`).
- `plan_split_shards` divides by the mean shard length and fails exactly when no spec takes any time and there is more
  than one shard to use (`SplitPlan.SplitPlanFails`; example `SplitPlan.SplitPlanFailsExample`).
- Maps of another product are to be dropped by the merge (`e2e_impact.py:519`), which compares versions and commits only:
  the promise is kept exactly when all maps of the first one's version and commit are of its product
  (`ImpactMap.OtherProductsDroppedIff`; example `ImpactMap.OtherProductMerged`).
- A flush counts what it attempts as delivered, retried or exhausted, except that an item is dropped uncounted exactly
  when the sinks it owes are no longer configured (`RetryQueue.VanishesIff`; example
  `RetryQueue.VanishesAfterReconfiguration`). With fixed sinks this never happens.
- The delay doubles with the attempts up to its cap, but from 1025 attempts on the power of two exceeds a float: the source
  raises OverflowError while it puts the item back, and the rest of the batch is lost with it. Some run comes to this
  exactly when more than 1025 attempts are allowed, retries are on, a sink is configured and the queue has room
  (`RetryDelays.DelaysOverflowIff`; example `RetryDelays.DelayOverflowExample`).
- Front pruning of the trace buffer drops every stale event exactly when none stands behind a fresh one
  (`TraceBuffer.DropStaleIsFilter`; example `TraceBuffer.StaleBehindFresh`).
- The PDF is readable exactly when every object begins before byte 10^10, the width of an offset
  (`PdfWriter.DocumentReadsBack`; example `PdfWriter.LongObjectUnread`).
- Running the migration twice is running it once, except on a text that is a single line break other than a newline
  (`EnvMigration.MigrateTwice`; example `EnvMigration.MigrateTwiceExample`).
- Translated line numbers keep their order inside the source. Over all line numbers they keep it exactly when the last
  line of the source moves down by at most one (`LineTranslation.OrderKeptIff`; example `LineTranslation.BeyondTheEnd`).

## Model

| member | source | states |
|---|---|---|
| GreedyLoads.LongJobFits | platform/scripts/e2e_impact.py:1050-1055 | if the next job of a longest-first list exceeds a third of what some schedule reaches, then the least loaded machine has room for it within that schedule's largest load |
| GreedyLoads.GreedyStep | platform/scripts/e2e_impact.py:1052-1055 | placing a job on a least loaded machine keeps that machine within 4/3 - 1/(3m) of every other schedule of the jobs so far |
| ShardPlan.Pack | platform/scripts/e2e_impact.py:1050-1055 | the bins and totals that the loop fills are those of the assignment that always picks the first least loaded shard |
| ShardPlan.PlanShards | platform/scripts/e2e_impact.py:1040-1056 | the loop computes the plan that the lemmas below are about, for every count and every durations |
| ShardPlan.PlanRunsEachOnce | platform/scripts/e2e_impact.py:1047-1056 | every spec is in exactly one of min(count, specs) shards, and each shard's estimate is the exact sum of its specs |
| ShardPlan.PlanWithinFourThirds | platform/scripts/e2e_impact.py:1040-1056 | Graham's bound: no shard exceeds 4/3 - 1/(3m) of the largest shard of any other division of the same specs over the same number of shards |
| ShardPlan.PlanSpread | platform/scripts/e2e_impact.py:1052-1055 | the longest and the shortest shard differ by at most the longest spec |
| Ordering.NameLessIff | platform/scripts/e2e_impact.py:1051 | names are ordered by their first different character, a proper prefix first |
| ShardPlan.PlanShardEmpty | platform/scripts/e2e_impact.py:1045-1056 | shard `i` is empty if and only if fewer than `i` specs take any time |
| ShardPlan.PlanHasEmptyShard | platform/scripts/e2e_impact.py:1045-1056 | some shard is empty if and only if the count and the number of specs are both at least two more than the specs that take any time |
| ShardPlan.PlanShardEmptyExample | platform/scripts/e2e_impact.py:1045-1056 | two specs of duration 0 leave the second of two shards empty |
| ShardBound.BoundAttained | platform/scripts/e2e_impact.py:1052-1055 | for every number m of shards the jobs 2m-1, 2m-1, ..., m+1, m+1, m, m, m are packed to 4m - 1 while another division stays within 3m, so the bound 4/3 - 1/(3m) cannot be improved |
| ShardBound.PlanAttains | platform/scripts/e2e_impact.py:1040-1056 | for specs of these durations the plan's first shard takes 4m - 1 |
| WorstSpecs.PlanBoundAttained | platform/scripts/e2e_impact.py:1040-1056 | for every number m of shards there are specs whose plan has a shard of 4m - 1 while another division of them keeps every shard within 3m, so the bound on the plan is attained |
| ShardMatrix.TargetCount | platform/scripts/e2e_impact.py:1022-1024 | the fewest shards that hold the total at six minutes each, at least one and at most the maximum |
| ShardMatrix.SomeEntryRunsAll | platform/scripts/e2e_impact.py:1040-1140 | for every count, a matrix entry of a plan names no spec, and so runs them all, if and only if the count and the number of specs are both at least two more than the specs of positive duration |
| ShardMatrix.SomeSplitEntryRunsAll | platform/scripts/e2e_impact.py:1059-1140 | a matrix entry of a split plan runs every spec if and only if at least two specs take no time and the parts first asked for and the other specs of positive duration leave at least two usable shards |
| ShardMatrix.RunsAllExample | platform/scripts/e2e_impact.py:1018-1140 | one spec of 18 minutes and two of no duration get three shards by the shard count, one of which runs every spec |
| ShardMatrix.EntryReadsBack | platform/scripts/e2e_impact.py:1130-1140 | split at its spaces, an entry gives the shard's specs |
| SplitPlan.HalfEven | platform/scripts/e2e_impact.py:1079 | rounding is to a nearest integer, and to the even one of two |
| SplitPlan.FindLargest | platform/scripts/e2e_impact.py:1085 | the spec found is the greatest by parts, then duration, then name |
| SplitPlan.RepairParts | platform/scripts/e2e_impact.py:1084-1089 | the loop that takes parts away ends, at the repaired parts of the plan; the sum of parts falls with every turn |
| SplitPlan.SplitFits | platform/scripts/e2e_impact.py:1083-1096 | after the repair the split parts and the packed rest use no more shards than asked for |
| SplitPlan.PlanSplitShards | platform/scripts/e2e_impact.py:1059-1096 | the whole function computes the plan below, including its failure |
| SplitPlan.SplitPlanRunsEachOnce | platform/scripts/e2e_impact.py:1059-1096 | the shards, at most `count`, name every spec once: whole in exactly one shard, or alone in exactly k shards in a row whose parts are 1/k to k/k, each with the duration divided by k and rounded down, with k at least 2 and at most the number of tests if that is known; shards that name no spec are described below |
| SplitPlan.WholeShardsExact | platform/scripts/e2e_impact.py:1095-1096 | every shard that is no part of a spec has its specs in name order and their exact total |
| SplitShares.AskedPartsIff | platform/scripts/e2e_impact.py:1076-1081 | a spec is to be split if and only if it takes at least one and a half times the mean shard and may have two parts, and then into the nearest number of mean shards, or fewer where it has not so many tests |
| SplitShares.FinalPartsLevelled | platform/scripts/e2e_impact.py:1084-1089 | the repair levels the parts: no spec keeps two parts more than a spec that lost some |
| SplitEmpty.SplitPlanHasEmptyShard | platform/scripts/e2e_impact.py:1059-1096 | a split plan has an empty shard if and only if at least two specs take no time and the parts first asked for and the other specs of positive duration leave at least two usable shards |
| SplitEmpty.RepairLoad | platform/scripts/e2e_impact.py:1084-1089 | the repair never decides whether two shards are left, since each of its turns frees exactly one shard and it ends as soon as the parts fit |
| SplitEmpty.SplitPlanEmptyExample | platform/scripts/e2e_impact.py:1059-1096 | one spec of a single test and two of no duration leave one of three shards empty |
| SplitPlan.SplitPlanFails | platform/scripts/e2e_impact.py:1072-1076 | the division by zero happens if and only if no spec takes time and more than one shard is usable |
| SplitPlan.SplitPlanFailsExample | platform/scripts/e2e_impact.py:1072-1076 | two specs of no duration on two shards fail |
| SplitPlan.SplitPartNearMean | platform/scripts/e2e_impact.py:1076-1081 | a part that neither the capacity nor the repair held back is at most 5/4 of the mean shard |
| ImpactRecords.LatestIsLastHighest | platform/scripts/e2e_impact.py:465-470 | the record kept of a test is the last one with its highest retry number |
| ImpactRecords.MergeEqualsAggregate | platform/scripts/e2e_impact.py:518-553 | for shards with disjoint tests the sum of the shards' aggregates is the aggregate of all records, in whatever order these interleave |
| ImpactRecords.MergedPermutation | platform/scripts/e2e_impact.py:534-552 | the order in which shards are merged does not matter |
| ImpactAggregation.Aggregate | platform/scripts/e2e_impact.py:463-515 | the nested loops over records, files and ranges compute the sum over the latest records |
| ImpactAggregation.AddRecord | platform/scripts/e2e_impact.py:474-497 | one record adds its own contribution to what was aggregated, and nothing else |
| ImpactAggregation.TotalDescribes | platform/scripts/e2e_impact.py:486-497 | the aggregate says exactly which specs loaded a file, which specs ran a function and how many counted tests did |
| ImpactAggregation.TotalSpecs | platform/scripts/e2e_impact.py:474-485 | a spec's entry counts its tests and adds up their durations, for all of them and for those that a pull request runs, also of tests that loaded no file |
| ImpactAggregation.GlobalIffAllRan | platform/scripts/e2e_impact.py:600-612 | a function is global if and only if every counted test ran it |
| ImpactMap.MergeMaps | platform/scripts/e2e_impact.py:518-553 | the merge drops maps of another version or commit, but not of another product, and sums the rest, filling in missing pull-request durations |
| ImpactMap.MergeOfStoredShards | platform/scripts/e2e_impact.py:463-553 | storing each shard's aggregate and merging the stored maps gives the aggregate of all records at once |
| ImpactMap.OtherProductsDroppedIff | platform/scripts/e2e_impact.py:518-533 | the merge is that of the maps of the first one's product alone, as its docstring says, if and only if no other map of that version and commit is of another product |
| ImpactMap.OtherProductMerged | platform/scripts/e2e_impact.py:518-553 | two maps of one commit and two products are merged into one |
| ImpactMap.FindInnermost | platform/scripts/e2e_impact.py:624-626 | the function found contains the line and is the shortest such, the later-starting one of two; none is found only if none contains the line |
| ImpactMap.InnermostUnique | platform/scripts/e2e_impact.py:626 | there is one innermost function around a line |
| ImpactMap.SpecsForLines | platform/scripts/e2e_impact.py:614-637 | the loop chooses what the choice of each line says; the next rows say what that is |
| ImpactChoice.SelectedIff | platform/scripts/e2e_impact.py:463-637 | a spec is selected if and only if for some line the innermost recorded function around it was not run by all counted tests and a test of the spec ran it; or it was run by all and the spec touched the file; or no function is around it and the spec ran some function that not all ran; or there is no such function and the spec touched the file |
| ImpactChoice.SharedIff | platform/scripts/e2e_impact.py:463-637 | the choice is shared if and only if for some line the innermost function was run by all counted tests, or nothing narrows the line down and some spec touched the file |
| ImpactChoice.MergedSelectsIff | platform/scripts/e2e_impact.py:463-637 | both hold of the merged maps and the last records of all tests |
| ImpactMap.ForLinesUnion | platform/scripts/e2e_impact.py:619-637 | the choice for a union of lines is the union of the choices |
| ImpactMap.ExecutedSpecSelected | platform/scripts/e2e_impact.py:614-637 | a spec that ran the innermost function around a changed line is selected |
| ImpactMap.SelectionWithinLoaded | platform/scripts/e2e_impact.py:593-637 | only specs that loaded the file are selected, and some are for a recorded file and at least one line |
| ImpactMap.AffectedSpecSelected | platform/scripts/e2e_impact.py:463-637 | end to end: after aggregating per shard and merging, the spec of the latest run of a test that ran the innermost function around a changed line is selected |
| LineLexer.RunConsistent | platform/scripts/e2e_impact.py:252-303 | on every text the stack has no two adjacent backticks, and its top is a backtick exactly in the template modes, so no comment is directly inside a template |
| LineLexer.NoCodeIffBlankOrComment | platform/scripts/e2e_impact.py:245-304 | a line that does not begin in a template has no code if and only if each character is white space or comment |
| LineLexer.ScanLines | platform/scripts/e2e_impact.py:245-304 | for every line the scanner's three flags are those of the automaton run over the whole text |
| LineLexer.LineStartModes | platform/scripts/e2e_impact.py:254-258 | at a line start the automaton is between tokens, and never in a template and a comment at once |
| Brackets.NestedIffReduces | platform/scripts/e2e_impact.py:346-359 | a string derives from the grammar of nested brackets if and only if a stack reads it and ends empty |
| BracketRestart.ReadAlike | platform/scripts/e2e_impact.py:252-303 | a text whose code brackets close no outer one is read alike from its own start and inside a longer text in code: the same brackets, and the stack of before underneath |
| DeclarationTokens.CodeTokenReads | platform/scripts/e2e_impact.py:336-363 | a token outside strings keeps the scanner's stack equal to the unmatched code brackets that the automaton has read |
| DeclarationTokens.StringTokenReads | platform/scripts/e2e_impact.py:327-335 | so does a token inside a string or a template, including a substitution |
| DeclarationEnd.FindDeclarationEnd | platform/scripts/e2e_impact.py:307-374 | the loops return the end that the token-by-token definition gives, which lies in [start, lines) |
| FirstStop.DeclarationStopsFirst | platform/scripts/e2e_impact.py:307-364 | a declaration ends at the first `;` of the code with nothing open, the first brace that closes its block, or the first line end after which code begins at the margin; it has no end only where a bracket does not match, a quote stays open at the end of a line, or nothing stops it |
| EndLines.EndLineIff | platform/scripts/e2e_impact.py:367-374 | the line on which a declaration ends belongs to it if and only if nothing but semicolons, spaces and a line comment follows; else it ends on the line before, if there is one |
| DeclarationEnd.DeclarationStops | platform/scripts/e2e_impact.py:307-374 | when a declaration ends at `;`, at the block's brace or at the margin, the code brackets from its start, as the automaton sees them, are well nested, and before the block's brace they are not |
| DeclarationEnd.StopsInWhole | platform/scripts/e2e_impact.py:307-404 | read from the beginning of the whole text, the brackets of such a declaration are the same nested ones, and at its stop the stack is what it was at its first line |
| DeclarationEnd.NonRuntimeLines | platform/scripts/e2e_impact.py:377-404 | the loop ends, and marks exactly the lines of the recursive definition |
| MarkedLines.MarkedIff | platform/scripts/e2e_impact.py:384-404 | a line is marked if and only if it holds no code outside templates, or lies in a declaration that is recognised where no earlier one is still open |
| MarkedLines.MarkedIsStatic | platform/scripts/e2e_impact.py:367-403 | every marked line holds no code, or lies in a declaration that begins outside templates and comments and stops well nested at the first place where it can, by the automaton over the whole text, and after the stop that line has only white space, semicolons and comments |
| LineTranslation.TranslateLines | platform/scripts/e2e_impact.py:439-457 | the result is the set of translated lines; for an empty source it is empty |
| LineTranslation.TranslatedInTarget | platform/scripts/e2e_impact.py:446-456 | every line lands in 1 to max(1, lines of the target) |
| LineTranslation.TranslatedMonotone | platform/scripts/e2e_impact.py:446-451 | order is kept, strictly among lines of unchanged blocks |
| LineTranslation.SameText | platform/scripts/e2e_impact.py:446-448 | a line of an unchanged block goes to a line with the same text |
| LineTranslation.ChangedGoesBefore | platform/scripts/e2e_impact.py:449-451 | a changed line goes where the last unchanged line before its block goes, and to line 1 if nothing is before it |
| LineTranslation.TranslatedBack | platform/scripts/e2e_impact.py:439-457 | the opposite diff carries it back |
| LineTranslation.OrderKeptIff | platform/scripts/e2e_impact.py:439-457 | over all line numbers, also past the end of the source, order is kept if and only if the last line moves down by at most one |
| LineTranslation.BeyondTheEnd | platform/scripts/e2e_impact.py:455-456 | a concrete diff under which order is lost past the end of the source |
| TestDependents.FindDependents | platform/scripts/e2e_impact.py:654-675 | the search ends, and returns exactly the specs that reach the changed file through one or more mentions |
| SinkErrors.SplitJoin | agent/backend/app/observability.py:438-466 | splitting joined parts gives the parts, if none holds the separator |
| SinkErrors.OwedReadsBack | agent/backend/app/observability.py:459-470 | the sinks read from an error text are exactly those that failed, and the text is empty only if none did |
| RetryQueue.RunInv | agent/backend/app/observability.py:444-583 | every step, in any interleaving and with any failures, keeps the queue bounded, every event in one place, and each item's owed sinks equal to those that have not accepted |
| RetryQueue.AcceptedAtMostOnce | agent/backend/app/observability.py:510-542 | over every run each sink accepts an event at most once |
| RetryQueue.DeliveredExactlyOnce | agent/backend/app/observability.py:459-489 | an event counted as delivered was accepted exactly once by every configured sink and by no other |
| RetryQueue.OwedIsMissing | agent/backend/app/observability.py:459-470 | the sinks parsed from a waiting item's text are exactly those that have not accepted it |
| RetryQueue.EventsConserved | agent/backend/app/observability.py:444-583 | entered = queued + in flight + delivered + exhausted + evicted, the queue is bounded, and no event is sent more than the maximum number of times |
| RetryOrder.QueueIsEndOfHistory | agent/backend/app/observability.py:444-565 | in every run, whatever the interleaving, the failures and the settings, the queue is the last items put into it, in order |
| RetryOrder.OldestLeaveFirst | agent/backend/app/observability.py:444-580 | a batch and an eviction take the items that have been in the queue longest, an eviction only as many as do not fit, and the item just put stays |
| RetryQueue.RetriesSpaced | agent/backend/app/observability.py:461-464 | an unforced attempt on a retried item happens if and only if the delay since its last failure has passed |
| RetryDelays.DelayGrows | agent/backend/app/observability.py:586-592 | the delay never shrinks with the attempts, is the base delay after the first failure, and is capped |
| RetryDelays.DelayDoubles | agent/backend/app/observability.py:586-592 | each further failure doubles the delay, up to the cap |
| RetryDelays.WaitsAfterIff | agent/backend/app/observability.py:472-483 | an item can wait after n failed attempts if and only if the maximum is above n, retries are on, a sink is configured and the queue has room |
| RetryDelays.DelaysOverflowIff | agent/backend/app/observability.py:586-592 | some run asks for a delay whose power of two exceeds a float if and only if more than 1025 attempts are allowed, retries are on, a sink is configured and the queue has room |
| RetryDelays.DelayOverflowExample | agent/backend/app/observability.py:586-592 | the default settings with a webhook and 1026 attempts come to such a delay |
| RetryReconfigured.UnchangedIsRun | agent/backend/app/observability.py:444-583 | a run in which every step has the same settings is a run of the queue |
| RetryReconfigured.AcceptedOnceAnyway | agent/backend/app/observability.py:459-542 | however the settings change from step to step, each sink accepts an event at most once, and a delivered event was accepted by some sink |
| RetryReconfigured.OwedAnyway | agent/backend/app/observability.py:459-470 | a sink that a waiting item would be sent to under the settings of any moment has not accepted it |
| RetryReconfigured.ConservedAnyway | agent/backend/app/observability.py:444-583 | however the settings change, entered = queued + in flight + delivered + exhausted + evicted + vanished (no configured sink is owed, or the queue has no room at all), and the queue and the sends stay within the largest size and number of attempts in force |
| RetryQueue.VanishesIff | agent/backend/app/observability.py:467-486 | an attempt ends uncounted if and only if it is made and no configured sink is owed |
| RetryQueue.VanishesAfterReconfiguration | agent/backend/app/observability.py:467-486 | an item that owes the webhook vanishes once only the OTLP sink is configured |
| TraceExporter.FlushIsRun | agent/backend/app/observability.py:444-489 | a flush is a run of the step system, so its theorems apply |
| TraceExporter.TallyAddsUp | agent/backend/app/observability.py:459-489 | taken = skipped + attempted, and attempted = succeeded + requeued + dropped |
| TraceExporter.TallyIsLedger | agent/backend/app/observability.py:459-489 | the counts of a flush are the events that it delivered, gave up and sent |
| TraceExporter.FlushNeverEvicts | agent/backend/app/observability.py:450-489 | a flush during which nothing enters evicts nothing |
| TraceExporter.ForcedFlushesEmptyQueue | agent/backend/app/observability.py:444-489 | as many forced full flushes as there are attempts empty the queue, whatever the sinks do |
| TraceExporter.Exporter.Push | agent/backend/app/observability.py:561-565 | appending and popping the front while the queue is too long is one append step of the system, which `RetryOrder` shows to drop the oldest |
| TraceExporter.Exporter.Enqueue | agent/backend/app/observability.py:545-565 | handing over a new event is the entering step |
| TraceExporter.Exporter.Export | agent/backend/app/observability.py:510-542 | the three sinks are tried in order exactly when configured and owed; acceptances and failures are recorded |
| TraceExporter.Exporter.Process | agent/backend/app/observability.py:460-486 | the loop body is the sending step, with its five outcomes |
| TraceExporter.Exporter.Flush | agent/backend/app/observability.py:444-489 | an uninterrupted flush reaches the state and the counts above, keeps the invariant, and evicts nothing |
| TraceBuffer.Buffer.Prune | agent/backend/app/observability.py:403-411 | the two popping loops leave the last `max_events` events without the stale ones in front |
| TraceBuffer.Buffer.Append | agent/backend/app/observability.py:396-398 | an append prunes at the time of its own event |
| TraceBuffer.DropStaleIsFilter | agent/backend/app/observability.py:409-411 | popping from the front keeps exactly the fresh events if and only if none hides behind a fresh one |
| TraceBuffer.StaleBehindFresh | agent/backend/app/observability.py:409-411 | a stale event behind a fresh one stays |
| TraceBuffer.PrunedIsFreshTail | agent/backend/app/observability.py:403-411 | in time order the result is the last `max_events` events filtered by the cutoff |
| TraceBuffer.TrimsCommute | agent/backend/app/observability.py:404-411 | the trims by size and by age may be exchanged |
| TraceBuffer.ContentsAreSuffix | agent/backend/app/observability.py:286-303 | over any appends, listings and policy changes the buffer is the end of the history, and within the last policy's size |
| TraceBuffer.ContentsArePrunedHistory | agent/backend/app/observability.py:377-411 | under one policy and a clock that never goes back, pruning at every step equals pruning the whole history once |
| AdbWaiter.Waiter.HandleFailure | platform/deploy/suite-adb.py:276-283 | a failure ends the run if and only if it is fatal, the fifth in a row or late |
| AdbWaiter.Waiter.GetState | platform/deploy/suite-adb.py:262-274 | the trace gains at most five state calls less the failures already counted, and ends with the state returned; without a state, its last call is one whose failure ends the run |
| AdbWaiter.Waiter.RequestStart | platform/deploy/suite-adb.py:289-305 | the trace gains one start call; a conflict is ignored, a missing right or a failure that ends the run is refused |
| AdbWaiter.Waiter.Iterate | platform/deploy/suite-adb.py:311-345 | one turn: the trace gains the state found and, if it is a waiting one, the decision made on it, with a start call exactly when due; a turn that ends the run leaves its reason at the end of the trace; with instantaneous calls it keeps the pace of an interval for each call |
| AdbWaiter.Waiter.Ensure | platform/deploy/suite-adb.py:307-345 | against any API and monotone clock the run ends within one turn more than the started intervals in the timeout; the trace of calls gains exactly the states, decisions and start calls of the run; success means that the trace ends with an open state found, a refusal that its last call or the clock shows the reason; with instantaneous calls it ends before timeout + interval and keeps the pace that the next rows use |
| AdbPace.ReadsApart | platform/deploy/suite-adb.py:262-345 | with instantaneous calls any two readings of the clock are at most an interval apart for each state call between them |
| AdbPace.CallsEnough | platform/deploy/suite-adb.py:262-345 | such a run makes at least as many state calls as intervals pass in it |
| AdbWaiter.TimedOutCalls | platform/deploy/suite-adb.py:338-345 | such a run that gives up for lack of time has made a state call for each interval of the timeout |
| AdbPace.FirstAsk | platform/deploy/suite-adb.py:324-333 | a start is requested the first time the database is found stopped |
| AdbPace.AskedAgainIff | platform/deploy/suite-adb.py:324-333 | after a request the next one is made on finding STOPPED if and only if 120 s have passed |
| AdbPace.AskedAgainSoon | platform/deploy/suite-adb.py:324-345 | with instantaneous calls of which none fails, while the database is found stopped the next request follows by less than 120 s and an interval |
| AdbTrace.StartFollowsStopped | platform/deploy/suite-adb.py:318-333 | in the trace of a run every start call comes right after a reading of the clock that comes right after finding STOPPED |
| AdbTrace.StartsSpaced | platform/deploy/suite-adb.py:324-333 | in the trace of a run the readings on which two start calls were decided are at least 120 s apart |
| AdbTrace.RequestsSpaced | platform/deploy/suite-adb.py:324-333 | among the decisions of a run, a start is requested only on STOPPED and two requests are at least 120 s apart |
| AdbTrace.RequestsSpan | platform/deploy/suite-adb.py:324-333 | n requests span at least (n - 1) times 120 s |
| AdbWaiter.RequestsBound | platform/deploy/suite-adb.py:324-345 | while every decision is before the deadline, (n - 1) times 120 s is less than the timeout |
| LockWalk.Walk | scripts/third-party-notices.py:106-122 | the worklist ends; it labels exactly the packages reachable through dependencies and requested extras, and keeps earlier labels |
| LockWalk.WalkEnd | scripts/third-party-notices.py:106-122 | the visited pairs of package and extras are exactly the reachable ones |
| LockWalk.ReachesIff | scripts/third-party-notices.py:88-122 | a package is reached with extras if and only if a start, or a dependency that a reached package has by itself or through an extra requested of it, agrees in name and in a pinned version and asks for these extras |
| LockWalk.WalkAll | scripts/third-party-notices.py:88-130 | over all roots and groups a package is seen if and only if some walk reaches it, under the scope of the first that does |
| PdfWriter.WriteDocument | rag/scripts/generate_file_processing_fixtures.py:474-491 | the bytes grown by the two loops are the document, each offset being where its object begins |
| PdfWriter.DocumentReadsBack | rag/scripts/generate_file_processing_fixtures.py:474-491 | a reader that checks the header, the free entry and the trailer and follows `startxref`, the 20-byte entries and the offsets (sections 7.5.2 to 7.5.5 of ISO 32000-1), each by its own keywords, recovers every object in order if and only if each begins before byte 10^10 |
| PdfWriter.LongObjectUnread | rag/scripts/generate_file_processing_fixtures.py:474-491 | after an object of 10^10 bytes the next one is not recovered |
| PdfWriter.ShortDocumentReadsBack | rag/scripts/generate_file_processing_fixtures.py:474-491 | in particular every document of at most 10^10 bytes is read back |
| PdfWriter.StreamReadsBack | rag/scripts/generate_file_processing_fixtures.py:466-471 | a reader that takes `/Length` bytes after the `stream` line recovers the stream, whatever it holds |
| GlyphRaster.DrawGlyph | rag/scripts/generate_file_processing_fixtures.py:537-553 | in bounds, the glyph's scaled 1-bits become black and nothing else changes |
| GlyphRaster.BitmapText | rag/scripts/generate_file_processing_fixtures.py:520-534 | for every text, scale and padding the picture has the stated size and shows exactly the text's ink; no lines are an error |
| GlyphRaster.PixelShown | rag/scripts/generate_file_processing_fixtures.py:526-552 | the three bytes of a pixel are all 0 if it is ink and all 255 if not |
| GlyphRaster.BlackIffInLitBit | rag/scripts/generate_file_processing_fixtures.py:527-552 | a pixel is ink if and only if it lies in the scaled square of a 1-bit of the glyph at its line and column |
| GlyphRaster.CellsApart | rag/scripts/generate_file_processing_fixtures.py:527-533 | the cells of two characters share no pixel |
| EnvLines.SplitJoined | platform/scripts/migrate_model_env_names.py:46-83 | joined lines split into the same lines, if a newline follows or the last is not empty |
| EnvLines.ParseParts | platform/scripts/migrate_model_env_names.py:40 | the parts of a matched assignment make up its line |
| EnvLines.Rekeyed | platform/scripts/migrate_model_env_names.py:75-80 | a line rewritten with a new key is read back with that key and the same other parts |
| EnvMigration.Migrate | platform/scripts/migrate_model_env_names.py:44-85 | the three loops compute the migrated text |
| EnvMigration.Tracked | platform/scripts/migrate_model_env_names.py:55-81 | afterwards no old key has a value, and every other key has the value of the key it came from |
| EnvMigration.NoOldKeyLeft | platform/scripts/migrate_model_env_names.py:55-81 | no line assigns an old name |
| EnvMigration.TextValue | platform/scripts/migrate_model_env_names.py:36-71 | the text model is the new name's value if set, or else the first source that is not blank, or else the first that is set, duplicates counting by their last value |
| EnvMigration.VisionValue | platform/scripts/migrate_model_env_names.py:38-71 | the same for the vision model and its one source |
| EnvMigration.OtherValueKept | platform/scripts/migrate_model_env_names.py:73-78 | every other variable keeps its value |
| EnvMigration.UnrelatedKept | platform/scripts/migrate_model_env_names.py:73-81 | comments, blank lines and other assignments are kept as they are, in order |
| EnvMigration.MigrateTwice | platform/scripts/migrate_model_env_names.py:44-85 | migrating twice is migrating once if and only if the text is not a single break other than a newline |
| EnvMigration.MigrateTwiceExample | platform/scripts/migrate_model_env_names.py:44-85 | a form feed becomes the empty text, and the empty text a newline |

## Left out

- SplitPlan.SplitPartNearMean: the float `target` is the exact fraction total / shards, so rounding errors of the
  division are not modelled.
- RetryQueue.RunInv: the configuration is fixed during a run, times are exact reals, event ids are new when they enter,
  and events enter through the initial hand-over alone.
- RetryReconfigured.ConservedAnyway: a step has one configuration from its beginning to its end; the overflow of a delay
  is not a step.
- RetryDelays.DelayGrows: delays are exact reals, and the sum of the time and the delay is no calendar date, so a cap
  beyond the range of dates is not modelled.
- TraceExporter.Exporter.Flush: items are values, so no two queue entries share an object; the lock is modelled by the
  steps being atomic.
- AdbWaiter.Waiter.Ensure: the interval is positive, which the command line does not check; progress reports and log
  texts are not modelled. The trace lemmas on start calls speak of a world whose trace was empty when the run began.
- MarkedLines.MarkedIff: the regular expression for declaration keywords is a parameter, and the text comes as
  lines without newlines.
- PdfWriter.WriteDocument: bytes are characters, and the page and font objects passed to it are arbitrary bytes.
- GlyphRaster.BitmapText: the font is any table of 7 rows of 5 bits with a space, lines are already in upper case, and
  scale and padding are not negative.
- EnvMigration.Migrate: the messages, the backup file and the command line.
- ImpactMap.MergeMaps: range keys are pairs of numbers instead of `start:end` text, and the executed ranges of a record
  are a set, as the recorder writes them (`platform/scripts/e2e-impact/fixture.ts:279`).
- LineTranslation.TranslateLines: the opcodes of the diff are an input that must cover both texts block by block.
- TestDependents.FindDependents: the regular expression for a mention is a parameter.
- LockWalk.WalkAll: finding the roots and filtering the result by registry.
- ShardMatrix.SomeEntryRunsAll: paths relative to the frontend are the spec names, which must not be empty; the part
  labels and numbers of an entry are not modelled.
- The median duration of specs without a record, and the parallel product without records, which are simple formulas.
- Git, file walking, argument parsing and the `select` driver with its dictionary heuristics.
- The HTTP, OTLP and Langfuse senders, the counters, sampling and the worker thread.
- The spreadsheet, image compression and archive parts of the fixture generator.
- The database client, credentials and message texts of the starter.
