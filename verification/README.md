# Build statistics analysis of the export-API client (Dafny model)

This project models the data-processing core of `AnalyzeBuilds`, a client of the
Gradle Enterprise export API. For every build the client streams the metadata events
(`ProjectStructure`, `UserTag`, `BuildModes`, `BuildRequestedTasks`) and decides whether
the build passes the project, tag and requested-task criteria. For a matching build it
streams the task events (`TaskStarted`, `TaskFinished`) and turns them into a per-build
report: a task count, total task time per task type and per task path, a histogram of
time spent at each concurrency level, and the build's max-workers setting. The per-build
reports are merged into one report. A failed build becomes the `EMPTY` report.

Modules, one per file:

- `Common` (`common.dfy`): `Option`, `Result` and the failure kinds. A Java `null`
  becomes `None` and a thrown exception becomes `Failure`.
- `Counters` (`counters.dfy`): the `add` helper and `mergeMaps` on `map<K, int>`.
- `Events` (`events.dfy`): decoded events as one datatype.
- `Filters` (`filters.dfy`): the generic include/exclude `matches`, the project/tag
  matcher, and the task-type filter, both as written and as intended.
- `BuildInfo` (`build_info.dfy`): `ProcessBuildInfo` (`process`, `complete`).
- `Tasks` (`tasks.dfy`): `ProcessTaskEvents.process` over the task table.
- `DeltaLine` (`delta_line.dfy`): the sorted timestamp-to-delta map.
- `Sweep` (`sweep.dfy`): the sweep that fills the concurrency histogram.
- `TaskStatistics` (`task_statistics.dfy`): `ProcessTaskEvents.complete`.
- `Statistics` (`statistics.dfy`): `BuildStatistics.EMPTY`, `merge` and the reduction.
- `BuildFeed` (`build_feed.dfy`): `FilterBuildsByBuildTool`.
- `Pipeline` (`pipeline.dfy`): `processEvents` as a sequential fold.

Java's `HashMap<Long, TaskInfo>` is modelled as a list of (id, record) pairs with
distinct ids, in first-insertion order. Every statistic drawn from it is a sum, so the
order does not matter. The `TreeMap<Long, Integer>` of start/stop deltas is a strictly
ascending list of (timestamp, delta) entries, which is the order the sweep reads it in.
The other maps are Dafny maps, with absence read as 0.

Behaviour of the code that the model keeps, although a reader might expect otherwise:

- The task-type filter (`AnalyzeBuilds.java:431`) runs before the outcome filter
  (line 432). An admitted task that never finished has a null outcome, so
  `task.outcome.equals` throws and the build fails.
- A second `TaskFinished` for the same id (lines 413-416) overwrites finish time and
  outcome; it is not rejected.
- The task-type filter does not test prefixes, although the option descriptions at
  lines 108-112 say it should (see Findings).
- `DefaultBuildStatistics.merge` (lines 555-568) returns `this` when the other operand
  is not a `DefaultBuildStatistics`, so `x.merge(EMPTY)` is `x`, and `EMPTY.merge(y)` is
  `y` (line 487).

## Model

| member | source | states |
|---|---|---|
| Counters.Add | src/main/java/com/gradle/enterprise/export/AnalyzeBuilds.java:465-471 | the entry for the key grows by delta (absence read as 0), the key is present afterwards, every other key keeps its total |
| Counters.MergeMaps | src/main/java/com/gradle/enterprise/export/AnalyzeBuilds.java:570-576 | the merged key set is the union, and every key holds the sum of both totals, absence counting as 0 |
| Counters.MergeMapsIdentity | src/main/java/com/gradle/enterprise/export/AnalyzeBuilds.java:570-576 | merging with the empty map on either side returns the map unchanged |
| Counters.MergeMapsCommutative | src/main/java/com/gradle/enterprise/export/AnalyzeBuilds.java:570-576 | the key-wise sum does not depend on operand order |
| Counters.MergeMapsAssociative | src/main/java/com/gradle/enterprise/export/AnalyzeBuilds.java:570-576 | the key-wise sum is associative |
| Filters.AnyMatch | src/main/java/com/gradle/enterprise/export/AnalyzeBuilds.java:363-366 | `anyMatch` is true exactly when some element satisfies the predicate |
| Filters.Matches | src/main/java/com/gradle/enterprise/export/AnalyzeBuilds.java:362-370 | accepts exactly when (no include criterion or some element satisfies it) and (no exclude criterion or no element satisfies it); both criteria absent always accepts; an include criterion with no elements never accepts |
| Filters.MatchesNullable | src/main/java/com/gradle/enterprise/export/AnalyzeBuilds.java:362-366 | a null element list is dereferenced, and fails, exactly when some criterion is set; with no criterion the answer is true; with a list it is `Matches` |
| Filters.AdmitsTaskTypeAsWritten | src/main/java/com/gradle/enterprise/export/AnalyzeBuilds.java:431 | the task-type filter as written admits a task exactly when no exclude list is configured, whatever the lists contain |
| Filters.AdmitsTaskTypeIntended | src/main/java/com/gradle/enterprise/export/AnalyzeBuilds.java:108-112 | admits exactly when the type starts with some include prefix (if given) and with no exclude prefix (if given) |
| Filters.TaskTypeFilterIgnoresPatterns | src/main/java/com/gradle/enterprise/export/AnalyzeBuilds.java:431 | an include list whose only prefix does not fit the type admits it as written and rejects it as intended |
| BuildInfo.Process | src/main/java/com/gradle/enterprise/export/AnalyzeBuilds.java:330-350 | one metadata event succeeds exactly when it has one of the four metadata types; any other type fails with that type named |
| BuildInfo.ProcessAll | src/main/java/com/gradle/enterprise/export/AnalyzeBuilds.java:330-350 | a stream succeeds exactly when every event is a metadata event; a failure names the first event of another type |
| BuildInfo.ProcessAllGathers | src/main/java/com/gradle/enterprise/export/AnalyzeBuilds.java:306-346 | root projects and tags are appended in arrival order; max workers and requested tasks are those of the last such event (last write wins) |
| BuildInfo.Complete | src/main/java/com/gradle/enterprise/export/AnalyzeBuilds.java:352-359 | `matches` is the conjunction of the project, tag and requested-task criteria; the null requested-task list fails exactly when project and tag checks pass and a requested-task pattern is set; build id and max workers pass through |
| BuildInfo.Run | src/main/java/com/gradle/enterprise/export/AnalyzeBuilds.java:306-359 | over a whole stream: the build fails exactly when some event is not a metadata event (the failure names the first one), or when the gathered projects and tags pass, no requested-tasks event arrived and a requested-task pattern is set (then it fails with a null list); otherwise max workers is the last `BuildModes` value (0 if none) and the decision is read from the gathered projects, tags and last requested tasks |
| Tasks.Lookup | src/main/java/com/gradle/enterprise/export/AnalyzeBuilds.java:414 | a record is found exactly when its id is in the table, and what is found is stored under that id |
| Tasks.LookupFinds | src/main/java/com/gradle/enterprise/export/AnalyzeBuilds.java:414 | in a table with one record per id, `tasks.get(id)` returns exactly the record stored under that id |
| Tasks.Put | src/main/java/com/gradle/enterprise/export/AnalyzeBuilds.java:407-411 | after a put, the id maps to the new record and every other id maps to what it did before |
| Tasks.PutIds | src/main/java/com/gradle/enterprise/export/AnalyzeBuilds.java:377 | a put adds its id to the id set and nothing else, and keeps ids distinct (a map has one record per id) |
| Tasks.Process | src/main/java/com/gradle/enterprise/export/AnalyzeBuilds.java:401-421 | a start stores the record built from the event's class name, path and timestamp, with finish time 0 and no outcome, replacing any earlier record of that id; a finish sets finish time and outcome on that id's record only; a finish for an unknown id and any other event type fail; all other records are unchanged |
| Tasks.ProcessAll | src/main/java/com/gradle/enterprise/export/AnalyzeBuilds.java:401-421 | a stream succeeds exactly when every event is a task event and every finish is for an id already in the table or started earlier in the stream; a successful stream keeps task ids distinct |
| Tasks.AcceptedStep | src/main/java/com/gradle/enterprise/export/AnalyzeBuilds.java:401-421 | once the first event is processed, the rest of the stream is accepted by the new table exactly when the whole stream was accepted by the old one |
| Tasks.StartThenFinish | src/main/java/com/gradle/enterprise/export/AnalyzeBuilds.java:406-417 | a start followed by a finish of the same id leaves a record with both times and the outcome |
| Tasks.FinishWithoutStartFails | src/main/java/com/gradle/enterprise/export/AnalyzeBuilds.java:413-415 | a lone finish on an empty table fails the session with the unknown id named |
| DeltaLine.Insert | src/main/java/com/gradle/enterprise/export/AnalyzeBuilds.java:437-438 | adding a delta keeps the map strictly sorted by timestamp, adds the delta to that timestamp's entry (absence read as 0) and leaves every other timestamp unchanged |
| DeltaLine.InsertSum | src/main/java/com/gradle/enterprise/export/AnalyzeBuilds.java:437-438 | adding a delta adds it to the total of all deltas |
| DeltaLine.InsertSumUpTo | src/main/java/com/gradle/enterprise/export/AnalyzeBuilds.java:437-438 | adding a delta at k adds it to the sum up to t exactly when k is at most t |
| DeltaLine.PrefixSumIsSumUpTo | src/main/java/com/gradle/enterprise/export/AnalyzeBuilds.java:444-451 | in ascending iteration, the level after the first i entries is the sum of all deltas at or before the i-th timestamp |
| Sweep.StepAttributesElapsedTime | src/main/java/com/gradle/enterprise/export/AnalyzeBuilds.java:447-452 | one entry gives the time since the previous timestamp to the current level (when not 0) and to no other level, moves the level by the delta and the clock to the timestamp, and so raises the level-weighted total by level times elapsed time |
| Sweep.SweepFrom | src/main/java/com/gradle/enterprise/export/AnalyzeBuilds.java:441-453 | the final level is the starting level plus the sum of all deltas |
| Sweep.AttributedLevels | src/main/java/com/gradle/enterprise/export/AnalyzeBuilds.java:447-451 | every histogram key is a nonzero running level seen before some entry; time at level 0 is never recorded |
| Sweep.LevelsPositive | src/main/java/com/gradle/enterprise/export/AnalyzeBuilds.java:441-453 | when the running level never goes negative, every histogram level is at least 1 |
| Sweep.TimesPositive | src/main/java/com/gradle/enterprise/export/AnalyzeBuilds.java:441-453 | over a strictly sorted map every recorded time is positive |
| Sweep.SweepPrefix | src/main/java/com/gradle/enterprise/export/AnalyzeBuilds.java:441-453 | after the first n entries the clock is at the n-th timestamp, each level holds the time spent at it so far, and the level-weighted total of the histogram is the area under the running level so far |
| Sweep.HistogramIsTimeAtLevel | src/main/java/com/gradle/enterprise/export/AnalyzeBuilds.java:441-453 | for every level k the histogram holds the summed length of the intervals between consecutive timestamps over which the running level (a prefix sum of deltas) equals k, with k nonzero; absent levels read as 0; the level-weighted total of the histogram is the area under the running level |
| Sweep.AreaByParts | src/main/java/com/gradle/enterprise/export/AnalyzeBuilds.java:441-453 | summation by parts: the level-weighted time up to an entry is its timestamp times the level there minus the sum of timestamp times delta so far |
| Sweep.WeightedTotalAdd | src/main/java/com/gradle/enterprise/export/AnalyzeBuilds.java:447-450 | adding time d at level k to a histogram adds k times d to its level-weighted total |
| Sweep.OverlappingTasks | src/main/java/com/gradle/enterprise/export/AnalyzeBuilds.java:441-453 | the deltas of tasks (0,10) and (5,15) sweep to {1: 10, 2: 5} |
| Sweep.BackToBackTasks | src/main/java/com/gradle/enterprise/export/AnalyzeBuilds.java:441-453 | the merged deltas of tasks (0,5) and (5,10) sweep to {1: 10} |
| TaskStatistics.CountedTasks | src/main/java/com/gradle/enterprise/export/AnalyzeBuilds.java:430-432 | a task is kept exactly when its type is admitted and its outcome is "success" or "failed" |
| TaskStatistics.CountedTasksCount | src/main/java/com/gradle/enterprise/export/AnalyzeBuilds.java:432-434 | the number of kept tasks is the number of tasks that count |
| TaskStatistics.RecordsAreLookups | src/main/java/com/gradle/enterprise/export/AnalyzeBuilds.java:430 | for a table with one record per id, `tasks.values()` holds exactly the records `tasks.get` returns for some id |
| TaskStatistics.TimesFrom | src/main/java/com/gradle/enterprise/export/AnalyzeBuilds.java:435-436 | the type (or path) map has one key per type (or path) of a counted task, holding the sum of finish - start over the tasks with that key |
| TaskStatistics.DeltasFrom | src/main/java/com/gradle/enterprise/export/AnalyzeBuilds.java:437-438 | adding every counted task's +1 and -1 keeps the delta map strictly sorted by timestamp |
| TaskStatistics.DeltaAtTimestamp | src/main/java/com/gradle/enterprise/export/AnalyzeBuilds.java:437-438 | each timestamp holds one merged delta: the tasks starting there minus those finishing there |
| TaskStatistics.DeltasUpTo | src/main/java/com/gradle/enterprise/export/AnalyzeBuilds.java:437-438 | the deltas at or before t sum to the tasks started by t minus the tasks finished by t |
| TaskStatistics.DeltasCancel | src/main/java/com/gradle/enterprise/export/AnalyzeBuilds.java:437-438 | every counted task adds +1 and -1, so the deltas sum to 0 |
| TaskStatistics.DeltasMoment | src/main/java/com/gradle/enterprise/export/AnalyzeBuilds.java:437-438 | each counted task adds its start time and subtracts its finish time in the sum of timestamp times delta, so that sum drops by the summed durations |
| TaskStatistics.FinishesNoMoreThanStarts | src/main/java/com/gradle/enterprise/export/AnalyzeBuilds.java:437-438 | if no task finishes before it starts, no more tasks have finished by t than have started by t |
| TaskStatistics.LevelNeverNegative | src/main/java/com/gradle/enterprise/export/AnalyzeBuilds.java:437-453 | if no counted task finishes before it starts, the running level is never negative and ends at 0 |
| TaskStatistics.HistogramWellFormed | src/main/java/com/gradle/enterprise/export/AnalyzeBuilds.java:437-453 | under the same condition every histogram level is at least 1 and every recorded time is positive |
| TaskStatistics.BusyTimeIsTaskTime | src/main/java/com/gradle/enterprise/export/AnalyzeBuilds.java:435-453 | the histogram's level-weighted total (sum of level times time) equals the summed duration of the counted tasks, and so does the area under the running-level curve, whatever the timestamps |
| TaskStatistics.OverlappingTasksReport | src/main/java/com/gradle/enterprise/export/AnalyzeBuilds.java:437-453 | tasks (0,10) and (5,15) give the histogram {1: 10, 2: 5} |
| TaskStatistics.BackToBackTasksReport | src/main/java/com/gradle/enterprise/export/AnalyzeBuilds.java:437-453 | tasks (0,5) and (5,10) give {1: 10}, with no dip to level 0 and no level 2 at time 5 |
| TaskStatistics.Complete | src/main/java/com/gradle/enterprise/export/AnalyzeBuilds.java:424-461 | fails exactly when an admitted task has no outcome; otherwise build ids are [buildId], max workers is {maxWorkers: 1}, the task count is the number of counted tasks, the type and path maps hold exactly the counted tasks' types and paths, each with its summed durations; the concurrency histogram holds, at every level, the time the running level of the counted tasks' deltas spends there, and its level-weighted total is the counted tasks' summed durations; its levels are at least 1 and its times positive when tasks are chronological |
| TaskStatistics.UncountedOutcomeIgnored | src/main/java/com/gradle/enterprise/export/AnalyzeBuilds.java:432 | adding a finished task with a new id whose outcome is not "success" or "failed" changes nothing in the report |
| TaskStatistics.StartedThenFinishedIsCounted | src/main/java/com/gradle/enterprise/export/AnalyzeBuilds.java:406-417 | a task started and then finished with outcome "success" or "failed", whose type the filter admits, is among the counted tasks of the resulting table |
| TaskStatistics.Run | src/main/java/com/gradle/enterprise/export/AnalyzeBuilds.java:401-461 | a successful task session used only task events and reports the one build id |
| Statistics.Merge | src/main/java/com/gradle/enterprise/export/AnalyzeBuilds.java:555-568 | build ids of the result are this list followed by the other's; task counts add; the result is `EMPTY` only when both are |
| Statistics.MergeSumsKeyWise | src/main/java/com/gradle/enterprise/export/AnalyzeBuilds.java:560-563 | each of the four maps of a merge is the key-wise sum of the inputs' maps, an `EMPTY` side contributing nothing |
| Statistics.MergeIdentity | src/main/java/com/gradle/enterprise/export/AnalyzeBuilds.java:486-488 | `EMPTY` is a two-sided identity of merge |
| Statistics.MergeAssociative | src/main/java/com/gradle/enterprise/export/AnalyzeBuilds.java:555-576 | merge is associative |
| Statistics.MergeCommutesExceptOrder | src/main/java/com/gradle/enterprise/export/AnalyzeBuilds.java:558-563 | swapping the operands keeps the task count and all four maps, and the same build ids as a multiset; with an `EMPTY` operand the results are equal |
| Statistics.MergeOrdersBuildIds | src/main/java/com/gradle/enterprise/export/AnalyzeBuilds.java:558 | merge order does change the order of build ids |
| Statistics.ReduceLast | src/main/java/com/gradle/enterprise/export/AnalyzeBuilds.java:172-173 | reducing a nonempty stream merges the reduction of all but the last element with the last |
| Statistics.ReduceConcat | src/main/java/com/gradle/enterprise/export/AnalyzeBuilds.java:150-173 | reducing a concatenation is merging the two reductions, so the split a parallel stream makes does not matter |
| Statistics.FoldMergeIsReduce | src/main/java/com/gradle/enterprise/export/AnalyzeBuilds.java:172-173 | a left fold from any start is that start merged with the reduction |
| Statistics.ReduceFromEmpty | src/main/java/com/gradle/enterprise/export/AnalyzeBuilds.java:172-173 | `reduce(merge).orElse(EMPTY)` equals the left fold that starts from `EMPTY` |
| Statistics.ReduceSkipsEmpty | src/main/java/com/gradle/enterprise/export/AnalyzeBuilds.java:160-163 | dropping an `EMPTY` element does not change the reduction |
| Statistics.ReduceEmpty | src/main/java/com/gradle/enterprise/export/AnalyzeBuilds.java:172-173 | `reduce(merge).orElse(EMPTY)` is `EMPTY` exactly when every element is |
| Statistics.FoldMergeTotals | src/main/java/com/gradle/enterprise/export/AnalyzeBuilds.java:172-173 | the fold from a start is `EMPTY` exactly when the start and every element are; its ids are the start's followed by all elements' ids, and its count is the start's plus all elements' counts |
| Statistics.ReduceTotals | src/main/java/com/gradle/enterprise/export/AnalyzeBuilds.java:172-173 | the reduced build ids are all inputs' ids in input order; the count and all four maps (type times, path times, concurrency times, max workers) are the sums over the inputs |
| BuildFeed.OnEvent | src/main/java/com/gradle/enterprise/export/AnalyzeBuilds.java:252-264 | one entry adds its id to the queue and one to the counter when it is a Gradle build, and nothing otherwise; the queue stays open |
| BuildFeed.GradleIds | src/main/java/com/gradle/enterprise/export/AnalyzeBuilds.java:255-256 | an id is selected exactly when some entry with tool type "gradle" carries it |
| BuildFeed.OnEventsForwardsGradleBuilds | src/main/java/com/gradle/enterprise/export/AnalyzeBuilds.java:252-264 | the queue receives exactly the Gradle build ids in arrival order, and the counter equals the number queued |
| BuildFeed.QueriedBuildIds | src/main/java/com/gradle/enterprise/export/AnalyzeBuilds.java:203-274 | after the stream closes (the close adds no id and drops none), the queue yields the Gradle build ids in arrival order |
| Pipeline.SelectBuildIds | src/main/java/com/gradle/enterprise/export/AnalyzeBuilds.java:147-149 | ids come from the explicit list if given, else from the file, else from the query, where they are exactly the Gradle build ids in arrival order |
| Pipeline.TaskTypeFilter | src/main/java/com/gradle/enterprise/export/AnalyzeBuilds.java:431 | the filter a build's task session uses admits a type exactly when no exclude list is configured |
| Pipeline.ProcessBuild | src/main/java/com/gradle/enterprise/export/AnalyzeBuilds.java:152-164 | a failed metadata stream or session, a non-matching build, a failed task stream or a failed task session each give `EMPTY`; otherwise the task report, whose build ids are [buildId] |
| Pipeline.NonMatchingBuildSkipsTaskStream | src/main/java/com/gradle/enterprise/export/AnalyzeBuilds.java:153-158 | a non-matching build gives `EMPTY` whatever its task stream holds |
| Pipeline.PerBuild | src/main/java/com/gradle/enterprise/export/AnalyzeBuilds.java:150-171 | one report per build id, in id order |
| Pipeline.PerBuildConcat | src/main/java/com/gradle/enterprise/export/AnalyzeBuilds.java:150-171 | the per-build reports of two batches are the concatenation of each batch's reports |
| Pipeline.AnalyzeConcat | src/main/java/com/gradle/enterprise/export/AnalyzeBuilds.java:150-173 | analysing two batches and merging equals analysing their concatenation |
| Pipeline.AnalyzeIdsEmpty | src/main/java/com/gradle/enterprise/export/AnalyzeBuilds.java:150-173 | the batch's report is `EMPTY` exactly when every build in it failed or did not match |
| Pipeline.AnalyzeBuildIds | src/main/java/com/gradle/enterprise/export/AnalyzeBuilds.java:150-173 | the final report lists exactly the builds that matched and did not fail, in the order given |
| Pipeline.FailedBuildIsolated | src/main/java/com/gradle/enterprise/export/AnalyzeBuilds.java:160-163 | a build that fails or does not match leaves the report as if it were not in the batch |
| Pipeline.Analyze | src/main/java/com/gradle/enterprise/export/AnalyzeBuilds.java:147-173 | the final report's build ids are exactly the selected builds whose chain yields a report (matched, no failure), in selection order; no include-project list is required |
| Pipeline.AnalyzeAsWritten | src/main/java/com/gradle/enterprise/export/AnalyzeBuilds.java:145 | the run fails exactly when no include-project list was given; otherwise it is the corrected run |

## Findings

| source | as written | input that shows it | evidently intended | confidence | as-written member | corrected member |
|---|---|---|---|---|---|---|
| src/main/java/com/gradle/enterprise/export/AnalyzeBuilds.java:431 | the matcher `pattern -> task.type::startsWith` ignores the configured list and tests whether the type starts with itself | `--include-task-type com.example.` and a task of type `org.gradle.Copy`: the task is admitted; any `--exclude-task-type` rejects every task | admit the types that start with an include prefix and reject those that start with an exclude prefix, as the option descriptions at lines 108-112 say | high, not executed | Filters.AdmitsTaskTypeAsWritten | Filters.AdmitsTaskTypeIntended |
| src/main/java/com/gradle/enterprise/export/AnalyzeBuilds.java:145 | the opening message calls `includeProjects.stream()` unconditionally | a run without `--include-project`: a null dereference before any build is processed | print the list only when it was given, and run the analysis either way | medium, not executed | Pipeline.AnalyzeAsWritten | Pipeline.Analyze |

`Pipeline` keeps the as-written task-type filter (`Pipeline.TaskTypeFilter`) because
that is what the code computes. `TaskStatistics.Complete` takes the filter as a
parameter, so the corrected filter plugs in unchanged.

## Left out

- The push-to-pull bridge (`StreamableQueue`) is not part of this model. The ids it
  yields are the queue contents in arrival order. Blocking and interruption while
  blocked are concurrency concerns.
- The queue ends at the string sentinel "FINISHED" (line 208), so a Gradle build whose
  id equals it would presumably end the id stream early. The model assumes no build id
  equals the sentinel.
- `BuildEventProcessingListener` and the `BuildEventProcessor` interface are not part
  of this model. The session is modelled as: events delivered in order, the first
  failure ends it, and `complete` runs after an orderly end.
- Network I/O is a parameter (`Pipeline.Server`): OkHttp, server-sent events, request
  URLs, authentication and connection pools. For the two per-build streams a transport
  or decoding failure is a `Failure` the server function returns.
- A failed "builds since" query is not modelled: `Server.buildsSince` is a complete list
  of entries. `FilterBuildsByBuildTool` (lines 238-275) handles only `onOpen`, `onEvent`
  and `onClosed`. Its failure handling is inherited from `PrintFailuresEventSourceListener`,
  which is not part of this model, and it does not close the queue.
- The parallel stream, `CompletableFuture` composition and `future.get()` are modelled
  by their sequential meaning. `ReduceConcat` and `AnalyzeConcat` show that any split of
  the stream gives the same result.
- JSON decoding is not modelled; events arrive decoded. For an unrecognised event
  type, the task processor reads `data.id` before its `switch` (line 404). It fails there
  when that field is missing, and at the `default` branch (lines 418-419) when it is
  present. The model reports `UnknownEventType` in both cases. Either way the session
  fails.
- Regular-expression matching of requested tasks is an uninterpreted predicate
  (`BuildInfo.TaskPattern`).
- `print()` is console formatting, and so is `lastKey()` throwing on an empty histogram.
  Reading and writing the build-id file is I/O; the file's lines are an input
  (`Options.buildsFromFile`).
- Java `int`/`long` overflow in counts and sums is not modelled; integers are unbounded.
- An `onEvent` entry without a `buildId` field and a `toolType` that is not text are
  decoding concerns.
- Tasks.ProcessAll: states exactly when a stream succeeds and that ids stay distinct,
  but not the records after a whole stream. `Tasks.Process` states that per event.
- TaskStatistics.Run: states only the build id and the event kinds of a success.
  `TaskStatistics.Complete` states the report.
