/** `ProcessTaskEvents.complete`: turns the task table of one build into a
    per-build `BuildStatistics`.  A task counts when its type passes the
    task-type filter and its outcome is "success" or "failed".  Counted
    tasks add their duration to their type's and their path's total, and
    +1 / -1 at their start / finish to the delta map, which is then swept
    into the concurrency histogram. */
module TaskStatistics {
  import opened Common
  import opened Counters
  import opened Tasks
  import opened DeltaLine
  import opened Sweep
  import opened Statistics

  /** The records of the table, in its iteration order. */
  function Records(t: TaskTable): (r: seq<TaskInfo>)
    ensures |r| == |t|
    ensures forall i :: 0 <= i < |t| ==> r[i] == t[i].1
  {
    seq(|t|, i requires 0 <= i < |t| => t[i].1)
  }

  /** The records of a table with distinct ids are exactly the records
      `tasks.get` can return. */
  lemma RecordsAreLookups(t: TaskTable)
    requires DistinctIds(t)
    ensures forall x :: x in Records(t) <==> Stored(t, x)
  {
    forall x | x in Records(t)
      ensures Stored(t, x)
    {
      var i :| 0 <= i < |t| && Records(t)[i] == x;
      LookupFinds(t, t[i].0, i);
      assert Lookup(t, t[i].0) == Some(x);
    }
    forall x | Stored(t, x)
      ensures x in Records(t)
    {
      var id :| Lookup(t, id) == Some(x);
      var i :| 0 <= i < |t| && t[i] == (id, x);
      assert Records(t)[i] == x;
    }
  }

  predicate CountedOutcome(info: TaskInfo)
  {
    info.outcome == Some("success") || info.outcome == Some("failed")
  }

  /** A task is counted when the filter admits its type and its outcome is
      one of the two counted ones. */
  predicate Counted(info: TaskInfo, admits: string -> bool)
  {
    admits(info.taskType) && CountedOutcome(info)
  }

  /** The two stream filters, in order: the counted tasks of `tasks`. */
  function CountedTasks(tasks: seq<TaskInfo>, admits: string -> bool): (r: seq<TaskInfo>)
    ensures |r| <= |tasks|
    ensures forall x :: x in r <==> x in tasks && Counted(x, admits)
  {
    if |tasks| == 0 then []
    else (if Counted(tasks[0], admits) then [tasks[0]] else []) + CountedTasks(tasks[1..], admits)
  }

  /** How many tasks are counted (the reference for `taskCount`). */
  function CountWhere(tasks: seq<TaskInfo>, admits: string -> bool): nat
  {
    if |tasks| == 0 then 0
    else (if Counted(tasks[0], admits) then 1 else 0) + CountWhere(tasks[1..], admits)
  }

  lemma {:induction false} CountedTasksCount(tasks: seq<TaskInfo>, admits: string -> bool)
    ensures |CountedTasks(tasks, admits)| == CountWhere(tasks, admits)
    decreases |tasks|
  {
    if |tasks| > 0 {
      CountedTasksCount(tasks[1..], admits);
    }
  }

  function Duration(info: TaskInfo): int
  {
    info.finishTime - info.startTime
  }

  /** Which map a task's duration goes to. */
  datatype TimeKey = ByType | ByPath

  function KeyOf(info: TaskInfo, key: TimeKey): string
  {
    match key
    case ByType => info.taskType
    case ByPath => info.path
  }

  /** The total duration of the tasks whose type (or path) is `k`. */
  function DurationOf(tasks: seq<TaskInfo>, key: TimeKey, k: string): int
  {
    if |tasks| == 0 then 0
    else (if KeyOf(tasks[0], key) == k then Duration(tasks[0]) else 0) + DurationOf(tasks[1..], key, k)
  }

  /** The types (or paths) of the tasks. */
  function KeysOf(tasks: seq<TaskInfo>, key: TimeKey): set<string>
  {
    set i | 0 <= i < |tasks| :: KeyOf(tasks[i], key)
  }

  /** `add(taskTypeTimes, task.type, duration)` (or the path map) over the
      tasks in order, starting from `acc`. */
  function TimesFrom(acc: map<string, int>, tasks: seq<TaskInfo>, key: TimeKey): (r: map<string, int>)
    ensures r.Keys == acc.Keys + KeysOf(tasks, key)
    ensures forall k :: Get(r, k) == Get(acc, k) + DurationOf(tasks, key, k)
    decreases |tasks|
  {
    if |tasks| == 0 then acc
    else
      var r := TimesFrom(Add(acc, KeyOf(tasks[0], key), Duration(tasks[0])), tasks[1..], key);
      assert KeysOf(tasks, key) == {KeyOf(tasks[0], key)} + KeysOf(tasks[1..], key) by {
        forall x | x in KeysOf(tasks, key)
          ensures x in {KeyOf(tasks[0], key)} + KeysOf(tasks[1..], key)
        {
          var i :| 0 <= i < |tasks| && KeyOf(tasks[i], key) == x;
          if i > 0 {
            assert tasks[1..][i - 1] == tasks[i];
          }
        }
        forall x | x in KeysOf(tasks[1..], key)
          ensures x in KeysOf(tasks, key)
        {
          var i :| 0 <= i < |tasks[1..]| && KeyOf(tasks[1..][i], key) == x;
          assert tasks[i + 1] == tasks[1..][i];
        }
      }
      r
  }

  /** `add(startStopEvents, start, 1)` then `add(startStopEvents, finish, -1)`
      for each task in order, starting from `acc`. */
  function DeltasFrom(acc: Entries, tasks: seq<TaskInfo>): (r: Entries)
    requires StrictlySorted(acc)
    ensures StrictlySorted(r)
    decreases |tasks|
  {
    if |tasks| == 0 then acc
    else DeltasFrom(Insert(Insert(acc, tasks[0].startTime, 1), tasks[0].finishTime, -1), tasks[1..])
  }

  function StartsBy(tasks: seq<TaskInfo>, t: int): nat
  {
    if |tasks| == 0 then 0
    else (if tasks[0].startTime <= t then 1 else 0) + StartsBy(tasks[1..], t)
  }

  function FinishesBy(tasks: seq<TaskInfo>, t: int): nat
  {
    if |tasks| == 0 then 0
    else (if tasks[0].finishTime <= t then 1 else 0) + FinishesBy(tasks[1..], t)
  }

  /** The number of tasks starting at `t` minus the number finishing at `t`. */
  function NetChangeAt(tasks: seq<TaskInfo>, t: int): int
  {
    if |tasks| == 0 then 0
    else (if tasks[0].startTime == t then 1 else 0) - (if tasks[0].finishTime == t then 1 else 0)
         + NetChangeAt(tasks[1..], t)
  }

  /** Each timestamp holds a single entry: the starts there minus the
      finishes there, all merged before the sweep. */
  lemma {:induction false} DeltaAtTimestamp(acc: Entries, tasks: seq<TaskInfo>, t: int)
    requires StrictlySorted(acc)
    ensures DeltaAt(DeltasFrom(acc, tasks), t) == DeltaAt(acc, t) + NetChangeAt(tasks, t)
    decreases |tasks|
  {
    if |tasks| > 0 {
      var a1 := Insert(acc, tasks[0].startTime, 1);
      DeltaAtTimestamp(Insert(a1, tasks[0].finishTime, -1), tasks[1..], t);
    }
  }

  /** The deltas at or before `t` sum to the number of tasks started by `t`
      minus the number finished by `t`. */
  lemma {:induction false} DeltasUpTo(acc: Entries, tasks: seq<TaskInfo>, t: int)
    requires StrictlySorted(acc)
    ensures SumUpTo(DeltasFrom(acc, tasks), t) == SumUpTo(acc, t) + StartsBy(tasks, t) - FinishesBy(tasks, t)
    decreases |tasks|
  {
    if |tasks| > 0 {
      var a1 := Insert(acc, tasks[0].startTime, 1);
      InsertSumUpTo(acc, tasks[0].startTime, 1, t);
      InsertSumUpTo(a1, tasks[0].finishTime, -1, t);
      DeltasUpTo(Insert(a1, tasks[0].finishTime, -1), tasks[1..], t);
    }
  }

  /** Every task adds +1 and -1, so the deltas cancel out. */
  lemma {:induction false} DeltasCancel(acc: Entries, tasks: seq<TaskInfo>)
    requires StrictlySorted(acc)
    ensures Sum(DeltasFrom(acc, tasks)) == Sum(acc)
    decreases |tasks|
  {
    if |tasks| > 0 {
      var a1 := Insert(acc, tasks[0].startTime, 1);
      InsertSum(acc, tasks[0].startTime, 1);
      InsertSum(a1, tasks[0].finishTime, -1);
      DeltasCancel(Insert(a1, tasks[0].finishTime, -1), tasks[1..]);
    }
  }

  /** No task finishes before it starts. */
  predicate Chronological(tasks: seq<TaskInfo>)
  {
    forall i :: 0 <= i < |tasks| ==> tasks[i].startTime <= tasks[i].finishTime
  }

  lemma {:induction false} FinishesNoMoreThanStarts(tasks: seq<TaskInfo>, t: int)
    requires Chronological(tasks)
    ensures FinishesBy(tasks, t) <= StartsBy(tasks, t)
    decreases |tasks|
  {
    if |tasks| > 0 {
      assert tasks[0].startTime <= tasks[0].finishTime;
      FinishesNoMoreThanStarts(tasks[1..], t);
    }
  }

  /** When no counted task finishes before it starts, the running level of
      the sweep never goes below 0 and ends at 0. */
  lemma LevelNeverNegative(tasks: seq<TaskInfo>)
    requires Chronological(tasks)
    ensures forall i :: 0 <= i <= |DeltasFrom([], tasks)| ==> Sum(DeltasFrom([], tasks)[..i]) >= 0
    ensures Sum(DeltasFrom([], tasks)) == 0
    ensures SweepFrom(Start, DeltasFrom([], tasks)).level == 0
  {
    var e := DeltasFrom([], tasks);
    DeltasCancel([], tasks);
    forall i | 0 <= i <= |e|
      ensures Sum(e[..i]) >= 0
    {
      if i > 0 {
        PrefixSumIsSumUpTo(e, i);
        DeltasUpTo([], tasks, e[i - 1].0);
        FinishesNoMoreThanStarts(tasks, e[i - 1].0);
      }
    }
  }

  /** Consequently every level in the histogram is at least 1 and every
      attributed time is positive. */
  lemma HistogramWellFormed(tasks: seq<TaskInfo>)
    requires Chronological(tasks)
    ensures forall k :: k in Histogram(DeltasFrom([], tasks)) ==>
      k >= 1 && Histogram(DeltasFrom([], tasks))[k] > 0
  {
    LevelNeverNegative(tasks);
    LevelsPositive(DeltasFrom([], tasks));
    TimesPositive(DeltasFrom([], tasks));
  }

  /** The summed duration of the tasks. */
  function TotalDuration(tasks: seq<TaskInfo>): int
  {
    if |tasks| == 0 then 0 else Duration(tasks[0]) + TotalDuration(tasks[1..])
  }

  /** Every task puts its start time with +1 and its finish time with -1. */
  lemma {:induction false} DeltasMoment(acc: Entries, tasks: seq<TaskInfo>)
    requires StrictlySorted(acc)
    ensures Moment(DeltasFrom(acc, tasks)) == Moment(acc) - TotalDuration(tasks)
    decreases |tasks|
  {
    if |tasks| > 0 {
      var a1 := Insert(acc, tasks[0].startTime, 1);
      InsertMoment(acc, tasks[0].startTime, 1);
      InsertMoment(a1, tasks[0].finishTime, -1);
      DeltasMoment(Insert(a1, tasks[0].finishTime, -1), tasks[1..]);
    }
  }

  /** The concurrency histogram accounts for all task time: summed over the
      sweep, the time at each level weighted by the level is the total
      duration of the counted tasks. */
  lemma BusyTimeIsTaskTime(tasks: seq<TaskInfo>)
    ensures Area(DeltasFrom([], tasks), |DeltasFrom([], tasks)|) == TotalDuration(tasks)
    ensures WeightedTotal(Histogram(DeltasFrom([], tasks))) == TotalDuration(tasks)
  {
    var e := DeltasFrom([], tasks);
    HistogramIsTimeAtLevel(e);
    DeltasMoment([], tasks);
    DeltasCancel([], tasks);
    if |e| > 0 {
      AreaByParts(e, |e|);
      assert e[..|e|] == e;
    }
  }

  /** The two overlapping tasks (0, 10) and (5, 15) give 10 ms at level 1
      and 5 ms at level 2. */
  lemma OverlappingTasksReport()
    ensures Histogram(DeltasFrom([], [TaskInfo("T", ":a", 0, 10, Some("success")),
                                      TaskInfo("T", ":b", 5, 15, Some("success"))]))
         == map[1 := 10, 2 := 5]
  {
    var a := TaskInfo("T", ":a", 0, 10, Some("success"));
    var b := TaskInfo("T", ":b", 5, 15, Some("success"));
    var tasks := [a, b];
    var e0: Entries := [];
    var e1: Entries := [(0, 1)];
    var e2: Entries := [(0, 1), (10, -1)];
    var e3: Entries := [(0, 1), (5, 1), (10, -1)];
    var e4: Entries := [(0, 1), (5, 1), (10, -1), (15, -1)];
    assert Insert(e0, 0, 1) == e1;
    assert Insert(e1, 10, -1) == e2;
    assert Insert(e2, 5, 1) == e3;
    assert Insert(e3, 15, -1) == e4;
    assert tasks[1..] == [b] && |tasks[1..][1..]| == 0;
    assert DeltasFrom(e4, tasks[1..][1..]) == e4;
    assert DeltasFrom(e2, tasks[1..]) == e4;
    assert DeltasFrom(e0, tasks) == e4;
    OverlappingTasks();
  }

  /** The back-to-back tasks (0, 5) and (5, 10) give 10 ms at level 1: the
      finish and the start at 5 merge into one zero delta. */
  lemma BackToBackTasksReport()
    ensures Histogram(DeltasFrom([], [TaskInfo("T", ":a", 0, 5, Some("success")),
                                      TaskInfo("T", ":b", 5, 10, Some("success"))]))
         == map[1 := 10]
  {
    var a := TaskInfo("T", ":a", 0, 5, Some("success"));
    var b := TaskInfo("T", ":b", 5, 10, Some("success"));
    var tasks := [a, b];
    var e0: Entries := [];
    var e1: Entries := [(0, 1)];
    var e2: Entries := [(0, 1), (5, -1)];
    var e3: Entries := [(0, 1), (5, 0)];
    var e4: Entries := [(0, 1), (5, 0), (10, -1)];
    assert Insert(e0, 0, 1) == e1;
    assert Insert(e1, 5, -1) == e2;
    assert Insert(e2, 5, 1) == e3;
    assert Insert(e3, 10, -1) == e4;
    assert tasks[1..] == [b] && |tasks[1..][1..]| == 0;
    assert DeltasFrom(e4, tasks[1..][1..]) == e4;
    assert DeltasFrom(e2, tasks[1..]) == e4;
    assert DeltasFrom(e0, tasks) == e4;
    BackToBackTasks();
  }

  /** Some task that passes the type filter has no outcome: the outcome
      comparison dereferences null. */
  predicate HasUnfinished(tasks: seq<TaskInfo>, admits: string -> bool)
  {
    exists i :: 0 <= i < |tasks| && admits(tasks[i].taskType) && tasks[i].outcome.None?
  }

  /** `complete()`.  The per-build report lists the one build id, counts one
      build at its max-workers value, and holds the counted tasks' totals. */
  function Complete(buildId: string, maxWorkers: int, admits: string -> bool, t: TaskTable)
    : (r: Result<BuildStatistics>)
    ensures r.Failure? <==> HasUnfinished(Records(t), admits)
    ensures r.Failure? ==> r.error == TaskWithoutOutcome
    ensures r.Success? ==> r.value.Stats?
    ensures r.Success? ==> r.value.buildIds == [buildId]
    ensures r.Success? ==> r.value.maxWorkers == map[maxWorkers := 1]
    ensures r.Success? ==> r.value.taskCount == CountWhere(Records(t), admits)
    ensures r.Success? ==> forall k ::
      Get(r.value.taskTypeTimes, k) == DurationOf(CountedTasks(Records(t), admits), ByType, k)
    ensures r.Success? ==> forall k ::
      Get(r.value.taskPathTimes, k) == DurationOf(CountedTasks(Records(t), admits), ByPath, k)
    ensures r.Success? ==> r.value.taskTypeTimes.Keys == KeysOf(CountedTasks(Records(t), admits), ByType)
    ensures r.Success? ==> r.value.taskPathTimes.Keys == KeysOf(CountedTasks(Records(t), admits), ByPath)
    ensures r.Success? ==> var e := DeltasFrom([], CountedTasks(Records(t), admits));
      forall k :: Get(r.value.workerTimes, k) == TimeAtLevel(e, k, |e|)
    ensures r.Success? ==>
      WeightedTotal(r.value.workerTimes) == TotalDuration(CountedTasks(Records(t), admits))
    ensures r.Success? && Chronological(CountedTasks(Records(t), admits)) ==>
      forall k :: k in r.value.workerTimes ==> k >= 1 && r.value.workerTimes[k] > 0
  {
    var records := Records(t);
    if HasUnfinished(records, admits) then Failure(TaskWithoutOutcome)
    else
      var counted := CountedTasks(records, admits);
      CountedTasksCount(records, admits);
      var deltas := DeltasFrom([], counted);
      HistogramIsTimeAtLevel(deltas);
      BusyTimeIsTaskTime(counted);
      assert Chronological(counted) ==> forall k :: k in Histogram(deltas) ==>
        k >= 1 && Histogram(deltas)[k] > 0 by {
        if Chronological(counted) {
          HistogramWellFormed(counted);
        }
      }
      Success(Stats(
        [buildId],
        |counted|,
        TimesFrom(map[], counted, ByType),
        TimesFrom(map[], counted, ByPath),
        Histogram(deltas),
        map[maxWorkers := 1]))
  }

  lemma {:induction false} UncountedAppended(tasks: seq<TaskInfo>, x: TaskInfo, admits: string -> bool)
    requires !Counted(x, admits)
    ensures CountedTasks(tasks + [x], admits) == CountedTasks(tasks, admits)
    decreases |tasks|
  {
    if |tasks| == 0 {
      assert tasks + [x] == [x];
      assert [x][1..] == [];
    } else {
      assert (tasks + [x])[1..] == tasks[1..] + [x];
      UncountedAppended(tasks[1..], x, admits);
    }
  }

  /** A finished task whose outcome is neither "success" nor "failed" (for
      example "skipped") changes no statistic. */
  lemma UncountedOutcomeIgnored(buildId: string, maxWorkers: int, admits: string -> bool,
                                t: TaskTable, id: int, info: TaskInfo)
    requires id !in Ids(t)
    requires info.outcome.Some? && !CountedOutcome(info)
    ensures Complete(buildId, maxWorkers, admits, t + [(id, info)])
         == Complete(buildId, maxWorkers, admits, t)
  {
    var rs := Records(t);
    assert Records(t + [(id, info)]) == rs + [info];
    UncountedAppended(rs, info, admits);
    assert HasUnfinished(rs + [info], admits) == HasUnfinished(rs, admits) by {
      if HasUnfinished(rs + [info], admits) {
        var i :| 0 <= i < |rs + [info]| && admits((rs + [info])[i].taskType) && (rs + [info])[i].outcome.None?;
        assert i < |rs| && (rs + [info])[i] == rs[i];
      }
      if HasUnfinished(rs, admits) {
        var i :| 0 <= i < |rs| && admits(rs[i].taskType) && rs[i].outcome.None?;
        assert (rs + [info])[i] == rs[i];
      }
    }
  }

  /** A task that starts and then finishes with a counted outcome, and whose
      type the filter admits, is among the counted tasks of the table. */
  lemma StartedThenFinishedIsCounted(t: TaskTable, id: int, start: int, finish: int,
                                     cls: string, path: string, outcome: string,
                                     admits: string -> bool)
    requires DistinctIds(t)
    requires admits(cls) && (outcome == "success" || outcome == "failed")
    ensures ProcessAll(t, [Events.TaskStarted(start, id, cls, path), Events.TaskFinished(finish, id, outcome)]).Success?
    ensures TaskInfo(cls, path, start, finish, Some(outcome))
      in CountedTasks(Records(ProcessAll(t, [Events.TaskStarted(start, id, cls, path),
                                              Events.TaskFinished(finish, id, outcome)]).value), admits)
  {
    var events := [Events.TaskStarted(start, id, cls, path), Events.TaskFinished(finish, id, outcome)];
    StartThenFinish(t, id, start, finish, cls, path, outcome);
    var t2 := ProcessAll(t, events).value;
    RecordsAreLookups(t2);
    assert Stored(t2, TaskInfo(cls, path, start, finish, Some(outcome)));
  }

  /** One task-event session: fold the stream into the task table, then
      complete. */
  function Run(buildId: string, maxWorkers: int, admits: string -> bool, events: seq<Events.Event>)
    : (r: Result<BuildStatistics>)
    ensures r.Success? ==> r.value.Stats? && r.value.buildIds == [buildId]
    ensures r.Success? ==> forall i :: 0 <= i < |events| ==> Events.IsTaskEvent(events[i])
  {
    match ProcessAll([], events)
    case Failure(err) => Failure(err)
    case Success(t) => Complete(buildId, maxWorkers, admits, t)
  }
}
