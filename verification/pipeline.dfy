/** `processEvents`: picks the build ids, runs for each build the metadata
    session, and for a matching build the task session, turns every failure
    into `EMPTY`, and reduces the per-build reports with `merge`.  The
    parallel stream and the futures are modelled by their sequential
    meaning; the server is a parameter giving each build's two event
    streams. */
module Pipeline {
  import opened Common
  import opened Events
  import opened Filters
  import opened BuildInfo
  import opened TaskStatistics
  import opened Statistics
  import opened BuildFeed

  /** The options the analysis reads; `None` is an option not given. */
  datatype Options = Options(
    builds: Option<seq<string>>,          // --builds
    buildsFromFile: Option<seq<string>>,  // the lines of --load-builds-from, read by the caller
    criteria: Criteria,                   // project, tag and requested-task criteria
    includeTaskTypes: Option<seq<string>>,
    excludeTaskTypes: Option<seq<string>>)

  /** What the server streams: each build's metadata events and task
      events (a `Failure` is a transport or decoding error), and the entries
      of the "builds since" query. */
  datatype Server = Server(
    metadata: string -> Result<seq<Event>>,
    taskEvents: string -> Result<seq<Event>>,
    buildsSince: seq<BuildSummary>)

  /** Build ids come from `--builds`, else from the file, else from the
      query, of which only Gradle builds are kept. */
  function SelectBuildIds(o: Options, server: Server): (r: seq<string>)
    ensures o.builds.Some? ==> r == o.builds.value
    ensures o.builds.None? && o.buildsFromFile.Some? ==> r == o.buildsFromFile.value
    ensures o.builds.None? && o.buildsFromFile.None? ==> r == GradleIds(server.buildsSince)
  {
    if o.builds.Some? then o.builds.value
    else if o.buildsFromFile.Some? then o.buildsFromFile.value
    else QueriedBuildIds(server.buildsSince)
  }

  /** The task-type filter handed to `ProcessTaskEvents`, as the code builds it. */
  function TaskTypeFilter(o: Options): (r: string -> bool)
    ensures forall taskType :: r(taskType) <==> o.excludeTaskTypes.None?
  {
    (taskType: string) => AdmitsTaskTypeAsWritten(taskType, o.includeTaskTypes, o.excludeTaskTypes)
  }

  /** The chain for one build: metadata session; `EMPTY` if the build does
      not match; otherwise the task session.  Any failure on the way becomes
      `EMPTY` (`exceptionally`). */
  function ProcessBuild(o: Options, server: Server, buildId: string): (r: BuildStatistics)
    ensures r.Stats? ==> r.buildIds == [buildId]
    ensures server.metadata(buildId).Failure? ==> r.Empty?
    ensures server.metadata(buildId).Success? ==>
      var info := BuildInfo.Run(buildId, o.criteria, server.metadata(buildId).value);
      && (info.Failure? ==> r.Empty?)
      && (info.Success? && !info.value.matches ==> r.Empty?)
      && (info.Success? && info.value.matches ==>
            var stats := server.taskEvents(buildId);
            && (stats.Failure? ==> r.Empty?)
            && (stats.Success? ==>
                  var report := TaskStatistics.Run(buildId, info.value.maxWorkers, TaskTypeFilter(o), stats.value);
                  && (report.Failure? ==> r.Empty?)
                  && (report.Success? ==> r == report.value)))
  {
    match server.metadata(buildId)
    case Failure(_) => Empty
    case Success(metadataEvents) =>
      match BuildInfo.Run(buildId, o.criteria, metadataEvents)
      case Failure(_) => Empty
      case Success(info) =>
        if !info.matches then Empty
        else
          match server.taskEvents(info.buildId)
          case Failure(_) => Empty
          case Success(taskEvents) =>
            match TaskStatistics.Run(info.buildId, info.maxWorkers, TaskTypeFilter(o), taskEvents)
            case Failure(_) => Empty
            case Success(report) => report
  }

  /** A build that does not match is decided without its task stream. */
  lemma NonMatchingBuildSkipsTaskStream(o: Options, server: Server, buildId: string,
                                        otherTaskEvents: string -> Result<seq<Event>>)
    requires server.metadata(buildId).Success?
    requires BuildInfo.Run(buildId, o.criteria, server.metadata(buildId).value).Success?
    requires !BuildInfo.Run(buildId, o.criteria, server.metadata(buildId).value).value.matches
    ensures ProcessBuild(o, server, buildId) == Empty
    ensures ProcessBuild(o, server.(taskEvents := otherTaskEvents), buildId) == Empty
  {
  }

  /** The per-build reports, in build-id order. */
  function PerBuild(o: Options, server: Server, ids: seq<string>): (r: seq<BuildStatistics>)
    ensures |r| == |ids|
    ensures forall i :: 0 <= i < |ids| ==> r[i] == ProcessBuild(o, server, ids[i])
  {
    seq(|ids|, i requires 0 <= i < |ids| => ProcessBuild(o, server, ids[i]))
  }

  /** The reduction over a list of build ids. */
  function AnalyzeIds(o: Options, server: Server, ids: seq<string>): BuildStatistics
  {
    Reduce(PerBuild(o, server, ids))
  }

  /** The batch's report is `EMPTY` exactly when every build in it failed
      or did not match. */
  lemma AnalyzeIdsEmpty(o: Options, server: Server, ids: seq<string>)
    ensures AnalyzeIds(o, server, ids).Empty?
        <==> forall i :: 0 <= i < |ids| ==> ProcessBuild(o, server, ids[i]).Empty?
  {
    ReduceEmpty(PerBuild(o, server, ids));
  }

  /** The whole run, with `--include-project` given or not.  This is the
      corrected version of the run: see `AnalyzeAsWritten`. */
  function Analyze(o: Options, server: Server): (r: BuildStatistics)
    ensures BuildIds(r) == ContributingIds(o, server, SelectBuildIds(o, server))
  {
    AnalyzeBuildIds(o, server, SelectBuildIds(o, server));
    AnalyzeIds(o, server, SelectBuildIds(o, server))
  }

  /** The run as written: the opening message joins the include-project
      list, which throws when `--include-project` was not given. */
  function AnalyzeAsWritten(o: Options, server: Server): (r: Result<BuildStatistics>)
    ensures r.Failure? <==> o.criteria.includeProjects.None?
    ensures r.Success? ==> r.value == Analyze(o, server)
  {
    if o.criteria.includeProjects.None? then Failure(NoIncludeProjects)
    else Success(Analyze(o, server))
  }

  /** The ids of the builds that contribute a report, in order. */
  function ContributingIds(o: Options, server: Server, ids: seq<string>): seq<string>
  {
    if |ids| == 0 then []
    else (if ProcessBuild(o, server, ids[0]).Stats? then [ids[0]] else [])
         + ContributingIds(o, server, ids[1..])
  }

  lemma PerBuildConcat(o: Options, server: Server, ids1: seq<string>, ids2: seq<string>)
    ensures PerBuild(o, server, ids1 + ids2) == PerBuild(o, server, ids1) + PerBuild(o, server, ids2)
  {
    var ids := ids1 + ids2;
    var xs, ys := PerBuild(o, server, ids1), PerBuild(o, server, ids2);
    forall i | 0 <= i < |ids|
      ensures PerBuild(o, server, ids)[i] == (xs + ys)[i]
    {
      if i < |ids1| {
        assert ids[i] == ids1[i];
      } else {
        assert ids[i] == ids2[i - |ids1|];
      }
    }
  }

  /** Analysing two batches and merging is analysing their concatenation:
      the split a parallel stream chooses does not change the result. */
  lemma AnalyzeConcat(o: Options, server: Server, ids1: seq<string>, ids2: seq<string>)
    ensures AnalyzeIds(o, server, ids1 + ids2)
         == Merge(AnalyzeIds(o, server, ids1), AnalyzeIds(o, server, ids2))
  {
    PerBuildConcat(o, server, ids1, ids2);
    ReduceConcat(PerBuild(o, server, ids1), PerBuild(o, server, ids2));
  }

  /** The final report lists exactly the builds that matched and did not
      fail, each once, in the order their ids were given. */
  lemma {:induction false} AnalyzeBuildIds(o: Options, server: Server, ids: seq<string>)
    ensures BuildIds(AnalyzeIds(o, server, ids)) == ContributingIds(o, server, ids)
    decreases |ids|
  {
    if |ids| > 0 {
      assert ids == [ids[0]] + ids[1..];
      AnalyzeConcat(o, server, [ids[0]], ids[1..]);
      AnalyzeBuildIds(o, server, ids[1..]);
      assert PerBuild(o, server, [ids[0]]) == [ProcessBuild(o, server, ids[0])];
    }
  }

  /** Dropping one id drops its report and keeps the others in order. */
  lemma PerBuildRemove(o: Options, server: Server, ids: seq<string>, i: nat)
    requires i < |ids|
    ensures PerBuild(o, server, ids[..i] + ids[i + 1..])
         == PerBuild(o, server, ids)[..i] + PerBuild(o, server, ids)[i + 1..]
  {
    var front, back := ids[..i], ids[i + 1..];
    assert ids == front + ([ids[i]] + back);
    PerBuildConcat(o, server, front, [ids[i]] + back);
    PerBuildConcat(o, server, [ids[i]], back);
    PerBuildConcat(o, server, front, back);
  }

  /** A build that fails or does not match leaves the report exactly as if
      it had not been in the batch. */
  lemma FailedBuildIsolated(o: Options, server: Server, ids: seq<string>, i: nat)
    requires i < |ids| && ProcessBuild(o, server, ids[i]).Empty?
    ensures AnalyzeIds(o, server, ids) == AnalyzeIds(o, server, ids[..i] + ids[i + 1..])
  {
    var xs := PerBuild(o, server, ids);
    ReduceSkipsEmpty(xs, i);
    PerBuildRemove(o, server, ids, i);
  }
}
