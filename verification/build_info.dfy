/** `ProcessBuildInfo`: folds the build-metadata events of one build into
    the root project names, user tags, requested tasks and maximum worker
    count, then decides whether the build passes the project, tag and
    requested-task criteria. */
module BuildInfo {
  import opened Common
  import opened Events
  import opened Filters

  /** A compiled requested-task regular expression, seen only through the
      question whether it fully matches a task name. */
  type TaskPattern = string -> bool

  /** The metadata-level criteria of a run; `None` is an option not given. */
  datatype Criteria = Criteria(
    includeProjects: Option<seq<string>>,
    excludeProjects: Option<seq<string>>,
    includeTags: Option<seq<string>>,
    excludeTags: Option<seq<string>>,
    includeRequestedTasks: Option<TaskPattern>,
    excludeRequestedTasks: Option<TaskPattern>)

  /** What the processor has gathered so far.  `requestedTasks` stays null
      until a requested-tasks event arrives; `maxWorkers` starts at 0. */
  datatype Accumulator = Accumulator(
    rootProjects: seq<string>,
    tags: seq<string>,
    requestedTasks: Option<seq<string>>,
    maxWorkers: int)

  const Fresh: Accumulator := Accumulator([], [], None, 0)

  /** `process`: one metadata event.  Any other event type is fatal. */
  function Process(acc: Accumulator, e: Event): (r: Result<Accumulator>)
    ensures r.Failure? <==> !IsMetadataEvent(e)
    ensures r.Failure? ==> r.error == UnknownEventType(EventType(e))
  {
    match e
    case ProjectStructure(name) => Success(acc.(rootProjects := acc.rootProjects + [name]))
    case UserTag(tag) => Success(acc.(tags := acc.tags + [tag]))
    case BuildModes(n) => Success(acc.(maxWorkers := n))
    case BuildRequestedTasks(requested) => Success(acc.(requestedTasks := Some(requested)))
    case _ => Failure(UnknownEventType(EventType(e)))
  }

  /** The events of one stream delivered in order; the first failure ends
      the session. */
  function ProcessAll(acc: Accumulator, events: seq<Event>): (r: Result<Accumulator>)
    ensures r.Success? <==> forall i :: 0 <= i < |events| ==> IsMetadataEvent(events[i])
    ensures r.Failure? ==>
      exists i :: 0 <= i < |events| && !IsMetadataEvent(events[i])
        && (forall j :: 0 <= j < i ==> IsMetadataEvent(events[j]))
        && r.error == UnknownEventType(EventType(events[i]))
    decreases |events|
  {
    if |events| == 0 then Success(acc)
    else
      assert forall i :: 1 <= i < |events| ==> events[i] == events[1..][i - 1];
      match Process(acc, events[0])
      case Failure(err) => Failure(err)
      case Success(next) =>
        var r := ProcessAll(next, events[1..]);
        assert r.Failure? ==>
          (exists i :: 1 <= i < |events| && !IsMetadataEvent(events[i])
            && (forall j :: 0 <= j < i ==> IsMetadataEvent(events[j]))
            && r.error == UnknownEventType(EventType(events[i])));
        r
  }

  // Reference descriptions of what the events say, independent of the fold.

  /** The root project names the events carry, in arrival order. */
  function RootProjectsIn(events: seq<Event>): seq<string>
  {
    if |events| == 0 then []
    else (if events[0].ProjectStructure? then [events[0].rootProjectName] else [])
         + RootProjectsIn(events[1..])
  }

  /** The user tags the events carry, in arrival order. */
  function TagsIn(events: seq<Event>): seq<string>
  {
    if |events| == 0 then []
    else (if events[0].UserTag? then [events[0].tag] else []) + TagsIn(events[1..])
  }

  /** The worker count of the last build-modes event, `otherwise` if none. */
  function LastMaxWorkers(events: seq<Event>, otherwise: int): int
  {
    if |events| == 0 then otherwise
    else if events[|events| - 1].BuildModes? then events[|events| - 1].maxWorkers
    else LastMaxWorkers(events[..|events| - 1], otherwise)
  }

  /** The list of the last requested-tasks event, `otherwise` if none. */
  function LastRequestedTasks(events: seq<Event>, otherwise: Option<seq<string>>): Option<seq<string>>
  {
    if |events| == 0 then otherwise
    else if events[|events| - 1].BuildRequestedTasks? then Some(events[|events| - 1].requested)
    else LastRequestedTasks(events[..|events| - 1], otherwise)
  }

  lemma {:induction false} LastMaxWorkersFirst(events: seq<Event>, otherwise: int)
    requires |events| > 0
    ensures LastMaxWorkers(events, otherwise)
         == LastMaxWorkers(events[1..], if events[0].BuildModes? then events[0].maxWorkers else otherwise)
    decreases |events|
  {
    if |events| > 1 {
      var front := events[..|events| - 1];
      assert front[1..] == events[1..][..|events[1..]| - 1];
      assert front[0] == events[0];
      LastMaxWorkersFirst(front, otherwise);
    }
  }

  lemma {:induction false} LastRequestedTasksFirst(events: seq<Event>, otherwise: Option<seq<string>>)
    requires |events| > 0
    ensures LastRequestedTasks(events, otherwise)
         == LastRequestedTasks(events[1..],
              if events[0].BuildRequestedTasks? then Some(events[0].requested) else otherwise)
    decreases |events|
  {
    if |events| > 1 {
      var front := events[..|events| - 1];
      assert front[1..] == events[1..][..|events[1..]| - 1];
      assert front[0] == events[0];
      LastRequestedTasksFirst(front, otherwise);
    }
  }

  /** A successful fold appends root projects and tags in arrival order and
      keeps the last worker count and the last requested-task list. */
  lemma {:induction false} ProcessAllGathers(acc: Accumulator, events: seq<Event>)
    requires ProcessAll(acc, events).Success?
    ensures ProcessAll(acc, events).value == Accumulator(
      acc.rootProjects + RootProjectsIn(events),
      acc.tags + TagsIn(events),
      LastRequestedTasks(events, acc.requestedTasks),
      LastMaxWorkers(events, acc.maxWorkers))
    decreases |events|
  {
    if |events| > 0 {
      var next := Process(acc, events[0]).value;
      ProcessAllGathers(next, events[1..]);
      LastMaxWorkersFirst(events, acc.maxWorkers);
      LastRequestedTasksFirst(events, acc.requestedTasks);
      assert acc.rootProjects + RootProjectsIn(events)
          == next.rootProjects + RootProjectsIn(events[1..]);
      assert acc.tags + TagsIn(events) == next.tags + TagsIn(events[1..]);
    }
  }

  /** What `complete` reports. */
  datatype BuildInfoResult = BuildInfoResult(buildId: string, matches: bool, maxWorkers: int)

  /** The project criterion: some root project is in the include list, and
      none is in the exclude list. */
  predicate ProjectsAdmitted(c: Criteria, projects: seq<string>)
  {
    && (c.includeProjects.Some? ==>
          exists i :: 0 <= i < |projects| && projects[i] in c.includeProjects.value)
    && (c.excludeProjects.Some? ==>
          forall i :: 0 <= i < |projects| ==> projects[i] !in c.excludeProjects.value)
  }

  /** The tag criterion, read the same way. */
  predicate TagsAdmitted(c: Criteria, tags: seq<string>)
  {
    && (c.includeTags.Some? ==> exists i :: 0 <= i < |tags| && tags[i] in c.includeTags.value)
    && (c.excludeTags.Some? ==> forall i :: 0 <= i < |tags| ==> tags[i] !in c.excludeTags.value)
  }

  /** The requested-task criterion over a list that is present: some
      requested task fully matches the include pattern, none the exclude one. */
  predicate RequestedAdmitted(c: Criteria, requested: seq<string>)
  {
    && (c.includeRequestedTasks.Some? ==>
          exists i :: 0 <= i < |requested| && c.includeRequestedTasks.value(requested[i]))
    && (c.excludeRequestedTasks.Some? ==>
          forall i :: 0 <= i < |requested| ==> !c.excludeRequestedTasks.value(requested[i]))
  }

  /** `complete`: the conjunction of the three criteria, evaluated left to
      right and short-circuited.  The requested-task check dereferences the
      requested-task list whenever a requested-task pattern is set, so a
      build that never sent one fails there, but only if the project and tag
      checks passed. */
  function Complete(buildId: string, c: Criteria, acc: Accumulator): (r: Result<BuildInfoResult>)
    ensures r.Success? ==> r.value.buildId == buildId && r.value.maxWorkers == acc.maxWorkers
    ensures r.Failure? <==>
      && ProjectsAdmitted(c, acc.rootProjects)
      && TagsAdmitted(c, acc.tags)
      && acc.requestedTasks.None?
      && (c.includeRequestedTasks.Some? || c.excludeRequestedTasks.Some?)
    ensures r.Failure? ==> r.error == NullElements
    ensures r.Success? ==> (r.value.matches <==>
      && ProjectsAdmitted(c, acc.rootProjects)
      && TagsAdmitted(c, acc.tags)
      && (acc.requestedTasks.Some? ==> RequestedAdmitted(c, acc.requestedTasks.value)))
  {
    if !Matches(acc.rootProjects, c.includeProjects, c.excludeProjects, ContainedIn) then
      Success(BuildInfoResult(buildId, false, acc.maxWorkers))
    else if !Matches(acc.tags, c.includeTags, c.excludeTags, ContainedIn) then
      Success(BuildInfoResult(buildId, false, acc.maxWorkers))
    else
      match MatchesNullable(acc.requestedTasks, c.includeRequestedTasks, c.excludeRequestedTasks,
                            (p: TaskPattern) => p)
      case Failure(err) => Failure(err)
      case Success(m) => Success(BuildInfoResult(buildId, m, acc.maxWorkers))
  }

  /** The position of the first event that is not a metadata event. */
  function FirstNonMetadata(events: seq<Event>): (r: nat)
    requires exists i :: 0 <= i < |events| && !IsMetadataEvent(events[i])
    ensures r < |events| && !IsMetadataEvent(events[r])
    ensures forall j :: 0 <= j < r ==> IsMetadataEvent(events[j])
  {
    if !IsMetadataEvent(events[0]) then 0
    else
      assert exists i :: 0 <= i < |events[1..]| && !IsMetadataEvent(events[1..][i]) by {
        var i :| 0 <= i < |events| && !IsMetadataEvent(events[i]);
        assert events[1..][i - 1] == events[i];
      }
      var r := FirstNonMetadata(events[1..]);
      assert forall j :: 1 <= j <= r + 1 ==> events[j] == events[1..][j - 1];
      r + 1
  }

  /** One metadata session: fold the stream from a fresh accumulator, then
      complete. */
  function Run(buildId: string, c: Criteria, events: seq<Event>): (r: Result<BuildInfoResult>)
    ensures r.Failure? <==>
      || (exists i :: 0 <= i < |events| && !IsMetadataEvent(events[i]))
      || (&& ProjectsAdmitted(c, RootProjectsIn(events))
          && TagsAdmitted(c, TagsIn(events))
          && LastRequestedTasks(events, None).None?
          && (c.includeRequestedTasks.Some? || c.excludeRequestedTasks.Some?))
    ensures (exists i :: 0 <= i < |events| && !IsMetadataEvent(events[i])) ==>
      r == Failure(UnknownEventType(EventType(events[FirstNonMetadata(events)])))
    ensures (forall i :: 0 <= i < |events| ==> IsMetadataEvent(events[i])) && r.Failure? ==>
      r.error == NullElements
    ensures r.Success? ==> r.value.buildId == buildId
    ensures r.Success? ==> r.value.maxWorkers == LastMaxWorkers(events, 0)
    ensures r.Success? ==> (r.value.matches <==>
      && ProjectsAdmitted(c, RootProjectsIn(events))
      && TagsAdmitted(c, TagsIn(events))
      && (LastRequestedTasks(events, None).Some? ==>
            RequestedAdmitted(c, LastRequestedTasks(events, None).value)))
  {
    match ProcessAll(Fresh, events)
    case Failure(err) =>
      assert err == UnknownEventType(EventType(events[FirstNonMetadata(events)])) by {
        var f := FirstNonMetadata(events);
        var i :| 0 <= i < |events| && !IsMetadataEvent(events[i])
          && (forall j :: 0 <= j < i ==> IsMetadataEvent(events[j]))
          && err == UnknownEventType(EventType(events[i]));
        assert !(i < f) && !(f < i);
      }
      Failure(err)
    case Success(acc) =>
      ProcessAllGathers(Fresh, events);
      assert acc.rootProjects == RootProjectsIn(events);
      assert acc.tags == TagsIn(events);
      Complete(buildId, c, acc)
  }
}
