/** `ProcessTaskEvents.process`: the table of tasks of one build, keyed by
    task id.  The Java `HashMap` is modelled as a list of (id, record) pairs
    with distinct ids, kept in first-insertion order; the statistics drawn
    from it are sums, so the order does not change them. */
module Tasks {
  import opened Common
  import opened Events

  /** `TaskInfo`: type and path are fixed at start; finish time and outcome
      are set on finish.  Before that the finish time is 0 and the outcome
      is null. */
  datatype TaskInfo = TaskInfo(
    taskType: string,
    path: string,
    startTime: int,
    finishTime: int,
    outcome: Option<string>)

  type TaskTable = seq<(int, TaskInfo)>

  predicate DistinctIds(t: TaskTable)
  {
    forall i, j :: 0 <= i < j < |t| ==> t[i].0 != t[j].0
  }

  function Ids(t: TaskTable): set<int>
  {
    set i | 0 <= i < |t| :: t[i].0
  }

  lemma IdsFirst(t: TaskTable)
    requires |t| > 0
    ensures Ids(t) == {t[0].0} + Ids(t[1..])
  {
    forall x | x in Ids(t)
      ensures x in {t[0].0} + Ids(t[1..])
    {
      var i :| 0 <= i < |t| && t[i].0 == x;
      if i > 0 {
        assert t[1..][i - 1] == t[i];
      }
    }
    forall x | x in Ids(t[1..])
      ensures x in Ids(t)
    {
      var i :| 0 <= i < |t[1..]| && t[1..][i].0 == x;
      assert t[i + 1] == t[1..][i];
    }
  }

  /** `tasks.get(id)`; `None` for an id with no record. */
  function Lookup(t: TaskTable, id: int): (r: Option<TaskInfo>)
    ensures r.Some? <==> id in Ids(t)
    ensures r.Some? ==> (id, r.value) in t
  {
    if |t| == 0 then None
    else if t[0].0 == id then Some(t[0].1)
    else
      IdsFirst(t);
      Lookup(t[1..], id)
  }

  /** `x` is the record `tasks.get` returns for some id. */
  ghost predicate Stored(t: TaskTable, x: TaskInfo)
  {
    exists id :: Lookup(t, id) == Some(x)
  }

  /** In a table with distinct ids, `tasks.get(id)` returns the one record
      stored under `id`. */
  lemma {:induction false} LookupFinds(t: TaskTable, id: int, i: nat)
    requires DistinctIds(t)
    requires i < |t| && t[i].0 == id
    ensures Lookup(t, id) == Some(t[i].1)
    decreases i
  {
    if i > 0 {
      assert t[0].0 != t[i].0;
      assert t[1..][i - 1] == t[i];
      LookupFinds(t[1..], id, i - 1);
    }
  }

  /** `tasks.put(id, info)`: the record for `id` is replaced in place, or
      added at the end; no other id's record changes. */
  function Put(t: TaskTable, id: int, info: TaskInfo): (r: TaskTable)
    ensures Lookup(r, id) == Some(info)
    ensures forall j :: j != id ==> Lookup(r, j) == Lookup(t, j)
  {
    if |t| == 0 then [(id, info)]
    else if t[0].0 == id then [(id, info)] + t[1..]
    else
      var rest := Put(t[1..], id, info);
      var r := [t[0]] + rest;
      assert r[1..] == rest;
      r
  }

  /** Putting a record adds its id and nothing else, and keeps ids distinct. */
  lemma PutIds(t: TaskTable, id: int, info: TaskInfo)
    ensures Ids(Put(t, id, info)) == Ids(t) + {id}
    ensures DistinctIds(t) ==> DistinctIds(Put(t, id, info))
  {
    PutAddsId(t, id, info);
    if DistinctIds(t) {
      PutKeepsDistinct(t, id, info);
    }
  }

  lemma {:induction false} PutAddsId(t: TaskTable, id: int, info: TaskInfo)
    ensures Ids(Put(t, id, info)) == Ids(t) + {id}
    decreases |t|
  {
    var r := Put(t, id, info);
    if |t| > 0 {
      IdsFirst(t);
      IdsFirst(r);
      if t[0].0 == id {
        assert r[1..] == t[1..];
      } else {
        assert r[1..] == Put(t[1..], id, info);
        PutAddsId(t[1..], id, info);
      }
    }
  }

  lemma {:induction false} PutKeepsDistinct(t: TaskTable, id: int, info: TaskInfo)
    requires DistinctIds(t)
    ensures DistinctIds(Put(t, id, info))
    decreases |t|
  {
    var r := Put(t, id, info);
    if |t| > 0 {
      if t[0].0 == id {
        assert r[1..] == t[1..];
        assert forall i :: 0 < i < |r| ==> r[i] == t[i];
      } else {
        var rest := Put(t[1..], id, info);
        assert r[1..] == rest;
        PutAddsId(t[1..], id, info);
        IdsFirst(t);
        assert t[0].0 !in Ids(t[1..]);
        PutKeepsDistinct(t[1..], id, info);
        forall i, j | 0 <= i < j < |r|
          ensures r[i].0 != r[j].0
        {
          if i == 0 {
            assert r[j] == rest[j - 1];
            assert rest[j - 1].0 in Ids(rest);
          } else {
            assert r[i] == rest[i - 1] && r[j] == rest[j - 1];
          }
        }
      }
    }
  }

  /** The record a task-started event creates. */
  function Started(e: Event): TaskInfo
    requires e.TaskStarted?
  {
    TaskInfo(e.className, e.path, e.timestamp, 0, None)
  }

  /** `process`: a start inserts (or overwrites) the record of its id with no
      finish data; a finish sets finish time and outcome of that id's
      record.  A finish for an id with no record dereferences null; any other
      event type is fatal. */
  function Process(t: TaskTable, e: Event): (r: Result<TaskTable>)
    ensures r.Success? <==> e.TaskStarted? || (e.TaskFinished? && Lookup(t, e.id).Some?)
    ensures !IsTaskEvent(e) ==> r == Failure(UnknownEventType(EventType(e)))
    ensures e.TaskFinished? && r.Failure? ==> r.error == UnknownTaskId(e.id)
    ensures r.Success? ==> Lookup(r.value, e.id) == Some(
      if e.TaskStarted? then Started(e)
      else Lookup(t, e.id).value.(finishTime := e.timestamp, outcome := Some(e.outcome)))
    ensures r.Success? ==> forall j :: j != e.id ==> Lookup(r.value, j) == Lookup(t, j)
    ensures r.Success? && DistinctIds(t) ==> DistinctIds(r.value)
    ensures r.Success? ==> IsTaskEvent(e) && Ids(r.value) == Ids(t) + {e.id}
  {
    match e
    case TaskStarted(_, id, _, _) =>
      PutIds(t, id, Started(e));
      Success(Put(t, id, Started(e)))
    case TaskFinished(timestamp, id, outcome) =>
      (match Lookup(t, id)
       case None => Failure(UnknownTaskId(id))
       case Some(info) =>
         var finished := info.(finishTime := timestamp, outcome := Some(outcome));
         PutIds(t, id, finished);
         Success(Put(t, id, finished)))
    case _ => Failure(UnknownEventType(EventType(e)))
  }

  /** The task event at `i` is a start, or a finish of an id that is in
      the table or was started earlier in the stream. */
  predicate Known(t: TaskTable, events: seq<Event>, i: nat)
    requires i < |events| && IsTaskEvent(events[i])
  {
    events[i].TaskStarted?
    || events[i].id in Ids(t)
    || exists j :: 0 <= j < i && events[j].TaskStarted? && events[j].id == events[i].id
  }

  /** A task stream `process` takes without an exception: task events only,
      and no finish of a task the table has never seen. */
  predicate Accepted(t: TaskTable, events: seq<Event>)
  {
    forall i :: 0 <= i < |events| ==> IsTaskEvent(events[i]) && Known(t, events, i)
  }

  /** After the first event is processed, the rest of the stream is
      accepted by the new table exactly when the whole stream was accepted
      by the old one. */
  lemma AcceptedStep(t: TaskTable, next: TaskTable, events: seq<Event>)
    requires |events| > 0 && IsTaskEvent(events[0]) && Known(t, events, 0)
    requires Ids(next) == Ids(t) + {events[0].id}
    ensures Accepted(t, events) <==> Accepted(next, events[1..])
  {
    var rest := events[1..];
    forall i | 0 <= i < |rest| && IsTaskEvent(rest[i])
      ensures Known(next, rest, i) <==> Known(t, events, i + 1)
    {
      assert rest[i] == events[i + 1];
      if Known(t, events, i + 1) && !rest[i].TaskStarted? && rest[i].id !in Ids(t) {
        var j :| 0 <= j < i + 1 && events[j].TaskStarted? && events[j].id == events[i + 1].id;
        if j > 0 {
          assert rest[j - 1] == events[j];
        }
      }
      if Known(next, rest, i) && !rest[i].TaskStarted? && rest[i].id !in Ids(next) {
        var j :| 0 <= j < i && rest[j].TaskStarted? && rest[j].id == rest[i].id;
        assert events[j + 1] == rest[j];
      }
    }
    if Accepted(next, rest) {
      forall i | 0 <= i < |events|
        ensures IsTaskEvent(events[i]) && Known(t, events, i)
      {
        if i > 0 {
          assert events[i] == rest[i - 1];
        }
      }
    }
    if Accepted(t, events) {
      forall i | 0 <= i < |rest|
        ensures IsTaskEvent(rest[i]) && Known(next, rest, i)
      {
        assert rest[i] == events[i + 1];
      }
    }
  }

  /** The task stream delivered in order; the first failure ends it.  It
      succeeds exactly when the stream is accepted. */
  function ProcessAll(t: TaskTable, events: seq<Event>): (r: Result<TaskTable>)
    ensures r.Success? <==> Accepted(t, events)
    ensures r.Success? && DistinctIds(t) ==> DistinctIds(r.value)
    ensures r.Success? ==> forall i :: 0 <= i < |events| ==> IsTaskEvent(events[i])
    decreases |events|
  {
    if |events| == 0 then Success(t)
    else
      match Process(t, events[0])
      case Failure(err) =>
        assert !(IsTaskEvent(events[0]) && Known(t, events, 0));
        Failure(err)
      case Success(next) =>
        AcceptedStep(t, next, events);
        var r := ProcessAll(next, events[1..]);
        assert r.Success? ==> forall i :: 1 <= i < |events| ==> events[i] == events[1..][i - 1];
        r
  }

  /** A task that starts and then finishes ends with both its times and its
      outcome recorded. */
  lemma StartThenFinish(t: TaskTable, id: int, start: int, finish: int, cls: string, path: string, outcome: string)
    ensures ProcessAll(t, [TaskStarted(start, id, cls, path), TaskFinished(finish, id, outcome)]).Success?
    ensures Lookup(ProcessAll(t, [TaskStarted(start, id, cls, path), TaskFinished(finish, id, outcome)]).value, id)
         == Some(TaskInfo(cls, path, start, finish, Some(outcome)))
  {
    var events := [TaskStarted(start, id, cls, path), TaskFinished(finish, id, outcome)];
    var t1 := Put(t, id, TaskInfo(cls, path, start, 0, None));
    assert Process(t, events[0]) == Success(t1);
    var t2 := Put(t1, id, TaskInfo(cls, path, start, finish, Some(outcome)));
    assert Process(t1, events[1]) == Success(t2);
    assert events[1..] == [events[1]];
    assert ProcessAll(t1, events[1..]) == ProcessAll(t2, []);
  }

  /** A finish before any start of the same id fails the session. */
  lemma FinishWithoutStartFails(id: int, finish: int, outcome: string)
    ensures ProcessAll([], [TaskFinished(finish, id, outcome)]) == Failure(UnknownTaskId(id))
  {
  }
}
