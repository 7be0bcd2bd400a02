/** `FilterBuildsByBuildTool`: the listener on the "builds since" stream.
    It forwards the id of every build whose tool type is "gradle" to the
    build queue and counts them; the end of the stream closes the queue.
    The queue itself (a blocking push-to-pull bridge) is represented by the
    list of ids it hands to the consumer, in arrival order. */
module BuildFeed {
  import opened Common

  /** One decoded entry of the stream; `toolType` is absent when the JSON
      has no such field. */
  datatype BuildSummary = BuildSummary(toolType: Option<string>, buildId: string)

  datatype FeedState = FeedState(queue: seq<string>, buildCount: nat, closed: bool)

  const Opened: FeedState := FeedState([], 0, false)

  predicate IsGradle(b: BuildSummary)
  {
    b.toolType == Some("gradle")
  }

  /** `onEvent`: a Gradle build is counted and its id queued; any other
      entry is ignored. */
  function OnEvent(s: FeedState, b: BuildSummary): (r: FeedState)
    ensures r.queue == s.queue + GradleIds([b])
    ensures r.buildCount == s.buildCount + |GradleIds([b])|
    ensures r.closed == s.closed
  {
    assert [b][1..] == [];
    if IsGradle(b) then s.(queue := s.queue + [b.buildId], buildCount := s.buildCount + 1)
    else s
  }

  /** `onClosed`: closes the queue, so its consumer sees the end after the
      queued ids. */
  function OnClosed(s: FeedState): FeedState
  {
    s.(closed := true)
  }

  /** The listener over a whole stream, starting from `s`. */
  function OnEvents(s: FeedState, entries: seq<BuildSummary>): FeedState
    decreases |entries|
  {
    if |entries| == 0 then s else OnEvents(OnEvent(s, entries[0]), entries[1..])
  }

  /** The ids of the Gradle builds among `entries`, in arrival order. */
  function GradleIds(entries: seq<BuildSummary>): (r: seq<string>)
    ensures |r| <= |entries|
    ensures forall x :: x in r <==> exists i :: 0 <= i < |entries| && IsGradle(entries[i]) && entries[i].buildId == x
  {
    if |entries| == 0 then []
    else
      var rest := GradleIds(entries[1..]);
      assert forall i :: 1 <= i < |entries| ==> entries[i] == entries[1..][i - 1];
      (if IsGradle(entries[0]) then [entries[0].buildId] else []) + rest
  }

  /** The queue receives exactly the Gradle build ids, in arrival order, and
      the counter equals the number of ids queued. */
  lemma {:induction false} OnEventsForwardsGradleBuilds(s: FeedState, entries: seq<BuildSummary>)
    requires s.buildCount == |s.queue|
    ensures OnEvents(s, entries).queue == s.queue + GradleIds(entries)
    ensures OnEvents(s, entries).buildCount == |OnEvents(s, entries).queue|
    ensures OnEvents(s, entries).closed == s.closed
    decreases |entries|
  {
    if |entries| > 0 {
      OnEventsForwardsGradleBuilds(OnEvent(s, entries[0]), entries[1..]);
      if IsGradle(entries[0]) {
        assert GradleIds(entries) == [entries[0].buildId] + GradleIds(entries[1..]);
        assert OnEvent(s, entries[0]).queue == s.queue + [entries[0].buildId];
        assert s.queue + GradleIds(entries)
            == (s.queue + [entries[0].buildId]) + GradleIds(entries[1..]);
      } else {
        assert GradleIds(entries) == GradleIds(entries[1..]);
        assert OnEvent(s, entries[0]) == s;
      }
    }
  }

  /** The ids the build queue yields for a complete stream: every event,
      then the close. */
  function QueriedBuildIds(entries: seq<BuildSummary>): (r: seq<string>)
    ensures r == GradleIds(entries)
  {
    OnEventsForwardsGradleBuilds(Opened, entries);
    OnClosed(OnEvents(Opened, entries)).queue
  }
}
