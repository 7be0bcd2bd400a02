/** The sweep of `ProcessTaskEvents.complete`: walks the timestamp-to-delta
    map in ascending order with a running concurrency level (starting at 0)
    and the previous timestamp (starting at 0), and adds the time since the
    previous timestamp to the histogram entry of the current level whenever
    that level is nonzero. */
module Sweep {
  import opened Counters
  import opened DeltaLine

  datatype SweepState = SweepState(level: int, lastTimestamp: int, histogram: map<int, int>)

  const Start: SweepState := SweepState(0, 0, map[])

  /** One entry: attribute the elapsed time to the current level (if it is
      not 0), then apply the delta and move the clock. */
  function Step(s: SweepState, timestamp: int, delta: int): SweepState
  {
    var h := if s.level != 0 then Add(s.histogram, s.level, timestamp - s.lastTimestamp)
             else s.histogram;
    SweepState(s.level + delta, timestamp, h)
  }

  /** One step gives the time since the previous timestamp to the current
      level and to no other, so the level-weighted total grows by level
      times elapsed time. */
  lemma StepAttributesElapsedTime(s: SweepState, timestamp: int, delta: int)
    ensures Step(s, timestamp, delta).level == s.level + delta
    ensures Step(s, timestamp, delta).lastTimestamp == timestamp
    ensures forall k :: (Get(Step(s, timestamp, delta).histogram, k)
      == Get(s.histogram, k) + (if k == s.level && k != 0 then timestamp - s.lastTimestamp else 0))
    ensures WeightedTotal(Step(s, timestamp, delta).histogram)
      == WeightedTotal(s.histogram) + s.level * (timestamp - s.lastTimestamp)
  {
    WeightedTotalAdd(s.histogram, s.level, timestamp - s.lastTimestamp);
  }

  function SweepFrom(s: SweepState, e: Entries): (r: SweepState)
    ensures r.level == s.level + Sum(e)
    decreases |e|
  {
    if |e| == 0 then s
    else SweepFrom(Step(s, e[0].0, e[0].1), e[1..])
  }

  /** The concurrency histogram: level -> milliseconds spent at that level. */
  function Histogram(e: Entries): map<int, int>
  {
    SweepFrom(Start, e).histogram
  }

  /** Every level in the histogram was the running level just before some
      entry, and is not 0: idle time is never attributed. */
  lemma {:induction false} AttributedLevels(s: SweepState, e: Entries)
    ensures forall k :: k in SweepFrom(s, e).histogram ==>
      k in s.histogram || (k != 0 && exists i :: 0 <= i < |e| && k == s.level + Sum(e[..i]))
    decreases |e|
  {
    if |e| > 0 {
      var next := Step(s, e[0].0, e[0].1);
      AttributedLevels(next, e[1..]);
      forall k | k in SweepFrom(s, e).histogram && k !in s.histogram
        ensures k != 0 && exists i :: 0 <= i < |e| && k == s.level + Sum(e[..i])
      {
        if k in next.histogram {
          assert k == s.level && k != 0;
          assert Sum(e[..0]) == 0;
        } else {
          var i :| 0 <= i < |e[1..]| && k == next.level + Sum(e[1..][..i]) && k != 0;
          assert e[..i + 1][1..] == e[1..][..i];
          assert Sum(e[..i + 1]) == e[0].1 + Sum(e[1..][..i]);
        }
      }
    }
  }

  /** When the running level never drops below 0, every histogram level is
      at least 1. */
  lemma LevelsPositive(e: Entries)
    requires forall i :: 0 <= i <= |e| ==> Sum(e[..i]) >= 0
    ensures forall k :: k in Histogram(e) ==> k >= 1
  {
    AttributedLevels(Start, e);
  }

  /** Over a strictly sorted map every attributed duration is positive:
      the clock only moves forward, and at the first entry the level is 0. */
  lemma {:induction false} TimesPositiveFrom(s: SweepState, e: Entries)
    requires StrictlySorted(e)
    requires |e| > 0 && s.level != 0 ==> s.lastTimestamp < e[0].0
    requires forall k :: k in s.histogram ==> s.histogram[k] > 0
    ensures forall k :: k in SweepFrom(s, e).histogram ==> SweepFrom(s, e).histogram[k] > 0
    decreases |e|
  {
    if |e| > 0 {
      var next := Step(s, e[0].0, e[0].1);
      forall k | k in next.histogram
        ensures next.histogram[k] > 0
      {
        assert Get(next.histogram, k) == next.histogram[k];
        if k in s.histogram {
          assert Get(s.histogram, k) == s.histogram[k];
        }
      }
      TimesPositiveFrom(next, e[1..]);
    }
  }

  lemma TimesPositive(e: Entries)
    requires StrictlySorted(e)
    ensures forall k :: k in Histogram(e) ==> Histogram(e)[k] > 0
  {
    TimesPositiveFrom(Start, e);
  }

  /** The time the running level spends at `k` during the first `n`
      entries, read off the prefix sums: between entry `i - 1` and entry `i`
      the level is the sum of the first `i` deltas.  Level 0 is idle time
      and never counted. */
  function TimeAtLevel(e: Entries, k: int, n: nat): int
    requires n <= |e|
  {
    if n <= 1 then 0
    else TimeAtLevel(e, k, n - 1)
         + (if k != 0 && Sum(e[..n - 1]) == k then e[n - 1].0 - e[n - 2].0 else 0)
  }

  /** Sweeping a concatenation is sweeping the second part from where the
      first part left off. */
  lemma {:induction false} SweepAppend(s: SweepState, a: Entries, b: Entries)
    ensures SweepFrom(s, a + b) == SweepFrom(SweepFrom(s, a), b)
    decreases |a|
  {
    if |a| > 0 {
      assert (a + b)[1..] == a[1..] + b;
      SweepAppend(Step(s, a[0].0, a[0].1), a[1..], b);
    } else {
      assert a + b == b;
    }
  }

  /** After the first `n` entries the clock is at the `n`-th timestamp and
      the histogram holds, for every level, the time spent at it so far. */
  lemma {:induction false} SweepPrefix(e: Entries, n: nat)
    requires 0 < n <= |e|
    ensures SweepFrom(Start, e[..n]).lastTimestamp == e[n - 1].0
    ensures forall k :: Get(SweepFrom(Start, e[..n]).histogram, k) == TimeAtLevel(e, k, n)
    ensures WeightedTotal(SweepFrom(Start, e[..n]).histogram) == Area(e, n)
    decreases n
  {
    if n == 1 {
      assert e[..1][1..] == [];
    } else {
      SweepPrefix(e, n - 1);
      var prev := SweepFrom(Start, e[..n - 1]);
      assert e[..n] == e[..n - 1] + [e[n - 1]];
      SweepAppend(Start, e[..n - 1], [e[n - 1]]);
      assert [e[n - 1]][1..] == [];
      assert SweepFrom(Start, e[..n]) == Step(prev, e[n - 1].0, e[n - 1].1);
      WeightedTotalAdd(prev.histogram, prev.level, e[n - 1].0 - prev.lastTimestamp);
    }
  }

  /** The histogram is the time spent at each level: every level gets the
      time between consecutive timestamps at which the running level
      equals it. */
  lemma HistogramIsTimeAtLevel(e: Entries)
    ensures forall k :: Get(Histogram(e), k) == TimeAtLevel(e, k, |e|)
    ensures WeightedTotal(Histogram(e)) == Area(e, |e|)
  {
    if |e| > 0 {
      SweepPrefix(e, |e|);
      assert e[..|e|] == e;
    }
  }

  /** The level-weighted time of the first `n` entries: each interval
      between consecutive timestamps times the running level over it, the
      same intervals `TimeAtLevel` sorts by level. */
  function Area(e: Entries, n: nat): int
    requires n <= |e|
  {
    if n <= 1 then 0
    else Area(e, n - 1) + Sum(e[..n - 1]) * (e[n - 1].0 - e[n - 2].0)
  }

  /** The sum over the levels of a histogram of level times time. */
  ghost function WeightedTotal(h: map<int, int>): int
    decreases h.Keys
  {
    if forall k :: k !in h then 0
    else
      var k :| k in h;
      k * h[k] + WeightedTotal(h - {k})
  }

  /** The weighted total does not depend on which level is taken first. */
  lemma {:induction false} WeightedTotalPick(h: map<int, int>, k: int)
    requires k in h
    ensures WeightedTotal(h) == k * h[k] + WeightedTotal(h - {k})
    decreases h.Keys
  {
    var j :| j in h && WeightedTotal(h) == j * h[j] + WeightedTotal(h - {j});
    if j != k {
      WeightedTotalPick(h - {j}, k);
      WeightedTotalPick(h - {k}, j);
      assert h - {j} - {k} == h - {k} - {j};
    }
  }

  lemma WeightedTotalUpdate(h: map<int, int>, k: int, v: int)
    ensures WeightedTotal(h[k := v]) == WeightedTotal(h - {k}) + k * v
  {
    WeightedTotalPick(h[k := v], k);
    assert h[k := v] - {k} == h - {k};
  }

  /** Adding time at a level adds level times that time to the total. */
  lemma WeightedTotalAdd(h: map<int, int>, k: int, d: int)
    ensures WeightedTotal(Add(h, k, d)) == WeightedTotal(h) + k * d
  {
    assert Add(h, k, d) == h[k := Get(h, k) + d];
    WeightedTotalUpdate(h, k, Get(h, k) + d);
    if k in h {
      WeightedTotalPick(h, k);
      assert k * (h[k] + d) == k * h[k] + k * d;
    } else {
      assert h - {k} == h;
    }
  }

  /** The arithmetic of one summation-by-parts step. */
  lemma ByPartsStep(s: int, t0: int, t1: int, d: int, m: int)
    ensures t0 * s - m + s * (t1 - t0) == t1 * (s + d) - (m + t1 * d)
  {
    calc {
      t0 * s - m + s * (t1 - t0);
      { assert s * (t1 - t0) == s * t1 - s * t0; }
      t1 * s - m;
      { assert t1 * (s + d) == t1 * s + t1 * d; }
      t1 * (s + d) - (m + t1 * d);
    }
  }

  /** Summation by parts: the area up to the `n`-th entry is its timestamp
      times the level there, minus the moment of the deltas so far. */
  lemma {:induction false} AreaByParts(e: Entries, n: nat)
    requires 0 < n <= |e|
    ensures Area(e, n) == e[n - 1].0 * Sum(e[..n]) - Moment(e[..n])
    decreases n
  {
    if n == 1 {
      assert e[..1] == [] + [e[0]];
      SumMomentAppend([], e[0]);
    } else {
      AreaByParts(e, n - 1);
      assert e[..n] == e[..n - 1] + [e[n - 1]];
      SumMomentAppend(e[..n - 1], e[n - 1]);
      var s, t0, t1, d := Sum(e[..n - 1]), e[n - 2].0, e[n - 1].0, e[n - 1].1;
      var m := Moment(e[..n - 1]);
      assert Area(e, n) == Area(e, n - 1) + s * (t1 - t0);
      assert Sum(e[..n]) == s + d && Moment(e[..n]) == m + t1 * d;
      ByPartsStep(s, t0, t1, d, m);
    }
  }

  /** Two overlapping tasks, (0, 10) and (5, 15): 10 ms at level 1 and 5 ms
      at level 2. */
  lemma OverlappingTasks()
    ensures Histogram([(0, 1), (5, 1), (10, -1), (15, -1)]) == map[1 := 10, 2 := 5]
  {
    var e: Entries := [(0, 1), (5, 1), (10, -1), (15, -1)];
    var e1: Entries := [(5, 1), (10, -1), (15, -1)];
    var e2: Entries := [(10, -1), (15, -1)];
    var e3: Entries := [(15, -1)];
    var h2 := map[1 := 5];
    var h3 := map[1 := 5, 2 := 5];
    var h4 := map[1 := 10, 2 := 5];
    assert Add(map[], 1, 5) == h2;
    assert Add(h2, 2, 5) == h3;
    assert Add(h3, 1, 5) == h4;
    var s1 := SweepState(1, 0, map[]);
    var s2 := SweepState(2, 5, h2);
    var s3 := SweepState(1, 10, h3);
    var s4 := SweepState(0, 15, h4);
    assert Step(Start, 0, 1) == s1;
    assert Step(s1, 5, 1) == s2;
    assert Step(s2, 10, -1) == s3;
    assert Step(s3, 15, -1) == s4;
    assert e[1..] == e1 && e1[1..] == e2 && e2[1..] == e3 && |e3[1..]| == 0;
    assert SweepFrom(s4, e3[1..]) == s4;
    assert SweepFrom(s3, e3) == s4;
    assert SweepFrom(s2, e2) == s4;
    assert SweepFrom(s1, e1) == s4;
    assert SweepFrom(Start, e) == s4;
  }

  /** Back-to-back tasks, (0, 5) and (5, 10): the deltas at 5 merge into one
      zero entry and the histogram is 10 ms at level 1 with no dip to 0. */
  lemma BackToBackTasks()
    ensures Histogram([(0, 1), (5, 0), (10, -1)]) == map[1 := 10]
  {
    var e: Entries := [(0, 1), (5, 0), (10, -1)];
    var e1: Entries := [(5, 0), (10, -1)];
    var e2: Entries := [(10, -1)];
    var h2 := map[1 := 5];
    var h3 := map[1 := 10];
    assert Add(map[], 1, 5) == h2;
    assert Add(h2, 1, 5) == h3;
    var s1 := SweepState(1, 0, map[]);
    var s2 := SweepState(1, 5, h2);
    var s3 := SweepState(0, 10, h3);
    assert Step(Start, 0, 1) == s1;
    assert Step(s1, 5, 0) == s2;
    assert Step(s2, 10, -1) == s3;
    assert e[1..] == e1 && e1[1..] == e2 && |e2[1..]| == 0;
    assert SweepFrom(s3, e2[1..]) == s3;
    assert SweepFrom(s2, e2) == s3;
    assert SweepFrom(s1, e1) == s3;
    assert SweepFrom(Start, e) == s3;
  }
}
