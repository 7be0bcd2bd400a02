/** `BuildStatistics`: the aggregate report of a batch of builds.  `Empty`
    is the `EMPTY` constant; `Stats` is `DefaultBuildStatistics`.  Merging
    concatenates the build-id lists, adds the task counts, and sums every
    map key-wise over the union of keys. */
module Statistics {
  import opened Counters

  datatype BuildStatistics =
    | Empty
    | Stats(
        buildIds: seq<string>,
        taskCount: int,
        taskTypeTimes: map<string, int>,  // task class name -> total ms
        taskPathTimes: map<string, int>,  // task path -> total ms
        workerTimes: map<int, int>,       // concurrency level -> total ms
        maxWorkers: map<int, int>)        // max-workers setting -> number of builds

  // Views of an aggregate in which `Empty` reads as the all-zero report.

  /** `getBuildIds()`: the empty list for `Empty`. */
  function BuildIds(s: BuildStatistics): seq<string>
  {
    if s.Empty? then [] else s.buildIds
  }

  function TaskCount(s: BuildStatistics): int
  {
    if s.Empty? then 0 else s.taskCount
  }

  function TypeTimes(s: BuildStatistics): map<string, int>
  {
    if s.Empty? then map[] else s.taskTypeTimes
  }

  function PathTimes(s: BuildStatistics): map<string, int>
  {
    if s.Empty? then map[] else s.taskPathTimes
  }

  function WorkerTimes(s: BuildStatistics): map<int, int>
  {
    if s.Empty? then map[] else s.workerTimes
  }

  function MaxWorkers(s: BuildStatistics): map<int, int>
  {
    if s.Empty? then map[] else s.maxWorkers
  }

  /** `a.merge(b)`: `EMPTY.merge(b)` is `b`; a full report merged with
      anything that is not a full report is itself. */
  function Merge(a: BuildStatistics, b: BuildStatistics): (r: BuildStatistics)
    ensures r.Empty? <==> a.Empty? && b.Empty?
    ensures BuildIds(r) == BuildIds(a) + BuildIds(b)
    ensures TaskCount(r) == TaskCount(a) + TaskCount(b)
  {
    match a
    case Empty => b
    case Stats(_, _, _, _, _, _) =>
      if !b.Stats? then a
      else Stats(
        a.buildIds + b.buildIds,
        a.taskCount + b.taskCount,
        MergeMaps(a.taskTypeTimes, b.taskTypeTimes),
        MergeMaps(a.taskPathTimes, b.taskPathTimes),
        MergeMaps(a.workerTimes, b.workerTimes),
        MergeMaps(a.maxWorkers, b.maxWorkers))
  }

  /** Every map of a merge is the key-wise sum of the two inputs' maps, over
      the union of their keys (an `EMPTY` operand contributing nothing). */
  lemma MergeSumsKeyWise(a: BuildStatistics, b: BuildStatistics)
    ensures TypeTimes(Merge(a, b)) == MergeMaps(TypeTimes(a), TypeTimes(b))
    ensures PathTimes(Merge(a, b)) == MergeMaps(PathTimes(a), PathTimes(b))
    ensures WorkerTimes(Merge(a, b)) == MergeMaps(WorkerTimes(a), WorkerTimes(b))
    ensures MaxWorkers(Merge(a, b)) == MergeMaps(MaxWorkers(a), MaxWorkers(b))
  {
    if a.Empty? {
      MergeMapsIdentity(TypeTimes(b));
      MergeMapsIdentity(PathTimes(b));
      MergeMapsIdentity(WorkerTimes(b));
      MergeMapsIdentity(MaxWorkers(b));
    } else if b.Empty? {
      MergeMapsIdentity(TypeTimes(a));
      MergeMapsIdentity(PathTimes(a));
      MergeMapsIdentity(WorkerTimes(a));
      MergeMapsIdentity(MaxWorkers(a));
    }
  }

  /** An aggregate is determined by whether it is `Empty` and by its views. */
  lemma SameViewsSameAggregate(x: BuildStatistics, y: BuildStatistics)
    requires x.Empty? == y.Empty?
    requires BuildIds(x) == BuildIds(y) && TaskCount(x) == TaskCount(y)
    requires TypeTimes(x) == TypeTimes(y) && PathTimes(x) == PathTimes(y)
    requires WorkerTimes(x) == WorkerTimes(y) && MaxWorkers(x) == MaxWorkers(y)
    ensures x == y
  {
  }

  /** `EMPTY` is a two-sided identity. */
  lemma MergeIdentity(x: BuildStatistics)
    ensures Merge(Empty, x) == x
    ensures Merge(x, Empty) == x
  {
  }

  lemma MergeAssociative(a: BuildStatistics, b: BuildStatistics, c: BuildStatistics)
    ensures Merge(Merge(a, b), c) == Merge(a, Merge(b, c))
  {
    MergeMapsAssociative(TypeTimes(a), TypeTimes(b), TypeTimes(c));
    MergeMapsAssociative(PathTimes(a), PathTimes(b), PathTimes(c));
    MergeMapsAssociative(WorkerTimes(a), WorkerTimes(b), WorkerTimes(c));
    MergeMapsAssociative(MaxWorkers(a), MaxWorkers(b), MaxWorkers(c));
    MergeSumsKeyWise(a, b);
    MergeSumsKeyWise(Merge(a, b), c);
    MergeSumsKeyWise(b, c);
    MergeSumsKeyWise(a, Merge(b, c));
    SameViewsSameAggregate(Merge(Merge(a, b), c), Merge(a, Merge(b, c)));
  }

  /** Merging in the other order gives the same counts and maps; only the
      order of the build ids differs, and they are the same ids. */
  lemma MergeCommutesExceptOrder(a: BuildStatistics, b: BuildStatistics)
    ensures Merge(a, b).Empty? == Merge(b, a).Empty?
    ensures TaskCount(Merge(a, b)) == TaskCount(Merge(b, a))
    ensures TypeTimes(Merge(a, b)) == TypeTimes(Merge(b, a))
    ensures PathTimes(Merge(a, b)) == PathTimes(Merge(b, a))
    ensures WorkerTimes(Merge(a, b)) == WorkerTimes(Merge(b, a))
    ensures MaxWorkers(Merge(a, b)) == MaxWorkers(Merge(b, a))
    ensures multiset(BuildIds(Merge(a, b))) == multiset(BuildIds(Merge(b, a)))
    ensures a.Empty? || b.Empty? ==> Merge(a, b) == Merge(b, a)
  {
    MergeMapsCommutative(TypeTimes(a), TypeTimes(b));
    MergeMapsCommutative(PathTimes(a), PathTimes(b));
    MergeMapsCommutative(WorkerTimes(a), WorkerTimes(b));
    MergeMapsCommutative(MaxWorkers(a), MaxWorkers(b));
    MergeSumsKeyWise(a, b);
    MergeSumsKeyWise(b, a);
  }

  /** Build-id order does depend on the merge order. */
  lemma MergeOrdersBuildIds()
    ensures BuildIds(Merge(Stats(["a"], 0, map[], map[], map[], map[]),
                           Stats(["b"], 0, map[], map[], map[], map[]))) == ["a", "b"]
    ensures BuildIds(Merge(Stats(["b"], 0, map[], map[], map[], map[]),
                           Stats(["a"], 0, map[], map[], map[], map[]))) == ["b", "a"]
  {
    var a := Stats(["a"], 0, map[], map[], map[], map[]);
    var b := Stats(["b"], 0, map[], map[], map[], map[]);
    assert BuildIds(a) == ["a"] && BuildIds(b) == ["b"];
    assert BuildIds(Merge(a, b)) == BuildIds(a) + BuildIds(b);
    assert BuildIds(Merge(b, a)) == BuildIds(b) + BuildIds(a);
  }

  /** `stream.reduce(BuildStatistics::merge).orElse(EMPTY)` over an ordered
      stream: the left-nested merge of the elements, `Empty` for none. */
  function Reduce(xs: seq<BuildStatistics>): BuildStatistics
    decreases |xs|
  {
    if |xs| == 0 then Empty
    else if |xs| == 1 then xs[0]
    else Merge(Reduce(xs[..|xs| - 1]), xs[|xs| - 1])
  }

  /** The same reduction as a left fold that starts from `EMPTY`. */
  function FoldMerge(acc: BuildStatistics, xs: seq<BuildStatistics>): BuildStatistics
    decreases |xs|
  {
    if |xs| == 0 then acc else FoldMerge(Merge(acc, xs[0]), xs[1..])
  }

  /** `reduce(merge).orElse(EMPTY)` is `EMPTY` exactly when every element
      is: a single full report makes the result full. */
  lemma {:induction false} ReduceEmpty(xs: seq<BuildStatistics>)
    ensures Reduce(xs).Empty? <==> forall i :: 0 <= i < |xs| ==> xs[i].Empty?
    decreases |xs|
  {
    if |xs| > 1 {
      var front := xs[..|xs| - 1];
      ReduceEmpty(front);
      assert forall i :: 0 <= i < |front| ==> front[i] == xs[i];
    }
  }

  /** The fold from `acc` is `EMPTY` exactly when `acc` and every element
      are; its build ids are those of `acc` followed by all elements' ids,
      and its task count is `acc`'s plus all elements' counts. */
  lemma {:induction false} FoldMergeTotals(acc: BuildStatistics, xs: seq<BuildStatistics>)
    ensures FoldMerge(acc, xs).Empty? <==> acc.Empty? && forall i :: 0 <= i < |xs| ==> xs[i].Empty?
    ensures BuildIds(FoldMerge(acc, xs)) == BuildIds(acc) + AllBuildIds(xs)
    ensures TaskCount(FoldMerge(acc, xs)) == TaskCount(acc) + TotalTaskCount(xs)
    decreases |xs|
  {
    if |xs| > 0 {
      FoldMergeTotals(Merge(acc, xs[0]), xs[1..]);
      assert forall i :: 1 <= i < |xs| ==> xs[1..][i - 1] == xs[i];
    }
  }

  lemma ReduceLast(zs: seq<BuildStatistics>)
    requires |zs| > 0
    ensures Reduce(zs) == Merge(Reduce(zs[..|zs| - 1]), zs[|zs| - 1])
  {
  }

  /** Reducing a concatenation is merging the two reductions: the result
      does not depend on how a parallel stream splits its elements. */
  lemma {:induction false} ReduceConcat(xs: seq<BuildStatistics>, ys: seq<BuildStatistics>)
    ensures Reduce(xs + ys) == Merge(Reduce(xs), Reduce(ys))
    decreases |ys|
  {
    if |xs| == 0 {
      assert xs + ys == ys;
    } else if |ys| == 0 {
      assert xs + ys == xs;
    } else {
      var zs := xs + ys;
      var ys' := ys[..|ys| - 1];
      var y := ys[|ys| - 1];
      assert zs[..|zs| - 1] == xs + ys';
      assert zs[|zs| - 1] == y;
      ReduceLast(zs);
      ReduceLast(ys);
      ReduceConcat(xs, ys');
      MergeAssociative(Reduce(xs), Reduce(ys'), y);
    }
  }

  lemma {:induction false} FoldMergeIsReduce(acc: BuildStatistics, xs: seq<BuildStatistics>)
    ensures FoldMerge(acc, xs) == Merge(acc, Reduce(xs))
    decreases |xs|
  {
    if |xs| > 0 {
      FoldMergeIsReduce(Merge(acc, xs[0]), xs[1..]);
      assert xs == [xs[0]] + xs[1..];
      ReduceConcat([xs[0]], xs[1..]);
      MergeAssociative(acc, xs[0], Reduce(xs[1..]));
    }
  }

  /** `reduce(merge).orElse(EMPTY)` equals the fold from `EMPTY`. */
  lemma ReduceFromEmpty(xs: seq<BuildStatistics>)
    ensures Reduce(xs) == FoldMerge(Empty, xs)
  {
    FoldMergeIsReduce(Empty, xs);
  }

  /** An `Empty` element (a failed or non-matching build) can be dropped
      without changing the reduction. */
  lemma ReduceSkipsEmpty(xs: seq<BuildStatistics>, i: nat)
    requires i < |xs| && xs[i].Empty?
    ensures Reduce(xs) == Reduce(xs[..i] + xs[i + 1..])
  {
    assert xs == xs[..i] + ([xs[i]] + xs[i + 1..]);
    ReduceConcat(xs[..i], [xs[i]] + xs[i + 1..]);
    ReduceConcat([xs[i]], xs[i + 1..]);
    ReduceConcat(xs[..i], xs[i + 1..]);
  }

  // Reference totals of a list of aggregates.

  function AllBuildIds(xs: seq<BuildStatistics>): seq<string>
  {
    if |xs| == 0 then [] else BuildIds(xs[0]) + AllBuildIds(xs[1..])
  }

  function TotalTaskCount(xs: seq<BuildStatistics>): int
  {
    if |xs| == 0 then 0 else TaskCount(xs[0]) + TotalTaskCount(xs[1..])
  }

  function TotalTypeTime(xs: seq<BuildStatistics>, taskType: string): int
  {
    if |xs| == 0 then 0 else Get(TypeTimes(xs[0]), taskType) + TotalTypeTime(xs[1..], taskType)
  }

  function TotalWorkerTime(xs: seq<BuildStatistics>, level: int): int
  {
    if |xs| == 0 then 0 else Get(WorkerTimes(xs[0]), level) + TotalWorkerTime(xs[1..], level)
  }

  function TotalPathTime(xs: seq<BuildStatistics>, path: string): int
  {
    if |xs| == 0 then 0 else Get(PathTimes(xs[0]), path) + TotalPathTime(xs[1..], path)
  }

  function TotalMaxWorkers(xs: seq<BuildStatistics>, workers: int): int
  {
    if |xs| == 0 then 0 else Get(MaxWorkers(xs[0]), workers) + TotalMaxWorkers(xs[1..], workers)
  }

  /** The reduced report lists the build ids of all inputs in input order,
      and its count and all four of its maps are the input totals. */
  lemma {:induction false} ReduceTotals(xs: seq<BuildStatistics>)
    ensures BuildIds(Reduce(xs)) == AllBuildIds(xs)
    ensures TaskCount(Reduce(xs)) == TotalTaskCount(xs)
    ensures forall t :: Get(TypeTimes(Reduce(xs)), t) == TotalTypeTime(xs, t)
    ensures forall p :: Get(PathTimes(Reduce(xs)), p) == TotalPathTime(xs, p)
    ensures forall l :: Get(WorkerTimes(Reduce(xs)), l) == TotalWorkerTime(xs, l)
    ensures forall w :: Get(MaxWorkers(Reduce(xs)), w) == TotalMaxWorkers(xs, w)
    decreases |xs|
  {
    if |xs| > 0 {
      assert xs == [xs[0]] + xs[1..];
      ReduceConcat([xs[0]], xs[1..]);
      ReduceTotals(xs[1..]);
      MergeSumsKeyWise(xs[0], Reduce(xs[1..]));
    }
  }
}
