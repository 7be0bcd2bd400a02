/** Maps from keys to integer totals, as the analysis keeps them for task
    times, concurrency levels and worker counts: the `add` helper (which
    creates a missing entry at 0 before adding) and `mergeMaps` (a key-wise
    sum over the union of two key sets). */
module Counters {

  /** The total kept for `k`, absence counting as 0 (`getOrDefault(k, 0)`). */
  function Get<K(!new)>(m: map<K, int>, k: K): int
  {
    if k in m then m[k] else 0
  }

  /** `add(map, key, delta)`: the entry for `k` grows by `delta`; an entry
      whose total becomes 0 is kept. */
  function Add<K(!new)>(m: map<K, int>, k: K, delta: int): (r: map<K, int>)
    ensures r.Keys == m.Keys + {k}
    ensures Get(r, k) == Get(m, k) + delta
    ensures forall j :: j != k ==> Get(r, j) == Get(m, j)
  {
    m[k := Get(m, k) + delta]
  }

  /** `mergeMaps(a, b, 0, sum)`: every key of either map, holding the sum of
      both totals. */
  function MergeMaps<K(!new)>(a: map<K, int>, b: map<K, int>): (r: map<K, int>)
    ensures r.Keys == a.Keys + b.Keys
    ensures forall k :: Get(r, k) == Get(a, k) + Get(b, k)
  {
    map k | k in a.Keys + b.Keys :: Get(a, k) + Get(b, k)
  }

  /** Two maps with the same keys and the same totals are the same map. */
  lemma SameTotalsSameMap<K(!new)>(a: map<K, int>, b: map<K, int>)
    requires a.Keys == b.Keys
    requires forall k :: Get(a, k) == Get(b, k)
    ensures a == b
  {
    forall k | k in a.Keys
      ensures a[k] == b[k]
    {
      assert Get(a, k) == Get(b, k);
    }
  }

  lemma MergeMapsIdentity<K(!new)>(m: map<K, int>)
    ensures MergeMaps(map[], m) == m
    ensures MergeMaps(m, map[]) == m
  {
    SameTotalsSameMap(MergeMaps(map[], m), m);
    SameTotalsSameMap(MergeMaps(m, map[]), m);
  }

  lemma MergeMapsCommutative<K(!new)>(a: map<K, int>, b: map<K, int>)
    ensures MergeMaps(a, b) == MergeMaps(b, a)
  {
    SameTotalsSameMap(MergeMaps(a, b), MergeMaps(b, a));
  }

  lemma MergeMapsAssociative<K(!new)>(a: map<K, int>, b: map<K, int>, c: map<K, int>)
    ensures MergeMaps(MergeMaps(a, b), c) == MergeMaps(a, MergeMaps(b, c))
  {
    SameTotalsSameMap(MergeMaps(MergeMaps(a, b), c), MergeMaps(a, MergeMaps(b, c)));
  }
}
