/** The timestamp-to-delta map of one build (`SortedMap<Long, Integer>`
    filled through `add`), modelled as its ascending entry list: each task
    puts +1 at its start and -1 at its finish, and deltas that share a
    timestamp are summed into one entry. */
module DeltaLine {

  /** (timestamp, delta) entries in the map's iteration order. */
  type Entries = seq<(int, int)>

  predicate StrictlySorted(e: Entries)
  {
    forall i, j :: 0 <= i < j < |e| ==> e[i].0 < e[j].0
  }

  /** The delta stored at `k`, 0 when absent. */
  function DeltaAt(e: Entries, k: int): int
  {
    if |e| == 0 then 0
    else if e[0].0 == k then e[0].1
    else DeltaAt(e[1..], k)
  }

  /** `add(startStopEvents, k, d)` on the sorted map: the entry at `k` grows
      by `d`, or a new entry is placed where the order puts it.  The first
      entry afterwards holds the smaller of `k` and the old first key. */
  function Insert(e: Entries, k: int, d: int): (r: Entries)
    requires StrictlySorted(e)
    ensures StrictlySorted(r)
    ensures |r| > 0 && r[0].0 == (if |e| == 0 || k < e[0].0 then k else e[0].0)
    ensures DeltaAt(r, k) == DeltaAt(e, k) + d
    ensures forall j :: j != k ==> DeltaAt(r, j) == DeltaAt(e, j)
  {
    if |e| == 0 then [(k, d)]
    else if k < e[0].0 then
      var r := [(k, d)] + e;
      assert r[1..] == e;
      assert DeltaAt(e, k) == 0 by { NoDeltaBelowFirst(e, k); }
      r
    else if k == e[0].0 then
      var r := [(k, e[0].1 + d)] + e[1..];
      assert r[1..] == e[1..];
      r
    else
      var rest := Insert(e[1..], k, d);
      var r := [e[0]] + rest;
      assert r[1..] == rest;
      assert forall i :: 1 <= i < |r| ==> r[i] == rest[i - 1];
      r
  }

  lemma {:induction false} NoDeltaBelowFirst(e: Entries, k: int)
    requires StrictlySorted(e)
    requires |e| == 0 || k < e[0].0
    ensures DeltaAt(e, k) == 0
    decreases |e|
  {
    if |e| > 0 {
      NoDeltaBelowFirst(e[1..], k);
    }
  }

  /** The sum of all deltas (the level after the whole sweep). */
  function Sum(e: Entries): int
  {
    if |e| == 0 then 0 else e[0].1 + Sum(e[1..])
  }

  /** The sum of the deltas at timestamps up to and including `t`. */
  function SumUpTo(e: Entries, t: int): int
  {
    if |e| == 0 then 0
    else (if e[0].0 <= t then e[0].1 else 0) + SumUpTo(e[1..], t)
  }

  /** The sum of timestamp times delta over all entries. */
  function Moment(e: Entries): int
  {
    if |e| == 0 then 0 else e[0].0 * e[0].1 + Moment(e[1..])
  }

  lemma {:induction false} SumMomentAppend(e: Entries, x: (int, int))
    ensures Sum(e + [x]) == Sum(e) + x.1
    ensures Moment(e + [x]) == Moment(e) + x.0 * x.1
    decreases |e|
  {
    if |e| == 0 {
      assert e + [x] == [x];
      assert [x][1..] == [];
    } else {
      assert (e + [x])[1..] == e[1..] + [x];
      SumMomentAppend(e[1..], x);
    }
  }

  lemma {:induction false} InsertMoment(e: Entries, k: int, d: int)
    requires StrictlySorted(e)
    ensures Moment(Insert(e, k, d)) == Moment(e) + k * d
    decreases |e|
  {
    var r := Insert(e, k, d);
    if |e| > 0 && k > e[0].0 {
      assert r[1..] == Insert(e[1..], k, d);
      InsertMoment(e[1..], k, d);
    } else if |e| > 0 && k == e[0].0 {
      assert r[1..] == e[1..];
      assert k * (e[0].1 + d) == k * e[0].1 + k * d;
    } else if |e| > 0 {
      assert r[1..] == e;
    }
  }

  lemma {:induction false} InsertSum(e: Entries, k: int, d: int)
    requires StrictlySorted(e)
    ensures Sum(Insert(e, k, d)) == Sum(e) + d
    decreases |e|
  {
    var r := Insert(e, k, d);
    if |e| > 0 && k > e[0].0 {
      assert r[1..] == Insert(e[1..], k, d);
      InsertSum(e[1..], k, d);
    } else if |e| > 0 && k == e[0].0 {
      assert r[1..] == e[1..];
    } else if |e| > 0 {
      assert r[1..] == e;
    }
  }

  lemma {:induction false} InsertSumUpTo(e: Entries, k: int, d: int, t: int)
    requires StrictlySorted(e)
    ensures SumUpTo(Insert(e, k, d), t) == SumUpTo(e, t) + (if k <= t then d else 0)
    decreases |e|
  {
    var r := Insert(e, k, d);
    if |e| > 0 && k > e[0].0 {
      assert r[1..] == Insert(e[1..], k, d);
      InsertSumUpTo(e[1..], k, d, t);
    } else if |e| > 0 && k == e[0].0 {
      assert r[1..] == e[1..];
    } else if |e| > 0 {
      assert r[1..] == e;
    }
  }

  lemma {:induction false} NothingUpToBelowFirst(e: Entries, t: int)
    requires StrictlySorted(e)
    requires |e| == 0 || t < e[0].0
    ensures SumUpTo(e, t) == 0
    decreases |e|
  {
    if |e| > 0 {
      NothingUpToBelowFirst(e[1..], t);
    }
  }

  /** In a sorted map the first `i` entries are exactly those at or before
      the `i`-th timestamp, so the level after them is a sum up to a time. */
  lemma {:induction false} PrefixSumIsSumUpTo(e: Entries, i: nat)
    requires StrictlySorted(e)
    requires 0 < i <= |e|
    ensures Sum(e[..i]) == SumUpTo(e, e[i - 1].0)
    decreases i
  {
    assert e[..i][1..] == e[1..][..i - 1];
    if i == 1 {
      NothingUpToBelowFirst(e[1..], e[0].0);
      assert Sum(e[..1][1..]) == 0;
    } else {
      PrefixSumIsSumUpTo(e[1..], i - 1);
      assert e[1..][i - 2] == e[i - 1];
    }
  }
}
