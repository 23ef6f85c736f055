/** Online statistics per query pattern: running minimum, maximum and total, and order statistics over
    the samples once they are sorted. */
module QueryStats {
  import opened History

  // ---------------------------------------------------------------- order statistics

  ghost function CountBelow(ts: seq<real>, v: real): (n: nat)
    ensures n <= |ts|
  {
    if ts == [] then 0 else CountBelow(ts[..|ts| - 1], v) + (if ts[|ts| - 1] < v then 1 else 0)
  }

  ghost function CountUpTo(ts: seq<real>, v: real): (n: nat)
    ensures n <= |ts|
  {
    if ts == [] then 0 else CountUpTo(ts[..|ts| - 1], v) + (if ts[|ts| - 1] <= v then 1 else 0)
  }

  /** `v` is the `k`-th smallest of the samples, counting from 1 and counting equal samples apart. */
  ghost predicate IsKth(ts: seq<real>, k: int, v: real) {
    v in ts && CountBelow(ts, v) < k <= CountUpTo(ts, v)
  }

  /** `v` is halfway between the `k`-th and the `l`-th smallest. */
  ghost predicate IsHalfway(ts: seq<real>, k: int, l: int, v: real) {
    exists a, b :: IsKth(ts, k, a) && IsKth(ts, l, b) && v == (a + b) / 2.0
  }

  ghost predicate Sorted(ts: seq<real>) { forall i, j :: 0 <= i < j < |ts| ==> ts[i] <= ts[j] }

  lemma {:induction false} CountRemove(ts: seq<real>, i: nat, v: real)
    requires i < |ts|
    ensures CountBelow(ts, v) == CountBelow(ts[..i] + ts[i + 1..], v) + (if ts[i] < v then 1 else 0)
    ensures CountUpTo(ts, v) == CountUpTo(ts[..i] + ts[i + 1..], v) + (if ts[i] <= v then 1 else 0)
  {
    var last := |ts| - 1;
    var less := ts[..i] + ts[i + 1..];
    if i == last {
      assert less == ts[..last];
    } else {
      CountRemove(ts[..last], i, v);
      assert less[..|less| - 1] == ts[..last][..i] + ts[..last][i + 1..];
      assert less[|less| - 1] == ts[last];
    }
  }

  lemma Without(ts: seq<real>, i: nat)
    requires i < |ts|
    ensures multiset(ts[..i] + ts[i + 1..]) == multiset(ts) - multiset{ts[i]}
  {
    assert ts == ts[..i] + [ts[i]] + ts[i + 1..];
  }

  /** Counts do not depend on the order of the samples. */
  lemma {:induction false} CountPermuted(ts: seq<real>, us: seq<real>, v: real)
    requires multiset(ts) == multiset(us)
    ensures CountBelow(ts, v) == CountBelow(us, v) && CountUpTo(ts, v) == CountUpTo(us, v)
  {
    assert |multiset(us)| == |us| && |multiset(ts)| == |ts|;
    if ts != [] {
      var n := |ts| - 1;
      assert ts[n] in multiset(us);
      var i :| 0 <= i < |us| && us[i] == ts[n];
      Without(ts, n);
      Without(us, i);
      assert ts[..n] + ts[n + 1..] == ts[..n];
      CountRemove(us, i, v);
      CountPermuted(ts[..n], us[..i] + us[i + 1..], v);
    }
  }

  lemma {:induction false} CountOfSorted(ts: seq<real>, k: nat, v: real)
    requires k <= |ts|
    ensures (forall i :: k <= i < |ts| ==> v <= ts[i]) ==> CountBelow(ts, v) <= k
    ensures (forall i :: 0 <= i < k ==> ts[i] <= v) ==> CountUpTo(ts, v) >= k
  {
    if k < |ts| {
      CountOfSorted(ts[..|ts| - 1], k, v);
    } else if 0 < k {
      CountOfSorted(ts[..|ts| - 1], k - 1, v);
    }
  }

  /** In a sorted arrangement of the samples the `k`-th smallest stands at index `k - 1`. */
  lemma SortedGivesKth(ts: seq<real>, sorted: seq<real>, k: nat)
    requires multiset(ts) == multiset(sorted) && Sorted(sorted) && 1 <= k <= |sorted|
    ensures IsKth(ts, k, sorted[k - 1])
  {
    var v := sorted[k - 1];
    CountOfSorted(sorted, k - 1, v);
    CountOfSorted(sorted, k, v);
    CountPermuted(ts, sorted, v);
    assert v in multiset(sorted);
  }

  lemma {:induction false} CountsOrdered(ts: seq<real>, v: real, w: real)
    requires w < v
    ensures CountUpTo(ts, w) <= CountBelow(ts, v)
  {
    if ts != [] {
      CountsOrdered(ts[..|ts| - 1], v, w);
    }
  }

  /** Order statistics grow with their rank, and each rank has only one. */
  lemma KthIsMonotone(ts: seq<real>, k: int, v: real, l: int, w: real)
    requires IsKth(ts, k, v) && IsKth(ts, l, w) && k <= l
    ensures v <= w && (k == l ==> v == w)
  {
    if w < v {
      CountsOrdered(ts, v, w);
    }
    if v < w {
      CountsOrdered(ts, w, v);
    }
  }

  /** The `k`-th of `n` samples is the highest with no more than `pct` percent of them up to it, if there is
      one, and otherwise the first. */
  predicate ReachesPct(n: nat, pct: nat, k: int) {
    && 1 <= k <= n
    && (k == 1 || 100 * k <= n * pct)
    && (k == n || n * pct < 100 * (k + 1))
  }

  lemma ReachesOnce(n: nat, pct: nat, k: int, l: int)
    requires ReachesPct(n, pct, k) && ReachesPct(n, pct, l)
    ensures k == l
  {}

  /** The rank of percentile `pct` among `n` samples. */
  function PctRank(n: nat, pct: nat): (k: nat)
    ensures n > 0 ==> ReachesPct(n, pct, k)
  {
    var rank := n * pct / 100;
    if rank < 1 then 1 else if rank > n then n else rank
  }

  lemma ShareGrows(n: nat, p: nat, q: nat)
    requires p <= q
    ensures n * p <= n * q
  {}

  lemma RankOfShare(n: nat, pct: nat, share: nat)
    requires share == n * pct
    ensures PctRank(n, pct) == var rank := share / 100; if rank < 1 then 1 else if rank > n then n else rank
  {}

  lemma PctRankGrows(n: nat, p: nat, q: nat)
    requires n > 0 && p <= q
    ensures PctRank(n, p) <= PctRank(n, q)
    ensures p >= 100 ==> PctRank(n, p) == n
  {
    hide PctRank;
    var x, y := n * p, n * q;
    ShareGrows(n, p, q);
    RankOfShare(n, p, x);
    RankOfShare(n, q, y);
    if p >= 100 {
      ShareGrows(n, 100, p);
    }
  }

  /** A higher percentile is never smaller, and beyond the hundredth all are the same. */
  lemma PercentilesAreMonotone(ts: seq<real>, p: nat, v: real, q: nat, w: real)
    requires IsKth(ts, PctRank(|ts|, p), v) && IsKth(ts, PctRank(|ts|, q), w) && p <= q
    ensures v <= w
    ensures p >= 100 ==> v == w
  {
    hide PctRank, IsKth;
    SomeSample(ts, PctRank(|ts|, p), v);
    PctRankGrows(|ts|, p, q);
    PctRankGrows(|ts|, q, q);
    KthIsMonotone(ts, PctRank(|ts|, p), v, PctRank(|ts|, q), w);
  }

  lemma SomeSample(ts: seq<real>, k: int, v: real)
    requires IsKth(ts, k, v)
    ensures |ts| > 0
  {}

  // ---------------------------------------------------------------- sorting

  function InsertSorted(ts: seq<real>, t: real): (r: seq<real>)
    ensures multiset(r) == multiset(ts) + multiset{t}
  {
    if ts == [] || ts[|ts| - 1] <= t then ts + [t]
    else
      var front, last := ts[..|ts| - 1], ts[|ts| - 1];
      assert ts == front + [last];
      InsertSorted(front, t) + [last]
  }

  lemma {:induction false} InsertKeepsSorted(ts: seq<real>, t: real)
    requires Sorted(ts)
    ensures Sorted(InsertSorted(ts, t))
  {
    if ts != [] && ts[|ts| - 1] > t {
      var front, last := ts[..|ts| - 1], ts[|ts| - 1];
      InsertKeepsSorted(front, t);
      var r := InsertSorted(front, t);
      forall i | 0 <= i < |r|
        ensures r[i] <= last
      {
        assert r[i] in multiset(r);
        assert r[i] in multiset(front) || r[i] == t;
      }
    }
  }

  // ---------------------------------------------------------------- one pattern

  /** `Query_pattern_stats`. `dblMax` is the largest number a time can be. */
  class PatternStats {
    const dblMax: real
    var minTime: real
    var maxTime: real
    var totalTime: real
    var n: nat
    var times: seq<real>
    ghost var history: seq<real>

    /** The running figures are the plain figures of the history, and the samples are all kept. */
    ghost predicate Valid()
      reads this
    {
      && n == |history| && totalTime == Sum(history)
      && minTime == Least(dblMax, history) && maxTime == Greatest(0.0, history)
      && multiset(times) == multiset(history)
    }

    constructor (dblMax: real)
      ensures Valid() && history == [] && this.dblMax == dblMax
    {
      this.dblMax := dblMax;
      minTime, maxTime, totalTime, n, times := dblMax, 0.0, 0.0, 0, [];
      history := [];
    }

    /** `record_query`. */
    method RecordQuery(t: real)
      requires Valid()
      modifies this
      ensures Valid() && history == old(history) + [t]
    {
      FoldsOfOneMore(dblMax, history, t);
      FoldsOfOneMore(0.0, history, t);
      n := n + 1;
      totalTime := totalTime + t;
      if t < minTime {
        minTime := t;
      }
      if t > maxTime {
        maxTime := t;
      }
      times := times + [t];
      history := history + [t];
    }

    /** `finalize`: the samples in ascending order. */
    method Finalize()
      requires Valid()
      modifies this`times
      ensures Valid() && Sorted(times)
    {
      var all := times;
      var sorted: seq<real> := [];
      for i := 0 to |all|
        invariant Sorted(sorted) && multiset(sorted) == multiset(all[..i])
      {
        InsertKeepsSorted(sorted, all[i]);
        sorted := InsertSorted(sorted, all[i]);
        assert all[..i + 1] == all[..i] + [all[i]];
      }
      assert all[..|all|] == all;
      times := sorted;
    }

    /** `get_pct_exec_time`: the sample of rank `|times| * pct / 100`, rounded down, but at least the
        first and at most the last. */
    method GetPct(pct: nat) returns (t: real)
      requires Valid() && Sorted(times) && history != []
      ensures exists k :: IsKth(history, k, t) && ReachesPct(n, pct, k)
      ensures IsKth(history, PctRank(n, pct), t)
    {
      SameLength();
      var pos := |times| * pct / 100 - 1;
      if pos <= 0 {
        pos := 0;
      }
      if pos >= |times| {
        pos := |times| - 1;
      }
      SortedGivesKth(history, times, pos + 1);
      t := times[pos];
    }

    /** `get_median_exec_time`: the middle sample, or halfway between the two in the middle. */
    method GetMedian() returns (t: real)
      requires Valid() && Sorted(times)
      ensures history == [] ==> t == 0.0
      ensures history != [] ==> IsHalfway(history, (n + 1) / 2, n / 2 + 1, t)
    {
      SameLength();
      if |times| == 0 {
        return 0.0;
      }
      SortedGivesKth(history, times, (n + 1) / 2);
      SortedGivesKth(history, times, n / 2 + 1);
      ghost var a, b := times[(n + 1) / 2 - 1], times[n / 2];
      if |times| % 2 == 1 {
        assert times[|times| / 2] == (a + b) / 2.0;
        return times[|times| / 2];
      }
      var pos := |times| / 2;
      t := (times[pos] + times[pos - 1]) / 2.0;
      assert t == (a + b) / 2.0;
    }

    lemma SameLength()
      requires Valid()
      ensures |times| == |history|
    {
      assert |multiset(times)| == |times| && |multiset(history)| == |history|;
    }

    /** The recorded minimum and maximum are those of the samples, as long as no time is above `dblMax`
        and some time is not negative; if all are negative the maximum stays at zero. */
    lemma ExtremesAreSamples()
      requires Valid() && history != []
      ensures (exists t :: t in history && t <= dblMax) ==> minTime in history
      ensures maxTime in history <==> exists t :: t in history && t >= 0.0
      ensures forall t :: t in history ==> minTime <= t <= maxTime
    {
      if t :| t in history && t <= dblMax {
        if minTime == dblMax {
          assert minTime <= t;
        }
      }
      if t :| t in history && t >= 0.0 {
        if maxTime == 0.0 {
          assert maxTime >= t;
        }
      }
    }

    /** Order statistics, and averages of two of them, lie between the recorded extremes. */
    lemma KthWithinExtremes(k: int, a: real, l: int, b: real)
      requires Valid() && IsKth(history, k, a) && IsKth(history, l, b)
      ensures minTime <= a <= maxTime && minTime <= (a + b) / 2.0 <= maxTime
    {
    }
  }

  // ---------------------------------------------------------------- all patterns

  /** `Query_stats`. */
  class AllStats {
    const dblMax: real
    var lookup: map<string, PatternStats>
    var totalTime: real
    var n: nat
    ghost var history: seq<(string, real)>

    ghost function Patterns(): set<PatternStats>
      reads this`lookup
    {
      set k | k in lookup :: lookup[k]
    }

    /** Every pattern has the part of the history under its key, and no pattern is empty. */
    ghost predicate Valid()
      reads this, Patterns()
    {
      && n == |history| && totalTime == Sum(Times(history))
      && (forall k :: k in lookup ==> lookup[k].Valid() && lookup[k].history == Of(history, k))
      && (forall k :: k in lookup <==> Of(history, k) != [])
      && (forall j, k :: j in lookup && k in lookup && j != k ==> lookup[j] != lookup[k])
    }

    constructor (dblMax: real)
      ensures Valid() && history == []
    {
      this.dblMax := dblMax;
      lookup, totalTime, n, history := map[], 0.0, 0, [];
    }

    /** The pattern of `key`, made when it is not there. */
    method FindOrMake(key: string) returns (s: PatternStats)
      requires Valid()
      modifies this`lookup
      ensures lookup == old(lookup)[key := s] && (s in old(Patterns()) || fresh(s))
      ensures s.Valid() && s.history == Of(history, key)
      ensures forall k :: k in lookup && k != key ==> lookup[k] != s
    {
      hide PatternStats.Valid, Of, Sum;
      if key !in lookup {
        s := new PatternStats(dblMax);
        lookup := lookup[key := s];
      } else {
        s := lookup[key];
      }
    }

    /** `record_query`. */
    method RecordQuery(key: string, t: real)
      requires Valid()
      modifies this, Patterns()
      ensures Valid() && history == old(history) + [(key, t)]
    {
      hide PatternStats.Valid, Of, Sum, Times;
      HistoryGrows(history, key, t);
      var s := FindOrMake(key);
      n := n + 1;
      totalTime := totalTime + t;
      s.RecordQuery(t);
      history := history + [(key, t)];
    }

    /** `finalize`: every pattern is sorted, nothing else changes. */
    method Finalize()
      requires Valid()
      modifies Patterns()`times
      ensures Valid() && forall k :: k in lookup ==> Sorted(lookup[k].times)
    {
      hide PatternStats.Valid, Of, Sum, Times, Sorted;
      var keys := lookup.Keys;
      while keys != {}
        invariant keys <= lookup.Keys && forall k :: k in lookup ==> lookup[k].Valid()
        invariant forall k :: k in lookup && k !in keys ==> Sorted(lookup[k].times)
        decreases |keys|
      {
        var key :| key in keys;
        lookup[key].Finalize();
        keys := keys - {key};
      }
    }

    /** The figures of the patterns in `ks`, added up. */
    ghost function SumN(ks: seq<string>): nat
      requires forall k :: k in ks ==> k in lookup
      reads this`lookup, Patterns()
    {
      if ks == [] then 0 else SumN(ks[..|ks| - 1]) + lookup[ks[|ks| - 1]].n
    }

    ghost function SumTotal(ks: seq<string>): real
      requires forall k :: k in ks ==> k in lookup
      reads this`lookup, Patterns()
    {
      if ks == [] then 0.0 else SumTotal(ks[..|ks| - 1]) + lookup[ks[|ks| - 1]].totalTime
    }

    lemma {:induction false} SumsAreOver(ks: seq<string>)
      requires forall k :: k in ks ==> k in lookup
      requires forall k :: k in lookup ==> lookup[k].Valid() && lookup[k].history == Of(history, k)
      ensures SumN(ks) == CountOver(history, ks) && SumTotal(ks) == TotalOver(history, ks)
    {
      hide Of, Sum, Least, Greatest;
      if ks != [] {
        assert forall k :: k in ks[..|ks| - 1] ==> k in ks;
        SumsAreOver(ks[..|ks| - 1]);
        assert lookup[ks[|ks| - 1]].Valid();
      }
    }

    /** However the patterns are walked through, their counts and totals add up to the overall ones. */
    lemma TotalsAreSums(ks: seq<string>)
      requires Valid() && Distinct(ks) && forall k :: k in ks <==> k in lookup
      ensures SumN(ks) == n && SumTotal(ks) == totalTime
    {
      hide PatternStats.Valid;
      SumsAreOver(ks);
      forall i | 0 <= i < |history|
        ensures history[i].0 in ks
      {
        EventKept(history, i);
      }
      KeysPartition(history, ks);
    }
  }
}
