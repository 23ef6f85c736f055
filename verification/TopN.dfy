/** Keeping the slowest queries: inserting each query into a sorted multiset and dropping the last
    element when it grows too big leaves the same queries as sorting the whole history. */
module TopN {

  /** Position of a new element in a multiset ordered by descending time: after all
      elements that are at least as slow, as `std::multiset::insert` has it. */
  function UpperBound(times: seq<int>, slow: seq<nat>, t: int): (k: nat)
    requires forall i :: 0 <= i < |slow| ==> slow[i] < |times|
    ensures k <= |slow|
    ensures k > 0 ==> times[slow[k - 1]] >= t
    decreases |slow|
  {
    if slow == [] then 0
    else if times[slow[|slow| - 1]] >= t then |slow|
    else UpperBound(times, slow[..|slow| - 1], t)
  }

  /** `slow` with query number `q` inserted. Queries are numbered in the order they are registered. */
  function Insert(times: seq<int>, slow: seq<nat>, q: nat): (r: seq<nat>)
    requires q < |times| && forall i :: 0 <= i < |slow| ==> slow[i] < |times|
    ensures forall i :: 0 <= i < |r| ==> r[i] < |times|
    ensures |r| == |slow| + 1
  {
    var k := UpperBound(times, slow, times[q]);
    slow[..k] + [q] + slow[k..]
  }

  /** What `register_query` does to the set for query number `q`. */
  function Register(times: seq<int>, slow: seq<nat>, q: nat, limit: nat): (r: seq<nat>)
    requires q < |times| && forall i :: 0 <= i < |slow| ==> slow[i] < |times|
    ensures forall i :: 0 <= i < |r| ==> r[i] < |times|
  {
    var s := Insert(times, slow, q);
    if |s| > limit then s[..|s| - 1] else s
  }

  /** The set after registering the first `n` queries. */
  function Slowest(times: seq<int>, n: nat, limit: nat): (r: seq<nat>)
    requires n <= |times|
    ensures forall i :: 0 <= i < |r| ==> r[i] < |times|
  {
    if n == 0 then [] else Register(times, Slowest(times, n - 1, limit), n - 1, limit)
  }

  /** Query `a` belongs before query `b`: it is slower, or as slow and registered earlier. */
  predicate Before(times: seq<int>, a: nat, b: nat)
    requires a < |times| && b < |times|
  {
    times[a] > times[b] || (times[a] == times[b] && a < b)
  }

  /** `order` lists queries 0..n exactly once each, stably sorted by descending time. */
  ghost predicate StableSort(times: seq<int>, n: nat, order: seq<nat>) {
    && n <= |times| && |order| == n
    && (forall i :: 0 <= i < |order| ==> order[i] < n)
    && (forall q: nat :: q < n ==> q in order)
    && (forall i, j :: 0 <= i < j < |order| ==> Before(times, order[i], order[j]))
  }

  /** Sorting everything: insertion without ever dropping. */
  function SortAll(times: seq<int>, n: nat): (r: seq<nat>)
    requires n <= |times|
    ensures forall i :: 0 <= i < |r| ==> r[i] < |times|
    ensures |r| == n
  {
    if n == 0 then [] else Insert(times, SortAll(times, n - 1), n - 1)
  }

  function Min(a: nat, b: nat): nat {
    if a < b then a else b
  }

  /** In a sorted set the upper bound splits the elements at least as slow from the faster ones. */
  lemma {:induction false} UpperBoundSplits(times: seq<int>, slow: seq<nat>, t: int)
    requires forall i :: 0 <= i < |slow| ==> slow[i] < |times|
    requires forall i, j :: 0 <= i < j < |slow| ==> times[slow[i]] >= times[slow[j]]
    ensures var k := UpperBound(times, slow, t);
            && (forall i :: 0 <= i < k ==> times[slow[i]] >= t)
            && (forall i :: k <= i < |slow| ==> times[slow[i]] < t)
    decreases |slow|
  {
    if slow != [] && times[slow[|slow| - 1]] < t {
      UpperBoundSplits(times, slow[..|slow| - 1], t);
    }
  }

  lemma {:induction false} SortAllSorts(times: seq<int>, n: nat)
    requires n <= |times|
    ensures StableSort(times, n, SortAll(times, n))
  {
    if n > 0 {
      SortAllSorts(times, n - 1);
      var s := SortAll(times, n - 1);
      InsertKeepsSorted(times, s, n - 1);
    }
  }

  lemma InsertKeepsAll(times: seq<int>, s: seq<nat>, q: nat, x: nat)
    requires q < |times| && StableSort(times, q, s) && x <= q
    ensures x in Insert(times, s, q)
  {
    hide UpperBound;
    var r := Insert(times, s, q);
    var k := UpperBound(times, s, times[q]);
    if x < q {
      assert x in s;
      var i :| 0 <= i < |s| && s[i] == x;
      assert r[if i < k then i else i + 1] == x;
    } else {
      assert r[k] == q;
    }
  }

  lemma InsertKeepsOrder(times: seq<int>, s: seq<nat>, q: nat, i: nat, j: nat)
    requires q < |times| && StableSort(times, q, s) && i < j <= q
    ensures var r := Insert(times, s, q); Before(times, r[i], r[j])
  {
    hide UpperBound;
    var k := UpperBound(times, s, times[q]);
    assert forall x, y :: 0 <= x < y < |s| ==> Before(times, s[x], s[y]);
    UpperBoundSplits(times, s, times[q]);
    assert i < k ==> times[s[i]] >= times[q];
    assert j > k ==> times[s[j - 1]] < times[q];
  }

  lemma InsertKeepsSorted(times: seq<int>, s: seq<nat>, q: nat)
    requires q < |times| && StableSort(times, q, s)
    ensures StableSort(times, q + 1, Insert(times, s, q))
  {
    var r := Insert(times, s, q);
    forall x: nat | x < q + 1 ensures x in r {
      InsertKeepsAll(times, s, q, x);
    }
    forall i, j | 0 <= i < j < |r| ensures Before(times, r[i], r[j]) {
      InsertKeepsOrder(times, s, q, i, j);
    }
    assert forall i :: 0 <= i < |r| ==> r[i] < q + 1;
  }

  lemma UpperBoundOfPrefix(times: seq<int>, s: seq<nat>, t: int, m: nat)
    requires m <= |s| && forall i :: 0 <= i < |s| ==> s[i] < |times|
    requires forall i, j :: 0 <= i < j < |s| ==> times[s[i]] >= times[s[j]]
    ensures UpperBound(times, s[..m], t) == Min(UpperBound(times, s, t), m)
  {
    hide UpperBound;
    UpperBoundSplits(times, s, t);
    UpperBoundSplits(times, s[..m], t);
    var k, j := UpperBound(times, s, t), UpperBound(times, s[..m], t);
    assert j < m ==> s[..m][j] == s[j];
    assert k < m ==> s[..m][k] == s[k];
  }

  /** Inserting into the first `m` of a sorted sequence and keeping `m`, or inserting into the
      whole and keeping `m`, is the same. */
  lemma InsertThenTake(times: seq<int>, s: seq<nat>, q: nat, m: nat)
    requires q < |times| && StableSort(times, q, s) && m <= |s|
    ensures Insert(times, s[..m], q)[..m] == Insert(times, s, q)[..m]
  {
    hide UpperBound;
    assert forall i, j :: 0 <= i < j < |s| ==> Before(times, s[i], s[j]);
    UpperBoundOfPrefix(times, s, times[q], m);
    hide StableSort;
  }

  /** After any registrations the kept queries are exactly the first `limit` of all registered
      queries, stably sorted by descending time. */
  lemma {:induction false} SlowestIsPrefixOfSort(times: seq<int>, n: nat, limit: nat)
    requires n <= |times|
    ensures Slowest(times, n, limit) == SortAll(times, n)[..Min(n, limit)]
    ensures StableSort(times, n, SortAll(times, n))
  {
    hide StableSort, Insert;
    SortAllSorts(times, n);
    if n > 0 {
      SlowestIsPrefixOfSort(times, n - 1, limit);
      var s := SortAll(times, n - 1);
      var m := Min(n - 1, limit);
      InsertThenTake(times, s, n - 1, m);
      if n <= limit {
        assert s[..m] == s;
        assert SortAll(times, n)[..n] == SortAll(times, n);
      } else {
        assert m == limit;
      }
    }
  }

  /** Where one sort has its next element, the other has not placed it yet. */
  lemma NotPlacedEarlier(times: seq<int>, n: nat, a: seq<nat>, b: seq<nat>, k: nat, i: nat)
    requires StableSort(times, n, a) && StableSort(times, n, b) && k < n && a[..k] == b[..k]
    requires i < n && b[i] == a[k]
    ensures i >= k
  {
    assert i < k ==> a[..k][i] == b[..k][i];
    assert i < k ==> Before(times, a[i], a[k]);
  }

  lemma PlacedInOrder(times: seq<int>, n: nat, order: seq<nat>, k: nat, i: nat)
    requires StableSort(times, n, order) && k <= i < n
    ensures k == i || Before(times, order[k], order[i])
  {
  }

  /** Being a stable sort determines the order completely. */
  lemma {:induction false} StableSortIsUnique(times: seq<int>, n: nat, a: seq<nat>, b: seq<nat>, k: nat)
    requires StableSort(times, n, a) && StableSort(times, n, b) && k <= n
    ensures a[..k] == b[..k]
  {
    if k > 0 {
      StableSortIsUnique(times, n, a, b, k - 1);
      var x, y := a[k - 1], b[k - 1];
      assert x in b && y in a;
      var i :| 0 <= i < |b| && b[i] == x;
      var j :| 0 <= j < |a| && a[j] == y;
      NotPlacedEarlier(times, n, a, b, k - 1, i);
      NotPlacedEarlier(times, n, b, a, k - 1, j);
      PlacedInOrder(times, n, b, k - 1, i);
      PlacedInOrder(times, n, a, k - 1, j);
    }
  }

  /** Later queries do not change what was kept before. */
  lemma {:induction false} SlowestOfPrefix(a: seq<int>, b: seq<int>, n: nat, limit: nat)
    requires a <= b && n <= |a|
    ensures Slowest(a, n, limit) == Slowest(b, n, limit)
  {
    hide UpperBound, Insert, Register;
    if n > 0 {
      SlowestOfPrefix(a, b, n - 1, limit);
      RegisterOfExtension(a, b, Slowest(a, n - 1, limit), n - 1, limit);
    }
  }

  lemma RegisterOfExtension(a: seq<int>, b: seq<int>, slow: seq<nat>, q: nat, limit: nat)
    requires a <= b && q < |a| && forall i :: 0 <= i < |slow| ==> slow[i] < |a|
    ensures Register(a, slow, q, limit) == Register(b, slow, q, limit)
  {
    hide UpperBound;
    assert a[q] == b[q];
    UpperBoundOfExtension(a, b, slow, a[q]);
  }

  lemma {:induction false} UpperBoundOfExtension(a: seq<int>, b: seq<int>, slow: seq<nat>, t: int)
    requires a <= b && forall i :: 0 <= i < |slow| ==> slow[i] < |a|
    ensures UpperBound(a, slow, t) == UpperBound(b, slow, t)
    decreases |slow|
  {
    if slow != [] {
      UpperBoundOfExtension(a, b, slow[..|slow| - 1], t);
    }
  }

  /** What is kept, in plain words: as many as fit, slower ones first, none slower left out, and of equally
      slow ones those registered first. */
  lemma SlowestAreSlowest(times: seq<int>, n: nat, limit: nat)
    requires n <= |times|
    ensures var kept := Slowest(times, n, limit);
            && |kept| == (if n < limit then n else limit)
            && (forall i :: 0 <= i < |kept| ==> kept[i] < n)
            && (forall i, j :: 0 <= i < j < |kept| ==> times[kept[i]] >= times[kept[j]] && kept[i] != kept[j])
            && forall q: nat, i :: q < n && q !in kept && 0 <= i < |kept| ==>
                 times[kept[i]] > times[q] || (times[kept[i]] == times[q] && kept[i] < q)
  {
    hide Slowest, SortAll;
    SlowestIsPrefixOfSort(times, n, limit);
    var order, kept := SortAll(times, n), Slowest(times, n, limit);
    forall q: nat, i | q < n && q !in kept && 0 <= i < |kept|
      ensures times[kept[i]] > times[q] || (times[kept[i]] == times[q] && kept[i] < q)
    {
      assert q in order;
      var k :| 0 <= k < |order| && order[k] == q;
      assert forall x :: 0 <= x < |kept| ==> kept[x] == order[x] && kept[x] in kept;
      assert kept[i] == order[i] && i < k && Before(times, order[i], order[k]);
    }
    forall i, j | 0 <= i < j < |kept|
      ensures times[kept[i]] >= times[kept[j]] && kept[i] != kept[j]
    {
      assert Before(times, order[i], order[j]);
    }
  }
}
