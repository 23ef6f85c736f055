/** Histories of timed events under keys, and the plain definitions the statistics are held against. */
module History {

  function Sum(ts: seq<real>): real {
    if ts == [] then 0.0 else Sum(ts[..|ts| - 1]) + ts[|ts| - 1]
  }

  /** The least of the times and `start`. */
  function Least(start: real, ts: seq<real>): (m: real)
    ensures m <= start && forall t :: t in ts ==> m <= t
    ensures m == start || m in ts
  {
    if ts == [] then start
    else
      var m := Least(start, ts[..|ts| - 1]);
      assert ts == ts[..|ts| - 1] + [ts[|ts| - 1]];
      if ts[|ts| - 1] < m then ts[|ts| - 1] else m
  }

  /** The greatest of the times and `start`. */
  function Greatest(start: real, ts: seq<real>): (m: real)
    ensures m >= start && forall t :: t in ts ==> m >= t
    ensures m == start || m in ts
  {
    if ts == [] then start
    else
      var m := Greatest(start, ts[..|ts| - 1]);
      assert ts == ts[..|ts| - 1] + [ts[|ts| - 1]];
      if ts[|ts| - 1] > m then ts[|ts| - 1] else m
  }

  lemma FoldsOfOneMore(start: real, ts: seq<real>, t: real)
    ensures Sum(ts + [t]) == Sum(ts) + t
    ensures Least(start, ts + [t]) == if t < Least(start, ts) then t else Least(start, ts)
    ensures Greatest(start, ts + [t]) == if t > Greatest(start, ts) then t else Greatest(start, ts)
  {
    assert (ts + [t])[..|ts|] == ts;
  }

  /** The times recorded under one key, in order. */
  ghost function Of<K>(h: seq<(K, real)>, key: K): (ts: seq<real>)
    ensures |ts| <= |h|
  {
    if h == [] then []
    else Of(h[..|h| - 1], key) + (if h[|h| - 1].0 == key then [h[|h| - 1].1] else [])
  }

  lemma OfOneMore<K>(h: seq<(K, real)>, key: K, e: (K, real))
    ensures Of(h + [e], key) == Of(h, key) + (if e.0 == key then [e.1] else [])
  {
    assert (h + [e])[..|h|] == h;
  }

  lemma {:induction false} EventKept<K>(h: seq<(K, real)>, i: nat)
    requires i < |h|
    ensures Of(h, h[i].0) != []
  {
    if i < |h| - 1 {
      EventKept(h[..|h| - 1], i);
    }
  }

  /** All times, whatever their key. */
  ghost function Times<K>(h: seq<(K, real)>): seq<real> { seq(|h|, i requires 0 <= i < |h| => h[i].1) }

  /** What one more event changes. */
  lemma HistoryGrows<K(!new)>(h: seq<(K, real)>, key: K, t: real)
    ensures forall k :: Of(h + [(key, t)], k) == Of(h, k) + (if k == key then [t] else [])
    ensures Sum(Times(h + [(key, t)])) == Sum(Times(h)) + t
  {
    forall k
      ensures Of(h + [(key, t)], k) == Of(h, k) + (if k == key then [t] else [])
    {
      OfOneMore(h, k, (key, t));
    }
    assert Times(h + [(key, t)]) == Times(h) + [t];
    FoldsOfOneMore(0.0, Times(h), t);
  }

  /** The numbers of times, and the times, added up over the keys in `ks`. */
  ghost function CountOver<K>(h: seq<(K, real)>, ks: seq<K>): nat {
    if ks == [] then 0 else CountOver(h, ks[..|ks| - 1]) + |Of(h, ks[|ks| - 1])|
  }

  ghost function TotalOver<K>(h: seq<(K, real)>, ks: seq<K>): real {
    if ks == [] then 0.0 else TotalOver(h, ks[..|ks| - 1]) + Sum(Of(h, ks[|ks| - 1]))
  }

  ghost predicate Distinct<K>(ks: seq<K>) { forall i, j :: 0 <= i < j < |ks| ==> ks[i] != ks[j] }

  lemma {:induction false} OverOneMore<K>(h: seq<(K, real)>, e: (K, real), ks: seq<K>)
    requires Distinct(ks)
    ensures CountOver(h + [e], ks) == CountOver(h, ks) + (if e.0 in ks then 1 else 0)
    ensures TotalOver(h + [e], ks) == TotalOver(h, ks) + (if e.0 in ks then e.1 else 0.0)
  {
    hide Of, Sum;
    if ks != [] {
      var front, k := ks[..|ks| - 1], ks[|ks| - 1];
      assert ks == front + [k];
      OverOneMore(h, e, front);
      OfOneMore(h, k, e);
      FoldsOfOneMore(0.0, Of(h, k), e.1);
      assert e.0 in ks <==> e.0 in front || e.0 == k;
      if e.0 == k {
        assert e.0 !in front;
        assert |Of(h + [e], k)| == |Of(h, k)| + 1;
      } else {
        assert Of(h + [e], k) == Of(h, k);
      }
    }
  }

  lemma {:induction false} OverNothing<K>(ks: seq<K>)
    ensures CountOver([], ks) == 0 && TotalOver([], ks) == 0.0
  {
    if ks != [] {
      OverNothing(ks[..|ks| - 1]);
    }
  }

  /** Keyed totals add up to the whole: over any list of keys that names each key of the history once,
      in any order, the counts sum to the length of the history and the totals to its total. */
  lemma {:induction false} KeysPartition<K>(h: seq<(K, real)>, ks: seq<K>)
    requires Distinct(ks) && forall i :: 0 <= i < |h| ==> h[i].0 in ks
    ensures CountOver(h, ks) == |h| && TotalOver(h, ks) == Sum(Times(h))
  {
    if h == [] {
      OverNothing(ks);
    } else {
      var front, e := h[..|h| - 1], h[|h| - 1];
      assert h == front + [e];
      KeysPartition(front, ks);
      OverOneMore(front, e, ks);
      assert Times(h) == Times(front) + [e.1];
      FoldsOfOneMore(0.0, Times(front), e.1);
    }
  }
}
