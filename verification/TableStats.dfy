/** Online statistics per table and query type. */
module TableStats {
  import opened History
  import opened Characters

  // ---------------------------------------------------------------- table names

  predicate IsLetter(c: char) { 'a' <= c <= 'z' || 'A' <= c <= 'Z' }

  /** `table_char`. */
  predicate IsTableChar(c: char) { IsLetter(c) || '0' <= c <= '9' || c == '_' || c == '$' }

  /** The characters of a name, and those it can start with. */
  lemma TableCharacters(c: char)
    ensures IsLetter(c) <==> c in SMALL || c in CAPITAL
    ensures IsTableChar(c) <==> c in SMALL || c in CAPITAL || c in DIGITS || c == '_' || c == '$'
  {
    Smalls(c);
    Capitals(c);
    Digits(c);
  }

  /** `name` is the longest run of table characters in `token` that starts at the first letter. */
  ghost predicate NameAt(token: string, i: nat, j: nat) {
    && i <= j <= |token|
    && (forall k :: 0 <= k < i ==> !IsLetter(token[k]))
    && (i < |token| ==> IsLetter(token[i]))
    && (forall k :: i <= k < j ==> IsTableChar(token[k]))
    && (j < |token| ==> !IsTableChar(token[j]))
  }

  lemma NameAtUnique(token: string, i: nat, j: nat, k: nat, l: nat)
    requires NameAt(token, i, j) && NameAt(token, k, l)
    ensures i == k && j == l
  {
    assert i < |token| ==> IsLetter(token[i]);
    assert k < |token| ==> IsLetter(token[k]);
    assert j < |token| ==> !IsTableChar(token[j]);
    assert l < |token| ==> !IsTableChar(token[l]);
  }

  /** The number of characters in front of the first letter, and of table characters in front of the
      first other one. */
  function SkipTo(token: string): (i: nat)
    ensures i <= |token| && (forall k :: 0 <= k < i ==> !IsLetter(token[k])) && (i < |token| ==> IsLetter(token[i]))
  {
    if token == "" || IsLetter(token[0]) then 0 else 1 + SkipTo(token[1..])
  }

  function RunLength(token: string): (j: nat)
    ensures j <= |token| && (forall k :: 0 <= k < j ==> IsTableChar(token[k]))
    ensures j < |token| ==> !IsTableChar(token[j])
  {
    if token == "" || !IsTableChar(token[0]) then 0 else 1 + RunLength(token[1..])
  }

  /** The name a token is counted under. */
  function TableName(token: string): string {
    var rest := token[SkipTo(token)..];
    rest[..RunLength(rest)]
  }

  lemma TableNameIsNameAt(token: string, i: nat, j: nat)
    requires NameAt(token, i, j)
    ensures TableName(token) == token[i..j]
  {
    var n := SkipTo(token);
    var rest := token[n..];
    var m := RunLength(rest);
    assert forall k :: n <= k < n + m ==> token[k] == rest[k - n];
    assert NameAt(token, n, n + m);
    NameAtUnique(token, n, n + m, i, j);
  }

  /** A name is its own name, and quoting it with characters no name has changes nothing. */
  lemma QuotesDoNotMatter(name: string, before: string, after: string)
    requires name == "" || IsLetter(name[0])
    requires forall k :: 0 <= k < |name| ==> IsTableChar(name[k])
    requires forall k :: 0 <= k < |before| ==> !IsLetter(before[k])
    requires after == "" || !IsTableChar(after[0])
    requires name == "" ==> after == ""
    ensures TableName(before + name + after) == name
  {
    var token := before + name + after;
    assert NameAt(token, |before|, |before| + |name|);
    TableNameIsNameAt(token, |before|, |before| + |name|);
  }

  // ---------------------------------------------------------------- the entries

  /** `Table_query_entry`. */
  datatype Entry = Entry(n: nat, minTime: real, maxTime: real, totalTime: real)

  function Update(e: Entry, t: real): Entry {
    Entry(e.n + 1,
          if t < e.minTime then t else e.minTime,
          if t > e.maxTime then t else e.maxTime,
          e.totalTime + t)
  }

  /** The entry of a list of times, by its plain definition. */
  ghost predicate Summarises(e: Entry, ts: seq<real>) {
    && ts != [] && e.n == |ts| && e.totalTime == Sum(ts)
    && e.minTime == Least(ts[0], ts) && e.maxTime == Greatest(ts[0], ts)
  }

  lemma SummaryMeans(e: Entry, ts: seq<real>)
    requires Summarises(e, ts)
    ensures e.minTime in ts && e.maxTime in ts && forall t :: t in ts ==> e.minTime <= t <= e.maxTime
  {}

  /** `Table_stats`: the entries of each table under the query types seen on it. */
  class TableStats {
    var stats: map<string, map<string, Entry>>
    ghost var history: seq<((string, string), real)>

    predicate Has(name: string, kind: string)
      reads this`stats
    {
      name in stats && kind in stats[name]
    }

    /** There is an entry for exactly the tables and types of the history, and it sums up its part. */
    ghost predicate Valid()
      reads this
    {
      && (forall name, kind :: Has(name, kind) <==> Of(history, (name, kind)) != [])
      && (forall name, kind :: Has(name, kind) ==> Summarises(stats[name][kind], Of(history, (name, kind))))
    }

    constructor ()
      ensures Valid() && history == []
    {
      stats, history := map[], [];
    }

    /** `register_query` on the entries of one table. If the entry of `kind` sums up the times `ts`, or is
        missing because there were none, it sums up these and `t` afterwards; the others stay. */
    static method RegisterQuery(entries: map<string, Entry>, kind: string, t: real, ghost ts: seq<real>)
      returns (r: map<string, Entry>)
      requires if kind in entries then Summarises(entries[kind], ts) else ts == []
      ensures kind in r && Summarises(r[kind], ts + [t])
      ensures forall k :: k != kind ==> (k in r <==> k in entries) && (k in r ==> r[k] == entries[k])
    {
      SummaryGrows(ts, t);
      assert ts == [] ==> ts + [t] == [t];
      if kind !in entries {
        return entries[kind := Entry(1, t, t, t)];
      }
      r := entries[kind := Update(entries[kind], t)];
    }

    /** `update_table`: finds the name with two loops over the token, and counts the time. */
    method UpdateTable(token: string, kind: string, t: real)
      requires Valid()
      modifies this
      ensures Valid() && history == old(history) + [((TableName(token), kind), t)]
    {
      hide TableName, Of, Sum, Least, Greatest, Summarises;
      var p := 0;
      while p < |token| && !IsLetter(token[p])
        invariant p <= |token| && forall k :: 0 <= k < p ==> !IsLetter(token[k])
      {
        p := p + 1;
      }
      ghost var from := p;
      var name := "";
      while p < |token| && IsTableChar(token[p])
        invariant from <= p <= |token| && name == token[from..p]
        invariant forall k :: from <= k < p ==> IsTableChar(token[k])
      {
        assert token[from..p + 1] == token[from..p] + [token[p]];
        name := name + [token[p]];
        p := p + 1;
      }
      TableNameIsNameAt(token, from, p);
      Count(name, kind, t);
    }

    method Count(name: string, kind: string, t: real)
      requires Valid()
      modifies this
      ensures Valid() && history == old(history) + [((name, kind), t)]
    {
      hide Of, Sum, Least, Greatest;
      ghost var key := (name, kind);
      HistoryGrows(history, key, t);
      ghost var ts := Of(history, key);
      var entries := if name in stats then stats[name] else map[];
      assert kind in entries <==> Has(name, kind);
      entries := RegisterQuery(entries, kind, t, ts);
      stats := stats[name := entries];
      history := history + [(key, t)];
      forall other, also | (other, also) != key
        ensures Has(other, also) == old(Has(other, also))
        ensures Has(other, also) ==> stats[other][also] == old(stats)[other][also]
        ensures Of(history, (other, also)) == Of(old(history), (other, also))
      {
      }
      assert Of(history, key) == ts + [t];
      assert Has(name, kind) && Summarises(stats[name][kind], Of(history, key));
      forall other, also
        ensures Has(other, also) <==> Of(history, (other, also)) != []
        ensures Has(other, also) ==> Summarises(stats[other][also], Of(history, (other, also)))
      {
        if (other, also) != key {
          assert old(Has(other, also)) <==> Of(old(history), (other, also)) != [];
        }
      }
    }

    /** The counts of the entries in `ks`, added up. */
    ghost function SumN(ks: seq<(string, string)>): nat
      requires forall k :: k in ks ==> Has(k.0, k.1)
      reads this`stats
    {
      if ks == [] then 0
      else
        var last := ks[|ks| - 1];
        assert last in ks && Has(last.0, last.1);
        SumN(ks[..|ks| - 1]) + stats[last.0][last.1].n
    }

    lemma {:induction false} SumIsOver(ks: seq<(string, string)>)
      requires Valid() && forall k :: k in ks ==> Has(k.0, k.1)
      ensures SumN(ks) == CountOver(history, ks)
    {
      if ks != [] {
        assert forall k :: k in ks[..|ks| - 1] ==> k in ks;
        SumIsOver(ks[..|ks| - 1]);
        var last := ks[|ks| - 1];
        assert last in ks && last == (last.0, last.1);
        assert Summarises(stats[last.0][last.1], Of(history, last));
      }
    }

    /** Every update is counted in one entry and only there. */
    lemma CountsAddUp(ks: seq<(string, string)>)
      requires Valid() && Distinct(ks) && forall k :: k in ks <==> Has(k.0, k.1)
      ensures SumN(ks) == |history|
    {
      SumIsOver(ks);
      forall i | 0 <= i < |history|
        ensures history[i].0 in ks
      {
        EventKept(history, i);
        assert history[i].0 == (history[i].0.0, history[i].0.1);
      }
      KeysPartition(history, ks);
    }
  }

  lemma SummaryGrows(ts: seq<real>, t: real)
    ensures Summarises(Entry(1, t, t, t), [t])
    ensures forall e :: Summarises(e, ts) ==> Summarises(Update(e, t), ts + [t])
  {
    assert Sum([]) == 0.0;
    FoldsOfOneMore(t, [], t);
    assert [] + [t] == [t];
    if ts != [] {
      FoldsOfOneMore(ts[0], ts, t);
    }
  }
}
