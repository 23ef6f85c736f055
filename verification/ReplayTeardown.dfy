/** The end of a replay: `Mysql_stream_manager::cleanup` deletes the queries of the slow-query set, and then
    the streams that are still open, whose lists may hold the same queries. */
module ReplayTeardown {
  import opened Wrappers
  import opened PacketChain
  import opened Replay
  import opened ReplayGuarantees

  // ---------------------------------------------------------------- the source's operations

  /** `unmark_ref` and `delete` of a query of the slow-query set. */
  function DeleteSlow(ch: Chain, q: nat): Chain {
    if q < |ch.nodes| && ch.nodes[q].refs > 0 then
      Touch(ch, q).(nodes := ch.nodes[q := ch.nodes[q].(refs := ch.nodes[q].refs - 1, freed := true)])
    else Fault(ch)
  }

  /** The loop over the set, as far as it meets packets of this stream. */
  function DeleteAll(ch: Chain, slow: seq<nat>): Chain
    decreases |slow|
  {
    if slow == [] then ch else DeleteAll(DeleteSlow(ch, slow[0]), slow[1..])
  }

  /** The loop of `Mysql_stream::cleanup`. `fuel` bounds the number of packets visited. */
  function CleanupFrom(ch: Chain, p: Ptr, fuel: nat): Chain
    decreases fuel
  {
    if p.Null? || fuel == 0 then ch
    else
      var c1 := Touch(ch, p.i);
      CleanupFrom(Unlink(c1, p.i), Next(c1, p.i), fuel - 1)
  }

  /** `delete` of a stream. */
  function Close(ch: Chain): Chain { CleanupFrom(ch, ch.first, |ch.nodes|) }

  /** A joined stream at the end, when `slow` are its packets in the slow-query set: a stream still in
      `lookup` goes after the set, one that was closed earlier went before it. */
  function Torn(ch: Chain, slow: seq<nat>, open: bool): Chain {
    if open then Close(DeleteAll(ch, slow)) else DeleteAll(Close(ch), slow)
  }

  // ---------------------------------------------------------------- the set

  predicate Distinct(ks: seq<nat>) { forall i, j :: 0 <= i < j < |ks| ==> ks[i] != ks[j] }

  lemma {:induction false} DeleteAllDoes(ch: Chain, slow: seq<nat>)
    requires !ch.fault && Distinct(slow)
    requires forall q :: q in slow ==> Live(ch, q) && ch.nodes[q].refs > 0
    ensures var r := DeleteAll(ch, slow);
            && !r.fault && |r.nodes| == |ch.nodes| && r.first == ch.first
            && forall k: nat :: k < |ch.nodes| ==>
                 r.nodes[k] == if k in slow then ch.nodes[k].(refs := ch.nodes[k].refs - 1, freed := true)
                               else ch.nodes[k]
    decreases |slow|
  {
    if slow != [] {
      assert slow[0] in slow;
      var c := DeleteSlow(ch, slow[0]);
      assert forall q :: q in slow[1..] ==> q in slow && q != slow[0];
      assert forall k: nat :: k in slow <==> k == slow[0] || k in slow[1..];
      DeleteAllDoes(c, slow[1..]);
    }
  }

  // ---------------------------------------------------------------- the list

  lemma {:induction false} CleanupKeepsFault(ch: Chain, p: Ptr, fuel: nat)
    requires ch.fault
    ensures CleanupFrom(ch, p, fuel).fault
    decreases fuel
  {
    hide Unlink;
    if p.At? && fuel > 0 {
      var c1 := Touch(ch, p.i);
      UnlinkKeepsFault(c1, p.i);
      CleanupKeepsFault(Unlink(c1, p.i), Next(c1, p.i), fuel - 1);
    }
  }

  /** Unlinking the first packet uses it and its successor, and nothing else. */
  lemma UnlinkFirst(ch: Chain, i: nat)
    requires !ch.fault && ch.first == At(i) && Live(ch, i) && ch.nodes[i].refs > 0 && ch.nodes[i].prev == Null
    requires var n := ch.nodes[i].next; n.At? ==> i < n.i < |ch.nodes|
    ensures var r, n := Unlink(ch, i), ch.nodes[i].next;
            && (r.fault <==> n.At? && ch.nodes[n.i].freed)
            && |r.nodes| == |ch.nodes| && r.first == n
            && r.nodes[i] == Node(ch.nodes[i].kind, Null, Null, ch.nodes[i].refs - 1, ch.nodes[i].refs == 1)
            && forall k: nat :: k < |ch.nodes| && k != i ==>
                 r.nodes[k] == if At(k) == n then ch.nodes[k].(prev := Null) else ch.nodes[k]
  {
    var b := Bypass(ch, i);
    assert b.nodes[i] == ch.nodes[i] && b.first == ch.nodes[i].next;
  }

  /** `cur` is what is left of `orig` when the loop has come to `p`: from there on the list is as it was,
      except that some of its packets may be freed. */
  ghost predicate Left(orig: Chain, cur: Chain, p: Ptr) {
    && |cur.nodes| == |orig.nodes| && cur.first == p
    && (p.At? ==>
          && Live(orig, p.i) && cur.nodes[p.i].prev == Null
          && forall k: nat :: p.i <= k && Live(orig, k) ==>
               cur.nodes[k].next == orig.nodes[k].next && cur.nodes[k].refs > 0)
  }

  /** The packet is one of those the loop has still to unlink. */
  ghost predicate ToGo(orig: Chain, p: Ptr, k: nat) { p.At? && p.i <= k && Live(orig, k) }

  lemma NextToGo(orig: Chain, i: nat, n: Ptr)
    requires Live(orig, i) && NearestAfter(orig, i, n)
    ensures forall k: nat :: ToGo(orig, At(i), k) <==> k == i || ToGo(orig, n, k)
    ensures forall k: nat :: ToGo(orig, n, k) ==> k < |orig.nodes|
    ensures !ToGo(orig, n, i) && (n.At? ==> ToGo(orig, n, n.i))
  {}

  lemma LeftBehind(orig: Chain, cur: Chain, i: nat, r: Chain)
    requires Left(orig, cur, At(i)) && NearestAfter(orig, i, orig.nodes[i].next)
    requires var n := orig.nodes[i].next;
             && |r.nodes| == |cur.nodes| && r.first == n
             && forall k: nat :: k < |cur.nodes| && k != i ==>
                  r.nodes[k] == if At(k) == n then cur.nodes[k].(prev := Null) else cur.nodes[k]
    ensures Left(orig, r, orig.nodes[i].next)
  {}

  lemma OneUnlinked(orig: Chain, cur: Chain, i: nat)
    requires Shape(orig) && !cur.fault && Left(orig, cur, At(i)) && !cur.nodes[i].freed
    ensures var r, n := Unlink(cur, i), orig.nodes[i].next;
            && Next(cur, i) == n && NearestAfter(orig, i, n)
            && (r.fault <==> n.At? && cur.nodes[n.i].freed)
            && |r.nodes| == |cur.nodes| && Left(orig, r, n)
            && r.nodes[i].refs == cur.nodes[i].refs - 1 && r.nodes[i].freed == (cur.nodes[i].refs == 1)
            && forall k: nat :: k < |cur.nodes| && k != i ==>
                 r.nodes[k].refs == cur.nodes[k].refs && r.nodes[k].freed == cur.nodes[k].freed
  {
    hide Unlink;
    var n := orig.nodes[i].next;
    assert NearestAfter(orig, i, n);
    hide Shape;
    assert cur.nodes[i].next == n && cur.nodes[i].refs > 0;
    UnlinkFirst(cur, i);
    LeftBehind(orig, cur, i, Unlink(cur, i));
  }

  /** What the loop has done when it is through. */
  ghost predicate GivenBack(orig: Chain, cur: Chain, p: Ptr, r: Chain) {
    && |r.nodes| == |cur.nodes|
    && forall k: nat :: k < |cur.nodes| ==>
         && r.nodes[k].refs == (if ToGo(orig, p, k) then cur.nodes[k].refs - 1 else cur.nodes[k].refs)
         && r.nodes[k].freed == if ToGo(orig, p, k) then cur.nodes[k].refs == 1 else cur.nodes[k].freed
  }

  lemma GivenBackNext(orig: Chain, cur: Chain, i: nat, one: Chain, n: Ptr, r: Chain)
    requires Live(orig, i) && NearestAfter(orig, i, n) && GivenBack(orig, one, n, r)
    requires |one.nodes| == |cur.nodes| == |orig.nodes|
    requires one.nodes[i].refs == cur.nodes[i].refs - 1 && one.nodes[i].freed == (cur.nodes[i].refs == 1)
    requires forall k: nat :: k < |cur.nodes| && k != i ==>
               one.nodes[k].refs == cur.nodes[k].refs && one.nodes[k].freed == cur.nodes[k].freed
    ensures GivenBack(orig, cur, At(i), r)
  {
    hide NearestAfter, ToGo;
    NextToGo(orig, i, n);
  }

  /** The loop goes wrong exactly when it comes to a packet that was freed. Otherwise it gives back one
      reference of every packet. */
  lemma {:induction false} CleanupWalks(orig: Chain, cur: Chain, p: Ptr, fuel: nat)
    requires Shape(orig) && !cur.fault && Left(orig, cur, p) && (p.At? ==> |orig.nodes| - p.i <= fuel)
    ensures var r := CleanupFrom(cur, p, fuel);
            && (r.fault <==> exists k: nat :: ToGo(orig, p, k) && cur.nodes[k].freed)
            && (!r.fault ==> GivenBack(orig, cur, p, r))
    decreases fuel
  {
    hide Shape, Unlink, Left, ToGo, GivenBack, NearestAfter;
    if p.Null? {
      NothingToGo(orig, cur);
      return;
    }
    var i := p.i;
    IsToGo(orig, cur, i);
    if cur.nodes[i].freed {
      UnlinkKeepsFault(Fault(cur), i);
      CleanupKeepsFault(Unlink(Fault(cur), i), Next(cur, i), fuel - 1);
    } else {
      OneUnlinked(orig, cur, i);
      var one, n := Unlink(cur, i), orig.nodes[i].next;
      NextToGo(orig, i, n);
      if one.fault {
        CleanupKeepsFault(one, n, fuel - 1);
      } else {
        NextIsFurther(orig, i, n);
        CleanupWalks(orig, one, n, fuel - 1);
        if !CleanupFrom(one, n, fuel - 1).fault {
          GivenBackNext(orig, cur, i, one, n, CleanupFrom(one, n, fuel - 1));
        }
      }
    }
  }

  lemma NothingToGo(orig: Chain, cur: Chain)
    ensures forall k: nat :: !ToGo(orig, Null, k)
    ensures GivenBack(orig, cur, Null, cur)
  {}

  lemma IsToGo(orig: Chain, cur: Chain, i: nat)
    requires Left(orig, cur, At(i))
    ensures Live(orig, i) && |cur.nodes| == |orig.nodes| && ToGo(orig, At(i), i)
  {}

  lemma NextIsFurther(orig: Chain, i: nat, n: Ptr)
    requires NearestAfter(orig, i, n)
    ensures n.At? ==> i < n.i
  {}

  // ---------------------------------------------------------------- after the replay

  lemma {:induction false} AnsweredMember(ks: seq<Kind>, m: nat, k: nat)
    requires m <= |ks|
    ensures k in AnsweredQueries(ks, m) <==> Answered(ks, m, k)
  {
    if m >= 2 {
      AnsweredMember(ks, m - 1, k);
    }
  }

  /** Registered queries are live, with two references, and linked. */
  lemma RegisteredIsLinked(s: State, k: nat)
    requires Inv(s) && s.p.PDone?
    ensures k in s.chain.registered <==> k < |s.chain.nodes| && Live(s.chain, k) && s.chain.nodes[k].refs == 2
    ensures k < |s.chain.nodes| && Live(s.chain, k) && k !in s.chain.registered ==> s.chain.nodes[k].refs == 1
    ensures k in s.chain.registered ==> Reaches(s.chain, s.chain.first, k)
  {
    hide Shape, Locks, Awake, Log, Reaches;
    var ch := s.chain;
    AnsweredMember(Kinds(ch.nodes), |ch.nodes|, k);
    if k < |ch.nodes| {
      assert CountOk(ch.nodes[k], Answered(Kinds(ch.nodes), |ch.nodes|, k), k < Low(s));
      if Live(ch, k) {
        FirstNearest(ch);
        LiveIsReached(ch, ch.first, -1, k);
      }
    }
  }

  lemma FirstIsLeft(ch: Chain, cur: Chain)
    requires Shape(ch) && |cur.nodes| == |ch.nodes| && cur.first == ch.first
    requires forall k: nat :: Live(ch, k) ==>
               cur.nodes[k].next == ch.nodes[k].next && cur.nodes[k].prev == ch.nodes[k].prev && cur.nodes[k].refs > 0
    ensures Left(ch, cur, ch.first) && forall k: nat :: ToGo(ch, ch.first, k) <==> Live(ch, k)
  {
    if ch.first.At? {
      assert NearestBefore(ch, ch.first.i, ch.nodes[ch.first.i].prev);
    }
  }

  /** The end of any stream whose replay was joined, with any of its registered queries in the slow-query
      set. It goes wrong exactly when the stream is still open and one of them is there, because all of
      them are still linked in the list that is cleaned up next. When it does not go wrong, what stays
      allocated is exactly the registered queries that the set had dropped. */
  lemma TeardownExactly(s: State, slow: seq<nat>, open: bool)
    requires Reachable(s) && s.p.PDone? && Distinct(slow) && forall q :: q in slow ==> q in s.chain.registered
    ensures var r := Torn(s.chain, slow, open);
            && (r.fault <==> open && slow != [])
            && (forall q :: q in slow ==> Reaches(s.chain, s.chain.first, q))
            && (!r.fault ==>
                  && |r.nodes| == |s.chain.nodes|
                  && forall k: nat :: k < |r.nodes| ==>
                       (r.nodes[k].freed <==> !(k in s.chain.registered && k !in slow)))
  {
    hide Inv, Reaches, CleanupFrom, DeleteAll, Left, ToGo, Shape;
    ReachableInv(s);
    var ch := s.chain;
    assert Shape(ch) && !ch.fault by {
      ShapeOf(s);
    }
    forall k: nat
      ensures k in ch.registered <==> k < |ch.nodes| && Live(ch, k) && ch.nodes[k].refs == 2
      ensures k < |ch.nodes| && Live(ch, k) && k !in ch.registered ==> ch.nodes[k].refs == 1
      ensures k in ch.registered ==> Reaches(ch, ch.first, k)
    {
      RegisteredIsLinked(s, k);
    }
    if open {
      DeleteAllDoes(ch, slow);
      var del := DeleteAll(ch, slow);
      FirstIsLeft(ch, del);
      CleanupWalks(ch, del, ch.first, |ch.nodes|);
      assert slow != [] ==> slow[0] in slow && ToGo(ch, ch.first, slow[0]) && del.nodes[slow[0]].freed;
    } else {
      FirstIsLeft(ch, ch);
      CleanupWalks(ch, ch, ch.first, |ch.nodes|);
      DeleteAllDoes(Close(ch), slow);
    }
  }

  lemma ShapeOf(s: State)
    requires Inv(s)
    ensures Shape(s.chain) && !s.chain.fault
  {
    hide Shape, Counts, Pending, Log, Locks, Cursor, Awake;
  }

  /** The replay thread has returned before a query and its EOF are appended. */
  lemma GoAnswer() returns (sched: seq<Label>, s: State)
    ensures Run(INIT, sched) == Some(s) && Appended(sched) == [Query, Eof]
    ensures s.p.PIdle? && s.lock == Free && s.eofLock == Free && s.c == CDone(Null) && s.chain.registered == [0]
  {
    s := INIT;
    sched := [];
    assert Run(INIT, sched) == Some(s);
    hide Run, Appended;
    sched, s := Go(sched, s, Cons);
    sched, s := Go(sched, s, Cons);
    assert Appended(sched) == [] by {
      NothingAppended(sched);
    }
    sched, s := GoAppend(sched, s, Query);
    assert s.chain == Chain([Node(Query, Null, Null, 1, false)], At(0), At(0), At(0), [], false);
    sched, s := GoAppend(sched, s, Eof);
  }

  lemma NothingAppended(sched: seq<Label>)
    requires sched == [Cons, Cons]
    ensures Appended(sched) == []
  {
    assert sched[1..] == [Cons] && [Cons][1..] == [];
  }

  /** A run of a query and its EOF, joined with the query in the slow-query set and the stream open. */
  lemma OpenStreamFails() returns (sched: seq<Label>)
    ensures Safe(Appended(sched)) && Run(INIT, sched).Some? && Run(INIT, sched).value.p.PDone?
    ensures var s := Run(INIT, sched).value; s.chain.registered == [0] && Torn(s.chain, [0], true).fault
  {
    hide Torn, Run, Appended;
    var s;
    sched, s := GoAnswer();
    sched, s := GoEnd(sched, s);
    sched, s := Go(sched, s, Prod);
    var ks := [Query, Eof];
    assert Appended(sched) == ks;
    assert LastPending(ks, 1) == At(0);
    assert Safe(ks);
    assert Reachable(s);
    TeardownExactly(s, [0], true);
  }
}
