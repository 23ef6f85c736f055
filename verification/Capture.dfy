/** The capture path with `do_run` unset, on the heap: packets with reference counts in doubly
    linked lists, one list per stream, and the slow-query set shared by all streams. */
module Capture {
  import opened Wrappers
  import opened Reassembly
  import opened Conversation
  import TopN

  /** `Perf_stats` */
  class PerfStats {
    var memInUse: int
    var alloced: nat
    var freed: nat

    constructor ()
      ensures memInUse == 0 && alloced == 0 && freed == 0
    {
      memInUse, alloced, freed := 0, 0, 0;
    }
  }

  /** `Mysql_packet`. `data` holds the bytes received so far, so its length is `cur_len`;
      `freed` is set when the packet's memory has been given back. */
  class Packet {
    const inbound: bool
    const ts: int
    const len: nat
    var data: seq<byte>
    var next: Packet?
    var prev: Packet?
    var refCount: nat
    var execTime: int
    var freed: bool

    /** The constructor and `init`. */
    constructor (ts: int, len: nat, inbound: bool, stats: PerfStats)
      modifies stats
      ensures this.ts == ts && this.len == len && this.inbound == inbound && data == []
      ensures next == null && prev == null && refCount == 0 && !freed
      ensures stats.memInUse == old(stats.memInUse) + len
      ensures stats.alloced == old(stats.alloced) + 1 && stats.freed == old(stats.freed)
    {
      this.ts, this.len, this.inbound, data := ts, len, inbound, [];
      next, prev, refCount, freed, execTime := null, null, 0, false, 0;
      new;
      stats.memInUse := stats.memInUse + len;
      stats.alloced := stats.alloced + 1;
    }

    predicate IsComplete()
      reads this
    {
      |data| == len
    }

    function Value(): Pkt
      reads this`data
    {
      Pkt(inbound, data, ts)
    }

    /** Takes as many bytes as still fit and says how many it took. */
    method Append(bytes: seq<byte>) returns (used: nat)
      requires |data| <= len
      modifies this`data
      ensures used == if |old(data)| + |bytes| > len then len - |old(data)| else |bytes|
      ensures data == old(data) + bytes[..used]
    {
      used := |bytes|;
      if |data| + used > len {
        used := len - |data|;
      }
      data := data + bytes[..used];
    }

    method MarkRef()
      requires refCount <= 2
      modifies this`refCount
      ensures refCount == old(refCount) + 1
    {
      refCount := refCount + 1;
    }

    /** `unmark_ref` with the `cleanup` and `delete` that follow when the count reaches zero. */
    method UnmarkRef(stats: PerfStats)
      requires refCount > 0 && !freed
      modifies this`refCount, this`freed, stats`memInUse, stats`freed
      ensures refCount == old(refCount) - 1
      ensures freed <==> refCount == 0
      ensures stats.memInUse == old(stats.memInUse) - if freed then len else 0
      ensures stats.freed == old(stats.freed) + if freed then 1 else 0
    {
      refCount := refCount - 1;
      if refCount == 0 {
        freed := true;
        stats.memInUse := stats.memInUse - len;
        stats.freed := stats.freed + 1;
      }
    }
  }

  /** Packet `p` taken out of a list. */
  ghost function Without(ps: seq<Packet>, p: Packet): (r: seq<Packet>)
    ensures forall x :: x in r ==> x in ps && x != p
    ensures forall x :: x in ps && x != p ==> x in r
    ensures p !in ps ==> r == ps
  {
    if ps == [] then []
    else if ps[0] == p then Without(ps[1..], p)
    else [ps[0]] + Without(ps[1..], p)
  }

  ghost function Elems(ps: seq<Packet>): set<Packet> {
    set p | p in ps
  }

  /** The next packet of a list without duplicates is not among the ones before. */
  lemma ElemsNext(ps: seq<Packet>, k: nat)
    requires k < |ps| && Distinct(ps)
    ensures Elems(ps[..k + 1]) == Elems(ps[..k]) + {ps[k]} && ps[k] !in Elems(ps[..k])
    ensures ps[k] in Elems(ps) && Elems(ps[..0]) == {} && ps[..|ps|] == ps
  {
  }

  lemma InElems(ps: seq<Packet>, p: Packet)
    ensures p in Elems(ps) <==> p in ps
  {
  }

  lemma ElemsFrom(ps: seq<Packet>, i: nat)
    requires i < |ps| && Distinct(ps)
    ensures Elems(ps[i..]) == {ps[i]} + Elems(ps[i + 1..]) && ps[i] !in Elems(ps[i + 1..])
    ensures ps[i] in Elems(ps)
  {
    assert ps[i..] == [ps[i]] + ps[i + 1..];
  }

  lemma NoElems()
    ensures Elems([]) == {}
  {
  }

  lemma ElemsSnoc(ps: seq<Packet>, p: Packet)
    ensures Elems(ps + [p]) == Elems(ps) + {p}
  {
  }

  lemma ElemsWithout(ps: seq<Packet>, p: Packet)
    ensures Elems(Without(ps, p)) == Elems(ps) - {p}
  {
  }

  lemma {:induction false} WithoutTwice(ps: seq<Packet>, p: Packet)
    ensures Without(Without(ps, p), p) == Without(ps, p) && p !in Without(ps, p)
  {
  }

  lemma ElemsOfRest(ps: seq<Packet>, qs: seq<Packet>, k: nat)
    requires k <= |qs|
    ensures Elems(ps + qs[k..]) <= Elems(ps + qs)
    ensures k < |qs| ==> qs[k] in Elems(ps + qs)
  {
    assert k < |qs| ==> (ps + qs)[|ps| + k] == qs[k];
  }

  ghost predicate Distinct(ps: seq<Packet>) {
    forall i, j :: 0 <= i < j < |ps| ==> ps[i] != ps[j]
  }

  lemma SplitElems(ps: seq<Packet>, k: nat)
    requires Distinct(ps) && k < |ps|
    ensures Elems(ps) == Elems(ps[..k]) + {ps[k]} + Elems(ps[k + 1..])
    ensures Elems(ps[..k]) !! Elems(ps[k + 1..])
    ensures ps[k] !in Elems(ps[..k]) && ps[k] !in Elems(ps[k + 1..])
  {
    assert ps == ps[..k] + [ps[k]] + ps[k + 1..];
  }

  lemma DistinctTail(ps: seq<Packet>, qs: seq<Packet>)
    requires Distinct(ps + qs)
    ensures Distinct(qs)
  {
    assert forall i :: 0 <= i < |qs| ==> qs[i] == (ps + qs)[|ps| + i];
  }

  lemma Cut(ps: seq<Packet>, k: nat)
    requires 0 < k < |ps|
    ensures [ps[0]] + (ps[1..][..k - 1] + ps[1..][k..]) == ps[..k] + ps[k + 1..]
  {
  }

  lemma {:induction false} WithoutAt(ps: seq<Packet>, k: nat)
    requires k < |ps| && Distinct(ps)
    ensures Without(ps, ps[k]) == ps[..k] + ps[k + 1..]
  {
    var rest := ps[1..];
    assert ps == [ps[0]] + rest;
    DistinctTail([ps[0]], rest);
    if k == 0 {
      assert ps[0] !in rest;
    } else {
      WithoutAt(rest, k - 1);
      Cut(ps, k);
      assert rest[k - 1] == ps[k] != ps[0];
    }
  }

  /** The packet at position `i`, NULL outside the list. */
  ghost function At(ps: seq<Packet>, i: int): Packet? {
    if 0 <= i < |ps| then ps[i] else null
  }

  /** `Mysql_stream`. The ghost fields say which packets are on the list, oldest first, and how
      far the byte stream has been cut (`asm`). */
  class Stream {
    const sm: Manager
    var first: Packet?
    var last: Packet?
    var lastQuery: Packet?
    var pktHdr: seq<byte>
    var curPktHdrLen: nat
    var recorded: seq<Pkt>
    ghost var pkts: seq<Packet>
    ghost var asm: Asm

    constructor (sm: Manager, hdr: seq<byte>)
      requires |hdr| == 4
      ensures this.sm == sm && pkts == [] && asm == Start(hdr) && recorded == []
      ensures first == null && last == null && lastQuery == null && pktHdr == hdr && curPktHdrLen == 0
    {
      this.sm := sm;
      first, last, lastQuery, pktHdr, curPktHdrLen, recorded := null, null, null, hdr, 0, [];
      pkts, asm := [], Start(hdr);
    }

    /** The list is linked through exactly `pkts`, in both directions. */
    ghost predicate Linked()
      reads this`first, this`last, this`pkts, pkts`next, pkts`prev
    {
      && Distinct(pkts)
      && first == At(pkts, 0)
      && last == At(pkts, |pkts| - 1)
      && (forall i {:trigger pkts[i].next} :: 0 <= i < |pkts| ==> pkts[i].next == At(pkts, i + 1))
      && (forall i {:trigger pkts[i].prev} :: 0 <= i < |pkts| ==> pkts[i].prev == At(pkts, i - 1))
    }

    /** Packet `k` of `ps` bypassed in both directions. */
    ghost predicate Bypassed(ps: seq<Packet>, k: nat)
      reads this`first, this`last, ps`next, ps`prev
    {
      && k < |ps|
      && first == (if k == 0 then At(ps, 1) else At(ps, 0))
      && last == (if k == |ps| - 1 then At(ps, k - 1) else At(ps, |ps| - 1))
      && (forall i {:trigger ps[i].next} :: 0 <= i < |ps| && i != k ==>
            ps[i].next == if i + 1 == k then At(ps, k + 1) else At(ps, i + 1))
      && (forall i {:trigger ps[i].prev} :: 0 <= i < |ps| && i != k ==>
            ps[i].prev == if i == k + 1 then At(ps, k - 1) else At(ps, i - 1))
    }

    lemma IsDistinct()
      requires Linked()
      ensures Distinct(pkts)
    {
    }

    lemma BypassedIsLinked(ps: seq<Packet>, k: nat)
      requires Bypassed(ps, k) && Distinct(ps) && pkts == ps[..k] + ps[k + 1..]
      ensures Linked()
    {
      forall i | 0 <= i < |pkts| ensures pkts[i].next == At(pkts, i + 1) {
        assert pkts[i] == if i < k then ps[i] else ps[i + 1];
      }
      forall i | 0 <= i < |pkts| ensures pkts[i].prev == At(pkts, i - 1) {
        assert pkts[i] == if i < k then ps[i] else ps[i + 1];
      }
    }

    /** The pointer part of `unlink_pkt`. A packet that is on no list has no neighbours and
        is neither `first` nor `last`. */
    method Bypass(pkt: Packet, ghost k: nat, ghost foot: set<Packet>)
      requires Linked() && k <= |pkts| && Elems(pkts) <= foot
      requires if k < |pkts| then pkts[k] == pkt else pkt !in pkts && pkt.next == null && pkt.prev == null
      modifies this`first, this`last, foot`next, foot`prev, pkt`next, pkt`prev
      ensures pkt.next == null && pkt.prev == null
      ensures if k < |pkts| then Bypassed(pkts, k) else Linked()
      ensures forall p :: p in foot && p !in pkts && p != pkt ==> p.next == old(p.next) && p.prev == old(p.prev)
    {
      assert k < |pkts| ==> pkts[k].next == At(pkts, k + 1) && pkts[k].prev == At(pkts, k - 1);
      if pkt.prev != null {
        pkt.prev.next := pkt.next;
      }
      if pkt.next != null {
        pkt.next.prev := pkt.prev;
      }
      if pkt == first {
        first := first.next;
      }
      if pkt == last {
        last := last.prev;
      }
      pkt.next, pkt.prev := null, null;
    }

    /** The list part of `unlink_pkt`, for a packet on the list or on no list at all. */
    method Detach(pkt: Packet, ghost foot: set<Packet>)
      requires Linked() && Elems(pkts) <= foot
      requires pkt !in pkts ==> pkt.next == null && pkt.prev == null
      modifies this`first, this`last, this`pkts, foot`next, foot`prev, pkt`next, pkt`prev
      ensures Linked() && pkts == Without(old(pkts), pkt)
      ensures pkt.next == null && pkt.prev == null
      ensures forall p :: p in foot && p !in old(pkts) && p != pkt ==> p.next == old(p.next) && p.prev == old(p.prev)
    {
      hide Linked, Bypassed, Distinct, Without;
      ghost var k := |pkts|;
      IsDistinct();
      if pkt in pkts {
        k :| 0 <= k < |pkts| && pkts[k] == pkt;
        WithoutAt(pkts, k);
      }
      Bypass(pkt, k, foot);
      if k < |pkts| {
        ghost var ps := pkts;
        pkts := ps[..k] + ps[k + 1..];
        BypassedIsLinked(ps, k);
      }
    }

    /** `unlink_pkt`. The packet need not be on this list: eviction from the slow-query set goes
        through whatever stream is at hand, and a query that evicts itself is unlinked twice. */
    method UnlinkPkt(pkt: Packet, ghost foot: set<Packet>)
      requires Linked() && pkt.refCount > 0 && !pkt.freed && Elems(pkts) <= foot
      requires pkt !in pkts ==> pkt.next == null && pkt.prev == null
      requires sm.Accounts() && pkt in sm.live
      modifies this`first, this`last, this`pkts, foot`next, foot`prev
      modifies pkt`next, pkt`prev, pkt`refCount, pkt`freed, sm.stats`memInUse, sm.stats`freed, sm`live
      ensures Linked() && pkts == Without(old(pkts), pkt)
      ensures pkt.next == null && pkt.prev == null
      ensures pkt.refCount == old(pkt.refCount) - 1
      ensures pkt.freed <==> pkt.refCount == 0
      ensures sm.Accounts() && sm.live == old(sm.live) - if pkt.freed then {pkt} else {}
      ensures forall p :: p in foot && p !in old(pkts) && p != pkt ==> p.next == old(p.next) && p.prev == old(p.prev)
    {
      hide Linked, Without, Manager.Accounts;
      Detach(pkt, foot);
      sm.Release(pkt);
    }

    /** `consider_unlink_pkt` with `do_run` unset. */
    method ConsiderUnlinkPkt(pkt: Packet, ghost foot: set<Packet>)
      requires Linked() && pkt.refCount > 0 && !pkt.freed && Elems(pkts) <= foot
      requires pkt !in pkts ==> pkt.next == null && pkt.prev == null
      requires sm.Accounts() && pkt in sm.live
      modifies this`first, this`last, this`pkts, foot`next, foot`prev
      modifies pkt`next, pkt`prev, pkt`refCount, pkt`freed, sm.stats`memInUse, sm.stats`freed, sm`live
      ensures Linked() && pkts == Without(old(pkts), pkt)
      ensures pkt.next == null && pkt.prev == null
      ensures pkt.refCount == old(pkt.refCount) - 1
      ensures pkt.freed <==> pkt.refCount == 0
      ensures sm.Accounts() && sm.live == old(sm.live) - if pkt.freed then {pkt} else {}
      ensures forall p :: p in foot && p !in old(pkts) && p != pkt ==> p.next == old(p.next) && p.prev == old(p.prev)
    {
      UnlinkPkt(pkt, foot);
    }

    /** Packet `p` is complete, holds `v`, and is referenced by this list only. */
    static ghost predicate Settled(p: Packet, v: Pkt)
      reads p`data, p`refCount, p`freed
    {
      p.Value() == v && |p.data| == p.len > 0 && p.refCount == 1 && !p.freed
    }

    /** The packets `ps` are the packets of `log` at the positions `idx`. */
    static ghost predicate Holds(ps: seq<Packet>, idx: seq<nat>, log: seq<Pkt>)
      reads ps`data, ps`refCount, ps`freed
    {
      |ps| == |idx| && forall i :: 0 <= i < |ps| ==> idx[i] < |log| && Settled(ps[i], log[idx[i]])
    }

    static ghost function Values(log: seq<Pkt>, idx: seq<nat>): (r: seq<Pkt>)
      requires forall k :: 0 <= k < |idx| ==> idx[k] < |log|
      ensures |r| == |idx|
    {
      seq(|idx|, k requires 0 <= k < |idx| => log[idx[k]])
    }

    static lemma DropOne(keep: seq<Packet>, swept: seq<Packet>, k: nat)
      requires k < |swept|
      ensures var all := keep + swept[k..];
              all[|keep|] == swept[k] && all[..|keep|] + all[|keep| + 1..] == keep + swept[k + 1..]
    {
    }

    /** Unlinking packet `k` of the packets `swept` that end the list, and stepping to the next. */
    method DropNext(p: Packet, ghost keep: seq<Packet>, ghost swept: seq<Packet>, ghost k: nat, ghost foot: set<Packet>)
      returns (tmp: Packet?)
      requires Elems(pkts) <= foot && Linked() && k < |swept| && pkts == keep + swept[k..] && p == swept[k]
      requires p.refCount == 1 && !p.freed && sm.Accounts() && p in sm.live
      modifies this`first, this`last, this`pkts, foot`next, foot`prev
      modifies p`next, p`prev, p`refCount, p`freed, sm.stats`memInUse, sm.stats`freed, sm`live
      ensures Linked() && pkts == keep + swept[k + 1..] && tmp == At(pkts, |keep|)
      ensures p.freed && sm.Accounts() && sm.live == old(sm.live) - {p}
    {
      hide Linked, Manager.Accounts, Without;
      DropOne(keep, swept, k);
      NextInList(|keep|);
      IsDistinct();
      WithoutAt(pkts, |keep|);
      tmp := p.next;
      UnlinkPkt(p, foot);
    }

    lemma NextInList(k: nat)
      requires Linked() && k < |pkts|
      ensures pkts[k].next == At(pkts, k + 1)
    {
    }

    static lemma AtEnd(keep: seq<Packet>, rest: seq<Packet>)
      ensures At(keep + rest, |keep|) == if rest == [] then null else rest[0]
    {
    }

    static lemma NothingYet(log: seq<Pkt>, idx: seq<nat>, ps: seq<Packet>)
      requires forall i :: 0 <= i < |idx| ==> idx[i] < |log|
      ensures Inbound(log, idx, 0, |log|) == [] && Values(log, []) == []
      ensures Elems(ps[..0]) == {} && ps[..|ps|] == ps && ps[0..] == ps
    {
    }

    static lemma ValuesOneMore(log: seq<Pkt>, idx: seq<nat>, x: nat)
      requires x < |log| && forall i :: 0 <= i < |idx| ==> idx[i] < |log|
      ensures Values(log, idx + [x]) == Values(log, idx) + [log[x]]
    {
    }

    static lemma InboundOneMore(log: seq<Pkt>, idx: seq<nat>, k: nat, n: nat)
      requires k < |idx| && n <= |log| && forall i :: 0 <= i < |idx| ==> idx[i] < n
      ensures Values(log, Inbound(log, idx, k + 1, n)) ==
              Values(log, Inbound(log, idx, k, n)) + if log[idx[k]].inbound then [log[idx[k]]] else []
    {
      hide Values;
      var some := Inbound(log, idx, k, n);
      assert Inbound(log, idx, k + 1, n) == some + if log[idx[k]].inbound then [idx[k]] else [];
      if log[idx[k]].inbound {
        ValuesOneMore(log, some, idx[k]);
      } else {
        assert some + [] == some && Values(log, some) + [] == Values(log, some);
      }
    }

    /** The loop of the EOF branch: every packet from `start` on is recorded if it came from the
        client, and unlinked. */
    method Sweep(start: Packet?, ghost keep: seq<Packet>, ghost swept: seq<Packet>, ghost idx: seq<nat>,
                 ghost log: seq<Pkt>, ghost foot: set<Packet>)
      requires Elems(pkts) <= foot && Linked() && pkts == keep + swept && start == At(pkts, |keep|)
      requires Holds(swept, idx, log)
      requires sm.Accounts() && Elems(swept) <= sm.live
      modifies this`first, this`last, this`pkts, this`recorded, foot`next, foot`prev
      modifies Elems(swept)`refCount, Elems(swept)`freed
      modifies sm.stats`memInUse, sm.stats`freed, sm`live
      ensures Linked() && pkts == keep && sm.Accounts()
      ensures recorded == old(recorded) + Values(log, AllInbound(log, idx, |log|))
      ensures forall p :: p in swept ==> p.freed
      ensures sm.live == old(sm.live) - Elems(swept)
    {
      hide Linked, Manager.Accounts, Values, Inbound, At, Elems, Distinct;
      IsDistinct();
      DistinctTail(keep, swept);
      NothingYet(log, idx, swept);
      var p := start;
      ghost var k := 0;
      while p != null
        invariant k <= |swept| && Linked() && pkts == keep + swept[k..] && p == At(pkts, |keep|)
        invariant sm.Accounts() && sm.live == old(sm.live) - Elems(swept[..k])
        invariant Elems(pkts) <= foot
        invariant forall i :: 0 <= i < k ==> swept[i].freed
        invariant forall i :: k <= i < |swept| ==> idx[i] < |log| && Settled(swept[i], log[idx[i]])
        invariant recorded == old(recorded) + Values(log, Inbound(log, idx, k, |log|))
        decreases |swept| - k
      {
        AtEnd(keep, swept[k..]);
        assert p == swept[k] && Settled(p, log[idx[k]]);
        InboundOneMore(log, idx, k, |log|);
        ElemsNext(swept, k);
        ElemsOfRest(keep, swept, k);
        ElemsOfRest(keep, swept, k + 1);
        if p.inbound {
          recorded := recorded + [p.Value()];
        }
        p := DropNext(p, keep, swept, k, foot);
        k := k + 1;
      }
      AtEnd(keep, swept[k..]);
    }

    predicate IsQueryPacket(p: Packet)
      reads p`data
    {
      |p.data| > 0 && p.data[0] == 3 && p.inbound
    }

    predicate IsEofPacket(p: Packet)
      reads p`data
    {
      |p.data| > 0 && p.data[0] == 0xfe && !p.inbound
    }

    /** `consider_unlink_pkt(last_query)` after the registration. */
    method DropQuery(q: Packet, ghost foot: set<Packet>)
      requires Linked() && !q.freed && sm.SlowExcept(q) && Elems(sm.slow) - {q} !! Elems(pkts)
      requires |sm.times| > 0 && q.execTime == sm.times[|sm.times| - 1]
      requires |sm.registered| > 0 && q.Value() == sm.registered[|sm.registered| - 1]
      requires if q in sm.slow then q in pkts && q.refCount == 2
               else q !in pkts && q.refCount == 1 && q.next == null && q.prev == null
      requires sm.Accounts() && q in sm.live && Elems(pkts) + Elems(sm.slow) <= foot
      modifies this`first, this`last, this`pkts, foot`next, foot`prev
      modifies q`next, q`prev, q`refCount, q`freed, sm.stats`memInUse, sm.stats`freed, sm`live
      ensures Linked() && pkts == Without(old(pkts), q) && sm.Accounts() && sm.SlowValid()
      ensures sm.live == old(sm.live) - if q in sm.slow then {} else {q}
    {
      hide Linked, Without, Manager.Accounts, TopN.Slowest;
      forall x | x in sm.slow && x != q ensures x !in pkts && x in foot {
        assert x in Elems(sm.slow) - {q} && x !in Elems(pkts);
      }
      ConsiderUnlinkPkt(q, foot);
    }

    /** `register_query` followed by `consider_unlink_pkt(last_query)`: the query leaves the list,
        and stays allocated exactly when it is among the slowest. */
    method RegisterAndDrop(q: Packet, ghost foot: set<Packet>)
      requires Linked() && q in pkts && q.refCount == 1 && !q.freed
      requires sm.SlowValid() && Elems(sm.slow) !! Elems(pkts)
      requires sm.Accounts() && Elems(pkts) + Elems(sm.slow) <= sm.live * foot
      modifies sm`slow, sm`times, sm`registered, sm`ids, sm`live, sm.stats`memInUse, sm.stats`freed
      modifies this`first, this`last, this`pkts, foot`next, foot`prev
      modifies q`refCount, q`freed, Elems(sm.slow)`refCount, Elems(sm.slow)`freed
      ensures Linked() && pkts == Without(old(pkts), q) && sm.Accounts() && sm.SlowValid()
      ensures sm.times == old(sm.times) + [q.execTime] && sm.registered == old(sm.registered) + [q.Value()]
      ensures Elems(sm.slow) <= old(Elems(sm.slow)) + {q}
      ensures sm.live == old(sm.live) - (old(Elems(sm.slow)) + {q}) + Elems(sm.slow)
    {
      hide Linked, Without, Manager.Accounts, Manager.SlowExcept, Manager.SlowValid, Elems;
      InElems(pkts, q);
      sm.RegisterQuery(this, q, foot);
      InElems(sm.slow, q);
      ElemsWithout(old(pkts), q);
      WithoutTwice(old(pkts), q);
      DropQuery(q, foot);
    }

    /** The stream's list, `last_query` and record are those of fold `f`. */
    ghost predicate Matches(f: Fold, log: seq<Pkt>)
      requires FoldOk(f, |log|)
      reads this`pkts, this`lastQuery, this`recorded, pkts`data, pkts`refCount, pkts`freed
    {
      && Holds(pkts, f.list, log)
      && lastQuery == (if f.pending.None? then null else pkts[f.pending.value])
      && recorded == Values(log, f.recorded)
    }

    /** The stream as it is when its newest packet, the last of `log`, has just been completed. */
    ghost predicate Arrived(f: Fold, log: seq<Pkt>)
      requires |log| > 0 && FoldOk(f, |log| - 1)
      reads this`pkts, this`lastQuery, this`recorded, pkts`data, pkts`refCount, pkts`freed
    {
      && Holds(pkts, f.list + [|log| - 1], log)
      && lastQuery == (if f.pending.None? then null else pkts[f.pending.value])
      && recorded == Values(log, f.recorded)
    }

    static lemma HoldsLength(ps: seq<Packet>, idx: seq<nat>, log: seq<Pkt>)
      requires Holds(ps, idx, log)
      ensures |ps| == |idx|
    {
    }

    static lemma HoldsParts(ps: seq<Packet>, idx: seq<nat>, log: seq<Pkt>, k: nat)
      requires Holds(ps, idx, log) && k < |ps|
      ensures Holds(ps[..k], idx[..k], log) && Holds(ps[k + 1..], idx[k + 1..], log)
      ensures Settled(ps[k], log[idx[k]])
    {
    }

    /** The two assertions of the EOF branch hold, the EOF is recorded and the query timed. */
    method TimeQuery(q: Packet, ghost f: Fold, ghost log: seq<Pkt>)
      requires |log| > 0 && FoldOk(f, |log| - 1) && Linked() && Arrived(f, log)
      requires f.pending.Some? && lastQuery == q
      modifies this`recorded, q`execTime
      ensures recorded == old(recorded) + [log[|log| - 1]]
      ensures q.execTime == log[|log| - 1].ts - q.ts
    {
      assert pkts[|pkts| - 1].next == At(pkts, |pkts|);
      assert Settled(pkts[|pkts| - 1], log[|log| - 1]);
      assert pkts[f.pending.value].next == At(pkts, f.pending.value + 1);
      assert last.next == null;
      assert lastQuery.next != null;
      recorded := recorded + [last.Value()];
      q.execTime := last.ts - q.ts;
    }

    lemma PendingFacts(f: Fold, log: seq<Pkt>)
      requires |log| > 0 && FoldOk(f, |log| - 1) && Linked() && Arrived(f, log) && f.pending.Some?
      ensures var pos := f.pending.value; var idx := f.list + [|log| - 1];
              && pos + 1 < |pkts| == |idx| && lastQuery == pkts[pos]
              && pkts[pos].Value() == log[f.list[pos]] && pkts[pos].refCount == 1 && !pkts[pos].freed
              && pkts[pos].next == pkts[pos + 1]
              && Holds(pkts[..pos], idx[..pos], log) && Holds(pkts[pos + 1..], idx[pos + 1..], log)
              && (forall k :: 0 <= k < |f.list| ==> idx[k] == f.list[k])
    {
      HoldsParts(pkts, f.list + [|log| - 1], log, f.pending.value);
      NextInList(f.pending.value);
    }

    static lemma ValuesOfParts(log: seq<Pkt>, a: seq<nat>, x: nat, b: seq<nat>)
      requires x < |log| && (forall i :: 0 <= i < |a| ==> a[i] < |log|) && (forall i :: 0 <= i < |b| ==> b[i] < |log|)
      ensures Values(log, a + [x] + b) == Values(log, a) + [log[x]] + Values(log, b)
    {
    }

    /** The EOF branch of `handle_packet_complete` up to its loop. */
    method TakeQuery(ghost f: Fold, ghost log: seq<Pkt>, ghost foot: set<Packet>) returns (nextP: Packet?)
      requires |log| > 0 && FoldOk(f, |log| - 1) && Linked() && Arrived(f, log) && f.pending.Some?
      requires sm.SlowValid() && Elems(sm.slow) !! Elems(pkts)
      requires sm.Accounts() && Elems(pkts) + Elems(sm.slow) <= sm.live * foot
      modifies sm`slow, sm`times, sm`registered, sm`ids, sm`live, sm.stats`memInUse, sm.stats`freed
      modifies this`first, this`last, this`pkts, this`recorded
      modifies foot`next, foot`prev, foot`refCount, foot`freed, foot`execTime
      ensures Linked() && sm.Accounts() && sm.SlowValid()
      ensures var pos := f.pending.value; var idx := f.list + [|log| - 1];
              var keep := old(pkts)[..pos]; var swept := old(pkts)[pos + 1..];
              && pos + 1 < |old(pkts)| == |idx| && pkts == keep + swept && nextP == At(pkts, pos)
              && Holds(keep, idx[..pos], log) && Holds(swept, idx[pos + 1..], log)
              && Elems(sm.slow) <= old(Elems(sm.slow)) + {old(pkts)[pos]}
              && sm.live == old(sm.live) - (old(Elems(sm.slow)) + {old(pkts)[pos]}) + Elems(sm.slow)
              && old(pkts)[pos] in old(Elems(pkts))
              && old(pkts)[pos] !in Elems(keep) && old(pkts)[pos] !in Elems(swept)
      ensures recorded == old(recorded) + [log[|log| - 1]]
      ensures var q := log[f.list[f.pending.value]];
              && sm.times == old(sm.times) + [log[|log| - 1].ts - q.ts]
              && sm.registered == old(sm.registered) + [q]
    {
      hide Linked, Manager.SlowValid, Manager.Accounts, Distinct, Without, Holds, Values, At;
      PendingFacts(f, log);
      IsDistinct();
      var q := lastQuery;
      ghost var pos := f.pending.value;
      SplitElems(pkts, pos);
      WithoutAt(pkts, pos);
      AtEnd(pkts[..pos], pkts[pos + 1..]);
      TimeQuery(q, f, log);
      nextP := q.next;
      RegisterAndDrop(q, foot);
    }

    static lemma CompleteAnswer(f: Fold, log: seq<Pkt>)
      requires |log| > 0 && FoldOk(f, |log| - 1) && f.pending.Some? && IsEof(log[|log| - 1])
      ensures var idx := f.list + [|log| - 1]; var pos := f.pending.value; var r := Complete(f, log, |log| - 1);
              && r.list == idx[..pos] && r.pending.None?
              && (forall k :: pos + 1 <= k < |idx| ==> idx[k] < |log|)
              && Values(log, r.recorded) == Values(log, f.recorded) + [log[|log| - 1]]
                                            + Values(log, AllInbound(log, idx[pos + 1..], |log|))
    {
      hide AllInbound, Values;
      var rest := (f.list + [|log| - 1])[f.pending.value + 1..];
      ValuesOfParts(log, f.recorded, |log| - 1, AllInbound(log, rest, |log|));
    }

    /** The EOF branch of `handle_packet_complete`. */
    method AnswerQuery(ghost f: Fold, ghost log: seq<Pkt>, ghost foot: set<Packet>)
      requires |log| > 0 && FoldOk(f, |log| - 1) && Linked() && Arrived(f, log)
      requires f.pending.Some? && IsEof(log[|log| - 1])
      requires sm.SlowValid() && Elems(sm.slow) !! Elems(pkts)
      requires sm.Accounts() && Elems(pkts) + Elems(sm.slow) <= sm.live * foot
      modifies sm`slow, sm`times, sm`registered, sm`ids, sm`live, sm.stats`memInUse, sm.stats`freed
      modifies this`first, this`last, this`pkts, this`lastQuery, this`recorded
      modifies foot`next, foot`prev, foot`refCount, foot`freed, foot`execTime
      ensures Linked() && Matches(Complete(f, log, |log| - 1), log)
      ensures sm.Accounts() && sm.SlowValid() && Elems(sm.slow) !! Elems(pkts)
      ensures var q := log[f.list[f.pending.value]];
              && sm.times == old(sm.times) + [log[|log| - 1].ts - q.ts]
              && sm.registered == old(sm.registered) + [q]
      ensures Elems(pkts) + Elems(sm.slow) <= old(Elems(pkts) + Elems(sm.slow))
      ensures sm.live == old(sm.live - Elems(pkts) - Elems(sm.slow)) + Elems(pkts) + Elems(sm.slow)
    {
      hide Linked, Manager.SlowValid, Manager.Accounts, Distinct, Without, Holds, Values, At, AllInbound, Complete;
      IsDistinct();
      CompleteAnswer(f, log);
      ghost var all := pkts;
      ghost var pos := f.pending.value;
      ghost var idx := f.list + [|log| - 1];
      var nextP := TakeQuery(f, log, foot);
      SplitElems(all, pos);
      assert Elems(pkts) == Elems(all[..pos]) + Elems(all[pos + 1..]);
      Sweep(nextP, all[..pos], all[pos + 1..], idx[pos + 1..], log, Elems(pkts));
      lastQuery := null;
    }

    /** What completing a packet that answers nothing does. */
    static lemma CompleteOther(f: Fold, log: seq<Pkt>)
      requires |log| > 0 && FoldOk(f, |log| - 1)
      requires IsQuery(log[|log| - 1]) || f.pending.None? || !IsEof(log[|log| - 1])
      ensures var p := log[|log| - 1];
              Complete(f, log, |log| - 1) ==
                if IsQuery(p) then
                  f.(list := f.list + [|log| - 1], pending := Some(|f.list|), recorded := f.recorded + [|log| - 1])
                else if !p.inbound && !IsEof(p) then f
                else f.(list := f.list + [|log| - 1])
      ensures AnswerTimes(log, []) == [] && AnsweredPkts(log, []) == []
    {
    }

    /** What completing an answering EOF registers. */
    static lemma CompleteRegisters(f: Fold, log: seq<Pkt>)
      requires |log| > 0 && FoldOk(f, |log| - 1) && f.pending.Some? && IsEof(log[|log| - 1])
      ensures var added := Complete(f, log, |log| - 1).answers[|f.answers|..];
              var q := log[f.list[f.pending.value]];
              && AnswerTimes(log, added) == [log[|log| - 1].ts - q.ts]
              && AnsweredPkts(log, added) == [q]
    {
      hide AllInbound;
      var added := Complete(f, log, |log| - 1).answers[|f.answers|..];
      assert added == [Answer(f.list[f.pending.value], |log| - 1)];
    }

    /** The query branch of `handle_packet_complete`. */
    method NoteQuery(ghost f: Fold, ghost log: seq<Pkt>)
      requires |log| > 0 && FoldOk(f, |log| - 1) && Linked() && Arrived(f, log) && IsQuery(log[|log| - 1])
      modifies this`lastQuery, this`recorded
      ensures Matches(Complete(f, log, |log| - 1), log)
    {
      hide Linked, Complete;
      CompleteOther(f, log);
      LastArrived(f, log);
      ValuesOneMore(log, f.recorded, |log| - 1);
      lastQuery := last;
      recorded := recorded + [last.Value()];
    }

    /** The last branch of `handle_packet_complete`: a server packet that is no EOF. */
    method DropServerPacket(ghost f: Fold, ghost log: seq<Pkt>)
      requires |log| > 0 && FoldOk(f, |log| - 1) && Linked() && Arrived(f, log)
      requires !log[|log| - 1].inbound && !IsEof(log[|log| - 1])
      requires sm.SlowValid() && Elems(sm.slow) !! Elems(pkts) && sm.Accounts() && Elems(pkts) <= sm.live
      modifies this`first, this`last, this`pkts, Elems(pkts)`next, Elems(pkts)`prev
      modifies Elems(pkts)`refCount, Elems(pkts)`freed, sm.stats`memInUse, sm.stats`freed, sm`live
      ensures Linked() && Matches(Complete(f, log, |log| - 1), log)
      ensures sm.Accounts() && sm.SlowValid() && Elems(pkts) <= old(Elems(pkts))
      ensures sm.live == old(sm.live - Elems(pkts)) + Elems(pkts)
    {
      hide Linked, Manager.SlowValid, Manager.Accounts, Distinct, Without, Complete;
      CompleteOther(f, log);
      LastArrived(f, log);
      IsDistinct();
      ghost var all := pkts;
      ghost var n := |f.list|;
      HoldsParts(all, f.list + [|log| - 1], log, n);
      SplitElems(all, n);
      WithoutAt(all, n);
      assert (f.list + [|log| - 1])[..n] == f.list && all[..n] + all[n + 1..] == all[..n];
      assert all[n + 1..] == [];
      UnlinkPkt(last, Elems(pkts));
    }

    /** `handle_packet_complete` with `do_run` unset. */
    method HandlePacketComplete(ghost f: Fold, ghost log: seq<Pkt>, ghost foot: set<Packet>)
      requires |log| > 0 && FoldOk(f, |log| - 1) && Linked() && Arrived(f, log)
      requires sm.SlowValid() && Elems(sm.slow) !! Elems(pkts)
      requires sm.Accounts() && Elems(pkts) + Elems(sm.slow) <= sm.live * foot
      modifies sm`slow, sm`times, sm`registered, sm`ids, sm`live, sm.stats`memInUse, sm.stats`freed
      modifies this`first, this`last, this`pkts, this`lastQuery, this`recorded
      modifies foot`next, foot`prev, foot`refCount, foot`freed, foot`execTime
      ensures Linked() && Matches(Complete(f, log, |log| - 1), log)
      ensures sm.Accounts() && sm.SlowValid() && Elems(sm.slow) !! Elems(pkts)
      ensures var added := Complete(f, log, |log| - 1).answers[|f.answers|..];
              && sm.times == old(sm.times) + AnswerTimes(log, added)
              && sm.registered == old(sm.registered) + AnsweredPkts(log, added)
      ensures Elems(pkts) + Elems(sm.slow) <= old(Elems(pkts) + Elems(sm.slow))
      ensures sm.live == old(sm.live - Elems(pkts) - Elems(sm.slow)) + Elems(pkts) + Elems(sm.slow)
    {
      hide Linked, Manager.SlowValid, Manager.Accounts, Distinct, Without, Complete, Matches, Holds, Elems;
      LastArrived(f, log);
      var l := last;
      if IsQueryPacket(l) {
        CompleteOther(f, log);
        NoteQuery(f, log);
        return;
      }
      if lastQuery != null && IsEofPacket(l) {
        CompleteRegisters(f, log);
        AnswerQuery(f, log, foot);
        return;
      }
      CompleteOther(f, log);
      if !l.inbound && !IsEofPacket(l) {
        DropServerPacket(f, log);
      } else {
        OtherStays(f, log);
      }
    }

    /** A client packet, or an EOF that answers nothing, stays on the list as it is. */
    lemma OtherStays(f: Fold, log: seq<Pkt>)
      requires |log| > 0 && FoldOk(f, |log| - 1) && Arrived(f, log)
      requires var p := log[|log| - 1]; !IsQuery(p) && (IsEof(p) ==> f.pending.None?) && (p.inbound || IsEof(p))
      ensures Matches(Complete(f, log, |log| - 1), log)
    {
      hide Complete;
      CompleteOther(f, log);
    }

    lemma LastArrived(f: Fold, log: seq<Pkt>)
      requires |log| > 0 && FoldOk(f, |log| - 1) && Linked() && Arrived(f, log)
      ensures |pkts| == |f.list| + 1 && last == pkts[|f.list|] && Settled(pkts[|f.list|], log[|log| - 1])
    {
    }

    // -------------------------------------------------------------- the byte stream

    /** `p` is the packet being filled. */
    static ghost predicate Filling(p: Packet, o: Open)
      reads p`data, p`refCount, p`freed
    {
      && p.inbound == o.inbound && p.ts == o.ts && p.len == o.len && p.data == o.got
      && |p.data| < p.len && p.refCount == 1 && !p.freed
    }

    /** The list and the header buffer are where `asm` says: the packets that the fold over the
        completed packets keeps, then the packet being filled, if any. */
    ghost predicate Valid()
      reads this, pkts
    {
      && AsmOk(asm) && !asm.zero && Linked()
      && pktHdr == asm.hdr && curPktHdrLen == asm.hlen
      && var f := After(asm.log, |asm.log|);
         if asm.open.None? then Matches(f, asm.log)
         else MatchesOpen(f, asm.log, asm.open.value)
    }

    /** The slow-query set is in order, shares no packet with this list, and all are allocated. */
    ghost predicate SharesOk()
      reads this`pkts, sm`slow, sm`times, sm`registered, sm`ids, sm`live, sm.slow, sm.stats
    {
      && sm.SlowValid() && Elems(sm.slow) !! Elems(pkts)
      && sm.Accounts() && Elems(pkts) + Elems(sm.slow) <= sm.live
    }

    /** The linking part of `create_new_packet`. */
    method LinkNew(pkt: Packet)
      requires Linked() && pkt !in pkts && pkt.next == null && pkt.prev == null
      modifies this`first, this`last, this`pkts, Elems(pkts)`next, pkt`prev
      ensures Linked() && pkts == old(pkts) + [pkt]
    {
      if first == null {
        first := pkt;
        last := pkt;
      } else {
        assert last == pkts[|pkts| - 1] && last in Elems(pkts);
        last.next := pkt;
        pkt.prev := last;
        last := pkt;
      }
      ghost var all := pkts;
      pkts := pkts + [pkt];
      assert forall i :: 0 <= i < |all| ==> all[i].next == if i + 1 < |all| then all[i + 1] else pkt;
    }

    /** The header part of `create_new_packet`: the bytes always go to the start of `pkt_hdr`. */
    method TakeHeader(seg: Segment, pos: nat) returns (used: nat)
      requires AsmOk(asm) && !asm.zero && asm.open.None? && asm.hpos == 0 && pos < |seg.bytes|
      requires pktHdr == asm.hdr && curPktHdrLen == asm.hlen
      modifies this`pktHdr, this`curPktHdrLen
      ensures 0 < used && pos + used <= |seg.bytes| && curPktHdrLen == old(curPktHdrLen) + used <= 4
      ensures curPktHdrLen < 4 ==> pos + used == |seg.bytes|
      ensures |pktHdr| == 4
      ensures var chunk := Items(seg)[pos..pos + used];
              Feed(asm, chunk) ==
                if curPktHdrLen < 4 then asm.(hdr := pktHdr, hlen := curPktHdrLen, hpos := used)
                else OpenPacket(asm, pktHdr, Item(seg.bytes[pos + used - 1], seg.inbound, seg.ts))
    {
      var left := 4 - curPktHdrLen;
      used := if left <= |seg.bytes| - pos then left else |seg.bytes| - pos;
      pktHdr := Store(pktHdr, 0, seg.bytes[pos..pos + used]);
      curPktHdrLen := curPktHdrLen + used;
      ghost var chunk := Items(seg)[pos..pos + used];
      assert Bytes(chunk) == seg.bytes[pos..pos + used];
      FeedHeader(asm, chunk);
    }

    /** The list with a packet being filled at its end. */
    ghost predicate MatchesOpen(f: Fold, log: seq<Pkt>, o: Open)
      requires FoldOk(f, |log|)
      reads this`pkts, this`lastQuery, this`recorded, pkts`data, pkts`refCount, pkts`freed
    {
      && |pkts| == |f.list| + 1
      && Holds(pkts[..|f.list|], f.list, log) && Filling(pkts[|f.list|], o)
      && lastQuery == (if f.pending.None? then null else pkts[f.pending.value])
      && recorded == Values(log, f.recorded)
    }

    /** Linking a packet that is not among the slowest leaves what is shared alone. */
    method LinkApart(pkt: Packet)
      requires Linked() && pkt !in pkts && pkt.next == null && pkt.prev == null
      requires SharesOk() && pkt !in Elems(sm.slow) && pkt in sm.live
      modifies this`first, this`last, this`pkts, Elems(pkts)`next, pkt`prev
      ensures Linked() && pkts == old(pkts) + [pkt] && SharesOk()
    {
      hide Linked, Manager.SlowValid, Manager.Accounts;
      LinkNew(pkt);
    }

    /** A new packet linked at the end keeps what is shared in order. */
    method AllocateAndLink(ts: int, len: nat, inbound: bool) returns (pkt: Packet)
      requires Linked() && SharesOk()
      modifies this`first, this`last, this`pkts, Elems(pkts)`next, sm`live, sm.stats
      ensures Linked() && SharesOk() && pkts == old(pkts) + [pkt] && fresh(pkt)
      ensures pkt.ts == ts && pkt.len == len && pkt.inbound == inbound && pkt.data == []
      ensures pkt.refCount == 1 && !pkt.freed && sm.live == old(sm.live) + {pkt}
    {
      hide Linked, Manager.SlowValid, Manager.Accounts, Elems;
      pkt := sm.NewPacket(ts, len, inbound);
      InElems(pkts, pkt);
      LinkApart(pkt);
    }

    /** The end of `create_new_packet`: a new packet with one reference joins the list. */
    method AddPacket(ts: int, len: nat, inbound: bool, ghost f: Fold, ghost log: seq<Pkt>)
      requires FoldOk(f, |log|) && Linked() && Matches(f, log) && SharesOk() && len > 0
      modifies this`first, this`last, this`pkts, Elems(pkts)`next, sm`live, sm.stats
      ensures Linked() && MatchesOpen(f, log, Open(inbound, ts, len, [])) && SharesOk()
      ensures forall p :: p in Elems(pkts) ==> p in old(Elems(pkts)) || fresh(p)
      ensures old(Elems(pkts)) <= Elems(pkts) && sm.live == old(sm.live) + (Elems(pkts) - old(Elems(pkts)))
    {
      hide Linked, SharesOk, Values, Holds;
      HoldsLength(pkts, f.list, log);
      var pkt := AllocateAndLink(ts, len, inbound);
      ElemsSnoc(old(pkts), pkt);
      assert pkts[..|f.list|] == old(pkts);
    }

    /** `create_new_packet`. It fails when the segment ends inside the header. */
    method CreateNewPacket(seg: Segment, pos: nat) returns (incomplete: bool, used: nat)
      requires Valid() && SharesOk() && asm.open.None? && asm.hpos == 0 && pos < |seg.bytes|
      requires !Feed(asm, Items(seg)[pos..]).zero
      modifies this`first, this`last, this`pkts, this`pktHdr, this`curPktHdrLen, this`asm
      modifies Elems(pkts)`next, sm`live, sm.stats
      ensures Valid() && SharesOk()
      ensures 0 < used && pos + used <= |seg.bytes| && asm == Feed(old(asm), Items(seg)[pos..pos + used])
      ensures asm.log == old(asm.log) && (incomplete <==> asm.open.None?)
      ensures if incomplete then pos + used == |seg.bytes| else asm.hpos == 0
      ensures forall p :: p in Elems(pkts) ==> p in old(Elems(pkts)) || fresh(p)
      ensures old(Elems(pkts)) <= Elems(pkts) && sm.live == old(sm.live) + (Elems(pkts) - old(Elems(pkts)))
    {
      hide Linked, SharesOk, Matches, MatchesOpen, HeaderLen, Feed, After;
      used := TakeHeader(seg, pos);
      NoZeroInPart(asm, Items(seg)[pos..], used);
      assert Items(seg)[pos..][..used] == Items(seg)[pos..pos + used];
      if curPktHdrLen < 4 {
        asm := asm.(hdr := pktHdr, hlen := curPktHdrLen, hpos := used);
        return true, used;
      }
      AddPacket(seg.ts, HeaderLen(pktHdr), seg.inbound, After(asm.log, |asm.log|), asm.log);
      curPktHdrLen := 0;
      asm := OpenPacket(asm, pktHdr, Item(seg.bytes[pos + used - 1], seg.inbound, seg.ts));
      incomplete := false;
    }

    /** What the slow-query history gains when the log of completed packets grows from `l0` to `l1`. */
    static ghost function NewAnswers(l0: seq<Pkt>, l1: seq<Pkt>): (r: seq<Answer>)
      requires l0 <= l1
      ensures forall k :: 0 <= k < |r| ==> r[k].query < |l1| && r[k].eof < |l1|
    {
      AfterOfPrefix(l0, l1, |l0|);
      AnswersGrow(l1, |l0|, |l1|);
      After(l1, |l1|).answers[|After(l0, |l0|).answers|..]
    }

    lemma CompleteArrives(o: Open, p: Packet, f: Fold, log: seq<Pkt>)
      requires FoldOk(f, |log|) && |pkts| == |f.list| + 1 && p == pkts[|f.list|]
      requires Holds(pkts[..|f.list|], f.list, log)
      requires lastQuery == (if f.pending.None? then null else pkts[f.pending.value])
      requires recorded == Values(log, f.recorded)
      requires p.inbound == o.inbound && p.ts == o.ts && |p.data| == p.len > 0 && p.refCount == 1 && !p.freed
      ensures Arrived(f, log + [Pkt(o.inbound, p.data, o.ts)])
    {
      var more := log + [Pkt(o.inbound, p.data, o.ts)];
      assert pkts == pkts[..|f.list|] + [p];
      forall i | 0 <= i < |pkts| ensures Settled(pkts[i], more[(f.list + [|log|])[i]]) {
        if i < |f.list| {
          assert pkts[..|f.list|][i] == pkts[i];
        }
      }
      assert forall k :: 0 <= k < |f.recorded| ==> more[f.recorded[k]] == log[f.recorded[k]];
    }

    /** `last->append(data, &len)`: the packet being filled is complete afterwards, or still open. */
    method Pour(seg: Segment, pos: nat, ghost f: Fold, ghost log: seq<Pkt>, ghost o: Open) returns (used: nat)
      requires FoldOk(f, |log|) && Linked() && MatchesOpen(f, log, o) && pos < |seg.bytes|
      requires sm.SlowValid() && Elems(sm.slow) !! Elems(pkts)
      modifies Elems(pkts)`data
      ensures Linked() && sm.SlowValid() && last != null
      ensures used == if |o.got| + |seg.bytes| - pos > o.len then o.len - |o.got| else |seg.bytes| - pos
      ensures 0 < used && pos + used <= |seg.bytes|
      ensures var got := o.got + seg.bytes[pos..pos + used];
              && last.data == got && last.len == o.len
              && if |got| == o.len then Arrived(f, log + [Pkt(o.inbound, got, o.ts)])
                 else |got| < o.len && MatchesOpen(f, log, o.(got := got))
    {
      hide Linked, Manager.SlowValid, Distinct, Holds, Values;
      ghost var k := |f.list|;
      NewestIsLast(k);
      IsDistinct();
      SplitElems(pkts, k);
      assert pkts[k] in Elems(pkts);
      used := last.Append(seg.bytes[pos..]);
      assert seg.bytes[pos..][..used] == seg.bytes[pos..pos + used];
      assert Holds(pkts[..k], f.list, log);
      if |last.data| == last.len {
        CompleteArrives(o, last, f, log);
      }
    }

    /** `handle_packet_complete` as `append` calls it: the packet joins the log. */
    method PacketCompleted(ghost f: Fold, ghost log: seq<Pkt>, ghost more: seq<Pkt>)
      requires |more| == |log| + 1 && log <= more && f == After(log, |log|)
      requires Linked() && Arrived(f, more) && SharesOk()
      requires AsmOk(asm) && !asm.zero && asm.hlen == 0 && pktHdr == asm.hdr && curPktHdrLen == 0
      modifies sm`slow, sm`times, sm`registered, sm`ids, sm`live, sm.stats`memInUse, sm.stats`freed
      modifies this`first, this`last, this`pkts, this`lastQuery, this`recorded, this`asm
      modifies Elems(pkts), Elems(sm.slow)
      ensures Valid() && SharesOk() && asm == old(asm).(open := None, log := more)
      ensures sm.times == old(sm.times) + AnswerTimes(more, NewAnswers(log, more))
      ensures sm.registered == old(sm.registered) + AnsweredPkts(more, NewAnswers(log, more))
      ensures Elems(pkts) + Elems(sm.slow) <= old(Elems(pkts) + Elems(sm.slow))
      ensures sm.live == old(sm.live - Elems(pkts) - Elems(sm.slow)) + Elems(pkts) + Elems(sm.slow)
    {
      hide Linked, Manager.SlowValid, Manager.Accounts, Distinct, Matches, MatchesOpen, Arrived, Elems, After, Complete;
      AfterOne(log, more);
      HandlePacketComplete(f, more, Elems(pkts) + Elems(sm.slow));
      asm := asm.(open := None, log := more);
    }

    /** The last packet takes what it can of the segment, from `pos` on, and is dealt with when
        that completes it. */
    method FillLast(seg: Segment, pos: nat) returns (used: nat)
      requires Valid() && SharesOk() && asm.open.Some? && pos < |seg.bytes|
      modifies sm`slow, sm`times, sm`registered, sm`ids, sm`live, sm.stats`memInUse, sm.stats`freed
      modifies this`first, this`last, this`pkts, this`lastQuery, this`recorded, this`asm
      modifies Elems(pkts), Elems(sm.slow)
      ensures Valid() && SharesOk()
      ensures 0 < used && pos + used <= |seg.bytes| && asm == Feed(old(asm), Items(seg)[pos..pos + used])
      ensures asm.hpos == old(asm.hpos) && old(asm.log) <= asm.log
      ensures sm.times == old(sm.times) + AnswerTimes(asm.log, NewAnswers(old(asm.log), asm.log))
      ensures sm.registered == old(sm.registered) + AnsweredPkts(asm.log, NewAnswers(old(asm.log), asm.log))
      ensures Elems(pkts) + Elems(sm.slow) <= old(Elems(pkts) + Elems(sm.slow))
      ensures sm.live == old(sm.live - Elems(pkts) - Elems(sm.slow)) + Elems(pkts) + Elems(sm.slow)
    {
      hide Linked, Manager.SlowValid, Manager.Accounts, Distinct, Matches, MatchesOpen, Arrived, Elems, After,
           NewAnswers;
      ghost var o, log := asm.open.value, asm.log;
      ghost var f := After(log, |log|);
      used := Pour(seg, pos, f, log, o);
      ghost var chunk := Items(seg)[pos..pos + used];
      assert Bytes(chunk) == seg.bytes[pos..pos + used];
      FeedPayload(asm, chunk);
      if last.IsComplete() {
        PacketCompleted(f, log, log + [Pkt(o.inbound, last.data, o.ts)]);
      } else {
        asm := asm.(open := Some(o.(got := last.data)));
        NothingAnswered(log);
      }
    }

    static lemma NothingAnswered(log: seq<Pkt>)
      ensures AnswerTimes(log, NewAnswers(log, log)) == [] && AnsweredPkts(log, NewAnswers(log, log)) == []
    {
    }

    lemma NewestIsLast(k: nat)
      requires Linked() && |pkts| == k + 1
      ensures last == pkts[k]
    {
    }

    /** History gained in two steps is the history gained in one. */
    static lemma HistoryComposes(l0: seq<Pkt>, l1: seq<Pkt>, l2: seq<Pkt>)
      requires l0 <= l1 <= l2
      ensures AnswerTimes(l1, NewAnswers(l0, l1)) + AnswerTimes(l2, NewAnswers(l1, l2)) ==
              AnswerTimes(l2, NewAnswers(l0, l2))
      ensures AnsweredPkts(l1, NewAnswers(l0, l1)) + AnsweredPkts(l2, NewAnswers(l1, l2)) ==
              AnsweredPkts(l2, NewAnswers(l0, l2))
    {
      hide After;
      AfterOfPrefix(l0, l1, |l0|);
      AfterOfPrefix(l0, l2, |l0|);
      AfterOfPrefix(l1, l2, |l1|);
      AnswersGrow(l2, |l0|, |l1|);
      AnswersGrow(l2, |l1|, |l2|);
      assert NewAnswers(l0, l1) + NewAnswers(l1, l2) == NewAnswers(l0, l2);
      assert forall k :: 0 <= k < |l1| ==> l1[k] == l2[k];
    }

    /** `!last || last->is_complete()` */
    lemma OpenIffIncomplete()
      requires Valid()
      ensures asm.open.Some? <==> last != null && !last.IsComplete()
    {
      var f := After(asm.log, |asm.log|);
      if asm.open.Some? {
        NewestIsLast(|f.list|);
      } else if pkts != [] {
        assert Settled(pkts[|pkts| - 1], asm.log[f.list[|pkts| - 1]]);
      }
    }

    /** At the start of a call the header bytes go to the start of `pkt_hdr` again. */
    ghost method StartSegment(seg: Segment)
      requires Valid() && SharesOk()
      modifies this`asm
      ensures Valid() && SharesOk() && AsmOk(asm) && asm == old(asm).(hpos := 0)
      ensures FeedSegment(old(asm), seg) == Feed(asm, Items(seg)) && Feed(asm, Items(seg)[..0]) == asm
      ensures AnswerTimes(asm.log, NewAnswers(asm.log, asm.log)) == []
      ensures AnsweredPkts(asm.log, NewAnswers(asm.log, asm.log)) == []
      ensures Elems(pkts) + Elems(sm.slow) <= sm.live
    {
      hide Linked, Matches, MatchesOpen, After;
      NothingAnswered(asm.log);
      asm := asm.(hpos := 0);
    }

    /** The first half of the loop of `append`: a new packet when none is being filled. */
    method EnsureOpen(seg: Segment, pos: nat) returns (incomplete: bool, next: nat)
      requires Valid() && SharesOk() && asm.hpos == 0 && pos < |seg.bytes| && !Feed(asm, Items(seg)[pos..]).zero
      modifies this`first, this`last, this`pkts, this`pktHdr, this`curPktHdrLen, this`asm
      modifies Elems(pkts)`next, sm`live, sm.stats
      ensures Valid() && SharesOk()
      ensures pos <= next <= |seg.bytes| && asm == Feed(old(asm), Items(seg)[pos..next])
      ensures asm.log == old(asm.log) && (incomplete <==> asm.open.None?)
      ensures if incomplete then next == |seg.bytes| else asm.hpos == 0
      ensures forall p :: p in Elems(pkts) ==> p in old(Elems(pkts)) || fresh(p)
      ensures old(Elems(pkts)) <= Elems(pkts) && sm.live == old(sm.live) + (Elems(pkts) - old(Elems(pkts)))
    {
      hide Valid, SharesOk, Elems;
      OpenIffIncomplete();
      incomplete, next := false, pos;
      if last == null || last.IsComplete() {
        hide Feed;
        var used: nat;
        incomplete, used := CreateNewPacket(seg, pos);
        next := pos + used;
      } else {
        assert Items(seg)[pos..pos] == [];
      }
    }

    /** One round of the loop of `append`. It is the last one when the segment ends inside a header,
        or right after one. */
    method Round(seg: Segment, pos: nat) returns (done: bool, next: nat)
      requires Valid() && SharesOk() && asm.hpos == 0 && pos < |seg.bytes| && !Feed(asm, Items(seg)[pos..]).zero
      modifies this, Elems(pkts), Elems(sm.slow), sm.stats
      modifies sm`slow, sm`times, sm`registered, sm`ids, sm`live
      ensures Valid() && SharesOk() && old(asm.log) <= asm.log
      ensures pos < next <= |seg.bytes| && asm == Feed(old(asm), Items(seg)[pos..next])
      ensures if done then next == |seg.bytes| else asm.hpos == 0
      ensures sm.times == old(sm.times) + AnswerTimes(asm.log, NewAnswers(old(asm.log), asm.log))
      ensures sm.registered == old(sm.registered) + AnsweredPkts(asm.log, NewAnswers(old(asm.log), asm.log))
      ensures forall p :: p in Elems(pkts) + Elems(sm.slow) ==> p in old(Elems(pkts) + Elems(sm.slow)) || fresh(p)
      ensures sm.live == old(sm.live - Elems(pkts) - Elems(sm.slow)) + Elems(pkts) + Elems(sm.slow)
    {
      hide Valid, SharesOk, Elems, NewAnswers, Feed, AnswerTimes, AnsweredPkts, Items, AsmOk;
      ghost var a := asm;
      ghost var log := asm.log;
      ghost var others := sm.live - Elems(pkts) - Elems(sm.slow);
      NoHistory();
      done, next := EnsureOpen(seg, pos);
      assert others !! Elems(pkts) + Elems(sm.slow);
      if done || next == |seg.bytes| {
        done := true;
        return;
      }
      ghost var mid := next;
      var used := FillLast(seg, next);
      next := next + used;
      FedThrough(a, Items(seg), pos, mid, next);
    }

    lemma NoHistory()
      requires Valid() && SharesOk()
      ensures AsmOk(asm)
      ensures AnswerTimes(asm.log, NewAnswers(asm.log, asm.log)) == []
      ensures AnsweredPkts(asm.log, NewAnswers(asm.log, asm.log)) == []
      ensures Elems(pkts) + Elems(sm.slow) <= sm.live
    {
      NothingAnswered(asm.log);
    }

    static lemma FedThrough(a: Asm, items: seq<Item>, p: nat, q: nat, r: nat)
      requires AsmOk(a) && p <= q <= r <= |items|
      ensures Feed(a, items[p..r]) == Feed(Feed(a, items[p..q]), items[q..r])
    {
      assert items[p..r] == items[p..q] + items[q..r];
      FeedConcat(a, items[p..q], items[q..r]);
    }

    /** `append`: one TCP segment. The list, the header buffer, the record and the slow-query
        history become exactly what feeding the segment byte by byte makes of them, and the live
        packets remain those on lists and in the slow-query set. */
    method Append(seg: Segment)
      requires Valid() && SharesOk() && !FeedSegment(asm, seg).zero
      modifies this, Elems(pkts), Elems(sm.slow), sm.stats
      modifies sm`slow, sm`times, sm`registered, sm`ids, sm`live
      ensures Valid() && SharesOk() && asm == FeedSegment(old(asm), seg) && old(asm.log) <= asm.log
      ensures sm.times == old(sm.times) + AnswerTimes(asm.log, NewAnswers(old(asm.log), asm.log))
      ensures sm.registered == old(sm.registered) + AnsweredPkts(asm.log, NewAnswers(old(asm.log), asm.log))
      ensures forall p :: p in Elems(pkts) + Elems(sm.slow) ==> p in old(Elems(pkts) + Elems(sm.slow)) || fresh(p)
      ensures sm.live == old(sm.live - Elems(pkts) - Elems(sm.slow)) + Elems(pkts) + Elems(sm.slow)
    {
      hide Valid, SharesOk, Elems, NewAnswers, Feed, FeedSegment, AnswerTimes, AnsweredPkts, Items, AsmOk;
      ghost var items := Items(seg);
      ghost var log0 := asm.log;
      StartSegment(seg);
      ghost var a0 := asm;
      ghost var others := sm.live - Elems(pkts) - Elems(sm.slow);
      assert forall p :: p in others ==> !fresh(p);
      var pos := 0;
      while pos < |seg.bytes|
        invariant pos <= |seg.bytes| && Valid() && SharesOk()
        invariant AsmOk(a0) && asm == Feed(a0, items[..pos]) && asm.hpos == 0 && log0 <= asm.log
        invariant sm.times == old(sm.times) + AnswerTimes(asm.log, NewAnswers(log0, asm.log))
        invariant sm.registered == old(sm.registered) + AnsweredPkts(asm.log, NewAnswers(log0, asm.log))
        invariant forall p :: p in Elems(pkts) + Elems(sm.slow) ==> p in old(Elems(pkts) + Elems(sm.slow)) || fresh(p)
        invariant others !! Elems(pkts) + Elems(sm.slow) && sm.live == others + Elems(pkts) + Elems(sm.slow)
      {
        NoZeroInPart(a0, items, pos);
        ghost var p0, log1 := pos, asm.log;
        var done;
        done, pos := Round(seg, pos);
        FedFurther(a0, items, p0, pos);
        HistoryComposes(log0, log1, asm.log);
        if done {
          FedFurther(a0, items, pos, pos);
          return;
        }
      }
      FedFurther(a0, items, pos, pos);
    }

    static lemma FedFurther(a0: Asm, items: seq<Item>, p: nat, q: nat)
      requires AsmOk(a0) && p <= q <= |items|
      ensures Feed(a0, items[..q]) == Feed(Feed(a0, items[..p]), items[p..q])
      ensures items[..|items|] == items
    {
      assert items[..q] == items[..p] + items[p..q];
      FeedConcat(a0, items[..p], items[p..q]);
    }

    lemma OnlyReference()
      requires Valid()
      ensures Linked() && forall i :: 0 <= i < |pkts| ==> pkts[i].refCount == 1 && !pkts[i].freed
    {
      var f := After(asm.log, |asm.log|);
      forall i | 0 <= i < |pkts| ensures pkts[i].refCount == 1 && !pkts[i].freed {
        if i < |f.list| {
          assert asm.open.Some? ==> pkts[..|f.list|][i] == pkts[i];
          assert Settled(pkts[i], asm.log[f.list[i]]);
        }
      }
    }

    /** `cleanup`: every packet of the list is unlinked, and freed. */
    method Cleanup()
      requires Linked() && sm.Accounts() && Elems(pkts) <= sm.live
      requires forall i :: 0 <= i < |pkts| ==> pkts[i].refCount == 1 && !pkts[i].freed
      modifies this`first, this`last, this`pkts
      modifies Elems(pkts)`next, Elems(pkts)`prev, Elems(pkts)`refCount, Elems(pkts)`freed
      modifies sm.stats`memInUse, sm.stats`freed, sm`live
      ensures pkts == [] && sm.Accounts() && sm.live == old(sm.live) - old(Elems(pkts))
    {
      hide Linked, Manager.Accounts, At, Elems, Distinct;
      IsDistinct();
      ghost var all, mine := pkts, Elems(pkts);
      AtEnd([], pkts);
      FirstAndLast();
      assert [] + all == all && all[0..] == all && all[..0] == [] && all[..|all|] == all;
      NoElems();
      var pkt := first;
      ghost var k := 0;
      while pkt != null
        invariant k <= |all| && Linked() && pkts == [] + all[k..] && pkt == At(pkts, 0) && Elems(pkts) <= mine
        invariant sm.Accounts() && sm.live == old(sm.live) - Elems(all[..k])
        invariant forall i :: k <= i < |all| ==> all[i].refCount == 1 && !all[i].freed
        decreases |all| - k
      {
        AtEnd([], all[k..]);
        ElemsNext(all, k);
        ElemsOfRest([], all, k + 1);
        pkt := DropNext(pkt, [], all, k, mine);
        k := k + 1;
      }
      AtEnd([], all[k..]);
    }

    lemma FirstAndLast()
      requires Linked()
      ensures first == At(pkts, 0)
    {
    }
  }

  // ---------------------------------------------------------------- memory accounting

  ghost function SumLen(ps: set<Packet>): nat {
    if ps == {} then 0 else var p :| p in ps; p.len + SumLen(ps - {p})
  }

  lemma {:induction false} SumLenRemove(ps: set<Packet>, p: Packet)
    requires p in ps
    ensures SumLen(ps) == p.len + SumLen(ps - {p}) && |ps - {p}| == |ps| - 1
  {
    var q :| q in ps && SumLen(ps) == q.len + SumLen(ps - {q});
    if q != p {
      SumLenRemove(ps - {q}, p);
      SumLenRemove(ps - {p}, q);
      assert ps - {q} - {p} == ps - {p} - {q};
    }
  }

  /** `Mysql_stream_manager`: the slow-query set, slowest first, and the counters. The ghost fields
      say which packets are allocated, and the history of registrations: the packet and execution
      time of each query, and which of them (`ids`) are in the set. */
  class Manager {
    const stats: PerfStats
    const nSlow: nat
    var slow: seq<Packet>
    var lookup: map<nat, Stream>
    ghost var live: set<Packet>
    ghost var times: seq<int>
    ghost var registered: seq<Pkt>
    ghost var ids: seq<nat>

    constructor (nSlow: nat)
      ensures this.nSlow == nSlow && slow == [] && lookup == map[] && times == [] && registered == []
      ensures fresh(stats) && AllOk() && live == {}
    {
      this.nSlow := nSlow;
      stats := new PerfStats();
      slow, lookup, live, times, registered, ids := [], map[], {}, [], [], [];
    }

    /** `pkt_alloced - pkt_freed` is the number of live packets and `pkt_mem_in_use` their size. */
    ghost predicate Accounts()
      reads this`live, stats
    {
      stats.alloced - stats.freed == |live| && stats.memInUse == SumLen(live)
    }

    /** A new packet with one reference. */
    method NewPacket(ts: int, len: nat, inbound: bool) returns (pkt: Packet)
      requires Accounts()
      modifies this`live, stats
      ensures fresh(pkt) && pkt.ts == ts && pkt.len == len && pkt.inbound == inbound && pkt.data == []
      ensures pkt.next == null && pkt.prev == null && pkt.refCount == 1 && !pkt.freed
      ensures Accounts() && live == old(live) + {pkt}
    {
      pkt := new Packet(ts, len, inbound, stats);
      pkt.MarkRef();
      live := live + {pkt};
      SumLenRemove(live, pkt);
      assert pkt !in old(live) ==> live - {pkt} == old(live);
    }

    /** `unmark_ref`, `delete` when it was the last reference, and the counters. */
    method Release(pkt: Packet)
      requires pkt.refCount > 0 && !pkt.freed && Accounts() && pkt in live
      modifies pkt`refCount, pkt`freed, stats`memInUse, stats`freed, this`live
      ensures pkt.refCount == old(pkt.refCount) - 1
      ensures pkt.freed <==> pkt.refCount == 0
      ensures Accounts() && live == old(live) - if pkt.freed then {pkt} else {}
    {
      pkt.UnmarkRef(stats);
      if pkt.freed {
        SumLenRemove(live, pkt);
        live := live - {pkt};
      }
    }

    /** Packet `p` is in the slow-query set, and nowhere else, as registration `id`. */
    ghost predicate Kept(p: Packet, id: nat)
      reads this`times, this`registered, p
    {
      && id < |times| == |registered|
      && p.Value() == registered[id] && p.execTime == times[id]
      && p.refCount == 1 && !p.freed && p.next == null && p.prev == null
    }

    /** The set holds the slowest queries of the whole history. */
    ghost predicate SlowValid()
      reads this`slow, this`times, this`registered, this`ids, slow
    {
      && |times| == |registered| && ids == TopN.Slowest(times, |times|, nSlow)
      && |slow| == |ids| && Distinct(slow)
      && forall i :: 0 <= i < |slow| ==> Kept(slow[i], ids[i])
    }

    /** The same, except that `query`, if it is in the set as the newest registration, may still be
        linked into its stream. */
    ghost predicate SlowExcept(query: Packet)
      reads this`slow, this`times, this`registered, this`ids, slow
    {
      && |times| == |registered| && ids == TopN.Slowest(times, |times|, nSlow)
      && |slow| == |ids| && Distinct(slow)
      && forall i :: 0 <= i < |slow| ==> if slow[i] == query then ids[i] == |times| - 1 else Kept(slow[i], ids[i])
    }

    /** Where `multiset::insert` puts an element with time `t`. */
    method InsertPosition(t: int) returns (k: nat)
      requires |slow| == |ids| && forall i :: 0 <= i < |slow| ==> ids[i] < |times| && slow[i].execTime == times[ids[i]]
      ensures k == TopN.UpperBound(times, ids, t)
    {
      k := |slow|;
      assert ids[..k] == ids;
      while k > 0 && slow[k - 1].execTime < t
        invariant k <= |slow|
        invariant TopN.UpperBound(times, ids[..k], t) == TopN.UpperBound(times, ids, t)
      {
        assert ids[..k][..k - 1] == ids[..k - 1];
        k := k - 1;
      }
      assert k > 0 ==> ids[..k][k - 1] == ids[k - 1];
    }

    ghost predicate KeptAll(ps: seq<Packet>, ns: seq<nat>)
      reads this`times, this`registered, ps
    {
      |ps| == |ns| && Distinct(ps) && forall i :: 0 <= i < |ps| ==> Kept(ps[i], ns[i])
    }

    ghost method AddToHistory(t: int, v: Pkt)
      requires KeptAll(slow, ids) && |times| == |registered|
      modifies this`times, this`registered
      ensures KeptAll(slow, ids) && times == old(times) + [t] && registered == old(registered) + [v]
    {
      times, registered := times + [t], registered + [v];
      assert forall i :: 0 <= i < |slow| ==> old(Kept(slow[i], ids[i]));
    }

    lemma Spliced(ps: seq<Packet>, ns: seq<nat>, k: nat, p: Packet, n: nat)
      requires KeptAll(ps, ns) && p !in ps && k <= |ps|
      ensures var qs := ps[..k] + [p] + ps[k..]; var ms := ns[..k] + [n] + ns[k..];
              && |qs| == |ms| && Distinct(qs)
              && (forall x :: x in qs <==> x in ps || x == p)
              && forall i :: 0 <= i < |qs| ==> if qs[i] == p then ms[i] == n else Kept(qs[i], ms[i])
    {
      hide Kept;
      var qs, ms := ps[..k] + [p] + ps[k..], ns[..k] + [n] + ns[k..];
      forall i | 0 <= i < |qs| && i != k
        ensures qs[i] == ps[if i < k then i else i - 1] && ms[i] == ns[if i < k then i else i - 1]
      { }
    }

    /** The first part of `register_query`: a second reference, and the insertion. */
    method InsertQuery(query: Packet)
      requires SlowValid() && query.refCount == 1 && !query.freed && query !in slow
      modifies this`slow, this`times, this`registered, this`ids, query`refCount
      ensures query.refCount == 2
      ensures times == old(times) + [query.execTime] && registered == old(registered) + [query.Value()]
      ensures ids == TopN.Insert(times, TopN.Slowest(times, |times| - 1, nSlow), |times| - 1)
      ensures |slow| == |ids| && Distinct(slow) && query in slow
      ensures forall p :: p in slow <==> p in old(slow) || p == query
      ensures forall i :: 0 <= i < |slow| ==>
                if slow[i] == query then ids[i] == |times| - 1 else Kept(slow[i], ids[i])
    {
      hide TopN.Slowest, TopN.UpperBound, Distinct;
      query.MarkRef();
      ghost var n := |times|;
      TopN.SlowestOfPrefix(times, times + [query.execTime], n, nSlow);
      AddToHistory(query.execTime, query.Value());
      var k := InsertPosition(query.execTime);
      Spliced(slow, ids, k, query, n);
      slow := slow[..k] + [query] + slow[k..];
      ids := ids[..k] + [n] + ids[k..];
    }

    /** The eviction in `register_query`, just after `query` was inserted. */
    method Evict(s: Stream, query: Packet, p: Packet, ghost foot: set<Packet>)
      requires s.sm == this && s.Linked() && query in s.pkts && query.refCount == 2 && !query.freed
      requires |slow| == |ids| > 0 && Distinct(slow) && query in slow && p == slow[|slow| - 1]
      requires forall i :: 0 <= i < |slow| ==> if slow[i] == query then ids[i] == |times| - 1 else Kept(slow[i], ids[i])
      requires Elems(slow) - {query} !! Elems(s.pkts)
      requires Accounts() && Elems(slow) <= live && Elems(s.pkts) + Elems(slow) <= foot
      modifies this`slow, this`ids, this`live, stats`memInUse, stats`freed
      modifies s`first, s`last, s`pkts, foot`next, foot`prev, p`refCount, p`freed
      ensures s.Linked() && Accounts() && !query.freed
      ensures slow == old(slow[..|slow| - 1]) && ids == old(ids[..|ids| - 1])
      ensures forall i :: 0 <= i < |slow| ==> if slow[i] == query then ids[i] == |times| - 1 else Kept(slow[i], ids[i])
      ensures if p == query then
                && query.refCount == 1 && query.next == null && query.prev == null
                && s.pkts == Without(old(s.pkts), query) && live == old(live)
              else
                query.refCount == 2 && s.pkts == old(s.pkts) && p.freed && live == old(live) - {p}
    {
      hide Stream.Linked, Without, Accounts;
      forall x | x in slow && x != query ensures x !in s.pkts {
        assert x in Elems(slow) - {query} && x !in Elems(s.pkts);
      }
      assert p in Elems(slow);
      assert p != query ==> Kept(p, ids[|slow| - 1]);
      slow := slow[..|slow| - 1];
      ids := ids[..|ids| - 1];
      assert forall i :: 0 <= i < |slow| && slow[i] != query ==>
          Kept(slow[i], ids[i]) && slow[i] != p && slow[i] !in s.pkts && slow[i] in old(Elems(slow));
      s.ConsiderUnlinkPkt(p, foot);
    }

    lemma DroppedLast(ps: seq<Packet>)
      requires |ps| > 0 && Distinct(ps)
      ensures forall p :: p in ps <==> p in ps[..|ps| - 1] || p == ps[|ps| - 1]
      ensures ps[|ps| - 1] !in ps[..|ps| - 1]
    {
    }

    /** `register_query` with `do_run` unset. When the set grows too big its fastest query leaves
        through stream `s`, whichever stream it came from; if that is the new query itself, it
        leaves its own list here and keeps one reference, which the caller then drops. */
    method RegisterQuery(s: Stream, query: Packet, ghost foot: set<Packet>)
      requires s.sm == this && s.Linked() && query in s.pkts && query.refCount == 1 && !query.freed
      requires SlowValid() && Elems(slow) !! Elems(s.pkts)
      requires Accounts() && Elems(s.pkts) + Elems(slow) <= live * foot
      modifies this`slow, this`times, this`registered, this`ids, this`live, stats`memInUse, stats`freed
      modifies s`first, s`last, s`pkts, foot`next, foot`prev
      modifies query`refCount, query`freed, Elems(slow)`refCount, Elems(slow)`freed
      ensures s.Linked() && Accounts() && !query.freed
      ensures times == old(times) + [query.execTime] && registered == old(registered) + [query.Value()]
      ensures SlowExcept(query)
      ensures Elems(slow) <= old(Elems(slow)) + {query}
      ensures forall p :: p in old(Elems(slow)) && p !in Elems(slow) ==> p.freed
      ensures live == old(live) - (old(Elems(slow)) - Elems(slow))
      ensures query in slow ==> query.refCount == 2 && s.pkts == old(s.pkts)
      ensures query !in slow ==> query.refCount == 1 && query.next == null && query.prev == null
                                 && s.pkts == Without(old(s.pkts), query)
    {
      hide Stream.Linked, Without, TopN.Insert, TopN.UpperBound, Accounts, Kept;
      assert query in Elems(s.pkts);
      InsertQuery(query);
      if |slow| > nSlow {
        ghost var all := slow;
        var p := slow[|slow| - 1];
        assert Elems(slow) == old(Elems(slow)) + {query};
        assert p in Elems(slow);
        Evict(s, query, p, foot);
        DroppedLast(all);
      }
    }

    // -------------------------------------------------------------- all streams together

    /** The packets on the lists of the streams in `m`. */
    ghost function Listed(m: map<nat, Stream>): set<Packet>
      reads set k | k in m :: m[k]
    {
      set k, p | k in m && p in m[k].pkts :: p
    }

    /** The streams in `m` are in order and have no packet in common. */
    ghost predicate StreamsOk(m: map<nat, Stream>)
      reads set k | k in m :: m[k], Listed(m)
    {
      && (forall k :: k in m ==> m[k].sm == this && Elems(m[k].pkts) <= Listed(m) && m[k].Valid())
      && forall j, k :: j in m && k in m && j != k ==> m[j] != m[k] && Elems(m[j].pkts) !! Elems(m[k].pkts)
    }

    /** The live packets are the disjoint union of the stream lists and the slow-query set. Each has
        exactly one reference, and the counters agree. */
    ghost predicate AllOk()
      reads this, set k | k in lookup :: lookup[k], Listed(lookup), slow, stats
    {
      && StreamsOk(lookup) && SlowValid() && Accounts()
      && Elems(slow) !! Listed(lookup) && live == Listed(lookup) + Elems(slow)
    }

    /** One stream set apart from the others. */
    lemma SplitOne(m: map<nat, Stream>, key: nat)
      requires StreamsOk(m) && key in m
      ensures var s := m[key]; var rest := m - {key};
              && s.sm == this && s.Valid() && StreamsOk(rest) && Elems(s.pkts) !! Listed(rest)
              && Listed(m) == Listed(rest) + Elems(s.pkts)
              && (forall k :: k in rest ==> rest[k] != s) && m == rest[key := s]
    {
      hide Stream.Valid;
      var s, rest := m[key], m - {key};
      forall k | k in rest ensures Elems(rest[k].pkts) <= Listed(rest) && Elems(rest[k].pkts) !! Elems(s.pkts) {
        assert rest[k] == m[k];
      }
      forall p | p in Listed(m) ensures p in Listed(rest) + Elems(s.pkts) {
        var k :| k in m && p in m[k].pkts;
        assert k != key ==> k in rest && p in rest[k].pkts;
      }
    }

    lemma StreamsSplit(key: nat)
      requires AllOk() && key in lookup
      ensures var s := lookup[key]; var rest := lookup - {key};
              && s.sm == this && s.Valid() && s.SharesOk() && StreamsOk(rest)
              && Elems(s.pkts) !! Listed(rest) && Elems(slow) !! Listed(rest)
              && live == Listed(rest) + Elems(s.pkts) + Elems(slow)
              && (forall k :: k in rest ==> rest[k] != s)
              && lookup == rest[key := s]
    {
      hide Stream.Valid, SlowValid, Accounts, StreamsOk, Listed;
      SplitOne(lookup, key);
    }

    /** One stream joining others with which it has nothing in common. */
    lemma StreamsJoin(rest: map<nat, Stream>, key: nat, s: Stream)
      requires key !in rest && s.sm == this && s.Valid() && StreamsOk(rest) && Elems(s.pkts) !! Listed(rest)
      requires forall k :: k in rest ==> rest[k] != s
      ensures var m := rest[key := s]; StreamsOk(m) && Listed(m) == Listed(rest) + Elems(s.pkts)
    {
      hide Stream.Valid;
      var m := rest[key := s];
      assert forall p :: p in s.pkts ==> p in m[key].pkts;
      forall p | p in Listed(rest) ensures p in Listed(m) {
        var k :| k in rest && p in rest[k].pkts;
        assert p in m[k].pkts;
      }
      assert Listed(m) == Listed(rest) + Elems(s.pkts);
    }

    /** A segment for the stream under `key`. That stream becomes what the fold makes of its bytes,
        no other stream changes, and the live packets are still exactly those listed or kept. */
    method Feed(key: nat, seg: Segment)
      requires AllOk() && key in lookup && !FeedSegment(lookup[key].asm, seg).zero
      modifies lookup[key], Elems(lookup[key].pkts), Elems(slow), stats
      modifies this`slow, this`times, this`registered, this`ids, this`live
      ensures AllOk() && lookup == old(lookup) && forall p :: p in live ==> p in old(live) || fresh(p)
      ensures var s := lookup[key]; var log := old(lookup[key].asm.log);
              && s.asm == FeedSegment(old(lookup[key].asm), seg) && log <= s.asm.log
              && times == old(times) + AnswerTimes(s.asm.log, Stream.NewAnswers(log, s.asm.log))
              && registered == old(registered) + AnsweredPkts(s.asm.log, Stream.NewAnswers(log, s.asm.log))
      ensures forall k :: k in lookup && k != key ==>
                lookup[k].pkts == old(lookup[k].pkts) && lookup[k].asm == old(lookup[k].asm)
                && lookup[k].recorded == old(lookup[k].recorded)
    {
      hide Stream.Valid, SlowValid, Accounts, StreamsOk, Stream.NewAnswers, FeedSegment;
      StreamsSplit(key);
      ghost var rest := lookup - {key};
      ghost var others := Listed(rest);
      assert forall p :: p in others ==> !fresh(p);
      lookup[key].Append(seg);
      assert forall p :: p in Elems(lookup[key].pkts) + Elems(slow) ==> p !in others;
      assert Listed(rest) == others && StreamsOk(rest);
      StreamsJoin(rest, key, lookup[key]);
    }

    /** A stream seen for the first time. `hdr` is whatever its header buffer holds at first. */
    method OpenStream(key: nat, hdr: seq<byte>)
      requires AllOk() && key !in lookup && |hdr| == 4
      modifies this`lookup
      ensures AllOk() && key in lookup && lookup == old(lookup)[key := lookup[key]]
      ensures fresh(lookup[key]) && lookup[key].asm == Start(hdr) && lookup[key].recorded == []
      ensures times == old(times) && live == old(live)
    {
      hide Stream.Valid, SlowValid, Accounts, StreamsOk;
      var s := new Stream(this, hdr);
      NewStreamValid(s, hdr);
      NoElems();
      StreamsJoin(lookup, key, s);
      lookup := lookup[key := s];
    }

    lemma NewStreamValid(s: Stream, hdr: seq<byte>)
      requires |hdr| == 4 && s.pkts == [] && s.asm == Start(hdr) && s.recorded == []
      requires s.first == null && s.last == null && s.lastQuery == null && s.pktHdr == hdr && s.curPktHdrLen == 0
      ensures s.Valid()
    {
    }

    /** Frees the list of one stream, which leaves the others as they were. */
    method DeleteStream(s: Stream, ghost others: set<Packet>)
      requires s.sm == this && s.Valid() && Accounts() && live == others + Elems(s.pkts) && others !! Elems(s.pkts)
      modifies s`first, s`last, s`pkts, Elems(s.pkts), stats`memInUse, stats`freed, this`live
      ensures Accounts() && live == others
    {
      s.OnlyReference();
      hide Stream.Valid, Stream.Linked, Accounts;
      s.Cleanup();
    }

    /** The end of a stream: its packets are freed, except those among the slowest queries. */
    method CloseStream(key: nat)
      requires AllOk() && key in lookup
      modifies this`lookup, this`live, lookup[key], Elems(lookup[key].pkts), stats
      ensures AllOk() && lookup == old(lookup) - {key} && slow == old(slow) && times == old(times)
      ensures live == old(live) - old(Elems(lookup[key].pkts))
    {
      hide Stream.Valid, SlowValid, StreamsOk, Accounts;
      StreamsSplit(key);
      var s := lookup[key];
      ghost var rest := lookup - {key};
      DeleteStream(s, Listed(rest) + Elems(slow));
      lookup := lookup - {key};
    }

    lemma OnlyInSlow()
      requires SlowValid()
      ensures Distinct(slow) && forall i :: 0 <= i < |slow| ==> slow[i].refCount == 1 && !slow[i].freed
    {
      assert forall i :: 0 <= i < |slow| ==> Kept(slow[i], ids[i]);
    }

    /** Gives up the packets `ps`, to each of which there is one reference. */
    method ReleaseAll(ps: seq<Packet>, ghost others: set<Packet>)
      requires Distinct(ps) && Accounts() && others !! Elems(ps) && live == others + Elems(ps)
      requires forall p :: p in Elems(ps) ==> p.refCount == 1 && !p.freed
      modifies this`live, Elems(ps)`refCount, Elems(ps)`freed, stats`memInUse, stats`freed
      ensures Accounts() && live == others
    {
      hide Accounts, Elems, Distinct;
      NoElems();
      var i := 0;
      assert ps[0..] == ps;
      while i < |ps|
        invariant i <= |ps| && Accounts()
        invariant live == others + Elems(ps[i..]) && others !! Elems(ps[i..])
        invariant forall p :: p in Elems(ps[i..]) ==> p.refCount == 1 && !p.freed
      {
        ElemsFrom(ps, i);
        Release(ps[i]);
        i := i + 1;
      }
      assert ps[i..] == [];
    }

    /** The first loop of `cleanup`: the slow-query set is given up. */
    method FreeSlow(ghost others: set<Packet>)
      requires SlowValid() && Accounts() && others !! Elems(slow) && live == others + Elems(slow)
      modifies this`slow, this`live, Elems(slow)`refCount, Elems(slow)`freed, stats`memInUse, stats`freed
      ensures Accounts() && live == others && slow == []
    {
      hide Accounts, SlowValid;
      OnlyInSlow();
      ReleaseAll(slow, others);
      slow := [];
    }

    /** Deletes the stream under `key` and forgets it. */
    method DropStream(key: nat)
      requires key in lookup && Accounts() && StreamsOk(lookup) && live == Listed(lookup)
      modifies this`lookup, this`live, lookup[key], Elems(lookup[key].pkts), stats
      ensures lookup == old(lookup) - {key} && |lookup| < |old(lookup)|
      ensures Accounts() && StreamsOk(lookup) && live == Listed(lookup) && Listed(lookup) <= old(Listed(lookup))
    {
      hide Stream.Valid, Accounts, StreamsOk;
      SplitOne(lookup, key);
      ghost var rest := lookup - {key};
      DeleteStream(lookup[key], Listed(rest));
      assert |lookup| == |rest| + 1;
      lookup := lookup - {key};
    }

    /** `cleanup`: the slow-query set, then every stream. Nothing stays allocated, and the counters
        come out even. */
    method Cleanup()
      requires AllOk()
      modifies this`slow, this`lookup, this`live, Elems(slow)`refCount, Elems(slow)`freed, stats
      modifies set k | k in lookup :: lookup[k], Listed(lookup)
      ensures slow == [] && lookup == map[] && live == {}
      ensures stats.alloced == stats.freed && stats.memInUse == 0
    {
      hide Stream.Valid, Accounts, StreamsOk, SlowValid;
      ghost var all := Listed(lookup);
      FreeSlow(all);
      while lookup != map[]
        invariant slow == [] && Accounts() && StreamsOk(lookup) && live == Listed(lookup)
        invariant Listed(lookup) <= all && forall k :: k in lookup ==> k in old(lookup) && lookup[k] == old(lookup)[k]
        decreases |lookup|
      {
        var key :| key in lookup;
        assert Elems(lookup[key].pkts) <= Listed(lookup);
        DropStream(key);
      }
      NothingAllocated();
    }

    lemma NothingAllocated()
      requires Accounts() && live == {}
      ensures stats.alloced == stats.freed && stats.memInUse == 0
    {
    }
  }
}
