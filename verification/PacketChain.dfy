/** The linked list of one stream while it is being replayed (`do_run` set):
    a heap of packet nodes addressed by index, with exactly the pointer writes of
    `append_packet`, `handle_packet_complete`, `unlink_pkt` and `consider_unlink_pkt`.

    Packets are numbered in the order they are linked, so a packet's index is its identity.
    Touching a freed packet, dereferencing NULL or failing one of the source's assertions
    raises `fault`; that no run raises it is a theorem, not an assumption. */
module PacketChain {

  /** What a packet is to the stream: `is_query`, `is_eof`, any other packet sent by
      the client, any other packet sent by the server. */
  datatype Kind = Query | Eof | Client | Server

  datatype Ptr = Null | At(i: nat)

  datatype Node = Node(kind: Kind, next: Ptr, prev: Ptr, refs: nat, freed: bool)

  /** `registered` is the log of `register_query` calls. */
  datatype Chain = Chain(nodes: seq<Node>, first: Ptr, last: Ptr, lastQuery: Ptr,
                         registered: seq<nat>, fault: bool)

  const EMPTY_CHAIN := Chain([], Null, Null, Null, [], false)

  // ---------------------------------------------------------------- heap access

  function Fault(ch: Chain): Chain {
    ch.(fault := true)
  }

  /** Records a use of packet `i`. */
  function Touch(ch: Chain, i: nat): Chain {
    if i < |ch.nodes| && !ch.nodes[i].freed then ch else Fault(ch)
  }

  function Next(ch: Chain, i: nat): Ptr {
    if i < |ch.nodes| then ch.nodes[i].next else Null
  }

  function Prev(ch: Chain, i: nat): Ptr {
    if i < |ch.nodes| then ch.nodes[i].prev else Null
  }

  function KindOf(ch: Chain, i: nat): Kind {
    if i < |ch.nodes| then ch.nodes[i].kind else Server
  }

  function SetNext(ch: Chain, p: Ptr, v: Ptr): Chain {
    if p.At? && p.i < |ch.nodes| then
      Touch(ch.(nodes := ch.nodes[p.i := ch.nodes[p.i].(next := v)]), p.i)
    else Fault(ch)
  }

  function SetPrev(ch: Chain, p: Ptr, v: Ptr): Chain {
    if p.At? && p.i < |ch.nodes| then
      Touch(ch.(nodes := ch.nodes[p.i := ch.nodes[p.i].(prev := v)]), p.i)
    else Fault(ch)
  }

  /** `mark_ref`, whose assertion is `ref_count <= 2`. */
  function MarkRef(ch: Chain, i: nat): Chain {
    if i < |ch.nodes| && ch.nodes[i].refs <= 2 then
      Touch(ch.(nodes := ch.nodes[i := ch.nodes[i].(refs := ch.nodes[i].refs + 1)]), i)
    else Fault(ch)
  }

  /** `unmark_ref` followed by `delete` when the count reaches zero. */
  function UnmarkRef(ch: Chain, i: nat): Chain {
    if i < |ch.nodes| && ch.nodes[i].refs > 0 then
      var r := ch.nodes[i].refs - 1;
      Touch(ch, i).(nodes := ch.nodes[i := ch.nodes[i].(refs := r, freed := ch.nodes[i].freed || r == 0)])
    else Fault(ch)
  }

  // ---------------------------------------------------------------- the source's operations

  /** The part of `unlink_pkt` that joins the packet's neighbours and moves `first` and `last`. */
  function Bypass(ch: Chain, i: nat): Chain {
    var c1 := if Prev(ch, i).At? then SetNext(ch, Prev(ch, i), Next(ch, i)) else ch;
    var c2 := if Next(c1, i).At? then SetPrev(c1, Next(c1, i), Prev(c1, i)) else c1;
    var c3 := if c2.first == At(i) then c2.(first := Next(c2, i)) else c2;
    if c3.last == At(i) then c3.(last := Prev(c3, i)) else c3
  }

  /** `unlink_pkt` */
  function Unlink(ch: Chain, i: nat): Chain {
    UnmarkRef(SetPrev(SetNext(Bypass(ch, i), At(i), Null), At(i), Null), i)
  }

  /** `consider_unlink_pkt` with `do_run` set. */
  function ConsiderUnlink(ch: Chain, i: nat, inReplay: bool): Chain {
    if inReplay && i < |ch.nodes| && Touch(ch, i).nodes[i].refs == 1
    then Unlink(ch, i)
    else if inReplay then Touch(ch, i) else ch
  }

  /** The linking part of `append_packet`. */
  function Link(ch: Chain, k: Kind): Chain {
    var n := |ch.nodes|;
    var c1 := MarkRef(ch.(nodes := ch.nodes + [Node(k, Null, Null, 0, false)]), n);
    if c1.first.Null? then
      c1.(first := At(n), last := At(n))
    else
      var c2 := SetNext(c1, c1.last, At(n));
      var c3 := SetPrev(c2, At(n), c2.last);
      c3.(last := At(n))
  }

  /** `register_query` with `do_run` set: an eviction goes through
      `consider_unlink_pkt(p)`, which does nothing then. */
  function Register(ch: Chain, q: nat): Chain {
    MarkRef(ch, q).(registered := ch.registered + [q])
  }

  /** The loop of the EOF branch over the packets after the query. `fuel` bounds the
      number of packets visited. */
  function Sweep(ch: Chain, p: Ptr, fuel: nat): Chain
    decreases fuel
  {
    if p.Null? || fuel == 0 then ch
    else
      var c1 := Touch(ch, p.i);
      var tmp := Next(c1, p.i);
      var c2 := if p != c1.last then Unlink(c1, p.i) else ConsiderUnlink(c1, p.i, false);
      Sweep(c2, tmp, fuel - 1)
  }

  /** `handle_packet_complete` after its notification. */
  function Classify(ch: Chain): Chain {
    if ch.last.Null? then Fault(ch)
    else
      var l := ch.last.i;
      var c := Touch(ch, l);
      if KindOf(c, l) == Query then
        c.(lastQuery := ch.last)
      else if c.lastQuery.At? && KindOf(c, l) == Eof then
        var q := c.lastQuery.i;
        var c1 := if Next(c, l) == Null && Next(c, q) != Null then Touch(c, q) else Fault(c);
        var nextP := Next(c1, q);
        var c2 := ConsiderUnlink(Register(c1, q), q, false);
        Sweep(c2, nextP, |c2.nodes|).(lastQuery := Null)
      else if KindOf(c, l) == Server then
        Unlink(c, l)
      else c
  }

  // ---------------------------------------------------------------- shape of the list

  predicate Live(ch: Chain, i: nat) {
    i < |ch.nodes| && !ch.nodes[i].freed
  }

  /** `p` is the nearest live packet after position `lo` (exclusive, -1 for the start). */
  ghost predicate NearestAfter(ch: Chain, lo: int, p: Ptr) {
    match p
    case Null => forall k: nat :: lo < k < |ch.nodes| ==> !Live(ch, k)
    case At(j) => lo < j && Live(ch, j) && forall k: nat :: lo < k < j ==> !Live(ch, k)
  }

  /** `p` is the nearest live packet before position `hi` (exclusive). */
  ghost predicate NearestBefore(ch: Chain, hi: nat, p: Ptr) {
    match p
    case Null => forall k: nat :: k < hi ==> !Live(ch, k)
    case At(j) => j < hi && Live(ch, j) && forall k: nat :: j < k < hi ==> !Live(ch, k)
  }

  /** The list links exactly the live packets, in order, in both directions. */
  ghost predicate Shape(ch: Chain) {
    && NearestAfter(ch, -1, ch.first)
    && NearestBefore(ch, |ch.nodes|, ch.last)
    && (forall i: nat :: Live(ch, i) ==> NearestAfter(ch, i, ch.nodes[i].next))
    && (forall i: nat :: Live(ch, i) ==> NearestBefore(ch, i, ch.nodes[i].prev))
  }

  lemma BypassEffect(ch: Chain, i: nat)
    requires Live(ch, i) && !ch.fault
    requires var p := ch.nodes[i].prev; p.At? ==> Live(ch, p.i) && p.i != i
    requires var n := ch.nodes[i].next; n.At? ==> Live(ch, n.i) && n.i != i
    ensures var r := Bypass(ch, i); var p := ch.nodes[i].prev; var n := ch.nodes[i].next;
            && !r.fault && |r.nodes| == |ch.nodes|
            && r.lastQuery == ch.lastQuery && r.registered == ch.registered
            && r.first == (if ch.first == At(i) then n else ch.first)
            && r.last == (if ch.last == At(i) then p else ch.last)
            && forall k: nat :: k < |ch.nodes| ==>
                 r.nodes[k] == ch.nodes[k].(next := if At(k) == p then n else ch.nodes[k].next,
                                            prev := if At(k) == n then p else ch.nodes[k].prev)
  {
  }

  /** What `Unlink` writes, when neighbours are other live packets. */
  lemma UnlinkEffect(ch: Chain, i: nat)
    requires Live(ch, i) && ch.nodes[i].refs == 1 && !ch.fault
    requires var p := ch.nodes[i].prev; p.At? ==> Live(ch, p.i) && p.i != i
    requires var n := ch.nodes[i].next; n.At? ==> Live(ch, n.i) && n.i != i
    ensures var r := Unlink(ch, i); var p := ch.nodes[i].prev; var n := ch.nodes[i].next;
            && !r.fault && |r.nodes| == |ch.nodes|
            && r.lastQuery == ch.lastQuery && r.registered == ch.registered
            && r.first == (if ch.first == At(i) then n else ch.first)
            && r.last == (if ch.last == At(i) then p else ch.last)
            && r.nodes[i] == Node(ch.nodes[i].kind, Null, Null, 0, true)
            && forall k: nat :: k < |ch.nodes| && k != i ==>
                 r.nodes[k] == ch.nodes[k].(next := if At(k) == p then n else ch.nodes[k].next,
                                            prev := if At(k) == n then p else ch.nodes[k].prev)
  {
    BypassEffect(ch, i);
    var b := Bypass(ch, i);
    assert b.nodes[i] == ch.nodes[i];
  }

  /** Unlinking a live packet that is referenced once takes it, and nothing else, out of the
      list, frees it, and touches no freed packet. */
  lemma UnlinkKeepsShape(ch: Chain, i: nat)
    requires Shape(ch) && Live(ch, i) && ch.nodes[i].refs == 1 && !ch.fault
    ensures var r := Unlink(ch, i);
            && Shape(r) && !r.fault && |r.nodes| == |ch.nodes|
            && r.lastQuery == ch.lastQuery && r.registered == ch.registered
            && r.nodes[i].freed && r.nodes[i].refs == 0 && r.nodes[i].kind == ch.nodes[i].kind
            && forall k: nat :: k < |ch.nodes| && k != i ==>
                 && r.nodes[k].freed == ch.nodes[k].freed
                 && r.nodes[k].refs == ch.nodes[k].refs
                 && r.nodes[k].kind == ch.nodes[k].kind
  {
    var p, n := ch.nodes[i].prev, ch.nodes[i].next;
    assert NearestAfter(ch, i, n) && NearestBefore(ch, i, p);
    UnlinkEffect(ch, i);
    ShapeWithout(ch, Unlink(ch, i), i);
  }

  /** The same packets are live in `r` as in `ch`, except packet `i`. */
  ghost predicate Drops(ch: Chain, r: Chain, i: nat) {
    && |r.nodes| == |ch.nodes|
    && forall k: nat :: Live(r, k) <==> Live(ch, k) && k != i
  }

  lemma AfterWithout(ch: Chain, r: Chain, i: nat, n: Ptr, lo: int, p: Ptr)
    requires Drops(ch, r, i) && Live(ch, i) && NearestAfter(ch, i, n)
    requires NearestAfter(ch, lo, p) && lo != i
    ensures NearestAfter(r, lo, if p == At(i) then n else p)
  {
    if p == At(i) && n.At? {
      forall k: nat | lo < k < n.i ensures !Live(r, k) {
        assert k < i || k == i || i < k;
      }
    } else if p == At(i) {
      forall k: nat | lo < k < |r.nodes| ensures !Live(r, k) {
        assert k < i || k == i || i < k;
      }
    }
  }

  lemma BeforeWithout(ch: Chain, r: Chain, i: nat, p: Ptr, hi: nat, q: Ptr)
    requires Drops(ch, r, i) && Live(ch, i) && NearestBefore(ch, i, p)
    requires NearestBefore(ch, hi, q) && hi != i
    ensures NearestBefore(r, hi, if q == At(i) then p else q)
  {
    if q == At(i) && p.At? {
      forall k: nat | p.i < k < hi ensures !Live(r, k) {
        assert k < i || k == i || i < k;
      }
    } else if q == At(i) {
      forall k: nat | k < hi ensures !Live(r, k) {
        assert k < i || k == i || i < k;
      }
    }
  }

  /** Neighbours point at each other. */
  lemma Mutual(ch: Chain, i: nat, k: nat)
    requires Shape(ch) && Live(ch, i) && Live(ch, k)
    ensures ch.nodes[i].prev == At(k) <==> ch.nodes[k].next == At(i)
  {
    assert NearestBefore(ch, i, ch.nodes[i].prev);
    assert NearestAfter(ch, k, ch.nodes[k].next);
  }

  /** Bypassing packet `i` in both directions keeps the shape. */
  lemma ShapeWithout(ch: Chain, r: Chain, i: nat)
    requires Shape(ch) && Live(ch, i) && Drops(ch, r, i)
    requires r.first == (if ch.first == At(i) then ch.nodes[i].next else ch.first)
    requires r.last == (if ch.last == At(i) then ch.nodes[i].prev else ch.last)
    requires forall k: nat :: k < |ch.nodes| && k != i ==>
               && r.nodes[k].next == (if At(k) == ch.nodes[i].prev then ch.nodes[i].next else ch.nodes[k].next)
               && r.nodes[k].prev == (if At(k) == ch.nodes[i].next then ch.nodes[i].prev else ch.nodes[k].prev)
    ensures Shape(r)
  {
    var p, n := ch.nodes[i].prev, ch.nodes[i].next;
    AfterWithout(ch, r, i, n, -1, ch.first);
    BeforeWithout(ch, r, i, p, |ch.nodes|, ch.last);
    forall k: nat | Live(r, k) ensures NearestAfter(r, k, r.nodes[k].next) {
      AfterWithout(ch, r, i, n, k, ch.nodes[k].next);
      Mutual(ch, i, k);
    }
    forall k: nat | Live(r, k) ensures NearestBefore(r, k, r.nodes[k].prev) {
      BeforeWithout(ch, r, i, p, k, ch.nodes[k].prev);
      Mutual(ch, k, i);
    }
  }

  lemma LinkEffect(ch: Chain, k: Kind)
    requires !ch.fault && (ch.first.Null? <==> ch.last.Null?)
    requires ch.last.At? ==> Live(ch, ch.last.i)
    ensures var r := Link(ch, k); var n := |ch.nodes|;
            && !r.fault && |r.nodes| == n + 1
            && r.lastQuery == ch.lastQuery && r.registered == ch.registered
            && r.first == (if ch.first.Null? then At(n) else ch.first) && r.last == At(n)
            && r.nodes[n] == Node(k, Null, ch.last, 1, false)
            && forall j: nat :: j < n ==>
                 r.nodes[j] == ch.nodes[j].(next := if At(j) == ch.last then At(n) else ch.nodes[j].next)
  {
    var n := |ch.nodes|;
    var c1 := MarkRef(ch.(nodes := ch.nodes + [Node(k, Null, Null, 0, false)]), n);
    assert !c1.fault && c1.nodes[n] == Node(k, Null, Null, 1, false);
  }

  /** Linking keeps the shape and adds one live packet, referenced once, at the end. */
  lemma LinkKeepsShape(ch: Chain, k: Kind)
    requires Shape(ch) && !ch.fault
    ensures var r := Link(ch, k); var n := |ch.nodes|;
            && Shape(r) && !r.fault && |r.nodes| == n + 1
            && r.lastQuery == ch.lastQuery && r.registered == ch.registered
            && !r.nodes[n].freed && r.nodes[n].refs == 1 && r.nodes[n].kind == k
            && forall j: nat :: j < n ==>
                 && r.nodes[j].freed == ch.nodes[j].freed
                 && r.nodes[j].refs == ch.nodes[j].refs
                 && r.nodes[j].kind == ch.nodes[j].kind
                 && r.nodes[j].next == if At(j) == ch.last then At(n) else ch.nodes[j].next
  {
    var r := Link(ch, k);
    var n := |ch.nodes|;
    assert ch.first.Null? <==> ch.last.Null?;
    LinkEffect(ch, k);
    forall j: nat ensures Live(r, j) <==> Live(ch, j) || j == n { }
    forall j: nat | Live(r, j)
      ensures NearestAfter(r, j, r.nodes[j].next) && NearestBefore(r, j, r.nodes[j].prev)
    {
      if j < n {
        assert NearestAfter(ch, j, ch.nodes[j].next) && NearestBefore(ch, j, ch.nodes[j].prev);
        assert r.nodes[j].prev == ch.nodes[j].prev;
        assert r.nodes[j].next == if ch.last == At(j) then At(n) else ch.nodes[j].next;
      }
    }
  }
}
