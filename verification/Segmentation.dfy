/** Cutting a byte stream into segments differently does not change the packets found in it,
    exactly as long as the headers that a cut runs through survive the source's way of
    collecting them. */
module Segmentation {
  import opened Wrappers
  import opened Reassembly

  // ---------------------------------------------------------------- the stream parsed as a whole

  /** The packets of a stream read frame by frame: a four-byte header holding the payload length
      in its first three bytes, then the payload. Reading stops at a length of zero or when the
      stream ends inside a frame. */
  function Frames(items: seq<Item>): seq<Pkt>
    decreases |items|
  {
    if |items| < 4 then []
    else
      var len := HeaderLen(Bytes(items[..4]));
      if len == 0 || |items| < 4 + len then []
      else [Pkt(items[3].inbound, Bytes(items[4..4 + len]), items[3].ts)] + Frames(items[4 + len..])
  }

  /** Between two packets, nothing of the next header read. */
  predicate AtBoundary(a: Asm) {
    AsmOk(a) && a.open.None? && a.hlen == 0 && a.hpos == 0 && !a.zero
  }

  lemma HeaderAtBoundary(a: Asm, head: seq<Item>)
    requires AtBoundary(a) && |head| == 4
    ensures Feed(a, head) == OpenPacket(a, Bytes(head), head[3])
  {
    FeedHeader(a, head);
    assert Store(a.hdr, 0, Bytes(head)) == Bytes(head);
  }

  lemma SplitFeed(a: Asm, items: seq<Item>, n: nat)
    requires AsmOk(a) && n <= |items|
    ensures Feed(a, items) == Feed(Feed(a, items[..n]), items[n..])
  {
    assert items == items[..n] + items[n..];
    FeedConcat(a, items[..n], items[n..]);
  }

  /** Fed byte by byte, the machine completes exactly the frames of the stream. */
  lemma {:induction false} ByteByByteFindsFrames(a: Asm, items: seq<Item>)
    requires AtBoundary(a)
    ensures Feed(a, items).log == a.log + Frames(items)
    decreases |items|
  {
    hide HeaderLen, FeedByte;
    if items == [] {
      assert a.log + [] == a.log;
    } else if |items| < 4 {
      FeedHeader(a, items);
      assert a.log + [] == a.log;
    } else {
      SplitFeed(a, items, 4);
      HeaderAtBoundary(a, items[..4]);
      var b := Feed(a, items[..4]);
      hide Feed;
      FramesAfterHeader(a, b, items);
    }
  }

  lemma {:induction false} FramesAfterHeader(a: Asm, b: Asm, items: seq<Item>)
    requires AtBoundary(a) && |items| >= 4 && b == OpenPacket(a, Bytes(items[..4]), items[3])
    ensures Feed(b, items[4..]).log == a.log + Frames(items)
    decreases |items|, 0
  {
    hide HeaderLen, FeedByte, Feed;
    var len := HeaderLen(Bytes(items[..4]));
    var tail := items[4..];
    if len == 0 {
      FeedStuck(b, tail);
      assert a.log + [] == a.log;
    } else if |tail| < len {
      FeedPayload(b, tail);
      assert a.log + [] == a.log;
    } else {
      SplitFeed(b, tail, len);
      FeedPayload(b, tail[..len]);
      assert tail[..len] == items[4..4 + len] && tail[len..] == items[4 + len..];
      var c := Feed(b, tail[..len]);
      var p := Pkt(items[3].inbound, Bytes(tail[..len]), items[3].ts);
      assert [] + Bytes(tail[..len]) == Bytes(tail[..len]);
      assert c.log == a.log + [p];
      ByteByByteFindsFrames(c, tail[len..]);
      assert a.log + [p] + Frames(tail[len..]) == a.log + ([p] + Frames(tail[len..]));
    }
  }

  // ---------------------------------------------------------------- the source against one uncut stream

  function Flatten(segs: seq<Segment>): seq<Item> {
    if segs == [] then [] else Items(segs[0]) + Flatten(segs[1..])
  }

  /** The same packets found, the same packet being filled, the same number of header bytes read. */
  predicate Twin(c: Asm, i: Asm) {
    c.log == i.log && c.open == i.open && c.zero == i.zero && c.hlen == i.hlen
  }

  /** `c` is where the source is between two calls, `i` where one uncut stream would be. */
  predicate Pair(c: Asm, i: Asm) {
    AsmOk(c) && AsmOk(i) && Twin(c, i) && i.hpos == i.hlen
  }

  /** Twins whose header bytes agree too: from here on no byte can tell them apart. */
  predicate Same(c: Asm, i: Asm) {
    Pair(c, i) && c.hpos == c.hlen && c.hdr[..c.hlen] == i.hdr[..i.hlen]
  }

  /** When the segment completes a header that earlier segments began, the bytes that end up in
      `pkt_hdr`, where the source stores each piece from the start, still give the length that
      the header declares. */
  predicate HeaderSurvives(c: Asm, i: Asm, s: Segment)
    requires Pair(c, i)
  {
    !c.zero && c.hlen > 0 && c.hlen + |s.bytes| >= 4 ==>
      var piece := s.bytes[..4 - c.hlen];
      HeaderLen(Store(c.hdr, 0, piece)) == HeaderLen(Store(i.hdr, i.hlen, piece))
  }

  predicate HeadersSurvive(c: Asm, i: Asm, segs: seq<Segment>)
    requires Pair(c, i)
    decreases |segs|
  {
    segs == [] ||
    (HeaderSurvives(c, i, segs[0]) &&
     var c1 := FeedSegment(c, segs[0]);
     var i1 := Feed(i, Items(segs[0]));
     Pair(c1, i1) && HeadersSurvive(c1, i1, segs[1..]))
  }

  lemma SameStep(c: Asm, i: Asm, x: Item)
    requires Same(c, i)
    ensures Same(FeedByte(c, x), FeedByte(i, x))
  {
    if !c.zero && c.open.None? {
      var h, g := c.hdr[c.hpos := x.b], i.hdr[i.hpos := x.b];
      assert h[..c.hlen + 1] == c.hdr[..c.hlen] + [x.b];
      assert g[..c.hlen + 1] == i.hdr[..i.hlen] + [x.b];
      if c.hlen == 3 {
        assert h[..4] == h && g[..4] == g;
      }
    }
  }

  lemma {:induction false} SameForever(c: Asm, i: Asm, items: seq<Item>)
    requires Same(c, i)
    ensures Same(Feed(c, items), Feed(i, items))
    decreases |items|
  {
    if items != [] {
      hide FeedByte, Same;
      SameStep(c, i, items[0]);
      SameForever(FeedByte(c, items[0]), FeedByte(i, items[0]), items[1..]);
    }
  }

  /** Packet number `m` of the stream was given length `len` (0: it stopped the machine). */
  predicate PacketHas(a: Asm, m: nat, len: nat) {
    if len == 0 then a.zero && |a.log| == m
    else (!a.zero && a.open.Some? && |a.log| == m && a.open.value.len == len)
         || (|a.log| > m && |a.log[m].data| == len)
  }

  lemma {:induction false} PacketHasForever(a: Asm, m: nat, len: nat, items: seq<Item>)
    requires AsmOk(a) && PacketHas(a, m, len)
    ensures PacketHas(Feed(a, items), m, len)
    decreases |items|
  {
    if items != [] {
      hide HeaderLen;
      PacketHasForever(FeedByte(a, items[0]), m, len, items[1..]);
    }
  }

  lemma {:induction false} PacketHasOverSegments(a: Asm, m: nat, len: nat, segs: seq<Segment>)
    requires AsmOk(a) && PacketHas(a, m, len)
    ensures PacketHas(FeedSegments(a, segs), m, len)
    decreases |segs|
  {
    if segs != [] {
      PacketHasForever(a.(hpos := 0), m, len, Items(segs[0]));
      PacketHasOverSegments(FeedSegment(a, segs[0]), m, len, segs[1..]);
    }
  }

  lemma BytesOfPiece(s: Segment, n: nat)
    requires n <= |s.bytes|
    ensures Bytes(Items(s)[..n]) == s.bytes[..n]
  {
  }

  /** One segment after a cut header: the source and the uncut stream stay twins exactly when the
      header survives; otherwise they disagree about the length of the packet it opens. */
  lemma OneSegment(c: Asm, i: Asm, s: Segment)
    requires Pair(c, i)
    ensures var c1 := FeedSegment(c, s); var i1 := Feed(i, Items(s));
            && (HeaderSurvives(c, i, s) ==> Pair(c1, i1))
            && (!HeaderSurvives(c, i, s) ==>
                  exists len, other :: len != other && PacketHas(c1, |c.log|, len) && PacketHas(i1, |c.log|, other))
  {
    var items := Items(s);
    var c0 := c.(hpos := 0);
    if c.hlen == 0 {
      SameForever(c0, i, items);
    } else if c.zero {
      FeedStuck(c0, items);
      FeedStuck(i, items);
    } else if c.hlen + |items| < 4 {
      if items != [] {
        FeedHeader(c0, items);
        FeedHeader(i, items);
      }
    } else {
      CutHeaderEnds(c, i, s);
    }
  }

  /** The packet that a header of several pieces opens, in the source and in the uncut stream. */
  lemma CutHeaderOpens(c: Asm, i: Asm, s: Segment, n: nat)
    requires Pair(c, i) && c.hlen > 0 && !c.zero && n == 4 - c.hlen <= |s.bytes|
    ensures var items := Items(s); var x := items[n - 1];
            && FeedSegment(c, s) == Feed(OpenPacket(c, Store(c.hdr, 0, s.bytes[..n]), x), items[n..])
            && Feed(i, items) == Feed(OpenPacket(i, Store(i.hdr, i.hlen, s.bytes[..n]), x), items[n..])
  {
    hide HeaderLen, FeedByte, Store;
    var items := Items(s);
    var c0 := c.(hpos := 0);
    SplitFeed(c0, items, n);
    SplitFeed(i, items, n);
    BytesOfPiece(s, n);
    FeedHeader(c0, items[..n]);
    FeedHeader(i, items[..n]);
    hide Feed;
    OpenIgnores(c, c0, Store(c.hdr, 0, s.bytes[..n]), items[n - 1]);
  }

  lemma CutHeaderEnds(c: Asm, i: Asm, s: Segment)
    requires Pair(c, i) && c.hlen > 0 && !c.zero && c.hlen + |s.bytes| >= 4
    ensures var c1 := FeedSegment(c, s); var i1 := Feed(i, Items(s));
            && (HeaderSurvives(c, i, s) ==> Pair(c1, i1))
            && (!HeaderSurvives(c, i, s) ==>
                  exists len, other :: len != other && PacketHas(c1, |c.log|, len) && PacketHas(i1, |c.log|, other))
  {
    hide HeaderLen, FeedByte, Feed, FeedSegment;
    var n := 4 - c.hlen;
    CutHeaderOpens(c, i, s, n);
    var rest := Items(s)[n..];
    var hc, hi := Store(c.hdr, 0, s.bytes[..n]), Store(i.hdr, i.hlen, s.bytes[..n]);
    var cm, im := OpenPacket(c, hc, Items(s)[n - 1]), OpenPacket(i, hi, Items(s)[n - 1]);
    if HeaderSurvives(c, i, s) {
      assert HeaderLen(hc) == HeaderLen(hi) && cm.hdr[..0] == im.hdr[..0];
      SameForever(cm, im, rest);
    } else {
      var len, other := HeaderLen(hc), HeaderLen(hi);
      PacketHasForever(cm, |c.log|, len, rest);
      PacketHasForever(im, |c.log|, other, rest);
      assert len != other && PacketHas(FeedSegment(c, s), |c.log|, len) && PacketHas(Feed(i, Items(s)), |c.log|, other);
    }
  }

  lemma {:induction false} FlattenCons(segs: seq<Segment>, i: Asm)
    requires segs != [] && AsmOk(i)
    ensures Feed(i, Flatten(segs)) == Feed(Feed(i, Items(segs[0])), Flatten(segs[1..]))
  {
    FeedConcat(i, Items(segs[0]), Flatten(segs[1..]));
  }

  /** Segmentation independence, exactly: after any segments the source has found the same packets
      and is in the same state as if the stream had arrived uncut, if and only if every header
      that a cut runs through survives. */
  lemma {:induction false} SegmentationExact(c: Asm, i: Asm, segs: seq<Segment>)
    requires Pair(c, i)
    ensures Twin(FeedSegments(c, segs), Feed(i, Flatten(segs))) <==> HeadersSurvive(c, i, segs)
    decreases |segs|
  {
    if segs == [] {
    } else {
      hide FeedByte, HeaderSurvives, Feed;
      FlattenCons(segs, i);
      OneSegment(c, i, segs[0]);
      var c1, i1 := FeedSegment(c, segs[0]), Feed(i, Items(segs[0]));
      if HeaderSurvives(c, i, segs[0]) {
        SegmentationExact(c1, i1, segs[1..]);
      } else {
        var len, other :| len != other && PacketHas(c1, |c.log|, len) && PacketHas(i1, |c.log|, other);
        PacketHasOverSegments(c1, |c.log|, len, segs[1..]);
        PacketHasForever(i1, |c.log|, other, Flatten(segs[1..]));
      }
    }
  }

  // ---------------------------------------------------------------- consequences

  /** No segment but the last ends inside a header. */
  predicate NoHeaderCut(c: Asm, segs: seq<Segment>)
    requires AsmOk(c)
    decreases |segs|
  {
    |segs| <= 1 || (FeedSegment(c, segs[0]).hlen == 0 && NoHeaderCut(FeedSegment(c, segs[0]), segs[1..]))
  }

  /** A header that is cut once, behind `c.hlen` of its bytes, survives only as these bytes and what
      `pkt_hdr` held before have it. */
  lemma HeaderCutOnce(c: Asm, i: Asm, s: Segment)
    requires Pair(c, i) && !c.zero && c.hlen > 0 && c.hlen + |s.bytes| >= 4
    requires c.hdr[..c.hlen] == i.hdr[..i.hlen]
    ensures var b := i.hdr[..i.hlen] + s.bytes[..4 - i.hlen];
            HeaderSurvives(c, i, s) <==>
              if c.hlen == 1 then b[0] == b[1] == b[2] == b[3]
              else if c.hlen == 2 then b[0] == b[2] == c.hdr[2] && b[1] == b[3]
              else b[0] == b[3]
  {
    hide HeaderLen, Store;
    var piece := s.bytes[..4 - c.hlen];
    var b, h := i.hdr[..i.hlen] + piece, Store(c.hdr, 0, piece);
    StoredAt(i.hdr, i.hlen, piece);
    StoredAt(c.hdr, 0, piece);
    SameLength(h, Store(i.hdr, i.hlen, piece));
    assert Store(i.hdr, i.hlen, piece) == b;
    forall k | 0 <= k < c.hlen
      ensures c.hdr[k] == b[k]
    {
      assert c.hdr[k] == c.hdr[..c.hlen][k];
    }
    assert forall k :: 0 <= k < 4 ==> h[k] == if k < 4 - c.hlen then b[c.hlen + k] else c.hdr[k];
  }

  lemma StoredAt(hdr: seq<byte>, pos: nat, x: seq<byte>)
    requires pos + |x| <= |hdr|
    ensures forall k :: 0 <= k < |hdr| ==> Store(hdr, pos, x)[k] == if pos <= k < pos + |x| then x[k - pos] else hdr[k]
  {}

  lemma SameLength(x: seq<byte>, y: seq<byte>)
    requires |x| == 4 && |y| == 4
    ensures HeaderLen(x) == HeaderLen(y) <==> x[0] == y[0] && x[1] == y[1] && x[2] == y[2]
  {}

  /** Cuts outside headers are harmless. */
  lemma {:induction false} UncutHeadersSurvive(c: Asm, i: Asm, segs: seq<Segment>)
    requires Pair(c, i) && c.hlen == 0 && NoHeaderCut(c, segs)
    ensures HeadersSurvive(c, i, segs)
    decreases |segs|
  {
    if segs != [] {
      hide FeedByte;
      SameForever(c.(hpos := 0), i, Items(segs[0]));
      if |segs| > 1 {
        UncutHeadersSurvive(FeedSegment(c, segs[0]), Feed(i, Items(segs[0])), segs[1..]);
      }
    }
  }

  predicate SameBytes(x: seq<Item>, y: seq<Item>) {
    |x| == |y| && forall k :: 0 <= k < |x| ==> x[k].b == y[k].b && x[k].inbound == y[k].inbound
  }

  predicate LikePkt(p: Pkt, q: Pkt) {
    p.inbound == q.inbound && p.data == q.data
  }

  /** Equal up to the times, which depend on the segments. */
  predicate Like(a: Asm, b: Asm) {
    && a.hdr == b.hdr && a.hlen == b.hlen && a.hpos == b.hpos && a.zero == b.zero
    && |a.log| == |b.log| && (forall k :: 0 <= k < |a.log| ==> LikePkt(a.log[k], b.log[k]))
    && (a.open.Some? <==> b.open.Some?)
    && (a.open.Some? ==> b.open.value == a.open.value.(ts := b.open.value.ts))
  }

  lemma {:induction false} TimesDoNotMatter(a: Asm, b: Asm, x: seq<Item>, y: seq<Item>)
    requires AsmOk(a) && AsmOk(b) && Like(a, b) && SameBytes(x, y)
    ensures Like(Feed(a, x), Feed(b, y))
    decreases |x|
  {
    if x != [] {
      hide HeaderLen;
      TimesDoNotMatter(FeedByte(a, x[0]), FeedByte(b, y[0]), x[1..], y[1..]);
    }
  }

  /** Two ways to cut the same bytes, in both of which the headers survive, complete the same
      packets (length, payload and direction), leave the same packet being filled and the same
      number of header bytes read. The packets are the frames of the stream. */
  lemma SegmentationIndependence(hdr: seq<byte>, cut1: seq<Segment>, cut2: seq<Segment>)
    requires |hdr| == 4 && SameBytes(Flatten(cut1), Flatten(cut2))
    requires HeadersSurvive(Start(hdr), Start(hdr), cut1) && HeadersSurvive(Start(hdr), Start(hdr), cut2)
    ensures var a := FeedSegments(Start(hdr), cut1); var b := FeedSegments(Start(hdr), cut2);
            && |a.log| == |b.log| && (forall k :: 0 <= k < |a.log| ==> LikePkt(a.log[k], b.log[k]))
            && (a.open.Some? <==> b.open.Some?)
            && (a.open.Some? ==> b.open.value == a.open.value.(ts := b.open.value.ts))
            && a.hlen == b.hlen && a.zero == b.zero
            && a.log == Frames(Flatten(cut1)) && b.log == Frames(Flatten(cut2))
  {
    hide FeedByte, HeadersSurvive, HeaderLen;
    var s := Start(hdr);
    SegmentationExact(s, s, cut1);
    SegmentationExact(s, s, cut2);
    TimesDoNotMatter(s, s, Flatten(cut1), Flatten(cut2));
    ByteByByteFindsFrames(s, Flatten(cut1));
    ByteByByteFindsFrames(s, Flatten(cut2));
    assert [] + Frames(Flatten(cut1)) == Frames(Flatten(cut1));
    assert [] + Frames(Flatten(cut2)) == Frames(Flatten(cut2));
  }

  /** A cut after the first header byte loses the one-byte query 0x03, whatever `pkt_hdr` held:
      the second piece overwrites the length. */
  lemma HeaderCutLosesQuery(hdr: seq<byte>)
    requires |hdr| == 4
    ensures var cut := [Segment([1], true, 0), Segment([0, 0, 0, 3], true, 0)];
            && Frames(Flatten(cut)) == [Pkt(true, [3], 0)] && IsQuery(Pkt(true, [3], 0))
            && FeedSegments(Start(hdr), cut).log == []
            && !HeadersSurvive(Start(hdr), Start(hdr), cut)
  {
    var s1, s2 := Segment([1], true, 0), Segment([0, 0, 0, 3], true, 0);
    var cut := [s1, s2];
    assert cut[1..] == [s2] && [s2][1..] == [];
    assert Items(s1) == [Item(1, true, 0)];
    assert Items(s2) == [Item(0, true, 0), Item(0, true, 0), Item(0, true, 0), Item(3, true, 0)];
    var all := [Item(1, true, 0), Item(0, true, 0), Item(0, true, 0), Item(0, true, 0), Item(3, true, 0)];
    assert Flatten([s2]) == Items(s2) + [];
    assert Flatten(cut) == all;
    assert Bytes(all[..4]) == [1, 0, 0, 0] && Bytes(all[4..5]) == [3];
    assert all[5..] == [] && Frames(all) == [Pkt(true, [3], 0)] + Frames([]);
    var a := Start(hdr);
    var a1 := FeedSegment(a, s1);
    FeedHeader(a, Items(s1));
    assert Bytes(Items(s1)) == [1];
    var b := a1.(hpos := 0);
    FeedPieces(b, s2);
    SegmentationExact(a, a, cut);
    ByteByByteFindsFrames(a, all);
  }

  lemma FeedPieces(b: Asm, s2: Segment)
    requires AsmOk(b) && b.hlen == 1 && b.hpos == 0 && b.open.None? && !b.zero && b.log == []
    requires s2 == Segment([0, 0, 0, 3], true, 0)
    ensures Feed(b, Items(s2)).log == [] && Feed(b, Items(s2)).zero
  {
    SplitFeed(b, Items(s2), 3);
    FeedHeader(b, Items(s2)[..3]);
    BytesOfPiece(s2, 3);
    assert s2.bytes[..3] == [0, 0, 0];
    FeedStuck(Feed(b, Items(s2)[..3]), Items(s2)[3..]);
  }
}
