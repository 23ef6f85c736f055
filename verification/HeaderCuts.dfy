/** Which ways of cutting a stream into segments are harmless, read off the bytes of the stream and the
    places of the cuts alone. */
module HeaderCuts {
  import opened Wrappers
  import opened Reassembly
  import opened Segmentation

  // ---------------------------------------------------------------- the condition

  /** For each byte of the stream, whether a segment begins with it. */
  function Marks(segs: seq<Segment>): (marks: seq<bool>)
    ensures |marks| == |Flatten(segs)|
  {
    if segs == [] then [] else seq(|segs[0].bytes|, i => i == 0) + Marks(segs[1..])
  }

  /** A header `b`, with cuts in front of its second, third and fourth byte or not, keeps its length.
      `g` is the header before it, which `pkt_hdr` still holds: its bytes show where the pieces of `b`
      leave `pkt_hdr` as it was. */
  predicate Survives(g: seq<byte>, b: seq<byte>, cut1: bool, cut2: bool, cut3: bool)
    requires |g| == 4 && |b| == 4
  {
    if cut3 then
      b[0] == b[3] && if cut2 then b[2] == g[2] && (cut1 ==> b[1] == g[1]) else cut1 ==> b[1] == b[2] == g[2]
    else if cut2 then b[0] == b[2] == g[2] && b[1] == b[3]
    else cut1 ==> b[0] == b[1] == b[2] == b[3]
  }

  /** Frame after frame, every header survives. */
  predicate Harmless(items: seq<Item>, marks: seq<bool>, g: seq<byte>)
    requires |marks| == |items| && |g| == 4
    decreases |items|
  {
    |items| < 4 ||
    (var b := Bytes(items[..4]);
     var len := HeaderLen(b);
     && Survives(g, b, marks[1], marks[2], marks[3])
     && (len == 0 || |items| < 4 + len || Harmless(items[4 + len..], marks[4 + len..], b)))
  }

  // ---------------------------------------------------------------- the machine on a marked stream

  /** The source, byte by byte: at the beginning of a segment header bytes go to the start of `pkt_hdr`. */
  function FeedMarked(a: Asm, items: seq<Item>, marks: seq<bool>): (r: Asm)
    requires AsmOk(a) && |marks| == |items|
    ensures AsmOk(r)
    decreases |items|
  {
    if items == [] then a
    else FeedMarked(FeedByte(if marks[0] then a.(hpos := 0) else a, items[0]), items[1..], marks[1..])
  }

  lemma {:induction false} MarkedConcat(a: Asm, x: seq<Item>, m: seq<bool>, y: seq<Item>, n: seq<bool>)
    requires AsmOk(a) && |m| == |x| && |n| == |y|
    ensures FeedMarked(a, x + y, m + n) == FeedMarked(FeedMarked(a, x, m), y, n)
    decreases |x|
  {
    hide FeedByte;
    if x == [] {
      assert x + y == y && m + n == n;
    } else {
      assert (x + y)[1..] == x[1..] + y && (m + n)[1..] == m[1..] + n;
      MarkedConcat(FeedByte(if m[0] then a.(hpos := 0) else a, x[0]), x[1..], m[1..], y, n);
    }
  }

  lemma SplitMarked(a: Asm, x: seq<Item>, m: seq<bool>, n: nat)
    requires AsmOk(a) && |m| == |x| && n <= |x|
    ensures FeedMarked(a, x, m) == FeedMarked(FeedMarked(a, x[..n], m[..n]), x[n..], m[n..])
  {
    assert x == x[..n] + x[n..] && m == m[..n] + m[n..];
    MarkedConcat(a, x[..n], m[..n], x[n..], m[n..]);
  }

  lemma {:induction false} UnmarkedIsFeed(a: Asm, x: seq<Item>, m: seq<bool>)
    requires AsmOk(a) && |m| == |x| && forall k :: 0 <= k < |m| ==> !m[k]
    ensures FeedMarked(a, x, m) == Feed(a, x)
    decreases |x|
  {
    hide FeedByte;
    if x != [] {
      UnmarkedIsFeed(FeedByte(a, x[0]), x[1..], m[1..]);
    }
  }

  /** Segment by segment or byte by byte, it is the same machine. */
  lemma {:induction false} SegmentsAreMarked(a: Asm, b: Asm, segs: seq<Segment>)
    requires AsmOk(a) && AsmOk(b) && a.(hpos := 0) == b.(hpos := 0)
    ensures FeedSegments(a, segs).(hpos := 0) == FeedMarked(b, Flatten(segs), Marks(segs)).(hpos := 0)
    decreases |segs|
  {
    hide FeedByte;
    if segs != [] {
      var s, rest := segs[0], segs[1..];
      var m := seq(|s.bytes|, i => i == 0);
      MarkedConcat(b, Items(s), m, Flatten(rest), Marks(rest));
      if s.bytes == [] {
        SegmentsAreMarked(FeedSegment(a, s), b, rest);
      } else {
        UnmarkedIsFeed(FeedByte(b.(hpos := 0), Items(s)[0]), Items(s)[1..], m[1..]);
        SegmentsAreMarked(FeedSegment(a, s), FeedSegment(a, s), rest);
      }
    }
  }

  // ---------------------------------------------------------------- one frame

  /** `pkt_hdr` after the bytes of a header, each stored behind the one before it or, when a segment begins
      with it, at the start. */
  function Collected(h: seq<byte>, pos: nat, b: seq<byte>, marks: seq<bool>): (r: seq<byte>)
    requires |marks| == |b| && pos + |b| <= |h|
    ensures |r| == |h|
    decreases |b|
  {
    if b == [] then h
    else
      var p := if marks[0] then 0 else pos;
      Collected(h[p := b[0]], p + 1, b[1..], marks[1..])
  }

  lemma CollectedCons(h: seq<byte>, pos: nat, x: byte, b: seq<byte>, m: bool, marks: seq<bool>)
    requires |marks| == |b| && pos + 1 + |b| <= |h|
    ensures var p := if m then 0 else pos;
            Collected(h, pos, [x] + b, [m] + marks) == Collected(h[p := x], p + 1, b, marks)
  {
    assert ([x] + b)[1..] == b && ([m] + marks)[1..] == marks;
  }

  lemma CollectedNone(h: seq<byte>, pos: nat)
    requires pos <= |h|
    ensures Collected(h, pos, [], []) == h
  {}

  lemma CollectedAt(h: seq<byte>, pos: nat, b: seq<byte>, m: seq<bool>, k: nat)
    requires |m| == |b| && k < |b| && pos + |b| - k <= |h|
    ensures var p := if m[k] then 0 else pos;
            Collected(h, pos, b[k..], m[k..]) == Collected(h[p := b[k]], p + 1, b[k + 1..], m[k + 1..])
  {
    assert b[k..][1..] == b[k + 1..] && m[k..][1..] == m[k + 1..];
  }

  lemma LastTwo(h: seq<byte>, pos: nat, b: seq<byte>, m: seq<bool>)
    requires |h| == 4 && |b| == 4 && |m| == 4 && 1 <= pos <= 2
    ensures var r := Collected(h, pos, b[2..], m[2..]);
            && r[0] == (if m[3] then b[3] else if m[2] then b[2] else h[0])
            && r[1] == (if m[2] && !m[3] then b[3] else if pos == 1 && !m[2] then b[2] else h[1])
            && r[2] == (if pos == 1 && !m[2] && !m[3] then b[3] else if pos == 2 && !m[2] then b[2] else h[2])
  {
    hide Collected;
    var p := if m[2] then 0 else pos;
    var h1 := h[p := b[2]];
    var q := if m[3] then 0 else p + 1;
    CollectedAt(h, pos, b, m, 2);
    CollectedAt(h1, p + 1, b, m, 3);
    assert b[4..] == [] && m[4..] == [];
    CollectedNone(h1[q := b[3]], q + 1);
  }

  lemma CollectedFour(h: seq<byte>, b: seq<byte>, m: seq<bool>)
    requires |h| == 4 && |b| == 4 && |m| == 4
    ensures var r := Collected(h, 0, b, m);
            && r[0] == (if m[3] then b[3] else if m[2] then b[2] else if m[1] then b[1] else b[0])
            && r[1] == (if m[2] && !m[3] then b[3] else if m[1] && !m[2] then b[2] else if m[1] then h[1] else b[1])
            && r[2] == (if m[1] && !m[2] && !m[3] then b[3] else if !m[1] && !m[2] then b[2] else h[2])
  {
    hide Collected;
    var h1 := h[0 := b[0]];
    var p := if m[1] then 0 else 1;
    assert b[0..] == b && m[0..] == m;
    CollectedAt(h, 0, b, m, 0);
    CollectedAt(h1, 1, b, m, 1);
    LastTwo(h1[p := b[1]], p + 1, b, m);
  }

  lemma CollectedSurvives(h: seq<byte>, g: seq<byte>, b: seq<byte>, m: seq<bool>)
    requires |h| == 4 && |g| == 4 && |b| == 4 && |m| == 4 && h[1] == g[1] && h[2] == g[2]
    ensures var r := Collected(h, 0, b, m);
            && (HeaderLen(r) == HeaderLen(b) <==> Survives(g, b, m[1], m[2], m[3]))
            && (HeaderLen(r) == HeaderLen(b) ==> r[1] == b[1] && r[2] == b[2])
  {
    hide HeaderLen, Collected;
    CollectedFour(h, b, m);
    SameLength(Collected(h, 0, b, m), b);
  }

  lemma MarkedByte(a: Asm, mark: bool, x: Item)
    requires AsmOk(a) && a.open.None? && !a.zero
    ensures var p := if mark then 0 else a.hpos; var hdr := a.hdr[p := x.b];
            FeedByte(if mark then a.(hpos := 0) else a, x) ==
              if a.hlen < 3 then a.(hdr := hdr, hlen := a.hlen + 1, hpos := p + 1) else OpenPacket(a, hdr, x)
  {
    hide FeedByte, OpenPacket;
    var b := if mark then a.(hpos := 0) else a;
    HeaderByte(b, x);
    OpenIgnores(a, b, a.hdr[b.hpos := x.b], x);
  }

  lemma {:induction false} MarkedHeader(a: Asm, x: seq<Item>, m: seq<bool>)
    requires AsmOk(a) && a.open.None? && !a.zero && |m| == |x| > 0 && a.hlen + |x| == 4
    ensures FeedMarked(a, x, m) == OpenPacket(a, Collected(a.hdr, a.hpos, Bytes(x), m), x[|x| - 1])
    decreases |x|
  {
    hide FeedByte, OpenPacket, Collected;
    BytesCons(x);
    assert m == [m[0]] + m[1..];
    CollectedCons(a.hdr, a.hpos, x[0].b, Bytes(x[1..]), m[0], m[1..]);
    MarkedByte(a, m[0], x[0]);
    var p := if m[0] then 0 else a.hpos;
    var hdr := a.hdr[p := x[0].b];
    if |x| == 1 {
      CollectedNone(hdr, p + 1);
      assert Bytes(x[1..]) == [] && m[1..] == [];
    } else {
      var b := a.(hdr := hdr, hlen := a.hlen + 1, hpos := p + 1);
      MarkedHeader(b, x[1..], m[1..]);
      OpenIgnores(a, b, Collected(a.hdr, a.hpos, Bytes(x), m), x[|x| - 1]);
    }
  }

  lemma NothingMarked(a: Asm, x: seq<Item>, m: seq<bool>)
    requires AsmOk(a) && x == [] && m == []
    ensures FeedMarked(a, x, m) == a
  {}

  lemma {:induction false} ShortHeader(a: Asm, x: seq<Item>, m: seq<bool>)
    requires AsmOk(a) && a.open.None? && !a.zero && |m| == |x| && a.hlen + |x| < 4
    ensures var r := FeedMarked(a, x, m); r.log == a.log && r.open.None? && !r.zero && r.hlen == a.hlen + |x|
    decreases |x|
  {
    hide FeedByte;
    if x != [] {
      MarkedByte(a, m[0], x[0]);
      ShortHeader(FeedByte(if m[0] then a.(hpos := 0) else a, x[0]), x[1..], m[1..]);
    }
  }

  /** Cuts inside a payload make no difference. */
  lemma {:induction false} MarkedPayload(a: Asm, x: seq<Item>, m: seq<bool>)
    requires AsmOk(a) && a.open.Some? && !a.zero && a.hpos == 0 && |m| == |x|
    requires |a.open.value.got| + |x| <= a.open.value.len
    ensures FeedMarked(a, x, m) == Feed(a, x)
    decreases |x|
  {
    if x != [] {
      assert a.(hpos := 0) == a;
      if |x| == 1 {
        assert x[1..] == [] && m[1..] == [];
      } else {
        MarkedPayload(FeedByte(a, x[0]), x[1..], m[1..]);
      }
    }
  }

  lemma {:induction false} MarkedStuck(a: Asm, x: seq<Item>, m: seq<bool>)
    requires AsmOk(a) && a.zero && |m| == |x|
    ensures FeedMarked(a, x, m).(hpos := 0) == a.(hpos := 0)
    decreases |x|
  {
    if x != [] {
      MarkedStuck(if m[0] then a.(hpos := 0) else a, x[1..], m[1..]);
    }
  }

  lemma {:induction false} PacketHasMarked(a: Asm, k: nat, len: nat, x: seq<Item>, m: seq<bool>)
    requires AsmOk(a) && PacketHas(a, k, len) && |m| == |x|
    ensures PacketHas(FeedMarked(a, x, m), k, len)
    decreases |x|
  {
    hide FeedByte, PacketHas;
    if x != [] {
      var b := if m[0] then a.(hpos := 0) else a;
      PacketHasNext(a, b, k, len, x[0]);
      PacketHasMarked(FeedByte(b, x[0]), k, len, x[1..], m[1..]);
    }
  }

  lemma PacketHasNext(a: Asm, b: Asm, k: nat, len: nat, x: Item)
    requires AsmOk(a) && AsmOk(b) && PacketHas(a, k, len) && a.(hpos := 0) == b.(hpos := 0)
    ensures PacketHas(FeedByte(b, x), k, len)
  {
    hide FeedByte;
    assert Feed(b, [x]) == FeedByte(b, x) by {
      assert [x][1..] == [];
    }
    PacketHasForever(b, k, len, [x]);
  }

  // ---------------------------------------------------------------- all frames

  /** The source and the uncut stream, both between two packets: they agree in the end exactly when every
      header to come survives. */
  lemma {:induction false} MarkedExactly(c: Asm, i: Asm, items: seq<Item>, marks: seq<bool>, g: seq<byte>)
    requires AtBoundary(c) && AtBoundary(i) && c.log == i.log && |marks| == |items|
    requires |g| == 4 && c.hdr[1] == g[1] && c.hdr[2] == g[2]
    ensures Twin(FeedMarked(c, items, marks), Feed(i, items)) <==> Harmless(items, marks, g)
    decreases |items|
  {
    hide HeaderLen, FeedByte, FeedMarked, Feed, Survives, Collected;
    if |items| < 4 {
      ShortHeader(c, items, marks);
      if items == [] {
        NothingMarked(i, [], []);
        UnmarkedIsFeed(i, [], []);
      } else {
        FeedHeader(i, items);
      }
    } else {
      var head, tail := items[..4], items[4..];
      SplitMarked(c, items, marks, 4);
      SplitFeed(i, items, 4);
      MarkedHeader(c, head, marks[..4]);
      HeaderAtBoundary(i, head);
      var h := Collected(c.hdr, 0, Bytes(head), marks[..4]);
      CollectedSurvives(c.hdr, g, Bytes(head), marks[..4]);
      FrameExactly(c, i, h, items, marks, g);
    }
  }

  /** Behind a header. */
  lemma {:induction false} FrameExactly(c: Asm, i: Asm, h: seq<byte>, items: seq<Item>, marks: seq<bool>, g: seq<byte>)
    requires AtBoundary(c) && AtBoundary(i) && c.log == i.log && |marks| == |items| >= 4
    requires |g| == 4 && |h| == 4
    requires var b := Bytes(items[..4]);
             && (HeaderLen(h) == HeaderLen(b) <==> Survives(g, b, marks[1], marks[2], marks[3]))
             && (HeaderLen(h) == HeaderLen(b) ==> h[1] == b[1] && h[2] == b[2])
    ensures var c1, i1 := OpenPacket(c, h, items[3]), OpenPacket(i, Bytes(items[..4]), items[3]);
            Twin(FeedMarked(c1, items[4..], marks[4..]), Feed(i1, items[4..])) <==> Harmless(items, marks, g)
    decreases |items|, 0
  {
    hide HeaderLen, FeedByte, FeedMarked, Feed, Survives;
    var b := Bytes(items[..4]);
    var len := HeaderLen(b);
    var c1, i1 := OpenPacket(c, h, items[3]), OpenPacket(i, b, items[3]);
    var tail, rest := items[4..], marks[4..];
    if HeaderLen(h) != len {
      PacketHasMarked(c1, |c.log|, HeaderLen(h), tail, rest);
      PacketHasForever(i1, |c.log|, len, tail);
    } else if len == 0 {
      MarkedStuck(c1, tail, rest);
      FeedStuck(i1, tail);
    } else if |tail| < len {
      MarkedPayload(c1, tail, rest);
      FeedPayload(c1, tail);
      FeedPayload(i1, tail);
    } else {
      SplitMarked(c1, tail, rest, len);
      SplitFeed(i1, tail, len);
      MarkedPayload(c1, tail[..len], rest[..len]);
      FeedPayload(c1, tail[..len]);
      FeedPayload(i1, tail[..len]);
      assert tail[len..] == items[4 + len..] && rest[len..] == marks[4 + len..];
      MarkedExactly(Feed(c1, tail[..len]), Feed(i1, tail[..len]), tail[len..], rest[len..], b);
    }
  }

  /** Segmentation independence as a condition on the stream and the cuts: the source has found the same
      packets, and stands at the same place, as if the stream had arrived uncut, if and only if frame after
      frame the bytes of each header that is cut repeat each other, or the header before it, where the
      cuts make them overwrite each other. */
  lemma CutsAreHarmlessExactly(hdr: seq<byte>, segs: seq<Segment>)
    requires |hdr| == 4
    ensures Twin(FeedSegments(Start(hdr), segs), Feed(Start(hdr), Flatten(segs)))
            <==> Harmless(Flatten(segs), Marks(segs), hdr)
    ensures HeadersSurvive(Start(hdr), Start(hdr), segs) <==> Harmless(Flatten(segs), Marks(segs), hdr)
  {
    hide Harmless, FeedMarked, Feed, FeedSegments, HeadersSurvive, Marks, Flatten;
    var a := Start(hdr);
    SegmentsAreMarked(a, a, segs);
    MarkedExactly(a, a, Flatten(segs), Marks(segs), hdr);
    SegmentationExact(a, a, segs);
  }
}
