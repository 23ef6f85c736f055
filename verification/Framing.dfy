/** From messages to bytes and back: what a peer writes, and what the capture path makes of it. */
module Framing {
  import opened Wrappers
  import opened Reassembly
  import opened Segmentation
  import opened HeaderCuts

  /** A message as its sender frames it; `number` is the sequence byte of the header. */
  datatype Message = Message(inbound: bool, number: byte, payload: seq<byte>)

  predicate Framable(m: Message) { 0 < |m.payload| < 0x100_0000 }

  /** The header of a payload of `n` bytes: the length in three bytes, low byte first, and the number. */
  function HeaderOf(n: nat, number: byte): seq<byte>
    requires n < 0x100_0000
  {
    [n % 256, n / 256 % 256, n / 65536, number]
  }

  /** A header declares the length it was written with, and is the only one to declare it. */
  lemma HeaderDeclares(n: nat, number: byte, h: seq<byte>)
    requires n < 0x100_0000 && |h| == 4
    ensures HeaderLen(h) == n && h[3] == number <==> h == HeaderOf(n, number)
  {
    var w := HeaderOf(n, number);
    assert n / 256 == n / 65536 * 256 + n / 256 % 256;
    assert n == n / 256 * 256 + n % 256;
    assert HeaderLen(w) == n;
    if HeaderLen(h) == n {
      SameLength(h, w);
    }
  }

  function Frame(m: Message): (bs: seq<byte>)
    requires Framable(m)
    ensures |bs| == 4 + |m.payload|
  {
    HeaderOf(|m.payload|, m.number) + m.payload
  }

  predicate AllFramable(ms: seq<Message>) { forall k :: 0 <= k < |ms| ==> Framable(ms[k]) }

  /** `items` are the frames of `ms`, each byte in the direction of its message and at any time. */
  predicate Carries(items: seq<Item>, ms: seq<Message>)
    requires AllFramable(ms)
    decreases |ms|
  {
    if ms == [] then items == []
    else
      var n := 4 + |ms[0].payload|;
      && n <= |items| && Bytes(items[..n]) == Frame(ms[0])
      && (forall k :: 0 <= k < n ==> items[k].inbound == ms[0].inbound)
      && Carries(items[n..], ms[1..])
  }

  /** The packet of message `k`. Its time is that of the last byte of its header. */
  function Packets(items: seq<Item>, ms: seq<Message>): (ps: seq<Pkt>)
    requires AllFramable(ms) && Carries(items, ms)
    ensures |ps| == |ms|
    ensures forall k :: 0 <= k < |ps| ==> ps[k].inbound == ms[k].inbound && ps[k].data == ms[k].payload
    decreases |ms|
  {
    if ms == [] then []
    else [Pkt(ms[0].inbound, ms[0].payload, items[3].ts)] + Packets(items[4 + |ms[0].payload|..], ms[1..])
  }

  lemma OneMessage(a: Asm, items: seq<Item>, m: Message)
    requires AtBoundary(a) && Framable(m) && |items| == 4 + |m.payload| && Bytes(items) == Frame(m)
    requires forall k :: 0 <= k < |items| ==> items[k].inbound == m.inbound
    ensures var r := Feed(a, items); AtBoundary(r) && r.log == a.log + [Pkt(m.inbound, m.payload, items[3].ts)]
  {
    hide HeaderLen, FeedByte, Feed;
    var head, rest := items[..4], items[4..];
    var h := HeaderOf(|m.payload|, m.number);
    assert Bytes(head) == Frame(m)[..4] == h;
    assert Bytes(rest) == Frame(m)[4..] == m.payload;
    HeaderDeclares(|m.payload|, m.number, h);
    SplitFeed(a, items, 4);
    HeaderAtBoundary(a, head);
    FeedPayload(OpenPacket(a, h, items[3]), rest);
    assert [] + m.payload == m.payload;
  }

  /** The messages are found, whatever their lengths, numbers and times, and the machine stands between two
      packets again. */
  lemma {:induction false} MessagesAreFound(a: Asm, items: seq<Item>, ms: seq<Message>)
    requires AtBoundary(a) && AllFramable(ms) && Carries(items, ms)
    ensures var r := Feed(a, items); AtBoundary(r) && r.log == a.log + Packets(items, ms)
    decreases |ms|
  {
    hide Feed, Frame, Bytes;
    if ms == [] {
      FeedNothing(a);
      assert a.log + [] == a.log;
    } else {
      var n := 4 + |ms[0].payload|;
      var first := [Pkt(ms[0].inbound, ms[0].payload, items[3].ts)];
      SplitFeed(a, items, n);
      OneMessage(a, items[..n], ms[0]);
      MessagesAreFound(Feed(a, items[..n]), items[n..], ms[1..]);
      assert a.log + first + Packets(items[n..], ms[1..]) == a.log + (first + Packets(items[n..], ms[1..]));
    }
  }

  lemma FeedNothing(a: Asm)
    requires AsmOk(a)
    ensures Feed(a, []) == a
  {}

  /** So they are when they come in segments, as long as the cuts are harmless. */
  lemma CutMessagesAreFound(hdr: seq<byte>, segs: seq<Segment>, ms: seq<Message>)
    requires |hdr| == 4 && AllFramable(ms) && Carries(Flatten(segs), ms)
    requires Harmless(Flatten(segs), Marks(segs), hdr)
    ensures var r := FeedSegments(Start(hdr), segs);
            r.log == Packets(Flatten(segs), ms) && r.open.None? && r.hlen == 0 && !r.zero
  {
    hide Harmless, Carries, Feed, FeedSegments, Flatten, Packets;
    CutsAreHarmlessExactly(hdr, segs);
    MessagesAreFound(Start(hdr), Flatten(segs), ms);
    assert [] + Packets(Flatten(segs), ms) == Packets(Flatten(segs), ms);
  }
}
