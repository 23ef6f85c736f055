/** What the capture path does to one TCP byte stream, on values: cutting it into MySQL packets
    byte by byte, and keeping the list of packets that matter. `Capture` proves that the source's
    loops and pointer writes compute exactly this. */
module Reassembly {
  import opened Wrappers
  import opened PacketChain

  type byte = x: int | 0 <= x < 256

  /** A complete packet: who sent it, its payload, and the time (in microseconds) of the
      segment that completed its header. */
  datatype Pkt = Pkt(inbound: bool, data: seq<byte>, ts: int)

  predicate IsQuery(p: Pkt) {
    |p.data| > 0 && p.data[0] == 3 && p.inbound
  }

  predicate IsEof(p: Pkt) {
    |p.data| > 0 && p.data[0] == 0xfe && !p.inbound
  }

  function KindOfPkt(p: Pkt): Kind {
    if IsQuery(p) then Query else if IsEof(p) then Eof else if p.inbound then Client else Server
  }

  // ---------------------------------------------------------------- cutting the byte stream

  /** The packet being filled. */
  datatype Open = Open(inbound: bool, ts: int, len: nat, got: seq<byte>)

  /** `hdr` is `pkt_hdr` and `hlen` is `cur_pkt_hdr_len`. `hpos` is where the next header byte
      is stored: the source always copies to the start of `pkt_hdr`, so it goes back to 0 at the
      start of each segment. `log` lists the packets completed so far. `zero` is set for good
      by a header of length zero, whose payload the source would read out of bounds. */
  datatype Asm = Asm(hdr: seq<byte>, hlen: nat, hpos: nat, open: Option<Open>, log: seq<Pkt>, zero: bool)

  predicate AsmOk(a: Asm) {
    && |a.hdr| == 4 && a.hlen < 4 && a.hpos <= a.hlen
    && (a.open.Some? ==> a.hlen == 0 && |a.open.value.got| < a.open.value.len)
  }

  function Start(hdr: seq<byte>): Asm {
    Asm(hdr, 0, 0, None, [], false)
  }

  /** `get_cur_pkt_len` */
  function HeaderLen(hdr: seq<byte>): nat
    requires |hdr| == 4
  {
    hdr[0] as int + (hdr[1] as int) * 256 + (hdr[2] as int) * 65536
  }

  /** One byte of the stream with the direction and time of the segment that carried it. */
  datatype Item = Item(b: byte, inbound: bool, ts: int)

  function Bytes(items: seq<Item>): (bs: seq<byte>)
    ensures |bs| == |items|
  {
    seq(|items|, k requires 0 <= k < |items| => items[k].b)
  }

  function FeedByte(a: Asm, x: Item): (r: Asm)
    requires AsmOk(a)
    ensures AsmOk(r)
  {
    if a.zero then a
    else if a.open.Some? then
      var o := a.open.value;
      var got := o.got + [x.b];
      if |got| == o.len then a.(open := None, log := a.log + [Pkt(o.inbound, got, o.ts)])
      else a.(open := Some(o.(got := got)))
    else
      var hdr := a.hdr[a.hpos := x.b];
      if a.hlen < 3 then a.(hdr := hdr, hlen := a.hlen + 1, hpos := a.hpos + 1)
      else OpenPacket(a, hdr, x)
  }

  /** The header is complete: the packet takes the direction and time of its last byte. */
  function OpenPacket(a: Asm, hdr: seq<byte>, x: Item): (r: Asm)
    requires AsmOk(a) && a.open.None? && |hdr| == 4
    ensures AsmOk(r)
  {
    var c := a.(hdr := hdr, hlen := 0, hpos := 0);
    if HeaderLen(hdr) == 0 then c.(zero := true)
    else c.(open := Some(Open(x.inbound, x.ts, HeaderLen(hdr), [])))
  }

  function Feed(a: Asm, items: seq<Item>): (r: Asm)
    requires AsmOk(a)
    ensures AsmOk(r)
    decreases |items|
  {
    if items == [] then a else Feed(FeedByte(a, items[0]), items[1..])
  }

  /** What one call of `append` receives. */
  datatype Segment = Segment(bytes: seq<byte>, inbound: bool, ts: int)

  function Items(s: Segment): (items: seq<Item>)
    ensures |items| == |s.bytes|
    ensures forall k :: 0 <= k < |items| ==> items[k] == Item(s.bytes[k], s.inbound, s.ts)
  {
    seq(|s.bytes|, k requires 0 <= k < |s.bytes| => Item(s.bytes[k], s.inbound, s.ts))
  }

  /** One call of `append`. */
  function FeedSegment(a: Asm, s: Segment): (r: Asm)
    requires AsmOk(a)
    ensures AsmOk(r)
  {
    Feed(a.(hpos := 0), Items(s))
  }

  function FeedSegments(a: Asm, segs: seq<Segment>): (r: Asm)
    requires AsmOk(a)
    ensures AsmOk(r)
    decreases |segs|
  {
    if segs == [] then a else FeedSegments(FeedSegment(a, segs[0]), segs[1..])
  }

  lemma {:induction false} FeedConcat(a: Asm, x: seq<Item>, y: seq<Item>)
    requires AsmOk(a)
    ensures Feed(a, x + y) == Feed(Feed(a, x), y)
    decreases |x|
  {
    if x == [] {
      assert x + y == y;
    } else {
      assert (x + y)[0] == x[0] && (x + y)[1..] == x[1..] + y;
      FeedConcat(FeedByte(a, x[0]), x[1..], y);
    }
  }

  /** A chunk that stays within the open packet is simply added to it. */
  lemma {:induction false} FeedPayload(a: Asm, x: seq<Item>)
    requires AsmOk(a) && a.open.Some? && !a.zero
    requires |a.open.value.got| + |x| <= a.open.value.len
    ensures var o := a.open.value;
            Feed(a, x) ==
              if |o.got| + |x| < o.len then a.(open := Some(o.(got := o.got + Bytes(x))))
              else a.(open := None, log := a.log + [Pkt(o.inbound, o.got + Bytes(x), o.ts)])
    decreases |x|
  {
    var o := a.open.value;
    if x == [] {
      assert o.got + Bytes(x) == o.got;
    } else if |x| == 1 {
      assert x[1..] == [] && Bytes(x) == [x[0].b];
    } else {
      assert o.got + [x[0].b] + Bytes(x[1..]) == o.got + Bytes(x);
      FeedPayload(FeedByte(a, x[0]), x[1..]);
    }
  }

  /** `pkt_hdr` after storing the bytes `x` from position `pos` on. */
  function Store(hdr: seq<byte>, pos: nat, x: seq<byte>): (r: seq<byte>)
    requires pos + |x| <= |hdr|
    ensures |r| == |hdr|
  {
    hdr[..pos] + x + hdr[pos + |x|..]
  }

  lemma BytesCons(x: seq<Item>)
    requires x != []
    ensures Bytes(x) == [x[0].b] + Bytes(x[1..])
  {
  }

  lemma StoreCons(hdr: seq<byte>, pos: nat, b: byte, x: seq<byte>)
    requires pos + 1 + |x| <= |hdr|
    ensures Store(hdr[pos := b], pos + 1, x) == Store(hdr, pos, [b] + x)
  {
  }

  lemma HeaderByte(a: Asm, x: Item)
    requires AsmOk(a) && a.open.None? && !a.zero
    ensures var hdr := a.hdr[a.hpos := x.b];
            FeedByte(a, x) ==
              if a.hlen < 3 then a.(hdr := hdr, hlen := a.hlen + 1, hpos := a.hpos + 1) else OpenPacket(a, hdr, x)
  {
    hide HeaderLen;
  }

  lemma StoreOne(hdr: seq<byte>, pos: nat, x: seq<byte>)
    requires pos < |hdr| && |x| == 1
    ensures Store(hdr, pos, x) == hdr[pos := x[0]]
  {
  }

  /** A chunk of header bytes is stored at `hpos`; the fourth byte opens a packet. */
  lemma {:induction false} FeedHeader(a: Asm, x: seq<Item>)
    requires AsmOk(a) && a.open.None? && !a.zero && a.hlen + |x| <= 4 && x != []
    ensures var h := Store(a.hdr, a.hpos, Bytes(x));
            Feed(a, x) ==
              if a.hlen + |x| < 4 then a.(hdr := h, hlen := a.hlen + |x|, hpos := a.hpos + |x|)
              else OpenPacket(a, h, x[|x| - 1])
    decreases |x|
  {
    hide OpenPacket, FeedByte, Store;
    BytesCons(x);
    HeaderByte(a, x[0]);
    if |x| == 1 {
      assert x[1..] == [];
      StoreOne(a.hdr, a.hpos, Bytes(x));
    } else {
      var b := a.(hdr := a.hdr[a.hpos := x[0].b], hlen := a.hlen + 1, hpos := a.hpos + 1);
      FeedHeader(b, x[1..]);
      StoreCons(a.hdr, a.hpos, x[0].b, Bytes(x[1..]));
      OpenIgnores(a, b, Store(a.hdr, a.hpos, Bytes(x)), x[|x| - 1]);
    }
  }

  lemma OpenIgnores(a: Asm, b: Asm, hdr: seq<byte>, x: Item)
    requires AsmOk(a) && AsmOk(b) && a.open.None? && |hdr| == 4
    requires b == a.(hdr := b.hdr, hlen := b.hlen, hpos := b.hpos)
    ensures OpenPacket(a, hdr, x) == OpenPacket(b, hdr, x)
  {
  }

  lemma {:induction false} FeedStuck(a: Asm, x: seq<Item>)
    requires AsmOk(a) && a.zero
    ensures Feed(a, x) == a
    decreases |x|
  {
    if x != [] {
      FeedStuck(a, x[1..]);
    }
  }

  /** If a stretch of bytes meets no empty header, neither does any part of it. */
  lemma NoZeroInPart(a: Asm, items: seq<Item>, n: nat)
    requires AsmOk(a) && n <= |items| && !Feed(a, items).zero
    ensures !Feed(a, items[..n]).zero && Feed(a, items) == Feed(Feed(a, items[..n]), items[n..])
  {
    hide Feed, FeedByte;
    assert items == items[..n] + items[n..];
    FeedConcat(a, items[..n], items[n..]);
    if Feed(a, items[..n]).zero {
      FeedStuck(Feed(a, items[..n]), items[n..]);
    }
  }
}
