/** The replay file: how a packet becomes bytes and bytes become packets again, and what a reader
    makes of a file that was cut short or that was written over a longer one. */
module ReplayFile {
  import opened Wrappers
  import Reassembly
  import Capture

  type byte = Reassembly.byte

  const TWO_32 := 0x1_0000_0000
  const TWO_63 := 0x8000_0000_0000_0000
  const TWO_64 := 0x1_0000_0000_0000_0000

  // ---------------------------------------------------------------- integers as bytes

  /** A number cut down to a byte. */
  function Low(v: int): byte { v % 256 }

  /** `int4store`: the low 32 bits, low byte first. */
  function Store4(v: int): (r: seq<byte>)
    ensures |r| == 4
  {
    [Low(v), Low(v / 256), Low(v / 65536), Low(v / 16777216)]
  }

  /** `uint4korr`. */
  function Korr4(b: seq<byte>): (r: int)
    requires |b| == 4
    ensures 0 <= r < TWO_32
  {
    b[0] as int + 256 * (b[1] as int) + 65536 * (b[2] as int) + 16777216 * (b[3] as int)
  }

  /** `int8store`: two halves, the low one first. A shift of a negative number rounds down, so this is
      the two's complement form. */
  function Store8(v: int): (r: seq<byte>)
    ensures |r| == 8
  {
    Store4(v % TWO_32) + Store4((v / TWO_32) % TWO_32)
  }

  /** `uint8korr`. */
  function Korr8(b: seq<byte>): (r: int)
    requires |b| == 8
    ensures 0 <= r < TWO_64
  {
    Korr4(b[..4]) + TWO_32 * Korr4(b[4..])
  }

  /** A 64-bit pattern as the signed number it is assigned to. */
  function Signed(v: int): int { if v >= TWO_63 then v - TWO_64 else v }

  lemma DivDiv(v: int)
    ensures (v / 256) / 256 == v / 65536 && (v / 65536) / 256 == v / 16777216
  {}

  lemma Korr4Store4(v: int)
    ensures Korr4(Store4(v)) == v % TWO_32
  {
    hide Korr4, Store4;
    DivDiv(v);
    var a := v / 256;
    var b := v / 65536;
    var c := v / 16777216;
    assert v == 256 * a + v % 256 && a == 256 * b + a % 256 && b == 256 * c + b % 256;
    assert c == 256 * (c / 256) + c % 256;
    BytesOfFour(v);
    assert v - TWO_32 * (c / 256) == Korr4(Store4(v));
  }

  lemma BytesOfFour(v: int)
    ensures Korr4(Store4(v)) ==
            v % 256 + 256 * ((v / 256) % 256) + 65536 * ((v / 65536) % 256) + 16777216 * ((v / 16777216) % 256)
  {}

  lemma Halves(v: int)
    ensures v % TWO_32 + TWO_32 * ((v / TWO_32) % TWO_32) == v % TWO_64
  {
    var h := v / TWO_32;
    assert v == TWO_32 * h + v % TWO_32;
    assert h == TWO_32 * (h / TWO_32) + h % TWO_32;
    var low := v % TWO_32 + TWO_32 * (h % TWO_32);
    assert v == TWO_64 * (h / TWO_32) + low;
    assert 0 <= low < TWO_64;
  }

  /** Eight bytes hold a 64-bit pattern exactly: the unsigned reading undoes the store modulo 2^64. */
  lemma Korr8Store8(v: int)
    ensures Korr8(Store8(v)) == v % TWO_64
  {
    hide Korr4, Store4;
    var lo := v % TWO_32;
    var hi := (v / TWO_32) % TWO_32;
    Korr4Store4(lo);
    Korr4Store4(hi);
    assert lo % TWO_32 == lo && hi % TWO_32 == hi;
    assert Store8(v)[..4] == Store4(lo) && Store8(v)[4..] == Store4(hi);
    Halves(v);
  }

  // ---------------------------------------------------------------- records

  /** A packet in the file. An empty payload marks the end of the stream with this key. */
  datatype Record = Record(key: int, inbound: bool, sec: int, usec: int, data: seq<byte>)

  /** The values the fields can hold: an unsigned 64-bit key, signed 64-bit times, a 32-bit length. */
  predicate Fits(r: Record) {
    && 0 <= r.key < TWO_64
    && -TWO_63 <= r.sec < TWO_63
    && -TWO_63 <= r.usec < TWO_63
    && |r.data| < TWO_32
  }

  const HEADER_SIZE := 8 + 1 + 16 + 4

  function Header(r: Record): (h: seq<byte>)
    ensures |h| == HEADER_SIZE
  {
    Store8(r.key) + [if r.inbound then 1 else 0] + Store8(r.sec) + Store8(r.usec) + Store4(|r.data|)
  }

  function Encode(r: Record): (e: seq<byte>)
    ensures |e| == HEADER_SIZE + |r.data|
  {
    Header(r) + r.data
  }

  function EncodeAll(rs: seq<Record>): seq<byte> {
    if rs == [] then [] else Encode(rs[0]) + EncodeAll(rs[1..])
  }

  /** The first record of `bs` and the bytes it takes, unless `bs` ends inside it. */
  function DecodeOne(bs: seq<byte>): (r: Option<(Record, nat)>)
    ensures r.Some? ==> HEADER_SIZE <= r.value.1 <= |bs| && r.value.1 == HEADER_SIZE + |r.value.0.data|
  {
    if |bs| < HEADER_SIZE then None
    else
      var len := Korr4(bs[25..29]);
      if |bs| < HEADER_SIZE + len then None
      else Some((Record(Korr8(bs[..8]), bs[8] != 0, Signed(Korr8(bs[9..17])), Signed(Korr8(bs[17..25])),
                        bs[29..29 + len]), HEADER_SIZE + len))
  }

  function DecodeAll(bs: seq<byte>): seq<Record>
    decreases |bs|
  {
    match DecodeOne(bs)
    case None => []
    case Some((r, n)) => [r] + DecodeAll(bs[n..])
  }

  lemma DecodeOneEncode(r: Record, rest: seq<byte>)
    requires Fits(r)
    ensures DecodeOne(Encode(r) + rest) == Some((r, |Encode(r)|))
  {
    hide Store8, Store4, Korr8, Korr4;
    var bs := Encode(r) + rest;
    assert bs[..8] == Store8(r.key);
    assert bs[9..17] == Store8(r.sec);
    assert bs[17..25] == Store8(r.usec);
    assert bs[25..29] == Store4(|r.data|);
    assert bs[29..29 + |r.data|] == r.data;
    Korr8Store8(r.key);
    Korr8Store8(r.sec);
    Korr8Store8(r.usec);
    Korr4Store4(|r.data|);
    assert Signed(r.sec % TWO_64) == r.sec && Signed(r.usec % TWO_64) == r.usec;
  }

  lemma DecodeAllStep(r: Record, rest: seq<byte>)
    requires Fits(r)
    ensures DecodeAll(Encode(r) + rest) == [r] + DecodeAll(rest)
  {
    hide Encode, DecodeOne;
    DecodeOneEncode(r, rest);
    assert (Encode(r) + rest)[|Encode(r)|..] == rest;
  }

  /** Reading past a list that was written gives the list, then whatever the bytes after it hold. */
  lemma {:induction false} DecodeAllEncodeAll(rs: seq<Record>, rest: seq<byte>)
    requires forall i :: 0 <= i < |rs| ==> Fits(rs[i])
    ensures DecodeAll(EncodeAll(rs) + rest) == rs + DecodeAll(rest)
  {
    hide Encode, DecodeOne, Fits, DecodeAll;
    if rs == [] {
      assert EncodeAll(rs) + rest == rest;
    } else {
      var tail := EncodeAll(rs[1..]) + rest;
      assert EncodeAll(rs) + rest == Encode(rs[0]) + tail;
      DecodeAllStep(rs[0], tail);
      DecodeAllEncodeAll(rs[1..], rest);
      assert rs + DecodeAll(rest) == [rs[0]] + (rs[1..] + DecodeAll(rest));
    }
  }

  /** Reading what was written returns it, for every key, time and payload the fields can hold. */
  lemma RoundTrip(rs: seq<Record>)
    requires forall i :: 0 <= i < |rs| ==> Fits(rs[i])
    ensures DecodeAll(EncodeAll(rs)) == rs
  {
    DecodeAllEncodeAll(rs, []);
    assert EncodeAll(rs) + [] == EncodeAll(rs);
  }

  /** Cutting any file, well formed or not, gives a prefix of what it held. */
  lemma {:induction false} PrefixReadsPrefix(bs: seq<byte>, n: nat)
    requires n <= |bs|
    ensures DecodeAll(bs[..n]) <= DecodeAll(bs)
    decreases |bs|
  {
    hide DecodeOne;
    var cut := bs[..n];
    match DecodeOne(cut)
    case None =>
    case Some((r, k)) =>
      SameRecord(bs, n);
      assert cut[k..] == bs[k..][..n - k];
      PrefixReadsPrefix(bs[k..], n - k);
  }

  lemma SameRecord(bs: seq<byte>, n: nat)
    requires n <= |bs| && DecodeOne(bs[..n]).Some?
    ensures DecodeOne(bs) == DecodeOne(bs[..n]) && DecodeOne(bs).value.1 <= n
  {
    hide Korr4, Korr8;
    var cut, k := bs[..n], DecodeOne(bs[..n]).value.1;
    assert cut[..8] == bs[..8] && cut[8] == bs[8] && cut[9..17] == bs[9..17] && cut[17..25] == bs[17..25];
    assert cut[25..29] == bs[25..29] && cut[29..k] == bs[29..k];
  }

  /** How many of the records lie wholly within the first `n` bytes. */
  function Whole(rs: seq<Record>, n: int): (k: nat)
    ensures k <= |rs|
  {
    if rs == [] || n < |Encode(rs[0])| then 0 else 1 + Whole(rs[1..], n - |Encode(rs[0])|)
  }

  lemma {:induction false} WholeMeans(rs: seq<Record>, n: nat)
    ensures var k := Whole(rs, n);
            && |EncodeAll(rs[..k])| <= n
            && (k < |rs| ==> n < |EncodeAll(rs[..k + 1])|)
  {
    if rs != [] && n >= |Encode(rs[0])| {
      WholeMeans(rs[1..], n - |Encode(rs[0])|);
      var k := Whole(rs, n);
      assert rs[..k][1..] == rs[1..][..k - 1];
      if k < |rs| {
        assert rs[..k + 1][1..] == rs[1..][..k];
      }
    } else if rs != [] {
      assert rs[..1][0] == rs[0];
    }
  }

  /** A recording cut anywhere reads back as exactly the records that were written whole. */
  lemma {:induction false} TruncationExact(rs: seq<Record>, n: nat)
    requires n <= |EncodeAll(rs)| && forall i :: 0 <= i < |rs| ==> Fits(rs[i])
    ensures DecodeAll(EncodeAll(rs)[..n]) == rs[..Whole(rs, n)]
  {
    hide Encode, DecodeOne;
    if rs != [] {
      var m := |Encode(rs[0])|;
      var cut := EncodeAll(rs)[..n];
      if n < m {
        CutRecord(rs[0], n);
        assert cut == Encode(rs[0])[..n];
      } else {
        assert cut == Encode(rs[0]) + EncodeAll(rs[1..])[..n - m];
        DecodeAllStep(rs[0], EncodeAll(rs[1..])[..n - m]);
        TruncationExact(rs[1..], n - m);
        assert rs[..Whole(rs, n)] == [rs[0]] + rs[1..][..Whole(rs[1..], n - m)];
      }
    }
  }

  lemma CutRecord(r: Record, n: nat)
    requires Fits(r) && n < |Encode(r)|
    ensures DecodeOne(Encode(r)[..n]).None?
  {
    hide Store8, Store4, Korr8, Korr4;
    if n >= HEADER_SIZE {
      assert Encode(r)[..n][25..29] == Store4(|r.data|);
      Korr4Store4(|r.data|);
    }
  }

  // ---------------------------------------------------------------- the file

  /** `bs` with `d` written at `pos`, as `write` does it: over what is there. */
  function Overwrite(bs: seq<byte>, pos: nat, d: seq<byte>): (r: seq<byte>)
    requires pos <= |bs|
    ensures |r| >= pos + |d|
  {
    bs[..pos] + d + (if pos + |d| <= |bs| then bs[pos + |d|..] else [])
  }

  lemma OverwriteTwice(bs: seq<byte>, pos: nat, d: seq<byte>, e: seq<byte>)
    requires pos <= |bs|
    ensures Overwrite(Overwrite(bs, pos, d), pos + |d|, e) == Overwrite(bs, pos, d + e)
  {
    var one := Overwrite(bs, pos, d);
    assert one[..pos + |d|] == bs[..pos] + d;
    if pos + |d| + |e| <= |one| {
      if pos + |d + e| <= |bs| {
        assert one[pos + |d| + |e|..] == bs[pos + |d + e|..];
      }
    }
  }

  function Min(a: int, b: int): int { if a <= b then a else b }

  /** An open file. `limit` is how far the disk lets it grow: a write beyond is cut short. */
  class File {
    var bytes: seq<byte>
    var pos: nat
    const limit: nat

    ghost predicate Valid()
      reads this
    {
      pos <= |bytes| && pos <= limit
    }

    constructor (existing: seq<byte>, limit: nat)
      ensures Valid() && bytes == existing && pos == 0 && this.limit == limit
    {
      bytes, pos, this.limit := existing, 0, limit;
    }

    method Write(d: seq<byte>) returns (n: nat)
      requires Valid()
      modifies this
      ensures Valid() && n == Min(|d|, limit - old(pos)) && pos == old(pos) + n
      ensures bytes == Overwrite(old(bytes), old(pos), d[..n])
    {
      n := Min(|d|, limit - pos);
      bytes := Overwrite(bytes, pos, d[..n]);
      pos := pos + n;
    }

    method Read(n: nat) returns (d: seq<byte>)
      requires Valid() && |bytes| <= limit
      modifies this`pos
      ensures Valid() && d == old(bytes[pos..])[..Min(n, |bytes| - old(pos))] && pos == old(pos) + |d|
    {
      var k := Min(n, |bytes| - pos);
      d := bytes[pos..pos + k];
      pos := pos + k;
    }
  }

  /** A packet on its way into or out of the file; `key` travels beside it. */
  class Packet {
    var inbound: bool
    var sec: int
    var usec: int
    var data: seq<byte>
    var len: nat

    constructor ()
      ensures data == [] && len == 0
    {
      inbound, sec, usec, data, len := false, 0, 0, [], 0;
    }

    ghost function Value(key: int): Record
      reads this
    {
      Record(key, inbound, sec, usec, data)
    }

    /** `replay_write`: fails exactly when the record does not fit, and then what fitted is written. */
    method ReplayWrite(f: File, key: int) returns (failed: bool)
      requires f.Valid() && len == |data| && Fits(Value(key))
      modifies f
      ensures var all := Encode(Value(key));
              var n := Min(|all|, f.limit - old(f.pos));
              && f.Valid() && f.pos == old(f.pos) + n
              && f.bytes == Overwrite(old(f.bytes), old(f.pos), all[..n])
              && failed == (n < |all|)
    {
      hide Store8, Store4, Overwrite;
      var buf := Store8(key);
      buf := buf + [if inbound then 1 else 0];
      buf := buf + Store8(sec);
      buf := buf + Store8(usec);
      buf := buf + Store4(len);
      ghost var all := Encode(Value(key));
      assert buf == Header(Value(key));
      var n := f.Write(buf);
      assert all[..n] == buf[..n];
      if n != |buf| {
        return true;
      }
      if len == 0 {
        assert all == buf;
        return false;
      }
      var m := f.Write(data);
      assert all[..n + m] == buf[..n] + data[..m];
      OverwriteTwice(old(f.bytes), old(f.pos), buf[..n], data[..m]);
      failed := m != len;
    }

    /** `replay_read`: the next record, or failure when the file ends before or inside it. The counters
        count a payload before it is read, and keep it when the payload turns out to be cut. */
    method ReplayRead(f: File, stats: Capture.PerfStats) returns (failed: bool, key: int)
      requires f.Valid() && |f.bytes| <= f.limit
      modifies this, f`pos, stats
      ensures f.Valid() && f.pos >= old(f.pos)
      ensures var next := DecodeOne(old(f.bytes[f.pos..]));
              && failed == next.None?
              && (next.Some? ==> Value(key) == next.value.0 && f.pos == old(f.pos) + next.value.1)
      ensures len == |data| && (failed ==> data == [])
      ensures !failed ==>
                && stats.memInUse == old(stats.memInUse) + len
                && stats.alloced == old(stats.alloced) + (if len == 0 then 0 else 1)
      ensures failed ==>
                var rest := old(f.bytes[f.pos..]);
                var cut := if |rest| < HEADER_SIZE then 0 else Korr4(rest[25..29]);
                && stats.memInUse == old(stats.memInUse) + cut
                && stats.alloced == old(stats.alloced) + (if cut == 0 then 0 else 1)
      ensures stats.freed == old(stats.freed)
    {
      hide Korr8, Korr4;
      ghost var rest := f.bytes[f.pos..];
      var buf := f.Read(HEADER_SIZE);
      if |buf| != HEADER_SIZE {
        data, len := [], 0;
        return true, 0;
      }
      assert buf == rest[..HEADER_SIZE];
      assert buf[..8] == rest[..8] && buf[9..17] == rest[9..17];
      assert buf[17..25] == rest[17..25] && buf[25..29] == rest[25..29];
      key := Korr8(buf[..8]);
      inbound := buf[8] != 0;
      sec := Signed(Korr8(buf[9..17]));
      usec := Signed(Korr8(buf[17..25]));
      len := Korr4(buf[25..29]);
      if len == 0 {
        data := [];
        assert rest[29..29] == [];
        return false, key;
      }
      stats.memInUse := stats.memInUse + len;
      stats.alloced := stats.alloced + 1;
      var d := f.Read(len);
      assert f.bytes[old(f.pos) + HEADER_SIZE..] == rest[HEADER_SIZE..];
      if |d| != len {
        data, len := [], 0;
        return true, key;
      }
      data := d;
      assert d == rest[29..29 + len];
      return false, key;
    }
  }

  // ---------------------------------------------------------------- the head of the file

  const MAGIC: seq<byte> := [0x4D, 0x43, 0x41, 0x50]
  const VERSION: seq<byte> := [1, 0]

  /** `init_replay_file` on a file that may already hold something. */
  method InitReplayFile(f: File) returns (failed: bool)
    requires f.Valid() && f.pos == 0
    modifies f
    ensures f.Valid() && (!failed ==> f.pos == 6 && f.bytes == Overwrite(old(f.bytes), 0, MAGIC + VERSION))
    ensures failed == (f.limit < 6)
  {
    var n := f.Write(MAGIC);
    if n != |MAGIC| {
      return true;
    }
    n := f.Write(VERSION);
    OverwriteTwice(old(f.bytes), 0, MAGIC, VERSION);
    assert MAGIC[..4] == MAGIC;
    if n == 2 {
      assert VERSION[..n] == VERSION;
    }
    failed := n != |VERSION|;
  }

  // ---------------------------------------------------------------- recording over an old file

  const HEAD := MAGIC + VERSION

  /** The file after a recording of `rs`, when `existing` was there before: `init_replay_file` opens
      without truncating. */
  function Recorded(existing: seq<byte>, rs: seq<Record>): seq<byte> {
    Overwrite(existing, 0, HEAD + EncodeAll(rs))
  }

  /** What is left of the old file behind the new recording. */
  function Leftover(existing: seq<byte>, rs: seq<Record>): seq<byte> {
    var n := |HEAD + EncodeAll(rs)|;
    if n <= |existing| then existing[n..] else []
  }

  lemma OverwriteFromStart(existing: seq<byte>, bs: seq<byte>)
    ensures Overwrite(existing, 0, bs) == bs + if |bs| <= |existing| then existing[|bs|..] else []
  {
    assert existing[..0] == [];
  }

  lemma RecordedIs(existing: seq<byte>, rs: seq<Record>)
    ensures Recorded(existing, rs)[6..] == EncodeAll(rs) + Leftover(existing, rs)
    ensures Recorded(existing, rs)[..6] == HEAD
  {
    hide EncodeAll, Overwrite;
    var body, rest := EncodeAll(rs), Leftover(existing, rs);
    OverwriteFromStart(existing, HEAD + body);
    assert Recorded(existing, rs) == HEAD + (body + rest);
    HeadAndRest(HEAD, body + rest);
  }

  lemma HeadAndRest(head: seq<byte>, rest: seq<byte>)
    ensures (head + rest)[..|head|] == head && (head + rest)[|head|..] == rest
  {
  }

  /** A recording reads back as itself followed by whatever records can be read off the rest of the old
      file, so it reads back as itself exactly when there is none. */
  lemma StaleTail(existing: seq<byte>, rs: seq<Record>)
    requires forall i :: 0 <= i < |rs| ==> Fits(rs[i])
    ensures DecodeAll(Recorded(existing, rs)[6..]) == rs + DecodeAll(Leftover(existing, rs))
    ensures DecodeAll(Recorded(existing, rs)[6..]) == rs <==> DecodeOne(Leftover(existing, rs)).None?
    ensures |existing| < |HEAD + EncodeAll(rs)| + HEADER_SIZE ==> DecodeAll(Recorded(existing, rs)[6..]) == rs
  {
    hide DecodeOne, EncodeAll;
    RecordedIs(existing, rs);
    DecodeAllEncodeAll(rs, Leftover(existing, rs));
    NothingDecoded(Leftover(existing, rs));
    assert DecodeAll(Recorded(existing, rs)[6..]) == rs ==> |DecodeAll(Leftover(existing, rs))| == 0;
  }

  lemma NothingDecoded(bs: seq<byte>)
    ensures DecodeAll(bs) == [] <==> DecodeOne(bs).None?
    ensures |bs| < HEADER_SIZE ==> DecodeOne(bs).None?
  {
  }

  /** A recording of two packets, and one of a single packet over it whose payload is as long as that of
      the first: the reader gets the new packet and then the old second one. */
  lemma StaleTailIsRead(a: Record, b: Record, c: Record)
    requires Fits(a) && Fits(b) && Fits(c) && |c.data| == |a.data|
    ensures DecodeAll(Recorded(Recorded([], [a, b]), [c])[6..]) == [c, b]
  {
    hide DecodeOne, Encode;
    var earlier := Recorded([], [a, b]);
    RecordedIs([], [a, b]);
    assert earlier == HEAD + EncodeAll([a, b]) by {
      assert earlier == earlier[..6] + earlier[6..];
      assert EncodeAll([a, b]) + [] == EncodeAll([a, b]);
    }
    EncodeTwo(a, b);
    EncodeTwo(b, c);
    EncodeTwo(c, b);
    assert Leftover(earlier, [c]) == Encode(b);
    StaleTail(earlier, [c]);
    RoundTrip([b]);
    assert [c] + [b] == [c, b];
  }

  lemma EncodeTwo(a: Record, b: Record)
    ensures EncodeAll([a, b]) == Encode(a) + Encode(b) && EncodeAll([a]) == Encode(a)
  {
    assert [a, b][1..] == [b] && [a][1..] == [] && [b][1..] == [];
    assert EncodeAll([b]) == Encode(b) + EncodeAll([]);
  }
}
