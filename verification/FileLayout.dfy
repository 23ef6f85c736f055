/** The replay file byte by byte: where each field of a record stands, and in which order its bytes do. */
module FileLayout {
  import opened Wrappers
  import opened ReplayFile
  import Capture

  /** A number written with its lowest byte first. */
  function LittleEndian(bs: seq<byte>): (v: int)
    ensures v >= 0
  {
    if bs == [] then 0 else bs[0] as int + 256 * LittleEndian(bs[1..])
  }

  lemma LittleEndianNext(b: byte, bs: seq<byte>)
    ensures LittleEndian([b] + bs) == b as int + 256 * LittleEndian(bs)
  {
    assert ([b] + bs)[1..] == bs;
  }

  /** Four bytes, and more behind them. */
  lemma FourAndMore(b: seq<byte>, more: seq<byte>)
    requires |b| == 4
    ensures LittleEndian(b + more) == Korr4(b) + 0x1_0000_0000 * LittleEndian(more)
  {
    hide LittleEndian;
    assert b + more == [b[0]] + ([b[1]] + ([b[2]] + ([b[3]] + more)));
    LittleEndianNext(b[3], more);
    LittleEndianNext(b[2], [b[3]] + more);
    LittleEndianNext(b[1], [b[2]] + ([b[3]] + more));
    LittleEndianNext(b[0], [b[1]] + ([b[2]] + ([b[3]] + more)));
  }

  lemma FourBytes(b: seq<byte>)
    requires |b| == 4
    ensures LittleEndian(b) == Korr4(b)
  {
    FourAndMore(b, []);
    assert b + [] == b;
  }

  lemma EightBytes(b: seq<byte>)
    requires |b| == 8
    ensures LittleEndian(b) == Korr8(b)
  {
    hide Korr4, LittleEndian;
    FourAndMore(b[..4], b[4..]);
    FourBytes(b[4..]);
    assert b[..4] + b[4..] == b;
  }

  /** A signed time as the unsigned number its bytes give. */
  function Unsigned(v: int): int { if v < 0 then v + 0x1_0000_0000_0000_0000 else v }

  predicate In64Bits(v: int) { -0x8000_0000_0000_0000 <= v < 0x8000_0000_0000_0000 }

  lemma StoredLow(v: int)
    ensures LittleEndian(Store4(v)) == v % 0x1_0000_0000
    ensures LittleEndian(Store8(v)) == v % 0x1_0000_0000_0000_0000
  {
    hide Store4, Store8, Korr4, Korr8, LittleEndian;
    FourBytes(Store4(v));
    Korr4Store4(v);
    EightBytes(Store8(v));
    Korr8Store8(v);
  }

  /** What a record looks like in the file. */
  lemma RecordLayout(r: Record, rest: seq<byte>)
    requires Fits(r)
    ensures var bs := Encode(r) + rest;
            && |Encode(r)| == 29 + |r.data|
            && LittleEndian(bs[0..8]) == r.key
            && bs[8] == (if r.inbound then 1 else 0)
            && LittleEndian(bs[9..17]) == Unsigned(r.sec)
            && LittleEndian(bs[17..25]) == Unsigned(r.usec)
            && LittleEndian(bs[25..29]) == |r.data|
            && bs[29..29 + |r.data|] == r.data
  {
    hide Store8, Store4, LittleEndian;
    var bs := Encode(r) + rest;
    assert bs[0..8] == Store8(r.key);
    assert bs[9..17] == Store8(r.sec);
    assert bs[17..25] == Store8(r.usec);
    assert bs[25..29] == Store4(|r.data|);
    assert bs[29..29 + |r.data|] == r.data;
    StoredLow(r.key);
    StoredLow(r.sec);
    StoredLow(r.usec);
    StoredLow(|r.data|);
  }

  /** What is read off any bytes, whoever wrote them. */
  lemma ReadLayout(bs: seq<byte>)
    ensures DecodeOne(bs).Some? <==> |bs| >= 29 && |bs| >= 29 + LittleEndian(bs[25..29])
    ensures match DecodeOne(bs)
            case None => true
            case Some((r, n)) =>
              && r.key == LittleEndian(bs[0..8])
              && r.inbound == (bs[8] != 0)
              && Unsigned(r.sec) == LittleEndian(bs[9..17]) && In64Bits(r.sec)
              && Unsigned(r.usec) == LittleEndian(bs[17..25]) && In64Bits(r.usec)
              && n == 29 + LittleEndian(bs[25..29]) && r.data == bs[29..n]
  {
    hide Korr4, Korr8, LittleEndian;
    if |bs| >= 29 {
      assert bs[0..8] == bs[..8];
      EightBytes(bs[..8]);
      EightBytes(bs[9..17]);
      EightBytes(bs[17..25]);
      FourBytes(bs[25..29]);
    }
  }

  /** The head of the file: four letters, and version 1 in two bytes. */
  lemma HeadLayout()
    ensures |HEAD| == 6 && forall k :: 0 <= k < 4 ==> HEAD[k] as int == "MCAP"[k] as int
    ensures LittleEndian(HEAD[4..]) == 1
  {
    assert HEAD[4..] == [1] + ([0] + []);
    LittleEndianNext(0, []);
    LittleEndianNext(1, [0] + []);
  }
}
