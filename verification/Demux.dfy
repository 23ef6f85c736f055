/** Reading a replay file back into streams: each record goes to the stream of its key, and a record
    without payload closes that stream. */
module Demux {
  import opened ReplayFile
  import Capture

  // ---------------------------------------------------------------- keys

  /** `get_key`: address and port in one number. */
  function GetKey(ip: int, port: int): int { ip * TWO_32 + port }

  /** The address and port `find_or_make_stream` takes out of a key. */
  function SplitKey(key: int): (int, int) { (key / TWO_32, key % TWO_32) }

  /** Splitting undoes joining and joining undoes splitting, so the key is a name for the endpoint. */
  lemma KeyNamesEndpoint(ip: int, port: int, key: int)
    requires 0 <= ip < TWO_32 && 0 <= port < TWO_32
    requires 0 <= key < TWO_64
    ensures SplitKey(GetKey(ip, port)) == (ip, port) && 0 <= GetKey(ip, port) < TWO_64
    ensures GetKey(ip, port) / 0x1_0000_0000 == ip && GetKey(ip, port) % 0x1_0000_0000 == port
    ensures var (i, p) := SplitKey(key); 0 <= i < TWO_32 && 0 <= p < TWO_32 && GetKey(i, p) == key
  {
    assert key == TWO_32 * (key / TWO_32) + key % TWO_32;
    assert (ip * TWO_32 + port) / TWO_32 == ip;
  }

  // ---------------------------------------------------------------- routing, on values

  predicate Ends(r: Record, key: int) { r.key == key && r.data == [] }

  /** What one record does to the streams. */
  function Route(m: map<int, seq<Record>>, r: Record): map<int, seq<Record>> {
    if r.data == [] then m - {r.key}
    else m[r.key := (if r.key in m then m[r.key] else []) + [r]]
  }

  function RouteAll(m: map<int, seq<Record>>, rs: seq<Record>): map<int, seq<Record>>
    decreases |rs|
  {
    if rs == [] then m else RouteAll(Route(m, rs[0]), rs[1..])
  }

  /** The reading loop, one turn. */
  lemma RouteNext(m: map<int, seq<Record>>, bs: seq<byte>, pos: nat)
    requires pos <= |bs|
    ensures RouteAll(m, DecodeAll(bs[pos..])) ==
            var next := DecodeOne(bs[pos..]);
            if next.None? then m else RouteAll(Route(m, next.value.0), DecodeAll(bs[pos + next.value.1..]))
  {
    hide DecodeOne, Route;
    var next := DecodeOne(bs[pos..]);
    if next.Some? {
      var n := next.value.1;
      assert bs[pos..][n..] == bs[pos + n..];
      assert DecodeAll(bs[pos..])[1..] == DecodeAll(bs[pos + n..]);
    }
  }

  /** The position just behind the last record that ends stream `key`. */
  function LastEnd(rs: seq<Record>, key: int): (n: nat)
    ensures n <= |rs| && (n > 0 ==> Ends(rs[n - 1], key))
    ensures forall i :: n <= i < |rs| ==> !Ends(rs[i], key)
  {
    if rs == [] then 0
    else if Ends(rs[|rs| - 1], key) then |rs|
    else LastEnd(rs[..|rs| - 1], key)
  }

  /** The records of one key, in file order. */
  function OfKey(rs: seq<Record>, key: int): seq<Record> {
    if rs == [] then []
    else OfKey(rs[..|rs| - 1], key) + (if rs[|rs| - 1].key == key then [rs[|rs| - 1]] else [])
  }

  /** What stream `key` should hold: its records since it last ended. */
  function Received(rs: seq<Record>, key: int): seq<Record> { OfKey(rs[LastEnd(rs, key)..], key) }

  lemma ReceivedStep(rs: seq<Record>, r: Record, key: int)
    ensures Received(rs + [r], key) ==
            if r.key != key then Received(rs, key)
            else if r.data == [] then []
            else Received(rs, key) + [r]
  {
    var more := rs + [r];
    assert more[..|more| - 1] == rs;
    var n := LastEnd(more, key);
    if !Ends(r, key) {
      assert n == LastEnd(rs, key);
      assert more[n..][..|more[n..]| - 1] == rs[n..];
    }
  }

  lemma {:induction false} RouteAllStep(m: map<int, seq<Record>>, rs: seq<Record>, r: Record)
    ensures RouteAll(m, rs + [r]) == Route(RouteAll(m, rs), r)
    decreases |rs|
  {
    if rs == [] {
      assert (rs + [r])[1..] == [];
    } else {
      assert (rs + [r])[1..] == rs[1..] + [r];
      RouteAllStep(Route(m, rs[0]), rs[1..], r);
    }
  }

  /** After any record list, the live streams are those with records since their last end, and each
      holds exactly these records. */
  lemma {:induction false} DemuxExact(rs: seq<Record>, key: int)
    ensures var m := RouteAll(map[], rs);
            && (key in m <==> Received(rs, key) != [])
            && (key in m ==> m[key] == Received(rs, key))
  {
    if rs != [] {
      var front := rs[..|rs| - 1];
      var r := rs[|rs| - 1];
      assert rs == front + [r];
      DemuxExact(front, key);
      ReceivedStep(front, r, key);
      RouteAllStep(map[], front, r);
    }
  }

  lemma {:induction false} ReceivedOfKey(rs: seq<Record>, key: int)
    ensures Received(rs, key) == Received(OfKey(rs, key), key)
  {
    if rs != [] {
      var front := rs[..|rs| - 1];
      var r := rs[|rs| - 1];
      assert rs == front + [r];
      ReceivedOfKey(front, key);
      ReceivedStep(front, r, key);
      if r.key == key {
        ReceivedStep(OfKey(front, key), r, key);
      } else {
        assert OfKey(rs, key) == OfKey(front, key);
      }
    }
  }

  /** Streams do not affect each other: two files with the same records for a key, however the records
      of other keys lie between them, leave that key's stream alike. */
  lemma KeysAreIndependent(rs: seq<Record>, ss: seq<Record>, key: int)
    requires OfKey(rs, key) == OfKey(ss, key)
    ensures var m, n := RouteAll(map[], rs), RouteAll(map[], ss);
            && (key in m <==> key in n)
            && (key in m ==> m[key] == n[key])
  {
    ReceivedOfKey(rs, key);
    ReceivedOfKey(ss, key);
    DemuxExact(rs, key);
    DemuxExact(ss, key);
  }

  // ---------------------------------------------------------------- the manager

  /** A stream, as far as the file reader is concerned: the packets appended to it. */
  class Channel {
    var received: seq<Record>

    constructor ()
      ensures received == []
    {
      received := [];
    }
  }

  datatype Outcome = NoMagic | BadMagic | NoVersion | Finished

  class Manager {
    var lookup: map<int, Channel>

    ghost predicate Valid()
      reads this
    {
      forall j, k :: j in lookup && k in lookup && j != k ==> lookup[j] != lookup[k]
    }

    ghost function Channels(): set<Channel>
      reads this
    {
      set k | k in lookup :: lookup[k]
    }

    ghost function Contents(): (m: map<int, seq<Record>>)
      reads this, Channels()
      ensures m.Keys == lookup.Keys
    {
      map k | k in lookup :: lookup[k].received
    }

    constructor ()
      ensures Valid() && lookup == map[]
    {
      lookup := map[];
    }

    /** `find_or_make_stream`: no stream for a record that ends one, and that one is gone. */
    method FindOrMakeStream(key: int, len: nat) returns (s: Channel?)
      requires Valid()
      modifies this
      ensures Valid() && (s == null <==> len == 0)
      ensures lookup == if s == null then old(lookup) - {key} else old(lookup)[key := s]
      ensures s != null ==> if key in old(lookup) then s == old(lookup)[key] else fresh(s) && s.received == []
    {
      if key !in lookup {
        if len == 0 {
          return null;
        }
        var c := new Channel();
        lookup := lookup[key := c];
        return c;
      }
      if len == 0 {
        lookup := lookup - {key};
        return null;
      }
      return lookup[key];
    }

    /** One turn of the reading loop, once the record is read. */
    method Dispatch(r: Record)
      requires Valid()
      modifies this, Channels()
      ensures Valid() && Contents() == Route(old(Contents()), r)
      ensures forall k :: k in lookup ==> (k in old(lookup) && lookup[k] == old(lookup)[k]) || fresh(lookup[k])
    {
      var s := FindOrMakeStream(r.key, |r.data|);
      if s != null {
        s.received := s.received + [r];
      }
      ghost var want := Route(old(Contents()), r);
      assert forall k :: k in Contents() <==> k in lookup;
      assert forall k :: k in old(Contents()) <==> k in old(lookup);
      assert Contents().Keys == want.Keys;
      forall k | k in lookup
        ensures lookup[k].received == want[k]
      {
        if k != r.key {
          assert old(Contents())[k] == old(lookup[k].received);
        }
      }
    }

    /** The reading loop: every record up to the first that is cut. */
    method Deliver(f: File, stats: Capture.PerfStats)
      requires Valid() && f.Valid() && |f.bytes| <= f.limit
      modifies this, Channels(), f`pos, stats
      ensures Valid() && Contents() == RouteAll(old(Contents()), DecodeAll(old(f.bytes[f.pos..])))
    {
      hide Route, RouteAll, DecodeOne, DecodeAll;
      ghost var bs := f.bytes;
      while true
        invariant Valid() && f.Valid() && f.bytes == bs
        invariant forall k :: k in lookup ==> (k in old(lookup) && lookup[k] == old(lookup)[k]) || fresh(lookup[k])
        invariant RouteAll(Contents(), DecodeAll(bs[f.pos..])) == RouteAll(old(Contents()), DecodeAll(bs[old(f.pos)..]))
        decreases |bs| - f.pos
      {
        ghost var before, next := Contents(), DecodeOne(bs[f.pos..]);
        ghost var pos := f.pos;
        RouteNext(before, bs, f.pos);
        var pkt := new Packet();
        var failed, key := pkt.ReplayRead(f, stats);
        if failed {
          return;
        }
        assert Contents() == before;
        var r := Record(key, pkt.inbound, pkt.sec, pkt.usec, pkt.data);
        Dispatch(r);
        assert r == next.value.0 && f.pos == pos + next.value.1;
        assert Contents() == Route(before, r);
      }
    }

    /** `process_replay_file` from the open file on. Whatever the file holds behind its head, every
        record up to the first that is cut is delivered to the stream of its key. */
    method ProcessReplayFile(f: File, stats: Capture.PerfStats) returns (outcome: Outcome)
      requires Valid() && f.Valid() && |f.bytes| <= f.limit && f.pos == 0
      modifies this, Channels(), f`pos, stats
      ensures Valid()
      ensures outcome == if |f.bytes| < 4 then NoMagic
                         else if f.bytes[..4] != MAGIC then BadMagic
                         else if |f.bytes| < 6 then NoVersion
                         else Finished
      ensures Contents() ==
              if outcome.Finished? then RouteAll(old(Contents()), DecodeAll(f.bytes[6..])) else old(Contents())
    {
      ghost var bs := f.bytes;
      var magic := f.Read(4);
      if |magic| != 4 {
        return NoMagic;
      }
      assert magic == bs[..4];
      if magic != MAGIC {
        return BadMagic;
      }
      var version := f.Read(2);
      if |version| != 2 {
        return NoVersion;
      }
      assert f.pos == 6;
      Deliver(f, stats);
      outcome := Finished;
    }
  }

  /** What a replay of a recording delivers: write the head and the records, lose everything from byte
      `n` on, read what is left. Each stream gets its share of the records that were written whole. */
  lemma ReplayOfRecording(rs: seq<Record>, n: nat, key: int)
    requires forall i :: 0 <= i < |rs| ==> Fits(rs[i])
    requires 6 <= n <= 6 + |EncodeAll(rs)|
    ensures var m := RouteAll(map[], DecodeAll((MAGIC + VERSION + EncodeAll(rs))[..n][6..]));
            var whole := rs[..Whole(rs, n - 6)];
            && (key in m <==> Received(whole, key) != [])
            && (key in m ==> m[key] == Received(whole, key))
  {
    assert (MAGIC + VERSION + EncodeAll(rs))[..n][6..] == EncodeAll(rs)[..n - 6];
    TruncationExact(rs, n - 6);
    DemuxExact(rs[..Whole(rs, n - 6)], key);
  }
}
