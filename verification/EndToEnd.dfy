/** From captured conversations through the replay file to the replay thread. */
module EndToEnd {
  import opened Wrappers
  import opened PacketChain
  import opened Reassembly
  import opened Conversation
  import Replay
  import ReplayGuarantees
  import opened ReplayFile
  import opened Demux

  function KindOf(r: Record): Kind { KindOfPkt(Pkt(r.inbound, r.data, 0)) }

  function KindsOf(rs: seq<Record>): (ks: seq<Kind>)
    ensures |ks| == |rs| && forall i :: 0 <= i < |rs| ==> ks[i] == KindOf(rs[i])
  {
    seq(|rs|, i requires 0 <= i < |rs| => KindOf(rs[i]))
  }

  // ---------------------------------------------------------------- what the recorder writes

  /** One captured conversation: its two endpoints, as keys, who of them was seen first, and the packets
      completed. */
  datatype Peer = Peer(client: int, server: int, clientFirst: bool, log: seq<Pkt>)

  /** `get_key` of a stream: packets of the client go under the endpoint that was not seen first, packets
      of the server under the other one. */
  function KeyOf(p: Peer, inbound: bool): int { if inbound == p.clientFirst then p.server else p.client }

  function RecordOf(p: Peer, pkt: Pkt): Record {
    Record(KeyOf(p, pkt.inbound), pkt.inbound, pkt.ts / 1000000, pkt.ts % 1000000, pkt.data)
  }

  /** Where a packet is filed, for the stream as it was made: under its destination if it came from the
      client, under its source otherwise. The source is the endpoint that was seen first. Nothing of the
      packet is lost, and its time comes apart in seconds and microseconds. */
  lemma RecordIs(p: Peer, pkt: Pkt)
    ensures var (src, dst) := if p.clientFirst then (p.client, p.server) else (p.server, p.client);
            var r := RecordOf(p, pkt);
            && r.key == (if pkt.inbound then dst else src)
            && r.inbound == pkt.inbound && r.data == pkt.data
            && r.sec * 1000000 + r.usec == pkt.ts && 0 <= r.usec < 1000000
  {}

  /** The records of one conversation, in the order they are written. */
  function RecordsOf(p: Peer): (rs: seq<Record>) {
    var idx := After(p.log, |p.log|).recorded;
    seq(|idx|, i requires 0 <= i < |idx| => RecordOf(p, p.log[idx[i]]))
  }

  /** The records of `rs` that conversation number `c` wrote. */
  function Own(rs: seq<Record>, owner: seq<nat>, c: nat): seq<Record>
    requires |owner| == |rs|
  {
    if rs == [] then []
    else
      var n := |rs| - 1;
      Own(rs[..n], owner[..n], c) + (if owner[n] == c then [rs[n]] else [])
  }

  /** `rs` is a recording of the conversations `peers`: each wrote its records in order, the others' in
      between, and a last one without payload if its end was seen. */
  ghost predicate Recording(rs: seq<Record>, peers: seq<Peer>, owner: seq<nat>) {
    && |owner| == |rs| && (forall i :: 0 <= i < |owner| ==> owner[i] < |peers|)
    && forall c: nat :: c < |peers| ==>
         && (forall k :: 0 <= k < |peers[c].log| ==> peers[c].log[k].data != [])
         && (|| Own(rs, owner, c) == RecordsOf(peers[c])
             || exists end :: Ends(end, KeyOf(peers[c], true)) && Own(rs, owner, c) == RecordsOf(peers[c]) + [end])
  }

  /** No endpoint gets the client packets of one conversation and the server packets of another. */
  predicate Apart(peers: seq<Peer>) {
    forall a, b :: 0 <= a < |peers| && 0 <= b < |peers| ==> KeyOf(peers[a], true) != KeyOf(peers[b], false)
  }

  /** So it is when all conversations were joined from the same side. */
  lemma JoinedAlikeApart(peers: seq<Peer>, clientFirst: bool)
    requires forall c :: 0 <= c < |peers| ==> peers[c].clientFirst == clientFirst
    requires forall a, b :: 0 <= a < |peers| && 0 <= b < |peers| ==> peers[a].client != peers[b].server
    ensures Apart(peers)
  {
  }

  lemma {:induction false} OwnHolds(rs: seq<Record>, owner: seq<nat>, i: nat)
    requires |owner| == |rs| && i < |rs|
    ensures rs[i] in Own(rs, owner, owner[i])
  {
    var n := |rs| - 1;
    if i < n {
      OwnHolds(rs[..n], owner[..n], i);
    }
  }

  /** A record with a payload is no stray server packet, and lies under the key of its direction. */
  lemma RecordIsFiled(rs: seq<Record>, peers: seq<Peer>, owner: seq<nat>, i: nat)
    requires Recording(rs, peers, owner) && i < |rs| && rs[i].data != []
    ensures KindOf(rs[i]) != Server && rs[i].key == KeyOf(peers[owner[i]], rs[i].inbound)
  {
    hide After, Own, Replay.Disciplined;
    var p := peers[owner[i]];
    OwnHolds(rs, owner, i);
    RecordingIsDisciplined(p.log);
    var own := RecordsOf(p);
    var k :| 0 <= k < |own| && own[k] == rs[i];
    KindOfRecorded(p, k);
  }

  lemma KindOfRecorded(p: Peer, k: nat)
    requires k < |RecordsOf(p)|
    ensures KindOf(RecordsOf(p)[k]) != Server
  {
    hide After;
    RecordingIsDisciplined(p.log);
    var idx := After(p.log, |p.log|).recorded;
    assert KindsAt(p.log, idx)[k] == KindOfPkt(p.log[idx[k]]);
  }

  // ---------------------------------------------------------------- what a stream receives

  lemma {:induction false} OfKeyComesFrom(rs: seq<Record>, key: int)
    ensures forall r :: r in OfKey(rs, key) ==> r in rs && r.key == key
  {
    if rs != [] {
      OfKeyComesFrom(rs[..|rs| - 1], key);
    }
  }

  /** Received records have a payload. */
  lemma ReceivedHasData(rs: seq<Record>, key: int)
    ensures forall r :: r in Received(rs, key) ==> r in rs && r.key == key && r.data != []
  {
    var n := LastEnd(rs, key);
    OfKeyComesFrom(rs[n..], key);
    forall r | r in Received(rs, key) ensures r.data != [] {
      var i :| 0 <= i < |rs[n..]| && rs[n..][i] == r;
      assert !Ends(rs[n + i], key);
    }
  }

  lemma {:induction false} NoEofNothingPending(ks: seq<Kind>, m: nat)
    requires m <= |ks| && forall k :: 0 <= k < |ks| ==> ks[k] == Eof
    ensures Replay.LastPending(ks, m) == Null
  {
  }

  /** The packets of one direction are safe to replay: without an EOF nothing is looked up, without a
      query nothing waits. */
  lemma OneDirectionIsSafe(ks: seq<Kind>)
    requires || (forall k :: 0 <= k < |ks| ==> ks[k] == Query || ks[k] == Client)
             || (forall k :: 0 <= k < |ks| ==> ks[k] == Eof)
    ensures Replay.Safe(ks)
  {
    forall e | 0 <= e < |ks| ensures Replay.MayFollow(ks, e) {
      if ks[e] == Eof {
        NoEofNothingPending(ks, e);
      }
    }
  }

  /** Each stream of a recording gets packets of one direction only, whatever is cut off its end. */
  lemma StretchIsSafe(peers: seq<Peer>, rs: seq<Record>, owner: seq<nat>, n: nat, key: int)
    requires Recording(rs, peers, owner) && Apart(peers) && n <= |rs|
    ensures Replay.Safe(KindsOf(Received(rs[..n], key)))
  {
    hide Received, Replay.Safe, Recording;
    var got := Received(rs[..n], key);
    ReceivedHasData(rs[..n], key);
    forall r | r in got
      ensures KindOf(r) != Server && exists c :: 0 <= c < |peers| && key == KeyOf(peers[c], r.inbound)
    {
      var i :| 0 <= i < n && rs[i] == r;
      RecordIsFiled(rs, peers, owner, i);
      OwnerExists(rs, peers, owner, i);
    }
    forall i, j | 0 <= i < |got| && 0 <= j < |got| ensures got[i].inbound == got[j].inbound {
      assert got[i] in got && got[j] in got;
    }
    var ks := KindsOf(got);
    assert forall i :: 0 <= i < |got| ==> got[i] in got;
    assert forall i :: 0 <= i < |got| ==> if got[i].inbound then ks[i] == Query || ks[i] == Client else ks[i] == Eof;
    OneDirectionIsSafe(ks);
  }

  lemma OwnerExists(rs: seq<Record>, peers: seq<Peer>, owner: seq<nat>, i: nat)
    requires Recording(rs, peers, owner) && i < |rs|
    ensures i < |owner| && owner[i] < |peers|
  {
  }

  // ---------------------------------------------------------------- replaying it

  /** What is replayed of a file of which `n` bytes are left, for one stream: the kinds of the packets it
      received since its last end. */
  function Replayed(rs: seq<Record>, n: nat, key: int): seq<Kind>
    requires n <= |EncodeAll(rs)|
  {
    KindsOf(Received(DecodeAll(EncodeAll(rs)[..n]), key))
  }

  /** Conversations are recorded, interleaved, into a file; the file is cut anywhere; what is left is read
      back and a stream is replayed, as many of its packets and in whatever interleaving of reader and
      replay thread. If the conversations were joined from the same side, no packet is touched after it
      was freed, and the queries executed are the first of those the stream received, in order. */
  lemma RecordedCaptureReplaysSafely(peers: seq<Peer>, rs: seq<Record>, owner: seq<nat>, n: nat, key: int,
                                     sched: seq<Replay.Label>)
    requires Recording(rs, peers, owner) && Apart(peers)
    requires n <= |EncodeAll(rs)| && forall i :: 0 <= i < |rs| ==> Fits(rs[i])
    requires Replay.Run(Replay.INIT, sched).Some? && Replay.Appended(sched) <= Replayed(rs, n, key)
    ensures var s := Replay.Run(Replay.INIT, sched).value; var ks := Replayed(rs, n, key);
            !s.chain.fault && s.exec <= Replay.Queries(ks, |ks|)
  {
    hide Replay.Run, Replay.Appended, Replay.Safe, Replay.Queries, Replay.Executed, ReplayGuarantees.Reaches,
         EncodeAll, DecodeAll, Received, Fits, Whole, Recording, Apart;
    TruncationExact(rs, n);
    StretchIsSafe(peers, rs, owner, Whole(rs, n), key);
    var ks := Replayed(rs, n, key);
    var appended := Replay.Appended(sched);
    Replay.SafePrefix(appended, ks);
    ReplayGuarantees.ExecutedIsPrefix(sched);
    Replay.QueriesOfPrefix(appended, ks, |appended|);
    ReplayGuarantees.QueriesGrow(ks, |appended|, |ks|);
  }

  /** For any file and any stream of it, safe or not: no replay fails exactly when the stretch it replays
      is safe. */
  lemma FileReplaysSafelyExactly(rs: seq<Record>, n: nat, key: int)
    requires n <= |EncodeAll(rs)|
    ensures var ks := Replayed(rs, n, key);
            (forall sched :: Replay.Run(Replay.INIT, sched).Some? && Replay.Appended(sched) <= ks ==>
               !Replay.Run(Replay.INIT, sched).value.chain.fault) <==> Replay.Safe(ks)
  {
    ReplayGuarantees.SafeExactly(Replayed(rs, n, key));
  }

  // ---------------------------------------------------------------- conversations joined from both sides

  const ASK := Pkt(true, [3], 0)
  const TELL := Pkt(true, [1], 0)
  const DONE := Pkt(false, [0xfe], 0)

  lemma AfterTwo(log: seq<Pkt>)
    requires |log| >= 2 && IsQuery(log[0]) && !IsQuery(log[1]) && !IsEof(log[1]) && log[1].inbound
    ensures After(log, 2) == Fold([0, 1], Some(0), [], [0])
  {
    var a1 := After(log, 1);
    assert a1 == Complete(EMPTY, log, 0);
    assert a1.list == [0] && a1.recorded == [0];
    assert After(log, 2) == Complete(a1, log, 1);
    var l: seq<nat> := [0];
    assert l + [1] == [0, 1];
  }

  /** A query, another client packet and an EOF: the EOF is written before the client packet. */
  lemma RecordedOfThree()
    ensures After([ASK, TELL, DONE], 3).recorded == [0, 2, 1]
  {
    hide After, Inbound;
    var log := [ASK, TELL, DONE];
    AfterTwo(log);
    ThreeFollowsTwo(log);
    SweptOfTwo(log);
    assert ([0, 1] + [2])[1..] == [1, 2];
    assert [0] + [2] + [1] == [0, 2, 1];
  }

  lemma SweptOfTwo(log: seq<Pkt>)
    requires |log| == 3 && log[1].inbound && !log[2].inbound
    ensures Inbound(log, [1, 2], 2, 3) == [1]
  {
    assert Inbound(log, [1, 2], 0, 3) == [];
    assert Inbound(log, [1, 2], 1, 3) == [] + [1];
    assert Inbound(log, [1, 2], 2, 3) == [1] + [];
  }

  lemma ThreeFollowsTwo(log: seq<Pkt>)
    requires |log| == 3
    ensures FoldOk(After(log, 2), 2) && After(log, 3) == Complete(After(log, 2), log, 2)
  {
  }

  lemma RecordedOfTwo()
    ensures After([ASK, DONE], 2).recorded == [0, 1]
  {
    var log := [ASK, DONE];
    assert After(log, 1) == Fold([0], Some(0), [], [0]);
    assert ([0] + [1])[1..] == [1];
    assert Inbound(log, [1], 1, 2) == [];
  }

  const JOINED_EARLY := Peer(1, 9, true, [ASK, TELL, DONE])
  const JOINED_LATE := Peer(2, 9, false, [ASK, DONE])

  /** One conversation whose client was seen first and one whose server was: the queries of the first and
      the EOFs of the second share a stream, and a replay of it uses a freed packet. */
  lemma JoinedFromBothSidesFails()
    returns (rs: seq<Record>, owner: seq<nat>, sched: seq<Replay.Label>)
    ensures Recording(rs, [JOINED_EARLY, JOINED_LATE], owner) && !Apart([JOINED_EARLY, JOINED_LATE])
    ensures forall i :: 0 <= i < |rs| ==> Fits(rs[i])
    ensures Replay.Run(Replay.INIT, sched).Some? && Replay.Run(Replay.INIT, sched).value.chain.fault
    ensures Replay.Appended(sched) <= Replayed(rs, |EncodeAll(rs)|, 9)
  {
    hide Replay.Run, Replay.Appended, After, EncodeAll, DecodeAll;
    var a, b := JOINED_EARLY, JOINED_LATE;
    var peers := [a, b];
    RecordedOfThree();
    RecordedOfTwo();
    var a0, a1, a2 := RecordOf(a, ASK), RecordOf(a, DONE), RecordOf(a, TELL);
    var b0, b1 := RecordOf(b, ASK), RecordOf(b, DONE);
    rs, owner := [a0, b0, a1, a2, b1], [0, 1, 0, 0, 1];
    assert RecordsOf(a) == [a0, a1, a2] && RecordsOf(b) == [b0, b1];
    OwnOfFive(rs, owner);
    RoundTrip(rs);
    assert EncodeAll(rs)[..|EncodeAll(rs)|] == EncodeAll(rs);
    ReceivedOfFive(rs);
    assert KindsOf([a0, a2, b1]) == [Query, Client, Eof];
    assert KeyOf(peers[0], true) == KeyOf(peers[1], false);
    sched := ReplayGuarantees.DisciplineIsNeeded();
  }

  lemma OwnOfFive(rs: seq<Record>, owner: seq<nat>)
    requires |rs| == 5 && owner == [0, 1, 0, 0, 1]
    ensures Own(rs, owner, 0) == [rs[0], rs[2], rs[3]] && Own(rs, owner, 1) == [rs[1], rs[4]]
  {
    forall c: nat | c < 2
      ensures Own(rs, owner, c) == if c == 0 then [rs[0], rs[2], rs[3]] else [rs[1], rs[4]]
    {
      OwnPrefix(rs, owner, 1, c);
      OwnPrefix(rs, owner, 2, c);
      OwnPrefix(rs, owner, 3, c);
      OwnPrefix(rs, owner, 4, c);
      OwnPrefix(rs, owner, 5, c);
      assert rs[..5] == rs && owner[..5] == owner;
    }
  }

  lemma OwnPrefix(rs: seq<Record>, owner: seq<nat>, n: nat, c: nat)
    requires |owner| == |rs| && 0 < n <= |rs|
    ensures Own(rs[..n], owner[..n], c) ==
            Own(rs[..n - 1], owner[..n - 1], c) + (if owner[n - 1] == c then [rs[n - 1]] else [])
  {
    assert rs[..n][..n - 1] == rs[..n - 1] && owner[..n][..n - 1] == owner[..n - 1];
  }

  lemma ReceivedOfFive(rs: seq<Record>)
    requires |rs| == 5 && forall i :: 0 <= i < 5 ==> rs[i].data != []
    requires forall i :: 0 <= i < 5 ==> (rs[i].key == 9 <==> i == 0 || i == 3 || i == 4)
    ensures Received(rs, 9) == [rs[0], rs[3], rs[4]]
  {
    assert rs == [] + [rs[0]] + [rs[1]] + [rs[2]] + [rs[3]] + [rs[4]];
    var r1 := [] + [rs[0]];
    var r2 := r1 + [rs[1]];
    var r3 := r2 + [rs[2]];
    var r4 := r3 + [rs[3]];
    ReceivedStep([], rs[0], 9);
    ReceivedStep(r1, rs[1], 9);
    ReceivedStep(r2, rs[2], 9);
    ReceivedStep(r3, rs[3], 9);
    ReceivedStep(r4, rs[4], 9);
    assert rs == r4 + [rs[4]];
  }
}
