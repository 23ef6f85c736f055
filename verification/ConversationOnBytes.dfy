/** Conversations read off the first byte of each packet: which queries are answered, and what the recorder
    writes. */
module ConversationOnBytes {
  import opened Wrappers
  import opened PacketChain
  import opened Reassembly
  import opened Conversation

  /** A packet in the given direction that starts with byte `b`. */
  predicate Opens(p: Pkt, inbound: bool, b: int) { p.inbound == inbound && p.data != [] && p.data[0] == b }

  // ---------------------------------------------------------------- answers

  /** Packet `b` answers packet `a`: a client packet that starts with 3, and the next packet of note is a
      server packet that starts with 254. Nothing else starts or ends the wait, an error reply least of
      all. */
  ghost predicate RawAnswer(log: seq<Pkt>, a: nat, b: nat) {
    && a < b < |log| && Opens(log[a], true, 3) && Opens(log[b], false, 254)
    && forall k: nat :: a < k < b ==> !Opens(log[k], true, 3) && !Opens(log[k], false, 254)
  }

  /** What `is_query` and `is_eof` make of a packet. */
  lemma KindOnBytes(p: Pkt)
    ensures KindOfPkt(p) == Query <==> Opens(p, true, 3)
    ensures KindOfPkt(p) == Eof <==> Opens(p, false, 254)
    ensures KindOfPkt(p) == Client <==> p.inbound && !Opens(p, true, 3)
    ensures KindOfPkt(p) == Server <==> !p.inbound && !Opens(p, false, 254)
  {}

  lemma AnswersRead(log: seq<Pkt>, a: nat, b: nat)
    ensures Answers(log, a, b) <==> RawAnswer(log, a, b)
  {
    assert forall k: nat :: k < |log| ==> (Marks(log, k) <==> Opens(log[k], true, 3) || Opens(log[k], false, 254));
  }

  /** After any packets the registered answers are exactly those one reads off the bytes, in order, and the
      time of each is that between its two packets. */
  lemma AnswersOnBytes(log: seq<Pkt>, n: nat)
    requires n <= |log|
    ensures var all := After(log, n).answers;
            && (forall a: nat, b: nat :: Answer(a, b) in all <==> RawAnswer(log, a, b) && b < n)
            && (forall x :: 0 <= x < |all| ==> all[x].query < all[x].eof < n)
            && (forall x, y :: 0 <= x < y < |all| ==> all[x].eof < all[y].query)
  {
    hide After, Answers;
    ListAndAnswers(log, n);
    var all := After(log, n).answers;
    forall a: nat, b: nat
      ensures Answer(a, b) in all <==> RawAnswer(log, a, b) && b < n
    {
      AnswersRead(log, a, b);
    }
    forall x | 0 <= x < |all|
      ensures all[x].query < all[x].eof < n
    {
      assert Answer(all[x].query, all[x].eof) in all;
      AnswersRead(log, all[x].query, all[x].eof);
    }
  }

  // ---------------------------------------------------------------- what is recorded

  /** Packet `k` is written when EOF `b` comes: a client packet between it and the query it answers. */
  ghost predicate SweptBy(log: seq<Pkt>, k: nat, b: nat) {
    k < |log| && log[k].inbound && exists a: nat :: Answers(log, a, b) && a < k < b
  }

  /** Packet `k` is in the record of the first `n` packets: a query, an EOF that answers one, or swept. */
  ghost predicate IsRecorded(log: seq<Pkt>, n: nat, k: nat) {
    && k < n <= |log|
    && (|| IsQuery(log[k])
        || (exists a: nat :: Answers(log, a, k))
        || exists b: nat :: b < n && SweptBy(log, k, b))
  }

  /** Packet `i` is written before packet `k`: in order of arrival, but an EOF before what it sweeps. */
  ghost predicate WrittenBefore(log: seq<Pkt>, i: nat, k: nat) {
    (i < k && !SweptBy(log, i, k)) || SweptBy(log, k, i)
  }

  /** `idx` holds these packets in this order. */
  ghost predicate RecordMeans(log: seq<Pkt>, idx: seq<nat>, n: nat) {
    && (forall k: nat :: k in idx <==> IsRecorded(log, n, k))
    && (forall x, y :: 0 <= x < y < |idx| ==> WrittenBefore(log, idx[x], idx[y]))
  }

  lemma QueryRecorded(log: seq<Pkt>, idx: seq<nat>, i: nat)
    requires i < |log| && RecordMeans(log, idx, i) && IsQuery(log[i])
    ensures RecordMeans(log, idx + [i], i + 1)
  {
    var more := idx + [i];
    forall k: nat ensures k in more <==> IsRecorded(log, i + 1, k) {
      assert k in more <==> k in idx || k == i;
      assert forall b: nat :: b <= i && SweptBy(log, k, b) ==> b < i;
    }
    forall x, y | 0 <= x < y < |more| ensures WrittenBefore(log, more[x], more[y]) {
      assert y < |idx| ==> WrittenBefore(log, idx[x], idx[y]);
      assert idx[x] in idx;
    }
  }

  lemma NothingRecorded(log: seq<Pkt>, idx: seq<nat>, i: nat)
    requires i < |log| && RecordMeans(log, idx, i) && !IsQuery(log[i]) && forall a: nat :: !Answers(log, a, i)
    ensures RecordMeans(log, idx, i + 1)
  {
    forall k: nat ensures k in idx <==> IsRecorded(log, i + 1, k) {
      assert forall b: nat :: b <= i && SweptBy(log, k, b) ==> b < i;
    }
  }

  /** Between a waiting query and its EOF nothing was written yet. */
  lemma WrittenUpToQuery(log: seq<Pkt>, q: nat, i: nat, k: nat)
    requires Answers(log, q, i) && IsRecorded(log, i, k)
    ensures k <= q && !SweptBy(log, k, i)
  {
    forall b: nat | b < i && SweptBy(log, k, b) ensures b <= q {
      assert Marks(log, b);
    }
    assert q < k ==> !Marks(log, k);
    forall a: nat | Answers(log, a, i) ensures a == q {
      assert a < q ==> !Marks(log, q);
      assert q < a ==> !Marks(log, a);
    }
  }

  /** The packets swept by the EOF, in order. */
  ghost predicate IsSweep(log: seq<Pkt>, i: nat, sweep: seq<nat>) {
    && (forall k: nat :: k in sweep <==> SweptBy(log, k, i))
    && Rises(sweep)
  }

  predicate Rises(ks: seq<nat>) { forall x, y :: 0 <= x < y < |ks| ==> ks[x] < ks[y] }

  predicate UpTo(ks: seq<nat>, top: int) { forall x :: 0 <= x < |ks| ==> ks[x] <= top }

  lemma AnswerRecorded(log: seq<Pkt>, idx: seq<nat>, q: nat, i: nat, sweep: seq<nat>)
    requires i < |log| && RecordMeans(log, idx, i) && Answers(log, q, i) && IsSweep(log, i, sweep)
    ensures RecordMeans(log, idx + [i] + sweep, i + 1)
  {
    hide Answers;
    var more := idx + [i] + sweep;
    forall k: nat ensures k in more <==> IsRecorded(log, i + 1, k) {
      assert k in more <==> k in idx || k == i || k in sweep;
      AnswerAddsSweep(log, q, i, k);
    }
    forall k | k in idx ensures k <= q && !SweptBy(log, k, i) && k < i {
      WrittenUpToQuery(log, q, i, k);
    }
    forall x, y | 0 <= x < y < |more| ensures WrittenBefore(log, more[x], more[y]) {
      if y < |idx| {
        assert WrittenBefore(log, idx[x], idx[y]);
      } else if y > |idx| {
        var k := sweep[y - |idx| - 1];
        assert more[y] == k && k in sweep;
        SweptIsLast(log, k, i, more[x]);
        if x < |idx| {
          assert more[x] in idx;
          SweptAfterQuery(log, q, i, k);
        } else if x > |idx| {
          assert more[x] == sweep[x - |idx| - 1];
        }
      } else {
        assert more[x] in idx;
      }
    }
  }

  lemma AnswerAddsSweep(log: seq<Pkt>, q: nat, i: nat, k: nat)
    requires Answers(log, q, i)
    ensures IsRecorded(log, i + 1, k) <==> IsRecorded(log, i, k) || k == i || SweptBy(log, k, i)
  {
    if k < i && IsRecorded(log, i + 1, k) && !IsQuery(log[k]) && !exists a: nat :: Answers(log, a, k) {
      var b: nat :| b < i + 1 && SweptBy(log, k, b);
    }
  }

  /** A swept packet is no EOF and sweeps nothing. */
  lemma SweptIsLast(log: seq<Pkt>, k: nat, i: nat, other: nat)
    requires SweptBy(log, k, i)
    ensures !SweptBy(log, other, k)
  {}

  lemma SweptAfterQuery(log: seq<Pkt>, q: nat, i: nat, k: nat)
    requires Answers(log, q, i) && SweptBy(log, k, i)
    ensures q < k
  {
    var a: nat :| Answers(log, a, i) && a < k < i;
    assert a < q ==> !Marks(log, q);
  }

  lemma {:induction false} InboundInOrder(log: seq<Pkt>, idx: seq<nat>, k: nat, n: nat)
    requires k <= |idx| && n <= |log| && forall i :: 0 <= i < |idx| ==> idx[i] < n
    requires Rises(idx)
    ensures Rises(Inbound(log, idx, k, n)) && UpTo(Inbound(log, idx, k, n), if k == 0 then -1 else idx[k - 1])
  {
    if k > 0 {
      InboundInOrder(log, idx, k - 1, n);
      assert k > 1 ==> idx[k - 2] < idx[k - 1];
    }
  }

  /** What the loop of the EOF branch goes through. */
  lemma SweepIs(f: Fold, log: seq<Pkt>, i: nat)
    requires i < |log| && FoldOk(f, i) && Meaning(f, log, i) && f.pending.Some? && IsEof(log[i])
    ensures IsSweep(log, i, AllInbound(log, (f.list + [i])[f.pending.value + 1..], i + 1))
    ensures Answers(log, f.list[f.pending.value], i)
  {
    var pos := f.pending.value;
    var q := f.list[pos];
    var rest := (f.list + [i])[pos + 1..];
    AnsweredRange(log, i, i + 1, q);
    InboundInOrder(log, rest, |rest|, i + 1);
    forall k: nat ensures k in AllInbound(log, rest, i + 1) <==> SweptBy(log, k, i) {
      InboundMembers(log, rest, |rest|, i + 1, k);
      assert rest[..|rest|] == rest;
      InRest(f, log, i, k);
    }
  }

  lemma InRest(f: Fold, log: seq<Pkt>, i: nat, k: nat)
    requires i < |log| && FoldOk(f, i) && Meaning(f, log, i) && f.pending.Some? && IsEof(log[i])
    requires Answers(log, f.list[f.pending.value], i)
    ensures k in (f.list + [i])[f.pending.value + 1..] && log[k].inbound <==> SweptBy(log, k, i)
  {
    var pos := f.pending.value;
    var q := f.list[pos];
    var rest := (f.list + [i])[pos + 1..];
    if k in rest && log[k].inbound {
      var x :| 0 <= x < |rest| && rest[x] == k;
      assert rest[x] == (f.list + [i])[pos + 1 + x];
      assert q < k < i;
    }
    if SweptBy(log, k, i) {
      SweptAfterQuery(log, q, i, k);
      NotRemoved(log, q, i, k);
      assert k in f.list;
      var x :| 0 <= x < |f.list| && f.list[x] == k;
      assert x > pos;
      assert rest[x - pos - 1] == k;
    }
  }

  lemma NotRemoved(log: seq<Pkt>, q: nat, i: nat, k: nat)
    requires Answers(log, q, i) && SweptBy(log, k, i) && q < k
    ensures !Removed(log, i, k)
  {
    if a: nat, b: nat :| Answers(log, a, b) && b < i && a <= k <= b {
      assert Marks(log, b);
    }
  }

  /** What the replay file gets of any conversation: exactly the queries, the EOFs that answer one, and the
      client packets between a query and the EOF that answers it, each once, in order of arrival but for
      an EOF, which is written before the packets it sweeps. */
  lemma {:induction false} RecordedExactly(log: seq<Pkt>, n: nat)
    requires n <= |log|
    ensures RecordMeans(log, After(log, n).recorded, n)
  {
    hide RecordMeans, Meaning, IsSweep, AllInbound;
    if n == 0 {
      NothingToRecord(log);
    } else {
      var i := n - 1;
      var f := After(log, i);
      RecordedExactly(log, i);
      ListAndAnswers(log, i);
      if IsQuery(log[i]) {
        QueryRecorded(log, f.recorded, i);
      } else if f.pending.Some? && IsEof(log[i]) {
        SweepIs(f, log, i);
        AnswerRecorded(log, f.recorded, f.list[f.pending.value], i,
                       AllInbound(log, (f.list + [i])[f.pending.value + 1..], i + 1));
      } else {
        Conversation.NothingAnswered(f, log, i, n);
        NothingRecorded(log, f.recorded, i);
      }
    }
  }

  lemma NothingToRecord(log: seq<Pkt>)
    ensures RecordMeans(log, EMPTY.recorded, 0)
  {}
}
