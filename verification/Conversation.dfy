/** What `handle_packet_complete` (capturing, `do_run` unset) makes of a stream's packets, as a
    fold over the completed packets, and what that fold means. Packets are named by their
    position in `log`, the sequence of packets completed so far. */
module Conversation {
  import opened Wrappers
  import opened PacketChain
  import opened Replay
  import opened Reassembly

  /** A query together with the EOF that answers it. */
  datatype Answer = Answer(query: nat, eof: nat)

  /** `list` is the stream's packet list; `pending` is the position of `last_query` in it;
      `answers` are the `register_query` calls; `recorded` is what was written to the replay file. */
  datatype Fold = Fold(list: seq<nat>, pending: Option<nat>, answers: seq<Answer>, recorded: seq<nat>)

  const EMPTY := Fold([], None, [], [])

  predicate FoldOk(f: Fold, n: nat) {
    && (forall k :: 0 <= k < |f.list| ==> f.list[k] < n)
    && (forall k :: 0 <= k < |f.recorded| ==> f.recorded[k] < n)
    && (forall k :: 0 <= k < |f.answers| ==> f.answers[k].query < n && f.answers[k].eof < n)
    && (f.pending.Some? ==> f.pending.value < |f.list|)
  }

  /** The client packets among the first `k` of `idx`, in order. */
  function Inbound(log: seq<Pkt>, idx: seq<nat>, k: nat, n: nat): (r: seq<nat>)
    requires k <= |idx| && n <= |log| && forall i :: 0 <= i < |idx| ==> idx[i] < n
    ensures forall i :: 0 <= i < |r| ==> r[i] < n
  {
    if k == 0 then []
    else Inbound(log, idx, k - 1, n) + if log[idx[k - 1]].inbound then [idx[k - 1]] else []
  }

  function AllInbound(log: seq<Pkt>, idx: seq<nat>, n: nat): (r: seq<nat>)
    requires n <= |log| && forall i :: 0 <= i < |idx| ==> idx[i] < n
    ensures forall i :: 0 <= i < |r| ==> r[i] < n
  {
    Inbound(log, idx, |idx|, n)
  }

  lemma {:induction false} InboundMembers(log: seq<Pkt>, idx: seq<nat>, k: nat, n: nat, x: nat)
    requires k <= |idx| && n <= |log| && forall i :: 0 <= i < |idx| ==> idx[i] < n
    ensures x in Inbound(log, idx, k, n) <==> x in idx[..k] && log[x].inbound
  {
    if k > 0 {
      InboundMembers(log, idx, k - 1, n, x);
      assert idx[..k] == idx[..k - 1] + [idx[k - 1]];
    }
  }

  /** `handle_packet_complete` for packet `i`, the one just completed. */
  function Complete(f: Fold, log: seq<Pkt>, i: nat): (r: Fold)
    requires i < |log| && FoldOk(f, i)
    ensures FoldOk(r, i + 1)
  {
    var list := f.list + [i];
    if IsQuery(log[i]) then
      f.(list := list, pending := Some(|f.list|), recorded := f.recorded + [i])
    else if f.pending.Some? && IsEof(log[i]) then
      var q := f.pending.value;
      Fold(list[..q], None, f.answers + [Answer(list[q], i)],
           f.recorded + [i] + AllInbound(log, list[q + 1..], i + 1))
    else if !log[i].inbound && !IsEof(log[i]) then f
    else f.(list := list)
  }

  /** The stream after its first `n` packets. */
  function After(log: seq<Pkt>, n: nat): (r: Fold)
    requires n <= |log|
    ensures FoldOk(r, n)
  {
    if n == 0 then EMPTY else Complete(After(log, n - 1), log, n - 1)
  }

  /** Packets that arrive later do not change what was made of the earlier ones. */
  lemma {:induction false} AfterOfPrefix(a: seq<Pkt>, b: seq<Pkt>, n: nat)
    requires a <= b && n <= |a|
    ensures After(a, n) == After(b, n)
  {
    if n > 0 {
      AfterOfPrefix(a, b, n - 1);
      var f := After(a, n - 1);
      assert forall k: nat :: k < n ==> a[k] == b[k];
      InboundOfPrefix(a, b, f, n - 1);
    }
  }

  lemma InboundOfPrefix(a: seq<Pkt>, b: seq<Pkt>, f: Fold, i: nat)
    requires a <= b && i < |a| && FoldOk(f, i)
    ensures Complete(f, a, i) == Complete(f, b, i)
  {
    if f.pending.Some? && IsEof(a[i]) && !IsQuery(a[i]) {
      var rest := (f.list + [i])[f.pending.value + 1..];
      InboundSame(a, b, rest, |rest|, i + 1);
    }
  }

  lemma {:induction false} InboundSame(a: seq<Pkt>, b: seq<Pkt>, idx: seq<nat>, k: nat, n: nat)
    requires a <= b && k <= |idx| && n <= |a| && forall i :: 0 <= i < |idx| ==> idx[i] < n
    ensures Inbound(a, idx, k, n) == Inbound(b, idx, k, n)
  {
    if k > 0 {
      InboundSame(a, b, idx, k - 1, n);
    }
  }

  /** One more packet. */
  lemma AfterOne(log: seq<Pkt>, more: seq<Pkt>)
    requires |more| == |log| + 1 && log <= more
    ensures FoldOk(After(log, |log|), |log|) && After(more, |log|) == After(log, |log|)
    ensures After(more, |more|) == Complete(After(log, |log|), more, |log|)
  {
    AfterOfPrefix(log, more, |log|);
  }

  /** Registrations are never taken back. */
  lemma {:induction false} AnswersGrow(log: seq<Pkt>, m: nat, n: nat)
    requires m <= n <= |log|
    ensures After(log, m).answers <= After(log, n).answers
  {
    if m < n {
      AnswersGrow(log, m, n - 1);
    }
  }

  /** The queries registered for `answers`, and their execution times in microseconds. */
  function AnsweredPkts(log: seq<Pkt>, answers: seq<Answer>): (r: seq<Pkt>)
    requires forall k :: 0 <= k < |answers| ==> answers[k].query < |log| && answers[k].eof < |log|
    ensures |r| == |answers|
  {
    seq(|answers|, k requires 0 <= k < |answers| => log[answers[k].query])
  }

  function AnswerTimes(log: seq<Pkt>, answers: seq<Answer>): (r: seq<int>)
    requires forall k :: 0 <= k < |answers| ==> answers[k].query < |log| && answers[k].eof < |log|
    ensures |r| == |answers|
  {
    seq(|answers|, k requires 0 <= k < |answers| => log[answers[k].eof].ts - log[answers[k].query].ts)
  }

  // ---------------------------------------------------------------- what the fold means

  /** Packet `k` is a query or an EOF. */
  predicate Marks(log: seq<Pkt>, k: nat) {
    k < |log| && (IsQuery(log[k]) || IsEof(log[k]))
  }

  /** EOF `b` answers query `a`: no query and no EOF lies between them. */
  predicate Answers(log: seq<Pkt>, a: nat, b: nat) {
    && a < b < |log| && IsQuery(log[a]) && IsEof(log[b])
    && forall k: nat :: a < k < b ==> !Marks(log, k)
  }

  /** Query `a` is waiting for its EOF after `n` packets. */
  predicate Waits(log: seq<Pkt>, n: nat, a: nat) {
    && a < n <= |log| && IsQuery(log[a])
    && forall k: nat :: a < k < n ==> !Marks(log, k)
  }

  /** Packet `i` is dropped on arrival or removed with an answered query. */
  ghost predicate Removed(log: seq<Pkt>, n: nat, i: nat) {
    && i < n <= |log|
    && ((!log[i].inbound && !IsEof(log[i])) || exists a: nat, b: nat :: Answers(log, a, b) && b < n && a <= i <= b)
  }

  /** The pending query is the one still waiting, and everything else is where it should be. */
  ghost predicate Meaning(f: Fold, log: seq<Pkt>, n: nat)
    requires n <= |log| && FoldOk(f, n)
  {
    && (forall x, y :: 0 <= x < y < |f.list| ==> f.list[x] < f.list[y])
    && (f.pending.Some? ==> Waits(log, n, f.list[f.pending.value]))
    && (forall a: nat :: Waits(log, n, a) ==> f.pending.Some? && f.list[f.pending.value] == a)
    && (forall i: nat :: i < n ==> (i in f.list <==> !Removed(log, n, i)))
    && (forall a: nat, b: nat :: Answer(a, b) in f.answers <==> Answers(log, a, b) && b < n)
    && (forall x, y :: 0 <= x < y < |f.answers| ==> f.answers[x].eof < f.answers[y].query)
  }

  lemma QueryArrives(f: Fold, log: seq<Pkt>, i: nat, n: nat)
    requires n == i + 1 <= |log| && FoldOk(f, i) && Meaning(f, log, i) && IsQuery(log[i])
    ensures Meaning(Complete(f, log, i), log, n)
  {
    var r := Complete(f, log, i);
    forall a: nat | Waits(log, n, a) ensures a == i {
      assert a == i || !Marks(log, i);
    }
    assert Waits(log, n, i);
    forall k: nat | k < n ensures k in r.list <==> !Removed(log, n, k) {
      assert k < i ==> (Removed(log, n, k) <==> Removed(log, i, k));
    }
  }

  lemma AnsweredRange(log: seq<Pkt>, i: nat, n: nat, q: nat)
    requires n == i + 1 <= |log| && IsEof(log[i]) && Waits(log, i, q)
    ensures Answers(log, q, i)
    ensures forall a: nat :: Answers(log, a, i) ==> a == q
    ensures forall k: nat :: k < q ==> (Removed(log, n, k) <==> Removed(log, i, k))
    ensures forall k: nat :: q <= k <= i ==> Removed(log, n, k)
    ensures forall a: nat :: !Waits(log, n, a)
  {
    forall a: nat | Answers(log, a, i) ensures a == q {
      assert a < q ==> !Marks(log, q);
      assert q < a ==> !Marks(log, a);
    }
    forall a: nat ensures !Waits(log, n, a) {
      assert a < i ==> Marks(log, i);
    }
    assert Answers(log, q, i);
    forall k: nat | k < q && Removed(log, n, k) ensures Removed(log, i, k) {
      if log[k].inbound || IsEof(log[k]) {
        var a: nat, b: nat :| Answers(log, a, b) && b < n && a <= k <= b;
        assert b < i;
      }
    }
  }

  lemma AnswerArrives(f: Fold, log: seq<Pkt>, i: nat, n: nat)
    requires n == i + 1 <= |log| && FoldOk(f, i) && Meaning(f, log, i) && IsEof(log[i]) && f.pending.Some?
    ensures Meaning(Complete(f, log, i), log, n)
  {
    var r := Complete(f, log, i);
    var pos := f.pending.value;
    var q := f.list[pos];
    AnsweredRange(log, i, n, q);
    hide Removed;
    assert (f.list + [i])[..pos] == f.list[..pos] && (f.list + [i])[pos] == q;
    forall k: nat | k < n ensures k in r.list <==> !Removed(log, n, k) {
      if k < q {
        if k in f.list {
          var x :| 0 <= x < |f.list| && f.list[x] == k;
          assert x < pos;
          assert r.list[x] == k;
        }
      } else {
        assert k !in f.list[..pos];
      }
    }
    forall x | 0 <= x < |f.answers| ensures f.answers[x].eof < q {
      assert f.answers[x] in f.answers;
      assert Answers(log, f.answers[x].query, f.answers[x].eof);
      assert Marks(log, f.answers[x].eof);
    }
  }

  lemma NothingAnswered(f: Fold, log: seq<Pkt>, i: nat, n: nat)
    requires n == i + 1 <= |log| && FoldOk(f, i) && Meaning(f, log, i)
    requires !IsQuery(log[i]) && (IsEof(log[i]) ==> f.pending.None?)
    ensures forall a: nat :: Waits(log, n, a) <==> Waits(log, i, a)
    ensures forall a: nat :: !Answers(log, a, i)
  {
    forall a: nat ensures Waits(log, n, a) <==> Waits(log, i, a) {
      assert Waits(log, i, a) ==> !Marks(log, i);
    }
    forall a: nat ensures !Answers(log, a, i) {
      assert Answers(log, a, i) ==> Waits(log, i, a);
    }
  }

  lemma OtherArrives(f: Fold, log: seq<Pkt>, i: nat, n: nat)
    requires n == i + 1 <= |log| && FoldOk(f, i) && Meaning(f, log, i)
    requires !IsQuery(log[i]) && (IsEof(log[i]) ==> f.pending.None?)
    ensures Meaning(Complete(f, log, i), log, n)
  {
    var r := Complete(f, log, i);
    NothingAnswered(f, log, i, n);
    forall k: nat | k < n ensures k in r.list <==> !Removed(log, n, k) {
      assert k < i ==> (Removed(log, n, k) <==> Removed(log, i, k));
    }
    assert r.pending.Some? ==> r.list[r.pending.value] == f.list[f.pending.value];
  }

  lemma NothingYet(log: seq<Pkt>)
    ensures Meaning(After(log, 0), log, 0)
  {
  }

  /** After any number of packets: the list holds, in order, exactly the packets that were neither
      dropped on arrival (server packets that are no EOF) nor removed with an answered query;
      each query answered by an EOF with no query or EOF between has been registered exactly once,
      in order; and `last_query` is the query still waiting for its answer. */
  lemma {:induction false} ListAndAnswers(log: seq<Pkt>, n: nat)
    requires n <= |log|
    ensures Meaning(After(log, n), log, n)
  {
    hide Meaning, Complete, FoldOk, KindOfPkt;
    if n == 0 {
      NothingYet(log);
    } else {
      ListAndAnswers(log, n - 1);
      var f := After(log, n - 1);
      if IsQuery(log[n - 1]) {
        QueryArrives(f, log, n - 1, n);
      } else if IsEof(log[n - 1]) && f.pending.Some? {
        AnswerArrives(f, log, n - 1, n);
      } else {
        OtherArrives(f, log, n - 1, n);
      }
    }
  }

  // ---------------------------------------------------------------- what the recorder writes

  function KindsAt(log: seq<Pkt>, idx: seq<nat>): (ks: seq<Kind>)
    requires forall k :: 0 <= k < |idx| ==> idx[k] < |log|
    ensures |ks| == |idx| && forall k :: 0 <= k < |ks| ==> ks[k] == KindOfPkt(log[idx[k]])
  {
    seq(|idx|, k requires 0 <= k < |idx| => KindOfPkt(log[idx[k]]))
  }

  /** Packets older than `n`, in a disciplined order. */
  ghost predicate Recorded(log: seq<Pkt>, idx: seq<nat>, n: nat)
    requires n <= |log|
  {
    && (forall k :: 0 <= k < |idx| ==> idx[k] < n)
    && Disciplined(KindsAt(log, idx))
  }

  /** What the recorder has written after `n` packets is disciplined, and a query is its last
      packet only while that query waits. */
  ghost predicate RecordOk(f: Fold, log: seq<Pkt>, n: nat)
    requires n <= |log| && FoldOk(f, n)
  {
    && Recorded(log, f.recorded, n)
    && (|f.recorded| > 0 && IsQuery(log[f.recorded[|f.recorded| - 1]]) ==> f.pending.Some?)
    && (f.pending.Some? ==> forall k :: f.pending.value < k < |f.list| ==> KindOfPkt(log[f.list[k]]) == Client)
  }

  /** Adding one packet to a disciplined record of packets older than `n`. */
  lemma RecordOne(log: seq<Pkt>, idx: seq<nat>, x: nat, n: nat)
    requires x < n <= |log| && Recorded(log, idx, n)
    requires KindOfPkt(log[x]) != Server
    requires KindOfPkt(log[x]) == Client ==> idx == [] || !IsQuery(log[idx[|idx| - 1]])
    ensures Recorded(log, idx + [x], n)
  {
    assert KindsAt(log, idx + [x]) == KindsAt(log, idx) + [KindOfPkt(log[x])];
  }

  ghost predicate Clients(log: seq<Pkt>, idx: seq<nat>, n: nat)
    requires n <= |log|
  {
    forall k :: 0 <= k < |idx| ==> idx[k] < n && KindOfPkt(log[idx[k]]) == Client
  }

  /** Adding client packets after a packet that is no query. */
  lemma {:induction false} RecordClients(log: seq<Pkt>, idx: seq<nat>, tail: seq<nat>, n: nat)
    requires n <= |log| && Recorded(log, idx, n) && Clients(log, tail, n)
    requires idx != [] && !IsQuery(log[idx[|idx| - 1]])
    ensures Recorded(log, idx + tail, n) && !IsQuery(log[(idx + tail)[|idx + tail| - 1]])
    decreases |tail|
  {
    if tail == [] {
      assert idx + tail == idx;
    } else {
      hide Disciplined;
      RecordOne(log, idx, tail[0], n);
      assert idx + tail == idx + [tail[0]] + tail[1..];
      RecordClients(log, idx + [tail[0]], tail[1..], n);
    }
  }

  /** The packets of the sweep that are recorded are client packets older than the EOF. */
  lemma SweptClients(f: Fold, log: seq<Pkt>, i: nat)
    requires i < |log| && FoldOk(f, i) && RecordOk(f, log, i) && f.pending.Some? && IsEof(log[i])
    ensures Clients(log, AllInbound(log, (f.list + [i])[f.pending.value + 1..], i + 1), i + 1)
  {
    var rest := (f.list + [i])[f.pending.value + 1..];
    var tail := AllInbound(log, rest, i + 1);
    forall k | 0 <= k < |tail| ensures tail[k] < i && KindOfPkt(log[tail[k]]) == Client {
      InboundMembers(log, rest, |rest|, i + 1, tail[k]);
      var j :| 0 <= j < |rest| && rest[j] == tail[k];
      assert rest[j] == (f.list + [i])[f.pending.value + 1 + j];
    }
  }

  lemma AnswerKeepsRecord(f: Fold, log: seq<Pkt>, i: nat)
    requires i < |log| && FoldOk(f, i) && RecordOk(f, log, i) && f.pending.Some? && IsEof(log[i])
    ensures RecordOk(Complete(f, log, i), log, i + 1)
  {
    hide Disciplined, AllInbound, Clients;
    SweptClients(f, log, i);
    var tail := AllInbound(log, (f.list + [i])[f.pending.value + 1..], i + 1);
    RecordOne(log, f.recorded, i, i + 1);
    RecordClients(log, f.recorded + [i], tail, i + 1);
  }

  lemma QueryKeepsRecord(f: Fold, log: seq<Pkt>, i: nat)
    requires i < |log| && FoldOk(f, i) && RecordOk(f, log, i) && IsQuery(log[i])
    ensures RecordOk(Complete(f, log, i), log, i + 1)
  {
    hide Disciplined;
    RecordOne(log, f.recorded, i, i + 1);
  }

  /** Inductive step of `RecordingIsDisciplined`. */
  lemma CompleteKeepsRecord(f: Fold, log: seq<Pkt>, i: nat)
    requires i < |log| && FoldOk(f, i) && RecordOk(f, log, i)
    ensures RecordOk(Complete(f, log, i), log, i + 1)
  {
    if IsQuery(log[i]) {
      QueryKeepsRecord(f, log, i);
    } else if f.pending.Some? && IsEof(log[i]) {
      AnswerKeepsRecord(f, log, i);
    } else {
      hide Disciplined;
      assert f.pending.Some? ==> forall k :: f.pending.value < k < |f.list| ==> (f.list + [i])[k] == f.list[k];
    }
  }

  lemma NothingRecorded(log: seq<Pkt>)
    ensures RecordOk(EMPTY, log, 0)
  {
    assert KindsAt(log, []) == [];
  }

  lemma {:induction false} RecordKept(log: seq<Pkt>, n: nat)
    requires n <= |log|
    ensures RecordOk(After(log, n), log, n)
  {
    hide RecordOk, Complete;
    if n == 0 {
      NothingRecorded(log);
    } else {
      RecordKept(log, n - 1);
      CompleteKeepsRecord(After(log, n - 1), log, n - 1);
    }
  }

  /** The replay file of any captured stream keeps the discipline the replay protocol relies on:
      only queries, EOFs and client packets, and after a query another query or an EOF. */
  lemma RecordingIsDisciplined(log: seq<Pkt>)
    ensures var rec := After(log, |log|).recorded;
            && (forall k :: 0 <= k < |rec| ==> rec[k] < |log|)
            && Disciplined(KindsAt(log, rec))
  {
    hide Disciplined, After;
    RecordKept(log, |log|);
  }
}
