/** One conversation, from the messages its peers write to the queries that are registered for it. */
module CapturedMessages {
  import opened Wrappers
  import opened Reassembly
  import opened Segmentation
  import opened HeaderCuts
  import opened Conversation
  import opened ConversationOnBytes
  import opened Framing
  import opened Capture
  import opened CaptureRun

  /** The segments of one stream as events. */
  function Arrivals(key: nat, segs: seq<Segment>): (es: seq<Event>) {
    seq(|segs|, i requires 0 <= i < |segs| => Received(key, segs[i]))
  }

  lemma {:induction false} FeedGrows(a: Asm, items: seq<Item>)
    requires AsmOk(a)
    ensures a.log <= Feed(a, items).log
    decreases |items|
  {
    hide HeaderLen;
    if items != [] {
      FeedGrows(FeedByte(a, items[0]), items[1..]);
    }
  }

  lemma {:induction false} SegmentsGrow(a: Asm, segs: seq<Segment>)
    requires AsmOk(a)
    ensures a.log <= FeedSegments(a, segs).log && (a.zero ==> FeedSegments(a, segs).zero)
    decreases |segs|
  {
    hide Feed;
    if segs != [] {
      FeedGrows(a.(hpos := 0), Items(segs[0]));
      if a.zero {
        FeedStuck(a.(hpos := 0), Items(segs[0]));
      }
      SegmentsGrow(FeedSegment(a, segs[0]), segs[1..]);
    }
  }

  /** The run of the segments of one stream. */
  lemma {:induction false} StreamRun(m: Progress, key: nat, segs: seq<Segment>)
    requires Good(m) && key in m && !FeedSegments(m[key], segs).zero
    ensures AllFine(m, Arrivals(key, segs)) && m[key].log <= FeedSegments(m[key], segs).log
    ensures var es, l0, l1 := Arrivals(key, segs), m[key].log, FeedSegments(m[key], segs).log;
            && AllQueries(m, es) == AnsweredPkts(l1, Stream.NewAnswers(l0, l1))
            && AllTimes(m, es) == AnswerTimes(l1, Stream.NewAnswers(l0, l1))
            && Final(m, es) == m[key := FeedSegments(m[key], segs)]
    decreases |segs|
  {
    hide FeedSegment, AnsweredPkts, AnswerTimes, AsmOk, Stream.NewAnswers;
    var es := Arrivals(key, segs);
    if segs == [] {
      Stream.NothingAnswered(m[key].log);
      assert m[key := m[key]] == m;
    } else {
      var a, one := m[key], FeedSegment(m[key], segs[0]);
      SegmentsGrow(a, segs[..1]);
      assert FeedSegments(a, segs[..1]) == one by {
        OneSegmentIsOne(a, segs[0], segs[..1]);
      }
      SegmentsGrow(one, segs[1..]);
      var next := m[key := one];
      assert es[0] == Received(key, segs[0]) && es[1..] == Arrivals(key, segs[1..]) && Next(m, es[0]) == next;
      StreamRun(next, key, segs[1..]);
      Stream.HistoryComposes(a.log, one.log, FeedSegments(one, segs[1..]).log);
      assert next[key := FeedSegments(one, segs[1..])] == m[key := FeedSegments(one, segs[1..])];
    }
  }

  lemma OneSegmentIsOne(a: Asm, s: Segment, segs: seq<Segment>)
    requires AsmOk(a) && segs == [s]
    ensures FeedSegments(a, segs) == FeedSegment(a, s)
  {
    hide FeedSegment;
    assert segs[1..] == [];
  }

  // ---------------------------------------------------------------- messages

  /** A message in the given direction whose payload starts with byte `b`. */
  predicate Says(m: Message, inbound: bool, b: int) {
    m.inbound == inbound && m.payload != [] && m.payload[0] == b
  }

  /** Message `b` answers message `a`: a query of the client, and the next query or EOF is an EOF of the
      server. */
  ghost predicate Replies(ms: seq<Message>, a: nat, b: nat) {
    && a < b < |ms| && Says(ms[a], true, 3) && Says(ms[b], false, 254)
    && forall k: nat :: a < k < b ==> !Says(ms[k], true, 3) && !Says(ms[k], false, 254)
  }

  /** A conversation of any messages, captured from its start in any segments whose cuts are harmless: what
      is registered are the queries that were answered, each once and in order, with their text, and the
      time from the header of the query to the header of the EOF. */
  lemma CapturedConversation(key: nat, hdr: seq<byte>, segs: seq<Segment>, ms: seq<Message>)
    returns (replies: seq<Answer>)
    requires |hdr| == 4 && AllFramable(ms) && Carries(Flatten(segs), ms)
    requires Harmless(Flatten(segs), HeaderCuts.Marks(segs), hdr)
    ensures forall a: nat, b: nat :: Answer(a, b) in replies <==> Replies(ms, a, b)
    ensures forall x, y :: 0 <= x < y < |replies| ==> replies[x].eof < replies[y].query
    ensures forall x :: 0 <= x < |replies| ==> replies[x].query < replies[x].eof < |ms|
    ensures var es := [Opened(key, hdr)] + Arrivals(key, segs);
            && AllFine(map[], es) && |AllQueries(map[], es)| == |AllTimes(map[], es)| == |replies|
            && forall x :: 0 <= x < |replies| ==>
                 var ps := Packets(Flatten(segs), ms);
                 && AllQueries(map[], es)[x].data == ms[replies[x].query].payload
                 && AllTimes(map[], es)[x] == ps[replies[x].eof].ts - ps[replies[x].query].ts
  {
    hide Carries, Harmless, HeaderCuts.Marks, Flatten, FeedSegments, After, Packets, AllQueries, AllTimes, AllFine,
         AnsweredPkts, AnswerTimes, RawAnswer, Replies;
    var ps := Packets(Flatten(segs), ms);
    CutMessagesAreFound(hdr, segs, ms);
    OpenedRun(key, hdr, segs);
    AnswersOnBytes(ps, |ps|);
    replies := After(ps, |ps|).answers;
    RepliesRead(ps, ms);
    var es := [Opened(key, hdr)] + Arrivals(key, segs);
    forall x | 0 <= x < |replies|
      ensures replies[x].query < replies[x].eof < |ms|
      ensures AllQueries(map[], es)[x].data == ms[replies[x].query].payload
      ensures AllTimes(map[], es)[x] == ps[replies[x].eof].ts - ps[replies[x].query].ts
    {
      AnswerAt(ps, replies, x);
    }
  }

  lemma AnswerAt(ps: seq<Pkt>, answers: seq<Answer>, x: nat)
    requires x < |answers| && forall k :: 0 <= k < |answers| ==> answers[k].query < |ps| && answers[k].eof < |ps|
    ensures AnsweredPkts(ps, answers)[x] == ps[answers[x].query]
    ensures AnswerTimes(ps, answers)[x] == ps[answers[x].eof].ts - ps[answers[x].query].ts
  {}

  lemma OpenedRun(key: nat, hdr: seq<byte>, segs: seq<Segment>)
    requires |hdr| == 4 && !FeedSegments(Start(hdr), segs).zero
    ensures var es, log := [Opened(key, hdr)] + Arrivals(key, segs), FeedSegments(Start(hdr), segs).log;
            && AllFine(map[], es)
            && AllQueries(map[], es) == AnsweredPkts(log, After(log, |log|).answers)
            && AllTimes(map[], es) == AnswerTimes(log, After(log, |log|).answers)
  {
    hide FeedSegments, After, AnsweredPkts, AnswerTimes;
    var es, a := [Opened(key, hdr)] + Arrivals(key, segs), Start(hdr);
    var m := map[key := a];
    assert Next(map[], es[0]) == m && es[1..] == Arrivals(key, segs);
    StreamRun(m, key, segs);
    NothingBefore(FeedSegments(a, segs).log);
  }

  lemma RepliesRead(ps: seq<Pkt>, ms: seq<Message>)
    requires |ps| == |ms|
    requires forall k :: 0 <= k < |ms| ==> ps[k].inbound == ms[k].inbound && ps[k].data == ms[k].payload
    ensures forall a: nat, b: nat :: RawAnswer(ps, a, b) && b < |ps| <==> Replies(ms, a, b)
  {
    forall k: nat, inbound, b | k < |ms|
      ensures Opens(ps[k], inbound, b) <==> Says(ms[k], inbound, b)
    {
    }
  }

  lemma NothingBefore(ps: seq<Pkt>)
    ensures Stream.NewAnswers([], ps) == After(ps, |ps|).answers
  {}
}
