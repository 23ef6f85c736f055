/** Which streams are open after a run of the capture path, and how far each is. */
module CaptureStreams {
  import opened Reassembly
  import opened CaptureRun

  predicate Opens(e: Event, key: nat) { e.Opened? && e.key == key }

  predicate Closes(e: Event, key: nat) { e.Closed? && e.key == key }

  /** The segments of one stream, in order. */
  function SegmentsOf(es: seq<Event>, key: nat): seq<Segment> {
    if es == [] then []
    else
      var e := es[|es| - 1];
      SegmentsOf(es[..|es| - 1], key) + if e.Received? && e.key == key then [e.seg] else []
  }

  /** Event `a` opened the stream as it is at the end: it was closed since it was opened before, and was not
      closed afterwards. */
  ghost predicate OpenedAt(es: seq<Event>, key: nat, a: nat) {
    && a < |es| && Opens(es[a], key)
    && (forall j :: a < j < |es| ==> !Closes(es[j], key))
    && (forall j :: 0 <= j < a && Opens(es[j], key) ==> exists c :: j < c < a && Closes(es[c], key))
  }

  lemma {:induction false} RunOneMore(m: Progress, es: seq<Event>)
    requires Good(m) && AllFine(m, es) && es != []
    ensures var n := |es| - 1;
            AllFine(m, es[..n]) && Fine(Final(m, es[..n]), es[n]) && Final(m, es) == Next(Final(m, es[..n]), es[n])
    decreases |es|
  {
    var n := |es| - 1;
    if n == 0 {
      assert es[..0] == [] && es[1..] == [];
    } else {
      var rest := es[1..];
      RunOneMore(Next(m, es[0]), rest);
      assert rest[..n - 1] == es[..n][1..];
    }
  }

  lemma {:induction false} SegmentsOneMore(a: Asm, segs: seq<Segment>, s: Segment)
    requires AsmOk(a)
    ensures FeedSegments(a, segs + [s]) == FeedSegment(FeedSegments(a, segs), s)
    decreases |segs|
  {
    hide FeedSegment;
    if segs == [] {
      assert [s][1..] == [] && [] + [s] == [s];
    } else {
      assert (segs + [s])[1..] == segs[1..] + [s];
      SegmentsOneMore(FeedSegment(a, segs[0]), segs[1..], s);
    }
  }

  /** The state of a stream is right. */
  ghost predicate StreamIs(m: Progress, es: seq<Event>, key: nat) {
    && (key in m <==> exists a: nat :: OpenedAt(es, key, a))
    && forall a: nat :: OpenedAt(es, key, a) && |es[a].hdr| == 4 ==>
         key in m && m[key] == FeedSegments(Start(es[a].hdr), SegmentsOf(es[a + 1..], key))
  }

  lemma OpenedBefore(es: seq<Event>, key: nat, a: nat)
    requires es != [] && !Closes(es[|es| - 1], key) && a < |es| - 1
    ensures OpenedAt(es, key, a) <==> OpenedAt(es[..|es| - 1], key, a)
  {
    var less := es[..|es| - 1];
    assert forall j :: 0 <= j < |less| ==> less[j] == es[j];
  }

  lemma ClosedIsGone(m: Progress, es: seq<Event>, key: nat)
    requires es != [] && Good(m) && StreamIs(m, es[..|es| - 1], key) && Closes(es[|es| - 1], key)
    ensures StreamIs(Next(m, es[|es| - 1]), es, key)
  {
    forall a: nat ensures !OpenedAt(es, key, a) {
      assert a < |es| - 1 ==> Closes(es[|es| - 1], key);
    }
  }

  lemma OpenedIsFresh(m: Progress, es: seq<Event>, key: nat)
    requires es != [] && Good(m) && Fine(m, es[|es| - 1])
    requires StreamIs(m, es[..|es| - 1], key) && Opens(es[|es| - 1], key) && key !in m
    ensures StreamIs(Next(m, es[|es| - 1]), es, key)
  {
    var n := |es| - 1;
    forall j | 0 <= j < n && Opens(es[j], key)
      ensures exists c :: j < c < n && Closes(es[c], key)
    {
      ReopenedAfter(es, n, key, j);
    }
    assert OpenedAt(es, key, n);
    assert es[n + 1..] == [];
    forall a: nat | OpenedAt(es, key, a) ensures a == n {
      if a < n {
        OpenedBefore(es, key, a);
      }
    }
  }

  /** If no event before `n` opened the stream as it is, each that opened it was followed by a close. */
  lemma {:induction false} ReopenedAfter(es: seq<Event>, n: nat, key: nat, j: nat)
    requires n <= |es| && j < n && Opens(es[j], key) && forall a: nat :: !OpenedAt(es[..n], key, a)
    ensures exists c :: j < c < n && Closes(es[c], key)
    decreases j
  {
    if forall c :: j < c < n ==> !Closes(es[c], key) {
      var i :| 0 <= i < j && Opens(es[i], key) && forall c :: i < c < j ==> !Closes(es[c], key) by {
        assert !OpenedAt(es[..n], key, j);
      }
      assert forall c :: i < c < n ==> !Closes(es[c], key) by {
        assert !Closes(es[j], key);
      }
      ReopenedAfter(es, n, key, i);
    }
  }

  lemma OpenedOnce(es: seq<Event>, key: nat, b: nat)
    requires es != [] && OpenedAt(es[..|es| - 1], key, b)
    ensures !OpenedAt(es, key, |es| - 1)
  {
    var less := es[..|es| - 1];
    assert less[b] == es[b];
    assert forall c :: b < c < |less| ==> less[c] == es[c];
  }

  lemma OtherEvent(m: Progress, es: seq<Event>, key: nat)
    requires es != [] && Good(m) && Fine(m, es[|es| - 1]) && StreamIs(m, es[..|es| - 1], key)
    requires !Closes(es[|es| - 1], key) && (Opens(es[|es| - 1], key) ==> key in m)
    ensures StreamIs(Next(m, es[|es| - 1]), es, key)
  {
    hide FeedSegment, FeedSegments;
    var n := |es| - 1;
    var e, less := es[n], es[..n];
    forall a: nat ensures OpenedAt(es, key, a) <==> a < n && OpenedAt(less, key, a) {
      if a < n {
        OpenedBefore(es, key, a);
      } else if a == n && Opens(e, key) {
        var b: nat :| OpenedAt(less, key, b);
        OpenedOnce(es, key, b);
      }
    }
    forall a: nat | OpenedAt(es, key, a) && |es[a].hdr| == 4
      ensures Next(m, e)[key] == FeedSegments(Start(es[a].hdr), SegmentsOf(es[a + 1..], key))
    {
      var tail, before := es[a + 1..], SegmentsOf(less[a + 1..], key);
      assert less[a] == es[a] && tail[|tail| - 1] == e && tail[..|tail| - 1] == less[a + 1..];
      if e.Received? && e.key == key {
        SegmentsOneMore(Start(es[a].hdr), before, e.seg);
      } else {
        assert SegmentsOf(tail, key) == before + [] == before;
      }
    }
  }

  /** After any run a stream is open exactly when it was opened and not closed since, and it is where the
      segments that came for it since then put it, whatever came for others in between and whatever it
      was before it was closed. */
  lemma {:induction false} StreamsExactly(es: seq<Event>, key: nat)
    requires AllFine(map[], es)
    ensures StreamIs(Final(map[], es), es, key)
    decreases |es|
  {
    hide StreamIs, FeedSegment, FeedSegments;
    if es == [] {
      NothingOpen(key);
    } else {
      var n := |es| - 1;
      RunOneMore(map[], es);
      StreamsExactly(es[..n], key);
      var m := Final(map[], es[..n]);
      if Closes(es[n], key) {
        ClosedIsGone(m, es, key);
      } else if Opens(es[n], key) && key !in m {
        OpenedIsFresh(m, es, key);
      } else {
        OtherEvent(m, es, key);
      }
    }
  }

  lemma NothingOpen(key: nat)
    ensures StreamIs(map[], [], key)
  {}
}
