/** Whole runs of the capture path: any sequence of opened streams, segments and closed streams, from an
    empty manager on. */
module CaptureRun {
  import opened Reassembly
  import opened Conversation
  import opened Capture
  import TopN

  /** What `process_pkt` makes of a TCP packet that it does not skip. */
  datatype Event =
    | Opened(key: nat, hdr: seq<byte>)
    | Received(key: nat, seg: Segment)
    | Closed(key: nat)

  /** How far each open stream has been cut. */
  type Progress = map<nat, Asm>

  predicate Good(m: Progress) { forall k :: k in m ==> AsmOk(m[k]) }

  function Next(m: Progress, e: Event): (r: Progress)
    requires Good(m) && (e.Opened? ==> |e.hdr| == 4)
    ensures Good(r)
  {
    match e
    case Opened(key, hdr) => if key in m then m else m[key := Start(hdr)]
    case Received(key, seg) => if key in m then m[key := FeedSegment(m[key], seg)] else m
    case Closed(key) => m - {key}
  }

  /** Header buffers have four bytes, and no segment brings the header of an empty packet. */
  predicate Fine(m: Progress, e: Event)
    requires Good(m)
  {
    && (e.Opened? ==> |e.hdr| == 4)
    && (e.Received? && e.key in m ==> !FeedSegment(m[e.key], e.seg).zero)
  }

  predicate AllFine(m: Progress, es: seq<Event>)
    requires Good(m)
    decreases |es|
  {
    es == [] || (Fine(m, es[0]) && AllFine(Next(m, es[0]), es[1..]))
  }

  function Final(m: Progress, es: seq<Event>): (r: Progress)
    requires Good(m) && AllFine(m, es)
    ensures Good(r)
    decreases |es|
  {
    if es == [] then m else Final(Next(m, es[0]), es[1..])
  }

  /** The queries a stream got answered while its completed packets grew from `l0` to `l1`. */
  ghost function Answered(l0: seq<Pkt>, l1: seq<Pkt>): seq<Pkt> {
    if l0 <= l1 then AnsweredPkts(l1, Stream.NewAnswers(l0, l1)) else []
  }

  /** The queries an event gets answered. */
  ghost function Queries(m: Progress, e: Event): seq<Pkt>
    requires Good(m) && Fine(m, e)
  {
    if e.Received? && e.key in m then Answered(m[e.key].log, Next(m, e)[e.key].log) else []
  }

  /** Their execution times: from the query to the EOF that answers it. */
  ghost function AnsweredIn(l0: seq<Pkt>, l1: seq<Pkt>): seq<int> {
    if l0 <= l1 then AnswerTimes(l1, Stream.NewAnswers(l0, l1)) else []
  }

  ghost function Times(m: Progress, e: Event): seq<int>
    requires Good(m) && Fine(m, e)
  {
    if e.Received? && e.key in m then AnsweredIn(m[e.key].log, Next(m, e)[e.key].log) else []
  }

  ghost function AllTimes(m: Progress, es: seq<Event>): seq<int>
    requires Good(m) && AllFine(m, es)
    decreases |es|
  {
    if es == [] then [] else Times(m, es[0]) + AllTimes(Next(m, es[0]), es[1..])
  }

  ghost function AllQueries(m: Progress, es: seq<Event>): seq<Pkt>
    requires Good(m) && AllFine(m, es)
    decreases |es|
  {
    if es == [] then [] else Queries(m, es[0]) + AllQueries(Next(m, es[0]), es[1..])
  }

  ghost function ProgressOf(sm: Manager): (m: Progress)
    reads sm, set k | k in sm.lookup :: sm.lookup[k]
    ensures m.Keys == sm.lookup.Keys
  {
    map k | k in sm.lookup :: sm.lookup[k].asm
  }

  /** A segment of a stream that is open. */
  method HandleSegment(sm: Manager, key: nat, seg: Segment)
    requires sm.AllOk() && key in sm.lookup
    requires Good(ProgressOf(sm)) && Fine(ProgressOf(sm), Received(key, seg))
    modifies sm, sm.stats, set k | k in sm.lookup :: sm.lookup[k], sm.live
    ensures sm.AllOk() && ProgressOf(sm) == Next(old(ProgressOf(sm)), Received(key, seg))
    ensures sm.registered == old(sm.registered) + Queries(old(ProgressOf(sm)), Received(key, seg))
    ensures sm.times == old(sm.times) + Times(old(ProgressOf(sm)), Received(key, seg))
    ensures sm.lookup == old(sm.lookup) && forall p :: p in sm.live ==> p in old(sm.live) || fresh(p)
  {
    hide Manager.StreamsOk, Manager.SlowValid, Manager.Accounts, AsmOk, FeedSegment, Stream.NewAnswers, Stream.Valid,
         After, AnsweredPkts, AnswerTimes;
    sm.Feed(key, seg);
  }

  method HandleClose(sm: Manager, key: nat)
    requires sm.AllOk() && key in sm.lookup && Good(ProgressOf(sm))
    modifies sm, sm.stats, set k | k in sm.lookup :: sm.lookup[k], sm.live
    ensures sm.AllOk() && ProgressOf(sm) == old(ProgressOf(sm)) - {key}
    ensures sm.registered == old(sm.registered) && sm.times == old(sm.times)
    ensures sm.live <= old(sm.live) && sm.lookup == old(sm.lookup) - {key}
  {
    hide Manager.StreamsOk, Manager.SlowValid, Manager.Accounts, AsmOk, FeedSegment, Stream.NewAnswers, Stream.Valid;
    sm.StreamsSplit(key);
    ghost var rest := sm.lookup - {key};
    assert forall k :: k in rest ==> rest[k] != sm.lookup[key];
    sm.CloseStream(key);
  }

  /** One event. */
  method Handle(sm: Manager, e: Event)
    requires sm.AllOk() && Good(ProgressOf(sm)) && Fine(ProgressOf(sm), e)
    modifies sm, sm.stats, set k | k in sm.lookup :: sm.lookup[k], sm.live
    ensures sm.AllOk() && ProgressOf(sm) == Next(old(ProgressOf(sm)), e)
    ensures sm.registered == old(sm.registered) + Queries(old(ProgressOf(sm)), e)
    ensures sm.times == old(sm.times) + Times(old(ProgressOf(sm)), e)
    ensures forall p :: p in sm.live ==> p in old(sm.live) || fresh(p)
    ensures forall k :: k in sm.lookup ==>
              (k in old(sm.lookup) && sm.lookup[k] == old(sm.lookup)[k]) || fresh(sm.lookup[k])
  {
    hide Manager.AllOk, AsmOk, FeedSegment, Answered, AnsweredIn;
    match e
    case Opened(key, hdr) =>
      if key !in sm.lookup {
        sm.OpenStream(key, hdr);
      }
    case Received(key, seg) =>
      if key in sm.lookup {
        HandleSegment(sm, key, seg);
      }
    case Closed(key) =>
      if key in sm.lookup {
        HandleClose(sm, key);
      }
  }

  /** The slow-query set holds the first `nSlow` of the queries `qs` with times `ts`, sorted by falling
      time, equal times in the order given. */
  ghost predicate HoldsSlowest(sm: Manager, qs: seq<Pkt>, ts: seq<int>)
    reads sm, sm.slow
  {
    var order := TopN.SortAll(ts, |ts|);
    && |qs| == |ts| && TopN.StableSort(ts, |ts|, order)
    && |sm.slow| == TopN.Min(|ts|, sm.nSlow)
    && forall i :: 0 <= i < |sm.slow| ==>
         sm.slow[i].Value() == qs[order[i]] && sm.slow[i].execTime == ts[order[i]]
  }

  /** A whole capture. After any events the live packets are those on stream lists or in the slow-query
      set, one reference each and no more, the streams are where their bytes put them, and the slow-query
      set holds the slowest of all queries answered; `Manager.Cleanup` then frees all there is. */
  method Run(nSlow: nat, es: seq<Event>) returns (sm: Manager)
    requires AllFine(map[], es)
    ensures fresh(sm) && sm.nSlow == nSlow && sm.AllOk() && ProgressOf(sm) == Final(map[], es)
    ensures sm.registered == AllQueries(map[], es) && sm.times == AllTimes(map[], es)
    ensures HoldsSlowest(sm, AllQueries(map[], es), AllTimes(map[], es))
  {
    hide Manager.AllOk, Next, Queries, Times, Fine, HoldsSlowest;
    sm := new Manager(nSlow);
    var i := 0;
    assert es[0..] == es && ProgressOf(sm) == map[];
    while i < |es|
      invariant i <= |es| && fresh(sm) && fresh(sm.stats) && sm.AllOk() && sm.nSlow == nSlow
      invariant (forall p :: p in sm.live ==> fresh(p)) && forall k :: k in sm.lookup ==> fresh(sm.lookup[k])
      invariant Good(ProgressOf(sm)) && AllFine(ProgressOf(sm), es[i..])
      invariant Final(ProgressOf(sm), es[i..]) == Final(map[], es)
      invariant sm.registered + AllQueries(ProgressOf(sm), es[i..]) == AllQueries(map[], es)
      invariant sm.times + AllTimes(ProgressOf(sm), es[i..]) == AllTimes(map[], es)
    {
      assert es[i..][1..] == es[i + 1..] && es[i..][0] == es[i];
      Handle(sm, es[i]);
      i := i + 1;
    }
    SlowSetIsTopN(sm);
  }

  /** In any consistent state the slow-query set holds the slowest of all registered queries. */
  lemma SlowSetIsTopN(sm: Manager)
    requires sm.AllOk()
    ensures HoldsSlowest(sm, sm.registered, sm.times)
  {
    hide TopN.SortAll, TopN.Slowest, TopN.StableSort, Manager.StreamsOk, Manager.Accounts;
    TopN.SlowestIsPrefixOfSort(sm.times, |sm.times|, sm.nSlow);
    assert forall i :: 0 <= i < |sm.slow| ==> sm.Kept(sm.slow[i], sm.ids[i]);
  }
}
