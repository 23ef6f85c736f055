/** The replay protocol of one stream: the reader thread (producer) appends packets and finally
    ends the replay, the replay thread (consumer) walks the list and executes the queries.
    One step is one action between two lock operations, so a schedule is any interleaving
    at lock granularity. The consumer reads `p->next` three times; two of the reads
    (`CTestNext`, `CAdvance`) hold `eof_lock` but not `lock`. */
module Replay {
  import opened Wrappers
  import opened PacketChain

  datatype Owner = Free | ByProducer | ByConsumer

  /** Where the producer is: `append_packet` and `handle_packet_complete`, then `end_replay`. */
  datatype Producer =
    | PIdle | PLink(kind: Kind) | PWantEof | PNotify | PClassify | PUnlock
    | PEndWantEof | PEndSet | PEndNotify | PEndUnlock | PJoin | PDone

  /** Where the consumer is in `run_replay`; `cur` is its `p`, `tmp` its `tmp`. */
  datatype Consumer =
    | CStart | CReadFirst
    | CExec(cur: nat) | CWantLock(cur: nat) | CFast(cur: nat) | CFastUnlink(tmp: nat, cur: nat)
    | CWantEof(cur: nat) | CTestNext(cur: nat) | CTestEof(cur: nat) | CWaiting(cur: nat) | CReacquire(cur: nat)
    | CCheckEof(cur: nat) | CAdvance(cur: nat)
    | CWantLock2(tmp: nat, cur: nat) | CSlowUnlink(tmp: nat, cur: nat) | CRelock(cur: nat) | CScopeExit(cur: nat)
    | CDone(at: Ptr)

  /** `exec` is the log of `db_query` calls, as packet indices. */
  datatype State = State(chain: Chain, lock: Owner, eofLock: Owner, reachedEof: bool,
                         p: Producer, c: Consumer, exec: seq<nat>)

  const INIT := State(EMPTY_CHAIN, Free, Free, false, PIdle, CStart, [])

  /** The scheduler's choices. A producer outside any call may append a packet of any kind or
      end the replay; `Spurious` is a spurious wake-up of the condition variable. */
  datatype Label = Append(kind: Kind) | End | Prod | Cons | Spurious

  // ---------------------------------------------------------------- steps

  /** `notify_one`: the only thread that waits is the consumer. */
  function Wake(c: Consumer): Consumer {
    if c.CWaiting? then CReacquire(c.cur) else c
  }

  function StartCall(s: State, l: Label): Option<State> {
    if !s.p.PIdle? || s.lock != Free then None
    else if l.Append? then Some(s.(lock := ByProducer, p := PLink(l.kind)))
    else Some(s.(lock := ByProducer, p := PEndWantEof))
  }

  function ProducerStep(s: State): Option<State> {
    match s.p
    case PIdle => None
    case PLink(k) => Some(s.(chain := Link(s.chain, k), p := PWantEof))
    case PWantEof => if s.eofLock == Free then Some(s.(eofLock := ByProducer, p := PNotify)) else None
    case PNotify => Some(s.(c := Wake(s.c), eofLock := Free, p := PClassify))
    case PClassify => Some(s.(chain := Classify(s.chain), p := PUnlock))
    case PUnlock => Some(s.(lock := Free, p := PIdle))
    case PEndWantEof => if s.eofLock == Free then Some(s.(eofLock := ByProducer, p := PEndSet)) else None
    case PEndSet => Some(s.(reachedEof := true, p := PEndNotify))
    case PEndNotify => Some(s.(c := Wake(s.c), eofLock := Free, p := PEndUnlock))
    case PEndUnlock => Some(s.(lock := Free, p := PJoin))
    case PJoin => if s.c.CDone? then Some(s.(p := PDone)) else None
    case PDone => None
  }

  function ConsumerStep(s: State): Option<State> {
    match s.c
    case CStart => if s.lock == Free then Some(s.(lock := ByConsumer, c := CReadFirst)) else None
    case CReadFirst =>
      Some(s.(lock := Free, c := if s.chain.first.Null? then CDone(Null) else CExec(s.chain.first.i)))
    case CExec(i) =>
      Some(s.(chain := Touch(s.chain, i), c := CWantLock(i),
              exec := if KindOf(s.chain, i) == Query then s.exec + [i] else s.exec))
    case CWantLock(i) => if s.lock == Free then Some(s.(lock := ByConsumer, c := CFast(i))) else None
    case CFast(i) =>
      var ch := Touch(s.chain, i);
      if Next(ch, i).At? then Some(s.(chain := ch, c := CFastUnlink(i, Next(ch, i).i)))
      else Some(s.(chain := ch, lock := Free, c := CWantEof(i)))
    case CFastUnlink(t, i) => Some(s.(chain := ConsiderUnlink(s.chain, t, true), lock := Free, c := CExec(i)))
    case CWantEof(i) => if s.eofLock == Free then Some(s.(eofLock := ByConsumer, c := CTestNext(i))) else None
    case CTestNext(i) =>
      Some(s.(chain := Touch(s.chain, i), c := if Next(s.chain, i).At? then CCheckEof(i) else CTestEof(i)))
    case CTestEof(i) =>
      if s.reachedEof then Some(s.(c := CCheckEof(i))) else Some(s.(eofLock := Free, c := CWaiting(i)))
    case CWaiting(i) => None
    case CReacquire(i) => if s.eofLock == Free then Some(s.(eofLock := ByConsumer, c := CTestNext(i))) else None
    case CCheckEof(i) =>
      if s.reachedEof then Some(s.(eofLock := Free, c := CDone(At(i)))) else Some(s.(c := CAdvance(i)))
    case CAdvance(i) =>
      var ch := Touch(s.chain, i);
      if Next(ch, i).At? then Some(s.(chain := ch, eofLock := Free, c := CWantLock2(i, Next(ch, i).i)))
      else Some(s.(chain := Fault(ch), eofLock := Free, c := CDone(At(i))))
    case CWantLock2(t, i) => if s.lock == Free then Some(s.(lock := ByConsumer, c := CSlowUnlink(t, i))) else None
    case CSlowUnlink(t, i) => Some(s.(chain := ConsiderUnlink(s.chain, t, true), lock := Free, c := CRelock(i)))
    case CRelock(i) => if s.eofLock == Free then Some(s.(eofLock := ByConsumer, c := CScopeExit(i))) else None
    case CScopeExit(i) => Some(s.(eofLock := Free, c := CExec(i)))
    case CDone(_) => None
  }

  function Step(s: State, l: Label): Option<State> {
    match l
    case Append(_) => StartCall(s, l)
    case End => StartCall(s, l)
    case Prod => ProducerStep(s)
    case Cons => ConsumerStep(s)
    case Spurious => if s.c.CWaiting? then Some(s.(c := CReacquire(s.c.cur))) else None
  }

  /** The state after a schedule, if every step of it was possible. */
  function Run(s: State, sched: seq<Label>): Option<State>
    decreases |sched|
  {
    if sched == [] then Some(s)
    else match Step(s, sched[0])
      case None => None
      case Some(t) => Run(t, sched[1..])
  }

  // ---------------------------------------------------------------- stream discipline

  function Kinds(nodes: seq<Node>): (ks: seq<Kind>)
    ensures |ks| == |nodes| && forall k :: 0 <= k < |ks| ==> ks[k] == nodes[k].kind
  {
    seq(|nodes|, k requires 0 <= k < |nodes| => nodes[k].kind)
  }

  /** The query still waiting for its EOF after the first `m` packets: what `last_query` points to. */
  function LastPending(ks: seq<Kind>, m: nat): (p: Ptr)
    requires m <= |ks|
    ensures p.At? ==> p.i < m && ks[p.i] == Query
  {
    if m == 0 || ks[m - 1] == Eof then Null
    else if ks[m - 1] == Query then At(m - 1)
    else LastPending(ks, m - 1)
  }

  /** How many packets come before the first that is not a server packet. */
  function Lead(ks: seq<Kind>): (n: nat)
    ensures n <= |ks| && (forall k :: 0 <= k < n ==> ks[k] == Server)
    ensures n < |ks| ==> ks[n] != Server
  {
    if ks == [] || ks[0] != Server then 0 else 1 + Lead(ks[1..])
  }

  /** Packet `e` may follow the packets before it: a server packet only at the very beginning of the
      stream, and an EOF that finds a query waiting only right behind that query. */
  predicate MayFollow(ks: seq<Kind>, e: nat)
    requires e < |ks|
  {
    && (ks[e] == Server ==> forall k :: 0 <= k < e ==> ks[k] == Server)
    && (ks[e] == Eof && LastPending(ks, e).At? ==> LastPending(ks, e).i == e - 1)
  }

  /** The streams that can be replayed without touching freed memory, in every interleaving. */
  predicate Safe(ks: seq<Kind>) {
    forall e :: 0 <= e < |ks| ==> MayFollow(ks, e)
  }

  /** What the recorder writes for one conversation: queries, EOFs and client packets, and the packet
      right after a query is another query or an EOF. */
  predicate Disciplined(ks: seq<Kind>) {
    && (forall k :: 0 <= k < |ks| ==> ks[k] != Server)
    && (forall k :: 0 < k < |ks| && ks[k - 1] == Query ==> ks[k] == Query || ks[k] == Eof)
  }

  /** The queries among the first `m` packets, in order. */
  function Queries(ks: seq<Kind>, m: nat): seq<nat>
    requires m <= |ks|
  {
    if m == 0 then [] else Queries(ks, m - 1) + if ks[m - 1] == Query then [m - 1] else []
  }

  predicate Answered(ks: seq<Kind>, m: nat, k: nat)
    requires m <= |ks|
  {
    k + 1 < m && ks[k] == Query && ks[k + 1] == Eof
  }

  /** The queries answered among the first `m` packets, in order. */
  function AnsweredQueries(ks: seq<Kind>, m: nat): seq<nat>
    requires m <= |ks|
  {
    if m < 2 then [] else AnsweredQueries(ks, m - 1) + if Answered(ks, m, m - 2) then [m - 2] else []
  }

  // ---------------------------------------------------------------- the invariant

  predicate ProducerHasLock(p: Producer) {
    p.PLink? || p.PWantEof? || p.PNotify? || p.PClassify? || p.PUnlock?
    || p.PEndWantEof? || p.PEndSet? || p.PEndNotify? || p.PEndUnlock?
  }

  predicate ProducerHasEof(p: Producer) {
    p.PNotify? || p.PEndSet? || p.PEndNotify?
  }

  predicate ConsumerHasLock(c: Consumer) {
    c.CReadFirst? || c.CFast? || c.CFastUnlink? || c.CSlowUnlink?
  }

  predicate ConsumerHasEof(c: Consumer) {
    c.CTestNext? || c.CTestEof? || c.CCheckEof? || c.CAdvance? || c.CScopeExit?
  }

  /** Each lock is held by the thread whose position says so. */
  predicate Locks(s: State) {
    && !(ProducerHasLock(s.p) && ConsumerHasLock(s.c))
    && !(ProducerHasEof(s.p) && ConsumerHasEof(s.c))
    && s.lock == (if ProducerHasLock(s.p) then ByProducer else if ConsumerHasLock(s.c) then ByConsumer else Free)
    && s.eofLock == (if ProducerHasEof(s.p) then ByProducer else if ConsumerHasEof(s.c) then ByConsumer else Free)
  }

  /** How many packets `handle_packet_complete` has dealt with. */
  function Classified(s: State): nat {
    if (s.p.PWantEof? || s.p.PNotify? || s.p.PClassify?) && |s.chain.nodes| > 0
    then |s.chain.nodes| - 1 else |s.chain.nodes|
  }

  /** The oldest packet the consumer may still use. */
  function Oldest(c: Consumer): nat {
    match c
    case CStart => 0
    case CReadFirst => 0
    case CFastUnlink(t, i) => t
    case CWantLock2(t, i) => t
    case CSlowUnlink(t, i) => t
    case CDone(p) => if p.Null? then 0 else p.i
    case _ => c.cur
  }

  /** How many packets the consumer has executed. */
  function Executed(c: Consumer): nat {
    match c
    case CStart => 0
    case CReadFirst => 0
    case CExec(i) => i
    case CFastUnlink(t, i) => i
    case CWantLock2(t, i) => i
    case CSlowUnlink(t, i) => i
    case CRelock(i) => i
    case CScopeExit(i) => i
    case CDone(p) => if p.Null? then 0 else p.i + 1
    case _ => c.cur + 1
  }

  /** The consumer has a current packet. */
  predicate HasPacket(c: Consumer) {
    !c.CStart? && !c.CReadFirst? && !(c.CDone? && c.at.Null?)
  }

  /** No packet from here on is freed: the oldest the consumer uses, or, as long as it has none, the
      first that is not one of the server packets at the beginning. */
  function Low(s: State): nat {
    var lead := Lead(Kinds(s.chain.nodes));
    if HasPacket(s.c) then Oldest(s.c) else if Classified(s) < lead then Classified(s) else lead
  }

  /** The consumer's packets exist, none is a server packet, and its `tmp` is the packet before its
      current one. */
  ghost predicate Cursor(s: State) {
    var n := |s.chain.nodes|;
    && (HasPacket(s.c) ==> Lead(Kinds(s.chain.nodes)) <= Oldest(s.c))
    && Oldest(s.c) <= (if Classified(s) == 0 then 0 else Classified(s) - 1)
    && (HasPacket(s.c) ==> Oldest(s.c) < n)
    && (s.c.CFastUnlink? || s.c.CWantLock2? || s.c.CSlowUnlink? ==> s.c.cur == s.c.tmp + 1 < n)
    && (s.c.CRelock? || s.c.CScopeExit? || s.c.CExec? ==> s.c.cur < n)
  }

  /** With `m` packets classified and `lo` the oldest packet in use, a packet is freed exactly when it is
      older than `lo` and was not registered as an answered query. A live packet is referenced once by the
      stream, and a registered query once more, which it keeps when the slow-query set drops it. */
  ghost predicate Counts(ch: Chain, m: nat, lo: nat)
    requires m <= |ch.nodes|
  {
    forall k: nat :: k < |ch.nodes| ==> CountOk(ch.nodes[k], Answered(Kinds(ch.nodes), m, k), k < lo)
  }

  predicate CountOk(nd: Node, inSlow: bool, passed: bool) {
    && (nd.freed <==> passed && !inSlow)
    && nd.refs == if nd.freed then 0 else if inSlow then 2 else 1
  }

  ghost predicate Pending(ch: Chain, m: nat)
    requires m <= |ch.nodes|
  {
    var ks := Kinds(ch.nodes);
    && ch.lastQuery == LastPending(ks, m)
    && ch.registered == AnsweredQueries(ks, m)
  }

  /** No wake-up is lost: a waiting consumer has neither a next packet nor EOF, unless the
      producer has still to notify it. */
  predicate Awake(s: State) {
    && (s.reachedEof <==> s.p.PEndNotify? || s.p.PEndUnlock? || s.p.PJoin? || s.p.PDone?)
    && (s.p.PDone? ==> s.c.CDone?)
    && (s.c.CWaiting? ==> Next(s.chain, s.c.cur).Null? || s.p.PWantEof? || s.p.PNotify?)
    && (s.c.CWaiting? ==> !s.reachedEof || s.p.PEndNotify?)
    && (s.c.CTestEof? ==> Next(s.chain, s.c.cur).Null? || s.p.PWantEof?)
    && (s.c.CCheckEof? ==> Next(s.chain, s.c.cur).At? || s.reachedEof)
    && (s.c.CAdvance? ==> Next(s.chain, s.c.cur).At? && !s.reachedEof)
    && (s.c.CDone? && s.c.at.At? ==> s.reachedEof)
  }

  /** The execution log is the queries among the first `e` packets. */
  ghost predicate Log(ch: Chain, exec: seq<nat>, e: nat) {
    && e <= |ch.nodes|
    && exec == Queries(Kinds(ch.nodes), e)
  }

  ghost predicate Inv(s: State) {
    && !s.chain.fault && Shape(s.chain)
    && Locks(s) && Cursor(s) && Awake(s)
    && Counts(s.chain, Classified(s), Low(s))
    && Pending(s.chain, Classified(s))
    && Log(s.chain, s.exec, Executed(s.c))
    && (s.p.PWantEof? || s.p.PNotify? || s.p.PClassify? ==> |s.chain.nodes| > 0)
  }

  // ---------------------------------------------------------------- facts about the logs

  /** The log of executed queries holds exactly the positions of queries, each once and in order. */
  lemma {:induction false} QueriesAre(ks: seq<Kind>, m: nat)
    requires m <= |ks|
    ensures forall k: nat :: k in Queries(ks, m) <==> k < m && ks[k] == Query
    ensures InOrder(Queries(ks, m))
  {
    if m > 0 {
      QueriesAre(ks, m - 1);
      var before := Queries(ks, m - 1);
      assert forall i :: 0 <= i < |before| ==> before[i] in before;
    }
  }

  predicate InOrder(ks: seq<nat>) { forall i, j :: 0 <= i < j < |ks| ==> ks[i] < ks[j] }

  lemma {:induction false} QueriesOfPrefix(a: seq<Kind>, b: seq<Kind>, m: nat)
    requires a <= b && m <= |a|
    ensures Queries(a, m) == Queries(b, m)
  {
    if m > 0 {
      QueriesOfPrefix(a, b, m - 1);
    }
  }

  lemma {:induction false} AnsweredOfPrefix(a: seq<Kind>, b: seq<Kind>, m: nat)
    requires a <= b && m <= |a|
    ensures AnsweredQueries(a, m) == AnsweredQueries(b, m)
    ensures forall k: nat :: Answered(a, m, k) == Answered(b, m, k)
  {
    if m >= 2 {
      AnsweredOfPrefix(a, b, m - 1);
    }
  }

  lemma {:induction false} PendingOfPrefix(a: seq<Kind>, b: seq<Kind>, m: nat)
    requires a <= b && m <= |a|
    ensures LastPending(a, m) == LastPending(b, m)
  {
    if m > 0 {
      PendingOfPrefix(a, b, m - 1);
    }
  }

  lemma LeadOfPrefix(a: seq<Kind>, b: seq<Kind>)
    requires a <= b
    ensures if Lead(a) < |a| then Lead(b) == Lead(a) else Lead(b) >= Lead(a)
  {
    assert forall k :: 0 <= k < |a| ==> a[k] == b[k];
    assert Lead(b) < |a| ==> a[Lead(b)] == b[Lead(b)];
    assert Lead(a) < |a| ==> a[Lead(a)] == b[Lead(a)];
  }

  lemma {:induction false} NoQueryInLead(ks: seq<Kind>, m: nat)
    requires m <= Lead(ks)
    ensures Queries(ks, m) == [] && LastPending(ks, m) == Null
  {
    if m > 0 {
      NoQueryInLead(ks, m - 1);
    }
  }

  /** A live packet whose successor in arrival order is live, or which is the newest, is
      linked to exactly that successor. */
  lemma LinkedToSuccessor(ch: Chain, i: nat)
    requires Shape(ch) && Live(ch, i) && (i + 1 < |ch.nodes| ==> Live(ch, i + 1))
    ensures ch.nodes[i].next == if i + 1 < |ch.nodes| then At(i + 1) else Null
  {
    assert NearestAfter(ch, i, ch.nodes[i].next);
  }

  lemma NewestIsLast(ch: Chain)
    requires Shape(ch) && |ch.nodes| > 0 && Live(ch, |ch.nodes| - 1)
    ensures ch.last == At(|ch.nodes| - 1)
  {
    assert NearestBefore(ch, |ch.nodes|, ch.last);
  }

  /** While the consumer has not begun, `first` is the oldest packet that is no server packet. */
  lemma FirstIsOldest(ch: Chain, m: nat)
    requires Shape(ch) && m == |ch.nodes| && Counts(ch, m, Lead(Kinds(ch.nodes)))
    ensures var lead := Lead(Kinds(ch.nodes)); ch.first == if lead == m then Null else At(lead)
  {
    var ks := Kinds(ch.nodes);
    var lead := Lead(ks);
    forall k: nat | k < lead ensures !Live(ch, k) {
      assert ks[k] == Server;
      assert CountOk(ch.nodes[k], Answered(ks, m, k), true);
    }
    if lead < m {
      assert CountOk(ch.nodes[lead], Answered(ks, m, lead), false);
      assert Live(ch, lead);
    }
    assert NearestAfter(ch, -1, ch.first);
  }

  /** A packet the consumer may still use is live and linked to the next index. */
  lemma InUse(ch: Chain, m: nat, lo: nat, i: nat)
    requires Shape(ch) && m <= |ch.nodes| && Counts(ch, m, lo) && lo <= i < |ch.nodes|
    ensures Live(ch, i)
    ensures Next(ch, i) == if i + 1 < |ch.nodes| then At(i + 1) else Null
  {
    hide Shape;
    assert CountOk(ch.nodes[i], Answered(Kinds(ch.nodes), m, i), i < lo);
    if i + 1 < |ch.nodes| {
      assert CountOk(ch.nodes[i + 1], Answered(Kinds(ch.nodes), m, i + 1), i + 1 < lo);
    }
    LinkedToSuccessor(ch, i);
  }

  // ---------------------------------------------------------------- every step keeps the invariant

  lemma LinkKeepsLogs(ch: Chain, r: Chain, m: nat, lo: nat, exec: seq<nat>, e: nat)
    requires |r.nodes| == |ch.nodes| + 1 && m == |ch.nodes| && lo <= m
    requires r.lastQuery == ch.lastQuery && r.registered == ch.registered
    requires r.nodes[m].refs == 1 && !r.nodes[m].freed
    requires forall j: nat :: j < m ==>
               && r.nodes[j].freed == ch.nodes[j].freed
               && r.nodes[j].refs == ch.nodes[j].refs
               && r.nodes[j].kind == ch.nodes[j].kind
    requires Counts(ch, m, lo) && Pending(ch, m) && Log(ch, exec, e)
    ensures Counts(r, m, lo) && Pending(r, m) && Log(r, exec, e)
  {
    var a, b := Kinds(ch.nodes), Kinds(r.nodes);
    assert a <= b;
    QueriesOfPrefix(a, b, e);
    AnsweredOfPrefix(a, b, m);
    PendingOfPrefix(a, b, m);
    forall k: nat | k < |r.nodes| ensures CountOk(r.nodes[k], Answered(b, m, k), k < lo) {
      if k < m {
        assert CountOk(ch.nodes[k], Answered(a, m, k), k < lo);
      }
    }
  }

  lemma LinkStepKeepsInv(s: State)
    requires Inv(s) && s.p.PLink?
    ensures var t := ProducerStep(s).value; Inv(t) && Sent(t) == Sent(s)
  {
    hide Shape, Counts, Pending, Log, Link, Lead, Kinds, Queries;
    var t := ProducerStep(s).value;
    LinkKeepsShape(s.chain, s.p.kind);
    assert Kinds(s.chain.nodes) <= Kinds(t.chain.nodes);
    LeadOfPrefix(Kinds(s.chain.nodes), Kinds(t.chain.nodes));
    LinkKeepsLogs(s.chain, t.chain, |s.chain.nodes|, Low(s), s.exec, Executed(s.c));
  }

  /** The two newest packets, when the newest is linked but not yet dealt with. */
  ghost predicate TailOk(ch: Chain, m: nat) {
    && |ch.nodes| == m + 1 && ch.last == At(m)
    && !ch.nodes[m].freed && ch.nodes[m].next == Null
    && (m > 0 && ch.nodes[m - 1].kind == Query ==>
          ch.nodes[m - 1] == Node(Query, At(m), ch.nodes[m - 1].prev, 1, false))
  }

  lemma TailFacts(ch: Chain, m: nat, lo: nat)
    requires Shape(ch) && |ch.nodes| == m + 1
    requires Counts(ch, m, lo) && lo <= m && (lo == m > 0 ==> ch.nodes[m - 1].kind != Query)
    ensures TailOk(ch, m)
  {
    hide Shape;
    InUse(ch, m, lo, m);
    NewestIsLast(ch);
    if m > lo {
      InUse(ch, m, lo, m - 1);
      assert CountOk(ch.nodes[m - 1], Answered(Kinds(ch.nodes), m, m - 1), m - 1 < lo);
    }
  }

  /** In a safe stream, dealing with a newest packet that is no server packet records a query, or
      registers the query just before an EOF, or does nothing. No packet is unlinked. */
  lemma ClassifyEffect(ch: Chain, m: nat)
    requires !ch.fault && TailOk(ch, m) && Safe(Kinds(ch.nodes)) && Pending(ch, m)
    requires ch.nodes[m].kind != Server
    ensures var r := Classify(ch); var ks := Kinds(ch.nodes);
            r == if ks[m] == Query then ch.(lastQuery := At(m))
                 else if m > 0 && Answered(ks, m + 1, m - 1) then
                   ch.(nodes := ch.nodes[m - 1 := ch.nodes[m - 1].(refs := 2)],
                       registered := ch.registered + [m - 1], lastQuery := Null)
                 else ch
  {
    var ks := Kinds(ch.nodes);
    assert ks[m] == ch.nodes[m].kind && (m > 0 ==> ks[m - 1] == ch.nodes[m - 1].kind);
    assert MayFollow(ks, m);
    if ks[m] == Eof && ch.lastQuery.At? {
      var c2 := Register(ch, m - 1);
      assert c2.nodes[m] == ch.nodes[m] && c2.last == At(m);
      assert Sweep(c2, At(m), m + 1) == Sweep(c2, Null, m);
    }
  }

  lemma PendingAdvances(ch: Chain, r: Chain, m: nat)
    requires |r.nodes| == |ch.nodes| == m + 1 && Kinds(r.nodes) == Kinds(ch.nodes)
    requires MayFollow(Kinds(ch.nodes), m) && Pending(ch, m)
    requires var ks := Kinds(ch.nodes); var answers := m > 0 && Answered(ks, m + 1, m - 1);
             && r.lastQuery == (if ks[m] == Query then At(m) else if answers then Null else ch.lastQuery)
             && r.registered == ch.registered + (if answers then [m - 1] else [])
    ensures Pending(r, m + 1)
  {
  }

  /** What the classification leaves: the newest packet is now dealt with. */
  lemma ClassifyKeepsLogs(ch: Chain, r: Chain, m: nat, lo: nat, exec: seq<nat>, e: nat)
    requires TailOk(ch, m) && Safe(Kinds(ch.nodes)) && lo <= m
    requires Counts(ch, m, lo) && Pending(ch, m) && Log(ch, exec, e)
    requires var ks := Kinds(ch.nodes);
             r == if ks[m] == Query then ch.(lastQuery := At(m))
                  else if m > 0 && Answered(ks, m + 1, m - 1) then
                    ch.(nodes := ch.nodes[m - 1 := ch.nodes[m - 1].(refs := 2)],
                        registered := ch.registered + [m - 1], lastQuery := Null)
                  else ch
    ensures |r.nodes| == m + 1 && Counts(r, m + 1, lo) && Pending(r, m + 1) && Log(r, exec, e)
    ensures forall k: nat :: k <= m ==> r.nodes[k].next == ch.nodes[k].next
  {
    hide Shape;
    var ks := Kinds(ch.nodes);
    assert Kinds(r.nodes) == ks;
    assert MayFollow(ks, m);
    PendingAdvances(ch, r, m);
    hide Pending, Safe, LastPending;
    forall k: nat | k < |r.nodes| ensures CountOk(r.nodes[k], Answered(ks, m + 1, k), k < lo) {
      assert CountOk(ch.nodes[k], Answered(ks, m, k), k < lo);
    }
  }

  ghost predicate SameLive(ch: Chain, r: Chain) {
    && |r.nodes| == |ch.nodes|
    && forall k: nat :: k < |ch.nodes| ==> r.nodes[k].freed == ch.nodes[k].freed
  }

  lemma AfterIgnoresRest(ch: Chain, r: Chain, lo: int, p: Ptr)
    requires SameLive(ch, r) && NearestAfter(ch, lo, p)
    ensures NearestAfter(r, lo, p)
  {
    forall k: nat ensures Live(r, k) == Live(ch, k) { }
  }

  lemma BeforeIgnoresRest(ch: Chain, r: Chain, hi: nat, p: Ptr)
    requires SameLive(ch, r) && NearestBefore(ch, hi, p)
    ensures NearestBefore(r, hi, p)
  {
    forall k: nat ensures Live(r, k) == Live(ch, k) { }
  }

  /** Reference counts play no part in the shape of the list. */
  lemma ShapeIgnoresRefs(ch: Chain, r: Chain)
    requires Shape(ch) && SameLive(ch, r) && r.first == ch.first && r.last == ch.last
    requires forall k: nat :: k < |ch.nodes| ==>
               r.nodes[k].next == ch.nodes[k].next && r.nodes[k].prev == ch.nodes[k].prev
    ensures Shape(r)
  {
    hide NearestAfter, NearestBefore;
    AfterIgnoresRest(ch, r, -1, ch.first);
    BeforeIgnoresRest(ch, r, |ch.nodes|, ch.last);
    forall k: nat | Live(r, k) ensures NearestAfter(r, k, r.nodes[k].next) {
      assert Live(ch, k);
      AfterIgnoresRest(ch, r, k, ch.nodes[k].next);
    }
    forall k: nat | Live(r, k) ensures NearestBefore(r, k, r.nodes[k].prev) {
      assert Live(ch, k);
      BeforeIgnoresRest(ch, r, k, ch.nodes[k].prev);
    }
  }

  /** A server packet at the very beginning is unlinked and freed at once. */
  lemma LeadingServerGoes(ch: Chain, m: nat, exec: seq<nat>, e: nat)
    requires !ch.fault && Shape(ch) && |ch.nodes| == m + 1 && Lead(Kinds(ch.nodes)) == m + 1
    requires Counts(ch, m, m) && Pending(ch, m) && Log(ch, exec, e)
    ensures var r := Classify(ch);
            && !r.fault && Shape(r) && |r.nodes| == m + 1 && Kinds(r.nodes) == Kinds(ch.nodes)
            && Counts(r, m + 1, m + 1) && Pending(r, m + 1) && Log(r, exec, e)
  {
    hide Shape, Unlink;
    var ks := Kinds(ch.nodes);
    InUse(ch, m, m, m);
    NewestIsLast(ch);
    assert CountOk(ch.nodes[m], Answered(ks, m, m), false);
    UnlinkKeepsShape(ch, m);
    var r := Unlink(ch, m);
    assert Classify(ch) == r;
    assert Kinds(r.nodes) == ks;
    forall k: nat | k < m + 1 ensures CountOk(r.nodes[k], Answered(ks, m + 1, k), true) {
      assert CountOk(ch.nodes[k], Answered(ks, m, k), k < m);
    }
  }

  lemma OnlyServers(ks: seq<Kind>, m: nat)
    requires Safe(ks) && |ks| == m + 1 && ks[m] == Server
    ensures Lead(ks) == m + 1
  {
    assert MayFollow(ks, m);
  }

  lemma ServerStepKeepsInv(s: State)
    requires Inv(s) && s.p.PClassify? && Safe(Kinds(s.chain.nodes)) && s.chain.nodes[|s.chain.nodes| - 1].kind == Server
    ensures var t := ProducerStep(s).value; Inv(t) && Sent(t) == Sent(s)
  {
    hide Shape, Counts, Pending, Log, Classify, LastPending, Lead, Safe;
    var m := |s.chain.nodes| - 1;
    OnlyServers(Kinds(s.chain.nodes), m);
    LeadingServerGoes(s.chain, m, s.exec, Executed(s.c));
  }

  /** Any other packet is dealt with and stays. */
  lemma OtherStays(ch: Chain, m: nat, lo: nat, exec: seq<nat>, e: nat)
    requires !ch.fault && Shape(ch) && |ch.nodes| == m + 1 && ch.nodes[m].kind != Server && Safe(Kinds(ch.nodes))
    requires Counts(ch, m, lo) && Pending(ch, m) && Log(ch, exec, e)
    requires lo <= m && (lo == m > 0 ==> ch.nodes[m - 1].kind != Query)
    ensures var r := Classify(ch);
            && !r.fault && Shape(r) && |r.nodes| == m + 1 && Kinds(r.nodes) == Kinds(ch.nodes)
            && Counts(r, m + 1, lo) && Pending(r, m + 1) && Log(r, exec, e)
            && forall k: nat :: k <= m ==> r.nodes[k].next == ch.nodes[k].next
  {
    hide Shape, Counts, Pending, Log, Classify, LastPending, Lead, Safe, TailOk;
    TailFacts(ch, m, lo);
    ClassifyEffect(ch, m);
    ClassifyKeepsLogs(ch, Classify(ch), m, lo, exec, e);
    assert Kinds(Classify(ch).nodes) == Kinds(ch.nodes);
    ShapeIgnoresRefs(ch, Classify(ch));
  }

  lemma OtherStepKeepsInv(s: State)
    requires Inv(s) && s.p.PClassify? && Safe(Kinds(s.chain.nodes)) && s.chain.nodes[|s.chain.nodes| - 1].kind != Server
    ensures var t := ProducerStep(s).value; Inv(t) && Sent(t) == Sent(s)
  {
    hide Shape, Counts, Pending, Log, Classify, LastPending, Lead, Safe;
    OtherStays(s.chain, |s.chain.nodes| - 1, Low(s), s.exec, Executed(s.c));
  }

  lemma ClassifyStepKeepsInv(s: State)
    requires Inv(s) && s.p.PClassify? && Safe(Kinds(s.chain.nodes))
    ensures var t := ProducerStep(s).value; Inv(t) && Sent(t) == Sent(s)
  {
    hide Safe, Kinds, Sent, Locks, Awake, Cursor, Shape, Counts, Pending, Log;
    if s.chain.nodes[|s.chain.nodes| - 1].kind == Server {
      ServerStepKeepsInv(s);
    } else {
      OtherStepKeepsInv(s);
    }
  }

  lemma NotifyKeepsInv(s: State)
    requires Inv(s) && ProducerStep(s).Some? && (s.p.PNotify? || s.p.PEndNotify?)
    ensures var t := ProducerStep(s).value; Inv(t) && Sent(t) == Sent(s)
  {
    hide Shape, Counts, Pending, Log, Kinds, Lead;
  }

  lemma AppendLocksKeepInv(s: State)
    requires Inv(s) && ProducerStep(s).Some? && (s.p.PWantEof? || s.p.PUnlock?)
    ensures var t := ProducerStep(s).value; Inv(t) && Sent(t) == Sent(s)
  {
    hide Shape, Counts, Pending, Log, Kinds, Lead;
  }

  lemma EndLocksKeepInv(s: State)
    requires Inv(s) && ProducerStep(s).Some?
    requires s.p.PEndWantEof? || s.p.PEndSet? || s.p.PEndUnlock? || s.p.PJoin?
    ensures var t := ProducerStep(s).value; Inv(t) && Sent(t) == Sent(s)
  {
    hide Shape, Counts, Pending, Log, Kinds, Lead;
  }

  lemma ProducerStepKeepsInv(s: State)
    requires Inv(s) && ProducerStep(s).Some? && (s.p.PClassify? ==> Safe(Kinds(s.chain.nodes)))
    ensures var t := ProducerStep(s).value; Inv(t) && Sent(t) == Sent(s)
  {
    hide Inv, Sent, Safe;
    match s.p
    case PLink(_) => LinkStepKeepsInv(s);
    case PClassify => ClassifyStepKeepsInv(s);
    case PNotify => NotifyKeepsInv(s);
    case PEndNotify => NotifyKeepsInv(s);
    case PWantEof => AppendLocksKeepInv(s);
    case PUnlock => AppendLocksKeepInv(s);
    case _ => EndLocksKeepInv(s);
  }

  // ---------------------------------------------------------------- consumer steps

  /** The consumer's `consider_unlink_pkt(tmp, true)`: the packet it has moved past leaves the list and is
      freed, unless it is a registered query, which stays linked with its second reference. */
  lemma PassedPacket(ch: Chain, m: nat, t: nat, exec: seq<nat>, e: nat)
    requires !ch.fault && Shape(ch) && t < m == |ch.nodes|
    requires Counts(ch, m, t) && Pending(ch, m) && Log(ch, exec, e)
    ensures var r := ConsiderUnlink(ch, t, true);
            && !r.fault && Shape(r) && |r.nodes| == m
            && Counts(r, m, t + 1) && Pending(r, m) && Log(r, exec, e)
            && Kinds(r.nodes) == Kinds(ch.nodes)
  {
    hide Shape, Unlink;
    var r := ConsiderUnlink(ch, t, true);
    var ks := Kinds(ch.nodes);
    assert CountOk(ch.nodes[t], Answered(ks, m, t), t < t);
    if ch.nodes[t].refs == 1 {
      UnlinkKeepsShape(ch, t);
      assert Kinds(r.nodes) == ks;
    }
    forall k: nat | k < m ensures CountOk(r.nodes[k], Answered(ks, m, k), k < t + 1) {
      assert CountOk(ch.nodes[k], Answered(ks, m, k), k < t);
    }
  }

  lemma UnlinkStepKeepsInv(s: State)
    requires Inv(s) && ConsumerStep(s).Some? && (s.c.CFastUnlink? || s.c.CSlowUnlink?)
    ensures var t := ConsumerStep(s).value; Inv(t) && Sent(t) == Sent(s)
  {
    hide Shape, Counts, Pending, Log, ConsiderUnlink, Kinds;
    PassedPacket(s.chain, |s.chain.nodes|, s.c.tmp, s.exec, Executed(s.c));
  }

  lemma ExecStepKeepsInv(s: State)
    requires Inv(s) && s.c.CExec?
    ensures var t := ConsumerStep(s).value; Inv(t) && Sent(t) == Sent(s)
  {
    hide Shape, Counts, Pending;
    InUse(s.chain, Classified(s), Low(s), s.c.cur);
  }

  lemma StartKeepsInv(s: State)
    requires Inv(s) && ConsumerStep(s).Some? && s.c.CStart?
    ensures var t := ConsumerStep(s).value; Inv(t) && Sent(t) == Sent(s)
  {
    hide Shape, Counts, Pending, Log, Kinds, Lead;
  }

  lemma TakeLockKeepsInv(s: State)
    requires Inv(s) && ConsumerStep(s).Some? && (s.c.CWantLock? || s.c.CWantLock2?)
    ensures var t := ConsumerStep(s).value; Inv(t) && Sent(t) == Sent(s)
  {
    hide Shape, Counts, Pending, Log, Kinds, Lead;
    InUse(s.chain, Classified(s), Low(s), Oldest(s.c));
  }

  lemma LockedReadKeepsInv(s: State)
    requires Inv(s) && ConsumerStep(s).Some? && s.c.CFast?
    ensures var t := ConsumerStep(s).value; Inv(t) && Sent(t) == Sent(s)
  {
    hide Shape, Counts, Pending, Log, Kinds, Lead;
    InUse(s.chain, Classified(s), Low(s), Oldest(s.c));
  }

  /** The consumer begins with the first packet that is no server packet, or ends at once. */
  lemma FirstReadKeepsInv(s: State)
    requires Inv(s) && s.c.CReadFirst?
    ensures var t := ConsumerStep(s).value; Inv(t) && Sent(t) == Sent(s)
  {
    hide Shape, Counts, Pending, Kinds, Lead, Queries;
    FirstIsOldest(s.chain, Classified(s));
    NoQueryInLead(Kinds(s.chain.nodes), 0);
    NoQueryInLead(Kinds(s.chain.nodes), Lead(Kinds(s.chain.nodes)));
  }

  lemma TakeEofLockKeepsInv(s: State)
    requires Inv(s) && ConsumerStep(s).Some? && (s.c.CWantEof? || s.c.CReacquire?)
    ensures var t := ConsumerStep(s).value; Inv(t) && Sent(t) == Sent(s)
  {
    hide Shape, Counts, Pending, Log, Kinds, Lead;
    InUse(s.chain, Classified(s), Low(s), Oldest(s.c));
  }

  lemma WaitTestKeepsInv(s: State)
    requires Inv(s) && ConsumerStep(s).Some? && (s.c.CTestNext? || s.c.CTestEof?)
    ensures var t := ConsumerStep(s).value; Inv(t) && Sent(t) == Sent(s)
  {
    hide Shape, Counts, Pending, Log, Kinds, Lead;
    InUse(s.chain, Classified(s), Low(s), Oldest(s.c));
  }

  lemma AfterWaitKeepsInv(s: State)
    requires Inv(s) && ConsumerStep(s).Some? && (s.c.CCheckEof? || s.c.CAdvance?)
    ensures var t := ConsumerStep(s).value; Inv(t) && Sent(t) == Sent(s)
  {
    hide Shape, Counts, Pending, Log, Kinds, Lead;
    InUse(s.chain, Classified(s), Low(s), Oldest(s.c));
  }

  lemma ScopeExitKeepsInv(s: State)
    requires Inv(s) && ConsumerStep(s).Some? && (s.c.CRelock? || s.c.CScopeExit?)
    ensures var t := ConsumerStep(s).value; Inv(t) && Sent(t) == Sent(s)
  {
    hide Shape, Counts, Pending, Log, Kinds, Lead;
    InUse(s.chain, Classified(s), Low(s), Oldest(s.c));
  }

  lemma ConsumerStepKeepsInv(s: State)
    requires Inv(s) && ConsumerStep(s).Some?
    ensures var t := ConsumerStep(s).value; Inv(t) && Sent(t) == Sent(s)
  {
    hide Inv, Sent, Step;
    match s.c
    case CFastUnlink(_, _) => UnlinkStepKeepsInv(s);
    case CSlowUnlink(_, _) => UnlinkStepKeepsInv(s);
    case CExec(_) => ExecStepKeepsInv(s);
    case CStart => StartKeepsInv(s);
    case CReadFirst => FirstReadKeepsInv(s);
    case CWantLock(_) => TakeLockKeepsInv(s);
    case CFast(_) => LockedReadKeepsInv(s);
    case CWantLock2(_, _) => TakeLockKeepsInv(s);
    case CCheckEof(_) => AfterWaitKeepsInv(s);
    case CAdvance(_) => AfterWaitKeepsInv(s);
    case CRelock(_) => ScopeExitKeepsInv(s);
    case CScopeExit(_) => ScopeExitKeepsInv(s);
    case CTestNext(_) => WaitTestKeepsInv(s);
    case CTestEof(_) => WaitTestKeepsInv(s);
    case _ => TakeEofLockKeepsInv(s);
  }

  // ---------------------------------------------------------------- runs

  /** The packets handed to `append_packet` so far. */
  function Sent(s: State): seq<Kind> {
    Kinds(s.chain.nodes) + if s.p.PLink? then [s.p.kind] else []
  }

  function Added(l: Label): seq<Kind> {
    if l.Append? then [l.kind] else []
  }

  /** The packets a schedule appends. */
  function Appended(sched: seq<Label>): seq<Kind> {
    if sched == [] then [] else Added(sched[0]) + Appended(sched[1..])
  }

  lemma CallKeepsInv(s: State, l: Label)
    requires Inv(s) && Step(s, l).Some? && (l.Append? || l.End?)
    ensures var t := Step(s, l).value; Inv(t) && Sent(t) == Sent(s) + Added(l)
  {
    hide Shape, Counts, Pending, Log, Kinds, Lead;
  }

  lemma WakeUpKeepsInv(s: State)
    requires Inv(s) && s.c.CWaiting?
    ensures var t := Step(s, Spurious).value; Inv(t) && Sent(t) == Sent(s)
  {
    hide Shape, Counts, Pending, Log, Kinds, Lead;
  }

  lemma StepKeepsInv(s: State, l: Label)
    requires Inv(s) && Step(s, l).Some? && (l.Prod? && s.p.PClassify? ==> Safe(Kinds(s.chain.nodes)))
    ensures var t := Step(s, l).value; Inv(t) && Sent(t) == Sent(s) + Added(l)
  {
    hide Inv, Sent, Kinds, Safe, ProducerStep, ConsumerStep;
    match l
    case Prod => ProducerStepKeepsInv(s);
    case Cons => ConsumerStepKeepsInv(s);
    case Spurious => WakeUpKeepsInv(s);
    case _ => CallKeepsInv(s, l);
  }

  lemma SafePrefix(a: seq<Kind>, b: seq<Kind>)
    requires a <= b && Safe(b)
    ensures Safe(a)
  {
    forall e | 0 <= e < |a| ensures MayFollow(a, e) {
      assert MayFollow(b, e);
      PendingOfPrefix(a, b, e);
    }
  }

  /** What the recorder writes is safe. */
  lemma DisciplinedIsSafe(ks: seq<Kind>)
    requires Disciplined(ks)
    ensures Safe(ks)
  {
    forall e | 0 <= e < |ks| ensures MayFollow(ks, e) {
      if e > 0 {
        PendingIsDirect(ks, e);
      }
    }
  }

  lemma PendingIsDirect(ks: seq<Kind>, e: nat)
    requires Disciplined(ks) && e <= |ks|
    ensures LastPending(ks, e).At? ==> LastPending(ks, e).i == e - 1
  {
    if e > 0 && ks[e - 1] == Client {
      PendingIsDirect(ks, e - 1);
      assert e > 1 ==> ks[e - 2] != Query;
    }
  }

  /** Any run of a safe stream keeps the invariant. */
  lemma {:induction false} RunKeepsInv(s: State, sched: seq<Label>)
    requires Inv(s) && Run(s, sched).Some? && Safe(Sent(s) + Appended(sched))
    ensures var t := Run(s, sched).value; Inv(t) && Sent(t) == Sent(s) + Appended(sched)
    decreases |sched|
  {
    hide Inv, Step, Kinds, Safe;
    if sched == [] {
      assert Sent(s) + Appended(sched) == Sent(s);
    } else {
      SafePrefix(Kinds(s.chain.nodes), Sent(s) + Appended(sched));
      StepKeepsInv(s, sched[0]);
      var t := Step(s, sched[0]).value;
      assert Sent(t) + Appended(sched[1..]) == Sent(s) + Appended(sched);
      RunKeepsInv(t, sched[1..]);
    }
  }

  lemma InitInv()
    ensures Inv(INIT)
  {
  }
}
