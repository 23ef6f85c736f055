/** What every run of the replay protocol guarantees, for every schedule and every safe
    stream: order and safety, freedom from deadlock and lost wake-ups, termination of `join`,
    and exactly when all queries are executed. */
module ReplayGuarantees {
  import opened Wrappers
  import opened PacketChain
  import opened Replay

  // ---------------------------------------------------------------- safety

  /** The list walked from `p` through `next` pointers contains packet `i`. */
  predicate Reaches(ch: Chain, p: Ptr, i: nat)
    decreases |ch.nodes| - (if p.At? then p.i else |ch.nodes|)
  {
    p.At? && p.i < |ch.nodes| && !ch.nodes[p.i].freed &&
    (p.i == i || (ch.nodes[p.i].next.At? && p.i < ch.nodes[p.i].next.i && Reaches(ch, ch.nodes[p.i].next, i)))
  }

  lemma {:induction false} LiveIsReached(ch: Chain, p: Ptr, lo: int, i: nat)
    requires Shape(ch) && Live(ch, i) && NearestAfter(ch, lo, p) && lo < i
    ensures Reaches(ch, p, i)
    decreases |ch.nodes| - (if p.At? then p.i else |ch.nodes|)
  {
    assert p.At? && p.i <= i;
    if p.i < i {
      assert NearestAfter(ch, p.i, ch.nodes[p.i].next);
      LiveIsReached(ch, ch.nodes[p.i].next, p.i, i);
    }
  }

  lemma {:induction false} QueriesGrow(ks: seq<Kind>, a: nat, b: nat)
    requires a <= b <= |ks|
    ensures Queries(ks, a) <= Queries(ks, b)
    ensures Queries(ks, a) == Queries(ks, b) <==> forall k :: a <= k < b ==> ks[k] != Query
  {
    if a < b {
      QueriesGrow(ks, a, b - 1);
    }
  }

  lemma RunFromInit(sched: seq<Label>)
    requires Safe(Appended(sched)) && Run(INIT, sched).Some?
    ensures var s := Run(INIT, sched).value; Inv(s) && Sent(s) == Appended(sched)
  {
    hide Run, Inv, Safe;
    InitInv();
    assert Sent(INIT) + Appended(sched) == Appended(sched);
    RunKeepsInv(INIT, sched);
  }

  lemma CurrentIsLinked(s: State)
    requires Inv(s) && HasPacket(s.c)
    ensures Live(s.chain, Oldest(s.c)) && Reaches(s.chain, s.chain.first, Oldest(s.c))
  {
    hide Shape, Counts, Pending, Log, Awake, Locks;
    InUse(s.chain, Classified(s), Low(s), Oldest(s.c));
    FirstNearest(s.chain);
    LiveIsReached(s.chain, s.chain.first, -1, Oldest(s.c));
  }

  lemma LogIsPrefix(s: State, ks: seq<Kind>)
    requires Log(s.chain, s.exec, Executed(s.c)) && Kinds(s.chain.nodes) <= ks
    ensures Executed(s.c) <= |s.chain.nodes| <= |ks|
    ensures s.exec == Queries(ks, Executed(s.c)) && s.exec <= Queries(ks, |ks|)
  {
    QueriesOfPrefix(Kinds(s.chain.nodes), ks, Executed(s.c));
    QueriesGrow(ks, Executed(s.c), |ks|);
  }

  /** In every interleaving the executed queries are a prefix of the appended queries: in order,
      none twice, none skipped. No run touches a freed packet, frees one twice or fails an
      assertion, and while the consumer has a current packet that packet is linked and live. */
  lemma ExecutedIsPrefix(sched: seq<Label>)
    requires Safe(Appended(sched)) && Run(INIT, sched).Some?
    ensures var s := Run(INIT, sched).value; var ks := Appended(sched);
            && !s.chain.fault
            && Executed(s.c) <= |ks|
            && s.exec == Queries(ks, Executed(s.c))
            && s.exec <= Queries(ks, |ks|)
            && (HasPacket(s.c) ==> Live(s.chain, Oldest(s.c)) && Reaches(s.chain, s.chain.first, Oldest(s.c)))
  {
    hide Run, Safe, Shape, Counts, Pending, Log, Awake, Locks, Cursor, Reaches;
    RunFromInit(sched);
    var s := Run(INIT, sched).value;
    LogIsPrefix(s, Appended(sched));
    if HasPacket(s.c) {
      CurrentIsLinked(s);
    }
  }

  lemma FirstNearest(ch: Chain)
    requires Shape(ch)
    ensures NearestAfter(ch, -1, ch.first)
  {
  }

  /** Every packet the consumer has moved past is freed, unless it is a query answered by the packet right
      after it: those were registered and stay linked, with two references. */
  lemma PassedPacketsAreFreed(sched: seq<Label>, k: nat)
    requires Safe(Appended(sched)) && Run(INIT, sched).Some?
    requires k < Oldest(Run(INIT, sched).value.c)
    ensures var s := Run(INIT, sched).value;
            && k < |s.chain.nodes|
            && (s.chain.nodes[k].freed <==> !Answered(Kinds(s.chain.nodes), Classified(s), k))
            && (!s.chain.nodes[k].freed ==> s.chain.nodes[k].refs == 2)
  {
    hide Run, Safe, Shape, Pending, Log, Awake, Locks;
    RunFromInit(sched);
    var s := Run(INIT, sched).value;
    assert CountOk(s.chain.nodes[k], Answered(Kinds(s.chain.nodes), Classified(s), k), true);
  }

  // ---------------------------------------------------------------- no deadlock, no lost wake-up

  /** The thread's next step takes `lock`. */
  predicate WantsLock(c: Consumer) {
    c.CStart? || c.CWantLock? || c.CWantLock2?
  }

  /** A reachable state. */
  ghost predicate Reachable(s: State) {
    exists sched :: Safe(Appended(sched)) && Run(INIT, sched) == Some(s)
  }

  lemma ReachableInv(s: State)
    requires Reachable(s)
    ensures Inv(s)
  {
    var sched :| Safe(Appended(sched)) && Run(INIT, sched) == Some(s);
    RunFromInit(sched);
  }

  predicate WantsEof(c: Consumer) {
    c.CWantEof? || c.CReacquire? || c.CRelock?
  }

  lemma ConsumerBlocked(s: State)
    ensures ConsumerStep(s).None? <==>
              || s.c.CWaiting? || s.c.CDone?
              || (WantsLock(s.c) && s.lock != Free)
              || (WantsEof(s.c) && s.eofLock != Free)
  {
    hide Touch, Next, ConsiderUnlink, KindOf, Fault;
  }

  lemma ProducerBlocked(s: State)
    ensures ProducerStep(s).None? <==>
              || s.p.PIdle? || s.p.PDone? || (s.p.PJoin? && !s.c.CDone?)
              || ((s.p.PWantEof? || s.p.PEndWantEof?) && s.eofLock != Free)
  {
    hide Link, Classify, Wake;
  }

  lemma SomeoneMoves(s: State)
    requires Locks(s) && Awake(s)
    ensures (s.p.PDone? && s.c.CDone?) || Step(s, End).Some? || Step(s, Prod).Some? || Step(s, Cons).Some?
    ensures s.eofLock == ByConsumer ==> !WantsLock(s.c)
    ensures s.eofLock == ByProducer ==> s.lock == ByProducer
  {
    hide ProducerStep, ConsumerStep, Next;
    ConsumerBlocked(s);
    ProducerBlocked(s);
  }

  /** Unless both threads are finished one of them can move, without counting on a spurious
      wake-up. The two locks are never taken in opposite orders. */
  lemma NoDeadlock(s: State)
    requires Reachable(s)
    ensures (s.p.PDone? && s.c.CDone?) || Step(s, End).Some? || Step(s, Prod).Some? || Step(s, Cons).Some?
    ensures s.eofLock == ByConsumer ==> !WantsLock(s.c)
    ensures s.eofLock == ByProducer ==> s.lock == ByProducer
  {
    hide Step, Locks, Awake;
    ReachableInv(s);
    SomeoneMoves(s);
  }

  /** A waiting consumer really has nothing to do, unless the producer has still to notify it. */
  lemma NoLostWakeup(s: State)
    requires Reachable(s) && s.c.CWaiting?
    ensures Next(s.chain, s.c.cur).At? ==> s.p.PWantEof? || s.p.PNotify?
    ensures s.reachedEof ==> s.p.PEndNotify?
  {
    ReachableInv(s);
    hide Shape, Counts, Pending, Log;
  }

  // ---------------------------------------------------------------- termination

  function ProducerRank(p: Producer): nat {
    match p
    case PEndNotify => 3
    case PEndUnlock => 2
    case PJoin => 1
    case _ => 0
  }

  function ConsumerRank(c: Consumer, n: nat): int {
    match c
    case CStart => 20 * n + 21
    case CReadFirst => 20 * n + 20
    case CWantLock2(_, i) => 20 * (n - i) + 19
    case CSlowUnlink(_, i) => 20 * (n - i) + 18
    case CRelock(i) => 20 * (n - i) + 17
    case CScopeExit(i) => 20 * (n - i) + 16
    case CFastUnlink(_, i) => 20 * (n - i) + 16
    case CExec(i) => 20 * (n - i) + 15
    case CWantLock(i) => 20 * (n - i) + 14
    case CFast(i) => 20 * (n - i) + 13
    case CWaiting(i) => 20 * (n - i) + 12
    case CReacquire(i) => 20 * (n - i) + 11
    case CWantEof(i) => 20 * (n - i) + 10
    case CTestNext(i) => 20 * (n - i) + 9
    case CTestEof(i) => 20 * (n - i) + 8
    case CCheckEof(i) => 20 * (n - i) + 7
    case CAdvance(i) => 20 * (n - i) + 6
    case CDone(_) => 0
  }

  /** What is left to do after the EOF flag is set. */
  function Remaining(s: State): int {
    ProducerRank(s.p) + ConsumerRank(s.c, |s.chain.nodes|)
  }

  lemma ProducerStepShrinksRemaining(s: State)
    requires Inv(s) && s.reachedEof && ProducerStep(s).Some?
    ensures var t := ProducerStep(s).value; t.reachedEof && 0 <= Remaining(t) < Remaining(s)
  {
    hide Shape, Counts, Pending, Log;
  }

  lemma UnlinkStepShrinksRemaining(s: State)
    requires Inv(s) && s.reachedEof && ConsumerStep(s).Some? && (s.c.CFastUnlink? || s.c.CSlowUnlink?)
    ensures var t := ConsumerStep(s).value; t.reachedEof && 0 <= Remaining(t) < Remaining(s)
  {
    hide Shape, Counts, Pending, Log, ConsiderUnlink, Kinds, Awake;
    PassedPacket(s.chain, |s.chain.nodes|, s.c.tmp, s.exec, Executed(s.c));
  }

  lemma LockSideShrinksRemaining(s: State)
    requires Inv(s) && s.reachedEof && ConsumerStep(s).Some?
    requires s.c.CStart? || s.c.CReadFirst? || s.c.CWantLock? || s.c.CFast? || s.c.CWantLock2? || s.c.CExec?
    ensures var t := ConsumerStep(s).value; t.reachedEof && 0 <= Remaining(t) < Remaining(s)
  {
    hide Shape, Counts, Pending, Log, Kinds, Awake;
    if HasPacket(s.c) {
      InUse(s.chain, Classified(s), Low(s), Oldest(s.c));
    } else if s.c.CReadFirst? {
      FirstIsOldest(s.chain, Classified(s));
    }
  }

  lemma EofSideShrinksRemaining(s: State)
    requires Inv(s) && s.reachedEof && ConsumerStep(s).Some?
    requires s.c.CWantEof? || s.c.CTestNext? || s.c.CTestEof? || s.c.CReacquire? || s.c.CCheckEof?
             || s.c.CAdvance? || s.c.CRelock? || s.c.CScopeExit?
    ensures var t := ConsumerStep(s).value; t.reachedEof && 0 <= Remaining(t) < Remaining(s)
  {
    hide Shape, Counts, Pending, Log, Kinds;
    InUse(s.chain, Classified(s), Low(s), Oldest(s.c));
  }

  lemma ConsumerStepShrinksRemaining(s: State)
    requires Inv(s) && s.reachedEof && ConsumerStep(s).Some?
    ensures var t := ConsumerStep(s).value; t.reachedEof && 0 <= Remaining(t) < Remaining(s)
  {
    hide Inv, Remaining;
    if s.c.CFastUnlink? || s.c.CSlowUnlink? {
      UnlinkStepShrinksRemaining(s);
    } else if s.c.CStart? || s.c.CReadFirst? || s.c.CWantLock? || s.c.CFast? || s.c.CWantLock2? || s.c.CExec? {
      LockSideShrinksRemaining(s);
    } else {
      EofSideShrinksRemaining(s);
    }
  }

  lemma StepShrinksRemaining(s: State, l: Label)
    requires Inv(s) && s.reachedEof && Step(s, l).Some?
    ensures var t := Step(s, l).value; t.reachedEof && 0 <= Remaining(t) < Remaining(s) && Added(l) == []
  {
    hide Shape, Counts, Pending, Log, ConsumerStep, ProducerStep;
    match l
    case Prod => ProducerStepShrinksRemaining(s);
    case Cons => ConsumerStepShrinksRemaining(s);
    case _ =>
  }

  lemma KindsAreSent(s: State)
    ensures Kinds(s.chain.nodes) <= Sent(s)
  {
  }

  lemma {:induction false} RunsAreBounded(s: State, sched: seq<Label>)
    requires Inv(s) && s.reachedEof && Safe(Sent(s)) && Run(s, sched).Some?
    ensures |sched| <= if sched == [] then 0 else Remaining(s)
    ensures Run(s, sched).value.reachedEof && Appended(sched) == []
    decreases |sched|
  {
    if sched != [] {
      hide Inv, Step, Remaining, Kinds, Safe, Sent, Added;
      KindsAreSent(s);
      SafePrefix(Kinds(s.chain.nodes), Sent(s));
      StepShrinksRemaining(s, sched[0]);
      StepKeepsInv(s, sched[0]);
      var t := Step(s, sched[0]).value;
      assert Sent(t) == Sent(s);
      RunsAreBounded(t, sched[1..]);
    }
  }

  /** Once the EOF flag is set every execution ends, spurious wake-ups included: it has at most
      `Remaining` steps, and when no thread can move the consumer has returned and been joined. */
  lemma JoinCompletes(s: State, sched: seq<Label>)
    requires Reachable(s) && s.reachedEof && Run(s, sched).Some?
    ensures |sched| <= if sched == [] then 0 else Remaining(s)
    ensures var t := Run(s, sched).value;
            (forall l :: Step(t, l).None?) ==> t.p.PDone? && t.c.CDone?
  {
    hide Run, Step, Inv, Remaining, Safe;
    var before :| Safe(Appended(before)) && Run(INIT, before) == Some(s);
    RunFromInit(before);
    RunsAreBounded(s, sched);
    var t := Run(s, sched).value;
    RunsCompose(INIT, before, sched);
    AppendedOfConcat(before, sched);
    assert Appended(before + sched) == Appended(before);
    assert Reachable(t) by {
      assert Safe(Appended(before + sched)) && Run(INIT, before + sched) == Some(t);
    }
    NoDeadlock(t);
  }

  lemma {:induction false} RunsCompose(s: State, a: seq<Label>, b: seq<Label>)
    requires Run(s, a).Some?
    ensures Run(s, a + b) == Run(Run(s, a).value, b)
    decreases |a|
  {
    if a == [] {
      assert a + b == b;
    } else {
      hide Step;
      assert (a + b)[0] == a[0] && (a + b)[1..] == a[1..] + b;
      RunsCompose(Step(s, a[0]).value, a[1..], b);
    }
  }

  lemma {:induction false} AppendedOfConcat(a: seq<Label>, b: seq<Label>)
    ensures Appended(a + b) == Appended(a) + Appended(b)
  {
    if a == [] {
      assert a + b == b;
    } else {
      assert (a + b)[0] == a[0] && (a + b)[1..] == a[1..] + b;
      AppendedOfConcat(a[1..], b);
    }
  }

  // ---------------------------------------------------------------- full delivery

  /** When the replay has been joined, every packet has been walked exactly when the stream was
      empty or the consumer's last packet had no successor; and every query has been executed
      exactly when no query is among the packets it did not reach. */
  lemma FullDelivery(sched: seq<Label>)
    requires Safe(Appended(sched)) && Run(INIT, sched).Some? && Run(INIT, sched).value.p.PDone?
    ensures var s := Run(INIT, sched).value; var ks := Appended(sched);
            && s.c.CDone? && Executed(s.c) <= |ks|
            && (Executed(s.c) == |ks| <==> ks == [] || (s.c.at.At? && Next(s.chain, s.c.at.i).Null?))
            && (s.exec == Queries(ks, |ks|) <==> forall k :: Executed(s.c) <= k < |ks| ==> ks[k] != Query)
  {
    hide Run, Safe, Shape, Counts, Pending, Locks, Lead, Queries;
    RunFromInit(sched);
    var s := Run(INIT, sched).value;
    LogIsPrefix(s, Appended(sched));
    QueriesGrow(Appended(sched), Executed(s.c), |Appended(sched)|);
    if s.c.at.At? {
      CurrentFacts(s);
    }
  }

  /** No step takes an executed query back. */
  lemma StepKeepsExec(s: State, l: Label)
    requires Step(s, l).Some?
    ensures s.exec <= Step(s, l).value.exec
  {
    hide Touch, Next, KindOf, ConsiderUnlink, Fault, Link, Classify;
  }

  lemma {:induction false} RunKeepsExec(s: State, sched: seq<Label>)
    requires Run(s, sched).Some?
    ensures s.exec <= Run(s, sched).value.exec
    decreases |sched|
  {
    if sched != [] {
      hide Step;
      StepKeepsExec(s, sched[0]);
      RunKeepsExec(Step(s, sched[0]).value, sched[1..]);
    }
  }

  /** A waiting consumer between two calls of the reader has executed everything there is. */
  lemma WaitingIsUpToDate(s: State)
    requires Inv(s) && s.c.CWaiting? && s.p.PIdle?
    ensures Executed(s.c) == |s.chain.nodes| && s.exec == Queries(Kinds(s.chain.nodes), |s.chain.nodes|)
  {
    hide Shape, Counts, Pending, Locks;
    InUse(s.chain, Classified(s), Low(s), Oldest(s.c));
  }

  /** A reader that ends the replay only while the consumer waits loses nothing: whatever happens
      afterwards without a further packet, every query is executed, in order, once. */
  lemma EndWhileWaitingDelivers(before: seq<Label>, after: seq<Label>)
    requires Safe(Appended(before)) && Run(INIT, before).Some? && Appended(after) == []
    requires var s := Run(INIT, before).value; s.c.CWaiting? && s.p.PIdle? && Run(s, after).Some?
    ensures var ks := Appended(before);
            && Run(INIT, before + after).Some? && Appended(before + after) == ks
            && Run(INIT, before + after).value.exec == Queries(ks, |ks|)
  {
    hide Run, Safe, Inv, Queries, Appended;
    var s := Run(INIT, before).value;
    var ks := Appended(before);
    RunFromInit(before);
    WaitingIsUpToDate(s);
    assert Sent(s) == Kinds(s.chain.nodes) == ks;
    RunsCompose(INIT, before, after);
    AppendedOfConcat(before, after);
    assert Appended(before + after) == ks + [] == ks;
    RunKeepsExec(s, after);
    ExecutedIsPrefix(before + after);
  }

  // ---------------------------------------------------------------- runs that show the limits

  /** Extends a run by one step. */
  lemma Go(sched: seq<Label>, s: State, l: Label) returns (longer: seq<Label>, t: State)
    requires Run(INIT, sched) == Some(s) && Step(s, l).Some?
    ensures longer == sched + [l] && Step(s, l) == Some(t) && Run(INIT, longer) == Some(t)
    ensures Appended(longer) == Appended(sched) + Added(l)
  {
    hide Step;
    longer, t := sched + [l], Step(s, l).value;
    RunsCompose(INIT, sched, [l]);
    AppendedOfConcat(sched, [l]);
    assert [l][1..] == [];
  }

  /** Extends a run by a whole call of `append_packet` that meets a free `eof_lock` and finds
      the consumer outside `eof_cond.wait`. */
  lemma GoAppend(sched: seq<Label>, s: State, k: Kind) returns (longer: seq<Label>, t: State)
    requires Run(INIT, sched) == Some(s) && s.p.PIdle? && s.lock == Free && s.eofLock == Free && !s.c.CWaiting?
    ensures t == s.(chain := Classify(Link(s.chain, k)))
    ensures Run(INIT, longer) == Some(t) && Appended(longer) == Appended(sched) + [k]
  {
    hide Link, Classify, Run, Appended;
    longer, t := Go(sched, s, Append(k));
    longer, t := Go(longer, t, Prod);
    longer, t := Go(longer, t, Prod);
    longer, t := Go(longer, t, Prod);
    longer, t := Go(longer, t, Prod);
    longer, t := Go(longer, t, Prod);
  }

  /** Extends a run by a whole call of `end_replay` up to its `join`. */
  lemma GoEnd(sched: seq<Label>, s: State) returns (longer: seq<Label>, t: State)
    requires Run(INIT, sched) == Some(s) && s.p.PIdle? && s.lock == Free && s.eofLock == Free && !s.c.CWaiting?
    ensures t == s.(reachedEof := true, p := PJoin)
    ensures Run(INIT, longer) == Some(t) && Appended(longer) == Appended(sched)
  {
    hide Run, Appended;
    longer, t := Go(sched, s, End);
    longer, t := Go(longer, t, Prod);
    longer, t := Go(longer, t, Prod);
    longer, t := Go(longer, t, Prod);
    longer, t := Go(longer, t, Prod);
  }

  /** A replay thread that starts before the first packet is appended returns at once: the
      query is never executed. */
  lemma EarlyConsumerMissesQueries() returns (sched: seq<Label>)
    ensures Safe(Appended(sched)) && Run(INIT, sched).Some?
    ensures Run(INIT, sched).value.p.PDone? && Run(INIT, sched).value.exec == []
    ensures Queries(Appended(sched), |Appended(sched)|) == [0]
  {
    var s := INIT;
    sched := [];
    assert Run(INIT, sched) == Some(s);
    hide Run;
    sched, s := Go(sched, s, Cons);
    sched, s := Go(sched, s, Cons);
    sched, s := GoAppend(sched, s, Query);
    sched, s := GoEnd(sched, s);
    sched, s := Go(sched, s, Prod);
    assert Appended(sched) == [Query];
  }

  /** The consumer has executed the first query and is about to take `lock`. */
  lemma GoFirstQuery() returns (sched: seq<Label>, s: State)
    ensures Run(INIT, sched) == Some(s) && Appended(sched) == [Query]
    ensures s == State(Chain([Node(Query, Null, Null, 1, false)], At(0), At(0), At(0), [], false),
                       Free, Free, false, PIdle, CWantLock(0), [0])
  {
    s := INIT;
    sched := [];
    sched, s := GoAppend(sched, s, Query);
    sched, s := Go(sched, s, Cons);
    sched, s := Go(sched, s, Cons);
    sched, s := Go(sched, s, Cons);
  }

  /** The consumer has seen no successor of the first query, and the second is linked only then. */
  lemma GoSecondQuery() returns (sched: seq<Label>, s: State)
    ensures Run(INIT, sched) == Some(s) && Appended(sched) == [Query, Query]
    ensures s == State(Chain([Node(Query, At(1), Null, 1, false), Node(Query, Null, At(0), 1, false)],
                             At(0), At(1), At(1), [], false), Free, Free, false, PIdle, CWantEof(0), [0])
  {
    hide Run, Appended;
    sched, s := GoFirstQuery();
    sched, s := Go(sched, s, Cons);
    sched, s := Go(sched, s, Cons);
    sched, s := GoAppend(sched, s, Query);
  }

  /** A consumer that finds the EOF flag set returns even when packets are still linked after
      its current one: here the second query is never executed. */
  lemma EofHidesLinkedPackets() returns (sched: seq<Label>)
    ensures Safe(Appended(sched)) && Run(INIT, sched).Some?
    ensures Run(INIT, sched).value.p.PDone? && Run(INIT, sched).value.exec == [0]
    ensures Queries(Appended(sched), |Appended(sched)|) == [0, 1]
  {
    hide Run, Appended;
    var s;
    sched, s := GoSecondQuery();
    sched, s := GoEnd(sched, s);
    sched, s := Go(sched, s, Cons);
    sched, s := Go(sched, s, Cons);
    sched, s := Go(sched, s, Cons);
    sched, s := Go(sched, s, Prod);
    assert Appended(sched) == [Query, Query];
    assert Queries([Query, Query], 1) == [0];
  }

  // ---------------------------------------------------------------- what makes a stream unsafe

  /** Once a packet was touched after it was freed, the run stays marked. */
  lemma UnlinkKeepsFault(ch: Chain, i: nat)
    requires ch.fault
    ensures Unlink(ch, i).fault
  {
  }

  lemma {:induction false} SweepKeepsFault(ch: Chain, p: Ptr, fuel: nat)
    requires ch.fault
    ensures Sweep(ch, p, fuel).fault
    decreases fuel
  {
    hide Unlink;
    if p.At? && fuel > 0 {
      var c1 := Touch(ch, p.i);
      UnlinkKeepsFault(c1, p.i);
      var c2 := if p != c1.last then Unlink(c1, p.i) else ConsiderUnlink(c1, p.i, false);
      SweepKeepsFault(c2, Next(c1, p.i), fuel - 1);
    }
  }

  /** An EOF that finds `last_query` freed uses it. */
  lemma StaleQueryFaults(ch: Chain, q: nat)
    requires ch.last.At? && KindOf(ch, ch.last.i) == Eof && ch.lastQuery == At(q) && !Live(ch, q)
    ensures Classify(ch).fault
  {
    hide Sweep;
    var c := Touch(ch, ch.last.i);
    var c1 := if Next(c, ch.last.i) == Null && Next(c, q) != Null then Touch(c, q) else Fault(c);
    var c2 := ConsiderUnlink(Register(c1, q), q, false);
    assert c2.fault;
    SweepKeepsFault(c2, Next(c1, q), |c2.nodes|);
  }

  /** Appends the packets of a safe stream before the replay thread starts. */
  lemma {:induction false} GoAppendAll(ks: seq<Kind>) returns (sched: seq<Label>, s: State)
    requires Safe(ks)
    ensures Run(INIT, sched) == Some(s) && Appended(sched) == ks && Inv(s) && Kinds(s.chain.nodes) == ks
    ensures s.c.CStart? && s.p.PIdle? && s.lock == Free && s.eofLock == Free
  {
    hide Run, Appended, Safe, Inv, Link, Classify;
    if ks == [] {
      sched, s := [], INIT;
      Nothing();
      InitInv();
    } else {
      var n := |ks| - 1;
      SafePrefix(ks[..n], ks);
      sched, s := GoAppendAll(ks[..n]);
      sched, s := GoAppend(sched, s, ks[n]);
      assert ks[..n] + [ks[n]] == ks;
      RunFromInit(sched);
      assert Sent(s) == Kinds(s.chain.nodes);
    }
  }

  lemma Nothing()
    ensures Run(INIT, []) == Some(INIT) && Appended([]) == []
  {
  }

  /** Both threads stand outside every call and hold nothing. */
  predicate AtRest(s: State) {
    s.p.PIdle? && s.lock == Free && s.eofLock == Free && !s.c.CWaiting?
  }

  /** Extends a run by one step of the consumer, which keeps the invariant. */
  lemma GoCons(sched: seq<Label>, s: State) returns (longer: seq<Label>, t: State)
    requires Run(INIT, sched) == Some(s) && Inv(s) && ConsumerStep(s).Some?
    ensures ConsumerStep(s) == Some(t) && Run(INIT, longer) == Some(t) && Inv(t)
    ensures Appended(longer) == Appended(sched) && Sent(t) == Sent(s)
  {
    hide Run, Appended, Inv, Sent, ConsumerStep;
    longer, t := Go(sched, s, Cons);
    ConsumerStepKeepsInv(s);
    assert Appended(sched) + [] == Appended(sched);
  }

  lemma CurrentFacts(s: State)
    requires Inv(s) && HasPacket(s.c)
    ensures Live(s.chain, Oldest(s.c)) && Oldest(s.c) < |s.chain.nodes|
    ensures var i := Oldest(s.c); Next(s.chain, i) == if i + 1 < |s.chain.nodes| then At(i + 1) else Null
  {
    hide Shape, Counts, Pending, Log, Awake, Locks;
    InUse(s.chain, Classified(s), Low(s), Oldest(s.c));
  }

  /** The consumer executes its packet and moves on to the next one, which is linked already. */
  lemma GoHop(sched: seq<Label>, s: State) returns (longer: seq<Label>, t: State)
    requires Run(INIT, sched) == Some(s) && Inv(s) && AtRest(s) && s.c.CExec? && s.c.cur + 1 < |s.chain.nodes|
    ensures Run(INIT, longer) == Some(t) && Inv(t) && AtRest(t) && t.c == CExec(s.c.cur + 1)
    ensures Appended(longer) == Appended(sched) && Kinds(t.chain.nodes) == Kinds(s.chain.nodes)
    ensures t.reachedEof == s.reachedEof
  {
    hide Run, Appended, Inv, Kinds, ConsiderUnlink;
    CurrentFacts(s);
    longer, t := GoCons(sched, s);
    longer, t := GoCons(longer, t);
    longer, t := GoCons(longer, t);
    longer, t := GoCons(longer, t);
    assert Sent(s) == Kinds(s.chain.nodes) && Sent(t) == Kinds(t.chain.nodes);
  }

  lemma {:induction false} GoWalk(sched: seq<Label>, s: State, i: nat) returns (longer: seq<Label>, t: State)
    requires Run(INIT, sched) == Some(s) && Inv(s) && AtRest(s) && s.c.CExec? && s.c.cur <= i < |s.chain.nodes|
    ensures Run(INIT, longer) == Some(t) && Inv(t) && AtRest(t) && t.c == CExec(i)
    ensures Appended(longer) == Appended(sched) && Kinds(t.chain.nodes) == Kinds(s.chain.nodes)
    ensures t.reachedEof == s.reachedEof
    decreases i - s.c.cur
  {
    hide Run, Appended, Inv;
    if s.c.cur == i {
      longer, t := sched, s;
    } else {
      longer, t := GoHop(sched, s);
      longer, t := GoWalk(longer, t, i);
    }
  }

  /** A safe stream, all of it appended, and the consumer about to execute packet `i`. */
  lemma GoTo(ks: seq<Kind>, i: nat) returns (sched: seq<Label>, s: State)
    requires Safe(ks) && Lead(ks) <= i < |ks|
    ensures Run(INIT, sched) == Some(s) && Appended(sched) == ks && Inv(s) && Kinds(s.chain.nodes) == ks
    ensures AtRest(s) && s.c == CExec(i)
  {
    hide Run, Appended, Safe, Inv, Lead, Kinds;
    sched, s := GoAppendAll(ks);
    StartFacts(s);
    sched, s := GoCons(sched, s);
    sched, s := GoCons(sched, s);
    sched, s := GoWalk(sched, s, i);
  }

  lemma StartFacts(s: State)
    requires Inv(s) && s.c.CStart? && s.p.PIdle?
    ensures var lead := Lead(Kinds(s.chain.nodes));
            s.chain.first == if lead == |s.chain.nodes| then Null else At(lead)
  {
    hide Shape, Pending, Log, Awake, Locks;
    FirstIsOldest(s.chain, |s.chain.nodes|);
  }

  /** The consumer has found no successor to the last packet, and holds `eof_lock` to look again. */
  lemma GoToLast(ks: seq<Kind>) returns (sched: seq<Label>, s: State)
    requires Safe(ks) && Lead(ks) < |ks|
    ensures Run(INIT, sched) == Some(s) && Appended(sched) == ks && Inv(s) && Kinds(s.chain.nodes) == ks
    ensures s.p.PIdle? && s.lock == Free && s.eofLock == ByConsumer && s.c == CTestNext(|ks| - 1)
  {
    hide Run, Appended, Safe, Inv, Lead, Kinds;
    sched, s := GoTo(ks, |ks| - 1);
    CurrentFacts(s);
    sched, s := GoCons(sched, s);
    sched, s := GoCons(sched, s);
    sched, s := GoCons(sched, s);
    sched, s := GoCons(sched, s);
    assert Sent(s) == Kinds(s.chain.nodes);
  }

  /** Extends a run by one step of the producer before it deals with the packet. */
  lemma GoProd(sched: seq<Label>, s: State) returns (longer: seq<Label>, t: State)
    requires Run(INIT, sched) == Some(s) && Inv(s) && ProducerStep(s).Some? && !s.p.PClassify?
    ensures ProducerStep(s) == Some(t) && Run(INIT, longer) == Some(t) && Inv(t)
    ensures Appended(longer) == Appended(sched) && Sent(t) == Sent(s)
  {
    hide Run, Appended, Inv, Sent, ProducerStep, Safe;
    longer, t := Go(sched, s, Prod);
    ProducerStepKeepsInv(s);
    assert Appended(sched) + [] == Appended(sched);
  }

  /** A server packet is linked behind the consumer's packet, and the consumer, reading `next` without
      `lock`, moves on to it before the producer has dealt with it. */
  lemma GoBorrowServer(ks: seq<Kind>) returns (sched: seq<Label>, s: State)
    requires Safe(ks) && Lead(ks) < |ks|
    ensures Run(INIT, sched) == Some(s) && Appended(sched) == ks + [Server] && Inv(s)
    ensures s.p.PClassify? && s.lock == ByProducer && s.eofLock == Free && s.c == CWantLock2(|ks| - 1, |ks|)
    ensures |s.chain.nodes| == |ks| + 1 && s.chain.nodes[|ks|].kind == Server
  {
    hide Run, Appended, Safe, Inv, Lead, Link, Kinds;
    sched, s := GoToLast(ks);
    var before := s;
    sched, s := Go(sched, s, Append(Server));
    CallKeepsInv(before, Append(Server));
    LinkedAtEnd(s);
    sched, s := GoProd(sched, s);
    CurrentFacts(s);
    sched, s := GoCons(sched, s);
    sched, s := GoCons(sched, s);
    sched, s := GoCons(sched, s);
    sched, s := GoProd(sched, s);
    sched, s := GoProd(sched, s);
  }

  lemma LinkedAtEnd(s: State)
    requires Inv(s) && s.p.PLink?
    ensures var r := Link(s.chain, s.p.kind);
            |r.nodes| == |s.chain.nodes| + 1 && r.nodes[|s.chain.nodes|].kind == s.p.kind
    ensures !s.reachedEof
  {
    hide Shape, Counts, Pending, Log, Locks, Link, Next;
    LinkKeepsShape(s.chain, s.p.kind);
  }

  /** The producer frees the server packet the consumer is about to use. */
  lemma GoLateServer(ks: seq<Kind>) returns (sched: seq<Label>)
    requires Safe(ks) && Lead(ks) < |ks|
    ensures Run(INIT, sched).Some? && Run(INIT, sched).value.chain.fault && Appended(sched) == ks + [Server]
  {
    hide Run, Appended, Safe, Inv, Lead, Classify, ConsiderUnlink, Kinds;
    var s;
    sched, s := GoBorrowServer(ks);
    ServerGoes(s, |ks|);
    sched, s := Go(sched, s, Prod);
    sched, s := Go(sched, s, Prod);
    sched, s := Go(sched, s, Cons);
    sched, s := Go(sched, s, Cons);
    sched, s := Go(sched, s, Cons);
    sched, s := Go(sched, s, Cons);
    sched, s := Go(sched, s, Cons);
    assert Run(INIT, sched).value.chain.fault;
  }

  /** After the server packet `n` was dealt with and the packet before it was left, `n` is not live. */
  lemma ServerGoes(s: State, n: nat)
    requires n > 0 && s.p.PClassify? && s.c == CWantLock2(n - 1, n)
    requires |s.chain.nodes| == n + 1 && s.chain.nodes[n].kind == Server
    requires Inv(s)
    ensures var r := ConsiderUnlink(Classify(s.chain), n - 1, true);
            !Live(r, n) && |r.nodes| == n + 1
  {
    hide Pending, Log, Awake, Locks, Shape, Unlink, Lead;
    var ks := Kinds(s.chain.nodes);
    CurrentFacts(s);
    InUse(s.chain, n, Low(s), n);
    NewestIsLast(s.chain);
    assert CountOk(s.chain.nodes[n], Answered(ks, n, n), false);
    assert CountOk(s.chain.nodes[n - 1], Answered(ks, n, n - 1), false);
    UnlinkKeepsShape(s.chain, n);
    var ch := Unlink(s.chain, n);
    assert Classify(s.chain) == ch;
    if ch.nodes[n - 1].refs == 1 {
      UnlinkKeepsShape(ch, n - 1);
    }
  }

  /** An EOF behind a query that is not its direct predecessor: the consumer can have freed it. */
  lemma GoStaleQuery(ks: seq<Kind>) returns (sched: seq<Label>)
    requires Safe(ks) && LastPending(ks, |ks|).At? && LastPending(ks, |ks|).i + 1 < |ks|
    ensures Run(INIT, sched).Some? && Run(INIT, sched).value.chain.fault && Appended(sched) == ks + [Eof]
  {
    hide Run, Appended, Safe, Inv, Classify, Link;
    var q := LastPending(ks, |ks|).i;
    LeadBefore(ks, q);
    var s;
    sched, s := GoTo(ks, q + 1);
    FreedBehind(s, q);
    sched, s := GoAppend(sched, s, Eof);
    assert Run(INIT, sched).value.chain.fault;
  }

  lemma LeadBefore(ks: seq<Kind>, q: nat)
    requires q < |ks| && ks[q] != Server
    ensures Lead(ks) <= q
  {
  }

  /** With the consumer behind it, the query that `last_query` points to is gone, and an EOF uses it. */
  lemma FreedBehind(s: State, q: nat)
    requires Inv(s) && AtRest(s) && s.c == CExec(q + 1)
    requires LastPending(Kinds(s.chain.nodes), |s.chain.nodes|) == At(q)
    ensures Classify(Link(s.chain, Eof)).fault
  {
    hide Shape, Log, Awake, Locks, Classify, Link;
    var ks := Kinds(s.chain.nodes);
    var n := |s.chain.nodes|;
    assert CountOk(s.chain.nodes[q], Answered(ks, n, q), q < Low(s));
    NotAnswered(ks, n, q);
    LinkKeepsShape(s.chain, Eof);
    var r := Link(s.chain, Eof);
    NewestIsLast(r);
    StaleQueryFaults(r, q);
  }

  lemma {:induction false} NotAnswered(ks: seq<Kind>, m: nat, q: nat)
    requires m <= |ks| && LastPending(ks, m) == At(q)
    ensures !Answered(ks, m, q)
    ensures forall k :: q < k < m ==> ks[k] != Eof && ks[k] != Query
  {
    if m > 0 && ks[m - 1] != Query {
      NotAnswered(ks, m - 1, q);
    }
  }

  /** The first packet that may not follow the ones before it makes a run fail. */
  lemma {:induction false} UnsafeFaults(ks: seq<Kind>) returns (sched: seq<Label>)
    requires !Safe(ks)
    ensures Run(INIT, sched).Some? && Run(INIT, sched).value.chain.fault && Appended(sched) <= ks
  {
    hide Run, Appended;
    var n := |ks| - 1;
    var front := ks[..n];
    if !Safe(front) {
      sched := UnsafeFaults(front);
    } else {
      OnlyLastOffends(ks);
      PendingOfPrefix(front, ks, n);
      assert front + [ks[n]] == ks;
      if ks[n] == Server {
        var k :| 0 <= k < n && ks[k] != Server;
        LeadBefore(front, k);
        sched := GoLateServer(front);
      } else {
        sched := GoStaleQuery(front);
      }
    }
  }

  lemma OnlyLastOffends(ks: seq<Kind>)
    requires ks != [] && Safe(ks[..|ks| - 1]) && !Safe(ks)
    ensures !MayFollow(ks, |ks| - 1)
  {
    var front := ks[..|ks| - 1];
    forall e | 0 <= e < |front| ensures MayFollow(ks, e) {
      assert MayFollow(front, e);
      PendingOfPrefix(front, ks, e);
    }
  }

  /** Which streams can be replayed, exactly: no schedule of any part of the stream touches a freed
      packet, dereferences NULL or fails an assertion, if and only if server packets stand at the very
      beginning only and every EOF that finds a query waiting stands right behind it. */
  lemma SafeExactly(ks: seq<Kind>)
    ensures (forall sched :: Run(INIT, sched).Some? && Appended(sched) <= ks ==> !Run(INIT, sched).value.chain.fault)
            <==> Safe(ks)
  {
    hide Run, Appended, Safe;
    if Safe(ks) {
      forall sched | Run(INIT, sched).Some? && Appended(sched) <= ks
        ensures !Run(INIT, sched).value.chain.fault
      {
        SafePrefix(Appended(sched), ks);
        ExecutedIsPrefix(sched);
      }
    } else {
      var sched := UnsafeFaults(ks);
    }
  }

  /** What the condition says about a stream, packet by packet. */
  lemma SafeMeans(ks: seq<Kind>)
    ensures Safe(ks) <==>
              && (forall i, j :: 0 <= i < j < |ks| && ks[j] == Server ==> ks[i] == Server)
              && (forall q, e :: 0 <= q < e - 1 && e < |ks| && ks[q] == Query && ks[e] == Eof ==>
                    exists k :: q < k < e && (ks[k] == Query || ks[k] == Eof))
  {
    if Safe(ks) {
      forall i, j | 0 <= i < j < |ks| && ks[j] == Server ensures ks[i] == Server {
        assert MayFollow(ks, j);
      }
      forall q, e | 0 <= q < e - 1 && e < |ks| && ks[q] == Query && ks[e] == Eof
        ensures exists k :: q < k < e && (ks[k] == Query || ks[k] == Eof)
      {
        assert MayFollow(ks, e);
        if forall k :: q < k < e ==> ks[k] != Query && ks[k] != Eof {
          PendingIsNewest(ks, e, q);
        }
      }
    } else {
      var e :| 0 <= e < |ks| && !MayFollow(ks, e);
      if ks[e] == Eof {
        NotAnswered(ks, e, LastPending(ks, e).i);
      }
    }
  }

  lemma {:induction false} PendingIsNewest(ks: seq<Kind>, m: nat, q: nat)
    requires q < m <= |ks| && ks[q] == Query && forall k :: q < k < m ==> ks[k] != Query && ks[k] != Eof
    ensures LastPending(ks, m) == At(q)
  {
    if q < m - 1 {
      PendingIsNewest(ks, m - 1, q);
    }
  }

  /** A client packet between a query and its EOF is enough to make a run fail. */
  lemma DisciplineIsNeeded() returns (sched: seq<Label>)
    ensures Appended(sched) == [Query, Client, Eof] && Run(INIT, sched).Some?
    ensures Run(INIT, sched).value.chain.fault
  {
    var ks := [Query, Client];
    assert LastPending(ks, 1) == At(0);
    assert forall e :: 0 <= e < |ks| ==> MayFollow(ks, e);
    hide Run, Appended;
    sched := GoStaleQuery(ks);
  }
}
