/** Which packets the replay thread still walks once `end_replay` has set `reached_eof`: exactly when ending
    the replay loses packets. */
module ReplayDelivery {
  import opened Wrappers
  import opened PacketChain
  import opened Replay
  import opened ReplayGuarantees

  /** How many packets the consumer will have walked when it returns, seen from a state in which the EOF
      flag is set. */
  function Final(s: State): nat {
    var n := |s.chain.nodes|;
    match s.c
    case CDone(at) => if at.Null? then 0 else at.i + 1
    case CStart => if s.chain.first.Null? then 0 else n
    case CReadFirst => if s.chain.first.Null? then 0 else n
    case CWantEof(i) => if Next(s.chain, i).At? then i + 1 else n
    case CReacquire(i) => if Next(s.chain, i).At? then i + 1 else n
    case CTestNext(i) => if Next(s.chain, i).At? then i + 1 else n
    case CTestEof(i) => i + 1
    case CCheckEof(i) => i + 1
    case _ => n
  }

  /** The states in which the flag makes the consumer miss packets: it has returned, or will, before the
      first packet, or it stands behind its unlocked test of `next`, at the locks of the wait loop, with
      another packet linked since. */
  predicate Misses(s: State) {
    match s.c
    case CDone(at) => if at.Null? then s.chain.nodes != [] else Next(s.chain, at.i).At?
    case CStart => s.chain.first.Null? && s.chain.nodes != []
    case CReadFirst => s.chain.first.Null? && s.chain.nodes != []
    case CWantEof(i) => Next(s.chain, i).At?
    case CReacquire(i) => Next(s.chain, i).At?
    case CTestNext(i) => Next(s.chain, i).At?
    case CCheckEof(i) => Next(s.chain, i).At?
    case _ => false
  }

  /** The packet the consumer holds is linked to the next one, if there is one. */
  lemma NextInUse(s: State)
    requires Inv(s) && HasPacket(s.c)
    ensures var i := Oldest(s.c); i < |s.chain.nodes|
    ensures var i := Oldest(s.c); Next(s.chain, i) == if i + 1 < |s.chain.nodes| then At(i + 1) else Null
  {
    hide Shape, Counts, Pending, Log, Awake, Locks;
    InUse(s.chain, Classified(s), Low(s), Oldest(s.c));
  }

  lemma ProducerKeepsFinal(s: State)
    requires s.reachedEof && Inv(s) && ProducerStep(s).Some?
    ensures var t := ProducerStep(s).value; Final(t) == Final(s) && |t.chain.nodes| == |s.chain.nodes|
  {
    hide Shape, Counts, Pending, Log, Locks, Cursor;
  }

  lemma UnlinkKeepsFinal(s: State)
    requires Inv(s) && ConsumerStep(s).Some? && (s.c.CFastUnlink? || s.c.CSlowUnlink?)
    ensures var t := ConsumerStep(s).value; Final(t) == Final(s) && |t.chain.nodes| == |s.chain.nodes|
  {
    hide Shape, Counts, Pending, Log, Awake, ConsiderUnlink, Kinds;
    PassedPacket(s.chain, |s.chain.nodes|, s.c.tmp, s.exec, Executed(s.c));
  }

  lemma LockSideKeepsFinal(s: State)
    requires s.reachedEof && Inv(s) && ConsumerStep(s).Some?
    requires s.c.CStart? || s.c.CReadFirst? || s.c.CWantLock? || s.c.CFast? || s.c.CWantLock2? || s.c.CExec?
    ensures var t := ConsumerStep(s).value; Final(t) == Final(s) && |t.chain.nodes| == |s.chain.nodes|
  {
    hide Shape, Counts, Pending, Log, Locks, Awake;
    if HasPacket(s.c) {
      NextInUse(s);
    }
  }

  lemma EofSideKeepsFinal(s: State)
    requires s.reachedEof && Inv(s) && ConsumerStep(s).Some?
    requires s.c.CWantEof? || s.c.CTestNext? || s.c.CTestEof? || s.c.CReacquire? || s.c.CCheckEof?
             || s.c.CAdvance? || s.c.CRelock? || s.c.CScopeExit?
    ensures var t := ConsumerStep(s).value; Final(t) == Final(s) && |t.chain.nodes| == |s.chain.nodes|
  {
    hide Shape, Counts, Pending, Log, Locks;
    NextInUse(s);
  }

  lemma ConsumerKeepsFinal(s: State)
    requires s.reachedEof && Inv(s) && ConsumerStep(s).Some?
    ensures var t := ConsumerStep(s).value; Final(t) == Final(s) && |t.chain.nodes| == |s.chain.nodes|
  {
    hide Inv, Final;
    if s.c.CFastUnlink? || s.c.CSlowUnlink? {
      UnlinkKeepsFinal(s);
    } else if s.c.CStart? || s.c.CReadFirst? || s.c.CWantLock? || s.c.CFast? || s.c.CWantLock2? || s.c.CExec? {
      LockSideKeepsFinal(s);
    } else {
      EofSideKeepsFinal(s);
    }
  }

  /** Once the flag is set no step changes how many packets will be walked. */
  lemma StepKeepsFinal(s: State, l: Label)
    requires s.reachedEof && Inv(s) && Step(s, l).Some?
    ensures var t := Step(s, l).value;
            t.reachedEof && Final(t) == Final(s) && |t.chain.nodes| == |s.chain.nodes|
  {
    StepShrinksRemaining(s, l);
    hide Shape, Counts, Pending, Log, Locks, Cursor, ProducerStep, ConsumerStep, Final;
    match l
    case Prod => ProducerKeepsFinal(s);
    case Cons => ConsumerKeepsFinal(s);
    case _ => WakeUpKeepsFinal(s, l);
  }

  lemma WakeUpKeepsFinal(s: State, l: Label)
    requires s.reachedEof && Inv(s) && Step(s, l).Some? && !l.Prod? && !l.Cons?
    ensures var t := Step(s, l).value; Final(t) == Final(s) && |t.chain.nodes| == |s.chain.nodes|
  {
    hide Shape, Counts, Pending, Log, Locks, Cursor, ProducerStep, ConsumerStep;
  }

  /** The states named by `Misses` are all of them: there, and nowhere else, fewer packets will be walked
      than there are. */
  lemma MissesIsFinal(s: State)
    requires Inv(s) && s.reachedEof
    ensures Final(s) <= |s.chain.nodes| && (Misses(s) <==> Final(s) < |s.chain.nodes|)
  {
    hide Shape, Counts, Pending, Log, Locks;
    if HasPacket(s.c) {
      NextInUse(s);
    }
  }

  lemma {:induction false} RunKeepsFinal(s: State, sched: seq<Label>)
    requires s.reachedEof && Inv(s) && Safe(Sent(s)) && Run(s, sched).Some?
    ensures var t := Run(s, sched).value; Inv(t) && Final(t) == Final(s) && Sent(t) == Sent(s)
    ensures Appended(sched) == []
    decreases |sched|
  {
    hide Inv, Step, Final, Kinds, Safe, Sent, Added;
    if sched != [] {
      KindsAreSent(s);
      SafePrefix(Kinds(s.chain.nodes), Sent(s));
      StepShrinksRemaining(s, sched[0]);
      StepKeepsFinal(s, sched[0]);
      StepKeepsInv(s, sched[0]);
      var t := Step(s, sched[0]).value;
      assert Sent(t) == Sent(s);
      RunKeepsFinal(t, sched[1..]);
    }
  }

  lemma JoinedHasWalked(t: State)
    requires Inv(t) && t.p.PDone?
    ensures t.c.CDone? && Executed(t.c) == Final(t) && Kinds(t.chain.nodes) == Sent(t)
  {
    hide Shape, Counts, Pending, Log, Locks, Cursor, Kinds;
    assert Kinds(t.chain.nodes) + [] == Kinds(t.chain.nodes);
  }

  lemma FlagIsSet(s: State)
    requires Inv(s) && s.reachedEof
    ensures Kinds(s.chain.nodes) == Sent(s)
  {
    hide Shape, Counts, Pending, Log, Locks, Cursor, Kinds;
    assert Kinds(s.chain.nodes) + [] == Kinds(s.chain.nodes);
  }

  /** What setting the flag decides. Let `s` be any reachable state in which it is set, in particular the
      one right after `end_replay` set it. Every way to go on until the thread is joined appends nothing,
      walks the first `Final(s)` packets and executes their queries. So every packet is walked if and only
      if `s` is not one of the states that `Misses` names, and every query is executed if and only if none
      lies at or behind `Final(s)`. */
  lemma EndDecidesDelivery(before: seq<Label>, after: seq<Label>)
    requires Safe(Appended(before)) && Run(INIT, before).Some? && Run(INIT, before).value.reachedEof
    requires Run(Run(INIT, before).value, after).Some? && Run(Run(INIT, before).value, after).value.p.PDone?
    ensures var s := Run(INIT, before).value; var t := Run(s, after).value; var ks := Appended(before);
            && Appended(after) == [] && t.c.CDone?
            && Executed(t.c) == Final(s) <= |ks| && t.exec == Queries(ks, Final(s))
            && (Executed(t.c) == |ks| <==> !Misses(s))
            && (t.exec == Queries(ks, |ks|) <==> forall k :: Final(s) <= k < |ks| ==> ks[k] != Query)
  {
    hide Run, Safe, Inv, Final, Misses, Queries, Kinds, Sent;
    var s, ks := Run(INIT, before).value, Appended(before);
    RunFromInit(before);
    RunKeepsFinal(s, after);
    var t := Run(s, after).value;
    FlagIsSet(s);
    MissesIsFinal(s);
    JoinedHasWalked(t);
    assert Log(t.chain, t.exec, Executed(t.c)) by {
      LogOf(t);
    }
    LogIsPrefix(t, ks);
    QueriesGrow(ks, Final(s), |ks|);
  }

  lemma LogOf(t: State)
    requires Inv(t)
    ensures Log(t.chain, t.exec, Executed(t.c))
  {
    hide Shape, Counts, Pending, Log, Locks, Cursor, Awake;
  }
}
