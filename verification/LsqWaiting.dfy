/**
 For all programs, with any number of stores in an instruction: a load that waits in the queue waits
 for the last older instruction that stores to its address, which has such a store still to execute.
 */
module LsqWaiting {
  import opened Common
  import opened LoadStoreQueue
  import opened LsqFrames
  import opened LsqFinish
  import opened LsqLoads
  import opened LsqStores
  import opened LsqRing
  import opened LsqRetire
  import opened LsqForwarding
  import opened LsqForwardingSteps
  import opened LsqForwardingRuns
  import opened LsqRuns

  /** What forwarding keeps whatever the program is, as long as no producer check fails. */
  ghost predicate WaitsRight(s: State) { Waiting(s) && PastStores(s) }

  // ----- execute_store

  /** Slot `l` waits as it should, or the loops of the executing store `q` will still come to it. */
  ghost predicate WaitsOrAhead(s: State, q: nat, l: nat, d: nat, j: nat)
    requires q < |s.sq| && l < |s.lq| && s.lq[l].producer.Some?
  {
    || (s.lq[l].producer == Some(s.sq[q].instrId) && StillAhead(s, q, l, d, j))
    || exists p: nat :: WaitsFor(s, l, p, s.lq[l].producer.value)
  }

  ghost predicate Halfway(s: State, q: nat, d: nat, j: nat)
    requires q < |s.sq|
  {
    && PastStores(s) && s.sq[q].robIndex < |s.rob|
    && (forall l: nat :: LqLive(s, l) ==> RightProducer(s, l))
    && (forall l: nat :: LqLive(s, l) && s.lq[l].producer.Some? ==> WaitsOrAhead(s, q, l, d, j))
  }

  lemma HalfwayEnds(s: State, q: nat)
    requires Loads(s) && q < |s.sq| && Halfway(s, q, |s.rob|, 0)
    ensures WaitsRight(s)
  {
    hide WaitsFor, RightProducer, PastStores;
    forall l: nat | LqLive(s, l) && s.lq[l].producer.Some?
      ensures exists p: nat :: WaitsFor(s, l, p, s.lq[l].producer.value)
    {
      assert OwnedLoad(s, l) && WaitsOrAhead(s, q, l, |s.rob|, 0);
    }
  }

  /** The loops may skip an operand that does not match. */
  lemma HalfwaySkips(s: State, q: nat, d: nat, j: nat, d': nat, j': nat)
    requires Loads(s) && q < |s.sq| && Halfway(s, q, d, j) && d < |s.rob|
    requires (d' == d + 1 && j' == 0 && (j == NUM_INSTR_SOURCES || d !in s.rob[s.sq[q].robIndex].dependents))
          || (d' == d && j' == j + 1 && j < NUM_INSTR_SOURCES && !Matches(s, q, d, j))
    ensures Halfway(s, q, d', j')
  {
    hide WaitsFor, RightProducer, PastStores, StillAhead, Matches;
    forall l: nat | LqLive(s, l) && s.lq[l].producer.Some? ensures WaitsOrAhead(s, q, l, d', j') {
      assert WaitsOrAhead(s, q, l, d, j) && OwnedLoad(s, l);
      if StillAhead(s, q, l, d, j) { SkippedIsBehind(s, q, d, j, d', j', l); }
    }
  }

  /** Finishing the load named by operand (`d`, `j`) leaves the others as they are. */
  lemma HalfwayFinishes(s: State, q: nat, d: nat, j: nat)
    requires Shape(s) && Loads(s) && q < |s.sq| && Halfway(s, q, d, j) && d < |s.rob| && j < NUM_INSTR_SOURCES && Matches(s, q, d, j)
    requires LqLive(s, s.rob[d].lqIndex[j].value)
    ensures var l := s.rob[d].lqIndex[j].value; s.lq[l].robIndex < |s.rob| && Halfway(FinishLoad(s, l, s.clock), q, d, j + 1)
  {
    hide StillToStore, WaitsFor, Wrap, AgeFrom;
    var l := s.rob[d].lqIndex[j].value;
    FinishFrame(s, l, s.clock);
    var t := FinishLoad(s, l, s.clock);
    forall k: nat | LqLive(t, k) ensures RightProducer(t, k) { assert RightProducer(s, k); }
    forall k: nat | LqLive(t, k) && t.lq[k].producer.Some? ensures WaitsOrAhead(t, q, k, d, j + 1) { OtherGoesOn(s, q, d, j, k); }
  }

  lemma OtherGoesOn(s: State, q: nat, d: nat, j: nat, k: nat)
    requires Shape(s) && Loads(s) && q < |s.sq| && Halfway(s, q, d, j) && d < |s.rob| && j < NUM_INSTR_SOURCES && Matches(s, q, d, j)
    requires LqLive(s, s.rob[d].lqIndex[j].value) && s.rob[d].lqIndex[j].value != k && LqLive(s, k) && s.lq[k].producer.Some?
    ensures var l := s.rob[d].lqIndex[j].value;
            s.lq[l].robIndex < |s.rob| && WaitsOrAhead(FinishLoad(s, l, s.clock), q, k, d, j + 1)
  {
    hide StillToStore, Shape, RightProducer;
    var l := s.rob[d].lqIndex[j].value;
    FinishFrame(s, l, s.clock);
    assert OwnedLoad(s, k) && WaitsOrAhead(s, q, k, d, j);
    if p: nat :| WaitsFor(s, k, p, s.lq[k].producer.value) {
      FinishKeepsWaitsFor(s, l, s.clock, k, p, s.lq[k].producer.value);
    } else {
      assert StillAhead(FinishLoad(s, l, s.clock), q, k, d, j + 1);
    }
  }

  lemma {:induction false} ForwardWaits(s: State, q: nat, d: nat, j: nat)
    requires Inv(s) && q < |s.sq| && Halfway(s, q, d, j) && d <= |s.rob| && j <= NUM_INSTR_SOURCES && (d == |s.rob| ==> j == 0)
    ensures s.sq[q].robIndex < |s.rob|
    ensures Forward(s, q, d, j).Some? ==> WaitsRight(Forward(s, q, d, j).value)
    decreases |s.rob| - d, NUM_INSTR_SOURCES - j
  {
    hide Inv, Halfway, WaitsRight, Matches, Shape, Loads;
    InvParts(s);
    HalfwayOwner(s, q, d, j);
    if d == |s.rob| {
      HalfwayEnds(s, q);
    } else if j == NUM_INSTR_SOURCES || d !in s.rob[s.sq[q].robIndex].dependents {
      HalfwaySkips(s, q, d, j, d + 1, 0);
      ForwardWaits(s, q, d + 1, 0);
    } else if Matches(s, q, d, j) {
      MatchBounds(s, q, d, j);
      var l := s.rob[d].lqIndex[j].value;
      if s.lq[l].producer == Some(s.sq[q].instrId) {
        WaitingIsLive(s, l);
        FinishKeepsInv(s, l, s.clock);
        HalfwayFinishes(s, q, d, j);
        ForwardWaits(FinishLoad(s, l, s.clock), q, d, j + 1);
      }
    } else {
      HalfwaySkips(s, q, d, j, d, j + 1);
      ForwardWaits(s, q, d, j + 1);
    }
  }

  lemma HalfwayOwner(s: State, q: nat, d: nat, j: nat)
    requires q < |s.sq| && Halfway(s, q, d, j)
    ensures s.sq[q].robIndex < |s.rob|
  {
  }

  /** Executing a store leaves pending what other instructions, or this one for other addresses, have to store. */
  lemma OthersStillStore(s: State, q: nat, p: nat, address: nat)
    requires Shape(s) && StoreOrder(s) && Placement(s) && SqLive(s, q) && StillToStore(s, p, address)
    requires p != s.sq[q].robIndex || address != s.sq[q].address
    ensures s.sq[q].robIndex < |s.rob| && StillToStore(StoreDone(s, q), p, address)
  {
    hide StoreOrder, Placement;
    StoreOwner(s, q);
    StoreDoneFrame(s, q);
    var k: nat :| k < |s.rob[p].instr.stores| && s.rob[p].instr.stores[k] == address && StorePending(s, p, k);
    StoreDonePending(s, q, p, k);
    assert StorePending(StoreDone(s, q), p, k);
  }

  /** When store `q` executes, a load waits on, or waits for it and is a recorded consumer. */
  lemma WaitsAfterStore(s: State, q: nat, l: nat)
    requires Shape(s) && StoreOrder(s) && Placement(s) && Waiting(s) && SqLive(s, q) && LqLive(s, l) && s.lq[l].producer.Some?
    ensures s.sq[q].robIndex < |s.rob|
    ensures var m := StoreDone(s, q);
            || (s.lq[l].producer == Some(s.sq[q].instrId) && StillAhead(m, q, l, 0, 0) && m.rob[m.sq[q].robIndex].isProducer)
            || exists p: nat :: WaitsFor(m, l, p, s.lq[l].producer.value)
  {
    hide StoreOrder, Placement, StillToStore, RightProducer;
    StoreOwner(s, q);
    StoreDoneFrame(s, q);
    var p: nat :| WaitsFor(s, l, p, s.lq[l].producer.value);
    if p != s.sq[q].robIndex || s.lq[l].address != s.sq[q].address {
      OthersStillStore(s, q, p, s.lq[l].address);
      assert WaitsFor(StoreDone(s, q), l, p, s.lq[l].producer.value);
    }
  }

  lemma StoreDoneHalfway(s: State, q: nat, m: State)
    requires Shape(s) && StoreOrder(s) && Placement(s) && WaitsRight(s) && SqLive(s, q) && s.sq[q].robIndex < |s.rob|
    requires m == StoreDone(s, q).(rts1 := m.rts1)
    ensures Halfway(m, q, 0, 0)
    ensures !m.rob[m.sq[q].robIndex].isProducer ==> WaitsRight(m)
  {
    hide StoreOrder, Placement, StillToStore, Wrap, AgeFrom;
    var t := StoreDone(s, q);
    StoreDoneFrame(s, q);
    RingsDoNotMatter(t, m);
    forall l: nat | LqLive(m, l) ensures RightProducer(m, l) { assert RightProducer(s, l); }
    forall l: nat | LqLive(m, l) && m.lq[l].producer.Some?
      ensures WaitsOrAhead(m, q, l, 0, 0)
      ensures !m.rob[m.sq[q].robIndex].isProducer ==> exists p: nat :: WaitsFor(m, l, p, m.lq[l].producer.value)
    {
      WaitsAfterStore(s, q, l);
      if p: nat :| WaitsFor(t, l, p, s.lq[l].producer.value) {
        assert WaitsFor(m, l, p, m.lq[l].producer.value);
      } else {
        assert StillAhead(m, q, l, 0, 0);
      }
    }
  }

  lemma ExecuteWaits(s: State)
    requires Inv(s) && WaitsRight(s) && |s.rts1| > 0
    ensures SqLive(s, s.rts1[0]) && s.sq[s.rts1[0]].robIndex < |s.rob|
    ensures ExecuteStore(s).Some? ==> WaitsRight(ExecuteStore(s).value)
  {
    StoreDoneKeepsInv(s);
    var q := s.rts1[0];
    var m := StoreDone(s, q).(rts1 := s.rts1[1..]);
    StoreDoneHalfway(s, q, m);
    hide Inv, WaitsRight, Halfway;
    if m.rob[m.sq[q].robIndex].isProducer { ForwardWaits(m, q, 0, 0); }
  }

  // ----- the other events

  lemma EnterWaitsRight(s: State, c: nat, j: nat)
    requires Inv(s) && WaitsRight(s) && MayAddLoad(s, c, j)
    ensures FreeFrom(s.lq, 0) < |s.lq| && WaitsRight(AddLoad(s, c, j))
  {
    hide RightProducer, WaitsFor, CanForward, StoreOrder, Placement, Counts, LoadQueues, StoreQueues, Finishes;
    FreeSlotExists(s);
    var l := FreeFrom(s.lq, 0);
    var m := EnterLoad(s, c, j, l);
    EnterIs(s, c, j, l);
    EnteredWait(s, c, j, l);
    if CanForward(m, l) {
      EnterKeepsMost(s, c, j, l);
      FinishedWaiting(m, l, s.clock);
    } else {
      var t := m.(rtl0 := m.rtl0 + [l]);
      RingsDoNotMatter(m, t);
      KeepsWaiting(m, t);
    }
  }

  lemma PlaceWaitsRight(s: State, c: nat, i: nat)
    requires Inv(s) && WaitsRight(s) && MayAddStore(s, c, i)
    ensures WaitsRight(AddStore(s, c, i))
  {
    hide Wrap, AgeFrom, LoadQueues, StoreQueues, Finishes, Counts, Waiting;
    AddStoreFrame(s, c, i);
    AddStoreSamePending(s, c, i);
    TailIsFree(s);
    KeepsWaiting(s, AddStore(s, c, i));
  }

  /** Moves through the queues, flags and the clock. */
  lemma MoveWaitsRight(s: State, t: State)
    requires WaitsRight(s) && t.clock >= s.clock && |t.lq| == |s.lq| && |t.sq| == |s.sq| && SameWindow(s, t)
    requires forall c: nat | c < |s.rob| :: && t.rob[c].dependents == s.rob[c].dependents
                                            && t.rob[c].isProducer == s.rob[c].isProducer
                                            && t.rob[c].sourceAdded == s.rob[c].sourceAdded
                                            && t.rob[c].lqIndex == s.rob[c].lqIndex
                                            && t.rob[c].sqIndex == s.rob[c].sqIndex
    requires forall l: nat | l < |s.lq| :: SameLoad(s.lq[l], t.lq[l]) && t.lq[l].producer == s.lq[l].producer
    requires forall q: nat | q < |s.sq| :: && t.sq[q].fetched == s.sq[q].fetched
                                           && (t.sq[q].fetched == Completed ==> t.sq[q].eventCycle == s.sq[q].eventCycle)
    ensures WaitsRight(t)
  {
    hide Waiting;
    assert SameRecords(s, t);
    forall q: nat | q < |t.sq| && t.sq[q].fetched == Completed ensures t.sq[q].eventCycle <= t.clock {
      assert t.sq[q].fetched == s.sq[q].fetched;
    }
    KeepsWaiting(s, t);
  }

  lemma AnswerWaitsRight(s: State, l: nat, ev: nat)
    requires Inv(s) && WaitsRight(s) && l in s.cacheLoads
    ensures LqLive(s, l) && OwnedLoad(s, l) && WaitsRight(LoadFetched(s, l, ev))
  {
    hide StoreOrder, Placement, Counts, StoreQueues, Finishes, RightProducer, WaitsFor;
    assert InCache(s, l);
    FinishedWaiting(s, l, ev);
    var m := FinishLoad(s, l, ev);
    RingsDoNotMatter(m, LoadFetched(s, l, ev));
    KeepsWaiting(m, LoadFetched(s, l, ev));
  }

  lemma {:induction false} AddLoadsWait(s: State, c: nat, j: nat)
    requires Inv(s) && WaitsRight(s) && Live(s, c) && j <= NUM_INSTR_SOURCES
    ensures WaitsRight(AddLoads(s, c, j))
    decreases NUM_INSTR_SOURCES - j
  {
    hide Inv, WaitsRight, CanAddLoad, AddLoad;
    if j < NUM_INSTR_SOURCES {
      if CanAddLoad(s, c, j) {
        LoadBounds(s, c, j);
        EntryOf(s, c);
        AddLoadStep(s, c, j);
        MayAdd(s, c, j);
        EnterWaitsRight(s, c, j);
        AddLoadsWait(AddLoad(s, c, j), c, j + 1);
      } else {
        AddLoadsWait(s, c, j + 1);
      }
    }
  }

  lemma MayAdd(s: State, c: nat, j: nat)
    requires Live(s, c) && EntryShape(s.rob[c]) && CanAddLoad(s, c, j) && j < NUM_INSTR_SOURCES
    ensures MayAddLoad(s, c, j)
  {
  }

  lemma {:induction false} AddStoresWait(s: State, c: nat, i: nat, n: nat)
    requires Inv(s) && WaitsRight(s) && Live(s, c) && PlacedBefore(s, c, i) && i <= n == |s.rob[c].instr.stores|
    ensures WaitsRight(AddStores(s, c, i, n))
    decreases n - i
  {
    hide Inv, WaitsRight, CanAddStore, PlacedBefore, Shape, Loads;
    if i < n {
      if CanAddStore(s, c, i) {
        StoreBounds(s, c, i);
        EntryOf(s, c);
        AddStoreStep(s, c, i);
        MayPlace(s, c, i);
        PlaceWaitsRight(s, c, i);
        AddStoresWait(AddStore(s, c, i), c, i + 1, n);
      } else {
        InvParts(s);
        NoStoreStep(s, c, i);
        AddStoresWait(s, c, i + 1, n);
      }
    }
  }

  lemma MayPlace(s: State, c: nat, i: nat)
    requires Live(s, c) && EntryShape(s.rob[c]) && CanAddStore(s, c, i) && PlacedBefore(s, c, i)
    ensures MayAddStore(s, c, i)
  {
  }

  lemma SchedulingWaits(s: State, c: nat)
    requires Inv(s) && WaitsRight(s) && MaySchedule(s, c)
    ensures WaitsRight(MemoryScheduling(s, c))
  {
    hide Inv, WaitsRight, PlacedBefore;
    AddLoadsWait(s, c, 0);
    AddLoadsKeep(s, c, 0);
    NothingBefore(AddLoads(s, c, 0), c);
    AddStoresWait(AddLoads(s, c, 0), c, 0, |s.rob[c].instr.stores|);
    MoveWaitsRight(CheckAndAdd(s, c), MemoryScheduling(s, c));
  }

  lemma StoreEventsWait(s: State, q: nat)
    requires Inv(s) && WaitsRight(s)
    ensures |s.rts0| > 0 ==> SqLive(s, s.rts0[0]) && WaitsRight(StoreToTlb(s))
    ensures q in s.tlbStores ==> SqLive(s, q) && WaitsRight(StoreTranslated(s, q))
  {
    hide WaitsRight, StoreOrder, Placement, Counts, Finishes, Loads, LoadQueues, Wrap, AgeFrom;
    if |s.rts0| > 0 { StoreToTlbQueues(s); MoveWaitsRight(s, StoreToTlb(s)); }
    if q in s.tlbStores { assert InTlbStore(s, q); MoveWaitsRight(s, StoreTranslated(s, q)); }
  }

  lemma LoadEventsWait(s: State, l: nat)
    requires Inv(s) && WaitsRight(s)
    ensures |s.rtl0| > 0 ==> LqLive(s, s.rtl0[0]) && WaitsRight(LoadToTlb(s))
    ensures |s.rtl1| > 0 ==> LqLive(s, s.rtl1[0]) && WaitsRight(LoadToCache(s))
    ensures l in s.tlbLoads ==> LqLive(s, l) && WaitsRight(LoadTranslated(s, l))
  {
    hide WaitsRight, StoreOrder, Placement, Counts, Finishes, Loads, StoreQueues, Wrap, AgeFrom;
    if |s.rtl0| > 0 { LoadToTlbQueues(s); MoveWaitsRight(s, LoadToTlb(s)); }
    if |s.rtl1| > 0 { LoadToCacheQueues(s); MoveWaitsRight(s, LoadToCache(s)); }
    if l in s.tlbLoads { assert InTlb(s, l); MoveWaitsRight(s, LoadTranslated(s, l)); }
  }

  lemma BufferEventsWait(s: State, x: MemInstr, c: nat, n: nat)
    requires Inv(s) && WaitsRight(s)
    ensures WaitsRight(Read(s, x))
    ensures MayDispatch(s) ==> RingShape(s) && WaitsRight(Dispatch(s))
    ensures c < |s.rob| ==> WaitsRight(Complete(s, c))
    ensures MayRetire(s) ==> RingShape(s) && HeadStores(s) <= s.sqOcc && WaitsRight(Retire(s))
    ensures WaitsRight(s.(clock := s.clock + n))
  {
    hide Waiting, StoreOrder, Placement, Loads, Counts, LoadQueues, StoreQueues, Finishes;
    ReadWaiting(s, x);
    if MayDispatch(s) { DispatchWaiting(s); }
    if c < |s.rob| { MoveWaitsRight(s, Complete(s, c)); }
    if MayRetire(s) { RetireWaiting(s); }
    MoveWaitsRight(s, s.(clock := s.clock + n));
  }

  lemma StepWaits(s: State, front: nat, ev: Event)
    requires Inv(s) && WaitsRight(s)
    ensures WaitsRight(Step(s, front, ev))
  {
    hide Inv, WaitsRight, MemoryScheduling, ExecuteStore, Retire, Dispatch, Complete, Read, LoadFetched;
    match ev
    case Reads(x) => BufferEventsWait(s, x, 0, 0);
    case Dispatches => BufferEventsWait(s, MemInstr([], []), 0, 0);
    case Schedules(c) => if MaySchedule(s, c) { SchedulingWaits(s, c); }
    case StoreIssued => StoreEventsWait(s, 0);
    case StoreTranslation(q) => StoreEventsWait(s, q);
    case StoreExecuted => if |s.rts1| > 0 { ExecuteWaits(s); }
    case LoadIssued => LoadEventsWait(s, 0);
    case LoadTranslation(l) => LoadEventsWait(s, l);
    case LoadExecuted => LoadEventsWait(s, 0);
    case LoadAnswered(l, e) => if l in s.cacheLoads { AnswerWaitsRight(s, l, e); }
    case Completes(c) => BufferEventsWait(s, MemInstr([], []), c, 0);
    case Retires => BufferEventsWait(s, MemInstr([], []), 0, 0);
    case Ticks(n) => BufferEventsWait(s, MemInstr([], []), 0, n);
  }

  lemma {:induction false} RunWaits(s0: State, front: nat, evs: seq<Event>)
    requires Inv(s0) && WaitsRight(s0)
    ensures WaitsRight(Run(s0, front, evs))
    decreases |evs|
  {
    hide Inv, WaitsRight, Step;
    if |evs| > 0 {
      RunWaits(s0, front, evs[..|evs| - 1]);
      StepWaits(Run(s0, front, evs[..|evs| - 1]), front, evs[|evs| - 1]);
    }
  }
}
