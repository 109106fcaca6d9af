/** The remaining steps keep the forwarding invariants. */
module LsqForwardingRuns {
  import opened Common
  import opened LoadStoreQueue
  import opened LsqFrames
  import opened LsqFinish
  import opened LsqLoads
  import opened LsqStores
  import opened LsqRetire
  import opened LsqForwarding
  import opened LsqForwardingSteps

  // ----- add_load_queue

  lemma EnterKeepsExact(s: State, c: nat, j: nat, l: nat)
    requires Inv(s) && Forwarding(s) && MayAddLoad(s, c, j) && l < |s.lq| && !LqLive(s, l)
    ensures Consumers(EnterLoad(s, c, j, l)) && Exact(EnterLoad(s, c, j, l))
    ensures PlainTrace(EnterLoad(s, c, j, l)) && PastStores(EnterLoad(s, c, j, l))
  {
    var s' := EnterLoad(s, c, j, l);
    EnterIs(s, c, j, l);
    forall p: nat, d: nat | Live(s', p) && d in s'.rob[p].dependents ensures Consumer(s', p, d) {
      EnterConsumer(s, c, j, l, p, d);
    }
    forall p: nat, d: nat, k: nat | QueuedLoad(s', p, d, k) ensures HeldBy(s', p, d, k)
    {
      EnterHeldBy(s, c, j, l, p, d, k);
    }
  }

  /** Forwarding at once happens only if the recorded producer has nothing to store any more. */
  lemma ForwardedIsDone(s: State, c: nat, j: nat, l: nat, p: nat)
    requires Inv(s) && Forwarding(s) && MayAddLoad(s, c, j) && l < |s.lq| && !LqLive(s, l)
    requires Live(s, p) && s.rob[p].id < s.rob[c].id
    requires var m := EnterLoad(s, c, j, l); CanForward(m, l) && m.lq[l].producer == Some(s.rob[p].id)
    ensures !StillToStore(EnterLoad(s, c, j, l), p, s.rob[c].instr.loads[j])
  {
    hide Loads, Counts, LoadQueues, StoreQueues, Finishes, Placement, Exact, Consumers, Waiting, Wrap, AgeFrom;
    var m := EnterLoad(s, c, j, l);
    var address := s.rob[c].instr.loads[j];
    EnterIs(s, c, j, l);
    EnterStill(s, c, j, l, p, address);
    ForwarderFound(m.sq, 0, address, m.lq[l].producer);
    var f := ForwarderFrom(m.sq, 0, address, m.lq[l].producer);
    assert SqLive(s, f);
    StoreOwner(s, f);
    LivePlain(s, p);
    SameId(s, s.sq[f].robIndex, p);
    forall i: nat | i < |s.rob[p].instr.stores| && s.rob[p].instr.stores[i] == address ensures !StorePending(s, p, i) {
      OneStore(s.rob[p].instr, i, s.sq[f].dataIndex);
    }
  }

  /** Finishing load `l` leaves the other waiting loads as they are. */
  lemma FinishedWaiting(m: State, l: nat, ev: nat)
    requires Shape(m) && Loads(m) && LqLive(m, l)
    requires forall k: nat :: LqLive(m, k) ==> RightProducer(m, k)
    requires forall k: nat :: LqLive(m, k) && k != l && m.lq[k].producer.Some? ==> exists p: nat :: WaitsFor(m, k, p, m.lq[k].producer.value)
    ensures OwnedLoad(m, l) && Waiting(FinishLoad(m, l, ev))
  {
    FinishFrame(m, l, ev);
    var s' := FinishLoad(m, l, ev);
    forall k: nat | LqLive(s', k) ensures RightProducer(s', k) { assert RightProducer(m, k); }
    forall k: nat | LqLive(s', k) && s'.lq[k].producer.Some?
      ensures exists p: nat :: WaitsFor(s', k, p, s'.lq[k].producer.value)
    {
      var p: nat :| WaitsFor(m, k, p, m.lq[k].producer.value);
      FinishKeepsWaitsFor(m, l, ev, k, p, m.lq[k].producer.value);
    }
  }

  /** Finishing load `l` keeps Exact if nobody still has to store for it. */
  lemma FinishedExact(m: State, l: nat, ev: nat)
    requires Shape(m) && Loads(m) && LqLive(m, l) && Exact(m) && Consumers(m)
    requires forall p: nat :: Live(m, p) && m.lq[l].producer == Some(m.rob[p].id) ==> !StillToStore(m, p, m.lq[l].address)
    ensures OwnedLoad(m, l) && Consumers(FinishLoad(m, l, ev)) && Exact(FinishLoad(m, l, ev))
  {
    FinishFrame(m, l, ev);
    var s' := FinishLoad(m, l, ev);
    forall p: nat, d: nat | Live(s', p) && d in s'.rob[p].dependents ensures Consumer(s', p, d) {
      assert Consumer(m, p, d);
      ConsumerStays(m, s', p, d);
    }
    forall p: nat, d: nat, k: nat | QueuedLoad(s', p, d, k) ensures HeldBy(s', p, d, k)
    {
      FinishStillToStore(m, l, ev, p, m.rob[d].instr.loads[k]);
      assert QueuedLoad(m, p, d, k) && HeldBy(m, p, d, k);
      FinishKeepsHeldBy(m, l, ev, p, d, k);
    }
  }

  /** With the new load in its slot, every load has the right producer, and waits for it unless it is forwarded. */
  lemma EnteredWait(s: State, c: nat, j: nat, l: nat)
    requires Inv(s) && Waiting(s) && PastStores(s) && MayAddLoad(s, c, j) && l < |s.lq| && !LqLive(s, l)
    ensures var m := EnterLoad(s, c, j, l);
            && l < |m.lq| && LqLive(m, l) && m.clock == s.clock
            && (forall k: nat :: LqLive(m, k) ==> RightProducer(m, k))
            && (forall k: nat :: LqLive(m, k) && m.lq[k].producer.Some? && (k == l ==> !CanForward(m, l)) ==>
                                   exists p: nat :: WaitsFor(m, k, p, m.lq[k].producer.value))
  {
    hide RightProducer, WaitsFor, CanForward, PastStores;
    var m := EnterLoad(s, c, j, l);
    EnterIs(s, c, j, l);
    forall k: nat | LqLive(m, k) ensures RightProducer(m, k) { EnterProducer(s, c, j, l, k); }
    forall k: nat | LqLive(m, k) && m.lq[k].producer.Some? && (k == l ==> !CanForward(m, l))
      ensures exists p: nat :: WaitsFor(m, k, p, m.lq[k].producer.value)
    {
      EnterWaits(s, c, j, l, k);
    }
  }

  /** The producer of a load that is forwarded at once has nothing to store for it any more. */
  lemma ForwardedProducer(s: State, c: nat, j: nat, l: nat)
    requires Inv(s) && Forwarding(s) && MayAddLoad(s, c, j) && l < |s.lq| && !LqLive(s, l)
    requires CanForward(EnterLoad(s, c, j, l), l)
    ensures var m := EnterLoad(s, c, j, l);
            forall p: nat :: Live(m, p) && m.lq[l].producer == Some(m.rob[p].id) ==> !StillToStore(m, p, m.lq[l].address)
  {
    hide CanForward, StillToStore, Forwarding;
    var m := EnterLoad(s, c, j, l);
    EnterIs(s, c, j, l);
    forall p: nat | Live(m, p) && m.lq[l].producer == Some(m.rob[p].id) ensures !StillToStore(m, p, m.lq[l].address) {
      ProducerIsOlder(s, c, j, l, p);
      ForwardedIsDone(s, c, j, l, p);
    }
  }

  lemma EnterFinishForwards(s: State, c: nat, j: nat, l: nat)
    requires Inv(s) && Forwarding(s) && MayAddLoad(s, c, j) && l < |s.lq| && !LqLive(s, l)
    requires CanForward(EnterLoad(s, c, j, l), l)
    ensures var m := EnterLoad(s, c, j, l); l < |m.lq| && m.lq[l].robIndex < |m.rob| && Forwarding(FinishLoad(m, l, s.clock))
  {
    hide Exact, Consumers, RightProducer, WaitsFor, StillToStore, CanForward, Placement, StoreOrder, Counts, StoreQueues;
    var m := EnterLoad(s, c, j, l);
    EnterKeepsMost(s, c, j, l);
    EnterKeepsExact(s, c, j, l);
    EnteredWait(s, c, j, l);
    ForwardedProducer(s, c, j, l);
    FinishedWaiting(m, l, s.clock);
    FinishedExact(m, l, s.clock);
  }

  lemma ProducerIsOlder(s: State, c: nat, j: nat, l: nat, p: nat)
    requires Shape(s) && MayAddLoad(s, c, j) && l < |s.lq|
    requires var m := EnterLoad(s, c, j, l); Live(m, p) && m.lq[l].producer == Some(m.rob[p].id)
    ensures Live(s, p) && s.rob[p].id < s.rob[c].id && EnterLoad(s, c, j, l).rob[p].id == s.rob[p].id
  {
    YoungestStoreFound(s, Age(s, c), s.rob[c].instr.loads[j]);
    EnterIs(s, c, j, l);
    EnterRecords(s, c, j, l, p);
  }

  lemma AddLoadForwards(s: State, c: nat, j: nat)
    requires Inv(s) && Forwarding(s) && MayAddLoad(s, c, j)
    ensures FreeFrom(s.lq, 0) < |s.lq| && Forwarding(AddLoad(s, c, j))
  {
    FreeSlotExists(s);
    var l := FreeFrom(s.lq, 0);
    var m := EnterLoad(s, c, j, l);
    if CanForward(m, l) {
      EnterIs(s, c, j, l);
      EnterFinishForwards(s, c, j, l);
    } else {
      EnterForwards(s, c, j, l);
      RingsDoNotMatter(m, m.(rtl0 := m.rtl0 + [l]));
      KeepsForwarding(m, m.(rtl0 := m.rtl0 + [l]));
    }
  }

  lemma EnterForwards(s: State, c: nat, j: nat, l: nat)
    requires Inv(s) && Forwarding(s) && MayAddLoad(s, c, j) && l < |s.lq| && !LqLive(s, l)
    requires !CanForward(EnterLoad(s, c, j, l), l)
    ensures Forwarding(EnterLoad(s, c, j, l))
  {
    hide RightProducer, WaitsFor, CanForward, Exact, Consumers, PlainTrace, PastStores;
    EnterKeepsExact(s, c, j, l);
    EnteredWait(s, c, j, l);
  }

  // ----- steps that leave the records alone

  lemma AddStoreForwards(s: State, c: nat, i: nat)
    requires Inv(s) && Forwarding(s) && MayAddStore(s, c, i)
    ensures Forwarding(AddStore(s, c, i))
  {
    hide Wrap, AgeFrom, LoadQueues, StoreQueues, Finishes, Counts;
    AddStoreFrame(s, c, i);
    AddStoreSamePending(s, c, i);
    TailIsFree(s);
    KeepsForwarding(s, AddStore(s, c, i));
  }

  /** Moves through the queues, flags and the clock. */
  lemma MoveForwards(s: State, s': State)
    requires Forwarding(s) && s'.clock >= s.clock && |s'.lq| == |s.lq| && |s'.sq| == |s.sq|
    requires SameWindow(s, s')
    requires forall c: nat | c < |s.rob| :: && s'.rob[c].dependents == s.rob[c].dependents
                                            && s'.rob[c].isProducer == s.rob[c].isProducer
                                            && s'.rob[c].sourceAdded == s.rob[c].sourceAdded
                                            && s'.rob[c].lqIndex == s.rob[c].lqIndex
                                            && s'.rob[c].sqIndex == s.rob[c].sqIndex
    requires forall l: nat | l < |s.lq| :: SameLoad(s.lq[l], s'.lq[l]) && s'.lq[l].producer == s.lq[l].producer
    requires forall q: nat | q < |s.sq| :: && s'.sq[q].fetched == s.sq[q].fetched
                                           && (s'.sq[q].fetched == Completed ==> s'.sq[q].eventCycle == s.sq[q].eventCycle)
    ensures Forwarding(s')
  {
    assert SameRecords(s, s');
    forall q: nat | q < |s'.sq| && s'.sq[q].fetched == Completed ensures s'.sq[q].eventCycle <= s'.clock {
      assert s'.sq[q].fetched == s.sq[q].fetched;
    }
    KeepsForwarding(s, s');
  }

  lemma FetchedForwards(s: State, l: nat, ev: nat)
    requires Inv(s) && Forwarding(s) && l in s.cacheLoads
    ensures LqLive(s, l) && OwnedLoad(s, l) && Forwarding(LoadFetched(s, l, ev))
  {
    assert InCache(s, l);
    FetchedKeepsForwarding(s, l, ev);
    var m := FinishLoad(s, l, ev);
    RingsDoNotMatter(m, LoadFetched(s, l, ev));
    KeepsForwarding(m, LoadFetched(s, l, ev));
  }

  // ----- reading, dispatch and retirement

  lemma ReadStill(s: State, x: MemInstr, p: nat, address: nat)
    requires Shape(s)
    ensures StillToStore(Read(s, x), p, address) == StillToStore(s, p, address)
  {
    var s' := Read(s, x);
    assert Live(s', p) == Live(s, p);
    if i: nat :| Live(s, p) && i < |s.rob[p].instr.stores| && s.rob[p].instr.stores[i] == address && StorePending(s, p, i) {
      assert StorePending(s', p, i);
    }
    if i: nat :| Live(s, p) && i < |s.rob[p].instr.stores| && s.rob[p].instr.stores[i] == address && StorePending(s', p, i) {
      assert StorePending(s, p, i);
    }
  }

  lemma ReadWaiting(s: State, x: MemInstr)
    requires Shape(s) && Waiting(s)
    ensures Waiting(Read(s, x))
  {
    hide StillToStore;
    var s' := Read(s, x);
    assert forall c: nat :: Live(s', c) == Live(s, c);
    forall l: nat | LqLive(s', l) ensures RightProducer(s', l) {
      assert RightProducer(s, l);
      LastStoreExtend(s.trace, x, s.lq[l].instrId, s.lq[l].address);
    }
    forall l: nat | LqLive(s', l) && s'.lq[l].producer.Some?
      ensures exists p: nat :: WaitsFor(s', l, p, s'.lq[l].producer.value)
    {
      var p: nat :| WaitsFor(s, l, p, s.lq[l].producer.value);
      ReadStill(s, x, p, s.lq[l].address);
      assert WaitsFor(s', l, p, s'.lq[l].producer.value);
    }
  }

  lemma ReadForwards(s: State, x: MemInstr)
    requires Shape(s) && Forwarding(s) && Plain(x)
    ensures Forwarding(Read(s, x))
  {
    hide Waiting, StillToStore;
    ReadWaiting(s, x);
    var s' := Read(s, x);
    assert forall c: nat :: Live(s', c) == Live(s, c);
    forall p: nat, address: nat ensures StillToStore(s', p, address) == StillToStore(s, p, address) { ReadStill(s, x, p, address); }
    forall d: nat, k: nat | Live(s, d) ensures LastFor(s', d, k) == LastFor(s, d, k) { ReadLastFor(s, x, d, k); }
    StableExact(s, s');
  }

  /** Exact and Consumers survive if consumers and queued loads keep what they know. */
  lemma StableExact(s: State, s': State)
    requires Exact(s) && Consumers(s) && s'.lq == s.lq && |s'.rob| == |s.rob|
    requires forall p: nat :: Live(s', p) && s'.rob[p].dependents != {} ==> Live(s, p) && s'.rob[p] == s.rob[p]
    requires forall p: nat, d: nat :: Live(s', p) && d in s'.rob[p].dependents && Live(s, d) ==> Live(s', d) && s'.rob[d] == s.rob[d]
    requires forall d: nat, k: nat :: Live(s, d) && Live(s', d) && s'.rob[d] == s.rob[d] ==> LastFor(s', d, k) == LastFor(s, d, k)
    requires forall p: nat, d: nat, j: nat :: QueuedLoad(s', p, d, j) ==>
               QueuedLoad(s, p, d, j) && s'.rob[d] == s.rob[d] && s'.rob[p].id == s.rob[p].id
    ensures Exact(s') && Consumers(s')
  {
    forall p: nat, d: nat | Live(s', p) && d in s'.rob[p].dependents ensures Consumer(s', p, d) {
      assert Consumer(s, p, d);
      var k: nat :| LoadsFrom(s, p, d, k);
      assert LoadsFrom(s', p, d, k);
    }
    forall p: nat, d: nat, j: nat | QueuedLoad(s', p, d, j) ensures HeldBy(s', p, d, j) {
      assert QueuedLoad(s, p, d, j) && HeldBy(s, p, d, j);
    }
  }

  /** Reading more of the trace changes no entry's last store. */
  lemma ReadLastFor(s: State, x: MemInstr, d: nat, k: nat)
    requires d < |s.rob| && s.rob[d].id <= |s.trace|
    ensures LastFor(Read(s, x), d, k) == LastFor(s, d, k)
  {
    if k < |s.rob[d].instr.loads| { LastStoreExtend(s.trace, x, s.rob[d].id, s.rob[d].instr.loads[k]); }
  }

  lemma DispatchStill(s: State, p: nat, address: nat)
    requires Shape(s) && MayDispatch(s) && Live(s, p)
    ensures StillToStore(Dispatch(s), p, address) == StillToStore(s, p, address)
  {
    hide Wrap, AgeFrom;
    DispatchFrame(s);
    var s' := Dispatch(s);
    if i: nat :| i < |s.rob[p].instr.stores| && s.rob[p].instr.stores[i] == address && StorePending(s, p, i) {
      assert StorePending(s', p, i);
    }
    if i: nat :| i < |s.rob[p].instr.stores| && s.rob[p].instr.stores[i] == address && StorePending(s', p, i) {
      assert StorePending(s, p, i);
    }
  }

  lemma DispatchWaiting(s: State)
    requires Shape(s) && Waiting(s) && MayDispatch(s)
    ensures Waiting(Dispatch(s))
  {
    hide Wrap, AgeFrom, StillToStore;
    DispatchFrame(s);
    var s' := Dispatch(s);
    forall l: nat | LqLive(s', l) ensures RightProducer(s', l) { assert RightProducer(s, l); }
    forall l: nat | LqLive(s', l) && s'.lq[l].producer.Some?
      ensures exists p: nat :: WaitsFor(s', l, p, s'.lq[l].producer.value)
    {
      var p: nat :| WaitsFor(s, l, p, s.lq[l].producer.value);
      DispatchStill(s, p, s.lq[l].address);
      assert WaitsFor(s', l, p, s'.lq[l].producer.value);
    }
  }

  lemma DispatchForwards(s: State)
    requires Shape(s) && StoreOrder(s) && Placement(s) && Forwarding(s) && MayDispatch(s)
    ensures Forwarding(Dispatch(s))
  {
    hide Wrap, AgeFrom, Waiting;
    DispatchWaiting(s);
    DispatchFrame(s);
    var s' := Dispatch(s);
    forall p: nat, d: nat, j: nat | QueuedLoad(s', p, d, j) ensures QueuedLoad(s, p, d, j) {
      if Live(s, p) { DispatchStill(s, p, s.rob[d].instr.loads[j]); }
      if p == s.tail { LastStoreEarlier(s.trace, s.rob[d].id, s.rob[d].instr.loads[j]); }
    }
    StableExact(s, s');
  }

  lemma RetireStill(s: State, p: nat, address: nat)
    requires Shape(s) && StoreOrder(s) && Placement(s) && Counts(s) && MayRetire(s)
    ensures HeadStores(s) <= s.sqOcc
    ensures StillToStore(Retire(s), p, address) == StillToStore(s, p, address)
  {
    RetireFrame(s);
    var s' := Retire(s);
    assert Live(s, s.head);
    NothingPending(s, s.head);
    if StillToStore(s, p, address) {
      RetirePending(s, p);
      var i: nat :| i < |s.rob[p].instr.stores| && s.rob[p].instr.stores[i] == address && StorePending(s, p, i);
      assert StorePending(s', p, i);
    }
    if StillToStore(s', p, address) {
      RetirePending(s, p);
      var i: nat :| i < |s'.rob[p].instr.stores| && s'.rob[p].instr.stores[i] == address && StorePending(s', p, i);
      assert StorePending(s, p, i);
    }
  }

  lemma RetireWaiting(s: State)
    requires Shape(s) && StoreOrder(s) && Placement(s) && Counts(s) && Waiting(s) && PastStores(s) && MayRetire(s)
    ensures HeadStores(s) <= s.sqOcc && Waiting(Retire(s)) && PastStores(Retire(s))
  {
    hide StoreOrder, Placement, Counts, WaitsFor;
    RetireFrame(s);
    ReleaseStoresFrame(s, HeadStores(s));
    var s' := Retire(s);
    forall l: nat | LqLive(s', l) ensures RightProducer(s', l) { assert RightProducer(s, l); }
    forall l: nat | LqLive(s', l) && s'.lq[l].producer.Some?
      ensures exists p: nat :: WaitsFor(s', l, p, s'.lq[l].producer.value)
    {
      RetireWaits(s, l);
    }
  }

  lemma RetireForwards(s: State)
    requires Shape(s) && StoreOrder(s) && Placement(s) && Counts(s) && Forwarding(s) && MayRetire(s)
    ensures HeadStores(s) <= s.sqOcc && Forwarding(Retire(s))
  {
    hide StoreOrder, Placement, Counts, Waiting;
    RetireWaiting(s);
    RetireFrame(s);
    var s' := Retire(s);
    forall p: nat, address: nat ensures StillToStore(s', p, address) == StillToStore(s, p, address) {
      RetireStill(s, p, address);
    }
    forall p: nat, d: nat | Live(s', p) && d in s'.rob[p].dependents && Live(s, d) ensures Live(s', d) {
      assert Consumer(s, p, d);
    }
    StableExact(s, s');
  }

  /** A load that waits goes on waiting: its producer is pending and so does not retire. */
  lemma RetireWaits(s: State, l: nat)
    requires Shape(s) && StoreOrder(s) && Placement(s) && Counts(s) && Waiting(s) && MayRetire(s)
    requires LqLive(s, l) && s.lq[l].producer.Some?
    ensures HeadStores(s) <= s.sqOcc && Retire(s).lq == s.lq
    ensures exists p: nat :: WaitsFor(Retire(s), l, p, s.lq[l].producer.value)
  {
    hide StoreOrder, Placement, Counts, RightProducer;
    RetireFrame(s);
    var p: nat :| WaitsFor(s, l, p, s.lq[l].producer.value);
    RetireStill(s, p, s.lq[l].address);
    assert WaitsFor(Retire(s), l, p, s.lq[l].producer.value);
  }
}
