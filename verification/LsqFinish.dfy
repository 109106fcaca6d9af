/** Finishing one load keeps the invariants of the load/store queue. */
module LsqFinish {
  import opened LoadStoreQueue
  import opened LsqFrames

  /** What FinishLoad leaves alone. */
  lemma FinishFrame(s: State, l: nat, ev: nat)
    requires Shape(s) && Loads(s) && LqLive(s, l)
    ensures OwnedLoad(s, l) && s.lq[l].robIndex < |s.rob|
    ensures var s' := FinishLoad(s, l, ev);
            && Shape(s') && SameStoreSide(s, s')
            && (forall c: nat :: Live(s', c) == Live(s, c))
            && (forall k: nat :: LqLive(s', k) == (LqLive(s, k) && k != l))
            && (forall c: nat | c < |s.rob| :: s'.rob[c].sourceAdded == s.rob[c].sourceAdded && s'.rob[c].lqIndex == s.rob[c].lqIndex)
  {
    assert OwnedLoad(s, l);
    var s' := FinishLoad(s, l, ev);
    forall c: nat | Live(s, c) ensures EntryShape(s'.rob[c]) { assert EntryShape(s.rob[c]); }
    KeepsShape(s, s');
  }

  lemma FinishKeepsLoads(s: State, l: nat, ev: nat)
    requires Shape(s) && Loads(s) && LqLive(s, l)
    ensures OwnedLoad(s, l) && Loads(FinishLoad(s, l, ev))
  {
    FinishFrame(s, l, ev);
    var s' := FinishLoad(s, l, ev);
    forall k: nat | LqLive(s', k) ensures OwnedLoad(s', k) {
      assert OwnedLoad(s, k);
      assert EntryShape(s'.rob[s.lq[k].robIndex]);
    }
    OccupiedUpdate(s.lq, l, EMPTY_LQ);
    forall c: nat, j: nat | Live(s', c) && j < |s'.rob[c].sourceAdded| && s'.rob[c].sourceAdded[j] ensures LoadAdded(s', c, j) {
      assert LoadAdded(s, c, j);
    }
  }

  /** Exactly the finished load stops being pending. */
  lemma FinishPending(s: State, l: nat, ev: nat, c: nat, j: nat)
    requires Shape(s) && Loads(s) && LqLive(s, l) && c < |s.rob|
    ensures OwnedLoad(s, l)
    ensures LoadPending(FinishLoad(s, l, ev), c, j)
            == (LoadPending(s, c, j) && !(c == s.lq[l].robIndex && j == s.lq[l].dataIndex))
  {
    FinishFrame(s, l, ev);
    var s' := FinishLoad(s, l, ev);
    assert s'.rob[c].instr == s.rob[c].instr;
    OwnerHolds(s, l);
    if j < |s.rob[c].lqIndex| && s.rob[c].lqIndex[j].Some? {
      var k := s.rob[c].lqIndex[j].value;
      assert k != l ==> k < |s.lq| ==> s'.lq[k] == s.lq[k];
    }
  }

  lemma FinishStoresPending(s: State, l: nat, ev: nat)
    requires Shape(s) && Loads(s) && LqLive(s, l)
    ensures OwnedLoad(s, l)
    ensures forall c: nat, i: nat | c < |s.rob| :: StorePending(FinishLoad(s, l, ev), c, i) == StorePending(s, c, i)
  {
    FinishFrame(s, l, ev);
    SameStoresPending(s, FinishLoad(s, l, ev));
  }

  lemma FinishKeepsOutstanding(s: State, l: nat, ev: nat, c: nat)
    requires Shape(s) && Loads(s) && Counts(s) && LqLive(s, l) && Live(s, c)
    ensures OwnedLoad(s, l) && Outstanding(FinishLoad(s, l, ev), c)
  {
    var s' := FinishLoad(s, l, ev);
    FinishFrame(s, l, ev);
    FinishStoresPending(s, l, ev);
    assert Outstanding(s, c) && s'.rob[c].instr == s.rob[c].instr;
    SamePendingStores(s, s', c, |s.rob[c].instr.stores|);
    forall j: nat | j < NUM_INSTR_SOURCES
      ensures LoadPending(s', c, j) == (LoadPending(s, c, j) && !(c == s.lq[l].robIndex && j == s.lq[l].dataIndex))
    {
      FinishPending(s, l, ev, c, j);
    }
    if c == s.lq[l].robIndex {
      OwnerPending(s, l);
      FewerPendingLoads(s, s', c, s.lq[l].dataIndex, NUM_INSTR_SOURCES);
    } else {
      SamePendingLoads(s, s', c, NUM_INSTR_SOURCES);
    }
  }

  lemma FinishKeepsCounts(s: State, l: nat, ev: nat)
    requires Shape(s) && Loads(s) && Counts(s) && LqLive(s, l)
    ensures OwnedLoad(s, l) && Counts(FinishLoad(s, l, ev))
  {
    FinishFrame(s, l, ev);
    forall c: nat | Live(FinishLoad(s, l, ev), c) ensures Outstanding(FinishLoad(s, l, ev), c) {
      FinishKeepsOutstanding(s, l, ev, c);
    }
  }

  lemma FinishedBefore(s: State, l: nat, ev: nat, x: LoadId)
    requires Shape(s) && Loads(s) && LqLive(s, l) && IsFinished(s, x)
    ensures OwnedLoad(s, l) && IsFinished(FinishLoad(s, l, ev), x)
  {
    FinishFrame(s, l, ev);
    if x.id >= s.retired {
      var c: nat :| c < |s.rob| && Live(s, c) && s.rob[c].id == x.id && !LoadPending(s, c, x.index);
      FinishPending(s, l, ev, c, x.index);
      var s' := FinishLoad(s, l, ev);
      assert Live(s', c) && s'.rob[c].id == x.id && !LoadPending(s', c, x.index);
    }
  }

  lemma FinishedAfter(s: State, l: nat, ev: nat, x: LoadId)
    requires Shape(s) && Loads(s) && LqLive(s, l)
    requires OwnedLoad(s, l) && IsFinished(FinishLoad(s, l, ev), x)
    ensures IsFinished(s, x) || x == LoadId(s.lq[l].instrId, s.lq[l].dataIndex)
  {
    FinishFrame(s, l, ev);
    var s' := FinishLoad(s, l, ev);
    if x.id >= s.retired {
      var c: nat :| c < |s'.rob| && Live(s', c) && s'.rob[c].id == x.id && !LoadPending(s', c, x.index);
      FinishPending(s, l, ev, c, x.index);
      assert Live(s, c) && s.rob[c].id == x.id;
    }
  }

  lemma FinishedNow(s: State, l: nat, ev: nat)
    requires Shape(s) && Loads(s) && LqLive(s, l)
    ensures OwnedLoad(s, l)
    ensures !IsFinished(s, LoadId(s.lq[l].instrId, s.lq[l].dataIndex))
    ensures IsFinished(FinishLoad(s, l, ev), LoadId(s.lq[l].instrId, s.lq[l].dataIndex))
  {
    FinishFrame(s, l, ev);
    OwnerPending(s, l);
    var o, i := s.lq[l].robIndex, s.lq[l].dataIndex;
    FinishPending(s, l, ev, o, i);
    var s' := FinishLoad(s, l, ev);
    assert Live(s', o) && s'.rob[o].id == s.lq[l].instrId && !LoadPending(s', o, i);
    forall c: nat | Live(s, c) && s.rob[c].id == s.rob[o].id ensures c == o {}
  }

  lemma FinishKeepsFinishes(s: State, l: nat, ev: nat)
    requires Shape(s) && Loads(s) && Finishes(s) && LqLive(s, l)
    ensures OwnedLoad(s, l) && Finishes(FinishLoad(s, l, ev))
  {
    FinishedNow(s, l, ev);
    var s' := FinishLoad(s, l, ev);
    forall x: LoadId ensures x in s'.finished <==> IsFinished(s', x) {
      if IsFinished(s, x) { FinishedBefore(s, l, ev, x); }
      if IsFinished(s', x) { FinishedAfter(s, l, ev, x); }
    }
  }

  lemma FinishKeepsStoreQueues(s: State, l: nat, ev: nat)
    requires Shape(s) && Loads(s) && StoreQueues(s) && LqLive(s, l)
    ensures OwnedLoad(s, l) && StoreQueues(FinishLoad(s, l, ev))
  {
    FinishFrame(s, l, ev);
    var s' := FinishLoad(s, l, ev);
    assert forall q: nat :: SqLive(s', q) == SqLive(s, q);
  }

  /** A load that waits for a store is in no queue, so finishing it disturbs none. */
  lemma FinishKeepsLoadQueues(s: State, l: nat, ev: nat)
    requires Shape(s) && Loads(s) && LoadQueues(s) && LqLive(s, l) && s.lq[l].producer.Some?
    ensures OwnedLoad(s, l) && LoadQueues(FinishLoad(s, l, ev))
  {
    FinishFrame(s, l, ev);
    var s' := FinishLoad(s, l, ev);
    forall k: nat ensures InRtl0(s', k) == InRtl0(s, k) && InTlb(s', k) == InTlb(s, k)
                       && InRtl1(s', k) == InRtl1(s, k) && InCache(s', k) == InCache(s, k) {}
  }

  lemma FinishKeepsInv(s: State, l: nat, ev: nat)
    requires Inv(s) && LqLive(s, l) && s.lq[l].producer.Some?
    ensures OwnedLoad(s, l) && Inv(FinishLoad(s, l, ev))
  {
    FinishFrame(s, l, ev);
    KeepsStoreOrder(s, FinishLoad(s, l, ev));
    KeepsPlacement(s, FinishLoad(s, l, ev));
    FinishKeepsLoads(s, l, ev);
    FinishKeepsCounts(s, l, ev);
    FinishKeepsFinishes(s, l, ev);
    FinishKeepsStoreQueues(s, l, ev);
    FinishKeepsLoadQueues(s, l, ev);
  }

  lemma FetchedKeepsLoadQueues(s: State, l: nat, ev: nat)
    requires Shape(s) && Loads(s) && LoadQueues(s) && l in s.cacheLoads
    ensures LqLive(s, l) && OwnedLoad(s, l) && LoadQueues(LoadFetched(s, l, ev))
  {
    assert InCache(s, l);
    FinishFrame(s, l, ev);
    var s' := LoadFetched(s, l, ev);
    forall k: nat ensures InRtl0(s', k) == InRtl0(s, k) && InTlb(s', k) == InTlb(s, k)
                       && InRtl1(s', k) == InRtl1(s, k) && InCache(s', k) == (InCache(s, k) && k != l) {}
  }

  /** The data cache answers: the load leaves the set of outstanding requests and is finished. */
  lemma FetchedKeepsInv(s: State, l: nat, ev: nat)
    requires Inv(s) && l in s.cacheLoads
    ensures LqLive(s, l) && OwnedLoad(s, l) && Inv(LoadFetched(s, l, ev))
  {
    FetchedKeepsLoadQueues(s, l, ev);
    FinishFrame(s, l, ev);
    FinishKeepsLoads(s, l, ev);
    FinishKeepsCounts(s, l, ev);
    FinishKeepsFinishes(s, l, ev);
    FinishKeepsStoreQueues(s, l, ev);
    OnlyQueuesDiffer(FinishLoad(s, l, ev), LoadFetched(s, l, ev));
    KeepsStoreOrder(s, LoadFetched(s, l, ev));
    KeepsPlacement(s, LoadFetched(s, l, ev));
  }

  /** The load requests with the environment matter to LoadQueues only. */
  lemma OnlyQueuesDiffer(m: State, s': State)
    requires s' == m.(cacheLoads := s'.cacheLoads, tlbLoads := s'.tlbLoads, rtl0 := s'.rtl0, rtl1 := s'.rtl1)
    requires Shape(m) && Loads(m) && Counts(m) && Finishes(m) && StoreQueues(m)
    ensures Shape(s') && Loads(s') && Counts(s') && Finishes(s') && StoreQueues(s')
    ensures SameStoreSide(m, s')
  {
    hide Loads, Counts, Finishes;
    assert forall c: nat :: Live(s', c) == Live(m, c);
    KeepsShape(m, s');
    assert SameLoadSide(m, s');
    KeepsLoads(m, s');
    SameLoadsPending(m, s');
    SameStoresPending(m, s');
    KeepsCounts(m, s');
    KeepsFinishes(m, s');
    assert forall q: nat :: SqLive(s', q) == SqLive(m, q);
  }
}
