/** Reading, dispatch, translation, completion and retirement keep the invariants of the load/store queue. */
module LsqRing {
  import opened Common
  import opened LoadStoreQueue
  import opened StoreRanks
  import opened LsqFrames
  import opened LsqLoads
  import opened LsqStores

  // ----- requests to the environment

  /** Steps that only move a load through its queues. */
  lemma LoadMoveKeepsInv(s: State, s': State, l: nat)
    requires Inv(s) && l < |s.lq| && |s'.lq| == |s.lq|
    requires s' == s.(lq := s'.lq, rtl0 := s'.rtl0, rtl1 := s'.rtl1, tlbLoads := s'.tlbLoads, cacheLoads := s'.cacheLoads)
    requires forall k: nat :: k < |s.lq| && k != l ==> s'.lq[k] == s.lq[k]
    requires LqLive(s, l) && SameLoad(s.lq[l], s'.lq[l])
    requires LoadQueues(s')
    ensures Inv(s')
  {
    hide StoreOrder, Placement, Loads, Counts, LoadQueues, StoreQueues, Finishes;
    assert forall d: nat :: Live(s', d) == Live(s, d);
    KeepsShape(s, s');
    assert SameStoreSide(s, s') && SameLoadSide(s, s');
    LoadMoveKeepsRest(s, s');
    KeepsStoreQueues(s, s');
  }

  lemma LoadMoveKeepsRest(s: State, s': State)
    requires Shape(s) && StoreOrder(s) && Placement(s) && Loads(s) && Counts(s) && Finishes(s)
    requires Shape(s') && SameStoreSide(s, s') && SameLoadSide(s, s')
    requires s'.rob == s.rob && s'.finished == s.finished
    requires forall q: nat :: q < |s.sq| ==> (s'.sq[q].fetched == Completed <==> s.sq[q].fetched == Completed)
    ensures StoreOrder(s') && Placement(s') && Loads(s') && Counts(s') && Finishes(s')
  {
    hide StoreOrder, Placement, Loads, Counts, Finishes, Shape;
    KeepsStoreOrder(s, s');
    KeepsPlacement(s, s');
    KeepsLoads(s, s');
    SameLoadsPending(s, s');
    SameStoresPending(s, s');
    KeepsCounts(s, s');
    KeepsFinishes(s, s');
  }

  lemma LoadToTlbQueues(s: State)
    requires LoadQueues(s) && |s.rtl0| > 0
    ensures LqLive(s, s.rtl0[0]) && LoadQueues(LoadToTlb(s))
  {
    var l := s.rtl0[0];
    assert l in s.rtl0 && InRtl0(s, l);
    var s' := LoadToTlb(s);
    forall k: nat ensures InRtl0(s', k) == (InRtl0(s, k) && k != l) && InTlb(s', k) == (InTlb(s, k) || k == l)
                       && InRtl1(s', k) == InRtl1(s, k) && InCache(s', k) == InCache(s, k) {}
  }

  lemma LoadToTlbKeepsInv(s: State)
    requires Inv(s) && |s.rtl0| > 0
    ensures LqLive(s, s.rtl0[0]) && Inv(LoadToTlb(s))
  {
    LoadToTlbQueues(s);
    LoadMoveKeepsInv(s, LoadToTlb(s), s.rtl0[0]);
  }

  lemma LoadTranslatedQueues(s: State, l: nat)
    requires LoadQueues(s) && l in s.tlbLoads
    ensures LqLive(s, l) && LoadQueues(LoadTranslated(s, l))
  {
    assert InTlb(s, l);
    var s' := LoadTranslated(s, l);
    forall k: nat ensures InRtl0(s', k) == InRtl0(s, k) && InTlb(s', k) == (InTlb(s, k) && k != l)
                       && InRtl1(s', k) == (InRtl1(s, k) || k == l) && InCache(s', k) == InCache(s, k) {}
    assert !InRtl1(s, l);
  }

  lemma LoadTranslatedKeepsInv(s: State, l: nat)
    requires Inv(s) && l in s.tlbLoads
    ensures LqLive(s, l) && Inv(LoadTranslated(s, l))
  {
    LoadTranslatedQueues(s, l);
    LoadMoveKeepsInv(s, LoadTranslated(s, l), l);
  }

  lemma LoadToCacheQueues(s: State)
    requires LoadQueues(s) && |s.rtl1| > 0
    ensures LqLive(s, s.rtl1[0]) && LoadQueues(LoadToCache(s))
  {
    var l := s.rtl1[0];
    assert l in s.rtl1 && InRtl1(s, l);
    var s' := LoadToCache(s);
    forall k: nat ensures InRtl0(s', k) == InRtl0(s, k) && InTlb(s', k) == InTlb(s, k)
                       && InRtl1(s', k) == (InRtl1(s, k) && k != l) && InCache(s', k) == (InCache(s, k) || k == l) {}
  }

  lemma LoadToCacheKeepsInv(s: State)
    requires Inv(s) && |s.rtl1| > 0
    ensures LqLive(s, s.rtl1[0]) && Inv(LoadToCache(s))
  {
    LoadToCacheQueues(s);
    LoadMoveKeepsInv(s, LoadToCache(s), s.rtl1[0]);
  }

  /** Steps that only move a store through its queues. */
  lemma StoreMoveKeepsInv(s: State, s': State, q: nat)
    requires Inv(s) && SqLive(s, q) && |s'.sq| == |s.sq|
    requires s' == s.(sq := s'.sq, rts0 := s'.rts0, rts1 := s'.rts1, tlbStores := s'.tlbStores)
    requires forall k: nat :: k < |s.sq| && k != q ==> s'.sq[k] == s.sq[k]
    requires SameStore(s.sq[q], s'.sq[q]) && s'.sq[q].fetched == s.sq[q].fetched
    requires StoreQueues(s')
    ensures Inv(s')
  {
    hide StoreOrder, Placement, Loads, Counts, LoadQueues, StoreQueues, Finishes;
    assert forall d: nat :: Live(s', d) == Live(s, d);
    KeepsShape(s, s');
    assert SameStoreSide(s, s') && SameLoadSide(s, s');
    LoadMoveKeepsRest(s, s');
    KeepsLoadQueues(s, s');
  }

  lemma StoreToTlbQueues(s: State)
    requires StoreQueues(s) && |s.rts0| > 0
    ensures SqLive(s, s.rts0[0]) && StoreQueues(StoreToTlb(s))
  {
    var q := s.rts0[0];
    assert q in s.rts0 && InRts0(s, q);
    var s' := StoreToTlb(s);
    forall k: nat ensures InRts0(s', k) == (InRts0(s, k) && k != q) && InTlbStore(s', k) == (InTlbStore(s, k) || k == q)
                       && InRts1(s', k) == InRts1(s, k) {}
  }

  lemma StoreToTlbKeepsInv(s: State)
    requires Inv(s) && |s.rts0| > 0
    ensures SqLive(s, s.rts0[0]) && Inv(StoreToTlb(s))
  {
    StoreToTlbQueues(s);
    StoreMoveKeepsInv(s, StoreToTlb(s), s.rts0[0]);
  }

  lemma StoreTranslatedQueues(s: State, q: nat)
    requires StoreQueues(s) && q in s.tlbStores
    ensures SqLive(s, q) && StoreQueues(StoreTranslated(s, q))
  {
    assert InTlbStore(s, q);
    var s' := StoreTranslated(s, q);
    forall k: nat ensures InRts0(s', k) == InRts0(s, k) && InTlbStore(s', k) == (InTlbStore(s, k) && k != q)
                       && InRts1(s', k) == (InRts1(s, k) || k == q) {}
    assert !InRts1(s, q);
  }

  lemma StoreTranslatedKeepsInv(s: State, q: nat)
    requires Inv(s) && q in s.tlbStores
    ensures SqLive(s, q) && Inv(StoreTranslated(s, q))
  {
    StoreTranslatedQueues(s, q);
    StoreMoveKeepsInv(s, StoreTranslated(s, q), q);
  }

  // ----- progress flags and the clock

  /** Steps that change only the progress flags of one entry, or the clock. */
  lemma FlagsKeepInv(s: State, s': State)
    requires Inv(s) && |s'.rob| == |s.rob| && s' == s.(rob := s'.rob, clock := s'.clock)
    requires forall c: nat :: c < |s.rob| ==> s'.rob[c] == s.rob[c].(scheduled := s'.rob[c].scheduled, executed := s'.rob[c].executed)
    requires forall c: nat :: c < |s.rob| && !Live(s, c) ==> s'.rob[c] == s.rob[c]
    requires forall c: nat :: Live(s, c) && s'.rob[c].executed == Completed ==> s.rob[c].executed == Completed || s.rob[c].numMemOps == 0
    ensures Inv(s')
  {
    hide StoreOrder, Placement, Loads, Counts, LoadQueues, StoreQueues, Finishes;
    forall c: nat | Live(s, c) ensures EntryShape(s'.rob[c]) { assert EntryShape(s.rob[c]); }
    KeepsShape(s, s');
    assert SameStoreSide(s, s') && SameLoadSide(s, s');
    KeepsStoreOrder(s, s');
    KeepsPlacement(s, s');
    KeepsLoads(s, s');
    FlagsKeepCounts(s, s');
    KeepsLoadQueues(s, s');
    KeepsStoreQueues(s, s');
  }

  lemma FlagsKeepCounts(s: State, s': State)
    requires Counts(s) && Finishes(s) && SameStoreSide(s, s') && SameLoadSide(s, s') && s'.sq == s.sq && s'.finished == s.finished
    requires forall c: nat | Live(s, c) :: && s'.rob[c].numMemOps == s.rob[c].numMemOps
                                           && (s'.rob[c].executed == Completed ==> s.rob[c].executed == Completed || s.rob[c].numMemOps == 0)
    ensures Counts(s') && Finishes(s')
  {
    SameLoadsPending(s, s');
    SameStoresPending(s, s');
    KeepsCounts(s, s');
    KeepsFinishes(s, s');
  }

  // ----- reading the trace

  lemma ReadStores(s: State, x: MemInstr, t: nat, i: nat)
    requires t < |s.trace| && i <= |s.trace[t].stores|
    ensures Read(s, x).trace[t] == s.trace[t] && Rank(Read(s, x).trace, t, i) == Rank(s.trace, t, i)
  {
    AllStoresExtend(s.trace, x, t);
  }

  lemma ReadFrame(s: State, x: MemInstr)
    requires Shape(s) && x.WellFormed()
    ensures var s' := Read(s, x);
            && Shape(s') && Base(s') == Base(s)
            && (forall c: nat :: Live(s', c) == Live(s, c))
            && (forall q: nat :: SqLive(s', q) == SqLive(s, q))
            && (forall m: nat :: m < |s.sq| ==> SqSlot(s', m) == SqSlot(s, m))
            && AllStores(s'.trace, |s'.trace|) == AllStores(s.trace, |s.trace|) + StoresOf(|s.trace|, x.stores, |x.stores|)
  {
    hide Wrap, AgeFrom, StoresOf;
    var s' := Read(s, x);
    AllStoresExtend(s.trace, x, s.retired);
    AllStoresExtend(s.trace, x, |s.trace|);
    assert s'.trace[|s.trace|] == x;
  }

  lemma {:induction false} StoresOfIds(t: nat, xs: seq<nat>, n: nat)
    requires n <= |xs|
    ensures forall k :: 0 <= k < NonZero(xs, n) ==> StoresOf(t, xs, n)[k].id == t
  {
    if n > 0 { StoresOfIds(t, xs, n - 1); }
  }

  lemma ReadKeepsOrder(s: State, x: MemInstr)
    requires Shape(s) && StoreOrder(s) && x.WellFormed()
    ensures Shape(Read(s, x)) && StoreOrder(Read(s, x))
  {
    ReadFrame(s, x);
    StoresOfIds(|s.trace|, x.stores, |x.stores|);
    var s' := Read(s, x);
    var all, all' := AllStores(s.trace, |s.trace|), AllStores(s'.trace, |s'.trace|);
    forall k | 0 <= k < |s'.sta| ensures s'.sta[k] == all'[Base(s') + s'.sqOcc + k].id {
      if k < |s.sta| { assert s'.sta[k] == s.sta[k]; }
      else { assert all'[Base(s') + s'.sqOcc + k] == StoresOf(|s.trace|, x.stores, |x.stores|)[k - |s.sta|]; }
    }
  }

  lemma ReadKeepsPlacement(s: State, x: MemInstr)
    requires Shape(s) && Placement(s) && x.WellFormed()
    ensures Shape(Read(s, x)) && Placement(Read(s, x))
  {
    hide Wrap, AgeFrom;
    ReadFrame(s, x);
    var s' := Read(s, x);
    forall c: nat, i: nat | Live(s', c) && i < |s'.rob[c].instr.stores| ensures StorePlaced(s', c, i) {
      assert Live(s, c) && StorePlaced(s, c, i);
      ReadStores(s, x, s.rob[c].id, i);
    }
    AllStoresExtend(s.trace, x, s.retired + s.occ);
  }

  lemma ReadKeepsInv(s: State, x: MemInstr)
    requires Inv(s) && x.WellFormed()
    ensures Inv(Read(s, x))
  {
    var s' := Read(s, x);
    ReadFrame(s, x);
    ReadKeepsOrder(s, x);
    ReadKeepsPlacement(s, x);
    ReadKeepsRest(s, x);
    KeepsLoadQueues(s, s');
    KeepsStoreQueues(s, s');
  }

  lemma ReadKeepsRest(s: State, x: MemInstr)
    requires Shape(s) && Shape(Read(s, x)) && Loads(s) && Counts(s) && Finishes(s)
    ensures Loads(Read(s, x)) && Counts(Read(s, x)) && Finishes(Read(s, x))
  {
    var s' := Read(s, x);
    assert forall c: nat :: Live(s', c) == Live(s, c);
    forall l: nat | LqLive(s', l) ensures OwnedLoad(s', l) { assert LqLive(s, l) && OwnedLoad(s, l); }
    forall c: nat, j: nat | Live(s', c) && j < |s'.rob[c].sourceAdded| && s'.rob[c].sourceAdded[j] ensures LoadAdded(s', c, j) {
      assert LoadAdded(s, c, j);
    }
    forall l: nat | l < |s'.lq| && !LqLive(s', l) ensures s'.lq[l] == EMPTY_LQ { assert !LqLive(s, l); }
    ReadKeepsCounts(s, x);
    ReadKeepsFinishes(s, x);
  }

  lemma ReadKeepsCounts(s: State, x: MemInstr)
    requires Counts(s)
    ensures Counts(Read(s, x))
  {
    var s' := Read(s, x);
    forall c: nat | Live(s', c) ensures Outstanding(s', c) {
      assert Live(s, c) && Outstanding(s, c);
      SamePendingLoads(s, s', c, NUM_INSTR_SOURCES);
      SamePendingStores(s, s', c, |s.rob[c].instr.stores|);
    }
  }

  lemma ReadKeepsFinishes(s: State, x: MemInstr)
    requires Shape(s) && Finishes(s)
    ensures Finishes(Read(s, x))
  {
    hide Wrap, AgeFrom;
    var s' := Read(s, x);
    forall y: LoadId ensures IsFinished(s', y) == IsFinished(s, y) {
      if c: nat :| c < |s.rob| && Live(s, c) && s.rob[c].id == y.id && !LoadPending(s, c, y.index) {
        assert Live(s', c) && s'.rob[c].id == y.id && !LoadPending(s', c, y.index);
      }
      if c: nat :| c < |s.rob| && Live(s', c) && s'.rob[c].id == y.id && !LoadPending(s', c, y.index) {
        assert Live(s, c) && s.rob[c].id == y.id && !LoadPending(s, c, y.index);
      }
    }
  }
}
