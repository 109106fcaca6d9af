/** add_store_queue and execute_store keep the invariants of the load/store queue. */
module LsqStores {
  import opened Common
  import opened LoadStoreQueue
  import opened StoreRanks
  import opened LsqFrames
  import opened LsqFinish

  /** Operand `i` of slot `c` is the next store of the program, and there is room for it. */
  ghost predicate MayAddStore(s: State, c: nat, i: nat) {
    && Live(s, c) && EntryShape(s.rob[c]) && i < |s.rob[c].instr.stores|
    && s.rob[c].instr.stores[i] != 0 && !s.rob[c].destinationAdded[i]
    && (forall k: nat :: k < i && s.rob[c].instr.stores[k] != 0 ==> s.rob[c].destinationAdded[k])
    && s.sqOcc < |s.sq|
    && |s.sta| > 0 && s.sta[0] == s.rob[c].id
  }

  /** The store that the store order array admits is the one whose rank has come up. */
  lemma NextRank(s: State, c: nat, i: nat)
    requires Shape(s) && StoreOrder(s) && Placement(s) && MayAddStore(s, c, i)
    ensures s.rob[c].id < |s.trace| && s.rob[c].instr == s.trace[s.rob[c].id]
    ensures Rank(s.trace, s.rob[c].id, i) == Base(s) + s.sqOcc
  {
    var placed := Base(s) + s.sqOcc;
    var t, k := RankFind(s.trace, |s.trace|, placed);
    assert t == s.rob[c].id;
    assert StorePlaced(s, c, i) && StorePlaced(s, c, k);
    if i < k { RankOrder(s.trace, t, i, t, k); }
  }

  /** The slot at the tail is free: the sanity check of add_store_queue never fires. */
  lemma TailIsFree(s: State)
    requires RingShape(s) && StoreOrder(s) && s.sqOcc < |s.sq|
    ensures !SqLive(s, s.sqTail) && s.sq[s.sqTail] == EMPTY_SQ && s.sqTail == SqSlot(s, s.sqOcc)
  {
  }

  lemma AddStoreFrame(s: State, c: nat, i: nat)
    requires Shape(s) && StoreOrder(s) && MayAddStore(s, c, i)
    ensures var s' := AddStore(s, c, i);
            && Shape(s') && SameLoadSide(s, s') && Base(s') == Base(s)
            && (forall d: nat :: Live(s', d) == Live(s, d))
            && (forall q: nat :: SqLive(s', q) == (SqLive(s, q) || q == s.sqTail))
            && (forall m: nat :: m < |s.sq| ==> SqSlot(s', m) == SqSlot(s, m))
            && (forall q: nat :: q < |s.sq| && q != s.sqTail ==> s'.sq[q] == s.sq[q])
  {
    TailIsFree(s);
    var s' := AddStore(s, c, i);
    forall d: nat | Live(s, d) ensures EntryShape(s'.rob[d]) { assert EntryShape(s.rob[d]); }
    KeepsShape(s, s');
  }

  lemma AddStoreExtendsOrder(s: State, c: nat, i: nat, m: nat)
    requires Shape(s) && StoreOrder(s) && Placement(s) && MayAddStore(s, c, i) && m <= s.sqOcc
    ensures var s' := AddStore(s, c, i);
            && RingShape(s') && Base(s') + m < |AllStores(s'.trace, |s'.trace|)|
            && StoreId(s'.sq[SqSlot(s', m)].instrId, s'.sq[SqSlot(s', m)].dataIndex) == AllStores(s'.trace, |s'.trace|)[Base(s') + m]
  {
    AddStoreFrame(s, c, i);
    TailIsFree(s);
    if m < s.sqOcc {
      assert SqSlot(s, m) != s.sqTail;
    } else {
      NextRank(s, c, i);
      RankAt(s.trace, s.rob[c].id, i, |s.trace|);
    }
  }

  lemma AddStoreKeepsOrder(s: State, c: nat, i: nat)
    requires Shape(s) && StoreOrder(s) && Placement(s) && MayAddStore(s, c, i)
    ensures RingShape(AddStore(s, c, i)) && StoreOrder(AddStore(s, c, i))
  {
    AddStoreFrame(s, c, i);
    var s' := AddStore(s, c, i);
    var all := AllStores(s'.trace, |s'.trace|);
    forall m: nat | m < s'.sqOcc
      ensures StoreId(s'.sq[SqSlot(s', m)].instrId, s'.sq[SqSlot(s', m)].dataIndex) == all[Base(s') + m]
    {
      AddStoreExtendsOrder(s, c, i, m);
    }
    forall k | 0 <= k < |s'.sta| ensures s'.sta[k] == all[Base(s') + s'.sqOcc + k].id {
      assert s'.sta[k] == s.sta[k + 1];
    }
    forall q: nat | q < |s'.sq| && !SqLive(s', q) ensures s'.sq[q] == EMPTY_SQ {
      assert !SqLive(s, q);
    }
  }

  /** The new store is in the slot of its rank. */
  lemma AddStorePlacesSelf(s: State, c: nat, i: nat)
    requires Shape(s) && StoreOrder(s) && Placement(s) && MayAddStore(s, c, i)
    requires Shape(AddStore(s, c, i)) && Live(AddStore(s, c, i), c) && i < |AddStore(s, c, i).rob[c].instr.stores|
    ensures StorePlaced(AddStore(s, c, i), c, i)
  {
    AddStoreFrame(s, c, i);
    NextRank(s, c, i);
    TailIsFree(s);
  }

  lemma AddStorePlaces(s: State, c: nat, i: nat, d: nat, k: nat)
    requires Shape(s) && StoreOrder(s) && Placement(s) && MayAddStore(s, c, i)
    requires Live(s, d) && k < |s.rob[d].instr.stores|
    requires Shape(AddStore(s, c, i)) && Live(AddStore(s, c, i), d)
    ensures k < |AddStore(s, c, i).rob[d].instr.stores| && StorePlaced(AddStore(s, c, i), d, k)
  {
    AddStoreFrame(s, c, i);
    if d == c && k == i {
      AddStorePlacesSelf(s, c, i);
    } else {
      AddStorePlacesOther(s, c, i, d, k);
    }
  }

  /** The new store takes neither the rank nor the slot of another operand. */
  lemma OtherRank(s: State, c: nat, i: nat, d: nat, k: nat)
    requires Shape(s) && StoreOrder(s) && Placement(s) && MayAddStore(s, c, i) && !(d == c && k == i)
    requires Live(s, d) && k < |s.rob[d].instr.stores| && s.rob[d].instr.stores[k] != 0
    ensures s.rob[d].id < |s.trace| && s.rob[d].instr == s.trace[s.rob[d].id]
    ensures Rank(s.trace, s.rob[d].id, k) != Base(s) + s.sqOcc
  {
    NextRank(s, c, i);
    if Rank(s.trace, s.rob[d].id, k) == Base(s) + s.sqOcc { RankInjective(s.trace, s.rob[d].id, k, s.rob[c].id, i); }
  }

  /** An operand and its store queue slot, if it has one, are as before. */
  lemma KeepsPlaced(s: State, s': State, d: nat, k: nat)
    requires Shape(s) && Shape(s') && Live(s, d) && Live(s', d) && k < |s.rob[d].instr.stores| && StorePlaced(s, d, k)
    requires s'.trace == s.trace && s'.retired == s.retired && |s'.sq| == |s.sq| && s'.sqHead == s.sqHead && s.sqOcc <= s'.sqOcc
    requires s'.rob[d].instr == s.rob[d].instr && s'.rob[d].id == s.rob[d].id
    requires s'.rob[d].destinationAdded[k] == s.rob[d].destinationAdded[k] && s'.rob[d].sqIndex[k] == s.rob[d].sqIndex[k]
    requires forall m: nat | m < s.sqOcc :: s'.sq[SqSlot(s, m)] == s.sq[SqSlot(s, m)]
    requires s.rob[d].instr.stores[k] != 0 && Rank(s.trace, s.rob[d].id, k) >= Base(s) + s.sqOcc
             ==> Rank(s.trace, s.rob[d].id, k) >= Base(s) + s'.sqOcc
    ensures StorePlaced(s', d, k)
  {
    var r := Rank(s.trace, s.rob[d].id, k);
    if s.rob[d].instr.stores[k] != 0 && r < Base(s) + s.sqOcc {
      assert SqSlot(s', r - Base(s)) == SqSlot(s, r - Base(s));
    }
  }

  /** The fields of the other operands. */
  lemma OtherOperands(s: State, c: nat, i: nat, d: nat, k: nat)
    requires Shape(s) && StoreOrder(s) && MayAddStore(s, c, i) && !(d == c && k == i)
    requires Live(s, d) && k < |s.rob[d].instr.stores|
    ensures EntryShape(s.rob[d])
    ensures var x, y := AddStore(s, c, i).rob[d], s.rob[d];
            && x.instr == y.instr && x.id == y.id
            && |x.destinationAdded| == |y.destinationAdded| && |x.sqIndex| == |y.sqIndex|
            && x.destinationAdded[k] == y.destinationAdded[k] && x.sqIndex[k] == y.sqIndex[k]
  {
  }

  lemma AddStorePlacesOther(s: State, c: nat, i: nat, d: nat, k: nat)
    requires Shape(s) && StoreOrder(s) && Placement(s) && MayAddStore(s, c, i) && !(d == c && k == i)
    requires Live(s, d) && k < |s.rob[d].instr.stores|
    requires Shape(AddStore(s, c, i)) && Live(AddStore(s, c, i), d)
    ensures k < |AddStore(s, c, i).rob[d].instr.stores| && StorePlaced(AddStore(s, c, i), d, k)
  {
    hide StoreOrder, StorePlaced;
    AddStoreFrame(s, c, i);
    OtherOperands(s, c, i, d, k);
    if s.rob[d].instr.stores[k] != 0 { OtherRank(s, c, i, d, k); }
    KeepsPlaced(s, AddStore(s, c, i), d, k);
  }

  lemma AddStoreKeepsPlacement(s: State, c: nat, i: nat)
    requires Shape(s) && StoreOrder(s) && Placement(s) && MayAddStore(s, c, i)
    ensures Shape(AddStore(s, c, i)) && Placement(AddStore(s, c, i))
  {
    AddStoreFrame(s, c, i);
    var s' := AddStore(s, c, i);
    forall d: nat, k: nat | Live(s', d) && k < |s'.rob[d].instr.stores| ensures StorePlaced(s', d, k) {
      assert s'.rob[d].instr == s.rob[d].instr;
      AddStorePlaces(s, c, i, d, k);
    }
    NextRank(s, c, i);
    RankAt(s.trace, s.rob[c].id, i, s.retired + s.occ);
  }

  /** The entry a live store queue slot belongs to. */
  lemma StoreOwner(s: State, q: nat)
    requires Shape(s) && StoreOrder(s) && Placement(s) && SqLive(s, q)
    ensures var x := s.sq[q];
            && Live(s, x.robIndex) && EntryShape(s.rob[x.robIndex]) && s.rob[x.robIndex].id == x.instrId
            && x.dataIndex < |s.rob[x.robIndex].instr.stores|
            && s.rob[x.robIndex].instr.stores[x.dataIndex] == x.address != 0
            && s.rob[x.robIndex].destinationAdded[x.dataIndex]
            && s.rob[x.robIndex].sqIndex[x.dataIndex] == Some(q)
  {
    hide AllStores, NonZero;
    var m := AgeFrom(s.sqHead, |s.sq|, q);
    assert SqSlot(s, m) == q;
    AllStoresPrefix(s.trace, s.retired + s.occ, |s.trace|);
    var t, i := RankFind(s.trace, s.retired + s.occ, Base(s) + m);
    if t < s.retired {
      RankAt(s.trace, t, i, s.retired);
    }
    var c := Slot(s, t - s.retired);
    assert Live(s, c) && s.rob[c].id == t && s.rob[c].instr == s.trace[t];
    assert StorePlaced(s, c, i);
  }

  /** Only one operand knows a given store queue slot. */
  lemma OneOwner(s: State, q: nat, d: nat, k: nat)
    requires Shape(s) && StoreOrder(s) && Placement(s) && SqLive(s, q)
    requires Live(s, d) && k < |s.rob[d].instr.stores| && k < |s.rob[d].sqIndex| && s.rob[d].sqIndex[k] == Some(q)
    ensures d == s.sq[q].robIndex && k == s.sq[q].dataIndex
  {
    assert StorePlaced(s, d, k);
  }

  /** Whether an operand's slot could be the tail. */
  lemma TailUnknown(s: State, d: nat, k: nat)
    requires Shape(s) && StoreOrder(s) && Placement(s) && s.sqOcc < |s.sq|
    requires Live(s, d) && k < |s.rob[d].instr.stores| && k < |s.rob[d].sqIndex|
    ensures s.rob[d].sqIndex[k] != Some(s.sqTail)
    ensures s.rob[d].sqIndex[k].Some? ==> SqLive(s, s.rob[d].sqIndex[k].value)
  {
    assert StorePlaced(s, d, k);
    TailIsFree(s);
  }

  lemma AddStoreSamePending(s: State, c: nat, i: nat)
    requires Shape(s) && StoreOrder(s) && Placement(s) && MayAddStore(s, c, i)
    ensures SamePending(s, AddStore(s, c, i))
  {
    AddStoreFrame(s, c, i);
    var s' := AddStore(s, c, i);
    SameLoadsPending(s, s');
    forall d: nat, k: nat | d < |s.rob| ensures StorePending(s', d, k) == StorePending(s, d, k) {
      if Live(s, d) && k < |s.rob[d].instr.stores| {
        assert EntryShape(s.rob[d]) && StorePlaced(s, d, k);
        TailUnknown(s, d, k);
      } else if !Live(s, d) {
        assert s.rob[d] == EMPTY_ROB;
      }
    }
  }

  lemma AddStoreKeepsQueues(s: State, c: nat, i: nat)
    requires Shape(s) && StoreOrder(s) && StoreQueues(s) && LoadQueues(s) && MayAddStore(s, c, i)
    ensures StoreQueues(AddStore(s, c, i)) && LoadQueues(AddStore(s, c, i))
  {
    AddStoreFrame(s, c, i);
    TailIsFree(s);
    var s' := AddStore(s, c, i);
    forall q: nat ensures InRts0(s', q) == (InRts0(s, q) || q == s.sqTail)
                       && InTlbStore(s', q) == InTlbStore(s, q) && InRts1(s', q) == InRts1(s, q) {
      if SqLive(s, q) { assert s'.sq[q] == s.sq[q]; }
    }
    assert !InRts0(s, s.sqTail);
    forall q: nat | SqLive(s', q) && s'.sq[q].fetched == Completed ensures s'.sq[q].translated == Completed {
      assert q != s.sqTail;
    }
    KeepsLoadQueues(s, s');
  }

  lemma KeepsLoadQueues(s: State, s': State)
    requires LoadQueues(s) && s'.lq == s.lq
    requires s'.rtl0 == s.rtl0 && s'.rtl1 == s.rtl1 && s'.tlbLoads == s.tlbLoads && s'.cacheLoads == s.cacheLoads
    ensures LoadQueues(s')
  {
    assert forall l: nat :: LqLive(s', l) == LqLive(s, l);
  }

  lemma AddStoreKeepsInv(s: State, c: nat, i: nat)
    requires Inv(s) && MayAddStore(s, c, i)
    ensures Inv(AddStore(s, c, i))
  {
    var s' := AddStore(s, c, i);
    AddStoreFrame(s, c, i);
    AddStoreKeepsOrder(s, c, i);
    AddStoreKeepsPlacement(s, c, i);
    KeepsLoads(s, s');
    AddStoreSamePending(s, c, i);
    KeepsCounts(s, s');
    KeepsFinishes(s, s');
    AddStoreKeepsQueues(s, c, i);
  }

  // ----- execution of a store

  lemma StoreDoneFrame(s: State, q: nat)
    requires Shape(s) && StoreOrder(s) && Placement(s) && SqLive(s, q)
    ensures s.sq[q].robIndex < |s.rob|
    ensures Shape(StoreDone(s, q)) && SameStoreSide(s, StoreDone(s, q)) && SameLoadSide(s, StoreDone(s, q))
    ensures forall d: nat :: Live(StoreDone(s, q), d) == Live(s, d)
  {
    StoreOwner(s, q);
    var s' := StoreDone(s, q);
    forall d: nat | Live(s, d) ensures EntryShape(s'.rob[d]) { assert EntryShape(s.rob[d]); }
    KeepsShape(s, s');
  }

  lemma StoreDonePending(s: State, q: nat, d: nat, k: nat)
    requires Shape(s) && StoreOrder(s) && Placement(s) && SqLive(s, q) && Live(s, d)
    ensures s.sq[q].robIndex < |s.rob|
    ensures StorePending(StoreDone(s, q), d, k)
            == (StorePending(s, d, k) && !(d == s.sq[q].robIndex && k == s.sq[q].dataIndex))
  {
    StoreOwner(s, q);
    StoreDoneFrame(s, q);
    var s' := StoreDone(s, q);
    assert s'.rob[d].instr == s.rob[d].instr && s'.rob[d].sqIndex == s.rob[d].sqIndex;
    if k < |s.rob[d].instr.stores| && k < |s.rob[d].sqIndex| && s.rob[d].sqIndex[k] == Some(q) {
      OneOwner(s, q, d, k);
    }
  }

  lemma StoreDoneOutstanding(s: State, q: nat, d: nat)
    requires Shape(s) && StoreOrder(s) && Placement(s) && Counts(s) && SqLive(s, q) && s.sq[q].fetched != Completed && Live(s, d)
    ensures s.sq[q].robIndex < |s.rob| && Outstanding(StoreDone(s, q), d)
    ensures s.rob[s.sq[q].robIndex].numMemOps > 0
  {
    StoreOwner(s, q);
    StoreDoneFrame(s, q);
    var s' := StoreDone(s, q);
    var c, i := s.sq[q].robIndex, s.sq[q].dataIndex;
    assert Outstanding(s, d) && Outstanding(s, c);
    SomePendingStore(s, c, i, |s.rob[c].instr.stores|);
    SameLoadsPending(s, s');
    SamePendingLoads(s, s', d, NUM_INSTR_SOURCES);
    var n := |s.rob[d].instr.stores|;
    forall k: nat | k < n
      ensures StorePending(s', d, k) == (StorePending(s, d, k) && !(d == c && k == i))
    {
      StoreDonePending(s, q, d, k);
    }
    if d == c { FewerPendingStores(s, s', d, i, n); } else { SamePendingStores(s, s', d, n); }
  }

  lemma StoreDoneKeepsInv(s: State)
    requires Inv(s) && |s.rts1| > 0
    ensures SqLive(s, s.rts1[0]) && s.sq[s.rts1[0]].robIndex < |s.rob|
    ensures Inv(StoreDone(s, s.rts1[0]).(rts1 := s.rts1[1..]))
  {
    var q := s.rts1[0];
    assert q in s.rts1 && InRts1(s, q);
    StoreDoneFrame(s, q);
    var m := StoreDone(s, q);
    var s' := m.(rts1 := s.rts1[1..]);
    forall d: nat | Live(s, d) ensures Outstanding(m, d) { StoreDoneOutstanding(s, q, d); }
    StoreRingOnly(s, m, s');
    SameLoadsPending(s, s');
    StoreDoneFinishes(s, q, s');
    KeepsLoadQueues(s, s');
    StoreDoneQueues(s, q, s');
  }

  lemma StoreRingFrame(s: State, m: State, s': State)
    requires Shape(m) && SameStoreSide(s, m) && SameLoadSide(s, m)
    requires s' == m.(rts0 := s'.rts0, rts1 := s'.rts1, tlbStores := s'.tlbStores)
    ensures Shape(s') && SameStoreSide(s, s') && SameLoadSide(s, s') && SameStoreSide(m, s') && SameLoadSide(m, s')
  {
    assert forall d: nat :: Live(s', d) == Live(m, d);
    KeepsShape(m, s');
  }

  lemma StoreRingCounts(m: State, s': State)
    requires Counts(m) && SameStoreSide(m, s') && SameLoadSide(m, s')
    requires s'.rob == m.rob && s'.sq == m.sq
    ensures Counts(s')
  {
    SameLoadsPending(m, s');
    SameStoresPending(m, s');
    KeepsCounts(m, s');
  }

  /** The rings of stores matter to StoreQueues only. */
  lemma StoreRingOnly(s: State, m: State, s': State)
    requires Shape(s) && StoreOrder(s) && Placement(s) && Loads(s)
    requires Shape(m) && SameStoreSide(s, m) && SameLoadSide(s, m) && Counts(m)
    requires s' == m.(rts0 := s'.rts0, rts1 := s'.rts1, tlbStores := s'.tlbStores)
    ensures Shape(s') && StoreOrder(s') && Placement(s') && Loads(s') && Counts(s')
    ensures SameStoreSide(s, s') && SameLoadSide(s, s')
  {
    hide StoreOrder, Placement, Loads, Counts, Shape;
    StoreRingFrame(s, m, s');
    StoreRingCounts(m, s');
    KeepsStoreOrder(s, s');
    KeepsPlacement(s, s');
    KeepsLoads(s, s');
  }

  /** Executing a store does not finish a load. */
  lemma StoreDoneFinishes(s: State, q: nat, s': State)
    requires Finishes(s) && SameLoadSide(s, s') && s'.finished == s.finished
    ensures Finishes(s')
  {
    SameLoadsPending(s, s');
    forall x: LoadId ensures IsFinished(s', x) == IsFinished(s, x) {
      if c: nat :| c < |s.rob| && Live(s, c) && s.rob[c].id == x.id && !LoadPending(s, c, x.index) {
        assert Live(s', c) && s'.rob[c].id == x.id && !LoadPending(s', c, x.index);
      }
      if c: nat :| c < |s.rob| && Live(s', c) && s'.rob[c].id == x.id && !LoadPending(s', c, x.index) {
        assert Live(s, c) && s.rob[c].id == x.id && !LoadPending(s, c, x.index);
      }
    }
  }

  lemma StoreDoneQueues(s: State, q: nat, s': State)
    requires StoreQueues(s) && |s.rts1| > 0 && q == s.rts1[0] && SqLive(s, q) && s.sq[q].robIndex < |s.rob|
    requires s' == StoreDone(s, q).(rts1 := s.rts1[1..])
    ensures StoreQueues(s')
  {
    assert q in s.rts1 && InRts1(s, q);
    forall k: nat ensures InRts0(s', k) == InRts0(s, k) && InTlbStore(s', k) == InTlbStore(s, k)
                       && InRts1(s', k) == (InRts1(s, k) && k != q) {}
  }

  /** The forwarding loops, as long as the sanity check holds. */
  lemma {:induction false} ForwardKeepsInv(s: State, q: nat, d: nat, j: nat)
    requires Inv(s) && q < |s.sq| && s.sq[q].robIndex < |s.rob| && d <= |s.rob| && j <= NUM_INSTR_SOURCES
    ensures Forward(s, q, d, j).Some? ==> Inv(Forward(s, q, d, j).value)
    decreases |s.rob| - d, NUM_INSTR_SOURCES - j
  {
    hide Inv;
    if d == |s.rob| {
    } else if j == NUM_INSTR_SOURCES || d !in s.rob[s.sq[q].robIndex].dependents {
      ForwardKeepsInv(s, q, d + 1, 0);
    } else if Matches(s, q, d, j) {
      var l := s.rob[d].lqIndex[j].value;
      if s.lq[l].producer == Some(s.sq[q].instrId) {
        WaitingIsLive(s, l);
        FinishKeepsInv(s, l, s.clock);
        ForwardKeepsInv(FinishLoad(s, l, s.clock), q, d, j + 1);
      }
    } else {
      ForwardKeepsInv(s, q, d, j + 1);
    }
  }

  lemma WaitingIsLive(s: State, l: nat)
    requires Inv(s) && l < |s.lq| && s.lq[l].producer.Some?
    ensures LqLive(s, l) && OwnedLoad(s, l)
  {
  }

  lemma ExecuteStoreKeepsInv(s: State)
    requires Inv(s) && |s.rts1| > 0
    ensures SqLive(s, s.rts1[0]) && s.sq[s.rts1[0]].robIndex < |s.rob|
    ensures ExecuteStore(s).Some? ==> Inv(ExecuteStore(s).value)
  {
    StoreDoneKeepsInv(s);
    var m := StoreDone(s, s.rts1[0]).(rts1 := s.rts1[1..]);
    ForwardKeepsInv(m, s.rts1[0], 0, 0);
  }
}
