/** Dispatch and in-order retirement keep the invariants of the load/store queue. */
module LsqRetire {
  import opened Common
  import opened LoadStoreQueue
  import opened StoreRanks
  import opened LsqFrames
  import opened LsqLoads
  import opened LsqStores

  // ----- dispatch

  ghost predicate MayDispatch(s: State) {
    s.occ < |s.rob| && s.retired + s.occ < |s.trace|
  }

  /** The slots of the buffer when an entry is added. */
  lemma DispatchWindow(s: State)
    requires RingShape(s) && MayDispatch(s)
    ensures var s', id := Dispatch(s), s.retired + s.occ;
            && RingShape(s') && !Live(s, s.tail) && Live(s', s.tail) && Age(s', s.tail) == s.occ
            && s'.rob[s.tail] == FreshEntry(s.trace[id], id, s.clock)
            && (forall c: nat :: Live(s', c) == (Live(s, c) || c == s.tail))
            && (forall c: nat | c < |s.rob| :: Age(s', c) == Age(s, c))
            && (forall c: nat | c < |s.rob| && c != s.tail :: s'.rob[c] == s.rob[c])
  {
  }

  lemma DispatchFrame(s: State)
    requires Shape(s) && MayDispatch(s)
    ensures var s', id := Dispatch(s), s.retired + s.occ;
            && Shape(s') && Base(s') == Base(s) && !Live(s, s.tail) && Live(s', s.tail)
            && s'.rob[s.tail] == FreshEntry(s.trace[id], id, s.clock)
            && (forall c: nat :: Live(s', c) == (Live(s, c) || c == s.tail))
            && (forall c: nat :: Live(s, c) ==> s'.rob[c] == s.rob[c])
            && (forall q: nat :: SqLive(s', q) == SqLive(s, q))
            && (forall m: nat :: m < |s.sq| ==> SqSlot(s', m) == SqSlot(s, m))
  {
    hide Wrap, AgeFrom;
    DispatchWindow(s);
    var s' := Dispatch(s);
    forall c: nat | Live(s', c)
      ensures EntryShape(s'.rob[c]) && s'.rob[c].id == s'.retired + Age(s', c) && s'.rob[c].instr == s'.trace[s'.retired + Age(s', c)]
    {
      if c != s.tail { assert Live(s, c) && EntryShape(s.rob[c]); }
    }
  }

  /** No store of the new entry is placed yet, and those of the others stay. */
  lemma DispatchPlaces(s: State, c: nat, i: nat)
    requires Shape(s) && StoreOrder(s) && Placement(s) && MayDispatch(s)
    requires Live(Dispatch(s), c) && i < |Dispatch(s).rob[c].instr.stores|
    ensures Shape(Dispatch(s)) && StorePlaced(Dispatch(s), c, i)
  {
    hide StoreOrder;
    DispatchFrame(s);
    var id := s.retired + s.occ;
    if c == s.tail {
      assert Rank(s.trace, id, i) >= |AllStores(s.trace, id)|;
    } else {
      assert StorePlaced(s, c, i);
    }
  }

  lemma DispatchKeepsPlacement(s: State)
    requires Shape(s) && StoreOrder(s) && Placement(s) && MayDispatch(s)
    ensures Shape(Dispatch(s)) && StoreOrder(Dispatch(s)) && Placement(Dispatch(s))
  {
    hide StorePlaced;
    DispatchFrame(s);
    var s', id := Dispatch(s), s.retired + s.occ;
    forall c: nat, i: nat | Live(s', c) && i < |s'.rob[c].instr.stores| ensures StorePlaced(s', c, i) {
      DispatchPlaces(s, c, i);
    }
    AllStoresPrefix(s.trace, id, id + 1);
  }

  lemma {:induction false} FreshPendingLoads(s: State, c: nat, n: nat)
    requires c < |s.rob| && n <= |s.rob[c].instr.loads| && |s.rob[c].sourceAdded| == |s.rob[c].instr.loads|
    requires forall j :: 0 <= j < |s.rob[c].sourceAdded| ==> !s.rob[c].sourceAdded[j]
    ensures PendingLoads(s, c, n) == NonZero(s.rob[c].instr.loads, n)
  {
    if n > 0 { FreshPendingLoads(s, c, n - 1); }
  }

  lemma {:induction false} FreshPendingStores(s: State, c: nat, n: nat)
    requires c < |s.rob| && n <= |s.rob[c].instr.stores| && |s.rob[c].sqIndex| == |s.rob[c].instr.stores|
    requires forall i :: 0 <= i < |s.rob[c].sqIndex| ==> s.rob[c].sqIndex[i].None?
    ensures PendingStores(s, c, n) == NonZero(s.rob[c].instr.stores, n)
  {
    if n > 0 { FreshPendingStores(s, c, n - 1); }
  }

  lemma DispatchKeepsCounts(s: State)
    requires Shape(s) && Counts(s) && MayDispatch(s)
    ensures Counts(Dispatch(s))
  {
    DispatchFrame(s);
    var s', id := Dispatch(s), s.retired + s.occ;
    forall c: nat | Live(s', c) ensures Outstanding(s', c) {
      if c == s.tail {
        assert s.trace[id].WellFormed();
        FreshPendingLoads(s', c, NUM_INSTR_SOURCES);
        FreshPendingStores(s', c, |s'.rob[c].instr.stores|);
      } else {
        assert Outstanding(s, c);
        SamePendingLoads(s, s', c, NUM_INSTR_SOURCES);
        SamePendingStores(s, s', c, |s.rob[c].instr.stores|);
      }
    }
  }

  lemma DispatchFinished(s: State, y: LoadId)
    requires Shape(s) && MayDispatch(s)
    ensures IsFinished(Dispatch(s), y) == IsFinished(s, y)
  {
    hide Wrap, AgeFrom;
    DispatchFrame(s);
    var s' := Dispatch(s);
    if IsFinished(s, y) && y.id >= s.retired {
      var c: nat :| c < |s.rob| && Live(s, c) && s.rob[c].id == y.id && !LoadPending(s, c, y.index);
      assert Live(s', c) && s'.rob[c].id == y.id && !LoadPending(s', c, y.index);
    }
    if IsFinished(s', y) && y.id >= s.retired {
      var c: nat :| c < |s'.rob| && Live(s', c) && s'.rob[c].id == y.id && !LoadPending(s', c, y.index);
      assert c != s.tail;
      assert Live(s, c) && s.rob[c].id == y.id && !LoadPending(s, c, y.index);
    }
  }

  lemma DispatchKeepsFinishes(s: State)
    requires Shape(s) && Finishes(s) && MayDispatch(s)
    ensures Finishes(Dispatch(s))
  {
    forall y: LoadId ensures IsFinished(Dispatch(s), y) == IsFinished(s, y) { DispatchFinished(s, y); }
  }

  lemma DispatchKeepsLoads(s: State)
    requires Shape(s) && Loads(s) && MayDispatch(s)
    ensures Loads(Dispatch(s))
  {
    DispatchFrame(s);
    var s' := Dispatch(s);
    forall l: nat | LqLive(s', l) ensures OwnedLoad(s', l) { assert LqLive(s, l) && OwnedLoad(s, l); }
    forall l: nat | l < |s'.lq| && !LqLive(s', l) ensures s'.lq[l] == EMPTY_LQ { assert !LqLive(s, l); }
    forall c: nat, j: nat | Live(s', c) && j < |s'.rob[c].sourceAdded| && s'.rob[c].sourceAdded[j] ensures LoadAdded(s', c, j) {
      assert c != s.tail && LoadAdded(s, c, j);
    }
  }

  lemma DispatchKeepsInv(s: State)
    requires Inv(s) && MayDispatch(s)
    ensures Inv(Dispatch(s))
  {
    DispatchKeepsPlacement(s);
    DispatchKeepsLoads(s);
    DispatchKeepsCounts(s);
    DispatchKeepsFinishes(s);
    KeepsLoadQueues(s, Dispatch(s));
    KeepsStoreQueues(s, Dispatch(s));
  }

  // ----- retirement

  ghost predicate MayRetire(s: State) {
    s.occ > 0 && s.head < |s.rob| && s.rob[s.head].executed == Completed
  }

  /** The number of stores of the oldest entry. */
  function HeadStores(s: State): nat
    requires s.head < |s.rob|
  {
    NonZero(s.rob[s.head].instr.stores, |s.rob[s.head].instr.stores|)
  }

  /** Nothing of a completed entry is pending. */
  lemma NothingPending(s: State, c: nat)
    requires Shape(s) && Counts(s) && Live(s, c) && s.rob[c].executed == Completed
    ensures forall j: nat :: j < NUM_INSTR_SOURCES ==> !LoadPending(s, c, j)
    ensures forall i: nat :: i < |s.rob[c].instr.stores| ==> !StorePending(s, c, i)
  {
    assert Outstanding(s, c);
    forall j: nat | j < NUM_INSTR_SOURCES ensures !LoadPending(s, c, j) {
      if LoadPending(s, c, j) { SomePendingLoad(s, c, j, NUM_INSTR_SOURCES); }
    }
    forall i: nat | i < |s.rob[c].instr.stores| ensures !StorePending(s, c, i) {
      if StorePending(s, c, i) { SomePendingStore(s, c, i, |s.rob[c].instr.stores|); }
    }
  }

  lemma HeadStoreAt(s: State, m: nat)
    requires Shape(s) && StoreOrder(s) && Placement(s) && Counts(s) && MayRetire(s) && m < HeadStores(s)
    ensures m < s.sqOcc
    ensures s.sq[SqSlot(s, m)].robIndex == s.head && s.sq[SqSlot(s, m)].fetched == Completed
  {
    assert Live(s, s.head) && s.rob[s.head].id == s.retired;
    NothingPending(s, s.head);
    var xs := s.rob[s.head].instr.stores;
    var i := StoresOfFind(s.retired, xs, |xs|, m);
    assert StorePlaced(s, s.head, i) && !StorePending(s, s.head, i);
  }

  /** The stores of the oldest entry are the oldest of the store queue, and all of them are executed. */
  lemma HeadStoresFirst(s: State)
    requires Shape(s) && StoreOrder(s) && Placement(s) && Counts(s) && MayRetire(s)
    ensures HeadStores(s) <= s.sqOcc
    ensures Base(s) + HeadStores(s) == |AllStores(s.trace, s.retired + 1)|
    ensures forall m: nat :: m < HeadStores(s) ==> s.sq[SqSlot(s, m)].robIndex == s.head && s.sq[SqSlot(s, m)].fetched == Completed
  {
    assert Live(s, s.head) && s.rob[s.head].id == s.retired;
    if HeadStores(s) > 0 { HeadStoreAt(s, HeadStores(s) - 1); }
    forall m: nat | m < HeadStores(s)
      ensures s.sq[SqSlot(s, m)].robIndex == s.head && s.sq[SqSlot(s, m)].fetched == Completed
    {
      HeadStoreAt(s, m);
    }
  }

  /** Releasing the `n` oldest store queue slots. */
  lemma {:induction false} ReleaseStoresFrame(s: State, n: nat)
    requires RingShape(s) && n <= s.sqOcc
    ensures var s' := ReleaseStores(s, n);
            && s' == s.(sq := s'.sq, sqHead := s'.sqHead, sqOcc := s.sqOcc - n)
            && |s'.sq| == |s.sq| && s'.sqHead < |s.sq|
            && s'.sqHead == Wrap(|s.sq|, s.sqHead + n)
            && (forall q: nat | q < |s.sq| :: s'.sq[q] == if AgeFrom(s.sqHead, |s.sq|, q) < n then EMPTY_SQ else s.sq[q])
    decreases n
  {
    if n > 0 {
      var m := ReleaseStore(s);
      ReleaseStoresFrame(m, n - 1);
    }
  }

  /** The store queue after retirement of the oldest entry. */
  ghost predicate RetiredStores(s: State, s': State, n: nat)
    requires RingShape(s) && RingShape(s') && n <= s.sqOcc
  {
    && |s'.sq| == |s.sq| && s'.sqOcc == s.sqOcc - n
    && (forall m: nat :: m < s'.sqOcc ==> SqSlot(s', m) == SqSlot(s, m + n))
    && (forall q: nat :: SqLive(s', q) == (SqLive(s, q) && AgeFrom(s.sqHead, |s.sq|, q) >= n))
    && (forall q: nat | q < |s.sq| :: s'.sq[q] == if AgeFrom(s.sqHead, |s.sq|, q) < n then EMPTY_SQ else s.sq[q])
  }

  lemma RetireStores(s: State)
    requires RingShape(s) && s.occ > 0 && HeadStores(s) <= s.sqOcc
    ensures RingShape(Retire(s)) && RetiredStores(s, Retire(s), HeadStores(s))
  {
    ReleaseStoresFrame(s, HeadStores(s));
  }

  /** The slots of the buffer when the head leaves. */
  lemma RetireWindow(s: State)
    requires RingShape(s) && s.occ > 0 && HeadStores(s) <= s.sqOcc && RingShape(Retire(s))
    ensures var s' := Retire(s);
            && s'.lq == s.lq && s'.sta == s.sta && s'.trace == s.trace && s'.finished == s.finished
            && s'.retired == s.retired + 1 && s'.occ == s.occ - 1 && |s'.rob| == |s.rob| && s'.lqOcc == s.lqOcc
            && (forall c: nat :: Live(s', c) == (Live(s, c) && c != s.head))
            && (forall c: nat | c < |s.rob| :: s'.rob[c] == if c == s.head then EMPTY_ROB else s.rob[c])
            && (forall c: nat | Live(s', c) :: Age(s', c) + 1 == Age(s, c))
  {
    ReleaseStoresFrame(s, HeadStores(s));
  }

  lemma RetireRing(s: State)
    requires Shape(s) && s.occ > 0 && HeadStores(s) <= s.sqOcc && RingShape(Retire(s))
    ensures var s' := Retire(s);
            && s'.lq == s.lq && s'.sta == s.sta && s'.trace == s.trace && s'.finished == s.finished
            && s'.retired == s.retired + 1 && s'.occ == s.occ - 1 && |s'.rob| == |s.rob| && s'.lqOcc == s.lqOcc
            && Shape(s')
            && (forall c: nat :: Live(s', c) == (Live(s, c) && c != s.head))
            && (forall c: nat :: Live(s', c) ==> s'.rob[c] == s.rob[c])
  {
    hide Retire, Wrap, AgeFrom, EntryShape;
    RetireWindow(s);
    var s' := Retire(s);
    forall c: nat | Live(s', c)
      ensures EntryShape(s'.rob[c]) && s'.rob[c].id == s'.retired + Age(s', c) && s'.rob[c].instr == s'.trace[s'.retired + Age(s', c)]
    {
      assert Live(s, c) && EntryShape(s.rob[c]);
    }
  }

  lemma RetireFrame(s: State)
    requires Shape(s) && StoreOrder(s) && Placement(s) && Counts(s) && MayRetire(s)
    ensures HeadStores(s) <= s.sqOcc
    ensures var s', n := Retire(s), HeadStores(s);
            && Shape(s') && RetiredStores(s, s', n) && Base(s') == Base(s) + n
            && s'.lq == s.lq && s'.sta == s.sta && s'.trace == s.trace && s'.finished == s.finished
            && s'.retired == s.retired + 1 && s'.occ == s.occ - 1 && |s'.rob| == |s.rob| && s'.lqOcc == s.lqOcc
            && (forall c: nat :: Live(s', c) == (Live(s, c) && c != s.head))
            && (forall c: nat :: Live(s', c) ==> s'.rob[c] == s.rob[c])
  {
    HeadStoresFirst(s);
    RetireStores(s);
    RetireRing(s);
  }

  lemma RetireOrderAt(s: State, s': State, n: nat, m: nat)
    requires RingShape(s) && StoreOrder(s) && RingShape(s') && n <= s.sqOcc && RetiredStores(s, s', n) && m < s'.sqOcc
    requires s'.trace == s.trace && Base(s') == Base(s) + n
    ensures Base(s') + m < |AllStores(s.trace, |s.trace|)|
    ensures StoreId(s'.sq[SqSlot(s', m)].instrId, s'.sq[SqSlot(s', m)].dataIndex) == AllStores(s.trace, |s.trace|)[Base(s') + m]
  {
    RetiredSlot(s, s', n, m);
  }

  lemma RetireKeepsOrder(s: State)
    requires Shape(s) && StoreOrder(s) && Placement(s) && Counts(s) && MayRetire(s)
    ensures HeadStores(s) <= s.sqOcc && Shape(Retire(s)) && StoreOrder(Retire(s))
  {
    hide Counts, Placement, Retire, AgeFrom;
    RetireFrame(s);
    var s', n := Retire(s), HeadStores(s);
    forall m: nat | m < s'.sqOcc
      ensures StoreId(s'.sq[SqSlot(s', m)].instrId, s'.sq[SqSlot(s', m)].dataIndex) == AllStores(s.trace, |s.trace|)[Base(s') + m]
    {
      RetireOrderAt(s, s', n, m);
    }
  }

  /** Slot `m` of the store queue after `n` stores have left it. */
  lemma RetiredSlot(s: State, s': State, n: nat, m: nat)
    requires RingShape(s) && RingShape(s') && n <= s.sqOcc && m < s'.sqOcc && RetiredStores(s, s', n)
    ensures SqSlot(s', m) == SqSlot(s, m + n) && s'.sq[SqSlot(s', m)] == s.sq[SqSlot(s, m + n)]
  {
    assert AgeFrom(s.sqHead, |s.sq|, SqSlot(s, m + n)) == m + n;
  }

  lemma RetireKeepsPlacement(s: State)
    requires Shape(s) && StoreOrder(s) && Placement(s) && Counts(s) && MayRetire(s)
    ensures HeadStores(s) <= s.sqOcc && Shape(Retire(s)) && Placement(Retire(s))
  {
    RetireFrame(s);
    var s', n := Retire(s), HeadStores(s);
    forall c: nat, i: nat | Live(s', c) && i < |s'.rob[c].instr.stores| ensures StorePlaced(s', c, i) {
      RetirePlaced(s, c, i);
    }
  }

  /** Only later stores stay, and they keep their slots. */
  lemma StaysPlaced(s: State, s': State, c: nat, i: nat)
    requires Shape(s) && Placement(s) && Shape(s') && Live(s, c) && Live(s', c) && s'.rob[c] == s.rob[c]
    requires i < |s.rob[c].instr.stores| && s'.trace == s.trace
    requires Base(s') >= Base(s) && Base(s') - Base(s) <= s.sqOcc && RetiredStores(s, s', Base(s') - Base(s))
    requires Base(s') <= Rank(s.trace, s.rob[c].id, i)
    ensures StorePlaced(s', c, i)
  {
    hide SqSlot, AgeFrom;
    assert StorePlaced(s, c, i);
    var n := Base(s') - Base(s);
    var r := Rank(s.trace, s.rob[c].id, i);
    if s.rob[c].instr.stores[i] != 0 && r < Base(s) + s.sqOcc {
      var m: nat := r - Base(s');
      RetiredSlot(s, s', n, m);
    }
  }

  lemma RetirePlaced(s: State, c: nat, i: nat)
    requires Shape(s) && StoreOrder(s) && Placement(s) && Counts(s) && MayRetire(s)
    requires Live(s, c) && c != s.head && i < |s.rob[c].instr.stores|
    ensures HeadStores(s) <= s.sqOcc && Shape(Retire(s)) && Live(Retire(s), c) && Retire(s).rob[c] == s.rob[c]
    ensures StorePlaced(Retire(s), c, i)
  {
    RetireFrame(s);
    assert Live(Retire(s), c);
    AllStoresPrefix(s.trace, s.retired + 1, s.rob[c].id);
    StaysPlaced(s, Retire(s), c, i);
  }

  /** Retirement changes nothing about what is pending in the entries that stay. */
  lemma RetirePending(s: State, c: nat)
    requires Shape(s) && StoreOrder(s) && Placement(s) && Counts(s) && MayRetire(s)
    requires Live(s, c) && c != s.head
    ensures HeadStores(s) <= s.sqOcc && Live(Retire(s), c) && Retire(s).rob[c] == s.rob[c]
    ensures forall j: nat :: LoadPending(Retire(s), c, j) == LoadPending(s, c, j)
    ensures forall i: nat :: StorePending(Retire(s), c, i) == StorePending(s, c, i)
  {
    RetireFrame(s);
    var s', n := Retire(s), HeadStores(s);
    assert Live(s', c);
    forall i: nat ensures StorePending(s', c, i) == StorePending(s, c, i) {
      if i < |s.rob[c].instr.stores| && i < |s.rob[c].sqIndex| && s.rob[c].sqIndex[i].Some? {
        RetirePlaced(s, c, i);
        assert StorePlaced(s, c, i);
      }
    }
  }

  lemma RetireKeepsCounts(s: State)
    requires Shape(s) && StoreOrder(s) && Placement(s) && Counts(s) && MayRetire(s)
    ensures HeadStores(s) <= s.sqOcc && Counts(Retire(s))
  {
    RetireFrame(s);
    var s' := Retire(s);
    forall c: nat | Live(s', c) ensures Outstanding(s', c) {
      RetirePending(s, c);
      assert Outstanding(s, c);
      SamePendingLoads(s, s', c, NUM_INSTR_SOURCES);
      SamePendingStores(s, s', c, |s.rob[c].instr.stores|);
    }
  }

  lemma RetireFinished(s: State, y: LoadId)
    requires Shape(s) && StoreOrder(s) && Placement(s) && Counts(s) && MayRetire(s)
    ensures HeadStores(s) <= s.sqOcc && IsFinished(Retire(s), y) == IsFinished(s, y)
  {
    hide Counts, Placement, StoreOrder;
    RetireFrame(s);
    var s' := Retire(s);
    assert Live(s, s.head) && s.rob[s.head].id == s.retired && EntryShape(s.rob[s.head]);
    NothingPending(s, s.head);
    if IsFinished(s, y) && y.id > s.retired {
      var c: nat :| c < |s.rob| && Live(s, c) && s.rob[c].id == y.id && !LoadPending(s, c, y.index);
      RetirePending(s, c);
      assert Live(s', c) && s'.rob[c].id == y.id && !LoadPending(s', c, y.index);
    }
    if IsFinished(s', y) && y.id > s.retired {
      var c: nat :| c < |s'.rob| && Live(s', c) && s'.rob[c].id == y.id && !LoadPending(s', c, y.index);
      RetirePending(s, c);
      assert Live(s, c) && s.rob[c].id == y.id && !LoadPending(s, c, y.index);
    }
    if y.id == s.retired && y.index < |s.trace[y.id].loads| {
      assert Live(s, s.head) && !LoadPending(s, s.head, y.index);
    }
  }

  lemma RetireKeepsFinishes(s: State)
    requires Shape(s) && StoreOrder(s) && Placement(s) && Counts(s) && Finishes(s) && MayRetire(s)
    ensures HeadStores(s) <= s.sqOcc && Finishes(Retire(s))
  {
    RetireFrame(s);
    forall y: LoadId ensures IsFinished(Retire(s), y) == IsFinished(s, y) { RetireFinished(s, y); }
  }

  lemma RetireKeepsLoads(s: State)
    requires Shape(s) && StoreOrder(s) && Placement(s) && Counts(s) && Loads(s) && MayRetire(s)
    ensures HeadStores(s) <= s.sqOcc && Loads(Retire(s))
  {
    RetireFrame(s);
    var s' := Retire(s);
    assert Live(s, s.head);
    NothingPending(s, s.head);
    forall l: nat | LqLive(s', l) ensures OwnedLoad(s', l) {
      OwnerPending(s, l);
      assert s.lq[l].robIndex != s.head;
      assert Live(s', s.lq[l].robIndex);
    }
    forall l: nat | l < |s'.lq| && !LqLive(s', l) ensures s'.lq[l] == EMPTY_LQ { assert !LqLive(s, l); }
    forall c: nat, j: nat | Live(s', c) && j < |s'.rob[c].sourceAdded| && s'.rob[c].sourceAdded[j] ensures LoadAdded(s', c, j) {
      assert Live(s, c) && s'.rob[c] == s.rob[c] && LoadAdded(s, c, j);
    }
  }

  lemma RetireKeepsQueues(s: State)
    requires Shape(s) && StoreOrder(s) && Placement(s) && Counts(s) && StoreQueues(s) && LoadQueues(s) && MayRetire(s)
    ensures HeadStores(s) <= s.sqOcc && StoreQueues(Retire(s)) && LoadQueues(Retire(s))
  {
    RetireFrame(s);
    HeadStoresFirst(s);
    var s', n := Retire(s), HeadStores(s);
    ReleaseStoresFrame(s, n);
    forall q: nat | SqLive(s, q) && !SqLive(s', q) ensures s.sq[q].fetched == Completed {
      var m := AgeFrom(s.sqHead, |s.sq|, q);
      assert SqSlot(s, m) == q && m < n;
    }
    forall q: nat ensures InRts0(s', q) == InRts0(s, q) && InTlbStore(s', q) == InTlbStore(s, q) && InRts1(s', q) == InRts1(s, q) {}
    KeepsLoadQueues(s, s');
  }

  lemma RetireKeepsInv(s: State)
    requires Inv(s) && MayRetire(s)
    ensures HeadStores(s) <= s.sqOcc && Inv(Retire(s))
  {
    RetireKeepsOrder(s);
    RetireKeepsPlacement(s);
    RetireKeepsCounts(s);
    RetireKeepsFinishes(s);
    RetireKeepsLoads(s);
    RetireKeepsQueues(s);
  }
}
