/** Which parts of the load/store queue each invariant reads, and the facts shared by all steps. */
module LsqFrames {
  import opened Common
  import opened LoadStoreQueue

  /** Same ring of instructions, with the same operands. */
  ghost predicate SameWindow(s: State, s': State) {
    && |s'.rob| == |s.rob| && s'.head == s.head && s'.tail == s.tail && s'.occ == s.occ
    && s'.trace == s.trace && s'.retired == s.retired
    && (forall c: nat :: c < |s.rob| ==> s'.rob[c].id == s.rob[c].id && s'.rob[c].instr == s.rob[c].instr)
  }

  /** Nothing about where stores are placed differs. */
  ghost predicate SameStoreSide(s: State, s': State) {
    && SameWindow(s, s')
    && |s'.sq| == |s.sq| && s'.sqHead == s.sqHead && s'.sqTail == s.sqTail && s'.sqOcc == s.sqOcc && s'.sta == s.sta
    && (forall c: nat :: c < |s.rob| ==> s'.rob[c].destinationAdded == s.rob[c].destinationAdded && s'.rob[c].sqIndex == s.rob[c].sqIndex)
    && (forall q: nat :: q < |s.sq| ==> SameStore(s.sq[q], s'.sq[q]))
    && (forall q: nat :: q < |s.sq| && !SqLive(s, q) ==> s'.sq[q] == s.sq[q])
  }

  ghost predicate SameStore(a: SqEntry, b: SqEntry) {
    b.address == a.address && b.instrId == a.instrId && b.robIndex == a.robIndex && b.dataIndex == a.dataIndex
  }

  lemma KeepsStoreOrder(s: State, s': State)
    requires Shape(s) && Shape(s') && StoreOrder(s) && SameStoreSide(s, s')
    ensures StoreOrder(s')
  {
    forall m: nat | m < s'.sqOcc
      ensures StoreId(s'.sq[SqSlot(s', m)].instrId, s'.sq[SqSlot(s', m)].dataIndex) == AllStores(s'.trace, |s'.trace|)[Base(s') + m]
    {
      assert SqSlot(s', m) == SqSlot(s, m);
      assert SameStore(s.sq[SqSlot(s, m)], s'.sq[SqSlot(s, m)]);
    }
    forall q: nat | q < |s'.sq| && !SqLive(s', q) ensures s'.sq[q] == EMPTY_SQ {
      assert !SqLive(s, q);
    }
  }

  lemma KeepsPlacement(s: State, s': State)
    requires Shape(s) && Shape(s') && StoreOrder(s) && Placement(s) && SameStoreSide(s, s')
    ensures Placement(s')
  {
    forall c: nat, i: nat | Live(s', c) && i < |s'.rob[c].instr.stores|
      ensures StorePlaced(s', c, i)
    {
      StaysInPlace(s, s', c, i);
    }
  }

  lemma StaysInPlace(s: State, s': State, c: nat, i: nat)
    requires Shape(s) && Shape(s') && Placement(s) && SameStoreSide(s, s')
    requires Live(s', c) && i < |s'.rob[c].instr.stores|
    ensures StorePlaced(s', c, i)
  {
    assert Live(s, c) && s'.rob[c].instr == s.rob[c].instr && StorePlaced(s, c, i);
    var r := Rank(s.trace, s.rob[c].id, i);
    if Base(s) <= r < Base(s) + s.sqOcc {
      assert SameStore(s.sq[SqSlot(s, r - Base(s))], s'.sq[SqSlot(s, r - Base(s))]);
    }
  }

  /** Nothing about which load is in which slot differs. */
  ghost predicate SameLoadSide(s: State, s': State) {
    && SameWindow(s, s')
    && |s'.lq| == |s.lq| && s'.lqOcc == s.lqOcc
    && (forall c: nat :: c < |s.rob| ==> s'.rob[c].sourceAdded == s.rob[c].sourceAdded && s'.rob[c].lqIndex == s.rob[c].lqIndex)
    && (forall l: nat :: l < |s.lq| ==> SameLoad(s.lq[l], s'.lq[l]))
    && (forall l: nat :: l < |s.lq| && !LqLive(s, l) ==> s'.lq[l] == s.lq[l])
  }

  ghost predicate SameLoad(a: LqEntry, b: LqEntry) {
    b.address == a.address && b.instrId == a.instrId && b.robIndex == a.robIndex && b.dataIndex == a.dataIndex
  }

  lemma {:induction false} SameOccupied(a: seq<LqEntry>, b: seq<LqEntry>)
    requires |a| == |b| && forall l :: 0 <= l < |a| ==> (a[l].address == 0 <==> b[l].address == 0)
    ensures Occupied(a) == Occupied(b)
  {
    if |a| > 0 { SameOccupied(a[..|a| - 1], b[..|b| - 1]); }
  }

  lemma {:induction false} OccupiedUpdate(a: seq<LqEntry>, l: nat, x: LqEntry)
    requires l < |a|
    ensures Occupied(a[l := x]) + (if a[l].address != 0 then 1 else 0) == Occupied(a) + (if x.address != 0 then 1 else 0)
  {
    var n := |a| - 1;
    if l < n {
      OccupiedUpdate(a[..n], l, x);
      assert a[l := x][..n] == a[..n][l := x];
    } else {
      assert a[l := x][..n] == a[..n];
    }
  }

  lemma KeepsLoads(s: State, s': State)
    requires Shape(s) && Shape(s') && Loads(s) && SameLoadSide(s, s')
    ensures Loads(s')
  {
    forall l: nat | LqLive(s', l) ensures OwnedLoad(s', l) {
      assert SameLoad(s.lq[l], s'.lq[l]);
      assert LqLive(s, l) && OwnedLoad(s, l);
      var c := s.lq[l].robIndex;
      assert Live(s', c) && s'.rob[c].instr == s.rob[c].instr;
    }
    forall l: nat | l < |s'.lq| && !LqLive(s', l) ensures s'.lq[l] == EMPTY_LQ {
      assert SameLoad(s.lq[l], s'.lq[l]);
      assert !LqLive(s, l);
    }
    forall l: nat | l < |s.lq| ensures s.lq[l].address == 0 <==> s'.lq[l].address == 0 {
      assert SameLoad(s.lq[l], s'.lq[l]);
    }
    SameOccupied(s.lq, s'.lq);
    forall c: nat, j: nat | Live(s', c) && j < |s'.rob[c].sourceAdded| && s'.rob[c].sourceAdded[j] ensures LoadAdded(s', c, j) {
      assert Live(s, c) && LoadAdded(s, c, j);
      assert s'.rob[c].instr == s.rob[c].instr;
    }
  }

  // ----- counting

  lemma {:induction false} SamePendingLoads(s: State, s': State, c: nat, n: nat)
    requires c < |s.rob| && c < |s'.rob|
    requires forall j: nat :: j < n ==> LoadPending(s', c, j) == LoadPending(s, c, j)
    ensures PendingLoads(s', c, n) == PendingLoads(s, c, n)
  {
    if n > 0 { SamePendingLoads(s, s', c, n - 1); }
  }

  lemma {:induction false} SamePendingStores(s: State, s': State, c: nat, n: nat)
    requires c < |s.rob| && c < |s'.rob|
    requires forall i: nat :: i < n ==> StorePending(s', c, i) == StorePending(s, c, i)
    ensures PendingStores(s', c, n) == PendingStores(s, c, n)
  {
    if n > 0 { SamePendingStores(s, s', c, n - 1); }
  }

  /** One load fewer is pending. */
  lemma {:induction false} FewerPendingLoads(s: State, s': State, c: nat, j: nat, n: nat)
    requires c < |s.rob| && c < |s'.rob| && j < n
    requires LoadPending(s, c, j) && !LoadPending(s', c, j)
    requires forall k: nat :: k < n && k != j ==> LoadPending(s', c, k) == LoadPending(s, c, k)
    ensures PendingLoads(s', c, n) + 1 == PendingLoads(s, c, n)
  {
    if j == n - 1 { SamePendingLoads(s, s', c, n - 1); } else { FewerPendingLoads(s, s', c, j, n - 1); }
  }

  lemma {:induction false} FewerPendingStores(s: State, s': State, c: nat, i: nat, n: nat)
    requires c < |s.rob| && c < |s'.rob| && i < n
    requires StorePending(s, c, i) && !StorePending(s', c, i)
    requires forall k: nat :: k < n && k != i ==> StorePending(s', c, k) == StorePending(s, c, k)
    ensures PendingStores(s', c, n) + 1 == PendingStores(s, c, n)
  {
    if i == n - 1 { SamePendingStores(s, s', c, n - 1); } else { FewerPendingStores(s, s', c, i, n - 1); }
  }

  lemma {:induction false} SomePendingLoad(s: State, c: nat, j: nat, n: nat)
    requires c < |s.rob| && j < n && LoadPending(s, c, j)
    ensures PendingLoads(s, c, n) > 0
  {
    if j < n - 1 { SomePendingLoad(s, c, j, n - 1); }
  }

  lemma {:induction false} SomePendingStore(s: State, c: nat, i: nat, n: nat)
    requires c < |s.rob| && i < n && StorePending(s, c, i)
    ensures PendingStores(s, c, n) > 0
  {
    if i < n - 1 { SomePendingStore(s, c, i, n - 1); }
  }

  /** A load in a queue slot is pending, and its slot names its operand. */
  lemma OwnerHolds(s: State, l: nat)
    requires LqLive(s, l) && OwnedLoad(s, l)
    ensures Holds(s, s.lq[l].robIndex, s.lq[l].dataIndex)
  {
  }

  lemma OwnerPending(s: State, l: nat)
    requires Shape(s) && Loads(s) && LqLive(s, l)
    ensures OwnedLoad(s, l) && LoadPending(s, s.lq[l].robIndex, s.lq[l].dataIndex)
  {
    assert OwnedLoad(s, l);
  }

  /** Pending is decided by the load side for loads and by the store side, plus the fetched flags, for stores. */
  lemma SameLoadsPending(s: State, s': State)
    requires SameLoadSide(s, s')
    ensures forall c: nat, j: nat | c < |s.rob| :: LoadPending(s', c, j) == LoadPending(s, c, j)
  {
    forall c: nat, j: nat | c < |s.rob| ensures LoadPending(s', c, j) == LoadPending(s, c, j) {
      assert s'.rob[c].instr == s.rob[c].instr && s'.rob[c].sourceAdded == s.rob[c].sourceAdded && s'.rob[c].lqIndex == s.rob[c].lqIndex;
      if j < |s.rob[c].lqIndex| && s.rob[c].lqIndex[j].Some? && s.rob[c].lqIndex[j].value < |s.lq| {
        assert SameLoad(s.lq[s.rob[c].lqIndex[j].value], s'.lq[s.rob[c].lqIndex[j].value]);
      }
    }
  }

  lemma SameStoresPending(s: State, s': State)
    requires SameStoreSide(s, s')
    requires forall q: nat :: q < |s.sq| ==> (s'.sq[q].fetched == Completed <==> s.sq[q].fetched == Completed)
    ensures forall c: nat, i: nat | c < |s.rob| :: StorePending(s', c, i) == StorePending(s, c, i)
  {
    forall c: nat, i: nat | c < |s.rob| ensures StorePending(s', c, i) == StorePending(s, c, i) {
      assert s'.rob[c].instr == s.rob[c].instr && s'.rob[c].sqIndex == s.rob[c].sqIndex;
    }
  }

  ghost predicate SamePending(s: State, s': State) {
    && SameWindow(s, s')
    && (forall c: nat, j: nat | c < |s.rob| :: LoadPending(s', c, j) == LoadPending(s, c, j))
    && (forall c: nat, i: nat | c < |s.rob| :: StorePending(s', c, i) == StorePending(s, c, i))
  }

  lemma KeepsCounts(s: State, s': State)
    requires SamePending(s, s') && Counts(s)
    requires forall c: nat | Live(s, c) :: && s'.rob[c].numMemOps == s.rob[c].numMemOps
                                           && (s'.rob[c].executed == Completed ==> s.rob[c].executed == Completed || s.rob[c].numMemOps == 0)
    ensures Counts(s')
  {
    forall c: nat | Live(s', c) ensures Outstanding(s', c) {
      assert Live(s, c) && Outstanding(s, c) && s'.rob[c].instr == s.rob[c].instr;
      SamePendingLoads(s, s', c, NUM_INSTR_SOURCES);
      SamePendingStores(s, s', c, |s.rob[c].instr.stores|);
    }
  }

  lemma KeepsFinishes(s: State, s': State)
    requires SamePending(s, s') && Finishes(s) && s'.finished == s.finished
    ensures Finishes(s')
  {
    forall x: LoadId ensures IsFinished(s', x) == IsFinished(s, x) {
      if c: nat :| c < |s.rob| && Live(s, c) && s.rob[c].id == x.id && !LoadPending(s, c, x.index) {
        assert Live(s', c) && s'.rob[c].id == x.id && !LoadPending(s', c, x.index);
      }
      if c: nat :| c < |s.rob| && Live(s', c) && s'.rob[c].id == x.id && !LoadPending(s', c, x.index) {
        assert Live(s, c) && s.rob[c].id == x.id && !LoadPending(s, c, x.index);
      }
    }
  }

  lemma KeepsShape(s: State, s': State)
    requires Shape(s) && SameWindow(s, s') && RingShape(s')
    requires forall c: nat :: Live(s, c) ==> EntryShape(s'.rob[c])
    requires forall c: nat :: c < |s.rob| && !Live(s, c) ==> s'.rob[c] == s.rob[c]
    ensures Shape(s')
  {
  }

  /** Live entries have different numbers. */
  lemma SameId(s: State, c: nat, d: nat)
    requires Shape(s) && Live(s, c) && Live(s, d) && s.rob[c].id == s.rob[d].id
    ensures c == d
  {
  }

  lemma HeadIsFirst(s: State)
    requires Shape(s) && s.occ > 0
    ensures Live(s, s.head) && s.rob[s.head].id == s.retired
  {
  }
}
