/** add_load_queue keeps the invariants of the load/store queue. */
module LsqLoads {
  import opened Common
  import opened LoadStoreQueue
  import opened LsqFrames
  import opened LsqFinish

  /** Operand `j` of slot `c` is a load that is not in the queue yet, and there is room for it. */
  ghost predicate MayAddLoad(s: State, c: nat, j: nat) {
    && Live(s, c) && EntryShape(s.rob[c]) && j < NUM_INSTR_SOURCES
    && s.rob[c].instr.loads[j] != 0 && !s.rob[c].sourceAdded[j]
    && s.lqOcc < |s.lq|
  }

  lemma {:induction false} FreeFromFinds(lq: seq<LqEntry>, l: nat)
    requires l <= |lq|
    ensures l <= FreeFrom(lq, l) <= |lq|
    ensures FreeFrom(lq, l) < |lq| ==> lq[FreeFrom(lq, l)].address == 0
    ensures forall k :: l <= k < FreeFrom(lq, l) ==> lq[k].address != 0
    decreases |lq| - l
  {
    if l < |lq| && lq[l].address != 0 { FreeFromFinds(lq, l + 1); }
  }

  lemma {:induction false} FullOccupied(lq: seq<LqEntry>)
    requires forall k :: 0 <= k < |lq| ==> lq[k].address != 0
    ensures Occupied(lq) == |lq|
  {
    if |lq| > 0 { FullOccupied(lq[..|lq| - 1]); }
  }

  /** The check for "no empty slot in the load queue" never fires. */
  lemma FreeSlotExists(s: State)
    requires Loads(s) && s.lqOcc < |s.lq|
    ensures FreeFrom(s.lq, 0) < |s.lq| && !LqLive(s, FreeFrom(s.lq, 0)) && s.lq[FreeFrom(s.lq, 0)] == EMPTY_LQ
  {
    FreeFromFinds(s.lq, 0);
    if FreeFrom(s.lq, 0) == |s.lq| { FullOccupied(s.lq); }
  }

  /** What YoungestStore answers: the youngest older entry that stores to the address. */
  lemma {:induction false} YoungestStoreFound(s: State, age: nat, address: nat)
    requires Shape(s) && age <= s.occ
    ensures var p := YoungestStore(s, age, address);
            && (p.Some? ==> Live(s, p.value) && Age(s, p.value) < age && address in s.rob[p.value].instr.stores)
            && (forall q: nat | Live(s, q) && Age(s, q) < age && address in s.rob[q].instr.stores
                  :: p.Some? && Age(s, q) <= Age(s, p.value))
    decreases age
  {
    if age > 0 {
      var k := Slot(s, age - 1);
      assert Live(s, k) && Age(s, k) == age - 1;
      assert forall q: nat :: Live(s, q) && Age(s, q) == age - 1 ==> q == k;
      YoungestStoreFound(s, age - 1, address);
    }
  }

  lemma {:induction false} ForwarderFound(sq: seq<SqEntry>, q: nat, address: nat, producer: Option<nat>)
    requires q <= |sq|
    ensures var f := ForwarderFrom(sq, q, address, producer);
            && q <= f <= |sq|
            && (f < |sq| ==> sq[f].address == address && producer == Some(sq[f].instrId))
            && (forall k :: q <= k < f ==> !(sq[k].address == address && producer == Some(sq[k].instrId)))
    decreases |sq| - q
  {
    if q < |sq| && !(sq[q].address == address && producer == Some(sq[q].instrId)) { ForwarderFound(sq, q + 1, address, producer); }
  }

  /** What entering a load into slot `l` may do to an entry; `own` is the entry of the load. */
  ghost predicate EnteredEntry(e: RobEntry, e': RobEntry, own: bool, j: nat, l: nat)
    requires j < |e.sourceAdded| && j < |e.lqIndex|
  {
    e' == e.(sourceAdded := if own then e.sourceAdded[j := true] else e.sourceAdded,
             lqIndex := if own then e.lqIndex[j := Some(l)] else e.lqIndex,
             isProducer := e'.isProducer, dependents := e'.dependents)
  }

  /** `s'` is `s` with load `j` of slot `c` in slot `l`, up to the records of its producer. */
  ghost predicate Entered(s: State, s': State, c: nat, j: nat, l: nat)
    requires Shape(s) && MayAddLoad(s, c, j)
  {
    && l < |s.lq| && |s'.lq| == |s.lq| && s'.lqOcc == s.lqOcc + 1
    && |s'.rob| == |s.rob|
    && s' == s.(rob := s'.rob, lq := s'.lq, lqOcc := s'.lqOcc)
    && (forall k: nat :: k < |s.lq| && k != l ==> s'.lq[k] == s.lq[k])
    && s'.lq[l].address == s.rob[c].instr.loads[j] && s'.lq[l].instrId == s.rob[c].id
    && s'.lq[l].robIndex == c && s'.lq[l].dataIndex == j && s'.lq[l].fetched == Idle
    && s'.lq[l].translated == (if s'.lq[l].producer.None? then Idle else Inflight)
    && (forall d: nat | Live(s, d) :: EnteredEntry(s.rob[d], s'.rob[d], d == c, j, l))
    && (forall d: nat | d < |s.rob| && !Live(s, d) :: s'.rob[d] == s.rob[d])
  }

  lemma EnterIs(s: State, c: nat, j: nat, l: nat)
    requires Shape(s) && MayAddLoad(s, c, j) && l < |s.lq|
    ensures Entered(s, EnterLoad(s, c, j, l), c, j, l)
  {
    YoungestStoreFound(s, Age(s, c), s.rob[c].instr.loads[j]);
    var s' := EnterLoad(s, c, j, l);
    forall d: nat | Live(s, d) ensures EnteredEntry(s.rob[d], s'.rob[d], d == c, j, l) { assert EntryShape(s.rob[d]); }
  }

  lemma EnterFrame(s: State, s': State, c: nat, j: nat, l: nat)
    requires Shape(s) && MayAddLoad(s, c, j) && Entered(s, s', c, j, l)
    ensures Shape(s') && SameStoreSide(s, s')
    ensures forall d: nat :: Live(s', d) == Live(s, d)
  {
    forall d: nat | Live(s, d) ensures EntryShape(s'.rob[d]) {
      assert EntryShape(s.rob[d]) && EnteredEntry(s.rob[d], s'.rob[d], d == c, j, l);
    }
    forall d: nat | d < |s.rob|
      ensures s'.rob[d].id == s.rob[d].id && s'.rob[d].instr == s.rob[d].instr
      ensures s'.rob[d].destinationAdded == s.rob[d].destinationAdded && s'.rob[d].sqIndex == s.rob[d].sqIndex
    {
      if Live(s, d) { assert EnteredEntry(s.rob[d], s'.rob[d], d == c, j, l); }
    }
    KeepsShape(s, s');
  }

  lemma EnterKeepsLoads(s: State, s': State, c: nat, j: nat, l: nat)
    requires Shape(s) && Loads(s) && MayAddLoad(s, c, j) && Entered(s, s', c, j, l) && !LqLive(s, l)
    requires Shape(s')
    ensures Loads(s')
  {
    assert forall d: nat :: Live(s', d) == Live(s, d);
    forall k: nat | LqLive(s', k) ensures OwnedLoad(s', k) {
      EnteredOwner(s, s', c, j, l, k);
    }
    OccupiedUpdate(s.lq, l, s'.lq[l]);
    assert s'.lq == s.lq[l := s'.lq[l]];
    forall d: nat, i: nat | Live(s', d) && i < |s'.rob[d].sourceAdded| && s'.rob[d].sourceAdded[i] ensures LoadAdded(s', d, i) {
      assert EnteredEntry(s.rob[d], s'.rob[d], d == c, j, l);
      if !(d == c && i == j) { assert LoadAdded(s, d, i); }
    }
  }

  lemma EnteredOwner(s: State, s': State, c: nat, j: nat, l: nat, k: nat)
    requires Shape(s) && Loads(s) && MayAddLoad(s, c, j) && Entered(s, s', c, j, l) && !LqLive(s, l)
    requires Shape(s') && LqLive(s', k)
    ensures OwnedLoad(s', k)
  {
    if k == l {
      assert EnteredEntry(s.rob[c], s'.rob[c], true, j, l);
      assert Live(s', c) && EntryShape(s'.rob[c]);
    } else {
      assert OwnedLoad(s, k);
      var d := s.lq[k].robIndex;
      assert EnteredEntry(s.rob[d], s'.rob[d], d == c, j, l);
      assert Live(s', d) && EntryShape(s'.rob[d]);
    }
  }

  lemma EnterPending(s: State, s': State, c: nat, j: nat, l: nat, d: nat, i: nat)
    requires Shape(s) && MayAddLoad(s, c, j) && Entered(s, s', c, j, l) && !LqLive(s, l) && d < |s.rob|
    ensures LoadPending(s', d, i) == LoadPending(s, d, i)
  {
    if Live(s, d) {
      assert EnteredEntry(s.rob[d], s'.rob[d], d == c, j, l);
      if i < |s.rob[d].lqIndex| && s.rob[d].lqIndex[i].Some? && !(d == c && i == j) {
        assert s'.rob[d].lqIndex[i] == s.rob[d].lqIndex[i];
      }
    }
  }

  lemma EnterSamePending(s: State, s': State, c: nat, j: nat, l: nat)
    requires Shape(s) && MayAddLoad(s, c, j) && Entered(s, s', c, j, l) && !LqLive(s, l)
    ensures SamePending(s, s')
  {
    EnterFrame(s, s', c, j, l);
    SameStoresPending(s, s');
    forall d: nat, i: nat | d < |s.rob| ensures LoadPending(s', d, i) == LoadPending(s, d, i) {
      EnterPending(s, s', c, j, l, d, i);
    }
  }

  lemma EnterKeepsCounts(s: State, s': State, c: nat, j: nat, l: nat)
    requires Shape(s) && Counts(s) && Finishes(s) && MayAddLoad(s, c, j) && Entered(s, s', c, j, l) && !LqLive(s, l)
    ensures Counts(s') && Finishes(s')
  {
    EnterSamePending(s, s', c, j, l);
    forall d: nat | Live(s, d)
      ensures s'.rob[d].numMemOps == s.rob[d].numMemOps && s'.rob[d].executed == s.rob[d].executed
    {
      assert EnteredEntry(s.rob[d], s'.rob[d], d == c, j, l);
    }
    KeepsCounts(s, s');
    KeepsFinishes(s, s');
  }

  /** Everything but the load queues; those follow once the load has been put where it belongs. */
  lemma EnterKeepsMost(s: State, c: nat, j: nat, l: nat)
    requires Inv(s) && MayAddLoad(s, c, j) && l < |s.lq| && !LqLive(s, l)
    ensures var s' := EnterLoad(s, c, j, l);
            Shape(s') && StoreOrder(s') && Placement(s') && Loads(s') && Counts(s') && StoreQueues(s') && Finishes(s')
  {
    var s' := EnterLoad(s, c, j, l);
    EnterIs(s, c, j, l);
    EnterFrame(s, s', c, j, l);
    KeepsStoreOrder(s, s');
    KeepsPlacement(s, s');
    EnterKeepsLoads(s, s', c, j, l);
    EnterKeepsCounts(s, s', c, j, l);
    KeepsStoreQueues(s, s');
  }

  lemma KeepsStoreQueues(s: State, s': State)
    requires StoreQueues(s) && s'.sq == s.sq && s'.sqHead == s.sqHead && s'.sqOcc == s.sqOcc
    requires s'.rts0 == s.rts0 && s'.rts1 == s.rts1 && s'.tlbStores == s.tlbStores
    ensures StoreQueues(s')
  {
    assert forall q: nat :: SqLive(s', q) == SqLive(s, q);
  }

  lemma EnterQueues(s: State, c: nat, j: nat, l: nat)
    requires Shape(s) && LoadQueues(s) && MayAddLoad(s, c, j) && l < |s.lq| && !LqLive(s, l)
    ensures var s' := EnterLoad(s, c, j, l);
            if s'.lq[l].producer.Some? then LoadQueues(s') else LoadQueues(s'.(rtl0 := s'.rtl0 + [l]))
  {
    hide Wrap, AgeFrom;
    EnterIs(s, c, j, l);
    var m := EnterLoad(s, c, j, l);
    var s' := if m.lq[l].producer.Some? then m else m.(rtl0 := m.rtl0 + [l]);
    forall k: nat ensures InRtl0(s', k) == (InRtl0(s, k) || (k == l && m.lq[l].producer.None?))
                       && InTlb(s', k) == InTlb(s, k) && InRtl1(s', k) == InRtl1(s, k) && InCache(s', k) == InCache(s, k) {
      if k < |s.lq| && k != l { assert s'.lq[k] == s.lq[k]; }
    }
    assert !InRtl0(s, l);
  }

  lemma AddLoadKeepsInv(s: State, c: nat, j: nat)
    requires Inv(s) && MayAddLoad(s, c, j)
    ensures FreeFrom(s.lq, 0) < |s.lq| && Inv(AddLoad(s, c, j))
  {
    FreeSlotExists(s);
    var l := FreeFrom(s.lq, 0);
    var m := EnterLoad(s, c, j, l);
    EnterKeepsMost(s, c, j, l);
    EnterQueues(s, c, j, l);
    if CanForward(m, l) {
      ForwarderFound(m.sq, 0, m.lq[l].address, m.lq[l].producer);
      EnterIs(s, c, j, l);
      FinishKeepsInv(m, l, s.clock);
    } else if m.lq[l].producer.None? {
      OnlyQueuesDiffer(m, m.(rtl0 := m.rtl0 + [l]));
      KeepsStoreOrder(m, m.(rtl0 := m.rtl0 + [l]));
      KeepsPlacement(m, m.(rtl0 := m.rtl0 + [l]));
    }
  }
}
