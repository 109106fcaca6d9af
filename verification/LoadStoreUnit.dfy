/**
 The load/store unit as it runs: the buffer and both queues are arrays updated in place, the
 ready lists and the store order array are rings.  Every method is proved to take the unit
 exactly to the state that the pure step of the same name gives.
 */
module LoadStoreUnit {
  import opened Common
  import opened LoadStoreQueue
  import opened StoreRanks
  import opened LsqFinish
  import opened LsqLoads
  import opened LsqStores
  import opened LsqRing
  import opened LsqRetire
  import opened LsqForwarding
  import opened LsqForwardingSteps
  import opened LsqRuns

  // ----- facts for the loops

  /** Like YoungestStore, but looking no further back than age `low`. */
  function StoreFrom(s: State, age: nat, low: nat, address: nat): (r: Option<nat>)
    requires RingShape(s) && age <= |s.rob|
    ensures r.Some? ==> r.value < |s.rob|
    decreases age
  {
    if age <= low then None
    else if address in s.rob[Slot(s, age - 1)].instr.stores then Some(Slot(s, age - 1))
    else StoreFrom(s, age - 1, low, address)
  }

  lemma {:induction false} StoreFromBottom(s: State, age: nat, address: nat)
    requires RingShape(s) && age <= |s.rob|
    ensures StoreFrom(s, age, 0, address) == YoungestStore(s, age, address)
    decreases age
  {
    if age > 0 { StoreFromBottom(s, age - 1, address); }
  }

  lemma {:induction false} StoreOneLower(s: State, age: nat, low: nat, address: nat)
    requires RingShape(s) && low < age <= |s.rob|
    ensures StoreFrom(s, age, low, address)
            == if StoreFrom(s, age, low + 1, address).Some? then StoreFrom(s, age, low + 1, address)
               else if address in s.rob[Slot(s, low)].instr.stores then Some(Slot(s, low)) else None
    decreases age
  {
    if age > low + 1 { StoreOneLower(s, age - 1, low, address); }
    else { assert StoreFrom(s, age - 1, low, address) == None; }
  }

  /** The state with load `j` of slot `c` in slot `l`, before any producer is recorded. */
  function Placed(s: State, c: nat, j: nat, l: nat): State
    requires c < |s.rob| && l < |s.lq|
    requires j < |s.rob[c].instr.loads| && j < |s.rob[c].lqIndex| && j < |s.rob[c].sourceAdded|
  {
    var e := s.rob[c];
    s.(rob := s.rob[c := e.(lqIndex := e.lqIndex[j := Some(l)], sourceAdded := e.sourceAdded[j := true])],
       lq := s.lq[l := LqEntry(e.instr.loads[j], e.id, None, c, j, Idle, Idle, s.clock + s.schedulingLatency)],
       lqOcc := s.lqOcc + 1)
  }

  /** `s` after the producer `p`, if any, of load queue slot `l` has been recorded for consumer `c`. */
  function Recorded(s: State, c: nat, l: nat, p: Option<nat>): State
    requires l < |s.lq| && (p.Some? ==> p.value < |s.rob|)
  {
    match p
    case None => s
    case Some(k) =>
      s.(rob := s.rob[k := s.rob[k].(isProducer := true, dependents := s.rob[k].dependents + {c})],
         lq := s.lq[l := s.lq[l].(producer := Some(s.rob[k].id), translated := Inflight)])
  }

  lemma RecordedProducer(s: State, c: nat, l: nat, p: Option<nat>)
    requires l < |s.lq| && (p.Some? ==> p.value < |s.rob|) && s.lq[l].producer.None?
    ensures l < |Recorded(s, c, l, p).lq| && (Recorded(s, c, l, p).lq[l].producer.Some? <==> p.Some?)
    ensures p.None? ==> Recorded(s, c, l, p) == s
  {
  }

  lemma EnterInTwo(s: State, c: nat, j: nat, l: nat)
    requires Shape(s) && MayAddLoad(s, c, j) && l < |s.lq|
    ensures EnterLoad(s, c, j, l) == Recorded(Placed(s, c, j, l), c, l, YoungestStore(s, Age(s, c), s.rob[c].instr.loads[j]))
  {
    YoungestStoreFound(s, Age(s, c), s.rob[c].instr.loads[j]);
  }

  lemma {:induction false} StoreFromStays(s: State, age: nat, low: nat, at: nat, address: nat)
    requires RingShape(s) && age <= |s.rob| && low <= at && StoreFrom(s, age, at, address).Some?
    ensures StoreFrom(s, age, low, address) == StoreFrom(s, age, at, address)
    decreases age
  {
    if age > at { if address !in s.rob[Slot(s, age - 1)].instr.stores { StoreFromStays(s, age - 1, low, at, address); } }
  }

  /** Placing the load does not change the search for its producer. */
  lemma {:induction false} PlacedSearch(s: State, c: nat, j: nat, l: nat, age: nat, address: nat)
    requires RingShape(s) && c < |s.rob| && l < |s.lq| && age <= |s.rob|
    requires j < |s.rob[c].instr.loads| && j < |s.rob[c].lqIndex| && j < |s.rob[c].sourceAdded|
    ensures RingShape(Placed(s, c, j, l)) && YoungestStore(Placed(s, c, j, l), age, address) == YoungestStore(s, age, address)
    decreases age
  {
    if age > 0 { PlacedSearch(s, c, j, l, age - 1, address); }
  }

  lemma InvRing(s: State)
    requires Inv(s)
    ensures RingShape(s)
  {
  }

  lemma EnteredAddress(s: State, c: nat, j: nat, l: nat)
    requires Shape(s) && MayAddLoad(s, c, j) && l < |s.lq|
    ensures var m := EnterLoad(s, c, j, l); m.lq[l].address == s.rob[c].instr.loads[j] != 0 && m.lq[l].robIndex == c && m.clock == s.clock
  {
    EnterIs(s, c, j, l);
  }

  /** The ready-to-load ring has room for a load that has just been entered. */
  lemma LoadRing(s: State, c: nat, j: nat)
    requires Inv(s) && MayAddLoad(s, c, j) && FreeFrom(s.lq, 0) < |s.lq|
    ensures |s.rtl0| < |s.lq|
  {
    hide Shape, StoreOrder, Placement, Counts, StoreQueues, Finishes;
    FreeFromFinds(s.lq, 0);
    var l := FreeFrom(s.lq, 0);
    assert !InRtl0(s, l);
    forall x | x in s.rtl0 ensures x < |s.lq| { assert InRtl0(s, x); }
    RoomFor(s.rtl0, l, |s.lq|);
  }

  /** A ring of distinct slots below `n` that does not hold slot `x` has room for it. */
  lemma RoomFor(q: seq<nat>, x: nat, n: nat)
    requires Distinct(q) && x !in q && x < n && forall y :: y in q ==> y < n
    ensures |q| < n
  {
    DistinctBelow(q + [x], n);
  }

  /** No ring ever overflows: whatever is pushed is not in the ring yet. */
  lemma RingsHaveRoom(s: State)
    requires Inv(s)
    ensures s.sqOcc < |s.sq| ==> |s.rts0| < |s.sq|
    ensures forall q: nat :: q in s.tlbStores ==> |s.rts1| < |s.sq|
    ensures forall l: nat :: l in s.tlbLoads ==> |s.rtl1| < |s.lq|
  {
    forall y | y in s.rts0 ensures y < |s.sq| { assert InRts0(s, y); }
    forall y | y in s.rts1 ensures y < |s.sq| { assert InRts1(s, y); }
    forall y | y in s.rtl1 ensures y < |s.lq| { assert InRtl1(s, y); }
    if s.sqOcc < |s.sq| {
      TailIsFree(s);
      assert !InRts0(s, s.sqTail);
      RoomFor(s.rts0, s.sqTail, |s.sq|);
    }
    forall q: nat | q in s.tlbStores ensures |s.rts1| < |s.sq| {
      assert InTlbStore(s, q) && !InRts1(s, q);
      RoomFor(s.rts1, q, |s.sq|);
    }
    forall l: nat | l in s.tlbLoads ensures |s.rtl1| < |s.lq| {
      assert InTlb(s, l) && !InRtl1(s, l);
      RoomFor(s.rtl1, l, |s.lq|);
    }
  }

  lemma StoreSlotFree(s: State)
    requires Inv(s) && s.sqOcc < |s.sq|
    ensures s.sqTail < |s.sq| && s.sq[s.sqTail].address == 0
  {
    TailIsFree(s);
  }

  lemma SameEntryRefl(s: State, c: nat)
    requires Live(s, c)
    ensures SameEntry(s, s, c)
  {
  }

  lemma SameEntryTrans(s: State, m: State, s': State, c: nat)
    requires SameEntry(s, m, c) && SameEntry(m, s', c)
    ensures SameEntry(s, s', c)
  {
  }

  lemma SameLive(s: State, s': State, c: nat)
    requires SameEntry(s, s', c)
    ensures Live(s', c) && s'.rob[c].instr == s.rob[c].instr && |s'.rob| == |s.rob|
  {
  }

  lemma LoadsDone(s: State, c: nat)
    ensures AddLoads(s, c, NUM_INSTR_SOURCES) == s
  {
  }

  lemma AddLoadsOnce(s: State, c: nat, j: nat)
    requires j < NUM_INSTR_SOURCES
    ensures CanAddLoad(s, c, j) ==> RingShape(s) && c < |s.rob| && FreeFrom(s.lq, 0) < |s.lq|
                                    && j < |s.rob[c].instr.loads| && j < |s.rob[c].lqIndex| && j < |s.rob[c].sourceAdded|
    ensures AddLoads(s, c, j) == AddLoads(if CanAddLoad(s, c, j) then AddLoad(s, c, j) else s, c, j + 1)
  {
  }

  lemma CanAddIffMay(s: State, c: nat, j: nat)
    requires Inv(s) && Live(s, c) && j < NUM_INSTR_SOURCES
    ensures EntryShape(s.rob[c])
    ensures CanAddLoad(s, c, j) <==> s.rob[c].instr.loads[j] != 0 && !s.rob[c].sourceAdded[j] && s.lqOcc < |s.lq|
    ensures CanAddLoad(s, c, j) ==> MayAddLoad(s, c, j)
  {
    if s.lqOcc < |s.lq| { FreeSlotExists(s); }
  }

  lemma StoreIffMay(s: State, c: nat, i: nat)
    requires Inv(s) && Live(s, c) && i < |s.rob[c].instr.stores| && PlacedBefore(s, c, i)
    ensures EntryShape(s.rob[c])
    ensures CanAddStore(s, c, i) <==> && s.rob[c].instr.stores[i] != 0 && !s.rob[c].destinationAdded[i] && s.sqOcc < |s.sq|
                                      && |s.sta| > 0 && s.sta[0] == s.rob[c].id
    ensures CanAddStore(s, c, i) ==> MayAddStore(s, c, i)
    ensures !CanAddStore(s, c, i) ==> PlacedBefore(s, c, i + 1)
  {
    if !CanAddStore(s, c, i) { NoStoreStep(s, c, i); }
  }

  /** num_mem_ops of check_and_add_lsq: how many memory operands entry `e` has. */
  function CountOps(e: RobEntry): nat {
    NonZero(e.instr.loads, |e.instr.loads|) + NonZero(e.instr.stores, |e.instr.stores|)
  }

  function Marked(xs: seq<nat>, added: seq<bool>, n: nat): (r: nat)
    requires n <= |xs| && n <= |added|
    ensures r <= NonZero(xs, n)
  {
    if n == 0 then 0 else Marked(xs, added, n - 1) + (if xs[n - 1] != 0 && added[n - 1] then 1 else 0)
  }

  /** num_added of check_and_add_lsq. */
  function CountAdded(e: RobEntry): nat
    requires |e.sourceAdded| == |e.instr.loads| && |e.destinationAdded| == |e.instr.stores|
  {
    Marked(e.instr.loads, e.sourceAdded, |e.instr.loads|) + Marked(e.instr.stores, e.destinationAdded, |e.instr.stores|)
  }

  lemma {:induction false} AllMarked(xs: seq<nat>, added: seq<bool>, n: nat)
    requires n <= |xs| && n <= |added|
    ensures Marked(xs, added, n) == NonZero(xs, n) <==> forall i :: 0 <= i < n && xs[i] != 0 ==> added[i]
  {
    if n > 0 { AllMarked(xs, added, n - 1); }
  }

  /** num_added equals num_mem_ops exactly if every operand has been added. */
  lemma AddedCount(e: RobEntry)
    requires EntryShape(e)
    ensures CountOps(e) == CountAdded(e) <==> AllAdded(e)
  {
    AllMarked(e.instr.loads, e.sourceAdded, |e.instr.loads|);
    AllMarked(e.instr.stores, e.destinationAdded, |e.instr.stores|);
  }

  lemma {:induction false} MoreStores(xs: seq<nat>, i: nat)
    requires i <= |xs|
    ensures NonZero(xs, i) <= NonZero(xs, |xs|)
  {
    NonZeroGrows(xs, i, |xs|);
  }

  lemma FetchedLive(s: State, l: nat)
    requires Inv(s) && l in s.cacheLoads
    ensures LqLive(s, l) && s.lq[l].robIndex < |s.rob|
  {
    assert InCache(s, l) && OwnedLoad(s, l);
  }

  lemma FetchedFrame(s: State, l: nat, eventCycle: nat)
    requires Inv(s) && l in s.cacheLoads
    ensures LqLive(s, l) && s.lq[l].robIndex < |s.rob|
    ensures var s' := LoadFetched(s, l, eventCycle); s'.cacheLoads == s.cacheLoads - {l} && s'.clock == s.clock
  {
    FetchedLive(s, l);
  }

  /** All loads of `merged` from slot `l` on answered, lowest slot first. */
  function MergedFetched(s: State, merged: set<nat>, l: nat): State
    requires l <= |s.lq|
    decreases |s.lq| - l
  {
    if l == |s.lq| then s
    else if l in merged && s.lq[l].robIndex < |s.rob| then MergedFetched(LoadFetched(s, l, s.clock), merged, l + 1)
    else MergedFetched(s, merged, l + 1)
  }

  /** The store of operand `i` of the oldest entry is in the slot that is the head when it is released. */
  ghost predicate IndexOf(s: State, i: nat)
    requires RingShape(s) && i < |s.rob[s.head].instr.stores|
  {
    && i < |s.rob[s.head].sqIndex|
    && s.rob[s.head].sqIndex[i] == if s.rob[s.head].instr.stores[i] != 0
                                   then Some(Wrap(|s.sq|, s.sqHead + NonZero(s.rob[s.head].instr.stores, i))) else None
  }

  ghost predicate HeadIndexed(s: State)
    requires RingShape(s)
  {
    HeadStores(s) <= s.sqOcc && forall i: nat :: i < |s.rob[s.head].instr.stores| ==> IndexOf(s, i)
  }

  lemma ReleaseNone(s: State)
    requires RingShape(s)
    ensures ReleaseStores(s, 0) == s && NonZero(s.rob[s.head].instr.stores, 0) == 0 && Wrap(|s.sq|, s.sqHead) == s.sqHead
  {
  }

  /** Operand `i` of the head names the slot after those of its earlier stores, if it is a store. */
  lemma NextIndex(s: State, i: nat)
    requires RingShape(s) && HeadIndexed(s) && i < |s.rob[s.head].instr.stores|
    ensures i < |s.rob[s.head].sqIndex|
    ensures var n, slot := NonZero(s.rob[s.head].instr.stores, i), s.rob[s.head].sqIndex[i];
            && NonZero(s.rob[s.head].instr.stores, i + 1) == (if slot.Some? then n + 1 else n) <= s.sqOcc
            && (slot.Some? ==> slot.value == Wrap(|s.sq|, s.sqHead + n))
  {
    assert IndexOf(s, i);
    MoreStores(s.rob[s.head].instr.stores, i + 1);
  }

  lemma {:induction false} ReleaseOneMore(s: State, n: nat)
    requires RingShape(s) && n < s.sqOcc
    ensures var m := ReleaseStores(s, n); m.sqHead < |m.sq| && m.sqOcc > 0 && ReleaseStores(s, n + 1) == ReleaseStore(m)
    decreases n
  {
    if n > 0 { ReleaseOneMore(ReleaseStore(s), n - 1); }
  }

  lemma HeadIndices(s: State)
    requires Shape(s) && StoreOrder(s) && Placement(s) && Counts(s) && MayRetire(s) && HeadStores(s) <= s.sqOcc
    ensures HeadIndexed(s)
  {
    assert Live(s, s.head) && s.rob[s.head].id == s.retired && EntryShape(s.rob[s.head]);
    NothingPending(s, s.head);
    forall i: nat | i < |s.rob[s.head].instr.stores| ensures IndexOf(s, i) {
      assert StorePlaced(s, s.head, i) && !StorePending(s, s.head, i);
    }
  }

  lemma RetireFits(s: State)
    requires Inv(s) && MayRetire(s)
    ensures HeadStores(s) <= s.sqOcc && Inv(Retire(s)) && RingShape(s) && RingShape(Retire(s)) && HeadIndexed(s) && s.retired < |s.trace|
  {
    RetireKeepsInv(s);
    InvRing(Retire(s));
    InvParts(s);
    hide Inv;
    HeadIndices(s);
  }

  class Unit {
    const robSize: nat
    const lqSize: nat
    const sqSize: nat
    const schedulingLatency: nat
    const rob: array<RobEntry>
    const lq: array<LqEntry>
    const sq: array<SqEntry>
    var head: nat
    var tail: nat
    var occ: nat
    var lqOcc: int
    var sqHead: nat
    var sqTail: nat
    var sqOcc: nat
    var clock: nat
    var sta: seq<nat>     // the contents of the rings, oldest first
    var rts0: seq<nat>
    var rts1: seq<nat>
    var rtl0: seq<nat>
    var rtl1: seq<nat>
    ghost var tlbLoads: set<nat>
    ghost var tlbStores: set<nat>
    ghost var cacheLoads: set<nat>
    ghost var trace: seq<MemInstr>
    ghost var retired: nat
    ghost var finished: seq<LoadId>

    /** The arrays have their sizes and the indices fit. */
    ghost predicate Layout()
      reads this, rob, lq, sq
    {
      rob.Length == robSize && lq.Length == lqSize && sq.Length == sqSize && RingShape(St())
    }

    ghost predicate Valid()
      reads this, rob, lq, sq
    {
      Layout() && Inv(St())
    }

    ghost function St(): State
      reads this, rob, lq, sq
    {
      State(rob[..], head, tail, occ, lq[..], lqOcc, sq[..], sqHead, sqTail, sqOcc,
            sta, rts0, rts1, rtl0, rtl1, tlbLoads, tlbStores, cacheLoads,
            clock, schedulingLatency, trace, retired, finished)
    }

    constructor (robSize: nat, lqSize: nat, sqSize: nat, schedulingLatency: nat)
      requires robSize >= 2 && lqSize >= 1 && sqSize >= 1
      ensures Valid() && fresh(rob) && fresh(lq) && fresh(sq)
      ensures St() == Initial(robSize, lqSize, sqSize, schedulingLatency)
    {
      this.robSize, this.lqSize, this.sqSize, this.schedulingLatency := robSize, lqSize, sqSize, schedulingLatency;
      rob := new RobEntry[robSize](_ => EMPTY_ROB);
      lq := new LqEntry[lqSize](_ => EMPTY_LQ);
      sq := new SqEntry[sqSize](_ => EMPTY_SQ);
      sta, rts0, rts1, rtl0, rtl1 := [], [], [], [], [];
      head, tail, occ, lqOcc, sqHead, sqTail, sqOcc, clock := 0, 0, 0, 0, 0, 0, 0, 0;
      tlbLoads, tlbStores, cacheLoads, trace, retired, finished := {}, {}, {}, [], 0, [];
      new;
      hide Inv, Forwarding;
      assert rob[..] == seq(robSize, _ => EMPTY_ROB);
      assert lq[..] == seq(lqSize, _ => EMPTY_LQ);
      assert sq[..] == seq(sqSize, _ => EMPTY_SQ);
      InitialInv(robSize, lqSize, sqSize, schedulingLatency);
    }

    /** mem_RAW_dependency: whether entry `prior` stores to the address of load queue slot `l`. */
    method MemRawDependency(prior: nat, c: nat, l: nat)
      requires Layout() && prior < robSize && c < robSize && l < lqSize && lq[l].address != 0
      modifies rob, lq
      ensures Layout()
      ensures St() == if old(lq[l].address in rob[prior].instr.stores) then Recorded(old(St()), c, l, Some(prior)) else old(St())
    {
      ghost var s := St();
      var stores := rob[prior].instr.stores;
      for i := 0 to |stores|
        invariant St() == s && stores == rob[prior].instr.stores
        invariant forall k :: 0 <= k < i ==> stores[k] != lq[l].address
      {
        if stores[i] == 0 { continue; }
        if stores[i] == lq[l].address {
          rob[prior] := rob[prior].(isProducer := true, dependents := rob[prior].dependents + {c});
          lq[l] := lq[l].(producer := Some(rob[prior].id), translated := Inflight);
          assert St().rob == Recorded(s, c, l, Some(prior)).rob;
          assert St().lq == Recorded(s, c, l, Some(prior)).lq;
          return;
        }
      }
    }

    /** A scan of add_load_queue from the slot below `hi` down to `lo`; it stops at the first producer. */
    method ScanStores(hi: nat, lo: nat, c: nat, l: nat, ghost lap: nat, ghost s: State, ghost found: Option<nat>) returns (ghost r: Option<nat>)
      requires Layout() && c < robSize && l < lqSize && lo <= hi <= robSize && RingShape(s)
      requires |s.rob| == robSize && |s.lq| == lqSize && s.head == head && s.lq[l].address != 0 && s.lq[l].producer.None?
      requires (lap == 0 && head <= lo) || (lap == robSize && hi <= head)
      requires hi + lap - head <= Age(s, c)
      requires found == StoreFrom(s, Age(s, c), hi + lap - head, s.lq[l].address) && St() == Recorded(s, c, l, found)
      modifies rob, lq
      ensures Layout()
      ensures r == StoreFrom(s, Age(s, c), lo + lap - head, s.lq[l].address) && St() == Recorded(s, c, l, r)
    {
      hide StoreFrom, Recorded;
      r := found;
      for i := hi downto lo
        invariant Layout()
        invariant r == StoreFrom(s, Age(s, c), i + lap - head, s.lq[l].address) && St() == Recorded(s, c, l, r)
      {
        RecordedProducer(s, c, l, r);
        if lq[l].producer.Some? {
          StoreFromStays(s, Age(s, c), lo + lap - head, i + 1 + lap - head, s.lq[l].address);
          break;
        }
        r := ScanStore(i, c, l, i + lap - head, s);
      }
    }

    /** One step of the scan: slot `i`, of age `k`, while no younger entry stores to the address. */
    method ScanStore(i: nat, c: nat, l: nat, ghost k: nat, ghost s: State) returns (ghost r: Option<nat>)
      requires Layout() && c < robSize && l < lqSize && RingShape(s) && St() == s && s.lq[l].address != 0
      requires k < Age(s, c) && Slot(s, k) == i && StoreFrom(s, Age(s, c), k + 1, s.lq[l].address) == None
      modifies rob, lq
      ensures Layout()
      ensures r == StoreFrom(s, Age(s, c), k, s.lq[l].address) && St() == Recorded(s, c, l, r)
    {
      StoreOneLower(s, Age(s, c), k, s.lq[l].address);
      r := if s.lq[l].address in s.rob[i].instr.stores then Some(i) else None;
      MemRawDependency(i, c, l);
    }

    /** The RAW scans of add_load_queue. */
    method FindProducer(c: nat, l: nat)
      requires Layout() && c < robSize && l < lqSize && lq[l].address != 0 && lq[l].producer.None?
      modifies rob, lq
      ensures Layout()
      ensures St() == Recorded(old(St()), c, l, YoungestStore(old(St()), Age(old(St()), c), old(lq[l].address)))
    {
      ghost var s := St();
      ghost var p: Option<nat> := None;
      var prior: int := c - 1;
      if prior < 0 { prior := robSize - 1; }
      if c != head {
        if head <= prior {
          p := ScanStores(prior + 1, head, c, l, 0, s, p);
        } else {
          p := ScanStores(prior + 1, 0, c, l, robSize, s, p);
          p := ScanStores(robSize, head, c, l, 0, s, p);
        }
      }
      StoreFromBottom(s, Age(s, c), s.lq[l].address);
    }

    /** The search for an empty slot in the load queue. */
    method FreeSlot() returns (l: nat)
      requires Layout()
      ensures l == FreeFrom(lq[..], 0) <= lqSize
    {
      l := 0;
      while l < lqSize
        invariant l <= lqSize && FreeFrom(lq[..], 0) == FreeFrom(lq[..], l)
      {
        if lq[l].address == 0 { break; }
        l := l + 1;
      }
    }

    /** The search for the store that can forward to load queue slot `l`. */
    method FindForwarder(l: nat) returns (q: nat)
      requires Layout() && l < lqSize && lq[l].address != 0
      ensures q == ForwarderFrom(sq[..], 0, lq[l].address, lq[l].producer) <= sqSize
    {
      q := 0;
      while q < sqSize
        invariant q <= sqSize
        invariant ForwarderFrom(sq[..], 0, lq[l].address, lq[l].producer) == ForwarderFrom(sq[..], q, lq[l].address, lq[l].producer)
      {
        if sq[q].address != 0 && sq[q].address == lq[l].address && lq[l].producer == Some(sq[q].instrId) { break; }
        q := q + 1;
      }
    }

    /** Bookkeeping of a finished load, with release_load_queue. */
    method FinishLoadAt(l: nat, eventCycle: nat)
      requires Layout() && l < lqSize && lq[l].robIndex < robSize
      modifies this, rob, lq
      ensures Layout() && St() == FinishLoad(old(St()), l, eventCycle)
    {
      ghost var s := St();
      var c := lq[l].robIndex;
      rob[c] := rob[c].(numMemOps := rob[c].numMemOps - 1, eventCycle := eventCycle);
      finished := finished + [LoadId(lq[l].instrId, lq[l].dataIndex)];
      lq[l] := EMPTY_LQ;
      lqOcc := lqOcc - 1;
      assert rob[..] == FinishLoad(s, l, eventCycle).rob;
      assert lq[..] == FinishLoad(s, l, eventCycle).lq;
    }

    /** The part of add_load_queue before the forwarding check. */
    method EnterLoadAt(c: nat, j: nat, l: nat)
      requires Layout() && Shape(St()) && MayAddLoad(St(), c, j) && l < lqSize
      modifies this, rob, lq
      ensures Layout() && St() == EnterLoad(old(St()), c, j, l)
      ensures lq[l].address != 0 && lq[l].robIndex < robSize && clock == old(clock) && rtl0 == old(rtl0)
    {
      ghost var s := St();
      EnterInTwo(s, c, j, l);
      EnteredAddress(s, c, j, l);
      hide Shape, EnterLoad;
      PlaceLoadAt(c, j, l);
      PlacedSearch(s, c, j, l, Age(s, c), s.rob[c].instr.loads[j]);
      FindProducer(c, l);
    }

    method PlaceLoadAt(c: nat, j: nat, l: nat)
      requires Layout() && c < robSize && l < lqSize
      requires j < |rob[c].instr.loads| && j < |rob[c].lqIndex| && j < |rob[c].sourceAdded|
      modifies this, rob, lq
      ensures Layout() && St() == Placed(old(St()), c, j, l)
    {
      ghost var m := Placed(St(), c, j, l);
      var e := rob[c];
      rob[c] := e.(lqIndex := e.lqIndex[j := Some(l)], sourceAdded := e.sourceAdded[j := true]);
      lq[l] := LqEntry(e.instr.loads[j], e.id, None, c, j, Idle, Idle, clock + schedulingLatency);
      lqOcc := lqOcc + 1;
      assert rob[..] == m.rob && lq[..] == m.lq;
    }

    /** The end of add_load_queue: the load is forwarded, or waits, or becomes ready to be sent to the DTLB. */
    method Settle(l: nat)
      requires Layout() && l < lqSize && lq[l].address != 0 && lq[l].robIndex < robSize && |rtl0| < lqSize
      modifies this, rob, lq
      ensures Layout()
      ensures var m := old(St());
              St() == if CanForward(m, l) then FinishLoad(m, l, m.clock)
                      else if m.lq[l].producer.None? then m.(rtl0 := m.rtl0 + [l])
                      else m
    {
      var q := FindForwarder(l);
      if q != sqSize && sq[q].fetched == Completed && sq[q].eventCycle <= clock {
        FinishLoadAt(l, clock);
      } else if lq[l].producer.None? {
        assert |rtl0| < lqSize;
        rtl0 := rtl0 + [l];
      }
    }

    /** add_load_queue; the check for an empty slot never fails. */
    method AddLoadQueue(c: nat, j: nat)
      requires Valid() && MayAddLoad(St(), c, j)
      modifies this, rob, lq
      ensures Valid() && FreeFrom(old(lq[..]), 0) < lqSize && St() == AddLoad(old(St()), c, j)
    {
      ghost var s := St();
      AddLoadKeepsInv(s, c, j);
      LoadRing(s, c, j);
      InvParts(s);
      hide Inv, Shape, EnterLoad, FinishLoad;
      var l := FreeSlot();
      EnterLoadAt(c, j, l);
      Settle(l);
    }

    /** add_store_queue; the slot at the tail is free. */
    method AddStoreQueue(c: nat, i: nat)
      requires Valid() && MayAddStore(St(), c, i)
      modifies this, rob, sq
      ensures Valid() && St() == AddStore(old(St()), c, i)
    {
      AddStoreKeepsInv(St(), c, i);
      InvRing(AddStore(St(), c, i));
      StoreSlotFree(St());
      RingsHaveRoom(St());
      hide Inv;
      PlaceStoreAt(c, i);
    }

    method PlaceStoreAt(c: nat, i: nat)
      requires Layout() && c < robSize && sqOcc < sqSize && |sta| > 0 && |rts0| < sqSize
      requires i < |rob[c].instr.stores| && i < |rob[c].sqIndex| && i < |rob[c].destinationAdded|
      requires sq[sqTail].address == 0
      modifies this, rob, sq
      ensures St() == AddStore(old(St()), c, i)
    {
      var q := sqTail;
      assert sq[q].address == 0;
      WriteStore(c, i, q);
      TakeTail(q);
    }

    /** The counters and rings when a store has taken the slot `q` at the tail. */
    method TakeTail(q: nat)
      requires q == sqTail < sqSize && |sta| > 0 && |rts0| < sqSize
      modifies this`sqOcc, this`sqTail, this`sta, this`rts0
      ensures sqOcc == old(sqOcc) + 1 && sqTail == Wrap(sqSize, q + 1) && sta == old(sta)[1..] && rts0 == old(rts0) + [q]
    {
      sqOcc := sqOcc + 1;
      sqTail := sqTail + 1;
      if sqTail == sqSize { sqTail := 0; }
      sta := sta[1..];
      assert |rts0| < sqSize;
      rts0 := rts0 + [q];
    }

    /** The queue slot and the buffer slot of a store that enters the queue. */
    method WriteStore(c: nat, i: nat, q: nat)
      requires c < rob.Length && q < sq.Length
      requires i < |rob[c].instr.stores| && i < |rob[c].sqIndex| && i < |rob[c].destinationAdded|
      modifies rob, sq
      ensures var s, e := old(St()), old(rob[c]);
              St() == s.(rob := s.rob[c := e.(sqIndex := e.sqIndex[i := Some(q)], destinationAdded := e.destinationAdded[i := true])],
                         sq := s.sq[q := SqEntry(e.instr.stores[i], e.id, c, i, Idle, Idle, s.clock + s.schedulingLatency)])
    {
      var e := rob[c];
      SetStoreSlot(q, SqEntry(e.instr.stores[i], e.id, c, i, Idle, Idle, clock + schedulingLatency));
      SetRobEntry(c, e.(sqIndex := e.sqIndex[i := Some(q)], destinationAdded := e.destinationAdded[i := true]));
    }

    method SetRobEntry(c: nat, e: RobEntry)
      requires c < rob.Length
      modifies rob
      ensures rob[..] == old(rob[..])[c := e]
    {
      rob[c] := e;
    }

    method SetStoreSlot(q: nat, e: SqEntry)
      requires q < sq.Length
      modifies sq
      ensures sq[..] == old(sq[..])[q := e]
    {
      sq[q] := e;
    }

    method SetLoadSlot(l: nat, e: LqEntry)
      requires l < lq.Length
      modifies lq
      ensures lq[..] == old(lq[..])[l := e]
    {
      lq[l] := e;
    }

    /** One operand of check_and_add_lsq: a load is added unless it is already or the queue is full. */
    method TryLoad(c: nat, j: nat)
      requires Valid() && Live(St(), c) && j < NUM_INSTR_SOURCES
      modifies this, rob, lq
      ensures Valid() && SameEntry(old(St()), St(), c)
      ensures St() == if CanAddLoad(old(St()), c, j) then AddLoad(old(St()), c, j) else old(St())
    {
      ghost var s := St();
      EntryOf(s, c);
      SameEntryRefl(s, c);
      CanAddIffMay(s, c, j);
      hide Inv, CanAddLoad, SameEntry;
      if rob[c].instr.loads[j] != 0 {
        if !rob[c].sourceAdded[j] && lqOcc < lqSize {
          AddLoadStep(s, c, j);
          AddLoadQueue(c, j);
        }
      }
    }

    /** The loop of check_and_add_lsq over the loads. */
    method AddLoadsOf(c: nat)
      requires Valid() && Live(St(), c)
      modifies this, rob, lq
      ensures Valid() && St() == AddLoads(old(St()), c, 0) && SameEntry(old(St()), St(), c)
    {
      hide Inv, CanAddLoad, AddLoad, AddLoads, SameEntry, Live, RingShape, Occupied;
      ghost var s := St();
      SameEntryRefl(s, c);
      for j := 0 to NUM_INSTR_SOURCES
        invariant Valid() && SameEntry(s, St(), c)
        invariant AddLoads(s, c, 0) == AddLoads(St(), c, j)
      {
        AddNextLoad(c, j, s);
      }
      LoadsDone(St(), c);
    }

    /** One step of that loop. */
    method AddNextLoad(c: nat, j: nat, ghost s: State)
      requires Valid() && SameEntry(s, St(), c) && j < NUM_INSTR_SOURCES
      modifies this, rob, lq
      ensures Valid() && SameEntry(s, St(), c)
      ensures AddLoads(old(St()), c, j) == AddLoads(St(), c, j + 1)
    {
      hide Inv, CanAddLoad, AddLoad, AddLoads, SameEntry;
      ghost var m := St();
      SameLive(s, m, c);
      AddLoadsOnce(m, c, j);
      TryLoad(c, j);
      SameEntryTrans(s, m, St(), c);
    }

    /** One operand of check_and_add_lsq: a store is added if it is the next one of the program and there is room. */
    method TryStore(c: nat, i: nat)
      requires Valid() && Live(St(), c) && i < |rob[c].instr.stores| && PlacedBefore(St(), c, i)
      modifies this, rob, sq
      ensures Valid() && SameEntry(old(St()), St(), c) && PlacedBefore(St(), c, i + 1)
      ensures St() == if CanAddStore(old(St()), c, i) then AddStore(old(St()), c, i) else old(St())
    {
      ghost var s := St();
      EntryOf(s, c);
      SameEntryRefl(s, c);
      StoreIffMay(s, c, i);
      hide Inv, CanAddStore, SameEntry, PlacedBefore, MayAddStore;
      if rob[c].instr.stores[i] != 0 {
        if !rob[c].destinationAdded[i] && sqOcc < sqSize {
          if |sta| > 0 && sta[0] == rob[c].id {
            AddStoreStep(s, c, i);
            AddStoreQueue(c, i);
          }
        }
      }
    }

    /** The loop of check_and_add_lsq over the stores. */
    method AddStoresOf(c: nat)
      requires Valid() && Live(St(), c)
      modifies this, rob, sq
      ensures Valid() && St() == AddStores(old(St()), c, 0, |old(rob[c].instr.stores)|) && SameEntry(old(St()), St(), c)
    {
      ghost var s := St();
      SameEntryRefl(s, c);
      NothingBefore(s, c);
      var n := |rob[c].instr.stores|;
      hide Inv, CanAddStore, AddStore, PlacedBefore;
      for i := 0 to n
        invariant Valid() && SameEntry(s, St(), c) && PlacedBefore(St(), c, i)
        invariant AddStores(s, c, 0, n) == AddStores(St(), c, i, n)
      {
        TryStore(c, i);
      }
    }

    /** check_and_add_lsq: the loads, then the stores. */
    method CheckAndAddAt(c: nat)
      requires Valid() && Live(St(), c)
      modifies this, rob, lq, sq
      ensures Valid() && St() == CheckAndAdd(old(St()), c) && SameEntry(old(St()), St(), c)
    {
      ghost var s := St();
      CheckAndAddKeeps(s, c);
      hide Inv, AddLoads, AddStores, PlacedBefore;
      AddLoadsOf(c);
      AddStoresOf(c);
    }

    /** The end of check_and_add_lsq and of do_memory_scheduling: the flags, once num_added equals num_mem_ops. */
    method FinishSchedulingAt(c: nat)
      requires Valid() && Live(St(), c) && rob[c].executed != Completed
      modifies rob
      ensures Valid() && St() == FinishScheduling(old(St()), c)
    {
      ghost var s := St();
      FinishSchedulingKeeps(s, c);
      InvRing(FinishScheduling(s, c));
      EntryOf(s, c);
      AddedCount(rob[c]);
      hide Inv, Forwarding, AllAdded;
      var e := rob[c];
      if CountOps(e) == CountAdded(e) {
        rob[c] := e.(scheduled := Completed, executed := if e.executed == Idle then Inflight else e.executed);
        assert rob[..] == FinishScheduling(s, c).rob;
      }
    }

    /** do_memory_scheduling. */
    method DoMemoryScheduling(c: nat)
      requires Valid() && MaySchedule(St(), c)
      modifies this, rob, lq, sq
      ensures Valid() && St() == MemoryScheduling(old(St()), c)
    {
      hide Inv, CheckAndAdd, FinishScheduling;
      CheckAndAddAt(c);
      FinishSchedulingAt(c);
    }

    // ----- front end and dispatch

    /** read_from_trace announces the stores of instruction `x`, numbered `id`, to the store order array. */
    method ReadInstruction(x: MemInstr, id: nat)
      requires Valid() && x.WellFormed() && id == |trace| && |sta| + NonZero(x.stores, |x.stores|) <= 4 * robSize
      modifies this
      ensures Valid() && St() == Read(old(St()), x) && |sta| <= 4 * robSize
    {
      hide Inv, NonZero, RingShape;
      ReadKeepsInv(St(), x);
      InvRing(Read(St(), x));
      Announce(x.stores, id);
      trace := trace + [x];
    }

    /** The loop of read_from_trace over the destinations; the store order array has room for all of them. */
    method Announce(stores: seq<nat>, id: nat)
      requires |sta| + NonZero(stores, |stores|) <= 4 * robSize
      modifies this`sta
      ensures sta == old(sta) + Ids(id, NonZero(stores, |stores|))
    {
      for i := 0 to |stores|
        invariant sta == old(sta) + Ids(id, NonZero(stores, i))
      {
        if stores[i] != 0 {
          MoreStores(stores, i + 1);
          assert |sta| < 4 * robSize;
          sta := sta + [id];
        }
      }
    }

    /** add_to_rob of `x`, the oldest instruction of the front end. */
    method AddToRob(x: MemInstr, id: nat)
      requires Valid() && MayDispatch(St()) && id == retired + occ && x == trace[id]
      modifies this, rob
      ensures Valid() && St() == Dispatch(old(St()))
    {
      DispatchKeepsInv(St());
      InvRing(Dispatch(St()));
      hide Inv;
      PlaceInstruction(x, id);
    }

    method PlaceInstruction(x: MemInstr, id: nat)
      requires Layout() && retired + occ < |trace| && id == retired + occ && x == trace[id] && occ < robSize
      modifies this, rob
      ensures rob.Length == robSize && lq.Length == lqSize && sq.Length == sqSize && St() == Dispatch(old(St()))
    {
      ghost var m := Dispatch(St());
      rob[tail] := FreshEntry(x, id, clock);
      occ := occ + 1;
      tail := tail + 1;
      if tail == robSize { tail := 0; }
      assert rob[..] == m.rob;
    }

    // ----- translation and execution

    /** operate_lsq hands the oldest entry of RTS0 to the DTLB. */
    method IssueStore()
      requires Valid() && |rts0| > 0
      modifies this, sq
      ensures Valid() && old(rts0)[0] < sqSize && St() == StoreToTlb(old(St()))
    {
      hide Inv, RingShape;
      ghost var s := St();
      StoreToTlbKeepsInv(s);
      InvRing(StoreToTlb(s));
      var q := rts0[0];
      SetStoreSlot(q, sq[q].(translated := Inflight));
      rts0, tlbStores := rts0[1..], tlbStores + {q};
    }

    /** The DTLB has translated store `q`; RTS1 has room for it. */
    method StoreTranslationDone(q: nat)
      requires Valid() && q in tlbStores
      modifies this, sq
      ensures Valid() && |old(rts1)| < sqSize && St() == StoreTranslated(old(St()), q)
    {
      hide Inv, RingShape;
      ghost var s := St();
      StoreTranslatedKeepsInv(s, q);
      InvRing(StoreTranslated(s, q));
      RingsHaveRoom(s);
      SetStoreSlot(q, sq[q].(translated := Completed, eventCycle := clock));
      assert |rts1| < sqSize;
      rts1, tlbStores := rts1 + [q], tlbStores - {q};
    }

    /** operate_lsq hands the oldest entry of RTL0 to the DTLB. */
    method IssueLoad()
      requires Valid() && |rtl0| > 0
      modifies this, lq
      ensures Valid() && old(rtl0)[0] < lqSize && St() == LoadToTlb(old(St()))
    {
      hide Inv, RingShape;
      ghost var s := St();
      LoadToTlbKeepsInv(s);
      InvRing(LoadToTlb(s));
      var l := rtl0[0];
      SetLoadSlot(l, lq[l].(translated := Inflight));
      rtl0, tlbLoads := rtl0[1..], tlbLoads + {l};
    }

    /** The DTLB has translated load `l`; RTL1 has room for it. */
    method LoadTranslationDone(l: nat)
      requires Valid() && l in tlbLoads
      modifies this, lq
      ensures Valid() && |old(rtl1)| < lqSize && St() == LoadTranslated(old(St()), l)
    {
      hide Inv, RingShape;
      ghost var s := St();
      LoadTranslatedKeepsInv(s, l);
      InvRing(LoadTranslated(s, l));
      RingsHaveRoom(s);
      SetLoadSlot(l, lq[l].(translated := Completed, eventCycle := clock));
      assert |rtl1| < lqSize;
      rtl1, tlbLoads := rtl1 + [l], tlbLoads - {l};
    }

    /** execute_load for the oldest entry of RTL1, when the data cache accepts it. */
    method ExecuteLoad()
      requires Valid() && |rtl1| > 0
      modifies this, lq
      ensures Valid() && old(rtl1)[0] < lqSize && St() == LoadToCache(old(St()))
    {
      hide Inv, RingShape;
      ghost var s := St();
      LoadToCacheKeepsInv(s);
      InvRing(LoadToCache(s));
      var l := rtl1[0];
      SetLoadSlot(l, lq[l].(fetched := Inflight));
      rtl1, cacheLoads := rtl1[1..], cacheLoads + {l};
    }

    /** One dependent of execute_store: its loads from `sq[q]`'s address are done, unless the producer check fails. */
    method ForwardToDependent(q: nat, d: nat) returns (ok: bool)
      requires Layout() && q < sqSize && sq[q].robIndex < robSize && d < robSize && d in rob[sq[q].robIndex].dependents
      modifies this, rob, lq
      ensures Layout()
      ensures if ok then Forward(old(St()), q, d, 0) == Forward(St(), q, d + 1, 0) else Forward(old(St()), q, d, 0) == None
    {
      ghost var s := St();
      hide FinishLoad;
      ok := true;
      for j := 0 to NUM_INSTR_SOURCES
        invariant Layout() && d in rob[sq[q].robIndex].dependents
        invariant Forward(s, q, d, 0) == Forward(St(), q, d, j)
      {
        ok := ForwardLoad(q, d, j);
        if !ok { return; }
      }
    }

    /** One operand of a dependent. */
    method ForwardLoad(q: nat, d: nat, j: nat) returns (ok: bool)
      requires Layout() && q < sqSize && sq[q].robIndex < robSize && d < robSize && j < NUM_INSTR_SOURCES
      requires d in rob[sq[q].robIndex].dependents
      modifies this, rob, lq
      ensures Layout() && rob[sq[q].robIndex].dependents == old(rob[sq[q].robIndex].dependents)
      ensures if ok then Forward(old(St()), q, d, j) == Forward(St(), q, d, j + 1) else Forward(old(St()), q, d, j) == None
    {
      ghost var s := St();
      ok := true;
      var e := rob[d];
      if j < |e.instr.loads| && j < |e.sourceAdded| && j < |e.lqIndex| && e.instr.loads[j] != 0 && e.sourceAdded[j]
        && e.instr.loads[j] == sq[q].address && e.lqIndex[j].Some? && e.lqIndex[j].value < lqSize
      {
        assert Matches(s, q, d, j);
        var l := e.lqIndex[j].value;
        if lq[l].producer != Some(sq[q].instrId) || lq[l].robIndex >= robSize { return false; }
        FinishLoadAt(l, clock);
      }
    }

    /** The part of execute_store before the dependents are looked at. */
    method StoreDoneAt(q: nat)
      requires Layout() && |rts1| > 0 && rts1[0] == q < sqSize && sq[q].robIndex < robSize
      modifies this, rob, sq
      ensures Layout() && St() == StoreDone(old(St()), q).(rts1 := old(rts1)[1..])
    {
      ghost var m := StoreDone(St(), q);
      var c := sq[q].robIndex;
      sq[q] := sq[q].(fetched := Completed, eventCycle := clock);
      rob[c] := rob[c].(numMemOps := rob[c].numMemOps - 1, eventCycle := clock);
      rts1 := rts1[1..];
      assert rob[..] == m.rob && sq[..] == m.sq;
    }

    /** execute_store; `ok` is false if the producer check fails, and the simulator stops. */
    method ExecuteOldestStore() returns (ok: bool)
      requires Valid() && |rts1| > 0
      modifies this, rob, lq, sq
      ensures old(rts1)[0] < sqSize && old(sq[rts1[0]]).robIndex < robSize
      ensures if ok then Valid() && ExecuteStore(old(St())) == Some(St()) else ExecuteStore(old(St())) == None
    {
      ghost var s := St();
      ExecuteStoreKeepsInv(s);
      hide Inv, Forward, StoreDone;
      var q := rts1[0];
      StoreDoneAt(q);
      ok := true;
      if rob[sq[q].robIndex].isProducer {
        ok := ForwardAll(q);
      }
    }

    /** The loop of execute_store over the dependents. */
    method ForwardAll(q: nat) returns (ok: bool)
      requires Layout() && q < sqSize && sq[q].robIndex < robSize
      modifies this, rob, lq
      ensures if ok then Layout() && Forward(old(St()), q, 0, 0) == Some(St()) else Forward(old(St()), q, 0, 0) == None
    {
      ghost var s := St();
      ok := true;
      for d := 0 to robSize
        invariant Layout() && Forward(s, q, 0, 0) == Forward(St(), q, d, 0)
      {
        if d in rob[sq[q].robIndex].dependents {
          ok := ForwardToDependent(q, d);
          if !ok { return; }
        }
      }
    }

    // ----- replies, completion, retirement

    /** A reply for load `l` alone: complete_data_fetch, or one step of handle_merged_load. */
    method FetchDone(l: nat, eventCycle: nat)
      requires Valid() && l in cacheLoads
      modifies this, rob, lq
      ensures Valid() && LqLive(old(St()), l) && old(lq[l]).robIndex < robSize
      ensures St() == LoadFetched(old(St()), l, eventCycle)
    {
      hide Inv, RingShape;
      ghost var s := St();
      FetchedKeepsInv(s, l, eventCycle);
      FetchedLive(s, l);
      InvRing(LoadFetched(s, l, eventCycle));
      FinishLoadAt(l, eventCycle);
      cacheLoads := cacheLoads - {l};
    }

    /** handle_merged_load: every load that was merged into the reply is done now. */
    method HandleMergedLoads(merged: set<nat>)
      requires Valid() && merged <= cacheLoads && (forall l :: l in merged ==> l < lqSize)
      modifies this, rob, lq
      ensures Valid() && St() == MergedFetched(old(St()), merged, 0)
    {
      ghost var s := St();
      hide Inv, FinishLoad, LoadFetched;
      for l := 0 to lqSize
        invariant Valid() && clock == s.clock
        invariant forall x :: x in merged && l <= x ==> x in cacheLoads
        invariant MergedFetched(s, merged, 0) == MergedFetched(St(), merged, l)
      {
        if l in merged {
          FetchedFrame(St(), l, clock);
          FetchDone(l, clock);
        }
      }
    }

    /** The executed flag of update_rob, for a memory instruction with nothing outstanding. */
    method CompleteEntry(c: nat)
      requires Valid() && MayComplete(St(), c)
      modifies rob
      ensures Valid() && St() == Complete(old(St()), c)
    {
      ghost var s := St();
      FlagsKeepInv(s, Complete(s, c));
      InvRing(Complete(s, c));
      hide Inv;
      rob[c] := rob[c].(executed := Completed);
      assert rob[..] == Complete(s, c).rob;
    }

    /** The loop of retire_rob over the destinations; each slot it releases is the one at the head of the queue. */
    method ReleaseStoreSlots()
      requires Layout() && occ > 0 && HeadIndexed(St())
      modifies this`sqHead, this`sqOcc, sq
      ensures Layout() && St() == ReleaseStores(old(St()), HeadStores(old(St())))
    {
      hide ReleaseStores, AgeFrom, Wrap, NonZero, HeadIndexed;
      ghost var s := St();
      ReleaseNone(s);
      var stores, slots := rob[head].instr.stores, rob[head].sqIndex;
      for i := 0 to |stores|
        invariant Layout() && NonZero(stores, i) <= s.sqOcc
        invariant St() == ReleaseStores(s, NonZero(stores, i)) && sqHead == Wrap(sqSize, s.sqHead + NonZero(stores, i))
        invariant sqOcc == s.sqOcc - NonZero(stores, i)
      {
        NextIndex(s, i);
        ReleaseNext(slots[i], NonZero(stores, i), s);
      }
    }

    /** One destination of the retiring entry: its slot, if any, is released after the `n` before it. */
    method ReleaseNext(slot: Option<nat>, ghost n: nat, ghost s: State)
      requires Layout() && RingShape(s) && |s.sq| == sqSize && n <= s.sqOcc && (slot.Some? ==> n < s.sqOcc && slot.value == sqHead)
      requires St() == ReleaseStores(s, n) && sqHead == Wrap(sqSize, s.sqHead + n) && sqOcc == s.sqOcc - n
      modifies this`sqHead, this`sqOcc, sq
      ensures Layout()
      ensures var k := if slot.Some? then n + 1 else n;
              k <= s.sqOcc && St() == ReleaseStores(s, k) && sqHead == Wrap(sqSize, s.sqHead + k) && sqOcc == s.sqOcc - k
    {
      hide ReleaseStores;
      if slot.Some? {
        ReleaseOneMore(s, n);
        ReleaseSlot(slot.value);
      }
    }

    method ReleaseSlot(q: nat)
      requires Layout() && sqOcc > 0 && q == sqHead
      modifies this`sqHead, this`sqOcc, sq
      ensures Layout() && St() == ReleaseStore(old(St()))
      ensures sqHead == Wrap(sqSize, old(sqHead) + 1) && sqOcc == old(sqOcc) - 1
    {
      ghost var m := ReleaseStore(St());
      sq[q] := EMPTY_SQ;
      sqOcc := sqOcc - 1;
      sqHead := sqHead + 1;
      if sqHead == sqSize { sqHead := 0; }
      assert sq[..] == m.sq;
    }

    /** retire_rob for one instruction; `room` is how many stores the data cache's write queue still takes. */
    method RetireRob(room: nat) returns (done: bool)
      requires Valid()
      modifies this, rob, sq
      ensures Valid() && done == (MayRetire(old(St())) && HeadStores(old(St())) <= room)
      ensures MayRetire(old(St())) ==> HeadStores(old(St())) <= old(sqOcc)
      ensures St() == if done then Retire(old(St())) else old(St())
    {
      hide Inv, NonZero, ReleaseStores, HeadIndexed, Wrap, AgeFrom;
      ghost var s := St();
      InvRing(s);
      if MayRetire(s) { RetireFits(s); }
      if occ == 0 || rob[head].executed != Completed { return false; }
      var stores := StoreCount(rob[head].instr.stores);
      if stores > 0 {
        if stores > room { return false; }
      }
      RetireOldest();
      done := true;
    }

    method StoreCount(stores: seq<nat>) returns (n: nat)
      ensures n == NonZero(stores, |stores|)
    {
      n := 0;
      for i := 0 to |stores|
        invariant n == NonZero(stores, i)
      {
        if stores[i] != 0 { n := n + 1; }
      }
    }

    method RetireOldest()
      requires Layout() && occ > 0 && HeadIndexed(St()) && HeadStores(St()) <= sqOcc && retired < |trace|
      modifies this, rob, sq
      ensures rob.Length == robSize && lq.Length == lqSize && sq.Length == sqSize && St() == Retire(old(St()))
    {
      ghost var s := St();
      ReleaseStoresFrame(s, HeadStores(s));
      hide ReleaseStores, NonZero, HeadIndexed;
      ReleaseStoreSlots();
      PopHead();
    }

    /** The end of retire_rob: the entry itself is released. */
    method PopHead()
      requires Layout() && occ > 0
      modifies this`head, this`occ, this`retired, rob
      ensures St() == old(St()).(rob := old(rob[..])[old(head) := EMPTY_ROB], head := Wrap(robSize, old(head) + 1),
                                 occ := old(occ) - 1, retired := old(retired) + 1)
    {
      rob[head] := EMPTY_ROB;
      head := head + 1;
      if head == robSize { head := 0; }
      occ := occ - 1;
      retired := retired + 1;
    }
  }
}
