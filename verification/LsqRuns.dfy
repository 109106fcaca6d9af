/** check_and_add_lsq, arbitrary runs of the load/store queue, and what holds in every state they reach. */
module LsqRuns {
  import opened Common
  import opened LoadStoreQueue
  import opened LsqFinish
  import opened LsqLoads
  import opened LsqStores
  import opened LsqRing
  import opened LsqRetire
  import opened LsqForwarding
  import opened LsqForwardingSteps
  import opened LsqForwardingRuns

  // ----- check_and_add_lsq

  predicate CanAddLoad(s: State, c: nat, j: nat) {
    && RingShape(s) && c < |s.rob|
    && j < |s.rob[c].instr.loads| && j < |s.rob[c].lqIndex| && j < |s.rob[c].sourceAdded|
    && s.rob[c].instr.loads[j] != 0 && !s.rob[c].sourceAdded[j]
    && s.lqOcc < |s.lq| && FreeFrom(s.lq, 0) < |s.lq|
  }

  predicate CanAddStore(s: State, c: nat, i: nat) {
    && RingShape(s) && c < |s.rob|
    && i < |s.rob[c].instr.stores| && i < |s.rob[c].sqIndex| && i < |s.rob[c].destinationAdded|
    && s.rob[c].instr.stores[i] != 0 && !s.rob[c].destinationAdded[i]
    && s.sqOcc < |s.sq| && |s.sta| > 0 && s.sta[0] == s.rob[c].id
  }

  function AddLoads(s: State, c: nat, j: nat): State
    requires j <= NUM_INSTR_SOURCES
    decreases NUM_INSTR_SOURCES - j
  {
    if j == NUM_INSTR_SOURCES then s
    else AddLoads(if CanAddLoad(s, c, j) then AddLoad(s, c, j) else s, c, j + 1)
  }

  function AddStores(s: State, c: nat, i: nat, n: nat): State
    requires i <= n
    decreases n - i
  {
    if i == n then s
    else AddStores(if CanAddStore(s, c, i) then AddStore(s, c, i) else s, c, i + 1, n)
  }

  predicate AllAdded(e: RobEntry) {
    && (forall j :: 0 <= j < |e.instr.loads| && j < |e.sourceAdded| && e.instr.loads[j] != 0 ==> e.sourceAdded[j])
    && (forall i :: 0 <= i < |e.instr.stores| && i < |e.destinationAdded| && e.instr.stores[i] != 0 ==> e.destinationAdded[i])
  }

  function CheckAndAdd(s: State, c: nat): State
    requires c < |s.rob|
  {
    AddStores(AddLoads(s, c, 0), c, 0, |s.rob[c].instr.stores|)
  }

  function FinishScheduling(s: State, c: nat): State {
    if c < |s.rob| && AllAdded(s.rob[c]) then
      s.(rob := s.rob[c := s.rob[c].(scheduled := Completed,
                                     executed := if s.rob[c].executed == Idle then Inflight else s.rob[c].executed)])
    else s
  }

  /** do_memory_scheduling on slot `c`. */
  function MemoryScheduling(s: State, c: nat): State
    requires c < |s.rob|
  {
    FinishScheduling(CheckAndAdd(s, c), c)
  }

  /** Entry `c` is the same instruction in `s'`. */
  ghost predicate SameEntry(s: State, s': State, c: nat) {
    && Live(s, c) && Live(s', c) && |s'.rob| == |s.rob| && s'.rob[c].instr == s.rob[c].instr && s'.rob[c].id == s.rob[c].id
    && s'.rob[c].executed == s.rob[c].executed && s'.trace == s.trace
  }

  /** Only the entry being scheduled is added to, so the loops keep the invariants. */
  lemma AddLoadStep(s: State, c: nat, j: nat)
    requires Inv(s) && Live(s, c) && CanAddLoad(s, c, j)
    ensures Inv(AddLoad(s, c, j)) && SameEntry(s, AddLoad(s, c, j), c)
    ensures Forwarding(s) ==> Forwarding(AddLoad(s, c, j))
    ensures AddLoad(s, c, j).rob[c].destinationAdded == s.rob[c].destinationAdded
  {
    assert EntryShape(s.rob[c]);
    assert MayAddLoad(s, c, j);
    AddLoadKeepsInv(s, c, j);
    if Forwarding(s) { AddLoadForwards(s, c, j); }
    AddLoadKeepsEntry(s, c, j);
  }

  lemma AddLoadKeepsEntry(s: State, c: nat, j: nat)
    requires Shape(s) && Loads(s) && MayAddLoad(s, c, j) && FreeFrom(s.lq, 0) < |s.lq|
    ensures SameEntry(s, AddLoad(s, c, j), c)
    ensures AddLoad(s, c, j).rob[c].destinationAdded == s.rob[c].destinationAdded
  {
    FreeSlotExists(s);
    var l := FreeFrom(s.lq, 0);
    EnterIs(s, c, j, l);
    var m := EnterLoad(s, c, j, l);
    assert EnteredEntry(s.rob[c], m.rob[c], true, j, l);
  }

  lemma {:induction false} AddLoadsKeep(s: State, c: nat, j: nat)
    requires Inv(s) && Live(s, c) && j <= NUM_INSTR_SOURCES
    ensures Inv(AddLoads(s, c, j)) && SameEntry(s, AddLoads(s, c, j), c)
    ensures Forwarding(s) ==> Forwarding(AddLoads(s, c, j))
    ensures AddLoads(s, c, j).rob[c].destinationAdded == s.rob[c].destinationAdded
    decreases NUM_INSTR_SOURCES - j
  {
    hide Inv, Forwarding, CanAddLoad, AddLoad;
    if j < NUM_INSTR_SOURCES {
      if CanAddLoad(s, c, j) {
        LoadBounds(s, c, j);
        AddLoadStep(s, c, j);
        AddLoadsKeep(AddLoad(s, c, j), c, j + 1);
      } else {
        AddLoadsKeep(s, c, j + 1);
      }
    }
  }

  lemma LoadBounds(s: State, c: nat, j: nat)
    requires CanAddLoad(s, c, j)
    ensures RingShape(s) && c < |s.rob| && j < |s.rob[c].instr.loads| && j < |s.rob[c].lqIndex| && j < |s.rob[c].sourceAdded|
    ensures FreeFrom(s.lq, 0) < |s.lq|
  {
  }

  lemma StoreBounds(s: State, c: nat, i: nat)
    requires CanAddStore(s, c, i)
    ensures RingShape(s) && c < |s.rob| && i < |s.rob[c].instr.stores| && i < |s.rob[c].sqIndex| && i < |s.rob[c].destinationAdded|
    ensures |s.sta| > 0
  {
  }

  /** The stores of slot `c` before operand `i` are placed, unless no store of it can be placed at all now. */
  ghost predicate PlacedBefore(s: State, c: nat, i: nat)
    requires c < |s.rob|
  {
    || s.sqOcc >= |s.sq| || |s.sta| == 0 || s.sta[0] != s.rob[c].id
    || forall k: nat :: k < i && k < |s.rob[c].instr.stores| && k < |s.rob[c].destinationAdded| && s.rob[c].instr.stores[k] != 0
                      ==> s.rob[c].destinationAdded[k]
  }

  lemma AddStoreStep(s: State, c: nat, i: nat)
    requires Inv(s) && Live(s, c) && PlacedBefore(s, c, i) && CanAddStore(s, c, i)
    ensures Inv(AddStore(s, c, i)) && SameEntry(s, AddStore(s, c, i), c)
    ensures PlacedBefore(AddStore(s, c, i), c, i + 1)
    ensures Forwarding(s) ==> Forwarding(AddStore(s, c, i))
  {
    hide Wrap, AgeFrom, LoadQueues, StoreQueues, Finishes, Counts;
    assert EntryShape(s.rob[c]);
    assert MayAddStore(s, c, i);
    AddStoreKeepsInv(s, c, i);
    AddStoreFrame(s, c, i);
    if Forwarding(s) { AddStoreForwards(s, c, i); }
  }

  lemma NoStoreStep(s: State, c: nat, i: nat)
    requires Shape(s) && Live(s, c) && PlacedBefore(s, c, i) && !CanAddStore(s, c, i) && i < |s.rob[c].instr.stores|
    ensures PlacedBefore(s, c, i + 1)
  {
    assert EntryShape(s.rob[c]);
  }

  lemma {:induction false} AddStoresKeep(s: State, c: nat, i: nat, n: nat)
    requires Inv(s) && Live(s, c) && PlacedBefore(s, c, i) && i <= n == |s.rob[c].instr.stores|
    ensures Inv(AddStores(s, c, i, n)) && SameEntry(s, AddStores(s, c, i, n), c) && PlacedBefore(AddStores(s, c, i, n), c, n)
    ensures Forwarding(s) ==> Forwarding(AddStores(s, c, i, n))
    decreases n - i
  {
    hide Inv, Forwarding, CanAddStore, PlacedBefore, Shape;
    if i < n {
      if CanAddStore(s, c, i) {
        StoreBounds(s, c, i);
        AddStoreStep(s, c, i);
        AddStoresKeep(AddStore(s, c, i), c, i + 1, n);
      } else {
        InvParts(s);
        NoStoreStep(s, c, i);
        AddStoresKeep(s, c, i + 1, n);
      }
    }
  }

  lemma NothingBefore(s: State, c: nat)
    requires c < |s.rob|
    ensures PlacedBefore(s, c, 0)
  {
  }

  lemma CheckAndAddKeeps(s: State, c: nat)
    requires Inv(s) && Live(s, c)
    ensures Inv(CheckAndAdd(s, c)) && SameEntry(s, CheckAndAdd(s, c), c)
    ensures PlacedBefore(CheckAndAdd(s, c), c, |s.rob[c].instr.stores|)
    ensures Forwarding(s) ==> Forwarding(CheckAndAdd(s, c))
  {
    hide Inv, Forwarding, PlacedBefore;
    AddLoadsKeep(s, c, 0);
    NothingBefore(AddLoads(s, c, 0), c);
    AddStoresKeep(AddLoads(s, c, 0), c, 0, |s.rob[c].instr.stores|);
  }

  lemma EntryOf(s: State, c: nat)
    requires Inv(s) && Live(s, c)
    ensures EntryShape(s.rob[c])
  {
  }

  /** do_memory_scheduling runs for entries that are not fully scheduled yet, so not completed either. */
  ghost predicate MaySchedule(s: State, c: nat) {
    Live(s, c) && s.rob[c].scheduled != Completed && s.rob[c].executed != Completed
  }

  lemma FinishSchedulingKeeps(s: State, c: nat)
    requires Inv(s) && Live(s, c) && s.rob[c].executed != Completed
    ensures Inv(FinishScheduling(s, c))
    ensures Forwarding(s) ==> Forwarding(FinishScheduling(s, c))
  {
    var s' := FinishScheduling(s, c);
    FlagsKeepInv(s, s');
    if Forwarding(s) { MoveForwards(s, s'); }
  }

  lemma MemorySchedulingKeeps(s: State, c: nat)
    requires Inv(s) && MaySchedule(s, c)
    ensures Inv(MemoryScheduling(s, c))
    ensures Forwarding(s) ==> Forwarding(MemoryScheduling(s, c))
  {
    hide Inv, Forwarding;
    CheckAndAddKeeps(s, c);
    FinishSchedulingKeeps(CheckAndAdd(s, c), c);
  }

  // ----- runs

  datatype Event =
    | Reads(x: MemInstr)
    | Dispatches
    | Schedules(c: nat)
    | StoreIssued
    | StoreTranslation(q: nat)
    | StoreExecuted
    | LoadIssued
    | LoadTranslation(l: nat)
    | LoadExecuted
    | LoadAnswered(l: nat, eventCycle: nat)
    | Completes(c: nat)
    | Retires
    | Ticks(cycles: nat)

  /** An entry completes once nothing of it is outstanding and, for a memory instruction, everything is scheduled. */
  ghost predicate MayComplete(s: State, c: nat) {
    Live(s, c) && s.rob[c].numMemOps == 0 && (s.rob[c].instr.IsMemory() ==> s.rob[c].executed == Inflight)
  }

  /**
   One event; `front` is the room of the front end.  An event whose guard fails changes nothing,
   and neither does a store whose producer check fails, because the simulator stops there.
   */
  ghost function Step(s: State, front: nat, ev: Event): State
    requires Inv(s)
  {
    match ev
    case Reads(x) => if x.WellFormed() && |s.trace| - s.retired - s.occ < front then Read(s, x) else s
    case Dispatches => if MayDispatch(s) then Dispatch(s) else s
    case Schedules(c) => if MaySchedule(s, c) then MemoryScheduling(s, c) else s
    case StoreIssued => if |s.rts0| > 0 then (StoreToTlbKeepsInv(s); StoreToTlb(s)) else s
    case StoreTranslation(q) => if q in s.tlbStores then (StoreTranslatedKeepsInv(s, q); StoreTranslated(s, q)) else s
    case StoreExecuted =>
      if |s.rts1| == 0 then s
      else
        ExecuteStoreKeepsInv(s);
        if ExecuteStore(s).Some? then ExecuteStore(s).value else s
    case LoadIssued => if |s.rtl0| > 0 then (LoadToTlbKeepsInv(s); LoadToTlb(s)) else s
    case LoadTranslation(l) => if l in s.tlbLoads then (LoadTranslatedKeepsInv(s, l); LoadTranslated(s, l)) else s
    case LoadExecuted => if |s.rtl1| > 0 then (LoadToCacheKeepsInv(s); LoadToCache(s)) else s
    case LoadAnswered(l, e) => if l in s.cacheLoads then (FetchedKeepsInv(s, l, e); LoadFetched(s, l, e)) else s
    case Completes(c) => if MayComplete(s, c) then Complete(s, c) else s
    case Retires => if MayRetire(s) then (RetireKeepsInv(s); Retire(s)) else s
    case Ticks(n) => s.(clock := s.clock + n)
  }

  lemma StepKeepsInv(s: State, front: nat, ev: Event)
    requires Inv(s)
    ensures Inv(Step(s, front, ev))
  {
    hide Inv, MemoryScheduling, ExecuteStore, Retire, Dispatch, LoadFetched;
    match ev
    case Reads(x) => if x.WellFormed() { ReadKeepsInv(s, x); }
    case Dispatches => if MayDispatch(s) { DispatchKeepsInv(s); }
    case Schedules(c) => if MaySchedule(s, c) { MemorySchedulingKeeps(s, c); }
    case StoreIssued => if |s.rts0| > 0 { StoreToTlbKeepsInv(s); }
    case StoreTranslation(q) => if q in s.tlbStores { StoreTranslatedKeepsInv(s, q); }
    case StoreExecuted => if |s.rts1| > 0 { ExecuteStoreKeepsInv(s); }
    case LoadIssued => if |s.rtl0| > 0 { LoadToTlbKeepsInv(s); }
    case LoadTranslation(l) => if l in s.tlbLoads { LoadTranslatedKeepsInv(s, l); }
    case LoadExecuted => if |s.rtl1| > 0 { LoadToCacheKeepsInv(s); }
    case LoadAnswered(l, e) => if l in s.cacheLoads { FetchedKeepsInv(s, l, e); }
    case Completes(c) => if MayComplete(s, c) { FlagsKeepInv(s, Complete(s, c)); }
    case Retires => if MayRetire(s) { RetireKeepsInv(s); }
    case Ticks(n) => FlagsKeepInv(s, s.(clock := s.clock + n));
  }

  function Initial(robSize: nat, lqSize: nat, sqSize: nat, schedulingLatency: nat): State {
    State(seq(robSize, _ => EMPTY_ROB), 0, 0, 0, seq(lqSize, _ => EMPTY_LQ), 0, seq(sqSize, _ => EMPTY_SQ), 0, 0, 0,
          [], [], [], [], [], {}, {}, {}, 0, schedulingLatency, [], 0, [])
  }

  lemma {:induction false} NoneOccupied(lq: seq<LqEntry>)
    requires forall l :: 0 <= l < |lq| ==> lq[l].address == 0
    ensures Occupied(lq) == 0
  {
    if |lq| > 0 { NoneOccupied(lq[..|lq| - 1]); }
  }

  lemma InitialInv(robSize: nat, lqSize: nat, sqSize: nat, latency: nat)
    requires robSize >= 2 && lqSize >= 1 && sqSize >= 1
    ensures Inv(Initial(robSize, lqSize, sqSize, latency)) && Forwarding(Initial(robSize, lqSize, sqSize, latency))
  {
    NoneOccupied(Initial(robSize, lqSize, sqSize, latency).lq);
  }

  /** The state after the events `evs` from an empty core; the invariants hold in it. */
  ghost function Run(s0: State, front: nat, evs: seq<Event>): (s: State)
    requires Inv(s0)
    ensures Inv(s)
    decreases |evs|
  {
    if |evs| == 0 then s0
    else
      var m := Run(s0, front, evs[..|evs| - 1]);
      StepKeepsInv(m, front, evs[|evs| - 1]);
      Step(m, front, evs[|evs| - 1])
  }

  /** Only plain instructions are read. */
  ghost predicate PlainEvents(evs: seq<Event>) {
    forall k :: 0 <= k < |evs| && evs[k].Reads? ==> Plain(evs[k].x)
  }

  lemma StoreMoveForwards(s: State, q: nat)
    requires Inv(s) && Forwarding(s)
    ensures |s.rts0| > 0 ==> SqLive(s, s.rts0[0]) && Forwarding(StoreToTlb(s))
    ensures q in s.tlbStores ==> SqLive(s, q) && Forwarding(StoreTranslated(s, q))
  {
    if |s.rts0| > 0 { StoreToTlbQueues(s); MoveForwards(s, StoreToTlb(s)); }
    if q in s.tlbStores { assert InTlbStore(s, q); MoveForwards(s, StoreTranslated(s, q)); }
  }

  lemma LoadIssuedForwards(s: State)
    requires Inv(s) && Forwarding(s) && |s.rtl0| > 0
    ensures LqLive(s, s.rtl0[0]) && Forwarding(LoadToTlb(s))
  {
    LoadToTlbQueues(s);
    MoveForwards(s, LoadToTlb(s));
  }

  lemma LoadTranslatedForwards(s: State, l: nat)
    requires Inv(s) && Forwarding(s) && l in s.tlbLoads
    ensures LqLive(s, l) && Forwarding(LoadTranslated(s, l))
  {
    assert InTlb(s, l);
    MoveForwards(s, LoadTranslated(s, l));
  }

  lemma LoadExecutedForwards(s: State)
    requires Inv(s) && Forwarding(s) && |s.rtl1| > 0
    ensures LqLive(s, s.rtl1[0]) && Forwarding(LoadToCache(s))
  {
    LoadToCacheQueues(s);
    MoveForwards(s, LoadToCache(s));
  }

  lemma FlagsForward(s: State, c: nat, n: nat)
    requires Forwarding(s)
    ensures c < |s.rob| ==> Forwarding(Complete(s, c))
    ensures Forwarding(s.(clock := s.clock + n))
  {
    if c < |s.rob| { MoveForwards(s, Complete(s, c)); }
    MoveForwards(s, s.(clock := s.clock + n));
  }

  lemma RingEventsForward(s: State, x: MemInstr)
    requires Inv(s) && Forwarding(s)
    ensures Plain(x) ==> Forwarding(Read(s, x))
    ensures MayDispatch(s) ==> Forwarding(Dispatch(s))
    ensures MayRetire(s) ==> HeadStores(s) <= s.sqOcc && Forwarding(Retire(s))
  {
    if Plain(x) { ReadForwards(s, x); }
    if MayDispatch(s) { DispatchForwards(s); }
    if MayRetire(s) { RetireForwards(s); }
  }

  lemma StepForwards(s: State, front: nat, ev: Event)
    requires Inv(s) && Forwarding(s) && (ev.Reads? ==> Plain(ev.x))
    ensures Forwarding(Step(s, front, ev))
  {
    hide Inv, Forwarding, Plain;
    match ev
    case Reads(x) => RingEventsForward(s, x);
    case Dispatches => RingEventsForward(s, MemInstr([], []));
    case Schedules(c) => if MaySchedule(s, c) { MemorySchedulingKeeps(s, c); }
    case StoreIssued => StoreMoveForwards(s, 0);
    case StoreTranslation(q) => StoreMoveForwards(s, q);
    case StoreExecuted => if |s.rts1| > 0 { ExecuteStoreForwards(s); }
    case LoadIssued => if |s.rtl0| > 0 { LoadIssuedForwards(s); }
    case LoadTranslation(l) => if l in s.tlbLoads { LoadTranslatedForwards(s, l); }
    case LoadExecuted => if |s.rtl1| > 0 { LoadExecutedForwards(s); }
    case LoadAnswered(l, e) => if l in s.cacheLoads { FetchedForwards(s, l, e); }
    case Completes(c) => FlagsForward(s, c, 0);
    case Retires => RingEventsForward(s, MemInstr([], []));
    case Ticks(n) => FlagsForward(s, 0, n);
  }

  lemma {:induction false} RunForwards(s0: State, front: nat, evs: seq<Event>)
    requires Inv(s0) && Forwarding(s0) && PlainEvents(evs)
    ensures Forwarding(Run(s0, front, evs))
    decreases |evs|
  {
    hide Inv, Forwarding;
    if |evs| > 0 {
      RunForwards(s0, front, evs[..|evs| - 1]);
      StepForwards(Run(s0, front, evs[..|evs| - 1]), front, evs[|evs| - 1]);
    }
  }
}
