/**
 The load and store queues of the core with everything around them that decides when a memory
 instruction is done: the store order array, the ready-to-load and ready-to-store rings,
 store-to-load forwarding and the counters of outstanding operations.  Translation and the data
 cache are an environment that answers each accepted request exactly once.
 */
module LoadStoreQueue {
  import opened Common

  const NUM_INSTR_SOURCES: nat := 4

  /** The memory operands of one instruction of the trace; address 0 means "none". */
  datatype MemInstr = MemInstr(loads: seq<nat>, stores: seq<nat>)
  {
    ghost predicate WellFormed() { |loads| == NUM_INSTR_SOURCES }

    predicate IsMemory() {
      (exists j :: 0 <= j < |loads| && loads[j] != 0) || (exists i :: 0 <= i < |stores| && stores[i] != 0)
    }
  }

  datatype RobEntry = RobEntry(
    id: nat,
    instr: MemInstr,
    eventCycle: nat,
    scheduled: Status,
    executed: Status,
    numMemOps: int,
    sourceAdded: seq<bool>,
    destinationAdded: seq<bool>,
    lqIndex: seq<Option<nat>>,
    sqIndex: seq<Option<nat>>,
    isProducer: bool,
    dependents: set<nat>)        // memory_instrs_depend_on_me

  const EMPTY_ROB := RobEntry(0, MemInstr([], []), 0, Idle, Idle, 0, [], [], [], [], false, {})

  datatype LqEntry = LqEntry(
    address: nat, instrId: nat, producer: Option<nat>, robIndex: nat, dataIndex: nat,
    translated: Status, fetched: Status, eventCycle: nat)

  const EMPTY_LQ := LqEntry(0, 0, None, 0, 0, Idle, Idle, 0)

  datatype SqEntry = SqEntry(
    address: nat, instrId: nat, robIndex: nat, dataIndex: nat,
    translated: Status, fetched: Status, eventCycle: nat)

  const EMPTY_SQ := SqEntry(0, 0, 0, 0, Idle, Idle, 0)

  /** One load of the trace: its instruction's position and its operand. */
  datatype LoadId = LoadId(id: nat, index: nat)

  /** One store of the trace. */
  datatype StoreId = StoreId(id: nat, index: nat)

  /**
   `trace` holds every instruction read so far: the first `retired` ones are gone, the next `occ`
   are in the buffer, the rest still in the front end.  `finished` lists the loads that are done.
   `sta`, `rts0`, `rts1`, `rtl0` and `rtl1` are the contents of the rings of those names, and
   `tlbLoads`, `tlbStores` and `cacheLoads` the requests that are with the environment.
   */
  datatype State = State(
    rob: seq<RobEntry>, head: nat, tail: nat, occ: nat,
    lq: seq<LqEntry>, lqOcc: int,
    sq: seq<SqEntry>, sqHead: nat, sqTail: nat, sqOcc: nat,
    sta: seq<nat>, rts0: seq<nat>, rts1: seq<nat>, rtl0: seq<nat>, rtl1: seq<nat>,
    tlbLoads: set<nat>, tlbStores: set<nat>, cacheLoads: set<nat>,
    clock: nat, schedulingLatency: nat,
    trace: seq<MemInstr>, retired: nat, finished: seq<LoadId>)

  // ----- positions

  predicate RingShape(s: State) {
    && 2 <= |s.rob| && 0 < |s.lq| && 0 < |s.sq|
    && s.head < |s.rob| && s.occ <= |s.rob|
    && s.tail == Wrap(|s.rob|, s.head + s.occ) && s.tail < |s.rob|
    && s.sqHead < |s.sq| && s.sqOcc <= |s.sq|
    && s.sqTail == Wrap(|s.sq|, s.sqHead + s.sqOcc) && s.sqTail < |s.sq|
    && s.retired + s.occ <= |s.trace|
  }

  function Age(s: State, c: nat): nat
    requires s.head < |s.rob| && c < |s.rob|
  {
    AgeFrom(s.head, |s.rob|, c)
  }

  function Slot(s: State, age: nat): nat
    requires RingShape(s) && age < |s.rob|
  {
    Wrap(|s.rob|, s.head + age)
  }

  predicate Live(s: State, c: nat) {
    s.head < |s.rob| && c < |s.rob| && Age(s, c) < s.occ
  }

  function SqSlot(s: State, m: nat): nat
    requires RingShape(s) && m < |s.sq|
  {
    Wrap(|s.sq|, s.sqHead + m)
  }

  predicate SqLive(s: State, q: nat) {
    s.sqHead < |s.sq| && q < |s.sq| && AgeFrom(s.sqHead, |s.sq|, q) < s.sqOcc
  }

  predicate LqLive(s: State, l: nat) {
    l < |s.lq| && s.lq[l].address != 0
  }

  // ----- stores in program order

  function NonZero(xs: seq<nat>, n: nat): nat
    requires n <= |xs|
  {
    if n == 0 then 0 else NonZero(xs, n - 1) + (if xs[n - 1] != 0 then 1 else 0)
  }

  /** The stores of the first `n` operands of instruction `t`. */
  function StoresOf(t: nat, xs: seq<nat>, n: nat): (r: seq<StoreId>)
    requires n <= |xs|
    ensures |r| == NonZero(xs, n)
  {
    if n == 0 then [] else StoresOf(t, xs, n - 1) + (if xs[n - 1] != 0 then [StoreId(t, n - 1)] else [])
  }

  /** All stores of the first `t` instructions, in program order. */
  function AllStores(trace: seq<MemInstr>, t: nat): seq<StoreId>
    requires t <= |trace|
  {
    if t == 0 then [] else AllStores(trace, t - 1) + StoresOf(t - 1, trace[t - 1].stores, |trace[t - 1].stores|)
  }

  /** How many stores come before operand `i` of instruction `t`. */
  function Rank(trace: seq<MemInstr>, t: nat, i: nat): nat
    requires t < |trace| && i <= |trace[t].stores|
  {
    |AllStores(trace, t)| + NonZero(trace[t].stores, i)
  }

  /** How many stores have retired. */
  function Base(s: State): nat
    requires s.retired <= |s.trace|
  {
    |AllStores(s.trace, s.retired)|
  }

  // ----- front end and dispatch

  function Ids(t: nat, n: nat): seq<nat> { seq(n, _ => t) }

  /** read_from_trace: the stores of instruction `x` are announced to the store order array. */
  function Read(s: State, x: MemInstr): State {
    s.(trace := s.trace + [x], sta := s.sta + Ids(|s.trace|, NonZero(x.stores, |x.stores|)))
  }

  function FreshEntry(x: MemInstr, id: nat, clock: nat): RobEntry {
    RobEntry(id, x, clock, Idle, Idle,
             NonZero(x.loads, |x.loads|) + NonZero(x.stores, |x.stores|),
             seq(|x.loads|, _ => false), seq(|x.stores|, _ => false),
             seq(|x.loads|, _ => None), seq(|x.stores|, _ => None), false, {})
  }

  /** add_to_rob of the oldest instruction of the front end. */
  function Dispatch(s: State): State
    requires RingShape(s) && s.retired + s.occ < |s.trace|
  {
    var id := s.retired + s.occ;
    s.(rob := s.rob[s.tail := FreshEntry(s.trace[id], id, s.clock)],
       occ := s.occ + 1,
       tail := Wrap(|s.rob|, s.tail + 1))
  }

  // ----- loads

  /** The first free slot of the load queue at or after `l`. */
  function FreeFrom(lq: seq<LqEntry>, l: nat): nat
    requires l <= |lq|
    decreases |lq| - l
  {
    if l == |lq| || lq[l].address == 0 then l else FreeFrom(lq, l + 1)
  }

  /** The youngest entry of age below `age` that stores to `address`, executed or not. */
  function YoungestStore(s: State, age: nat, address: nat): (r: Option<nat>)
    requires RingShape(s) && age <= |s.rob|
    ensures r.Some? ==> r.value < |s.rob|
    decreases age
  {
    if age == 0 then None
    else if address in s.rob[Slot(s, age - 1)].instr.stores then Some(Slot(s, age - 1))
    else YoungestStore(s, age - 1, address)
  }

  /** The first store queue slot at or after `q` that holds `address` for instruction `producer`. */
  function ForwarderFrom(sq: seq<SqEntry>, q: nat, address: nat, producer: Option<nat>): nat
    requires q <= |sq|
    decreases |sq| - q
  {
    if q == |sq| || (sq[q].address == address && producer == Some(sq[q].instrId)) then q
    else ForwarderFrom(sq, q + 1, address, producer)
  }

  /** The part of add_load_queue that fills the slot and records the producer. */
  function EnterLoad(s: State, c: nat, j: nat, l: nat): State
    requires RingShape(s) && c < |s.rob| && l < |s.lq|
    requires j < |s.rob[c].instr.loads| && j < |s.rob[c].lqIndex| && j < |s.rob[c].sourceAdded|
  {
    var e := s.rob[c];
    var address := e.instr.loads[j];
    var p := YoungestStore(s, Age(s, c), address);
    var rob := s.rob[c := e.(lqIndex := e.lqIndex[j := Some(l)], sourceAdded := e.sourceAdded[j := true])];
    var entry := LqEntry(address, e.id, None, c, j, Idle, Idle, s.clock + s.schedulingLatency);
    match p
    case None => s.(rob := rob, lq := s.lq[l := entry], lqOcc := s.lqOcc + 1)
    case Some(k) =>
      s.(rob := rob[k := rob[k].(isProducer := true, dependents := rob[k].dependents + {c})],
         lq := s.lq[l := entry.(producer := Some(s.rob[k].id), translated := Inflight)],
         lqOcc := s.lqOcc + 1)
  }

  /** A load is done: its instruction has one operation fewer outstanding and its slot is free again. */
  function FinishLoad(s: State, l: nat, eventCycle: nat): State
    requires l < |s.lq| && s.lq[l].robIndex < |s.rob|
  {
    var c := s.lq[l].robIndex;
    s.(rob := s.rob[c := s.rob[c].(numMemOps := s.rob[c].numMemOps - 1, eventCycle := eventCycle)],
       lq := s.lq[l := EMPTY_LQ],
       lqOcc := s.lqOcc - 1,
       finished := s.finished + [LoadId(s.lq[l].instrId, s.lq[l].dataIndex)])
  }

  predicate CanForward(s: State, l: nat)
    requires l < |s.lq|
  {
    var q := ForwarderFrom(s.sq, 0, s.lq[l].address, s.lq[l].producer);
    q < |s.sq| && s.sq[q].fetched == Completed && s.sq[q].eventCycle <= s.clock
  }

  /** add_load_queue for operand `j` of slot `c`. */
  function AddLoad(s: State, c: nat, j: nat): State
    requires RingShape(s) && c < |s.rob| && FreeFrom(s.lq, 0) < |s.lq|
    requires j < |s.rob[c].instr.loads| && j < |s.rob[c].lqIndex| && j < |s.rob[c].sourceAdded|
  {
    var l := FreeFrom(s.lq, 0);
    var s1 := EnterLoad(s, c, j, l);
    if CanForward(s1, l) then FinishLoad(s1, l, s.clock)
    else if s1.lq[l].producer.None? then s1.(rtl0 := s1.rtl0 + [l])
    else s1
  }

  // ----- stores

  /** add_store_queue for operand `i` of slot `c`: the slot at the tail, in the order of the store order array. */
  function AddStore(s: State, c: nat, i: nat): State
    requires RingShape(s) && c < |s.rob| && |s.sta| > 0
    requires i < |s.rob[c].instr.stores| && i < |s.rob[c].sqIndex| && i < |s.rob[c].destinationAdded|
  {
    var e := s.rob[c];
    s.(rob := s.rob[c := e.(sqIndex := e.sqIndex[i := Some(s.sqTail)], destinationAdded := e.destinationAdded[i := true])],
       sq := s.sq[s.sqTail := SqEntry(e.instr.stores[i], e.id, c, i, Idle, Idle, s.clock + s.schedulingLatency)],
       sqOcc := s.sqOcc + 1,
       sqTail := Wrap(|s.sq|, s.sqTail + 1),
       sta := s.sta[1..],
       rts0 := s.rts0 + [s.sqTail])
  }

  /**
   The forwarding loops of execute_store from consumer `d`, operand `j` on, for store queue slot `q`.
   The answer is None if the sanity check on the producer fails.
   */
  function Forward(s: State, q: nat, d: nat, j: nat): Option<State>
    requires q < |s.sq| && s.sq[q].robIndex < |s.rob| && d <= |s.rob| && j <= NUM_INSTR_SOURCES
    decreases |s.rob| - d, NUM_INSTR_SOURCES - j
  {
    if d == |s.rob| then Some(s)
    else if j == NUM_INSTR_SOURCES || d !in s.rob[s.sq[q].robIndex].dependents then Forward(s, q, d + 1, 0)
    else if Matches(s, q, d, j) then
      var l := s.rob[d].lqIndex[j].value;
      if s.lq[l].producer == Some(s.sq[q].instrId) && s.lq[l].robIndex < |s.rob|
      then Forward(FinishLoad(s, l, s.clock), q, d, j + 1)
      else None
    else Forward(s, q, d, j + 1)
  }

  /** Operand `j` of slot `d` is an added load of the address in store queue slot `q`. */
  predicate Matches(s: State, q: nat, d: nat, j: nat)
    requires q < |s.sq| && d < |s.rob|
  {
    var e := s.rob[d];
    && j < |e.instr.loads| && j < |e.sourceAdded| && j < |e.lqIndex|
    && e.instr.loads[j] != 0 && e.sourceAdded[j] && e.instr.loads[j] == s.sq[q].address
    && e.lqIndex[j].Some? && e.lqIndex[j].value < |s.lq|
  }

  function StoreDone(s: State, q: nat): State
    requires q < |s.sq| && s.sq[q].robIndex < |s.rob|
  {
    var c := s.sq[q].robIndex;
    s.(sq := s.sq[q := s.sq[q].(fetched := Completed, eventCycle := s.clock)],
       rob := s.rob[c := s.rob[c].(numMemOps := s.rob[c].numMemOps - 1, eventCycle := s.clock)])
  }

  /** execute_store of the oldest entry of RTS1. */
  function ExecuteStore(s: State): Option<State>
    requires |s.rts1| > 0 && s.rts1[0] < |s.sq| && s.sq[s.rts1[0]].robIndex < |s.rob|
  {
    var q := s.rts1[0];
    var s1 := StoreDone(s, q).(rts1 := s.rts1[1..]);
    if s1.rob[s1.sq[q].robIndex].isProducer then Forward(s1, q, 0, 0) else Some(s1)
  }

  // ----- translation and cache

  /** operate_lsq hands the oldest entry of RTS0 to the DTLB, which accepts it. */
  function StoreToTlb(s: State): State
    requires |s.rts0| > 0 && s.rts0[0] < |s.sq|
  {
    var q := s.rts0[0];
    s.(sq := s.sq[q := s.sq[q].(translated := Inflight)], rts0 := s.rts0[1..], tlbStores := s.tlbStores + {q})
  }

  function StoreTranslated(s: State, q: nat): State
    requires q < |s.sq|
  {
    s.(sq := s.sq[q := s.sq[q].(translated := Completed, eventCycle := s.clock)],
       rts1 := s.rts1 + [q], tlbStores := s.tlbStores - {q})
  }

  function LoadToTlb(s: State): State
    requires |s.rtl0| > 0 && s.rtl0[0] < |s.lq|
  {
    var l := s.rtl0[0];
    s.(lq := s.lq[l := s.lq[l].(translated := Inflight)], rtl0 := s.rtl0[1..], tlbLoads := s.tlbLoads + {l})
  }

  function LoadTranslated(s: State, l: nat): State
    requires l < |s.lq|
  {
    s.(lq := s.lq[l := s.lq[l].(translated := Completed, eventCycle := s.clock)],
       rtl1 := s.rtl1 + [l], tlbLoads := s.tlbLoads - {l})
  }

  /** execute_load of the oldest entry of RTL1, which the data cache accepts. */
  function LoadToCache(s: State): State
    requires |s.rtl1| > 0 && s.rtl1[0] < |s.lq|
  {
    var l := s.rtl1[0];
    s.(lq := s.lq[l := s.lq[l].(fetched := Inflight)], rtl1 := s.rtl1[1..], cacheLoads := s.cacheLoads + {l})
  }

  /** The data cache answers load `l`: complete_data_fetch, or handle_merged_load for a merged one. */
  function LoadFetched(s: State, l: nat, eventCycle: nat): State
    requires l < |s.lq| && s.lq[l].robIndex < |s.rob|
  {
    FinishLoad(s, l, eventCycle).(cacheLoads := s.cacheLoads - {l})
  }

  // ----- completion and retirement

  function Complete(s: State, c: nat): State
    requires c < |s.rob|
  {
    s.(rob := s.rob[c := s.rob[c].(executed := Completed)])
  }

  /** One iteration of the loop of retire_rob that releases store queue slots. */
  function ReleaseStore(s: State): State
    requires s.sqHead < |s.sq| && s.sqOcc > 0
  {
    s.(sq := s.sq[s.sqHead := EMPTY_SQ], sqHead := Wrap(|s.sq|, s.sqHead + 1), sqOcc := s.sqOcc - 1)
  }

  function ReleaseStores(s: State, n: nat): State
    requires s.sqHead < |s.sq| && n <= s.sqOcc
    decreases n
  {
    if n == 0 then s else ReleaseStores(ReleaseStore(s), n - 1)
  }

  /** retire_rob for the oldest entry: its `n` placed stores leave first. */
  function Retire(s: State): State
    requires RingShape(s) && s.occ > 0 && NonZero(s.rob[s.head].instr.stores, |s.rob[s.head].instr.stores|) <= s.sqOcc
  {
    var s1 := ReleaseStores(s, NonZero(s.rob[s.head].instr.stores, |s.rob[s.head].instr.stores|));
    s1.(rob := s.rob[s.head := EMPTY_ROB], head := Wrap(|s.rob|, s.head + 1), occ := s.occ - 1, retired := s.retired + 1)
  }

  // ----- invariants

  ghost predicate EntryShape(e: RobEntry) {
    && e.instr.WellFormed()
    && |e.sourceAdded| == |e.lqIndex| == NUM_INSTR_SOURCES
    && |e.destinationAdded| == |e.sqIndex| == |e.instr.stores|
  }

  /** Live slots hold the instructions of the trace in order. */
  ghost predicate Shape(s: State) {
    && RingShape(s)
    && (forall c: nat :: Live(s, c) ==> && EntryShape(s.rob[c])
                                        && s.rob[c].id == s.retired + Age(s, c)
                                        && s.rob[c].instr == s.trace[s.retired + Age(s, c)])
    && (forall c: nat :: c < |s.rob| && !Live(s, c) ==> s.rob[c] == EMPTY_ROB)
    && (forall t: nat :: t < |s.trace| ==> s.trace[t].WellFormed())
  }

  /** The store queue holds the next stores of the trace, the store order array announces all later ones. */
  ghost predicate StoreOrder(s: State)
    requires RingShape(s)
  {
    var all := AllStores(s.trace, |s.trace|);
    && Base(s) + s.sqOcc <= |all|
    && |s.sta| == |all| - Base(s) - s.sqOcc
    && (forall k :: 0 <= k < |s.sta| ==> s.sta[k] == all[Base(s) + s.sqOcc + k].id)
    && (forall m: nat :: m < s.sqOcc ==> StoreId(s.sq[SqSlot(s, m)].instrId, s.sq[SqSlot(s, m)].dataIndex) == all[Base(s) + m])
    && (forall q: nat :: q < |s.sq| && !SqLive(s, q) ==> s.sq[q] == EMPTY_SQ)
  }

  /** Operand `i` of slot `c` is in the store queue exactly if its rank has come up, and then in the slot of its rank. */
  ghost predicate StorePlaced(s: State, c: nat, i: nat)
    requires Shape(s) && Live(s, c) && i < |s.rob[c].instr.stores|
  {
    var e := s.rob[c];
    var r := Rank(s.trace, e.id, i);
    if e.instr.stores[i] != 0 && r < Base(s) + s.sqOcc then
      && e.destinationAdded[i]
      && Base(s) <= r
      && e.sqIndex[i] == Some(SqSlot(s, r - Base(s)))
      && var x := s.sq[SqSlot(s, r - Base(s))];
      && x.address == e.instr.stores[i] && x.instrId == e.id && x.robIndex == c && x.dataIndex == i
    else !e.destinationAdded[i] && e.sqIndex[i].None?
  }

  ghost predicate Placement(s: State)
    requires Shape(s)
  {
    && (forall c: nat, i: nat :: Live(s, c) && i < |s.rob[c].instr.stores| ==> StorePlaced(s, c, i))
    && Base(s) + s.sqOcc <= |AllStores(s.trace, s.retired + s.occ)|
  }

  /** Load queue slot `l` belongs to operand `dataIndex` of buffer slot `robIndex`, and that operand knows it. */
  ghost predicate OwnedLoad(s: State, l: nat)
    requires LqLive(s, l)
  {
    var x := s.lq[l];
    && Live(s, x.robIndex) && x.dataIndex < NUM_INSTR_SOURCES
    && EntryShape(s.rob[x.robIndex])
    && s.rob[x.robIndex].sourceAdded[x.dataIndex]
    && s.rob[x.robIndex].lqIndex[x.dataIndex] == Some(l)
    && s.rob[x.robIndex].instr.loads[x.dataIndex] == x.address
    && s.rob[x.robIndex].id == x.instrId
  }

  function Occupied(lq: seq<LqEntry>): nat {
    if |lq| == 0 then 0 else Occupied(lq[..|lq| - 1]) + (if lq[|lq| - 1].address != 0 then 1 else 0)
  }

  ghost predicate Loads(s: State) {
    && (forall l: nat :: LqLive(s, l) ==> OwnedLoad(s, l))
    && (forall l: nat :: l < |s.lq| && !LqLive(s, l) ==> s.lq[l] == EMPTY_LQ)
    && s.lqOcc == Occupied(s.lq)
    && (forall c: nat, j: nat :: Live(s, c) && j < |s.rob[c].sourceAdded| && s.rob[c].sourceAdded[j] ==> LoadAdded(s, c, j))
  }

  ghost predicate LoadAdded(s: State, c: nat, j: nat)
    requires c < |s.rob|
  {
    && j < |s.rob[c].lqIndex| && j < |s.rob[c].instr.loads|
    && s.rob[c].lqIndex[j].Some? && s.rob[c].lqIndex[j].value < |s.lq|
    && s.rob[c].instr.loads[j] != 0
  }

  /** Operand `j` of slot `c` has a slot in the load queue. */
  predicate Holds(s: State, c: nat, j: nat) {
    && c < |s.rob| && j < |s.rob[c].lqIndex| && s.rob[c].lqIndex[j].Some?
    && var l := s.rob[c].lqIndex[j].value;
    && LqLive(s, l) && s.lq[l].robIndex == c && s.lq[l].dataIndex == j
  }

  /** Operand `j` is a load that is not done yet. */
  predicate LoadPending(s: State, c: nat, j: nat)
    requires c < |s.rob|
  {
    && j < |s.rob[c].instr.loads| && j < |s.rob[c].sourceAdded|
    && s.rob[c].instr.loads[j] != 0
    && (!s.rob[c].sourceAdded[j] || Holds(s, c, j))
  }

  /** Operand `i` is a store that has not been executed yet. */
  predicate StorePending(s: State, c: nat, i: nat)
    requires c < |s.rob|
  {
    && i < |s.rob[c].instr.stores| && i < |s.rob[c].sqIndex|
    && s.rob[c].instr.stores[i] != 0
    && !(s.rob[c].sqIndex[i].Some? && s.rob[c].sqIndex[i].value < |s.sq| && s.sq[s.rob[c].sqIndex[i].value].fetched == Completed)
  }

  function PendingLoads(s: State, c: nat, n: nat): nat
    requires c < |s.rob|
  {
    if n == 0 then 0 else PendingLoads(s, c, n - 1) + (if LoadPending(s, c, n - 1) then 1 else 0)
  }

  function PendingStores(s: State, c: nat, n: nat): nat
    requires c < |s.rob|
  {
    if n == 0 then 0 else PendingStores(s, c, n - 1) + (if StorePending(s, c, n - 1) then 1 else 0)
  }

  /** num_mem_ops counts the loads and stores that are still outstanding. */
  ghost predicate Outstanding(s: State, c: nat)
    requires c < |s.rob|
  {
    && s.rob[c].numMemOps == PendingLoads(s, c, NUM_INSTR_SOURCES) + PendingStores(s, c, |s.rob[c].instr.stores|)
    && (s.rob[c].executed == Completed ==> s.rob[c].numMemOps == 0)
  }

  ghost predicate Counts(s: State) {
    forall c: nat :: Live(s, c) ==> Outstanding(s, c)
  }

  // Where an entry is follows from its flags.

  predicate InRtl0(s: State, l: nat) { LqLive(s, l) && s.lq[l].producer.None? && s.lq[l].translated == Idle }

  predicate InTlb(s: State, l: nat) { LqLive(s, l) && s.lq[l].producer.None? && s.lq[l].translated == Inflight }

  predicate InRtl1(s: State, l: nat) {
    LqLive(s, l) && s.lq[l].producer.None? && s.lq[l].translated == Completed && s.lq[l].fetched == Idle
  }

  predicate InCache(s: State, l: nat) {
    LqLive(s, l) && s.lq[l].producer.None? && s.lq[l].translated == Completed && s.lq[l].fetched == Inflight
  }

  ghost predicate LoadQueues(s: State) {
    && Distinct(s.rtl0) && Distinct(s.rtl1)
    && (forall l: nat :: l in s.rtl0 <==> InRtl0(s, l))
    && (forall l: nat :: l in s.tlbLoads <==> InTlb(s, l))
    && (forall l: nat :: l in s.rtl1 <==> InRtl1(s, l))
    && (forall l: nat :: l in s.cacheLoads <==> InCache(s, l))
    && (forall l: nat | LqLive(s, l) :: && s.lq[l].fetched != Completed
                                        && (s.lq[l].translated != Completed ==> s.lq[l].fetched == Idle))
  }

  predicate InRts0(s: State, q: nat) { SqLive(s, q) && s.sq[q].translated == Idle }

  predicate InTlbStore(s: State, q: nat) { SqLive(s, q) && s.sq[q].translated == Inflight }

  predicate InRts1(s: State, q: nat) { SqLive(s, q) && s.sq[q].translated == Completed && s.sq[q].fetched != Completed }

  ghost predicate StoreQueues(s: State) {
    && Distinct(s.rts0) && Distinct(s.rts1)
    && (forall q: nat :: q in s.rts0 <==> InRts0(s, q))
    && (forall q: nat :: q in s.tlbStores <==> InTlbStore(s, q))
    && (forall q: nat :: q in s.rts1 <==> InRts1(s, q))
    && (forall q: nat :: SqLive(s, q) && s.sq[q].fetched == Completed ==> s.sq[q].translated == Completed)
  }

  /** Load `x` of the trace is done: its instruction has retired, or the operand is no longer pending. */
  predicate IsFinished(s: State, x: LoadId) {
    && x.id < |s.trace| && x.index < |s.trace[x.id].loads| && s.trace[x.id].loads[x.index] != 0
    && (x.id < s.retired
        || exists c: nat :: c < |s.rob| && Live(s, c) && s.rob[c].id == x.id && !LoadPending(s, c, x.index))
  }

  /** Every load is recorded as done at most once, and exactly when it is. */
  ghost predicate Finishes(s: State) {
    && Distinct(s.finished)
    && (forall x: LoadId :: x in s.finished <==> IsFinished(s, x))
  }

  ghost predicate Inv(s: State) {
    && Shape(s) && StoreOrder(s) && Placement(s) && Loads(s) && Counts(s)
    && LoadQueues(s) && StoreQueues(s) && Finishes(s)
  }
}
