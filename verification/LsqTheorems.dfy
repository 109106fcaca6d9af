/** What the load/store queue guarantees in every state of every run. */
module LsqTheorems {
  import opened Common
  import opened LoadStoreQueue
  import opened StoreRanks
  import opened LsqFrames
  import opened LsqFinish
  import opened LsqStores
  import opened LsqRing
  import opened LsqRetire
  import opened LsqForwarding
  import opened LsqForwardingSteps
  import opened LsqRuns
  import opened LsqWaiting

  /** The parameters of a core. */
  datatype Config = Config(robSize: nat, lqSize: nat, sqSize: nat, front: nat, latency: nat)
  {
    predicate Valid() { robSize >= 2 && lqSize >= 1 && sqSize >= 1 }
  }

  /** A state that some run from an empty core reaches. */
  ghost function Reached(k: Config, evs: seq<Event>): (s: State)
    requires k.Valid()
    ensures Inv(s)
  {
    InitialInv(k.robSize, k.lqSize, k.sqSize, k.latency);
    Run(Initial(k.robSize, k.lqSize, k.sqSize, k.latency), k.front, evs)
  }

  // ----- loads and counters

  /** num_mem_ops is exact, and never negative, for every instruction in the buffer. */
  lemma CountersAreExact(k: Config, evs: seq<Event>, c: nat)
    requires k.Valid() && Live(Reached(k, evs), c)
    ensures var s := Reached(k, evs);
            && s.rob[c].numMemOps == PendingLoads(s, c, NUM_INSTR_SOURCES) + PendingStores(s, c, |s.rob[c].instr.stores|)
            && s.lqOcc == Occupied(s.lq)
            && (s.rob[c].executed == Completed ==> (forall j: nat :: j < NUM_INSTR_SOURCES ==> !LoadPending(s, c, j)))
  {
    var s := Reached(k, evs);
    assert Outstanding(s, c);
    if s.rob[c].executed == Completed { NothingPending(s, c); }
  }

  /** No load finishes twice, and every load of a retired instruction has finished once. */
  lemma LoadsFinishOnce(k: Config, evs: seq<Event>, x: LoadId)
    requires k.Valid()
    ensures var s := Reached(k, evs);
            && multiset(s.finished)[x] <= 1
            && (x.id < s.retired && x.index < |s.trace[x.id].loads| && s.trace[x.id].loads[x.index] != 0 ==> multiset(s.finished)[x] == 1)
  {
    var s := Reached(k, evs);
    DistinctCount(s.finished, x);
    assert x in s.finished <==> IsFinished(s, x);
  }

  // ----- forwarding

  /** In a plain program the producer check of execute_store holds whenever a store executes. */
  lemma ProducerCheckHolds(k: Config, evs: seq<Event>)
    requires k.Valid() && PlainEvents(evs) && |Reached(k, evs).rts1| > 0
    ensures var s := Reached(k, evs); s.rts1[0] < |s.sq| && s.sq[s.rts1[0]].robIndex < |s.rob| && ExecuteStore(s).Some?
  {
    var s := Reached(k, evs);
    InitialInv(k.robSize, k.lqSize, k.sqSize, k.latency);
    RunForwards(Initial(k.robSize, k.lqSize, k.sqSize, k.latency), k.front, evs);
    ExecuteStoreForwards(s);
  }

  /**
   A load that waits in the queue waits for the last older instruction that stores to its address,
   which is in the buffer and has such a store still to execute; and a load that goes to memory has
   no older store to its address in the buffer.  This holds for all programs.
   */
  lemma LoadsWaitForTheirStore(k: Config, evs: seq<Event>, l: nat)
    requires k.Valid() && LqLive(Reached(k, evs), l)
    ensures var s := Reached(k, evs);
            && s.lq[l].instrId <= |s.trace|
            && var w := LastStore(s.trace, s.lq[l].instrId, s.lq[l].address);
            match s.lq[l].producer
            case None => w.None? || w.value < s.retired
            case Some(v) => w == Some(v) && exists p: nat :: Live(s, p) && s.rob[p].id == v && StillToStore(s, p, s.lq[l].address)
  {
    var s := Reached(k, evs);
    InitialInv(k.robSize, k.lqSize, k.sqSize, k.latency);
    RunWaits(Initial(k.robSize, k.lqSize, k.sqSize, k.latency), k.front, evs);
    hide Reached, Inv;
    assert RightProducer(s, l);
    if s.lq[l].producer.Some? {
      var p: nat :| WaitsFor(s, l, p, s.lq[l].producer.value);
      assert Live(s, p) && s.rob[p].id == s.lq[l].producer.value && StillToStore(s, p, s.lq[l].address);
    }
  }

  // ----- stores in order

  lemma InOrderAt(s: State, m: nat)
    requires Inv(s) && m < s.sqOcc
    ensures RingShape(s) && Base(s) + m < |AllStores(s.trace, |s.trace|)|
    ensures StoreId(s.sq[SqSlot(s, m)].instrId, s.sq[SqSlot(s, m)].dataIndex) == AllStores(s.trace, |s.trace|)[Base(s) + m]
    ensures s.sqOcc < |s.sq| ==> s.sqTail < |s.sq| && s.sq[s.sqTail] == EMPTY_SQ
  {
    if s.sqOcc < |s.sq| { TailIsFree(s); }
  }

  /** The store queue holds a contiguous piece of the program's stores, and its tail slot is free while it has room. */
  lemma StoresInProgramOrder(k: Config, evs: seq<Event>, m: nat)
    requires k.Valid() && m < Reached(k, evs).sqOcc
    ensures var s := Reached(k, evs);
            && RingShape(s) && Base(s) + m < |AllStores(s.trace, |s.trace|)|
            && StoreId(s.sq[SqSlot(s, m)].instrId, s.sq[SqSlot(s, m)].dataIndex) == AllStores(s.trace, |s.trace|)[Base(s) + m]
            && (s.sqOcc < |s.sq| ==> s.sq[s.sqTail] == EMPTY_SQ)
  {
    hide Reached;
    InOrderAt(Reached(k, evs), m);
  }

  /** When the oldest entry retires, its stores are exactly the slots from SQ.head on, in operand order. */
  lemma RetirementFreesTheHead(k: Config, evs: seq<Event>, i: nat)
    requires k.Valid() && MayRetire(Reached(k, evs))
    requires var s := Reached(k, evs); i < |s.rob[s.head].instr.stores| && s.rob[s.head].instr.stores[i] != 0
    ensures var s := Reached(k, evs);
            && NonZero(s.rob[s.head].instr.stores, i) < s.sqOcc && RingShape(s) && i < |s.rob[s.head].sqIndex|
            && s.rob[s.head].sqIndex[i] == Some(SqSlot(s, NonZero(s.rob[s.head].instr.stores, i)))
  {
    hide Reached, Inv, NonZero;
    HeadStoreSlot(Reached(k, evs), i);
  }

  lemma HeadStoreSlot(s: State, i: nat)
    requires Inv(s) && MayRetire(s) && i < |s.rob[s.head].instr.stores| && s.rob[s.head].instr.stores[i] != 0
    ensures NonZero(s.rob[s.head].instr.stores, i) < s.sqOcc && RingShape(s) && i < |s.rob[s.head].sqIndex|
    ensures s.rob[s.head].sqIndex[i] == Some(SqSlot(s, NonZero(s.rob[s.head].instr.stores, i)))
  {
    hide NonZero, LoadQueues, StoreQueues, Finishes, Loads;
    assert Live(s, s.head) && s.rob[s.head].id == s.retired && EntryShape(s.rob[s.head]);
    NothingPending(s, s.head);
    assert StorePlaced(s, s.head, i) && !StorePending(s, s.head, i);
  }

  /** While the oldest entry has a store to place, the store queue holds only stores of that entry. */
  lemma HeadOwnsTheQueue(s: State, i: nat, q: nat)
    requires Inv(s) && s.occ > 0 && EntryShape(s.rob[s.head])
    requires i < |s.rob[s.head].instr.stores| && s.rob[s.head].instr.stores[i] != 0 && !s.rob[s.head].destinationAdded[i]
    requires SqLive(s, q)
    ensures s.sq[q].robIndex == s.head && s.sq[q].dataIndex < i
  {
    hide AllStores, NonZero, LoadQueues, StoreQueues, Finishes, Loads, Counts;
    StoreOwner(s, q);
    var c, x := s.sq[q].robIndex, s.sq[q].dataIndex;
    assert Live(s, s.head) && s.rob[s.head].id == s.retired;
    assert StorePlaced(s, s.head, i) && StorePlaced(s, c, x);
    if c != s.head || x > i { RankOrder(s.trace, s.retired, i, s.rob[c].id, x); }
  }

  lemma {:induction false} AllStoresOfHead(s: State, i: nat, n: nat)
    requires Inv(s) && s.occ > 0 && EntryShape(s.rob[s.head]) && n <= s.sqOcc
    requires i < |s.rob[s.head].instr.stores| && s.rob[s.head].instr.stores[i] != 0 && !s.rob[s.head].destinationAdded[i]
    ensures n <= NonZero(s.rob[s.head].instr.stores, i)
  {
    hide Loads, Counts, LoadQueues, StoreQueues, Finishes;
    if n > 0 {
      var q := SqSlot(s, n - 1);
      HeadOwnsTheQueue(s, i, q);
      var x := s.sq[q].dataIndex;
      HeadIsFirst(s);
      StoreOwner(s, q);
      assert StorePlaced(s, s.head, x);
      NonZeroGrows(s.rob[s.head].instr.stores, x + 1, i);
    }
  }

  /**
   No deadlock on a full store queue: if the queue has at least as many slots as the oldest entry
   has stores, one do_memory_scheduling of that entry places all of them.
   */
  lemma HeadStoresAlwaysFit(k: Config, evs: seq<Event>, s: State, i: nat)
    requires k.Valid() && s == Reached(k, evs)
    requires Live(s, s.head) && HeadStores(s) <= |s.sq|
    requires i < |s.rob[s.head].instr.stores| && s.rob[s.head].instr.stores[i] != 0
    ensures var e := CheckAndAdd(s, s.head).rob;
            s.head < |e| && i < |e[s.head].destinationAdded| && e[s.head].destinationAdded[i]
  {
    hide Reached, Inv, CheckAndAdd;
    HeadFits(s, i);
  }

  lemma HeadFits(s: State, i: nat)
    requires Inv(s) && Live(s, s.head) && HeadStores(s) <= |s.sq|
    requires i < |s.rob[s.head].instr.stores| && s.rob[s.head].instr.stores[i] != 0
    ensures var s' := CheckAndAdd(s, s.head);
            && s.head < |s'.rob| && i < |s'.rob[s.head].destinationAdded| && s'.rob[s.head].destinationAdded[i]
  {
    var c := s.head;
    CheckAndAddKeeps(s, c);
    var s' := CheckAndAdd(s, c);
    KeepsHead(s, c);
    EntryOf(s', c);
    if !s'.rob[c].destinationAdded[i] { HeadNotBlocked(s', i); }
  }

  /** Adding operations does not move the ring. */
  lemma AddLoadRing(s: State, c: nat, j: nat)
    requires CanAddLoad(s, c, j)
    ensures var s' := AddLoad(s, c, j); s'.head == s.head && s'.occ == s.occ && |s'.sq| == |s.sq| && |s'.lq| == |s.lq|
  {
  }

  lemma {:induction false} LoadsKeepHead(s: State, c: nat, j: nat)
    requires Inv(s) && Live(s, c) && j <= NUM_INSTR_SOURCES
    ensures var s' := AddLoads(s, c, j); s'.head == s.head && s'.occ == s.occ && |s'.sq| == |s.sq| && |s'.lq| == |s.lq|
    decreases NUM_INSTR_SOURCES - j
  {
    hide Inv, CanAddLoad, AddLoad;
    if j < NUM_INSTR_SOURCES {
      if CanAddLoad(s, c, j) {
        LoadBounds(s, c, j);
        AddLoadRing(s, c, j);
        AddLoadStep(s, c, j);
        LoadsKeepHead(AddLoad(s, c, j), c, j + 1);
      } else {
        LoadsKeepHead(s, c, j + 1);
      }
    }
  }

  lemma {:induction false} StoresKeepHead(s: State, c: nat, i: nat, n: nat)
    requires i <= n
    ensures var s' := AddStores(s, c, i, n); s'.head == s.head && s'.occ == s.occ && |s'.sq| == |s.sq| && |s'.lq| == |s.lq|
    decreases n - i
  {
    if i < n { StoresKeepHead(if CanAddStore(s, c, i) then AddStore(s, c, i) else s, c, i + 1, n); }
  }

  lemma KeepsHead(s: State, c: nat)
    requires Inv(s) && Live(s, c)
    ensures var s' := CheckAndAdd(s, c); s'.head == s.head && s'.occ == s.occ && |s'.sq| == |s.sq| && |s'.lq| == |s.lq|
  {
    LoadsKeepHead(s, c, 0);
    StoresKeepHead(AddLoads(s, c, 0), c, 0, |s.rob[c].instr.stores|);
  }

  /** With a store of the oldest entry unplaced, the queue has room and the store order array admits that entry. */
  lemma HeadNotBlocked(s: State, i: nat)
    requires Inv(s) && s.occ > 0 && EntryShape(s.rob[s.head]) && HeadStores(s) <= |s.sq|
    requires i < |s.rob[s.head].instr.stores| && s.rob[s.head].instr.stores[i] != 0 && !s.rob[s.head].destinationAdded[i]
    ensures s.sqOcc < |s.sq| && |s.sta| > 0 && s.sta[0] == s.rob[s.head].id
  {
    hide Loads, Counts, LoadQueues, StoreQueues, Finishes, Wrap, AgeFrom;
    AllStoresOfHead(s, i, s.sqOcc);
    NonZeroGrows(s.rob[s.head].instr.stores, i + 1, |s.rob[s.head].instr.stores|);
    HeadIsFirst(s);
    assert StorePlaced(s, s.head, i);
    RankAt(s.trace, s.retired, i, |s.trace|);
    var placed := Base(s) + s.sqOcc;
    var t, x := RankFind(s.trace, |s.trace|, placed);
    if t > s.retired { RankOrder(s.trace, s.retired, i, t, x); }
    if t < s.retired { RankAt(s.trace, t, x, s.retired); }
  }

  // ----- the store order array

  ghost predicate AtMost(trace: seq<MemInstr>, d: nat) {
    forall t :: 0 <= t < |trace| ==> |trace[t].stores| <= d
  }

  lemma {:induction false} FewStores(trace: seq<MemInstr>, t: nat, u: nat, d: nat)
    requires t <= u <= |trace| && AtMost(trace, d)
    ensures |AllStores(trace, u)| - |AllStores(trace, t)| <= d * (u - t)
    decreases u
  {
    if t < u {
      FewStores(trace, t, u - 1, d);
      NonZeroGrows(trace[u - 1].stores, 0, |trace[u - 1].stores|);
      assert d * (u - t) == d * (u - 1 - t) + d;
    }
  }

  /** The store order array never needs more than the destinations of the instructions in flight. */
  lemma StaFits(s: State, d: nat)
    requires Inv(s) && AtMost(s.trace, d)
    ensures |s.sta| <= d * (|s.trace| - s.retired)
  {
    FewStores(s.trace, s.retired, |s.trace|, d);
  }

  lemma {:induction false} RunFront(s0: State, front: nat, evs: seq<Event>)
    requires Inv(s0) && |s0.trace| - s0.retired - s0.occ <= front
    ensures var s := Run(s0, front, evs); |s.trace| - s.retired - s.occ <= front && |s.rob| == |s0.rob|
    decreases |evs|
  {
    if |evs| > 0 {
      var m := Run(s0, front, evs[..|evs| - 1]);
      RunFront(s0, front, evs[..|evs| - 1]);
      StepFront(m, front, evs[|evs| - 1]);
    }
  }

  lemma StepFront(s: State, front: nat, ev: Event)
    requires Inv(s)
    ensures |Step(s, front, ev).rob| == |s.rob| && |Step(s, front, ev).lq| == |s.lq|
    ensures |s.trace| - s.retired - s.occ <= front ==> var s' := Step(s, front, ev); |s'.trace| - s'.retired - s'.occ <= front
  {
    hide Inv, MemoryScheduling, ExecuteStore, Retire;
    InvRing(s);
    match ev
    case Schedules(c) => if MaySchedule(s, c) { ScheduleFront(s, c); }
    case StoreExecuted => if |s.rts1| > 0 { ExecuteStoreKeepsInv(s); ExecuteKeepsRing(s); }
    case LoadIssued => if |s.rtl0| > 0 { LoadToTlbKeepsInv(s); }
    case LoadTranslation(l) => if l in s.tlbLoads { LoadTranslatedKeepsInv(s, l); }
    case LoadExecuted => if |s.rtl1| > 0 { LoadToCacheKeepsInv(s); }
    case LoadAnswered(l, e) => if l in s.cacheLoads { FetchedKeepsInv(s, l, e); }
    case Retires => if MayRetire(s) { RetireFront(s); }
    case _ =>
  }

  lemma InvRing(s: State)
    requires Inv(s)
    ensures RingShape(s)
  {
  }

  lemma RetireFront(s: State)
    requires Inv(s) && MayRetire(s)
    ensures RingShape(s) && HeadStores(s) <= s.sqOcc
    ensures var s' := Retire(s); s'.trace == s.trace && s'.retired == s.retired + 1 && s'.occ == s.occ - 1 && |s'.rob| == |s.rob| && s'.lq == s.lq
  {
    RetireFrame(s);
  }

  lemma ScheduleFront(s: State, c: nat)
    requires Inv(s) && MaySchedule(s, c)
    ensures var s' := MemoryScheduling(s, c); s'.trace == s.trace && s'.retired == s.retired && s'.occ == s.occ && |s'.rob| == |s.rob| && |s'.lq| == |s.lq|
  {
    CheckAndAddKeeps(s, c);
    KeepsHead(s, c);
    KeepsRetired(s, c);
    hide Inv, CheckAndAdd;
  }

  lemma {:induction false} LoadsKeepRetired(s: State, c: nat, j: nat)
    requires j <= NUM_INSTR_SOURCES
    ensures AddLoads(s, c, j).retired == s.retired
    decreases NUM_INSTR_SOURCES - j
  {
    if j < NUM_INSTR_SOURCES { LoadsKeepRetired(if CanAddLoad(s, c, j) then AddLoad(s, c, j) else s, c, j + 1); }
  }

  lemma {:induction false} StoresKeepRetired(s: State, c: nat, i: nat, n: nat)
    requires i <= n
    ensures AddStores(s, c, i, n).retired == s.retired
    decreases n - i
  {
    if i < n { StoresKeepRetired(if CanAddStore(s, c, i) then AddStore(s, c, i) else s, c, i + 1, n); }
  }

  lemma KeepsRetired(s: State, c: nat)
    requires c < |s.rob|
    ensures CheckAndAdd(s, c).retired == s.retired
  {
    LoadsKeepRetired(s, c, 0);
    StoresKeepRetired(AddLoads(s, c, 0), c, 0, |s.rob[c].instr.stores|);
  }

  lemma {:induction false} ForwardKeepsRing(s: State, q: nat, d: nat, j: nat)
    requires q < |s.sq| && s.sq[q].robIndex < |s.rob| && d <= |s.rob| && j <= NUM_INSTR_SOURCES
    ensures var r := Forward(s, q, d, j);
            r.Some? ==> && r.value.trace == s.trace && r.value.retired == s.retired && r.value.occ == s.occ
                        && |r.value.rob| == |s.rob| && |r.value.lq| == |s.lq|
    decreases |s.rob| - d, NUM_INSTR_SOURCES - j
  {
    if d == |s.rob| {
    } else if j == NUM_INSTR_SOURCES || d !in s.rob[s.sq[q].robIndex].dependents {
      ForwardKeepsRing(s, q, d + 1, 0);
    } else if Matches(s, q, d, j) {
      var l := s.rob[d].lqIndex[j].value;
      if s.lq[l].producer == Some(s.sq[q].instrId) && s.lq[l].robIndex < |s.rob| { ForwardKeepsRing(FinishLoad(s, l, s.clock), q, d, j + 1); }
    } else {
      ForwardKeepsRing(s, q, d, j + 1);
    }
  }

  lemma ExecuteKeepsRing(s: State)
    requires |s.rts1| > 0 && s.rts1[0] < |s.sq| && s.sq[s.rts1[0]].robIndex < |s.rob|
    ensures var r := ExecuteStore(s);
            r.Some? ==> && r.value.trace == s.trace && r.value.retired == s.retired && r.value.occ == s.occ
                        && |r.value.rob| == |s.rob| && |r.value.lq| == |s.lq|
  {
    ForwardKeepsRing(StoreDone(s, s.rts1[0]).(rts1 := s.rts1[1..]), s.rts1[0], 0, 0);
  }

  lemma ReachedFront(k: Config, evs: seq<Event>)
    requires k.Valid()
    ensures var s := Reached(k, evs);
            |s.trace| - s.retired - s.occ <= k.front && |s.rob| == k.robSize && s.occ <= k.robSize
  {
    InitialInv(k.robSize, k.lqSize, k.sqSize, k.latency);
    RunFront(Initial(k.robSize, k.lqSize, k.sqSize, k.latency), k.front, evs);
    Bounded(Reached(k, evs));
  }

  lemma Bounded(s: State)
    requires Inv(s)
    ensures s.occ <= |s.rob|
  {
  }

  lemma StaBound(k: Config, evs: seq<Event>, d: nat)
    requires k.Valid() && AtMost(Reached(k, evs).trace, d)
    ensures |Reached(k, evs).sta| <= d * (k.robSize + k.front)
  {
    hide Reached, Inv, AtMost;
    ReachedFront(k, evs);
    var s := Reached(k, evs);
    StaFits(s, d);
    MulMonotonic(d, |s.trace| - s.retired, k.robSize + k.front);
  }

  // A program of instructions with `d` stores each, dispatched until nothing more fits.

  function Storing(d: nat): MemInstr { MemInstr([0, 0, 0, 0], seq(d, _ => 1)) }

  function Filling(d: nat, n: nat): seq<Event> {
    if n == 0 then [] else Filling(d, n - 1) + [Reads(Storing(d)), Dispatches]
  }

  function Reading(d: nat, n: nat, m: nat): seq<Event> {
    if m == 0 then Filling(d, n) else Reading(d, n, m - 1) + [Reads(Storing(d))]
  }

  /** Nothing has been placed or retired, and the trace repeats one instruction. */
  ghost predicate OnlyRead(s: State, d: nat, n: nat, occ: nat) {
    && |s.trace| == n && s.retired == 0 && s.occ == occ && s.sqOcc == 0
    && forall t :: 0 <= t < n ==> s.trace[t] == Storing(d)
  }

  lemma ReadOne(s: State, front: nat, d: nat, n: nat, occ: nat)
    requires Inv(s) && OnlyRead(s, d, n, occ) && n - occ < front
    ensures OnlyRead(Step(s, front, Reads(Storing(d))), d, n + 1, occ)
  {
    assert Storing(d).WellFormed();
  }

  lemma DispatchOne(s: State, front: nat, d: nat, n: nat, occ: nat)
    requires Inv(s) && OnlyRead(s, d, n, occ) && occ < n && occ < |s.rob|
    ensures OnlyRead(Step(s, front, Dispatches), d, n, occ + 1)
  {
  }

  lemma {:induction false} FillRun(s0: State, front: nat, d: nat, n: nat)
    requires Inv(s0) && OnlyRead(s0, d, 0, 0) && n <= |s0.rob| && front > 0
    ensures OnlyRead(Run(s0, front, Filling(d, n)), d, n, n)
    ensures |Run(s0, front, Filling(d, n)).rob| == |s0.rob|
  {
    hide Inv, OnlyRead, Step;
    if n > 0 {
      FillRun(s0, front, d, n - 1);
      var evs, m := Filling(d, n - 1), Run(s0, front, Filling(d, n - 1));
      ReadOne(m, front, d, n - 1, n - 1);
      var r := evs + [Reads(Storing(d))];
      assert r[..|r| - 1] == evs;
      RunFrontSize(s0, front, r);
      DispatchOne(Run(s0, front, r), front, d, n, n - 1);
      var f := Filling(d, n);
      assert f[..|f| - 1] == r;
      RunFrontSize(s0, front, f);
    } else {
      assert Run(s0, front, Filling(d, 0)) == s0;
    }
  }

  lemma RunFrontSize(s0: State, front: nat, evs: seq<Event>)
    requires Inv(s0)
    ensures |Run(s0, front, evs).rob| == |s0.rob|
    decreases |evs|
  {
    if |evs| > 0 {
      RunFrontSize(s0, front, evs[..|evs| - 1]);
      StepFront(Run(s0, front, evs[..|evs| - 1]), front, evs[|evs| - 1]);
    }
  }

  lemma {:induction false} ReadRun(s0: State, front: nat, d: nat, n: nat, m: nat)
    requires Inv(s0) && OnlyRead(s0, d, 0, 0) && n <= |s0.rob| && front > 0 && m <= front
    ensures OnlyRead(Run(s0, front, Reading(d, n, m)), d, n + m, n)
  {
    hide Inv, OnlyRead, Step;
    if m == 0 {
      FillRun(s0, front, d, n);
    } else {
      ReadRun(s0, front, d, n, m - 1);
      var r := Reading(d, n, m);
      assert r[..|r| - 1] == Reading(d, n, m - 1);
      ReadOne(Run(s0, front, Reading(d, n, m - 1)), front, d, n + m - 1, n);
    }
  }

  lemma {:induction false} RepeatedStores(trace: seq<MemInstr>, t: nat, d: nat)
    requires t <= |trace| && forall u :: 0 <= u < t ==> trace[u] == Storing(d)
    ensures |AllStores(trace, t)| == d * t
  {
    if t > 0 {
      RepeatedStores(trace, t - 1, d);
      AllOnes(trace[t - 1].stores, d);
      assert d * t == d * (t - 1) + d;
    }
  }

  lemma {:induction false} AllOnes(xs: seq<nat>, n: nat)
    requires n <= |xs| && forall i :: 0 <= i < |xs| ==> xs[i] == 1
    ensures NonZero(xs, n) == n
  {
    if n > 0 { AllOnes(xs, n - 1); }
  }

  lemma FullStart(k: Config, d: nat)
    requires k.Valid() && k.front > 0
    ensures OnlyRead(Reached(k, Reading(d, k.robSize, k.front)), d, k.robSize + k.front, k.robSize)
  {
    InitialInv(k.robSize, k.lqSize, k.sqSize, k.latency);
    ReadRun(Initial(k.robSize, k.lqSize, k.sqSize, k.latency), k.front, d, k.robSize, k.front);
  }

  lemma FullSta(s: State, d: nat, n: nat, occ: nat)
    requires Inv(s) && OnlyRead(s, d, n, occ)
    ensures |s.sta| == d * n && AtMost(s.trace, d)
  {
    RepeatedStores(s.trace, n, d);
  }

  /**
   STA_SIZE, four times the size of the buffer, is enough for programs with at most `d` memory
   destinations per instruction exactly if everything in flight fits: with the sizes of the
   simulator that is so for the two destinations of the ordinary trace format, not for the four
   of the other.
   */
  lemma StaSuffices(k: Config, d: nat)
    requires k.Valid() && k.front > 0
    ensures (forall evs: seq<Event> :: AtMost(Reached(k, evs).trace, d) ==> |Reached(k, evs).sta| <= 4 * k.robSize)
            <==> d * (k.robSize + k.front) <= 4 * k.robSize
  {
    hide Reached;
    forall evs: seq<Event> | AtMost(Reached(k, evs).trace, d) ensures |Reached(k, evs).sta| <= d * (k.robSize + k.front) {
      StaBound(k, evs, d);
    }
    FullStart(k, d);
    FullSta(Reached(k, Reading(d, k.robSize, k.front)), d, k.robSize + k.front, k.robSize);
  }

  /** The simulator's own sizes: 352 buffer entries and 12 + 18 instructions in the front end. */
  lemma StaOfTheSimulator(k: Config)
    requires k.Valid() && k.robSize == 352 && k.front == 30
    ensures forall evs: seq<Event> :: AtMost(Reached(k, evs).trace, 2) ==> |Reached(k, evs).sta| <= 4 * k.robSize
    ensures exists evs: seq<Event> :: AtMost(Reached(k, evs).trace, 4) && |Reached(k, evs).sta| > 4 * k.robSize
  {
    hide Reached;
    StaSuffices(k, 2);
    StaSuffices(k, 4);
  }
}
