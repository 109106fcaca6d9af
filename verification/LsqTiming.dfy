/**
 The event cycles in the load/store queue, when a load is forwarded on its way in, and the order in
 which the rings hand on their slots.
 */
module LsqTiming {
  import opened Common
  import opened LoadStoreQueue
  import opened LsqFrames
  import opened LsqFinish
  import opened LsqLoads
  import opened LsqStores
  import opened LsqRetire
  import opened LsqForwarding
  import opened LsqForwardingSteps
  import opened LsqRuns
  import opened LsqTheorems

  // ----- a load comes in

  /** Slot `q` holds an executed store of instruction `w` to `address`. */
  ghost predicate Stored(s: State, q: nat, address: nat, w: Option<nat>) {
    && q < |s.sq| && s.sq[q].address == address && w == Some(s.sq[q].instrId)
    && s.sq[q].fetched == Completed && s.sq[q].eventCycle <= s.clock
  }

  /** The first slot with that address and instruction decides. */
  ghost predicate Serves(s: State, q: nat, address: nat, w: Option<nat>) {
    Stored(s, q, address, w) && forall k :: 0 <= k < q ==> !(s.sq[k].address == address && w == Some(s.sq[k].instrId))
  }

  /** `w` is the youngest instruction in the buffer before that of slot `c` which stores to `address`. */
  ghost predicate IsProducer(s: State, c: nat, address: nat, w: Option<nat>)
    requires c < |s.rob|
  {
    && (w.Some? ==> exists p: nat :: Live(s, p) && s.rob[p].id == w.value && s.rob[p].id < s.rob[c].id && address in s.rob[p].instr.stores)
    && (forall p: nat :: Live(s, p) && s.rob[p].id < s.rob[c].id && address in s.rob[p].instr.stores ==> w.Some? && s.rob[p].id <= w.value)
  }

  /**
   add_load_queue: the load takes the first free slot and waits for the youngest older store to its
   address, or goes to RTL0 if there is none; it is done at once exactly if that store has been executed.
   */
  lemma LoadEnters(s: State, c: nat, j: nat) returns (l: nat, w: Option<nat>)
    requires Inv(s) && MayAddLoad(s, c, j)
    ensures l < |s.lq| && s.lq[l].address == 0 && forall k :: 0 <= k < l ==> s.lq[k].address != 0
    ensures IsProducer(s, c, s.rob[c].instr.loads[j], w)
    ensures RingShape(s) && FreeFrom(s.lq, 0) < |s.lq|
    ensures var t, e, address := AddLoad(s, c, j), s.rob[c], s.rob[c].instr.loads[j];
            && c < |t.rob| && t.rob[c].lqIndex == e.lqIndex[j := Some(l)] && t.rob[c].sourceAdded == e.sourceAdded[j := true]
            && if exists q: nat :: Serves(s, q, address, w) then
                 && t.lq == s.lq && t.lqOcc == s.lqOcc && t.rtl0 == s.rtl0 && t.finished == s.finished + [LoadId(e.id, j)]
                 && t.rob[c].numMemOps == e.numMemOps - 1 && t.rob[c].eventCycle == s.clock
               else
                 && t.lq == s.lq[l := LqEntry(address, e.id, w, c, j, if w.Some? then Inflight else Idle, Idle, s.clock + s.schedulingLatency)]
                 && t.lqOcc == s.lqOcc + 1 && t.rtl0 == (if w.Some? then s.rtl0 else s.rtl0 + [l]) && t.finished == s.finished
                 && t.rob[c].numMemOps == e.numMemOps && t.rob[c].eventCycle == e.eventCycle
  {
    hide StoreOrder, Placement, Counts, LoadQueues, StoreQueues, Finishes, OwnedLoad, LoadAdded;
    FreeSlotExists(s);
    FreeFromFinds(s.lq, 0);
    l := FreeFrom(s.lq, 0);
    var address := s.rob[c].instr.loads[j];
    w := EnterLoad(s, c, j, l).lq[l].producer;
    ProducerFound(s, c, j, l);
    LoadFields(s, c, j, l);
    var m := EnterLoad(s, c, j, l);
    ForwarderFound(s.sq, 0, address, w);
    if q: nat :| Serves(s, q, address, w) { assert ForwarderFrom(s.sq, 0, address, w) == q; }
    if CanForward(m, l) { assert Serves(s, ForwarderFrom(s.sq, 0, address, w), address, w); }
    assert m.lq[l := EMPTY_LQ] == s.lq;
  }

  lemma ProducerFound(s: State, c: nat, j: nat, l: nat)
    requires Shape(s) && MayAddLoad(s, c, j) && l < |s.lq|
    ensures IsProducer(s, c, s.rob[c].instr.loads[j], EnterLoad(s, c, j, l).lq[l].producer)
  {
    var address := s.rob[c].instr.loads[j];
    YoungestStoreFound(s, Age(s, c), address);
    assert forall p: nat :: Live(s, p) ==> s.rob[p].id == s.retired + Age(s, p);
  }

  lemma LoadFields(s: State, c: nat, j: nat, l: nat)
    requires Shape(s) && MayAddLoad(s, c, j) && l < |s.lq|
    ensures var m, e := EnterLoad(s, c, j, l), s.rob[c];
            && |m.rob| == |s.rob| && m.sq == s.sq && m.clock == s.clock && m.rtl0 == s.rtl0 && m.finished == s.finished
            && m.rob[c].numMemOps == e.numMemOps && m.rob[c].eventCycle == e.eventCycle && m.lqOcc == s.lqOcc + 1
            && m.rob[c].lqIndex == e.lqIndex[j := Some(l)] && m.rob[c].sourceAdded == e.sourceAdded[j := true]
            && var w := m.lq[l].producer;
            && m.lq == s.lq[l := LqEntry(e.instr.loads[j], e.id, w, c, j, if w.Some? then Inflight else Idle, Idle, s.clock + s.schedulingLatency)]
  {
    hide Wrap, AgeFrom, YoungestStore;
    OtherProducer(s, c, s.rob[c].instr.loads[j]);
  }

  lemma OtherProducer(s: State, c: nat, address: nat)
    requires Shape(s) && Live(s, c)
    ensures YoungestStore(s, Age(s, c), address) != Some(c)
  {
    YoungestStoreFound(s, Age(s, c), address);
  }

  // ----- event cycles

  /** A slot of the load queue is as it was, or free again, or a load has come into it, or it has been translated now. */
  ghost predicate LoadDated(s: State, x: LqEntry, y: LqEntry) {
    || y == x || y == EMPTY_LQ
    || (x.address == 0 && y.translated != Completed && y.fetched == Idle && y.eventCycle == s.clock + s.schedulingLatency)
    || (x.address != 0 && y == x.(translated := y.translated, fetched := y.fetched, eventCycle := y.eventCycle)
        && y.eventCycle == if y.translated == Completed && x.translated != Completed then s.clock else x.eventCycle)
  }

  /** A slot of the store queue, likewise; it can also have been executed now. */
  ghost predicate StoreDated(s: State, x: SqEntry, y: SqEntry) {
    || y == x || y == EMPTY_SQ
    || (x == EMPTY_SQ && y.translated == y.fetched == Idle && y.eventCycle == s.clock + s.schedulingLatency)
    || (y == x.(translated := y.translated, fetched := y.fetched, eventCycle := y.eventCycle)
        && y.eventCycle == if (y.translated == Completed && x.translated != Completed) || (y.fetched == Completed && x.fetched != Completed)
                           then s.clock else x.eventCycle)
  }

  ghost predicate Dated(s: State, t: State) {
    && |t.lq| == |s.lq| && |t.sq| == |s.sq|
    && (forall l :: 0 <= l < |s.lq| ==> LoadDated(s, s.lq[l], t.lq[l]))
    && (forall q :: 0 <= q < |s.sq| ==> StoreDated(s, s.sq[q], t.sq[q]))
  }

  /** What do_memory_scheduling may do to the queues: fill empty slots. */
  ghost predicate Grows(s: State, t: State) {
    && |t.lq| == |s.lq| && |t.sq| == |s.sq| && t.clock == s.clock && t.schedulingLatency == s.schedulingLatency
    && (forall l :: 0 <= l < |s.lq| ==>
          t.lq[l] == s.lq[l] || (s.lq[l] == EMPTY_LQ && t.lq[l].translated != Completed && t.lq[l].fetched == Idle
                                 && t.lq[l].eventCycle == s.clock + s.schedulingLatency))
    && (forall q :: 0 <= q < |s.sq| ==>
          t.sq[q] == s.sq[q] || (s.sq[q] == EMPTY_SQ && t.sq[q].translated == t.sq[q].fetched == Idle
                                 && t.sq[q].eventCycle == s.clock + s.schedulingLatency))
  }

  lemma AddLoadGrows(s: State, c: nat, j: nat)
    requires Inv(s) && MayAddLoad(s, c, j)
    ensures FreeFrom(s.lq, 0) < |s.lq| && RingShape(s) && Grows(s, AddLoad(s, c, j))
    ensures forall l :: 0 <= l < |s.lq| && s.lq[l].address != 0 ==> AddLoad(s, c, j).lq[l] == s.lq[l]
  {
    hide StoreOrder, Placement, Counts, LoadQueues, StoreQueues, Finishes, OwnedLoad, LoadAdded;
    FreeSlotExists(s);
    LoadFields(s, c, j, FreeFrom(s.lq, 0));
  }

  lemma GrowsOn(s: State, m: State, t: State)
    requires Grows(s, m) && Grows(m, t)
    ensures Grows(s, t)
  {
  }

  lemma GrowsNot(s: State)
    ensures Grows(s, s)
  {
  }

  /** The rings of which slots may be waiting after do_memory_scheduling. */
  ghost predicate Appends(s: State, t: State) {
    s.rtl0 <= t.rtl0 && s.rts0 <= t.rts0 && t.rtl1 == s.rtl1 && t.rts1 == s.rts1
  }

  lemma {:induction false} AddLoadsGrow(s: State, c: nat, j: nat)
    requires Inv(s) && Live(s, c) && j <= NUM_INSTR_SOURCES
    ensures Grows(s, AddLoads(s, c, j)) && Appends(s, AddLoads(s, c, j))
    decreases NUM_INSTR_SOURCES - j
  {
    hide Inv, CanAddLoad, AddLoad, Grows, Live, EntryShape;
    GrowsNot(s);
    if j < NUM_INSTR_SOURCES {
      if CanAddLoad(s, c, j) {
        LoadBounds(s, c, j);
        AddLoadStep(s, c, j);
        MayAdd(s, c, j);
        AddLoadGrows(s, c, j);
        LoadAppends(s, c, j);
        AddLoadsGrow(AddLoad(s, c, j), c, j + 1);
        GrowsOn(s, AddLoad(s, c, j), AddLoads(s, c, j));
      } else {
        AddLoadsGrow(s, c, j + 1);
      }
    }
  }

  lemma MayAdd(s: State, c: nat, j: nat)
    requires Inv(s) && Live(s, c) && CanAddLoad(s, c, j)
    ensures MayAddLoad(s, c, j)
  {
    assert EntryShape(s.rob[c]);
  }

  lemma LoadAppends(s: State, c: nat, j: nat)
    requires CanAddLoad(s, c, j)
    ensures Appends(s, AddLoad(s, c, j))
  {
    hide YoungestStore, ForwarderFrom;
  }

  lemma StoreGrows(s: State, c: nat, i: nat)
    requires Inv(s) && CanAddStore(s, c, i)
    ensures Grows(s, AddStore(s, c, i)) && Appends(s, AddStore(s, c, i))
  {
    hide Placement, Loads, Counts, LoadQueues, StoreQueues, Finishes;
    TailIsFree(s);
  }

  lemma {:induction false} AddStoresGrow(s: State, c: nat, i: nat, n: nat)
    requires Inv(s) && Live(s, c) && PlacedBefore(s, c, i) && i <= n == |s.rob[c].instr.stores|
    ensures Grows(s, AddStores(s, c, i, n)) && Appends(s, AddStores(s, c, i, n))
    decreases n - i
  {
    hide Inv, CanAddStore, AddStore, PlacedBefore, Shape, Grows, Live;
    GrowsNot(s);
    if i < n {
      if CanAddStore(s, c, i) {
        StoreBounds(s, c, i);
        AddStoreStep(s, c, i);
        StoreGrows(s, c, i);
        AddStoresGrow(AddStore(s, c, i), c, i + 1, n);
        GrowsOn(s, AddStore(s, c, i), AddStores(s, c, i, n));
      } else {
        InvParts(s);
        NoStoreStep(s, c, i);
        AddStoresGrow(s, c, i + 1, n);
      }
    }
  }

  lemma ScheduleGrows(s: State, c: nat)
    requires Inv(s) && Live(s, c)
    ensures Dated(s, MemoryScheduling(s, c)) && Appends(s, MemoryScheduling(s, c))
  {
    hide Inv, PlacedBefore, Grows, AddLoads, AddStores;
    var m := AddLoads(s, c, 0);
    AddLoadsGrow(s, c, 0);
    AddLoadsKeep(s, c, 0);
    NothingBefore(m, c);
    AddStoresGrow(m, c, 0, |s.rob[c].instr.stores|);
    GrowsOn(s, m, CheckAndAdd(s, c));
    GrowsIsDated(s, CheckAndAdd(s, c), MemoryScheduling(s, c));
  }

  lemma GrowsIsDated(s: State, m: State, t: State)
    requires Grows(s, m) && t.lq == m.lq && t.sq == m.sq
    ensures Dated(s, t)
  {
  }

  lemma {:induction false} ForwardFrees(s: State, q: nat, d: nat, j: nat)
    requires q < |s.sq| && s.sq[q].robIndex < |s.rob| && d <= |s.rob| && j <= NUM_INSTR_SOURCES && Forward(s, q, d, j).Some?
    ensures var t := Forward(s, q, d, j).value;
            && t.sq == s.sq && |t.lq| == |s.lq| && t.rtl0 == s.rtl0 && t.rtl1 == s.rtl1 && t.rts0 == s.rts0 && t.rts1 == s.rts1
            && forall l :: 0 <= l < |s.lq| ==> t.lq[l] == s.lq[l] || t.lq[l] == EMPTY_LQ
    decreases |s.rob| - d, NUM_INSTR_SOURCES - j
  {
    if d == |s.rob| {
    } else if j == NUM_INSTR_SOURCES || d !in s.rob[s.sq[q].robIndex].dependents {
      ForwardFrees(s, q, d + 1, 0);
    } else if Matches(s, q, d, j) {
      ForwardFrees(FinishLoad(s, s.rob[d].lqIndex[j].value, s.clock), q, d, j + 1);
    } else {
      ForwardFrees(s, q, d, j + 1);
    }
  }

  lemma {:induction false} ReleaseFrees(s: State, n: nat)
    requires s.sqHead < |s.sq| && n <= s.sqOcc
    ensures var t := ReleaseStores(s, n);
            && t.lq == s.lq && |t.sq| == |s.sq| && t.rtl0 == s.rtl0 && t.rtl1 == s.rtl1 && t.rts0 == s.rts0 && t.rts1 == s.rts1
            && forall q :: 0 <= q < |s.sq| ==> t.sq[q] == s.sq[q] || t.sq[q] == EMPTY_SQ
    decreases n
  {
    if n > 0 { ReleaseFrees(ReleaseStore(s), n - 1); }
  }

  /** Every ring hands on its slots in the order in which it got them. */
  ghost predicate RingsAreFifo(s: State, t: State) {
    Fifo(s.rtl0, t.rtl0) && Fifo(s.rtl1, t.rtl1) && Fifo(s.rts0, t.rts0) && Fifo(s.rts1, t.rts1)
  }

  lemma RingsGrow(s: State, t: State)
    requires Inv(t) && s.rtl0 <= t.rtl0 && s.rtl1 <= t.rtl1 && s.rts0 <= t.rts0 && s.rts1 <= t.rts1
    ensures RingsAreFifo(s, t)
  {
    hide Shape, StoreOrder, Placement, Loads, Counts, Finishes, Fifo;
    PrefixIsFifo(s.rtl0, t.rtl0);
    PrefixIsFifo(s.rtl1, t.rtl1);
    PrefixIsFifo(s.rts0, t.rts0);
    PrefixIsFifo(s.rts1, t.rts1);
  }

  /** A ring gives away its first slot. */
  lemma RingsShrink(s: State, t: State)
    requires Inv(s)
    requires t.rtl0 == s.rtl0 || (|s.rtl0| > 0 && t.rtl0 == s.rtl0[1..])
    requires t.rtl1 == s.rtl1 || (|s.rtl1| > 0 && t.rtl1 == s.rtl1[1..])
    requires t.rts0 == s.rts0 || (|s.rts0| > 0 && t.rts0 == s.rts0[1..])
    requires t.rts1 == s.rts1 || (|s.rts1| > 0 && t.rts1 == s.rts1[1..])
    ensures RingsAreFifo(s, t)
  {
    hide Inv, Fifo;
    OneShrinks(s.rtl0, t.rtl0);
    OneShrinks(s.rtl1, t.rtl1);
    OneShrinks(s.rts0, t.rts0);
    OneShrinks(s.rts1, t.rts1);
  }

  lemma OneShrinks(a: seq<nat>, b: seq<nat>)
    requires b == a || (|a| > 0 && b == a[1..])
    ensures Fifo(a, b)
  {
    SuffixIsFifo(a, 0);
    if |a| > 0 { SuffixIsFifo(a, 1); }
    assert a[0..] == a;
  }

  /** Slots in rings and with the environment are those of loads and stores in the queues. */
  lemma Heads(s: State)
    requires Inv(s)
    ensures |s.rts0| > 0 ==> SqLive(s, s.rts0[0]) && s.sq[s.rts0[0]].translated == Idle
    ensures |s.rts1| > 0 ==> SqLive(s, s.rts1[0]) && s.sq[s.rts1[0]].translated == Completed && s.sq[s.rts1[0]].fetched != Completed
    ensures |s.rtl0| > 0 ==> LqLive(s, s.rtl0[0]) && s.lq[s.rtl0[0]].translated == Idle
    ensures |s.rtl1| > 0 ==> LqLive(s, s.rtl1[0])
    ensures forall q: nat :: q in s.tlbStores ==> SqLive(s, q) && s.sq[q].translated == Inflight
    ensures forall l: nat :: l in s.tlbLoads ==> LqLive(s, l) && s.lq[l].translated == Inflight
  {
    hide Placement, StoreOrder, Counts, Finishes, Shape, Loads;
    assert |s.rts0| > 0 ==> s.rts0[0] in s.rts0;
    assert |s.rts1| > 0 ==> s.rts1[0] in s.rts1;
    assert |s.rtl0| > 0 ==> s.rtl0[0] in s.rtl0;
    assert |s.rtl1| > 0 ==> s.rtl1[0] in s.rtl1;
  }

  lemma NothingDated(s: State, t: State)
    requires t.lq == s.lq && t.sq == s.sq
    ensures Dated(s, t)
  {
  }

  lemma LoadSlotDated(s: State, t: State, l: nat)
    requires l < |s.lq| == |t.lq| && t.lq == s.lq[l := t.lq[l]] && t.sq == s.sq && LoadDated(s, s.lq[l], t.lq[l])
    ensures Dated(s, t)
  {
  }

  lemma StoreSlotDated(s: State, t: State, q: nat)
    requires q < |s.sq| == |t.sq| && t.sq == s.sq[q := t.sq[q]] && t.lq == s.lq && StoreDated(s, s.sq[q], t.sq[q])
    ensures Dated(s, t)
  {
  }

  /** One event moves the slots of the rings in their order, and an event cycle changes only with what it dates. */
  lemma StepIsTimely(s: State, front: nat, ev: Event)
    requires Inv(s)
    ensures Dated(s, Step(s, front, ev)) && RingsAreFifo(s, Step(s, front, ev))
  {
    hide Inv, Dated, RingsAreFifo, MemoryScheduling, ExecuteStore, Retire;
    var t := Step(s, front, ev);
    StepKeepsInv(s, front, ev);
    Heads(s);
    match ev {
      case Schedules(c) =>
        if MaySchedule(s, c) { ScheduleGrows(s, c); } else { NothingDated(s, t); }
        RingsGrow(s, t);
      case StoreIssued =>
        if |s.rts0| > 0 { StoreSlotDated(s, t, s.rts0[0]); } else { NothingDated(s, t); }
        RingsShrink(s, t);
      case StoreTranslation(q) =>
        if q in s.tlbStores { StoreSlotDated(s, t, q); } else { NothingDated(s, t); }
        RingsGrow(s, t);
      case StoreExecuted =>
        ExecutionTimely(s, front);
      case Retires => RetirementTimely(s, front);
      case LoadIssued => LoadStepTimely(s, front, ev);
      case LoadTranslation(_) => LoadStepTimely(s, front, ev);
      case LoadExecuted => LoadStepTimely(s, front, ev);
      case LoadAnswered(_, _) => LoadStepTimely(s, front, ev);
      case _ =>
        NothingDated(s, t);
        RingsGrow(s, t);
    }
  }

  lemma LoadStepTimely(s: State, front: nat, ev: Event)
    requires Inv(s) && (ev.LoadIssued? || ev.LoadTranslation? || ev.LoadExecuted? || ev.LoadAnswered?)
    ensures Dated(s, Step(s, front, ev)) && RingsAreFifo(s, Step(s, front, ev))
  {
    hide Inv, Dated, RingsAreFifo;
    var t := Step(s, front, ev);
    StepKeepsInv(s, front, ev);
    Heads(s);
    match ev
    case LoadIssued =>
      if |s.rtl0| > 0 { LoadSlotDated(s, t, s.rtl0[0]); } else { NothingDated(s, t); }
      RingsShrink(s, t);
    case LoadTranslation(l) =>
      if l in s.tlbLoads { LoadSlotDated(s, t, l); } else { NothingDated(s, t); }
      RingsGrow(s, t);
    case LoadExecuted =>
      if |s.rtl1| > 0 { LoadSlotDated(s, t, s.rtl1[0]); } else { NothingDated(s, t); }
      RingsShrink(s, t);
    case LoadAnswered(l, e) =>
      if l in s.cacheLoads {
        FetchedKeepsInv(s, l, e);
        LoadSlotDated(s, t, l);
      } else {
        NothingDated(s, t);
      }
      RingsGrow(s, t);
  }

  lemma ExecutionTimely(s: State, front: nat)
    requires Inv(s)
    ensures Dated(s, Step(s, front, StoreExecuted)) && RingsAreFifo(s, Step(s, front, StoreExecuted))
  {
    hide Inv, Forward, RingsAreFifo;
    var t := Step(s, front, StoreExecuted);
    Heads(s);
    if |s.rts1| > 0 {
      ExecuteStoreKeepsInv(s);
      var q := s.rts1[0];
      var m := StoreDone(s, q).(rts1 := s.rts1[1..]);
      if m.rob[m.sq[q].robIndex].isProducer && Forward(m, q, 0, 0).Some? { ForwardFrees(m, q, 0, 0); }
    }
    RingsShrink(s, t);
  }

  lemma RetirementTimely(s: State, front: nat)
    requires Inv(s)
    ensures Dated(s, Step(s, front, Retires)) && RingsAreFifo(s, Step(s, front, Retires))
  {
    hide Inv, RingsAreFifo, ReleaseStores;
    if MayRetire(s) {
      RetireKeepsInv(s);
      MayRelease(s);
      RetireFrees(s);
    }
    RingsShrink(s, Step(s, front, Retires));
  }

  lemma MayRelease(s: State)
    requires Inv(s) && MayRetire(s)
    ensures RingShape(s) && s.occ > 0 && s.sqHead < |s.sq|
  {
    hide StoreOrder, Placement, Loads, Counts, LoadQueues, StoreQueues, Finishes;
  }

  lemma RetireFrees(s: State)
    requires RingShape(s) && s.occ > 0 && HeadStores(s) <= s.sqOcc && s.sqHead < |s.sq|
    ensures var t := Retire(s);
            && t.lq == s.lq && |t.sq| == |s.sq| && t.rtl0 == s.rtl0 && t.rtl1 == s.rtl1 && t.rts0 == s.rts0 && t.rts1 == s.rts1
            && forall q :: 0 <= q < |s.sq| ==> t.sq[q] == s.sq[q] || t.sq[q] == EMPTY_SQ
  {
    ReleaseFrees(s, HeadStores(s));
  }

  // ----- when an instruction is due

  /** An entry has as many operations outstanding as before, or fewer since cycle `cycle`, which is then its event cycle. */
  ghost predicate OpsDated(s: State, t: State, cycle: nat) {
    && |t.rob| == |s.rob| && t.clock == s.clock
    && forall c :: 0 <= c < |s.rob| ==>
         || (t.rob[c].numMemOps == s.rob[c].numMemOps && t.rob[c].eventCycle == s.rob[c].eventCycle)
         || (t.rob[c].numMemOps < s.rob[c].numMemOps && t.rob[c].eventCycle == cycle)
  }

  lemma OpsDatedOn(s: State, m: State, t: State, cycle: nat)
    requires OpsDated(s, m, cycle) && OpsDated(m, t, cycle)
    ensures OpsDated(s, t, cycle)
  {
  }

  lemma {:induction false} ForwardDates(s: State, q: nat, d: nat, j: nat)
    requires q < |s.sq| && s.sq[q].robIndex < |s.rob| && d <= |s.rob| && j <= NUM_INSTR_SOURCES && Forward(s, q, d, j).Some?
    ensures OpsDated(s, Forward(s, q, d, j).value, s.clock)
    decreases |s.rob| - d, NUM_INSTR_SOURCES - j
  {
    hide Matches;
    if d == |s.rob| {
    } else if j == NUM_INSTR_SOURCES || d !in s.rob[s.sq[q].robIndex].dependents {
      ForwardDates(s, q, d + 1, 0);
    } else if Matches(s, q, d, j) {
      MatchBounds(s, q, d, j);
      var m := FinishLoad(s, s.rob[d].lqIndex[j].value, s.clock);
      ForwardDates(m, q, d, j + 1);
      OpsDatedOn(s, m, Forward(m, q, d, j + 1).value, s.clock);
    } else {
      ForwardDates(s, q, d, j + 1);
    }
  }

  lemma MatchBounds(s: State, q: nat, d: nat, j: nat)
    requires q < |s.sq| && d < |s.rob| && Matches(s, q, d, j)
    ensures j < |s.rob[d].lqIndex| && s.rob[d].lqIndex[j].Some? && s.rob[d].lqIndex[j].value < |s.lq|
  {
  }

  lemma {:induction false} AddLoadsDate(s: State, c: nat, j: nat)
    requires Inv(s) && Live(s, c) && j <= NUM_INSTR_SOURCES
    ensures OpsDated(s, AddLoads(s, c, j), s.clock)
    decreases NUM_INSTR_SOURCES - j
  {
    hide Inv, CanAddLoad, AddLoad, Live, EntryShape;
    if j < NUM_INSTR_SOURCES {
      if CanAddLoad(s, c, j) {
        LoadBounds(s, c, j);
        AddLoadStep(s, c, j);
        LoadDates(s, c, j);
        AddLoadsDate(AddLoad(s, c, j), c, j + 1);
        OpsDatedOn(s, AddLoad(s, c, j), AddLoads(s, c, j), s.clock);
      } else {
        AddLoadsDate(s, c, j + 1);
      }
    }
  }

  lemma LoadDates(s: State, c: nat, j: nat)
    requires CanAddLoad(s, c, j)
    ensures OpsDated(s, AddLoad(s, c, j), s.clock)
  {
    hide YoungestStore, ForwarderFrom, CanForward, Wrap, AgeFrom, FreeFrom;
  }

  lemma {:induction false} AddStoresDate(s: State, c: nat, i: nat, n: nat)
    requires i <= n
    ensures OpsDated(s, AddStores(s, c, i, n), s.clock)
    decreases n - i
  {
    hide Wrap, AgeFrom;
    if i < n {
      if CanAddStore(s, c, i) {
        AddStoresDate(AddStore(s, c, i), c, i + 1, n);
      } else {
        AddStoresDate(s, c, i + 1, n);
      }
    }
  }

  /** The event cycle of an entry is that of the last operation that has finished: the cycle of the reply, or the current one. */
  lemma OperationsAreDated(s: State, front: nat, ev: Event)
    requires Inv(s) && !ev.Dispatches? && !ev.Retires? && !ev.Ticks?
    ensures OpsDated(s, Step(s, front, ev), if ev.LoadAnswered? then ev.eventCycle else s.clock)
  {
    hide Inv, AddLoads, AddStores, Forward;
    match ev
    case Schedules(c) =>
      if MaySchedule(s, c) {
        AddLoadsDate(s, c, 0);
        AddStoresDate(AddLoads(s, c, 0), c, 0, |s.rob[c].instr.stores|);
        OpsDatedOn(s, AddLoads(s, c, 0), CheckAndAdd(s, c), s.clock);
      }
    case StoreExecuted =>
      if |s.rts1| > 0 {
        ExecuteStoreKeepsInv(s);
        var m := StoreDone(s, s.rts1[0]).(rts1 := s.rts1[1..]);
        if m.rob[m.sq[s.rts1[0]].robIndex].isProducer && Forward(m, s.rts1[0], 0, 0).Some? {
          ForwardDates(m, s.rts1[0], 0, 0);
          OpsDatedOn(s, m, Forward(m, s.rts1[0], 0, 0).value, s.clock);
        }
      }
    case LoadAnswered(l, e) => if l in s.cacheLoads { FetchedKeepsInv(s, l, e); }
    case _ =>
  }

  // ----- which entries have loads waiting for them

  /** An entry is marked as a producer exactly if it has dependants. */
  ghost predicate Marked(s: State) {
    forall c :: 0 <= c < |s.rob| ==> (s.rob[c].isProducer <==> s.rob[c].dependents != {})
  }

  lemma {:induction false} ForwardMarks(s: State, q: nat, d: nat, j: nat)
    requires q < |s.sq| && s.sq[q].robIndex < |s.rob| && d <= |s.rob| && j <= NUM_INSTR_SOURCES && Forward(s, q, d, j).Some? && Marked(s)
    ensures Marked(Forward(s, q, d, j).value)
    decreases |s.rob| - d, NUM_INSTR_SOURCES - j
  {
    hide Matches;
    if d == |s.rob| {
    } else if j == NUM_INSTR_SOURCES || d !in s.rob[s.sq[q].robIndex].dependents {
      ForwardMarks(s, q, d + 1, 0);
    } else if Matches(s, q, d, j) {
      MatchBounds(s, q, d, j);
      ForwardMarks(FinishLoad(s, s.rob[d].lqIndex[j].value, s.clock), q, d, j + 1);
    } else {
      ForwardMarks(s, q, d, j + 1);
    }
  }

  lemma LoadMarks(s: State, c: nat, j: nat)
    requires CanAddLoad(s, c, j) && Marked(s)
    ensures Marked(AddLoad(s, c, j))
  {
    hide YoungestStore, ForwarderFrom, CanForward, Wrap, AgeFrom, FreeFrom;
  }

  lemma {:induction false} AddLoadsMark(s: State, c: nat, j: nat)
    requires j <= NUM_INSTR_SOURCES && Marked(s)
    ensures Marked(AddLoads(s, c, j))
    decreases NUM_INSTR_SOURCES - j
  {
    hide CanAddLoad, AddLoad, Marked;
    if j < NUM_INSTR_SOURCES {
      if CanAddLoad(s, c, j) {
        LoadBounds(s, c, j);
        LoadMarks(s, c, j);
        AddLoadsMark(AddLoad(s, c, j), c, j + 1);
      } else {
        AddLoadsMark(s, c, j + 1);
      }
    }
  }

  lemma {:induction false} AddStoresMark(s: State, c: nat, i: nat, n: nat)
    requires i <= n && Marked(s)
    ensures Marked(AddStores(s, c, i, n))
    decreases n - i
  {
    hide Wrap, AgeFrom;
    if i < n {
      if CanAddStore(s, c, i) {
        AddStoresMark(AddStore(s, c, i), c, i + 1, n);
      } else {
        AddStoresMark(s, c, i + 1, n);
      }
    }
  }

  lemma {:induction false} ReleaseMarks(s: State, n: nat)
    requires s.sqHead < |s.sq| && n <= s.sqOcc
    ensures ReleaseStores(s, n).rob == s.rob
    decreases n
  {
    if n > 0 { ReleaseMarks(ReleaseStore(s), n - 1); }
  }

  lemma MayFill(s: State)
    requires Inv(s) && MayDispatch(s)
    ensures RingShape(s) && s.retired + s.occ < |s.trace|
  {
    hide StoreOrder, Placement, Loads, Counts, LoadQueues, StoreQueues, Finishes;
  }

  lemma DispatchMarks(s: State)
    requires RingShape(s) && s.retired + s.occ < |s.trace| && Marked(s)
    ensures Marked(Dispatch(s))
  {
    assert forall x: MemInstr, id: nat, clock: nat :: !FreshEntry(x, id, clock).isProducer && FreshEntry(x, id, clock).dependents == {};
  }

  lemma StepMarks(s: State, front: nat, ev: Event)
    requires Inv(s) && Marked(s)
    ensures Marked(Step(s, front, ev))
  {
    hide Inv, AddLoads, AddStores, Forward, ReleaseStores, Dispatch;
    match ev
    case Dispatches =>
      if MayDispatch(s) {
        MayFill(s);
        DispatchMarks(s);
      }
    case Schedules(c) =>
      if MaySchedule(s, c) {
        AddLoadsMark(s, c, 0);
        AddStoresMark(AddLoads(s, c, 0), c, 0, |s.rob[c].instr.stores|);
      }
    case StoreExecuted =>
      if |s.rts1| > 0 {
        ExecuteStoreKeepsInv(s);
        var m := StoreDone(s, s.rts1[0]).(rts1 := s.rts1[1..]);
        if m.rob[m.sq[s.rts1[0]].robIndex].isProducer && Forward(m, s.rts1[0], 0, 0).Some? { ForwardMarks(m, s.rts1[0], 0, 0); }
      }
    case Retires =>
      if MayRetire(s) {
        RetireKeepsInv(s);
        MayRelease(s);
        ReleaseMarks(s, HeadStores(s));
      }
    case LoadAnswered(l, e) => if l in s.cacheLoads { FetchedKeepsInv(s, l, e); }
    case _ =>
  }

  /** In every reachable state the flag that execute_store looks at says whether any load waits on the entry. */
  lemma {:induction false} ProducersAreMarked(k: Config, evs: seq<Event>)
    requires k.Valid()
    ensures Marked(Reached(k, evs))
    decreases |evs|
  {
    hide Inv, Step;
    InitialInv(k.robSize, k.lqSize, k.sqSize, k.latency);
    if |evs| > 0 {
      ProducersAreMarked(k, evs[..|evs| - 1]);
      StepMarks(Reached(k, evs[..|evs| - 1]), k.front, evs[|evs| - 1]);
    }
  }
}
