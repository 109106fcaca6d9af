/** A program with two stores in one instruction for which the producer check of execute_store fails. */
module LsqCounterexample {
  import opened Common
  import opened LoadStoreQueue
  import opened LsqForwarding
  import opened LsqRetire
  import opened LsqRuns
  import opened LsqTheorems
  import opened LsqChecks

  // The first instruction stores to addresses 1 and 2, the second to 1; the third loads from 2 and from 1.

  const FIRST := MemInstr([0, 0, 0, 0], [1, 2])
  const SECOND := MemInstr([0, 0, 0, 0], [1])
  const THIRD := MemInstr([2, 1, 0, 0], [])

  const CORE := Config(4, 2, 4, 3, 0)

  /** All three instructions are read and in the buffer. */
  function Loaded(): State {
    Initial(4, 2, 4, 0).(
      rob := [FreshEntry(FIRST, 0, 0), FreshEntry(SECOND, 1, 0), FreshEntry(THIRD, 2, 0), EMPTY_ROB],
      tail := 3, occ := 3, sta := [0, 0, 1], trace := [FIRST, SECOND, THIRD])
  }

  function AllRead(): State {
    Initial(4, 2, 4, 0).(sta := [0, 0, 1], trace := [FIRST, SECOND, THIRD])
  }

  lemma ReadAll()
    ensures Read(Read(Read(Initial(4, 2, 4, 0), FIRST), SECOND), THIRD) == AllRead()
  {
    assert NonZero([1, 2], 1) == 1 && NonZero([1, 2], 2) == 2;
    assert NonZero([1], 1) == 1;
    assert Ids(0, 2) == [0, 0] && Ids(1, 1) == [1] && Ids(2, 0) == [];
  }

  lemma DispatchAll()
    ensures RingShape(AllRead())
    ensures var a := Dispatch(AllRead()); RingShape(a) && var b := Dispatch(a); RingShape(b) && Dispatch(b) == Loaded()
  {
    var s := AllRead();
    assert s.rob == [EMPTY_ROB, EMPTY_ROB, EMPTY_ROB, EMPTY_ROB];
  }

  lemma {:induction false} NoLoads(s: State, c: nat, j: nat)
    requires j <= NUM_INSTR_SOURCES && c < |s.rob| && forall k :: 0 <= k < |s.rob[c].instr.loads| ==> s.rob[c].instr.loads[k] == 0
    ensures AddLoads(s, c, j) == s
    decreases NUM_INSTR_SOURCES - j
  {
    if j < NUM_INSTR_SOURCES { NoLoads(s, c, j + 1); }
  }

  /** The three instructions are in the buffer. */
  ghost predicate Program(s: State) {
    && |s.rob| == 4 && s.head == 0 && s.occ == s.tail == 3 && s.retired == 0 && |s.trace| == 3 && |s.lq| == 2 && |s.sq| == 4
    && s.rob[0].instr == FIRST && s.rob[1].instr == SECOND && s.rob[2].instr == THIRD
    && s.rob[0].id == 0 && s.rob[1].id == 1 && s.rob[2].id == 2
    && |s.rob[0].sqIndex| == |s.rob[0].destinationAdded| == 2 && |s.rob[2].lqIndex| == |s.rob[2].sourceAdded| == 4
  }

  /** `n` stores of the first instruction are in the store queue; none has moved on. */
  ghost predicate StoresAdded(s: State, n: nat)
    requires Program(s)
  {
    && n <= 2 && s.sqHead == 0 && s.sqOcc == s.sqTail == n
    && s.sta == [0, 0, 1][n..] && s.rts0 == [0, 1][..n] && s.rts1 == []
    && (forall i :: n <= i < 2 ==> !s.rob[0].destinationAdded[i])
    && (n > 0 ==> s.sq[0].address == 1 && s.sq[0].robIndex == 0 && s.sq[0].instrId == 0)
    && (forall q :: 0 <= q < 4 ==> s.sq[q].fetched == Idle)
  }

  /** `n` loads of the third instruction are in the load queue; the first waits for the first instruction, the other for the second. */
  ghost predicate LoadsAdded(s: State, n: nat)
    requires Program(s)
  {
    && n <= 2 && s.lqOcc == n && (n > 0 ==> 2 in s.rob[0].dependents && s.rob[0].isProducer)
    && (forall l :: n <= l < 2 ==> s.lq[l].address == 0)
    && (forall j :: 0 <= j < 4 ==> (s.rob[2].sourceAdded[j] <==> j < n))
    && (forall j :: 0 <= j < n ==> s.lq[j].address != 0 && s.lq[j].producer == Some(j) && s.rob[2].lqIndex[j] == Some(j))
  }

  ghost predicate Added(s: State, stores: nat, loads: nat) {
    Program(s) && StoresAdded(s, stores) && LoadsAdded(s, loads)
  }

  /** Slot `c` may be scheduled. */
  ghost predicate Open(s: State, c: nat) {
    c < |s.rob| && s.rob[c].scheduled == Idle && s.rob[c].executed == Idle
  }

  lemma LoadedAdded()
    ensures Added(Loaded(), 0, 0) && Open(Loaded(), 0) && Open(Loaded(), 2)
  {
  }

  lemma AddsStore(s: State, i: nat)
    requires i < 2 && Added(s, i, 0) && Open(s, 2)
    ensures CanAddStore(s, 0, i) && Added(AddStore(s, 0, i), i + 1, 0) && Open(AddStore(s, 0, i), 2)
  {
  }

  lemma FinishesFirst(s: State)
    requires Added(s, 2, 0) && Open(s, 2)
    ensures Added(FinishScheduling(s, 0), 2, 0) && Open(FinishScheduling(s, 0), 2)
  {
  }

  lemma StoreBoth(s: State)
    requires Added(s, 0, 0) && Open(s, 2)
    ensures var t := MemoryScheduling(s, 0); Added(t, 2, 0) && Open(t, 2)
  {
    hide AddStore, CanAddStore, FinishScheduling, Open, StoresAdded, LoadsAdded;
    NoLoads(s, 0, 0);
    AddsStore(s, 0);
    var t := AddStore(s, 0, 0);
    AddsStore(t, 1);
    var u := AddStore(t, 0, 1);
    assert AddStores(s, 0, 0, 2) == AddStores(t, 0, 1, 2) == AddStores(u, 0, 2, 2) == u;
    FinishesFirst(u);
  }

  /** Load `j` finds the instruction with number `j` as its youngest older store. */
  lemma FindsStore(s: State, j: nat)
    requires Added(s, 2, j) && j < 2
    ensures RingShape(s) && YoungestStore(s, Age(s, 2), s.rob[2].instr.loads[j]) == Some(j)
  {
    assert Slot(s, 1) == 1 && Slot(s, 0) == 0 && Age(s, 2) == 2;
    assert YoungestStore(s, 1, s.rob[2].instr.loads[0]) == Some(0);
  }

  lemma FindsSlot(s: State, j: nat)
    requires Added(s, 2, j) && j < 2
    ensures FreeFrom(s.lq, 0) == j
  {
    assert FreeFrom(s.lq, j) == j;
  }

  /** No store of the queue has been executed, so nothing is forwarded. */
  lemma NoForwarding(s: State, l: nat)
    requires l < |s.lq| && forall q :: 0 <= q < |s.sq| ==> s.sq[q].fetched != Completed
    ensures !CanForward(s, l)
  {
  }

  lemma AddsLoad(s: State, j: nat)
    requires j < 2 && Added(s, 2, j)
    ensures CanAddLoad(s, 2, j) && Added(AddLoad(s, 2, j), 2, j + 1)
  {
    hide CanForward, YoungestStore, FreeFrom;
    FindsStore(s, j);
    FindsSlot(s, j);
    NoForwarding(EnterLoad(s, 2, j, j), j);
  }

  lemma LoadBoth(s: State)
    requires Added(s, 2, 0)
    ensures Added(MemoryScheduling(s, 2), 2, 2)
  {
    hide AddLoad, StoresAdded, LoadsAdded, FinishScheduling, RingShape;
    AddsLoad(s, 0);
    var t := AddLoad(s, 2, 0);
    AddsLoad(t, 1);
    var u := AddLoad(t, 2, 1);
    NoMoreLoads(u);
    assert AddLoads(s, 2, 0) == AddLoads(t, 2, 1) == AddLoads(u, 2, 2) == AddLoads(u, 2, 3) == AddLoads(u, 2, 4) == u;
    assert AddStores(u, 2, 0, 0) == u;
    FinishesThird(u);
  }

  lemma NoMoreLoads(s: State)
    requires Program(s)
    ensures !CanAddLoad(s, 2, 2) && !CanAddLoad(s, 2, 3)
  {
  }

  lemma FinishesThird(s: State)
    requires Added(s, 2, 2)
    ensures Added(FinishScheduling(s, 2), 2, 2)
  {
  }

  /** The first store of the first instruction has been translated; its check meets the third one's load from 1. */
  lemma CheckFails(s: State)
    requires Added(s, 2, 2)
    ensures |s.rts0| > 0 && s.rts0[0] < |s.sq|
    ensures var t := StoreToTlb(s);
            && 0 in t.tlbStores && 0 < |t.sq|
            && var u := StoreTranslated(t, 0);
            && u.rts1 == [0] && u.sq[0].robIndex < |u.rob| && u.rob[u.sq[0].robIndex].isProducer && !Checked(u, 0, 0, 0)
  {
    hide Checked;
    var t := StoreToTlb(s);
    var u := StoreTranslated(t, 0);
    assert s.rts0 == [0, 1];
    assert Visited(u, 0, 2, 1) && !SlotOk(u, 0, 2, 1) && Ahead(2, 1, 0, 0);
    Unchecked(u, 0, 2, 1);
  }

  lemma Unchecked(s: State, q: nat, d: nat, j: nat)
    requires q < |s.sq| && Visited(s, q, d, j) && !SlotOk(s, q, d, j) && Ahead(d, j, 0, 0)
    ensures !Checked(s, q, 0, 0)
  {
    hide Visited, SlotOk, Ahead;
  }

  // ----- the run

  lemma Extend(evs: seq<Event>, ev: Event, s: State)
    requires Reached(CORE, evs) == s
    ensures Inv(s) && Reached(CORE, evs + [ev]) == Step(s, 3, ev)
  {
    assert (evs + [ev])[..|evs + [ev]| - 1] == evs;
  }

  lemma Start()
    ensures Reached(CORE, []) == Initial(4, 2, 4, 0)
  {
  }

  lemma ExtendRead(evs: seq<Event>, x: MemInstr, s: State)
    requires Reached(CORE, evs) == s && x.WellFormed() && |s.trace| - s.retired - s.occ < 3
    ensures Reached(CORE, evs + [Reads(x)]) == Read(s, x)
    ensures var s' := Read(s, x); |s'.trace| == |s.trace| + 1 && s'.retired == s.retired && s'.occ == s.occ
  {
    hide Reached, Inv;
    Extend(evs, Reads(x), s);
  }

  lemma ExtendDispatch(evs: seq<Event>, s: State)
    requires Reached(CORE, evs) == s && MayDispatch(s)
    ensures RingShape(s) && s.retired + s.occ < |s.trace| && Reached(CORE, evs + [Dispatches]) == Dispatch(s)
  {
    Extend(evs, Dispatches, s);
    hide Reached;
  }

  lemma ExtendSchedule(evs: seq<Event>, c: nat, s: State)
    requires Reached(CORE, evs) == s && MaySchedule(s, c)
    ensures c < |s.rob| && Reached(CORE, evs + [Schedules(c)]) == MemoryScheduling(s, c)
  {
    hide Reached, Inv, Step, MaySchedule, MemoryScheduling;
    Extend(evs, Schedules(c), s);
    ScheduleStep(s, c);
  }

  lemma ScheduleStep(s: State, c: nat)
    requires Inv(s) && MaySchedule(s, c)
    ensures c < |s.rob| && Step(s, 3, Schedules(c)) == MemoryScheduling(s, c)
  {
    hide Inv, MemoryScheduling;
  }

  const READS: seq<Event> := [] + [Reads(FIRST)] + [Reads(SECOND)] + [Reads(THIRD)]

  lemma RunReads()
    ensures Reached(CORE, READS) == AllRead()
  {
    Start();
    ReadAll();
    var s := Initial(4, 2, 4, 0);
    hide Reached, Read;
    ExtendRead([], FIRST, s);
    ExtendRead([] + [Reads(FIRST)], SECOND, Read(s, FIRST));
    ExtendRead([] + [Reads(FIRST)] + [Reads(SECOND)], THIRD, Read(Read(s, FIRST), SECOND));
  }

  lemma RunDispatches()
    ensures Reached(CORE, READS + [Dispatches] + [Dispatches] + [Dispatches]) == Loaded()
  {
    RunReads();
    DispatchAll();
    MayDispatchAll();
    var s := AllRead();
    var a := Dispatch(s);
    var b := Dispatch(a);
    hide Reached, Dispatch, MayDispatch;
    ExtendDispatch(READS, s);
    ExtendDispatch(READS + [Dispatches], a);
    ExtendDispatch(READS + [Dispatches] + [Dispatches], b);
  }

  lemma MayDispatchAll()
    ensures RingShape(AllRead()) && MayDispatch(AllRead())
    ensures var a := Dispatch(AllRead()); RingShape(a) && MayDispatch(a) && MayDispatch(Dispatch(a))
  {
    DispatchAll();
  }

  const LOADED: seq<Event> := READS + [Dispatches] + [Dispatches] + [Dispatches]

  lemma RunSchedules()
    ensures Added(Reached(CORE, WAITING), 2, 2)
  {
    RunDispatches();
    LoadedAdded();
    StoreBoth(Loaded());
    var s := MemoryScheduling(Loaded(), 0);
    LoadBoth(s);
    MaySchedules(Loaded(), 0, 0);
    MaySchedules(s, 2, 2);
    hide Reached, MemoryScheduling, MaySchedule, Loaded, Added, Open;
    ExtendSchedule(LOADED, 0, Loaded());
    ExtendSchedule(LOADED + [Schedules(0)], 2, s);
  }

  lemma MaySchedules(s: State, stores: nat, c: nat)
    requires Added(s, stores, 0) && Open(s, c) && c < 3
    ensures MaySchedule(s, c)
  {
  }

  const WAITING: seq<Event> := LOADED + [Schedules(0)] + [Schedules(2)]
  const PROGRAM: seq<Event> := WAITING + [StoreIssued] + [StoreTranslation(0)]

  /**
   With two stores in one instruction the check can fail: when the store to address 1 of the first
   instruction executes, it meets the third one's load from 1, which waits for the second instruction.
   */
  lemma ProducerCheckCanFail()
    ensures var s := Reached(CORE, PROGRAM);
            |s.rts1| > 0 && s.rts1[0] < |s.sq| && s.sq[s.rts1[0]].robIndex < |s.rob| && ExecuteStore(s) == None
  {
    hide Inv, StoreToTlb, StoreTranslated, ExecuteStore, Checked, Added, Reached;
    RunSchedules();
    var s := Reached(CORE, WAITING);
    CheckFails(s);
    var t := StoreToTlb(s);
    var u := StoreTranslated(t, 0);
    Extend(WAITING, StoreIssued, s);
    Extend(WAITING + [StoreIssued], StoreTranslation(0), t);
    Extend(PROGRAM, StoreIssued, u);
    ProducerCheckExact(u);
  }
}
