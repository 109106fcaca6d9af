/**
 A load queue full of loads that wait for one store deadlocks the core when that store needs a
 register of an older instruction whose own load finds the queue full.  How large the queue must be.
 */
module LoadQueueDeadlock {
  import opened Common
  import opened LoadStoreQueue
  import opened LsqRetire
  import opened LsqForwarding
  import opened LsqRuns
  import opened LsqTheorems
  import opened ReadyRuns
  import opened QueueMoves
  import opened RetireProgress
  import R = RegisterScheduler

  // Instruction 0 loads from address 5 into register 1, instruction 1 stores register 1 to address 7,
  // and all others load from 7 four times and need no register.

  const LOADER := MemInstr([5, 0, 0, 0], [])
  const STORER := MemInstr([0, 0, 0, 0], [7])
  const WAITER := MemInstr([7, 7, 7, 7], [])
  const REGS: seq<R.Instr> := [R.Instr(1, [0, 0, 0, 0], [1], 1), R.Instr(1, [1, 0, 0, 0], [], 1)]

  function Instruction(t: nat): MemInstr {
    if t == 0 then LOADER else if t == 1 then STORER else WAITER
  }

  /** The first `n` instructions are read and dispatched. */
  function Filling(n: nat): seq<Event> {
    if n == 0 then [] else Filling(n - 1) + [Reads(Instruction(n - 1))] + [Dispatches]
  }

  /** Then `n` of the waiting instructions are scheduled. */
  function Blocking(size: nat, n: nat): seq<Event> {
    if n == 0 then Filling(size) else Blocking(size, n - 1) + [Schedules(n + 1)]
  }

  lemma {:induction false} FillingIsPlain(n: nat)
    ensures PlainEvents(Filling(n))
  {
    if n > 0 {
      FillingIsPlain(n - 1);
      assert NonZero([7], 1) <= 1;
      assert Plain(Instruction(n - 1));
    }
  }

  lemma {:induction false} BlockingIsPlain(size: nat, n: nat)
    ensures PlainEvents(Blocking(size, n))
  {
    if n > 0 { BlockingIsPlain(size, n - 1); } else { FillingIsPlain(size); }
  }

  // ----- filling the buffer

  /** An entry of which nothing has been queued. */
  ghost predicate Untouched(e: RobEntry) {
    && e.scheduled == Idle && e.executed == Idle
    && (forall j :: 0 <= j < |e.sourceAdded| ==> !e.sourceAdded[j])
    && (forall i :: 0 <= i < |e.destinationAdded| ==> !e.destinationAdded[i])
  }

  /** The first `n` instructions are read, the first `occ` of them in the buffer, and no store is in the queue. */
  ghost predicate InBuffer(s: State, n: nat, occ: nat) {
    && |s.trace| == n && (forall t :: 0 <= t < n ==> s.trace[t] == Instruction(t))
    && s.retired == 0 && s.head == 0 && s.occ == occ <= n && s.sqOcc == 0
    && s.sta == if n >= 2 then [1] else []
  }

  /** `occ` untouched entries are in the buffer and the load queue is empty. */
  ghost predicate Filled(s: State, n: nat, occ: nat) {
    && InBuffer(s, n, occ) && s.lqOcc == 0 && occ <= |s.rob|
    && (forall l :: 0 <= l < |s.lq| ==> s.lq[l].address == 0)
    && (forall c :: 0 <= c < occ ==> Untouched(s.rob[c]))
  }

  lemma ReadsNext(s: State, front: nat, n: nat)
    requires Inv(s) && Filled(s, n, n) && front > 0
    ensures var t := Step(s, front, Reads(Instruction(n))); Filled(t, n + 1, n) && |t.rob| == |s.rob| && |t.lq| == |s.lq|
  {
    hide StoreOrder, Placement, Loads, Counts, LoadQueues, StoreQueues, Finishes, Wrap, AgeFrom;
    var x := Instruction(n);
    assert x.WellFormed();
    assert NonZero(x.stores, |x.stores|) == if n == 1 then 1 else 0;
    assert Ids(1, 1) == [1] && Ids(n, 0) == [];
  }

  lemma DispatchesNext(s: State, front: nat, n: nat)
    requires Inv(s) && Filled(s, n + 1, n) && n < |s.rob|
    ensures var t := Step(s, front, Dispatches); Filled(t, n + 1, n + 1) && |t.rob| == |s.rob| && |t.lq| == |s.lq|
  {
    hide StoreOrder, Placement, Loads, Counts, LoadQueues, StoreQueues, Finishes, AgeFrom;
    assert s.tail == n;
  }

  lemma RunOn(p: Core, s0: State, evs: seq<Event>, ev: Event)
    requires Inv(s0)
    ensures ReadyRun(p, s0, evs + [ev]) == ReadyStep(p, ReadyRun(p, s0, evs), ev)
  {
    hide Inv, ReadyStep;
    assert (evs + [ev])[..|evs + [ev]| - 1] == evs;
  }

  lemma RunNothing(p: Core, s0: State)
    requires Inv(s0)
    ensures ReadyRun(p, s0, []) == s0
  {
  }

  /** One more instruction is read and dispatched. */
  lemma FillsOne(p: Core, s: State, n: nat)
    requires Inv(s) && Filled(s, n, n) && n < |s.rob| && p.front > 0
    ensures var t := ReadyStep(p, ReadyStep(p, s, Reads(Instruction(n))), Dispatches);
            Filled(t, n + 1, n + 1) && |t.rob| == |s.rob| && |t.lq| == |s.lq|
  {
    hide Inv, Filled, Step;
    ReadsNext(s, p.front, n);
    DispatchesNext(ReadyStep(p, s, Reads(Instruction(n))), p.front, n);
  }

  lemma {:induction false} FillsUp(p: Core, s0: State, n: nat)
    requires Inv(s0) && Filled(s0, 0, 0) && n <= |s0.rob| && p.front > 0
    ensures var t := ReadyRun(p, s0, Filling(n)); Filled(t, n, n) && |t.rob| == |s0.rob| && |t.lq| == |s0.lq|
  {
    hide Inv, Filled, ReadyRun, ReadyStep;
    RunNothing(p, s0);
    if n > 0 {
      FillsUp(p, s0, n - 1);
      RunOn(p, s0, Filling(n - 1), Reads(Instruction(n - 1)));
      RunOn(p, s0, Filling(n - 1) + [Reads(Instruction(n - 1))], Dispatches);
      FillsOne(p, ReadyRun(p, s0, Filling(n - 1)), n - 1);
    }
  }

  // ----- filling the load queue

  function Least(a: nat, b: nat): nat { if a < b then a else b }

  /** The buffer is full; the load queue holds `m` loads, which wait for instruction 1; entries 0, 1 and from `c` on are untouched. */
  ghost predicate Blocked(s: State, c: nat, m: nat) {
    && InBuffer(s, |s.rob|, |s.rob|) && s.lqOcc == m
    && (forall l :: 0 <= l < |s.lq| && LqLive(s, l) ==> s.lq[l].producer == Some(1))
    && 2 <= c <= |s.rob| && Untouched(s.rob[0]) && Untouched(s.rob[1])
    && (forall d :: c <= d < |s.rob| ==> Untouched(s.rob[d]))
  }

  /** The same while entry `c` is being scheduled, from operand `j` on. */
  ghost predicate Adding(s: State, c: nat, j: nat, m: nat) {
    && c < |s.rob| && Blocked(s, c + 1, m) && 2 <= c
    && s.rob[c].scheduled == Idle && s.rob[c].executed == Idle
    && (forall i :: j <= i < |s.rob[c].sourceAdded| ==> !s.rob[c].sourceAdded[i])
  }

  /** The youngest store to 7 is that of instruction 1. */
  lemma {:induction false} YoungestIsStorer(s: State, age: nat)
    requires Inv(s) && InBuffer(s, |s.rob|, |s.rob|) && 2 <= age <= |s.rob|
    ensures RingShape(s) && s.rob[1].id == 1 && YoungestStore(s, age, 7) == Some(1)
    decreases age
  {
    hide StoreOrder, Placement, Loads, Counts, LoadQueues, StoreQueues, Finishes;
    assert Slot(s, age - 1) == age - 1 && Live(s, age - 1) && Age(s, age - 1) == age - 1 && Live(s, 1);
    assert s.rob[age - 1].instr == Instruction(age - 1);
    if age > 2 { YoungestIsStorer(s, age - 1); }
  }

  lemma WaiterEntry(s: State, c: nat)
    requires Inv(s) && InBuffer(s, |s.rob|, |s.rob|) && 2 <= c < |s.rob|
    ensures RingShape(s) && Live(s, c) && EntryShape(s.rob[c]) && s.rob[c].instr == WAITER && s.rob[c].id == c == Age(s, c)
  {
    hide StoreOrder, Placement, Loads, Counts, LoadQueues, StoreQueues, Finishes;
    assert Live(s, c) && Age(s, c) == c;
  }

  lemma AddsWaiting(s: State, c: nat, j: nat, m: nat)
    requires Inv(s) && Adding(s, c, j, m) && j < NUM_INSTR_SOURCES && m < |s.lq|
    ensures CanAddLoad(s, c, j) && Adding(AddLoad(s, c, j), c, j + 1, m + 1)
    ensures |AddLoad(s, c, j).lq| == |s.lq| && |AddLoad(s, c, j).rob| == |s.rob|
  {
    hide Inv, CanForward, FreeFrom, EnterLoad, Adding;
    AddingParts(s, c, j, m);
    WaiterEntry(s, c);
    CanAdd(s, c, j);
    var l := FreeFrom(s.lq, 0);
    EntersWaiting(s, c, j, l);
    NoForwarding(s, EnterLoad(s, c, j, l), l);
    GoesOnAdding(s, c, j, m, l, EnterLoad(s, c, j, l));
  }

  lemma AddingParts(s: State, c: nat, j: nat, m: nat)
    requires Inv(s) && Adding(s, c, j, m) && j < NUM_INSTR_SOURCES
    ensures 2 <= c < |s.rob| && InBuffer(s, |s.rob|, |s.rob|) && s.lqOcc == m && EntryShape(s.rob[c]) && !s.rob[c].sourceAdded[j]
  {
    hide Inv;
    WaiterEntry(s, c);
  }

  /** The load queue entry of operand `j` of entry `c`, and what becomes of the buffer. */
  ghost predicate EntersFor(s: State, c: nat, j: nat, l: nat, t: State)
    requires 2 <= c < |s.rob| && l < |s.lq| && j < |s.rob[c].lqIndex| && j < |s.rob[c].sourceAdded|
  {
    var e, f := s.rob[c], s.rob[1];
    t == s.(rob := s.rob[c := e.(lqIndex := e.lqIndex[j := Some(l)], sourceAdded := e.sourceAdded[j := true])]
                        [1 := f.(isProducer := true, dependents := f.dependents + {c})],
            lq := s.lq[l := LqEntry(7, c, Some(1), c, j, Inflight, Idle, s.clock + s.schedulingLatency)],
            lqOcc := s.lqOcc + 1)
  }

  lemma EntersWaiting(s: State, c: nat, j: nat, l: nat)
    requires Inv(s) && InBuffer(s, |s.rob|, |s.rob|) && 2 <= c < |s.rob| && j < NUM_INSTR_SOURCES && l < |s.lq| && EntryShape(s.rob[c])
    requires RingShape(s) && s.rob[c].instr == WAITER && s.rob[c].id == c == Age(s, c)
    ensures EntersFor(s, c, j, l, EnterLoad(s, c, j, l))
  {
    hide Inv, YoungestStore, Wrap, AgeFrom, InBuffer;
    YoungestIsStorer(s, c);
  }

  lemma GoesOnAdding(s: State, c: nat, j: nat, m: nat, l: nat, t: State)
    requires Adding(s, c, j, m) && l < |s.lq| && j < |s.rob[c].lqIndex| && j < |s.rob[c].sourceAdded| && EntersFor(s, c, j, l, t)
    ensures Adding(t, c, j + 1, m + 1)
  {
  }

  /** Entering a load does not touch the store queue, so there is nothing to forward. */
  lemma NoForwarding(s: State, t: State, l: nat)
    requires Inv(s) && s.sqOcc == 0 && t.sq == s.sq && t.clock == s.clock && l < |t.lq|
    ensures !CanForward(t, l)
  {
    hide Placement, Loads, Counts, LoadQueues, StoreQueues, Finishes;
    assert forall q: nat :: q < |s.sq| ==> s.sq[q] == EMPTY_SQ;
  }

  lemma {:induction false} AddsAllWaiting(s: State, c: nat, j: nat, m: nat)
    requires Inv(s) && Adding(s, c, j, m) && j <= NUM_INSTR_SOURCES && m <= |s.lq|
    ensures var t := AddLoads(s, c, j); Inv(t) && Adding(t, c, NUM_INSTR_SOURCES, Least(m + NUM_INSTR_SOURCES - j, |s.lq|))
    ensures |AddLoads(s, c, j).lq| == |s.lq| && |AddLoads(s, c, j).rob| == |s.rob|
    decreases NUM_INSTR_SOURCES - j
  {
    hide Inv, AddLoad, CanAddLoad, Blocked;
    if j < NUM_INSTR_SOURCES {
      if m < |s.lq| {
        AddsWaiting(s, c, j, m);
        LoadBounds(s, c, j);
        InBlocked(s, c, m);
        AddLoadStep(s, c, j);
        AddsAllWaiting(AddLoad(s, c, j), c, j + 1, m + 1);
      } else {
        FullAddsNone(s, c, j, m);
        AddsAllWaiting(s, c, j + 1, m);
      }
    }
  }

  lemma InBlocked(s: State, c: nat, m: nat)
    requires Inv(s) && c < |s.rob| && 2 <= c && Blocked(s, c + 1, m)
    ensures Live(s, c)
  {
    WaiterEntry(s, c);
  }

  lemma FullAddsNone(s: State, c: nat, j: nat, m: nat)
    requires c < |s.rob| && Blocked(s, c + 1, m) && m >= |s.lq|
    ensures !CanAddLoad(s, c, j)
  {
  }

  lemma SchedulesWaiter(s: State, c: nat, m: nat)
    requires Inv(s) && Blocked(s, c, m) && c < |s.rob| && m <= |s.lq|
    ensures MaySchedule(s, c)
    ensures var t := MemoryScheduling(s, c);
            Blocked(t, c + 1, Least(m + NUM_INSTR_SOURCES, |s.lq|)) && |t.rob| == |s.rob| && |t.lq| == |s.lq|
  {
    hide Inv, AddLoads;
    WaiterEntry(s, c);
    AddsAllWaiting(s, c, 0, m);
    var t := AddLoads(s, c, 0);
    WaiterEntry(t, c);
    assert CheckAndAdd(s, c) == t;
  }

  lemma WaiterReady(p: Core, s: State, c: nat)
    requires Inv(s) && InBuffer(s, |s.rob|, |s.rob|) && 2 <= c < |s.rob| && p.regs == REGS && Sound(p.ready)
    ensures Allowed(p, s, Schedules(c))
  {
    hide Inv;
    WaiterEntry(s, c);
    assert AllWritersDone(p.regs, s, s.rob[c].id);
  }

  lemma FilledIsBlocked(s: State)
    requires Filled(s, |s.rob|, |s.rob|) && |s.rob| >= 2
    ensures Blocked(s, 2, 0)
  {
  }

  lemma BlockedIsBuffer(s: State, c: nat, m: nat)
    requires Blocked(s, c, m)
    ensures InBuffer(s, |s.rob|, |s.rob|)
  {
  }

  lemma {:induction false} BlocksUp(p: Core, s0: State, n: nat)
    requires Inv(s0) && Filled(s0, 0, 0) && n + 2 <= |s0.rob| && p.front > 0 && p.regs == REGS && Sound(p.ready)
    ensures var t := ReadyRun(p, s0, Blocking(|s0.rob|, n));
            Blocked(t, n + 2, Least(NUM_INSTR_SOURCES * n, |s0.lq|)) && |t.rob| == |s0.rob| && |t.lq| == |s0.lq|
  {
    hide Inv, ReadyRun, Allowed, Blocked, Filled, Sound, MemoryScheduling, MaySchedule;
    if n == 0 {
      FillsUp(p, s0, |s0.rob|);
      FilledIsBlocked(ReadyRun(p, s0, Filling(|s0.rob|)));
    } else {
      BlocksUp(p, s0, n - 1);
      var s := ReadyRun(p, s0, Blocking(|s0.rob|, n - 1));
      RunOn(p, s0, Blocking(|s0.rob|, n - 1), Schedules(n + 1));
      BlockedIsBuffer(s, n + 1, Least(NUM_INSTR_SOURCES * (n - 1), |s0.lq|));
      SchedulesWaiter(s, n + 1, Least(NUM_INSTR_SOURCES * (n - 1), |s0.lq|));
      WaiterReady(p, s, n + 1);
    }
  }

  // ----- the deadlock

  /** Instruction 0 has no place for its load, instruction 1 waits for it, and everything in the load queue for instruction 1. */
  ghost predicate Dead(s: State) {
    && s.retired == 0 && s.head == 0 && 2 <= s.occ <= |s.rob| && |s.trace| >= 2 && s.trace[0] == LOADER && s.trace[1] == STORER
    && Untouched(s.rob[0]) && Untouched(s.rob[1])
    && s.lqOcc == |s.lq| && (forall l :: 0 <= l < |s.lq| ==> LqLive(s, l) && s.lq[l].producer.Some?)
    && s.sqOcc == 0 && |s.sta| > 0 && s.sta[0] == 1
  }

  lemma BlockedIsDead(s: State)
    requires Inv(s) && Blocked(s, |s.rob|, |s.lq|)
    ensures Dead(s)
  {
    hide StoreOrder, Placement, Counts, LoadQueues, StoreQueues, Finishes, Untouched;
    forall l: nat | l < |s.lq| ensures LqLive(s, l) {
      if !LqLive(s, l) { SomeFree(s.lq, l); }
    }
  }

  lemma DeadEntries(s: State)
    requires Inv(s) && Dead(s)
    ensures RingShape(s) && Live(s, 0) && Live(s, 1) && EntryShape(s.rob[0]) && EntryShape(s.rob[1])
    ensures s.rob[0].instr == LOADER && s.rob[0].id == 0 && s.rob[1].instr == STORER && s.rob[1].id == 1
    ensures forall c: nat :: Live(s, c) ==> s.rob[c].id == c
  {
    hide StoreOrder, Placement, Loads, Counts, LoadQueues, StoreQueues, Finishes, Untouched;
    assert Live(s, 0) && Live(s, 1);
  }

  lemma FirstIn(q: seq<nat>)
    ensures q == [] || exists x: nat :: x in q
  {
    if q != [] { assert q[0] in q; }
  }

  /** Nothing is in a ring or with the environment. */
  lemma DeadQueues(s: State)
    requires Inv(s) && Dead(s)
    ensures s.rts0 == [] && s.rts1 == [] && s.rtl0 == [] && s.rtl1 == []
    ensures s.tlbStores == {} && s.tlbLoads == {} && s.cacheLoads == {}
  {
    hide StoreOrder, Placement, Loads, Counts, Finishes, Untouched;
    FirstIn(s.rts0);
    FirstIn(s.rts1);
    FirstIn(s.rtl0);
    FirstIn(s.rtl1);
  }

  /** Instruction 1 is not ready: the writer of its register has not completed. */
  lemma StorerNotReady(p: Core, s: State)
    requires Inv(s) && Dead(s) && p.regs == REGS && Sound(p.ready)
    ensures !Allowed(p, s, Schedules(1))
  {
    hide Inv;
    DeadEntries(s);
    assert R.LastWriter(REGS, 1, 1) == Some(0);
    assert !DoneAt(s, 0);
    assert 1 in REGS[1].sources by { assert REGS[1].sources[0] == 1; }
    assert !LastWritersDone(REGS, s, 1);
  }

  lemma {:induction false} AddsNoLoads(s: State, c: nat, j: nat)
    requires j <= NUM_INSTR_SOURCES && s.lqOcc == |s.lq|
    ensures AddLoads(s, c, j) == s
    decreases NUM_INSTR_SOURCES - j
  {
    if j < NUM_INSTR_SOURCES { AddsNoLoads(s, c, j + 1); }
  }

  lemma {:induction false} AddsNoStores(s: State, c: nat, i: nat, n: nat)
    requires i <= n && c < |s.rob| && |s.sta| > 0 && s.sta[0] != s.rob[c].id
    ensures AddStores(s, c, i, n) == s
    decreases n - i
  {
    if i < n { AddsNoStores(s, c, i + 1, n); }
  }

  lemma SchedulesNothing(s: State, c: nat)
    requires Inv(s) && Dead(s) && Live(s, c) && c != 1
    ensures Dead(MemoryScheduling(s, c))
  {
    hide Inv;
    DeadEntries(s);
    AddsNoLoads(s, c, 0);
    AddsNoStores(s, c, 0, |s.rob[c].instr.stores|);
    assert CheckAndAdd(s, c) == s;
    if c == 0 { assert s.rob[0].instr.loads[0] != 0 && !s.rob[0].sourceAdded[0]; }
  }

  lemma DispatchStaysDead(s: State)
    requires Inv(s) && Dead(s) && MayDispatch(s)
    ensures RingShape(s) && Dead(Dispatch(s))
  {
    hide StoreOrder, Placement, Loads, Counts, LoadQueues, StoreQueues, Finishes, Untouched, AgeFrom;
    assert s.tail >= 2;
  }

  lemma StaysDead(p: Core, s: State, ev: Event)
    requires Inv(s) && Dead(s) && p.regs == REGS && Sound(p.ready)
    ensures Dead(ReadyStep(p, s, ev))
  {
    hide Inv, Sound, Allowed, MemoryScheduling, Dispatch, Retire;
    DeadEntries(s);
    DeadQueues(s);
    assert LOADER.loads[0] != 0 && STORER.stores[0] != 0;
    match ev
    case Dispatches => if MayDispatch(s) { DispatchStaysDead(s); }
    case Schedules(c) =>
      if c == 1 { StorerNotReady(p, s); } else if MaySchedule(s, c) { SchedulesNothing(s, c); }
    case _ =>
  }

  lemma {:induction false} DeadForEver(p: Core, s: State, evs: seq<Event>)
    requires Inv(s) && Dead(s) && p.regs == REGS && Sound(p.ready)
    ensures Dead(ReadyRun(p, s, evs))
    decreases |evs|
  {
    hide Inv, Dead, Sound, ReadyStep;
    if |evs| > 0 {
      DeadForEver(p, s, evs[..|evs| - 1]);
      StaysDead(p, ReadyRun(p, s, evs[..|evs| - 1]), evs[|evs| - 1]);
    }
  }

  /** With a load queue that the waiting loads can fill, some run of a plain program deadlocks. */
  lemma SmallQueueDeadlocks(k: Config, ready: Readiness)
    requires k.Valid() && k.front > 0 && Sound(ready) && k.lqSize <= NUM_INSTR_SOURCES * (k.robSize - 2)
    ensures var evs := Blocking(k.robSize, k.robSize - 2);
            PlainEvents(evs) && Dead(ReadyRun(Core(k.front, REGS, ready), Begin(k), evs))
  {
    hide Inv, Sound, ReadyRun, Forwarding;
    var p := Core(k.front, REGS, ready);
    BlockingIsPlain(k.robSize, k.robSize - 2);
    assert Filled(Begin(k), 0, 0);
    BlocksUp(p, Begin(k), k.robSize - 2);
    BlockedIsDead(ReadyRun(p, Begin(k), Blocking(k.robSize, k.robSize - 2)));
  }

  /**
   Every instruction of every plain program can retire, whatever has happened, exactly if the load
   queue is larger than all the loads of a buffer but for its two oldest entries: however the
   readiness of registers is decided, as long as it is sound.
   */
  lemma LoadQueueSuffices(k: Config, before: Readiness, after: Readiness)
    requires k.Valid() && k.front > 0 && Sound(before) && Sound(after)
    ensures AlwaysRetires(k, before, after) <==> k.lqSize > NUM_INSTR_SOURCES * (k.robSize - 2)
  {
    hide Inv, Sound, ReadyRun, Forwarding, FlagsFit, CanRetire, Dead;
    if k.lqSize > NUM_INSTR_SOURCES * (k.robSize - 2) {
      forall regs: seq<R.Instr>, evs: seq<Event> | PlainEvents(evs)
        ensures var s := ReadyRun(Core(k.front, regs, before), Begin(k), evs); s.occ > 0 ==> CanRetire(Core(k.front, regs, after), s)
      {
        LargeQueueRetires(k, Core(k.front, regs, before), Core(k.front, regs, after), evs);
      }
    } else {
      SmallQueueDeadlocks(k, before);
      var s := ReadyRun(Core(k.front, REGS, before), Begin(k), Blocking(k.robSize, k.robSize - 2));
      DeadCannotRetire(Core(k.front, REGS, after), s);
    }
  }

  /** The simulator's own sizes, 128 load queue slots for 352 buffer entries, do not rule the deadlock out. */
  lemma SimulatorMayDeadlock(k: Config, before: Readiness, after: Readiness)
    requires k.Valid() && k.front > 0 && Sound(before) && Sound(after) && k.robSize == 352 && k.lqSize == 128
    ensures !AlwaysRetires(k, before, after)
  {
    hide Sound, AlwaysRetires;
    LoadQueueSuffices(k, before, after);
  }

  /** Both extremes are sound: an entry is ready as soon as its last writers are done, or only when all writers are. */
  lemma ExtremesAreSound()
    ensures Sound((regs: seq<R.Instr>, s: State, c: nat) => c < |s.rob| && LastWritersDone(regs, s, s.rob[c].id))
    ensures Sound((regs: seq<R.Instr>, s: State, c: nat) => c < |s.rob| && AllWritersDone(regs, s, s.rob[c].id))
  {
    forall regs: seq<R.Instr>, s: State, t: nat | AllWritersDone(regs, s, t) ensures LastWritersDone(regs, s, t) {
      AllIncludesLast(regs, s, t);
    }
  }

  lemma AllIncludesLast(regs: seq<R.Instr>, s: State, t: nat)
    requires AllWritersDone(regs, s, t)
    ensures LastWritersDone(regs, s, t)
  {
    if t < |regs| {
      forall r: nat | r != 0 && r in regs[t].sources ensures var w := R.LastWriter(regs, t, r); w.None? || DoneAt(s, w.value) {
        LastWriterWrites(regs, t, r);
      }
    }
  }

  lemma {:induction false} LastWriterWrites(regs: seq<R.Instr>, t: nat, r: nat)
    requires t <= |regs|
    ensures var w := R.LastWriter(regs, t, r); w.Some? ==> w.value < t && r in regs[w.value].destinations
  {
    if t > 0 { LastWriterWrites(regs, t - 1, r); }
  }

  lemma DeadCannotRetire(p: Core, s: State)
    requires Inv(s) && Dead(s) && p.regs == REGS && Sound(p.ready)
    ensures s.occ > 0 && !CanRetire(p, s)
  {
    hide Inv, Sound, ReadyRun;
    forall t: State | Leads(p, s, t) ensures t.retired == 0 {
      var evs: seq<Event> :| PlainEvents(evs) && ReadyRun(p, s, evs) == t;
      DeadForEver(p, s, evs);
    }
  }

  lemma {:induction false} RunSizes(p: Core, s0: State, evs: seq<Event>)
    requires Inv(s0)
    ensures |ReadyRun(p, s0, evs).rob| == |s0.rob| && |ReadyRun(p, s0, evs).lq| == |s0.lq|
    decreases |evs|
  {
    hide Inv, Step, Allowed;
    if |evs| > 0 {
      RunSizes(p, s0, evs[..|evs| - 1]);
      StepFront(ReadyRun(p, s0, evs[..|evs| - 1]), p.front, evs[|evs| - 1]);
    }
  }

  lemma LargeQueueRetires(k: Config, p: Core, p': Core, evs: seq<Event>)
    requires k.Valid() && Sound(p'.ready) && PlainEvents(evs) && k.lqSize > NUM_INSTR_SOURCES * (k.robSize - 2)
    ensures var s := ReadyRun(p, Begin(k), evs); s.occ > 0 ==> CanRetire(p', s)
  {
    hide Inv, Sound, ReadyRun, Forwarding, Leads;
    var s := ReadyRun(p, Begin(k), evs);
    ReadyRunForwards(p, Begin(k), evs);
    assert FlagsFit(Begin(k));
    RunFits(p, Begin(k), evs);
    RunSizes(p, Begin(k), evs);
    if s.occ > 0 { OldestCanRetire(p', s); }
  }
}
