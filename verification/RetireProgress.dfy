/** With a load queue larger than what can wait in it, the oldest instruction in the buffer can always retire. */
module RetireProgress {
  import opened Common
  import opened LoadStoreQueue
  import opened LsqFrames
  import opened LsqLoads
  import opened LsqRetire
  import opened LsqForwarding
  import opened LsqForwardingSteps
  import opened LsqRuns
  import opened LsqTheorems
  import opened ReadyRuns
  import opened QueueMoves

  /** A state with an oldest entry that has not completed. */
  ghost predicate Open(s: State) {
    Inv(s) && Forwarding(s) && FlagsFit(s) && s.occ > 0 && s.rob[s.head].executed != Completed
  }

  /** The same entry is the oldest one, and queues are as large. */
  ghost predicate SameTop(s: State, t: State) {
    && t.head == s.head && t.occ == s.occ && t.retired == s.retired
    && |t.rob| == |s.rob| && |t.lq| == |s.lq| && |t.sq| == |s.sq|
  }

  // ----- a quiet state

  lemma QuietQueues(s: State)
    requires LoadQueues(s) && StoreQueues(s) && Quiet(s)
    ensures forall l: nat :: LqLive(s, l) ==> s.lq[l].producer.Some?
    ensures forall q: nat :: SqLive(s, q) ==> s.sq[q].fetched == Completed
  {
    assert s.rts0 == [] && s.rts1 == [] && s.rtl0 == [] && s.rtl1 == [] && s.tlbStores == {} && s.tlbLoads == {} && s.cacheLoads == {};
    forall l: nat | LqLive(s, l) ensures s.lq[l].producer.Some? {
      assert !InRtl0(s, l) && !InTlb(s, l) && !InRtl1(s, l) && !InCache(s, l);
    }
    forall q: nat | SqLive(s, q) ensures s.sq[q].fetched == Completed {
      assert !InRts0(s, q) && !InTlbStore(s, q) && !InRts1(s, q);
    }
  }

  /** All stores of the oldest entry are in the store queue. */
  ghost predicate TopPlaced(s: State) {
    s.head < |s.rob| && var e := s.rob[s.head];
    forall i :: 0 <= i < |e.instr.stores| && e.instr.stores[i] != 0 ==> i < |e.destinationAdded| && e.destinationAdded[i]
  }

  /** Everything quiet and the stores of the oldest entry placed: then they are done, and nothing waits for them. */
  ghost predicate Settled(s: State) { Quiet(s) && TopPlaced(s) }

  lemma TopStoreDone(s: State, i: nat)
    requires Inv(s) && Settled(s) && s.occ > 0
    ensures s.head < |s.rob| && !StorePending(s, s.head, i)
  {
    hide Loads, Counts, LoadQueues, StoreQueues, Finishes, StoreOrder;
    HeadIsFirst(s);
    var e := s.rob[s.head];
    assert EntryShape(e);
    if i < |e.instr.stores| && e.instr.stores[i] != 0 {
      assert StorePlaced(s, s.head, i);
      QuietStore(s, i);
    }
  }

  lemma QuietStore(s: State, i: nat)
    requires Inv(s) && Quiet(s) && Live(s, s.head) && EntryShape(s.rob[s.head]) && i < |s.rob[s.head].instr.stores|
    requires StorePlaced(s, s.head, i) && s.rob[s.head].destinationAdded[i]
    ensures s.rob[s.head].sqIndex[i].Some? && s.rob[s.head].sqIndex[i].value < |s.sq|
    ensures s.sq[s.rob[s.head].sqIndex[i].value].fetched == Completed
  {
    hide Loads, Counts, LoadQueues, StoreQueues, Finishes, StoreOrder, Placement;
    QuietQueues(s);
    assert SqLive(s, s.rob[s.head].sqIndex[i].value);
  }

  /** A load in a settled queue waits for an entry between the oldest one and its own. */
  lemma WaitsInBetween(s: State, l: nat)
    requires Inv(s) && Forwarding(s) && Settled(s) && s.occ > 0 && LqLive(s, l)
    ensures OwnedLoad(s, l) && s.retired + 2 <= s.lq[l].instrId < s.retired + s.occ
  {
    hide StoreOrder, Placement, Counts, LoadQueues, StoreQueues, Finishes, Exact, Consumers, PlainTrace, PastStores, RightProducer;
    QuietQueues(s);
    assert OwnedLoad(s, l);
    var p: nat :| WaitsFor(s, l, p, s.lq[l].producer.value);
    if p == s.head {
      var i: nat :| i < |s.rob[p].instr.stores| && StorePending(s, p, i);
      TopStoreDone(s, i);
    }
  }

  // ----- at most NUM_INSTR_SOURCES * (ROB_SIZE - 2) loads can wait

  /** Where a waiting load is among those of all entries from the third one on. */
  function Place(s: State, l: nat): int
    requires l < |s.lq|
  {
    NUM_INSTR_SOURCES * (s.lq[l].instrId - s.retired - 2) + s.lq[l].dataIndex
  }

  lemma PlacesDiffer(s: State, l: nat, m: nat)
    requires Shape(s) && LqLive(s, l) && LqLive(s, m) && OwnedLoad(s, l) && OwnedLoad(s, m) && Place(s, l) == Place(s, m)
    ensures l == m
  {
    assert s.lq[l].instrId == s.lq[m].instrId && s.lq[l].dataIndex == s.lq[m].dataIndex;
    SameId(s, s.lq[l].robIndex, s.lq[m].robIndex);
  }

  lemma PlaceFits(s: State, l: nat)
    requires Inv(s) && Forwarding(s) && Settled(s) && s.occ > 0 && LqLive(s, l)
    ensures 0 <= Place(s, l) < NUM_INSTR_SOURCES * (|s.rob| - 2)
  {
    hide Forwarding, StoreOrder, Placement, Loads, Counts, LoadQueues, StoreQueues, Finishes, Settled;
    WaitsInBetween(s, l);
    MulMonotonic(NUM_INSTR_SOURCES, s.lq[l].instrId - s.retired - 1, |s.rob| - 2);
  }

  /** A settled load queue that is large enough has a free slot. */
  lemma RoomForOne(s: State)
    requires Inv(s) && Forwarding(s) && Settled(s) && s.occ > 0 && |s.lq| > NUM_INSTR_SOURCES * (|s.rob| - 2)
    ensures s.lqOcc < |s.lq|
  {
    hide Forwarding, StoreOrder, Placement, Counts, LoadQueues, StoreQueues, Finishes, Settled, Place;
    if forall l :: 0 <= l < |s.lq| ==> LqLive(s, l) {
      forall l: nat | l < |s.lq| ensures 0 <= Place(s, l) < NUM_INSTR_SOURCES * (|s.rob| - 2) { PlaceFits(s, l); }
      var places: seq<nat> := seq(|s.lq|, l requires 0 <= l < |s.lq| => Place(s, l));
      forall i, j | 0 <= i < j < |places| ensures places[i] != places[j] {
        if places[i] == places[j] { PlacesDiffer(s, i, j); }
      }
      DistinctBelow(places, NUM_INSTR_SOURCES * (|s.rob| - 2));
    } else {
      var l: nat :| l < |s.lq| && !LqLive(s, l);
      SomeFree(s.lq, l);
    }
  }

  lemma {:induction false} SomeFree(lq: seq<LqEntry>, l: nat)
    requires l < |lq| && lq[l].address == 0
    ensures Occupied(lq) < |lq|
  {
    AtMostAll(lq[..|lq| - 1]);
    if l < |lq| - 1 { SomeFree(lq[..|lq| - 1], l); }
  }

  lemma {:induction false} AtMostAll(lq: seq<LqEntry>)
    ensures Occupied(lq) <= |lq|
  {
    if |lq| > 0 { AtMostAll(lq[..|lq| - 1]); }
  }

  // ----- one more attempt to schedule the oldest entry

  /** The loads of an entry that are not in the queue yet. */
  function Missing(e: RobEntry, n: nat): nat {
    if n == 0 then 0
    else Missing(e, n - 1) + (if n - 1 < |e.instr.loads| && n - 1 < |e.sourceAdded| && e.instr.loads[n - 1] != 0 && !e.sourceAdded[n - 1] then 1 else 0)
  }

  lemma {:induction false} MissingLess(e: RobEntry, e': RobEntry, n: nat)
    requires Grew(e, e')
    ensures Missing(e', n) <= Missing(e, n)
  {
    if n > 0 { MissingLess(e, e', n - 1); }
  }

  lemma {:induction false} OneMissingLess(e: RobEntry, e': RobEntry, j: nat, n: nat)
    requires Grew(e, e') && j < n && j < |e.instr.loads| && j < |e.sourceAdded|
    requires e.instr.loads[j] != 0 && !e.sourceAdded[j] && e'.sourceAdded[j]
    ensures Missing(e', n) < Missing(e, n)
  {
    MissingLess(e, e', n - 1);
    if j < n - 1 { OneMissingLess(e, e', j, n - 1); }
  }

  /** With a free slot in the load queue, the loop over the loads adds the first missing one. */
  lemma {:induction false} AddsFirst(s: State, c: nat, j: nat, k: nat)
    requires Inv(s) && Live(s, c) && EntryShape(s.rob[c]) && j <= k < NUM_INSTR_SOURCES && s.lqOcc < |s.lq|
    requires s.rob[c].instr.loads[k] != 0 && !s.rob[c].sourceAdded[k]
    ensures c < |AddLoads(s, c, j).rob|
    ensures Missing(AddLoads(s, c, j).rob[c], NUM_INSTR_SOURCES) < Missing(s.rob[c], NUM_INSTR_SOURCES)
    decreases k - j
  {
    hide Inv, AddLoad, Missing;
    InvParts(s);
    if CanAddLoad(s, c, j) {
      LoadBounds(s, c, j);
      AddLoadGrows(s, c, j);
      AddsOne(s, c, j);
      OneMissingLess(s.rob[c], AddLoad(s, c, j).rob[c], j, NUM_INSTR_SOURCES);
      AddLoadsGrow(AddLoad(s, c, j), c, j + 1);
      MissingLess(AddLoad(s, c, j).rob[c], AddLoads(s, c, j).rob[c], NUM_INSTR_SOURCES);
    } else {
      CanAdd(s, c, k);
      AddsFirst(s, c, j + 1, k);
    }
  }

  lemma AddsOne(s: State, c: nat, j: nat)
    requires CanAddLoad(s, c, j)
    ensures c < |AddLoad(s, c, j).rob| && j < |AddLoad(s, c, j).rob[c].sourceAdded| && AddLoad(s, c, j).rob[c].sourceAdded[j]
  {
    hide YoungestStore, CanForward, Wrap, AgeFrom;
  }

  lemma CanAdd(s: State, c: nat, j: nat)
    requires Inv(s) && Live(s, c) && EntryShape(s.rob[c]) && j < NUM_INSTR_SOURCES && s.lqOcc < |s.lq|
    requires s.rob[c].instr.loads[j] != 0 && !s.rob[c].sourceAdded[j]
    ensures CanAddLoad(s, c, j)
  {
    FreeSlotExists(s);
  }

  lemma {:induction false} NoneMissing(e: RobEntry, n: nat)
    ensures Missing(e, n) == 0 <==> forall j :: 0 <= j < n && j < |e.instr.loads| && j < |e.sourceAdded| && e.instr.loads[j] != 0 ==> e.sourceAdded[j]
  {
    if n > 0 { NoneMissing(e, n - 1); }
  }

  lemma TopReady(p: Core, s: State)
    requires Inv(s) && s.occ > 0 && Sound(p.ready)
    ensures Allowed(p, s, Schedules(s.head)) && Allowed(p, s, Completes(s.head))
  {
    hide StoreOrder, Placement, Loads, Counts, LoadQueues, StoreQueues, Finishes;
    HeadIsFirst(s);
    assert AllWritersDone(p.regs, s, s.rob[s.head].id);
  }

  lemma TopHasOneStore(s: State)
    requires Inv(s) && Forwarding(s) && s.occ > 0
    ensures Live(s, s.head) && EntryShape(s.rob[s.head]) && HeadStores(s) <= 1 <= |s.sq|
  {
    hide StoreOrder, Placement, Loads, Counts, LoadQueues, StoreQueues, Finishes, Waiting, Consumers, Exact, PastStores;
    HeadIsFirst(s);
    LivePlain(s, s.head);
  }

  /** The operands of the oldest entry after one check_and_add_lsq. */
  lemma AddsTop(s: State)
    requires Open(s)
    ensures var m := CheckAndAdd(s, s.head);
            && Open(m) && SameTop(s, m) && TopPlaced(m)
            && Missing(m.rob[s.head], NUM_INSTR_SOURCES) <= Missing(s.rob[s.head], NUM_INSTR_SOURCES)
            && (s.lqOcc < |s.lq| && Missing(s.rob[s.head], NUM_INSTR_SOURCES) > 0 ==>
                  Missing(m.rob[s.head], NUM_INSTR_SOURCES) < Missing(s.rob[s.head], NUM_INSTR_SOURCES))
  {
    hide Inv, Forwarding, FlagsFit, CheckAndAdd, PlacedBefore, Missing, EntryShape;
    TopHasOneStore(s);
    var c, m := s.head, CheckAndAdd(s, s.head);
    CheckAndAddKeeps(s, c);
    KeepsHead(s, c);
    KeepsRetired(s, c);
    CheckAndAddGrows(s, c);
    GrewFits(s, m);
    MissingLess(s.rob[c], m.rob[c], NUM_INSTR_SOURCES);
    forall i: nat | i < |s.rob[c].instr.stores| && s.rob[c].instr.stores[i] != 0
      ensures i < |m.rob[c].destinationAdded| && m.rob[c].destinationAdded[i]
    {
      HeadFits(s, i);
    }
    if s.lqOcc < |s.lq| && Missing(s.rob[c], NUM_INSTR_SOURCES) > 0 { AddsMissing(s); }
  }

  lemma AddsMissing(s: State)
    requires Inv(s) && Live(s, s.head) && EntryShape(s.rob[s.head]) && s.lqOcc < |s.lq|
    requires Missing(s.rob[s.head], NUM_INSTR_SOURCES) > 0
    ensures s.head < |CheckAndAdd(s, s.head).rob|
    ensures Missing(CheckAndAdd(s, s.head).rob[s.head], NUM_INSTR_SOURCES) < Missing(s.rob[s.head], NUM_INSTR_SOURCES)
  {
    hide Inv, Missing, AddLoads, AddStores;
    var c, e := s.head, s.rob[s.head];
    NoneMissing(e, NUM_INSTR_SOURCES);
    var k: nat :| k < NUM_INSTR_SOURCES && k < |e.instr.loads| && k < |e.sourceAdded| && e.instr.loads[k] != 0 && !e.sourceAdded[k];
    AddsFirst(s, c, 0, k);
    var m := AddLoads(s, c, 0);
    AddStoresGrow(m, c, 0, |e.instr.stores|);
    MissingLess(m.rob[c], CheckAndAdd(s, c).rob[c], NUM_INSTR_SOURCES);
  }

  /** do_memory_scheduling of the oldest entry. */
  lemma SchedulesTop(s: State)
    requires Open(s) && s.rob[s.head].scheduled != Completed
    ensures MaySchedule(s, s.head)
    ensures var u := MemoryScheduling(s, s.head);
            && Open(u) && SameTop(s, u) && TopPlaced(u)
            && Missing(u.rob[s.head], NUM_INSTR_SOURCES) <= Missing(s.rob[s.head], NUM_INSTR_SOURCES)
            && (s.lqOcc < |s.lq| && Missing(s.rob[s.head], NUM_INSTR_SOURCES) > 0 ==>
                  Missing(u.rob[s.head], NUM_INSTR_SOURCES) < Missing(s.rob[s.head], NUM_INSTR_SOURCES))
            && (Missing(u.rob[s.head], NUM_INSTR_SOURCES) == 0 ==> u.rob[s.head].executed == Inflight)
  {
    hide Inv, Forwarding, FlagsFit, CheckAndAdd, Missing, EntryShape;
    TopHasOneStore(s);
    var c, m := s.head, CheckAndAdd(s, s.head);
    AddsTop(s);
    TopHasOneStore(m);
    MemorySchedulingKeeps(s, c);
    SchedulingFits(s, c);
    var u := MemoryScheduling(s, c);
    SameMissing(m.rob[c], u.rob[c], NUM_INSTR_SOURCES);
    if Missing(u.rob[c], NUM_INSTR_SOURCES) == 0 { AddedFinishes(m); }
  }

  lemma {:induction false} SameMissing(e: RobEntry, e': RobEntry, n: nat)
    requires e'.instr == e.instr && e'.sourceAdded == e.sourceAdded
    ensures Missing(e', n) == Missing(e, n)
  {
    if n > 0 { SameMissing(e, e', n - 1); }
  }

  lemma AddedFinishes(m: State)
    requires m.head < |m.rob| && EntryShape(m.rob[m.head]) && TopPlaced(m) && Missing(m.rob[m.head], NUM_INSTR_SOURCES) == 0
    requires m.rob[m.head].executed != Completed
    ensures AllAdded(m.rob[m.head]) && FinishScheduling(m, m.head).rob[m.head].executed == Inflight
  {
    NoneMissing(m.rob[m.head], NUM_INSTR_SOURCES);
  }

  /** Whatever the oldest entry needs, one attempt to schedule it settles the queues again. */
  lemma Attempt(p: Core, s: State) returns (t: State)
    requires Open(s) && Sound(p.ready)
    ensures Open(t) && SameTop(s, t) && Settled(t) && Leads(p, s, t)
    ensures Missing(t.rob[s.head], NUM_INSTR_SOURCES) <= Missing(s.rob[s.head], NUM_INSTR_SOURCES)
    ensures s.lqOcc < |s.lq| && Missing(s.rob[s.head], NUM_INSTR_SOURCES) > 0 ==>
              Missing(t.rob[s.head], NUM_INSTR_SOURCES) < Missing(s.rob[s.head], NUM_INSTR_SOURCES)
    ensures Missing(t.rob[s.head], NUM_INSTR_SOURCES) == 0 ==> t.rob[s.head].executed == Inflight
  {
    hide Inv, Forwarding, FlagsFit, Missing, Sound, Leads, MemoryScheduling, EntryShape, Quiet;
    TopHasOneStore(s);
    var u := s;
    if s.rob[s.head].scheduled == Completed {
      ScheduledTop(s);
      LeadsNowhere(p, s);
    } else {
      SchedulesTop(s);
      TopReady(p, s);
      u := ReadyStep(p, s, Schedules(s.head));
      LeadsOne(p, s, Schedules(s.head));
    }
    t := Drain(p, u);
    LeadsOn(p, s, u, t);
    KeptFits(u, t);
    TopKept(u, t);
    SameMissing(u.rob[s.head], t.rob[s.head], NUM_INSTR_SOURCES);
  }

  lemma ScheduledTop(s: State)
    requires Open(s) && s.head < |s.rob| && s.rob[s.head].scheduled == Completed && EntryShape(s.rob[s.head])
    ensures TopPlaced(s) && Missing(s.rob[s.head], NUM_INSTR_SOURCES) == 0 && s.rob[s.head].executed == Inflight
  {
    hide Inv, Forwarding, Missing;
    NoneMissing(s.rob[s.head], NUM_INSTR_SOURCES);
  }

  lemma TopKept(u: State, t: State)
    requires Kept(u, t) && u.head < |u.rob| && TopPlaced(u)
    ensures TopPlaced(t) && SameTop(u, t)
    ensures var e, e' := u.rob[u.head], t.rob[u.head]; e'.instr == e.instr && e'.sourceAdded == e.sourceAdded && e'.executed == e.executed
  {
    assert t.rob[u.head] == u.rob[u.head].(numMemOps := t.rob[u.head].numMemOps, eventCycle := t.rob[u.head].eventCycle);
  }

  // ----- completion and retirement

  lemma {:induction false} NoPendingLoads(s: State, c: nat, n: nat)
    requires c < |s.rob| && forall j: nat :: j < n ==> !LoadPending(s, c, j)
    ensures PendingLoads(s, c, n) == 0
  {
    if n > 0 { NoPendingLoads(s, c, n - 1); }
  }

  lemma {:induction false} NoPendingStores(s: State, c: nat, n: nat)
    requires c < |s.rob| && forall i: nat :: i < n ==> !StorePending(s, c, i)
    ensures PendingStores(s, c, n) == 0
  {
    if n > 0 { NoPendingStores(s, c, n - 1); }
  }

  lemma TopLoadDone(s: State, j: nat)
    requires Inv(s) && Forwarding(s) && Settled(s) && s.occ > 0 && Missing(s.rob[s.head], NUM_INSTR_SOURCES) == 0 && j < NUM_INSTR_SOURCES
    ensures !LoadPending(s, s.head, j)
  {
    hide StoreOrder, Placement, Counts, LoadQueues, StoreQueues, Finishes, Forwarding, Missing, Settled, Wrap, AgeFrom;
    NoneMissing(s.rob[s.head], NUM_INSTR_SOURCES);
    if Holds(s, s.head, j) {
      WaitsInBetween(s, s.rob[s.head].lqIndex[j].value);
      HeadIsFirst(s);
    }
  }

  lemma NothingOutstanding(s: State)
    requires Inv(s) && Forwarding(s) && Settled(s) && s.occ > 0 && Missing(s.rob[s.head], NUM_INSTR_SOURCES) == 0
    ensures Live(s, s.head) && s.rob[s.head].numMemOps == 0
  {
    hide StoreOrder, Placement, Loads, LoadQueues, StoreQueues, Finishes, Forwarding, Missing, Settled, LoadPending, StorePending;
    HeadIsFirst(s);
    assert Outstanding(s, s.head);
    forall j: nat | j < NUM_INSTR_SOURCES ensures !LoadPending(s, s.head, j) { TopLoadDone(s, j); }
    NoPendingLoads(s, s.head, NUM_INSTR_SOURCES);
    forall i: nat | i < |s.rob[s.head].instr.stores| ensures !StorePending(s, s.head, i) { TopStoreDone(s, i); }
    NoPendingStores(s, s.head, |s.rob[s.head].instr.stores|);
  }

  lemma CompletedRetires(p: Core, s: State)
    requires Inv(s) && MayRetire(s)
    ensures CanRetire(p, s)
  {
    hide Inv, Leads, Retire;
    RetireFront(s);
    LeadsOne(p, s, Retires);
    assert ReadyStep(p, s, Retires).retired == s.retired + 1;
  }

  lemma SettledRetires(p: Core, s: State)
    requires Open(s) && Settled(s) && Sound(p.ready)
    requires Missing(s.rob[s.head], NUM_INSTR_SOURCES) == 0 && s.rob[s.head].executed == Inflight
    ensures CanRetire(p, s)
  {
    hide Inv, Forwarding, FlagsFit, Leads, Sound, Missing, Settled, Allowed;
    NothingOutstanding(s);
    TopReady(p, s);
    LeadsOne(p, s, Completes(s.head));
    var u := ReadyStep(p, s, Completes(s.head));
    assert MayRetire(u);
    CompletedRetires(p, u);
    var t: State :| Leads(p, u, t) && t.retired > u.retired;
    LeadsOn(p, s, u, t);
  }

  lemma {:induction false} TopRetires(p: Core, s: State)
    requires Open(s) && Settled(s) && Sound(p.ready) && |s.lq| > NUM_INSTR_SOURCES * (|s.rob| - 2)
    requires Missing(s.rob[s.head], NUM_INSTR_SOURCES) == 0 ==> s.rob[s.head].executed == Inflight
    ensures CanRetire(p, s)
    decreases Missing(s.rob[s.head], NUM_INSTR_SOURCES)
  {
    hide Inv, Forwarding, FlagsFit, Leads, Sound, Missing, Settled;
    TopHasOneStore(s);
    if Missing(s.rob[s.head], NUM_INSTR_SOURCES) == 0 {
      SettledRetires(p, s);
    } else {
      RoomForOne(s);
      var t := Attempt(p, s);
      TopRetires(p, t);
      var r: State :| Leads(p, t, r) && r.retired > t.retired;
      LeadsOn(p, s, t, r);
    }
  }

  /** From any such state the oldest entry can retire. */
  lemma OldestCanRetire(p: Core, s: State)
    requires Inv(s) && Forwarding(s) && FlagsFit(s) && s.occ > 0 && Sound(p.ready) && |s.lq| > NUM_INSTR_SOURCES * (|s.rob| - 2)
    ensures CanRetire(p, s)
  {
    hide Inv, Forwarding, FlagsFit, Leads, Sound, Missing, Settled;
    TopHasOneStore(s);
    if s.rob[s.head].executed == Completed {
      CompletedRetires(p, s);
    } else {
      var t := Attempt(p, s);
      TopRetires(p, t);
      var r: State :| Leads(p, t, r) && r.retired > t.retired;
      LeadsOn(p, s, t, r);
    }
  }
}
