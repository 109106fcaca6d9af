/** When and how a load finishes: after the store it needs, by a reply of the cache or from the store. */
module LsqOrder {
  import opened Common
  import opened LoadStoreQueue
  import opened LsqFrames
  import opened LsqLoads
  import opened LsqStores
  import opened LsqRetire
  import opened LsqForwarding
  import opened LsqForwardingSteps
  import opened LsqRuns
  import opened LsqWaiting
  import opened LsqTheorems

  // ----- read after write through memory

  /** The instruction at position `w` of the trace has no store to `address` left to execute. */
  ghost predicate HasStored(s: State, w: nat, address: nat) {
    w < s.retired || exists p: nat :: Live(s, p) && s.rob[p].id == w && !StillToStore(s, p, address)
  }

  /** Entries are in the buffer by their position in the trace. */
  lemma EntryAt(s: State, w: nat) returns (p: nat)
    requires Shape(s) && s.retired <= w < s.retired + s.occ
    ensures Live(s, p) && s.rob[p].id == w
  {
    p := SlotOfAge(s, w - s.retired);
  }

  lemma FinishedLoadIsServed(s: State, x: LoadId)
    requires Inv(s) && Exact(s) && x in s.finished
    ensures x.id < |s.trace| && x.index < |s.trace[x.id].loads|
    ensures var address := s.trace[x.id].loads[x.index];
            var w := LastStore(s.trace, x.id, address);
            w.None? || HasStored(s, w.value, address)
  {
    hide StoreOrder, Placement, Counts, LoadQueues, StoreQueues;
    assert IsFinished(s, x);
    var address := s.trace[x.id].loads[x.index];
    var w := LastStore(s.trace, x.id, address);
    LastStoreEarlier(s.trace, x.id, address);
    if w.Some? && w.value >= s.retired {
      var d: nat :| d < |s.rob| && Live(s, d) && s.rob[d].id == x.id && !LoadPending(s, d, x.index);
      assert EntryShape(s.rob[d]);
      var p := EntryAt(s, w.value);
      assert QueuedLoad(s, p, d, x.index) ==> HeldBy(s, p, d, x.index);
    }
  }

  /**
   Read-after-write order through memory over whole runs: in a program with at most one store per
   instruction, whatever load is done, in the buffer or retired since, had the last older store to
   its address executed.
   */
  lemma FinishedAfterStores(k: Config, evs: seq<Event>, x: LoadId)
    requires k.Valid() && PlainEvents(evs) && x in Reached(k, evs).finished
    ensures var s := Reached(k, evs);
            && x.id < |s.trace| && x.index < |s.trace[x.id].loads|
            && var address := s.trace[x.id].loads[x.index];
            var w := LastStore(s.trace, x.id, address);
            w.None? || HasStored(s, w.value, address)
  {
    InitialInv(k.robSize, k.lqSize, k.sqSize, k.latency);
    RunForwards(Initial(k.robSize, k.lqSize, k.sqSize, k.latency), k.front, evs);
    assert Exact(Reached(k, evs));
    hide Reached, Inv, Exact;
    FinishedLoadIsServed(Reached(k, evs), x);
  }

  // ----- how a load finishes

  /** Slot `l` of the load queue is load `x` of the trace. */
  ghost predicate IsLoad(s: State, l: nat, x: LoadId) {
    LqLive(s, l) && s.lq[l].instrId == x.id && s.lq[l].dataIndex == x.index
  }

  /** Slot `l` is load `x`, waiting for the store of the instruction at position `w`. */
  ghost predicate WaitingLoad(s: State, l: nat, x: LoadId, w: nat) {
    IsLoad(s, l, x) && s.lq[l].producer == Some(w)
  }

  /** Store queue slot `f` holds the executed last store to the address of load `x`. */
  ghost predicate ServedBy(s: State, f: nat, x: LoadId) {
    && f < |s.sq| && s.sq[f].fetched == Completed
    && x.id < |s.trace| && x.index < |s.trace[x.id].loads| && s.sq[f].address == s.trace[x.id].loads[x.index]
    && LastStore(s.trace, x.id, s.sq[f].address) == Some(s.sq[f].instrId)
  }

  /**
   The three ways: the cache answers the load's request, the store it waits for executes, or the
   load is taken into the queue when the last older store to its address has executed already.
   */
  ghost predicate FinishedBy(s: State, ev: Event, x: LoadId) {
    match ev
    case LoadAnswered(l, _) => l in s.cacheLoads && IsLoad(s, l, x) && s.lq[l].producer.None?
    case StoreExecuted =>
      && |s.rts1| > 0 && s.rts1[0] < |s.sq|
      && exists l: nat :: WaitingLoad(s, l, x, s.sq[s.rts1[0]].instrId)
    case Schedules(c) => Live(s, c) && s.rob[c].id == x.id && exists f: nat :: ServedBy(s, f, x)
    case _ => false
  }

  /** Load `x` is done in `s'` and was not in `s`. */
  predicate NewlyDone(s: State, s': State, x: LoadId) { x in s'.finished && x !in s.finished }

  lemma AnswerFinishes(s: State, l: nat, ev: nat, x: LoadId)
    requires Inv(s) && l in s.cacheLoads
    ensures LqLive(s, l) && s.lq[l].robIndex < |s.rob|
    ensures NewlyDone(s, LoadFetched(s, l, ev), x) ==> IsLoad(s, l, x) && s.lq[l].producer.None?
  {
    assert InCache(s, l) && OwnedLoad(s, l);
  }

  /** Only slots in use have a producer. */
  ghost predicate ProducersLive(s: State) { forall l: nat :: l < |s.lq| && s.lq[l].producer.Some? ==> LqLive(s, l) }

  /** The forwarding loops finish loads that wait for the executing instruction. */
  lemma {:induction false} ForwardFinishes(s: State, q: nat, d: nat, j: nat, x: LoadId)
    requires q < |s.sq| && s.sq[q].robIndex < |s.rob| && d <= |s.rob| && j <= NUM_INSTR_SOURCES && ProducersLive(s)
    requires Forward(s, q, d, j).Some? && NewlyDone(s, Forward(s, q, d, j).value, x)
    ensures exists l: nat :: WaitingLoad(s, l, x, s.sq[q].instrId)
    decreases |s.rob| - d, NUM_INSTR_SOURCES - j
  {
    if d == |s.rob| {
    } else if j == NUM_INSTR_SOURCES || d !in s.rob[s.sq[q].robIndex].dependents {
      ForwardFinishes(s, q, d + 1, 0, x);
    } else if Matches(s, q, d, j) {
      var l := s.rob[d].lqIndex[j].value;
      var m := FinishLoad(s, l, s.clock);
      if x in m.finished {
        assert WaitingLoad(s, l, x, s.sq[q].instrId);
      } else {
        ForwardFinishes(m, q, d, j + 1, x);
        var k: nat :| WaitingLoad(m, k, x, m.sq[q].instrId);
        assert WaitingLoad(s, k, x, s.sq[q].instrId);
      }
    } else {
      ForwardFinishes(s, q, d, j + 1, x);
    }
  }

  lemma ExecuteFinishes(s: State, x: LoadId)
    requires Inv(s) && |s.rts1| > 0
    ensures s.rts1[0] < |s.sq| && s.sq[s.rts1[0]].robIndex < |s.rob|
    ensures ExecuteStore(s).Some? && NewlyDone(s, ExecuteStore(s).value, x) ==>
              exists l: nat :: WaitingLoad(s, l, x, s.sq[s.rts1[0]].instrId)
  {
    ExecuteStoreKeepsInv(s);
    var q := s.rts1[0];
    var m := StoreDone(s, q).(rts1 := s.rts1[1..]);
    if ExecuteStore(s).Some? && NewlyDone(s, ExecuteStore(s).value, x) {
      assert ProducersLive(s);
      ForwardFinishes(m, q, 0, 0, x);
      var l: nat :| WaitingLoad(m, l, x, m.sq[q].instrId);
      assert WaitingLoad(s, l, x, s.sq[q].instrId);
    }
  }

  /** A load that is taken into the queue is done at once only if the last store to its address has executed. */
  lemma AddLoadFinishes(s: State, c: nat, j: nat, x: LoadId)
    requires Shape(s) && Loads(s) && MayAddLoad(s, c, j) && FreeFrom(s.lq, 0) < |s.lq|
    ensures AddLoad(s, c, j).sq == s.sq && AddLoad(s, c, j).trace == s.trace
    ensures NewlyDone(s, AddLoad(s, c, j), x) ==> s.rob[c].id == x.id && exists f: nat :: ServedBy(s, f, x)
  {
    FreeSlotExists(s);
    var l := FreeFrom(s.lq, 0);
    EnterIs(s, c, j, l);
    if NewlyDone(s, AddLoad(s, c, j), x) { ForwardedBy(s, c, j, l, x); }
  }

  lemma ForwardedBy(s: State, c: nat, j: nat, l: nat, x: LoadId)
    requires Shape(s) && MayAddLoad(s, c, j) && l < |s.lq| && CanForward(EnterLoad(s, c, j, l), l)
    requires x == LoadId(s.rob[c].id, j)
    ensures exists f: nat :: ServedBy(s, f, x)
  {
    var m, address := EnterLoad(s, c, j, l), s.rob[c].instr.loads[j];
    EnterIs(s, c, j, l);
    EnterRecords(s, c, j, l, c);
    YoungestIsLast(s, Age(s, c), address);
    ForwarderFound(m.sq, 0, address, m.lq[l].producer);
    var f := ForwarderFrom(m.sq, 0, address, m.lq[l].producer);
    hide EnterLoad, YoungestStore, LastStore;
    assert ServedBy(s, f, x);
  }

  lemma {:induction false} AddLoadsFinish(s: State, c: nat, j: nat, x: LoadId)
    requires Inv(s) && Live(s, c) && j <= NUM_INSTR_SOURCES && NewlyDone(s, AddLoads(s, c, j), x)
    ensures s.rob[c].id == x.id && exists f: nat :: ServedBy(s, f, x)
    decreases NUM_INSTR_SOURCES - j
  {
    hide Inv, CanAddLoad, AddLoad, ServedBy;
    if j < NUM_INSTR_SOURCES {
      if CanAddLoad(s, c, j) {
        LoadBounds(s, c, j);
        AddLoadStep(s, c, j);
        AddLoadOnce(s, c, j, x);
        var m := AddLoad(s, c, j);
        if x !in m.finished {
          AddLoadsFinish(m, c, j + 1, x);
          var f: nat :| ServedBy(m, f, x);
          SameServer(s, m, f, x);
        }
      } else {
        AddLoadsFinish(s, c, j + 1, x);
      }
    }
  }

  lemma SameServer(s: State, m: State, f: nat, x: LoadId)
    requires m.sq == s.sq && m.trace == s.trace && ServedBy(m, f, x)
    ensures ServedBy(s, f, x)
  {
  }

  lemma AddLoadOnce(s: State, c: nat, j: nat, x: LoadId)
    requires Inv(s) && Live(s, c) && CanAddLoad(s, c, j)
    ensures AddLoad(s, c, j).sq == s.sq && AddLoad(s, c, j).trace == s.trace
    ensures NewlyDone(s, AddLoad(s, c, j), x) ==> s.rob[c].id == x.id && exists f: nat :: ServedBy(s, f, x)
  {
    InvParts(s);
    EntryOf(s, c);
    assert MayAddLoad(s, c, j);
    hide Inv;
    AddLoadFinishes(s, c, j, x);
  }

  lemma {:induction false} AddStoresFinish(s: State, c: nat, i: nat, n: nat)
    requires i <= n
    ensures AddStores(s, c, i, n).finished == s.finished
    decreases n - i
  {
    if i < n { AddStoresFinish(if CanAddStore(s, c, i) then AddStore(s, c, i) else s, c, i + 1, n); }
  }

  lemma ScheduleFinishes(s: State, c: nat, x: LoadId)
    requires Inv(s) && Live(s, c) && NewlyDone(s, MemoryScheduling(s, c), x)
    ensures s.rob[c].id == x.id && exists f: nat :: ServedBy(s, f, x)
  {
    hide Inv, ServedBy;
    AddStoresFinish(AddLoads(s, c, 0), c, 0, |s.rob[c].instr.stores|);
    AddLoadsFinish(s, c, 0, x);
  }

  lemma RetireFinishes(s: State)
    requires Inv(s) && MayRetire(s)
    ensures HeadStores(s) <= s.sqOcc && Retire(s).finished == s.finished
  {
    RetireFrame(s);
  }

  lemma StepFinishes(s: State, front: nat, ev: Event, x: LoadId)
    requires Inv(s) && NewlyDone(s, Step(s, front, ev), x)
    ensures FinishedBy(s, ev, x)
  {
    hide Inv, MemoryScheduling;
    match ev
    case Schedules(c) => if MaySchedule(s, c) { ScheduleFinishes(s, c, x); }
    case StoreExecuted => if |s.rts1| > 0 { ExecuteFinishes(s, x); }
    case LoadAnswered(l, e) => if l in s.cacheLoads { AnswerFinishes(s, l, e, x); }
    case Retires => if MayRetire(s) { RetireFinishes(s); }
    case _ =>
  }

  /** Every load that is done became so by one event, in one of the three ways. */
  lemma HowLoadsFinish(k: Config, evs: seq<Event>, ev: Event, x: LoadId)
    requires k.Valid() && x in Reached(k, evs + [ev]).finished && x !in Reached(k, evs).finished
    ensures FinishedBy(Reached(k, evs), ev, x)
  {
    assert (evs + [ev])[..|evs + [ev]| - 1] == evs;
    StepFinishes(Reached(k, evs), k.front, ev, x);
  }

  /** The load in slot `l` waits for the instruction of store `q`: what it is, and in plain programs that it is this store. */
  lemma WaitingForStore(s: State, l: nat, q: nat)
    requires Inv(s) && Waiting(s) && LqLive(s, l) && SqLive(s, q) && s.sq[q].fetched != Completed
    requires s.lq[l].producer == Some(s.sq[q].instrId)
    ensures s.lq[l].instrId < |s.trace| && s.lq[l].dataIndex < |s.trace[s.lq[l].instrId].loads|
    ensures s.trace[s.lq[l].instrId].loads[s.lq[l].dataIndex] == s.lq[l].address
    ensures LastStore(s.trace, s.lq[l].instrId, s.lq[l].address) == Some(s.sq[q].instrId)
    ensures PlainTrace(s) ==> s.sq[q].address == s.lq[l].address
  {
    hide Counts, LoadQueues, StoreQueues, Finishes, Wrap;
    assert OwnedLoad(s, l) && RightProducer(s, l);
    if PlainTrace(s) {
      var p: nat :| WaitsFor(s, l, p, s.lq[l].producer.value);
      StoreOwner(s, q);
      SameId(s, p, s.sq[q].robIndex);
      StoreDoneStill(s, q, p, s.lq[l].address);
    }
  }

  /**
   Whatever load an executing store finishes, its instruction is the last older one that stores to
   the load's address; and with at most one store per instruction it stores to that very address.
   */
  lemma StoresServeTheirLoads(k: Config, evs: seq<Event>, x: LoadId)
    requires k.Valid() && x in Reached(k, evs + [StoreExecuted]).finished && x !in Reached(k, evs).finished
    ensures var s := Reached(k, evs);
            && |s.rts1| > 0 && s.rts1[0] < |s.sq| && x.id < |s.trace| && x.index < |s.trace[x.id].loads|
            && var address := s.trace[x.id].loads[x.index];
            && LastStore(s.trace, x.id, address) == Some(s.sq[s.rts1[0]].instrId)
            && (PlainEvents(evs) ==> s.sq[s.rts1[0]].address == address)
  {
    var s := Reached(k, evs);
    HowLoadsFinish(k, evs, StoreExecuted, x);
    InitialInv(k.robSize, k.lqSize, k.sqSize, k.latency);
    RunWaits(Initial(k.robSize, k.lqSize, k.sqSize, k.latency), k.front, evs);
    if PlainEvents(evs) { RunForwards(Initial(k.robSize, k.lqSize, k.sqSize, k.latency), k.front, evs); }
    hide Reached, Waiting;
    var l: nat :| WaitingLoad(s, l, x, s.sq[s.rts1[0]].instrId);
    ReadyStore(s);
    WaitingForStore(s, l, s.rts1[0]);
  }

  lemma ReadyStore(s: State)
    requires Inv(s) && |s.rts1| > 0
    ensures SqLive(s, s.rts1[0]) && s.sq[s.rts1[0]].fetched != Completed
  {
    assert s.rts1[0] in s.rts1 && InRts1(s, s.rts1[0]);
  }
}
