/** What the events that empty the load and store queues leave alone, and that they come to an end. */
module QueueMoves {
  import opened Common
  import opened LoadStoreQueue
  import opened LsqStores
  import opened LsqRing
  import opened LsqRetire
  import opened LsqForwarding
  import opened LsqForwardingSteps
  import opened LsqRuns
  import opened LsqTheorems
  import opened ReadyRuns

  // ----- the events that empty the queues

  /** The buffer as it was, but for counters and cycles; the rings and queues have kept their sizes. */
  ghost predicate Kept(s: State, t: State) {
    && t.head == s.head && t.occ == s.occ && t.retired == s.retired && t.trace == s.trace
    && |t.rob| == |s.rob| && |t.lq| == |s.lq| && |t.sq| == |s.sq|
    && forall c: nat | c < |s.rob| :: t.rob[c] == s.rob[c].(numMemOps := t.rob[c].numMemOps, eventCycle := t.rob[c].eventCycle)
  }

  lemma KeptOn(s: State, m: State, t: State)
    requires Kept(s, m) && Kept(m, t)
    ensures Kept(s, t)
  {
    forall c: nat | c < |s.rob| ensures t.rob[c] == s.rob[c].(numMemOps := t.rob[c].numMemOps, eventCycle := t.rob[c].eventCycle) {
      assert t.rob[c] == m.rob[c].(numMemOps := t.rob[c].numMemOps, eventCycle := t.rob[c].eventCycle);
    }
  }

  ghost predicate SameQueues(s: State, t: State) {
    && t.rts0 == s.rts0 && t.rts1 == s.rts1 && t.tlbStores == s.tlbStores
    && t.rtl0 == s.rtl0 && t.rtl1 == s.rtl1 && t.tlbLoads == s.tlbLoads && t.cacheLoads == s.cacheLoads
  }

  lemma {:induction false} ForwardKeeps(s: State, q: nat, d: nat, j: nat)
    requires q < |s.sq| && s.sq[q].robIndex < |s.rob| && d <= |s.rob| && j <= NUM_INSTR_SOURCES
    ensures var r := Forward(s, q, d, j); r.Some? ==> Kept(s, r.value) && SameQueues(s, r.value)
    decreases |s.rob| - d, NUM_INSTR_SOURCES - j
  {
    if d == |s.rob| {
    } else if j == NUM_INSTR_SOURCES || d !in s.rob[s.sq[q].robIndex].dependents {
      ForwardKeeps(s, q, d + 1, 0);
    } else if Matches(s, q, d, j) {
      var l := s.rob[d].lqIndex[j].value;
      if s.lq[l].producer == Some(s.sq[q].instrId) && s.lq[l].robIndex < |s.rob| {
        var m := FinishLoad(s, l, s.clock);
        ForwardKeeps(m, q, d, j + 1);
        var r := Forward(m, q, d, j + 1);
        if r.Some? { KeptOn(s, m, r.value); }
      }
    } else {
      ForwardKeeps(s, q, d, j + 1);
    }
  }

  /** How many moves the entries in the rings and with the environment still have to make. */
  function Work(s: State): nat {
    3 * |s.rts0| + 2 * |s.tlbStores| + |s.rts1| + 4 * |s.rtl0| + 3 * |s.tlbLoads| + 2 * |s.rtl1| + |s.cacheLoads|
  }

  ghost predicate Quiet(s: State) { Work(s) == 0 }

  lemma OneMore(x: set<nat>, q: nat)
    ensures |x + {q}| <= |x| + 1
  {
    if q in x { assert x + {q} == x; }
  }

  lemma OneLess(x: set<nat>, q: nat)
    requires q in x
    ensures |x - {q}| == |x| - 1
  {
    assert x == (x - {q}) + {q};
  }

  /** The next event that moves something along. */
  ghost function Move(s: State): Event
    requires !Quiet(s)
  {
    if |s.rts1| > 0 then StoreExecuted
    else if |s.rts0| > 0 then StoreIssued
    else if |s.rtl0| > 0 then LoadIssued
    else if |s.rtl1| > 0 then LoadExecuted
    else if s.tlbStores != {} then var q :| q in s.tlbStores; StoreTranslation(q)
    else if s.tlbLoads != {} then var l :| l in s.tlbLoads; LoadTranslation(l)
    else var l :| l in s.cacheLoads; LoadAnswered(l, 0)
  }

  lemma KeptBuffer(s: State, t: State)
    requires t.head == s.head && t.occ == s.occ && t.retired == s.retired && t.trace == s.trace && t.rob == s.rob
    requires |t.lq| == |s.lq| && |t.sq| == |s.sq|
    ensures Kept(s, t)
  {
  }

  lemma StoreMoves(s: State, q: nat)
    requires Inv(s)
    ensures |s.rts0| > 0 ==> s.rts0[0] < |s.sq| && Kept(s, StoreToTlb(s)) && Work(StoreToTlb(s)) < Work(s)
    ensures q in s.tlbStores ==> q < |s.sq| && Kept(s, StoreTranslated(s, q)) && Work(StoreTranslated(s, q)) < Work(s)
  {
    hide Kept, Shape, StoreOrder, Placement, Loads, Counts, LoadQueues, Finishes;
    if |s.rts0| > 0 {
      StoreToTlbQueues(s);
      OneMore(s.tlbStores, s.rts0[0]);
      KeptBuffer(s, StoreToTlb(s));
    }
    if q in s.tlbStores {
      assert InTlbStore(s, q);
      OneLess(s.tlbStores, q);
      KeptBuffer(s, StoreTranslated(s, q));
    }
  }

  lemma IssueMoves(s: State)
    requires LoadQueues(s) && |s.rtl0| > 0
    ensures s.rtl0[0] < |s.lq| && Kept(s, LoadToTlb(s)) && Work(LoadToTlb(s)) < Work(s)
  {
    hide Kept;
    LoadToTlbQueues(s);
    OneMore(s.tlbLoads, s.rtl0[0]);
    KeptBuffer(s, LoadToTlb(s));
  }

  lemma RequestMoves(s: State)
    requires LoadQueues(s) && |s.rtl1| > 0
    ensures s.rtl1[0] < |s.lq| && Kept(s, LoadToCache(s)) && Work(LoadToCache(s)) < Work(s)
  {
    hide Kept;
    LoadToCacheQueues(s);
    OneMore(s.cacheLoads, s.rtl1[0]);
    KeptBuffer(s, LoadToCache(s));
  }

  lemma TranslationMoves(s: State, l: nat)
    requires LoadQueues(s) && l in s.tlbLoads
    ensures l < |s.lq| && Kept(s, LoadTranslated(s, l)) && Work(LoadTranslated(s, l)) < Work(s)
  {
    hide Kept;
    assert InTlb(s, l);
    OneLess(s.tlbLoads, l);
    KeptBuffer(s, LoadTranslated(s, l));
  }

  lemma LoadMoves(s: State, l: nat)
    requires Inv(s)
    ensures |s.rtl0| > 0 ==> s.rtl0[0] < |s.lq| && Kept(s, LoadToTlb(s)) && Work(LoadToTlb(s)) < Work(s)
    ensures |s.rtl1| > 0 ==> s.rtl1[0] < |s.lq| && Kept(s, LoadToCache(s)) && Work(LoadToCache(s)) < Work(s)
    ensures l in s.tlbLoads ==> l < |s.lq| && Kept(s, LoadTranslated(s, l)) && Work(LoadTranslated(s, l)) < Work(s)
  {
    hide Kept, Work, Shape, StoreOrder, Placement, Loads, Counts, LoadQueues, StoreQueues, Finishes;
    if |s.rtl0| > 0 { IssueMoves(s); }
    if |s.rtl1| > 0 { RequestMoves(s); }
    if l in s.tlbLoads { TranslationMoves(s, l); }
  }

  lemma AnswerMoves(s: State, l: nat)
    requires Inv(s) && l in s.cacheLoads
    ensures l < |s.lq| && s.lq[l].robIndex < |s.rob|
    ensures Kept(s, LoadFetched(s, l, 0)) && Work(LoadFetched(s, l, 0)) < Work(s)
  {
    assert InCache(s, l) && OwnedLoad(s, l);
    OneLess(s.cacheLoads, l);
  }

  lemma ExecuteMoves(s: State)
    requires Inv(s) && Forwarding(s) && |s.rts1| > 0
    ensures s.rts1[0] < |s.sq| && s.sq[s.rts1[0]].robIndex < |s.rob| && ExecuteStore(s).Some?
    ensures var t := ExecuteStore(s).value; Kept(s, t) && Work(t) < Work(s)
  {
    hide Inv, Forwarding, Forward;
    ExecuteStoreForwards(s);
    var q := s.rts1[0];
    var m := StoreDone(s, q).(rts1 := s.rts1[1..]);
    assert Kept(s, m);
    if m.rob[m.sq[q].robIndex].isProducer {
      ForwardKeeps(m, q, 0, 0);
      KeptOn(s, m, ExecuteStore(s).value);
    }
  }

  lemma MoveWorks(p: Core, s: State)
    requires Inv(s) && Forwarding(s) && !Quiet(s)
    ensures !Move(s).Reads?
    ensures var t := ReadyStep(p, s, Move(s)); Kept(s, t) && Work(t) < Work(s)
  {
    hide Inv, Forwarding, Kept, Work, StoreToTlb, StoreTranslated, LoadToTlb, LoadTranslated, LoadToCache, LoadFetched, ExecuteStore;
    match Move(s)
    case StoreIssued => StoreMoves(s, 0);
    case StoreTranslation(q) => StoreMoves(s, q);
    case LoadIssued => LoadMoves(s, 0);
    case LoadTranslation(l) => LoadMoves(s, l);
    case LoadExecuted => LoadMoves(s, 0);
    case LoadAnswered(l, _) => AnswerMoves(s, l);
    case StoreExecuted => ExecuteMoves(s);
  }

  /** The queues can be emptied. */
  lemma {:induction false} Drain(p: Core, s: State) returns (t: State)
    requires Inv(s) && Forwarding(s)
    ensures Inv(t) && Forwarding(t) && Leads(p, s, t) && Kept(s, t) && Quiet(t)
    decreases Work(s)
  {
    hide Inv, Forwarding, Kept, Leads, Work, ReadyStep, Move;
    if Quiet(s) {
      KeptSelf(s);
      LeadsNowhere(p, s);
      t := s;
    } else {
      MoveWorks(p, s);
      var m := ReadyStep(p, s, Move(s));
      ReadyStepForwards(p, s, Move(s));
      LeadsOne(p, s, Move(s));
      t := Drain(p, m);
      LeadsOn(p, s, m, t);
      KeptOn(s, m, t);
    }
  }

  lemma KeptSelf(s: State)
    ensures Kept(s, s)
  {
  }

  // ----- flags

  /** A scheduled memory instruction has all its operands in the queues and is at least in execution. */
  ghost predicate FlagsFit(s: State) {
    forall c: nat :: c < |s.rob| && s.rob[c].scheduled == Completed ==> AllAdded(s.rob[c]) && s.rob[c].executed != Idle
  }

  /** An entry whose operands may have been queued. */
  ghost predicate Grew(e: RobEntry, e': RobEntry) {
    && e'.instr == e.instr && e'.scheduled == e.scheduled && e'.executed == e.executed
    && |e'.sourceAdded| == |e.sourceAdded| && |e'.destinationAdded| == |e.destinationAdded|
    && (forall j :: 0 <= j < |e.sourceAdded| && e.sourceAdded[j] ==> e'.sourceAdded[j])
    && (forall i :: 0 <= i < |e.destinationAdded| && e.destinationAdded[i] ==> e'.destinationAdded[i])
  }

  ghost predicate AllGrew(s: State, t: State) {
    |t.rob| == |s.rob| && forall c: nat | c < |s.rob| :: Grew(s.rob[c], t.rob[c])
  }

  lemma GrewOn(s: State, m: State, t: State)
    requires AllGrew(s, m) && AllGrew(m, t)
    ensures AllGrew(s, t)
  {
    forall c: nat | c < |s.rob| ensures Grew(s.rob[c], t.rob[c]) { assert Grew(s.rob[c], m.rob[c]) && Grew(m.rob[c], t.rob[c]); }
  }

  lemma GrewFits(s: State, t: State)
    requires FlagsFit(s) && AllGrew(s, t)
    ensures FlagsFit(t)
  {
    forall c: nat | c < |t.rob| && t.rob[c].scheduled == Completed ensures AllAdded(t.rob[c]) && t.rob[c].executed != Idle {
      assert Grew(s.rob[c], t.rob[c]) && AllAdded(s.rob[c]);
    }
  }

  lemma EnterGrows(s: State, c: nat, j: nat, l: nat)
    requires CanAddLoad(s, c, j) && l < |s.lq|
    ensures AllGrew(s, EnterLoad(s, c, j, l))
  {
    hide YoungestStore, Wrap, AgeFrom;
  }

  lemma AddLoadGrows(s: State, c: nat, j: nat)
    requires CanAddLoad(s, c, j)
    ensures AllGrew(s, AddLoad(s, c, j))
  {
    hide CanForward, Wrap, AgeFrom;
    var l := FreeFrom(s.lq, 0);
    EnterGrows(s, c, j, l);
  }

  lemma AddStoreGrows(s: State, c: nat, i: nat)
    requires CanAddStore(s, c, i)
    ensures AllGrew(s, AddStore(s, c, i))
  {
  }

  lemma {:induction false} AddLoadsGrow(s: State, c: nat, j: nat)
    requires j <= NUM_INSTR_SOURCES
    ensures AllGrew(s, AddLoads(s, c, j))
    decreases NUM_INSTR_SOURCES - j
  {
    hide AddLoad, CanAddLoad, Grew;
    if j < NUM_INSTR_SOURCES {
      if CanAddLoad(s, c, j) {
        LoadBounds(s, c, j);
        AddLoadGrows(s, c, j);
        AddLoadsGrow(AddLoad(s, c, j), c, j + 1);
        GrewOn(s, AddLoad(s, c, j), AddLoads(s, c, j));
      } else {
        AddLoadsGrow(s, c, j + 1);
      }
    } else {
      GrewSelf(s);
    }
  }

  lemma GrewSelf(s: State)
    ensures AllGrew(s, s)
  {
  }

  lemma {:induction false} AddStoresGrow(s: State, c: nat, i: nat, n: nat)
    requires i <= n
    ensures AllGrew(s, AddStores(s, c, i, n))
    decreases n - i
  {
    hide AddStore, CanAddStore, Grew;
    if i < n {
      if CanAddStore(s, c, i) {
        StoreBounds(s, c, i);
        AddStoreGrows(s, c, i);
        AddStoresGrow(AddStore(s, c, i), c, i + 1, n);
        GrewOn(s, AddStore(s, c, i), AddStores(s, c, i, n));
      } else {
        AddStoresGrow(s, c, i + 1, n);
      }
    } else {
      GrewSelf(s);
    }
  }

  lemma CheckAndAddGrows(s: State, c: nat)
    requires c < |s.rob|
    ensures AllGrew(s, CheckAndAdd(s, c))
  {
    AddLoadsGrow(s, c, 0);
    AddStoresGrow(AddLoads(s, c, 0), c, 0, |s.rob[c].instr.stores|);
    GrewOn(s, AddLoads(s, c, 0), CheckAndAdd(s, c));
  }

  lemma SchedulingFits(s: State, c: nat)
    requires FlagsFit(s) && c < |s.rob|
    ensures FlagsFit(MemoryScheduling(s, c))
  {
    hide CheckAndAdd;
    CheckAndAddGrows(s, c);
    GrewFits(s, CheckAndAdd(s, c));
  }

  lemma KeptFits(s: State, t: State)
    requires FlagsFit(s) && Kept(s, t)
    ensures FlagsFit(t)
  {
    forall c: nat | c < |t.rob| && t.rob[c].scheduled == Completed ensures AllAdded(t.rob[c]) && t.rob[c].executed != Idle {
      assert t.rob[c] == s.rob[c].(numMemOps := t.rob[c].numMemOps, eventCycle := t.rob[c].eventCycle) && AllAdded(s.rob[c]);
    }
  }

  lemma ExecuteFits(s: State)
    requires Inv(s) && FlagsFit(s) && |s.rts1| > 0
    ensures s.rts1[0] < |s.sq| && s.sq[s.rts1[0]].robIndex < |s.rob|
    ensures ExecuteStore(s).Some? ==> FlagsFit(ExecuteStore(s).value)
  {
    hide Inv, Forward;
    ExecuteStoreKeepsInv(s);
    var q := s.rts1[0];
    var m := StoreDone(s, q).(rts1 := s.rts1[1..]);
    assert Kept(s, m);
    KeptFits(s, m);
    if m.rob[m.sq[q].robIndex].isProducer {
      ForwardKeeps(m, q, 0, 0);
      if ExecuteStore(s).Some? { KeptFits(m, ExecuteStore(s).value); }
    }
  }

  lemma RingFits(s: State, c: nat)
    requires Inv(s) && FlagsFit(s)
    ensures MayDispatch(s) ==> RingShape(s) && FlagsFit(Dispatch(s))
    ensures MayComplete(s, c) ==> c < |s.rob| && FlagsFit(Complete(s, c))
    ensures MayRetire(s) ==> RingShape(s) && HeadStores(s) <= s.sqOcc && FlagsFit(Retire(s))
  {
    hide ReleaseStores, NonZero, StoreOrder, Placement, Loads, Counts, LoadQueues, StoreQueues, Finishes;
    if MayRetire(s) { RetireFront(s); }
  }

  lemma StepFits(s: State, front: nat, ev: Event)
    requires Inv(s) && FlagsFit(s)
    ensures FlagsFit(Step(s, front, ev))
  {
    hide Inv, MemoryScheduling, ExecuteStore, Retire, Dispatch, Complete, MayDispatch, MayComplete, MayRetire, FlagsFit, Kept;
    match ev
    case Reads(x) => SameFits(s, Read(s, x));
    case Dispatches => RingFits(s, 0);
    case Schedules(c) => if MaySchedule(s, c) { SchedulingFits(s, c); }
    case StoreIssued => StoreMoves(s, 0); if |s.rts0| > 0 { KeptFits(s, StoreToTlb(s)); }
    case StoreTranslation(q) => StoreMoves(s, q); if q in s.tlbStores { KeptFits(s, StoreTranslated(s, q)); }
    case StoreExecuted => if |s.rts1| > 0 { ExecuteFits(s); }
    case LoadIssued => LoadMoves(s, 0); if |s.rtl0| > 0 { KeptFits(s, LoadToTlb(s)); }
    case LoadTranslation(l) => LoadMoves(s, l); if l in s.tlbLoads { KeptFits(s, LoadTranslated(s, l)); }
    case LoadExecuted => LoadMoves(s, 0); if |s.rtl1| > 0 { KeptFits(s, LoadToCache(s)); }
    case LoadAnswered(l, e) => if l in s.cacheLoads { AnswerFits(s, l, e); }
    case Completes(c) => RingFits(s, c);
    case Retires => RingFits(s, 0);
    case Ticks(n) => SameFits(s, s.(clock := s.clock + n));
  }

  lemma SameFits(s: State, t: State)
    requires FlagsFit(s) && t.rob == s.rob
    ensures FlagsFit(t)
  {
  }

  lemma AnswerFits(s: State, l: nat, e: nat)
    requires Inv(s) && FlagsFit(s) && l in s.cacheLoads
    ensures l < |s.lq| && s.lq[l].robIndex < |s.rob| && FlagsFit(LoadFetched(s, l, e))
  {
    assert InCache(s, l) && OwnedLoad(s, l);
    KeptFits(s, LoadFetched(s, l, e));
  }

  lemma {:induction false} RunFits(p: Core, s0: State, evs: seq<Event>)
    requires Inv(s0) && FlagsFit(s0)
    ensures FlagsFit(ReadyRun(p, s0, evs))
    decreases |evs|
  {
    hide Inv, FlagsFit, Step, Allowed;
    if |evs| > 0 {
      RunFits(p, s0, evs[..|evs| - 1]);
      StepFits(ReadyRun(p, s0, evs[..|evs| - 1]), p.front, evs[|evs| - 1]);
    }
  }
}
