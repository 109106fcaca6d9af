/** Every step keeps the forwarding invariants, and the producer check of execute_store never fails. */
module LsqForwardingSteps {
  import opened Common
  import opened LoadStoreQueue
  import opened LsqFrames
  import opened LsqFinish
  import opened LsqLoads
  import opened LsqStores
  import opened LsqForwarding

  // ----- execute_store

  /** One iteration of the forwarding loops at a match. */
  lemma MatchFinishes(s: State, q: nat, d: nat, j: nat)
    requires Inv(s) && q < |s.sq| && Between(s, q, d, j) && d < |s.rob| && j < NUM_INSTR_SOURCES
    requires d in s.rob[s.sq[q].robIndex].dependents && Matches(s, q, d, j)
    ensures var l := s.rob[d].lqIndex[j].value;
            && s.lq[l].producer == Some(s.sq[q].instrId) && s.lq[l].robIndex < |s.rob|
            && Inv(FinishLoad(s, l, s.clock)) && Between(FinishLoad(s, l, s.clock), q, d, j + 1)
  {
    hide Inv, Between;
    InvParts(s);
    BetweenFinishes(s, q, d, j);
    FinishKeepsInv(s, s.rob[d].lqIndex[j].value, s.clock);
  }

  lemma SkipKeepsBetween(s: State, q: nat, d: nat, j: nat)
    requires Inv(s) && q < |s.sq| && Between(s, q, d, j) && d < |s.rob|
    ensures s.sq[q].robIndex < |s.rob|
    ensures j == NUM_INSTR_SOURCES || d !in s.rob[s.sq[q].robIndex].dependents ==> Between(s, q, d + 1, 0)
    ensures j < NUM_INSTR_SOURCES && !Matches(s, q, d, j) ==> Between(s, q, d, j + 1)
  {
    hide Inv, Between, Shape, Loads, Matches;
    BetweenOwner(s, q, d, j);
    InvParts(s);
    if j == NUM_INSTR_SOURCES || d !in s.rob[s.sq[q].robIndex].dependents { BetweenSkips(s, q, d, j, d + 1, 0); }
    if j < NUM_INSTR_SOURCES && !Matches(s, q, d, j) { BetweenSkips(s, q, d, j, d, j + 1); }
  }

  /** The forwarding loops run to the end and leave no load waiting for the executed store. */
  lemma {:induction false} ForwardSucceeds(s: State, q: nat, d: nat, j: nat)
    requires Inv(s) && q < |s.sq| && Between(s, q, d, j) && d <= |s.rob| && j <= NUM_INSTR_SOURCES
    requires d == |s.rob| ==> j == 0
    ensures s.sq[q].robIndex < |s.rob| && Forward(s, q, d, j).Some?
    ensures Forwarding(Forward(s, q, d, j).value)
    decreases |s.rob| - d, NUM_INSTR_SOURCES - j
  {
    hide Inv, Between, Forwarding, Matches;
    BetweenOwner(s, q, d, j);
    if d == |s.rob| {
      InvParts(s);
      BetweenEnds(s, q);
    } else {
      SkipKeepsBetween(s, q, d, j);
      if j == NUM_INSTR_SOURCES || d !in s.rob[s.sq[q].robIndex].dependents {
        ForwardSucceeds(s, q, d + 1, 0);
      } else if Matches(s, q, d, j) {
        MatchBounds(s, q, d, j);
        MatchFinishes(s, q, d, j);
        ForwardSucceeds(FinishLoad(s, s.rob[d].lqIndex[j].value, s.clock), q, d, j + 1);
      } else {
        ForwardSucceeds(s, q, d, j + 1);
      }
    }
  }

  lemma MatchBounds(s: State, q: nat, d: nat, j: nat)
    requires q < |s.sq| && d < |s.rob| && Matches(s, q, d, j)
    ensures j < |s.rob[d].lqIndex| && s.rob[d].lqIndex[j].Some? && s.rob[d].lqIndex[j].value < |s.lq|
  {
  }

  lemma BetweenOwner(s: State, q: nat, d: nat, j: nat)
    requires q < |s.sq| && Between(s, q, d, j)
    ensures s.sq[q].robIndex < |s.rob|
  {
  }

  lemma InvParts(s: State)
    requires Inv(s)
    ensures Shape(s) && Loads(s)
  {
  }

  /** Executing the one store of an entry leaves it nothing to store, and the others what they had. */
  lemma StoreDoneStill(s: State, q: nat, p: nat, address: nat)
    requires Shape(s) && StoreOrder(s) && Placement(s) && PlainTrace(s) && SqLive(s, q) && s.sq[q].fetched != Completed
    ensures s.sq[q].robIndex < |s.rob|
    ensures StillToStore(StoreDone(s, q), p, address) == (StillToStore(s, p, address) && p != s.sq[q].robIndex)
    ensures StillToStore(s, s.sq[q].robIndex, address) <==> address == s.sq[q].address
  {
    StoreOwner(s, q);
    StoreDoneFrame(s, q);
    var s' := StoreDone(s, q);
    var c, i := s.sq[q].robIndex, s.sq[q].dataIndex;
    LivePlain(s, c);
    assert StorePending(s, c, i);
    if StillToStore(s, c, address) {
      var k: nat :| k < |s.rob[c].instr.stores| && s.rob[c].instr.stores[k] == address && StorePending(s, c, k);
      OneStore(s.rob[c].instr, i, k);
    }
    if StillToStore(s, p, address) && p != c {
      var k: nat :| k < |s.rob[p].instr.stores| && s.rob[p].instr.stores[k] == address && StorePending(s, p, k);
      StoreDonePending(s, q, p, k);
      assert StorePending(s', p, k) && s'.rob[p].instr == s.rob[p].instr;
    }
    if StillToStore(s', p, address) {
      var k: nat :| k < |s'.rob[p].instr.stores| && s'.rob[p].instr.stores[k] == address && StorePending(s', p, k);
      StoreDonePending(s, q, p, k);
      if p == c { OneStore(s.rob[c].instr, i, k); }
      assert StorePending(s, p, k);
    }
  }

  lemma StoreDoneWaits(s: State, q: nat, l: nat)
    requires Shape(s) && StoreOrder(s) && Placement(s) && Loads(s) && Forwarding(s) && SqLive(s, q) && s.sq[q].fetched != Completed
    requires LqLive(s, l) && s.lq[l].producer.Some?
    ensures s.sq[q].robIndex < |s.rob|
    ensures var s' := StoreDone(s, q);
            if s.lq[l].producer.value == s.sq[q].instrId then StillAhead(s', q, l, 0, 0)
            else exists p: nat :: WaitsFor(s', l, p, s.lq[l].producer.value)
  {
    hide Wrap, AgeFrom;
    StoreOwner(s, q);
    StoreDoneFrame(s, q);
    var s', c := StoreDone(s, q), s.sq[q].robIndex;
    var p: nat :| WaitsFor(s, l, p, s.lq[l].producer.value);
    StoreDoneStill(s, q, p, s.lq[l].address);
    StoreDoneStill(s, q, c, s.lq[l].address);
    if s.lq[l].producer.value == s.sq[q].instrId {
      SameId(s, p, c);
    } else {
      assert WaitsFor(s', l, p, s.lq[l].producer.value);
    }
  }

  lemma StoreDoneExact(s: State, q: nat)
    requires Shape(s) && StoreOrder(s) && Placement(s) && Loads(s) && Forwarding(s) && SqLive(s, q) && s.sq[q].fetched != Completed
    ensures s.sq[q].robIndex < |s.rob|
    ensures Consumers(StoreDone(s, q)) && Exact(StoreDone(s, q)) && PastStores(StoreDone(s, q))
  {
    StoreOwner(s, q);
    StoreDoneFrame(s, q);
    var s' := StoreDone(s, q);
    forall p: nat, d: nat | Live(s', p) && d in s'.rob[p].dependents ensures Consumer(s', p, d) {
      assert Consumer(s, p, d);
      ConsumerStays(s, s', p, d);
    }
    forall p: nat, d: nat, j: nat | QueuedLoad(s', p, d, j) ensures HeldBy(s', p, d, j)
    {
      StoreDoneStill(s, q, p, s.rob[d].instr.loads[j]);
      assert QueuedLoad(s, p, d, j) && HeldBy(s, p, d, j);
    }
  }

  /** A match of the forwarding loops is a load for which the executing instruction is the last store. */
  lemma MatchIsQueued(s: State, q: nat, e: nat, k: nat)
    requires Shape(s) && StoreOrder(s) && Placement(s) && PlainTrace(s) && Consumers(s)
    requires SqLive(s, q) && s.sq[q].fetched != Completed && s.sq[q].robIndex < |s.rob|
    requires e in s.rob[s.sq[q].robIndex].dependents && e < |s.rob| && k < NUM_INSTR_SOURCES && Matches(s, q, e, k)
    ensures QueuedLoad(s, s.sq[q].robIndex, e, k)
  {
    var c := s.sq[q].robIndex;
    StoreOwner(s, q);
    StoreDoneStill(s, q, c, s.sq[q].address);
    LivePlain(s, c);
    assert Consumer(s, c, e);
    var j: nat :| LoadsFrom(s, c, e, j);
    var a :| 0 <= a < |s.rob[c].instr.stores| && s.rob[c].instr.stores[a] == s.rob[e].instr.loads[j];
    OneStore(s.rob[c].instr, a, s.sq[q].dataIndex);
  }

  lemma StoreDoneBetween(s: State, q: nat, s': State)
    requires Shape(s) && StoreOrder(s) && Placement(s) && Loads(s) && Forwarding(s) && SqLive(s, q) && s.sq[q].fetched != Completed
    requires s.sq[q].robIndex < |s.rob| && s' == StoreDone(s, q).(rts1 := s'.rts1)
    ensures Between(s', q, 0, 0)
  {
    var m, c := StoreDone(s, q), s.sq[q].robIndex;
    StoreOwner(s, q);
    StoreDoneFrame(s, q);
    StoreDoneExact(s, q);
    RingsDoNotMatter(m, s');
    forall address: nat ensures !StillToStore(s', c, address) { StoreDoneStill(s, q, c, address); }
    forall l: nat | LqLive(s', l) ensures RightProducer(s', l) { assert RightProducer(s, l); }
    forall l: nat | LqLive(s', l) && s'.lq[l].producer.Some?
      ensures if s'.lq[l].producer.value == s'.sq[q].instrId then StillAhead(s', q, l, 0, 0)
              else exists p: nat :: WaitsFor(s', l, p, s'.lq[l].producer.value)
    {
      StoreDoneWaits(s, q, l);
      if s.lq[l].producer.value != s.sq[q].instrId {
        var p: nat :| WaitsFor(m, l, p, s.lq[l].producer.value);
        assert WaitsFor(s', l, p, s.lq[l].producer.value);
      }
    }
    forall e: nat, k: nat | e in s'.rob[c].dependents && Ahead(e, k, 0, 0) && e < |s'.rob| && k < NUM_INSTR_SOURCES && Matches(s', q, e, k)
      ensures HeldBy(s', c, e, k)
    {
      StoreDoneStill(s, q, c, s.sq[q].address);
      MatchIsQueued(s, q, e, k);
      assert HeldBy(s, c, e, k);
    }
  }

  /** The forwarding invariants do not look at the rings. */
  lemma RingsDoNotMatter(m: State, s': State)
    requires s' == m.(rts0 := s'.rts0, rts1 := s'.rts1, rtl0 := s'.rtl0, rtl1 := s'.rtl1,
                      tlbLoads := s'.tlbLoads, tlbStores := s'.tlbStores, cacheLoads := s'.cacheLoads)
    ensures SameRecords(m, s')
    ensures forall p: nat, address: nat :: StillToStore(s', p, address) == StillToStore(m, p, address)
    ensures Consumers(m) && Exact(m) ==> Consumers(s') && Exact(s')
    ensures PastStores(m) == PastStores(s')
  {
    assert SameRecords(m, s');
    forall p: nat, address: nat ensures StillToStore(s', p, address) == StillToStore(m, p, address) {
      SameStillToStore(m, s', p, address);
    }
    if Consumers(m) && Exact(m) { KeepsExact(m, s'); }
  }

  /** The check "producer_id does not match to the store instr_id" of execute_store never fails. */
  lemma ExecuteStoreForwards(s: State)
    requires Inv(s) && Forwarding(s) && |s.rts1| > 0
    ensures SqLive(s, s.rts1[0]) && s.sq[s.rts1[0]].robIndex < |s.rob|
    ensures ExecuteStore(s).Some? && Forwarding(ExecuteStore(s).value)
  {
    var q := s.rts1[0];
    assert q in s.rts1 && InRts1(s, q);
    StoreDoneKeepsInv(s);
    var m := StoreDone(s, q).(rts1 := s.rts1[1..]);
    StoreDoneBetween(s, q, m);
    if m.rob[m.sq[q].robIndex].isProducer {
      ForwardSucceeds(m, q, 0, 0);
    } else {
      NoConsumers(m, q);
    }
  }

  /** Without recorded consumers nothing waits for the store. */
  lemma NoConsumers(s: State, q: nat)
    requires Shape(s) && Loads(s) && q < |s.sq| && Between(s, q, 0, 0) && !s.rob[s.sq[q].robIndex].isProducer
    ensures Forwarding(s)
  {
    var c := s.sq[q].robIndex;
    assert forall d: nat :: d in s.rob[c].dependents ==> Consumer(s, c, d);
    assert forall l: nat :: LqLive(s, l) && s.lq[l].producer == Some(s.sq[q].instrId) ==> StillAhead(s, q, l, 0, 0);
  }

  // ----- add_load_queue

  /** Records of the entries after a load has been entered. */
  lemma EnterRecords(s: State, c: nat, j: nat, l: nat, p: nat)
    requires Shape(s) && MayAddLoad(s, c, j) && l < |s.lq| && p < |s.rob|
    ensures var s' := EnterLoad(s, c, j, l);
            var y := YoungestStore(s, Age(s, c), s.rob[c].instr.loads[j]);
            && |s'.rob| == |s.rob| && s'.rob[p].instr == s.rob[p].instr && s'.rob[p].id == s.rob[p].id
            && s'.rob[p].isProducer == (s.rob[p].isProducer || y == Some(p))
            && s'.rob[p].dependents == (if y == Some(p) then s.rob[p].dependents + {c} else s.rob[p].dependents)
            && s'.lq[l].producer == (if y.Some? then Some(s.rob[y.value].id) else None)
  {
    YoungestStoreFound(s, Age(s, c), s.rob[c].instr.loads[j]);
  }

  lemma EnterStill(s: State, c: nat, j: nat, l: nat, p: nat, address: nat)
    requires Shape(s) && Loads(s) && MayAddLoad(s, c, j) && l < |s.lq| && !LqLive(s, l)
    ensures StillToStore(EnterLoad(s, c, j, l), p, address) == StillToStore(s, p, address)
  {
    EnterIs(s, c, j, l);
    var s' := EnterLoad(s, c, j, l);
    EnterFrame(s, s', c, j, l);
    EnterSamePending(s, s', c, j, l);
    if StillToStore(s, p, address) {
      var i: nat :| i < |s.rob[p].instr.stores| && s.rob[p].instr.stores[i] == address && StorePending(s, p, i);
      assert StorePending(s', p, i);
    }
    if StillToStore(s', p, address) {
      var i: nat :| i < |s'.rob[p].instr.stores| && s'.rob[p].instr.stores[i] == address && StorePending(s', p, i);
      assert StorePending(s, p, i);
    }
  }

  /** If the recorded producer has executed its stores to the address, the load is forwarded at once. */
  lemma ExecutedForwards(s: State, c: nat, j: nat, l: nat)
    requires Inv(s) && PastStores(s) && MayAddLoad(s, c, j) && l < |s.lq| && !LqLive(s, l)
    ensures var s' := EnterLoad(s, c, j, l);
            var y := YoungestStore(s, Age(s, c), s.rob[c].instr.loads[j]);
            y.Some? && !StillToStore(s', y.value, s.rob[c].instr.loads[j]) ==> CanForward(s', l)
  {
    hide Loads, Counts, LoadQueues, StoreQueues, Finishes, StoreOrder, Placement, PastStores, Wrap, AgeFrom;
    var s' := EnterLoad(s, c, j, l);
    var address := s.rob[c].instr.loads[j];
    var y := YoungestStore(s, Age(s, c), address);
    YoungestStoreFound(s, Age(s, c), address);
    EnterIs(s, c, j, l);
    if y.Some? && !StillToStore(s', y.value, address) {
      var p := y.value;
      EnterStill(s, c, j, l, p, address);
      EnterRecords(s, c, j, l, p);
      ForwarderIsDone(s, p, address);
    }
  }

  /** If an entry has executed all its stores to an address, the first one in the queue can forward. */
  lemma ForwarderIsDone(s: State, p: nat, address: nat)
    requires Shape(s) && StoreOrder(s) && Placement(s) && PastStores(s) && Live(s, p) && address != 0
    requires address in s.rob[p].instr.stores && !StillToStore(s, p, address)
    ensures var f := ForwarderFrom(s.sq, 0, address, Some(s.rob[p].id));
            f < |s.sq| && s.sq[f].fetched == Completed && s.sq[f].eventCycle <= s.clock
  {
    hide StoreOrder;
    var i: nat :| i < |s.rob[p].instr.stores| && s.rob[p].instr.stores[i] == address;
    assert EntryShape(s.rob[p]);
    assert !StorePending(s, p, i) && StorePlaced(s, p, i);
    ForwarderFound(s.sq, 0, address, Some(s.rob[p].id));
    QueuedStoreIsDone(s, p, ForwarderFrom(s.sq, 0, address, Some(s.rob[p].id)));
  }

  /** A store in the queue is done if its entry has nothing left to store to its address. */
  lemma QueuedStoreIsDone(s: State, p: nat, f: nat)
    requires Shape(s) && StoreOrder(s) && Placement(s) && Live(s, p) && f < |s.sq| && s.sq[f].address != 0
    requires s.sq[f].instrId == s.rob[p].id && !StillToStore(s, p, s.sq[f].address)
    ensures s.sq[f].fetched == Completed
  {
    assert SqLive(s, f);
    StoreOwner(s, f);
    SameId(s, s.sq[f].robIndex, p);
    assert !StorePending(s, p, s.sq[f].dataIndex);
  }

  lemma EnterWaits(s: State, c: nat, j: nat, l: nat, k: nat)
    requires Inv(s) && Waiting(s) && PastStores(s) && MayAddLoad(s, c, j) && l < |s.lq| && !LqLive(s, l)
    requires var s' := EnterLoad(s, c, j, l); LqLive(s', k) && s'.lq[k].producer.Some? && (k == l ==> !CanForward(s', l))
    ensures var s' := EnterLoad(s, c, j, l); exists p: nat :: WaitsFor(s', k, p, s'.lq[k].producer.value)
  {
    var s' := EnterLoad(s, c, j, l);
    EnterIs(s, c, j, l);
    EnterFrame(s, s', c, j, l);
    if k == l {
      var y := YoungestStore(s, Age(s, c), s.rob[c].instr.loads[j]);
      YoungestStoreFound(s, Age(s, c), s.rob[c].instr.loads[j]);
      ExecutedForwards(s, c, j, l);
      EnterRecords(s, c, j, l, c);
      EnterRecords(s, c, j, l, y.value);
      assert WaitsFor(s', l, y.value, s'.lq[l].producer.value);
    } else {
      var p: nat :| WaitsFor(s, k, p, s.lq[k].producer.value);
      EnterStill(s, c, j, l, p, s.lq[k].address);
      EnterRecords(s, c, j, l, p);
      assert WaitsFor(s', k, p, s'.lq[k].producer.value);
    }
  }

  lemma EnterProducer(s: State, c: nat, j: nat, l: nat, k: nat)
    requires Shape(s) && Waiting(s) && MayAddLoad(s, c, j) && l < |s.lq| && !LqLive(s, l)
    requires LqLive(EnterLoad(s, c, j, l), k)
    ensures RightProducer(EnterLoad(s, c, j, l), k)
  {
    EnterIs(s, c, j, l);
    if k == l {
      EnterRecords(s, c, j, l, c);
      YoungestIsLast(s, Age(s, c), s.rob[c].instr.loads[j]);
    } else {
      assert RightProducer(s, k);
    }
  }

  lemma EnterConsumer(s: State, c: nat, j: nat, l: nat, p: nat, d: nat)
    requires Shape(s) && Loads(s) && Consumers(s) && MayAddLoad(s, c, j) && l < |s.lq| && !LqLive(s, l)
    requires Live(EnterLoad(s, c, j, l), p) && d in EnterLoad(s, c, j, l).rob[p].dependents
    ensures Consumer(EnterLoad(s, c, j, l), p, d)
  {
    hide Wrap, AgeFrom;
    var s' := EnterLoad(s, c, j, l);
    EnterIs(s, c, j, l);
    EnterRecords(s, c, j, l, p);
    if d in s.rob[p].dependents {
      assert Consumer(s, p, d);
      assert EnteredEntry(s.rob[d], s'.rob[d], d == c, j, l);
      ConsumerStays(s, s', p, d);
    } else {
      EnterNewConsumer(s, c, j, l, p);
    }
  }

  /** The entry of the load becomes a consumer of the youngest older store. */
  lemma EnterNewConsumer(s: State, c: nat, j: nat, l: nat, p: nat)
    requires Shape(s) && MayAddLoad(s, c, j) && l < |s.lq|
    requires YoungestStore(s, Age(s, c), s.rob[c].instr.loads[j]) == Some(p)
    ensures Live(EnterLoad(s, c, j, l), p) && Consumer(EnterLoad(s, c, j, l), p, c)
  {
    hide YoungestStore, EnterLoad, LastStore, Wrap, AgeFrom;
    var s' := EnterLoad(s, c, j, l);
    EnterIs(s, c, j, l);
    EnterRecords(s, c, j, l, p);
    YoungestStoreFound(s, Age(s, c), s.rob[c].instr.loads[j]);
    YoungestIsLast(s, Age(s, c), s.rob[c].instr.loads[j]);
    assert EnteredEntry(s.rob[c], s'.rob[c], true, j, l);
    assert LoadsFrom(s', p, c, j);
  }

  /** A queued load is held as Exact demands, whichever operand was just entered. */
  lemma EnterHeldBy(s: State, c: nat, j: nat, l: nat, p: nat, d: nat, k: nat)
    requires Shape(s) && Loads(s) && Exact(s) && MayAddLoad(s, c, j) && l < |s.lq| && !LqLive(s, l)
    requires QueuedLoad(EnterLoad(s, c, j, l), p, d, k)
    ensures HeldBy(EnterLoad(s, c, j, l), p, d, k)
  {
    EnterIs(s, c, j, l);
    if d == c && k == j {
      EnterHeldBySelf(s, c, j, l, p);
    } else {
      EnterHeldByOther(s, c, j, l, p, d, k);
    }
  }

  /** The load just entered waits for the last store to its address, if that is in the buffer. */
  lemma EnterHeldBySelf(s: State, c: nat, j: nat, l: nat, p: nat)
    requires Shape(s) && MayAddLoad(s, c, j) && l < |s.lq| && !LqLive(s, l)
    requires QueuedLoad(EnterLoad(s, c, j, l), p, c, j)
    ensures HeldBy(EnterLoad(s, c, j, l), p, c, j)
  {
    var s' := EnterLoad(s, c, j, l);
    EnterIs(s, c, j, l);
    YoungestIsLast(s, Age(s, c), s.rob[c].instr.loads[j]);
    EnterRecords(s, c, j, l, c);
    EnterRecords(s, c, j, l, p);
    assert EnteredEntry(s.rob[c], s'.rob[c], true, j, l);
  }

  lemma EnterHeldByOther(s: State, c: nat, j: nat, l: nat, p: nat, d: nat, k: nat)
    requires Shape(s) && Loads(s) && Exact(s) && MayAddLoad(s, c, j) && l < |s.lq| && !LqLive(s, l)
    requires !(d == c && k == j) && QueuedLoad(EnterLoad(s, c, j, l), p, d, k)
    ensures HeldBy(EnterLoad(s, c, j, l), p, d, k)
  {
    var s' := EnterLoad(s, c, j, l);
    EnterIs(s, c, j, l);
    EnterRecords(s, c, j, l, p);
    assert EnteredEntry(s.rob[d], s'.rob[d], d == c, j, l);
    EnterStill(s, c, j, l, p, s.rob[d].instr.loads[k]);
    assert QueuedLoad(s, p, d, k) && HeldBy(s, p, d, k);
  }
}
