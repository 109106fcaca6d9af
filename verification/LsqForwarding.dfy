/**
 Store-to-load forwarding.  For programs whose instructions store at most once, a load that waits
 is recorded with exactly the store it needs, the producer check of execute_store never fails, and
 no load is done while the store it needs is pending.
 */
module LsqForwarding {
  import opened Common
  import opened LoadStoreQueue
  import opened StoreRanks
  import opened LsqFrames
  import opened LsqFinish

  /** An instruction with at most one store. */
  ghost predicate Plain(x: MemInstr) { NonZero(x.stores, |x.stores|) <= 1 }

  ghost predicate PlainTrace(s: State) {
    forall t: nat :: t < |s.trace| ==> Plain(s.trace[t])
  }

  /** The last instruction before position `t` of the trace that stores to `address`. */
  function LastStore(trace: seq<MemInstr>, t: nat, address: nat): Option<nat>
    requires t <= |trace|
    decreases t
  {
    if t == 0 then None
    else if address in trace[t - 1].stores then Some(t - 1)
    else LastStore(trace, t - 1, address)
  }

  /** The last store before entry `d` to the address of its operand `k`. */
  function LastFor(s: State, d: nat, k: nat): Option<nat> {
    if d < |s.rob| && k < |s.rob[d].instr.loads| && s.rob[d].id <= |s.trace|
    then LastStore(s.trace, s.rob[d].id, s.rob[d].instr.loads[k]) else None
  }

  /** Entry `p` stores to `address`, and has not executed that store. */
  ghost predicate StillToStore(s: State, p: nat, address: nat) {
    && Live(s, p) && address != 0
    && exists i: nat :: i < |s.rob[p].instr.stores| && s.rob[p].instr.stores[i] == address && StorePending(s, p, i)
  }

  /** Entry `p` is the instruction at trace position `w`, and slot `l` waits for it to store. */
  ghost predicate WaitsFor(s: State, l: nat, p: nat, w: nat)
    requires l < |s.lq|
  {
    && Live(s, p) && s.rob[p].id == w && w < s.lq[l].instrId
    && StillToStore(s, p, s.lq[l].address)
    && s.lq[l].robIndex in s.rob[p].dependents && s.rob[p].isProducer
  }

  /** A load waits for the last store to its address in program order, or no such store is in the buffer. */
  ghost predicate RightProducer(s: State, l: nat)
    requires l < |s.lq|
  {
    s.lq[l].instrId <= |s.trace| &&
    var w := LastStore(s.trace, s.lq[l].instrId, s.lq[l].address);
    match s.lq[l].producer
    case None => w.None? || w.value < s.retired
    case Some(v) => w == Some(v)
  }

  ghost predicate Waiting(s: State) {
    && (forall l: nat :: LqLive(s, l) ==> RightProducer(s, l))
    && (forall l: nat :: LqLive(s, l) && s.lq[l].producer.Some? ==> exists p: nat :: WaitsFor(s, l, p, s.lq[l].producer.value))
  }

  /** A recorded consumer is a younger entry that has queued a load for which the producer is the last store. */
  ghost predicate Consumer(s: State, p: nat, d: nat)
    requires Live(s, p)
  {
    && Live(s, d) && s.rob[p].id < s.rob[d].id && s.rob[p].isProducer
    && exists k: nat :: LoadsFrom(s, p, d, k)
  }

  /** Operand `k` of `d` is a queued load, and `p` is the last store to its address. */
  predicate LoadsFrom(s: State, p: nat, d: nat, k: nat)
    requires p < |s.rob| && d < |s.rob|
  {
    && k < NUM_INSTR_SOURCES && k < |s.rob[d].sourceAdded| && k < |s.rob[d].instr.loads|
    && s.rob[d].sourceAdded[k] && s.rob[d].instr.loads[k] != 0 && s.rob[d].instr.loads[k] in s.rob[p].instr.stores
    && LastFor(s, d, k) == Some(s.rob[p].id)
  }

  /** Consumers stay consumers as long as operands stay queued. */
  lemma ConsumerStays(s: State, s': State, p: nat, d: nat)
    requires Live(s, p) && Live(s', p) && Consumer(s, p, d) && Live(s', d) && s'.trace == s.trace
    requires s'.rob[p].id == s.rob[p].id && s'.rob[d].id == s.rob[d].id && s'.rob[p].isProducer
    requires s'.rob[p].instr == s.rob[p].instr && s'.rob[d].instr == s.rob[d].instr
    requires |s'.rob[d].sourceAdded| == |s.rob[d].sourceAdded|
    requires forall k :: 0 <= k < |s.rob[d].sourceAdded| && s.rob[d].sourceAdded[k] ==> s'.rob[d].sourceAdded[k]
    ensures Consumer(s', p, d)
  {
    var k: nat :| LoadsFrom(s, p, d, k);
    assert LoadsFrom(s', p, d, k);
  }

  ghost predicate Consumers(s: State) {
    forall p: nat, d: nat :: Live(s, p) && d in s.rob[p].dependents ==> Consumer(s, p, d)
  }

  /** Operand `j` of `d` is in the load queue, waiting for entry `p`. */
  ghost predicate HeldBy(s: State, p: nat, d: nat, j: nat)
    requires p < |s.rob|
  {
    && Holds(s, d, j) && s.lq[s.rob[d].lqIndex[j].value].producer == Some(s.rob[p].id)
  }

  /** A queued load whose last store is still pending waits for exactly that store. */
  ghost predicate Exact(s: State) {
    forall p: nat, d: nat, j: nat :: QueuedLoad(s, p, d, j) ==> HeldBy(s, p, d, j)
  }

  /** Operand `j` of `d` has been queued as a load, and `p` is the last store to its address and still pending. */
  ghost predicate QueuedLoad(s: State, p: nat, d: nat, j: nat) {
    && Live(s, d) && j < |s.rob[d].instr.loads| && j < |s.rob[d].sourceAdded| && j < NUM_INSTR_SOURCES
    && s.rob[d].sourceAdded[j] && StillToStore(s, p, s.rob[d].instr.loads[j])
    && LastFor(s, d, j) == Some(s.rob[p].id)
  }

  /** Executed stores lie in the past. */
  ghost predicate PastStores(s: State) {
    forall q: nat :: q < |s.sq| && s.sq[q].fetched == Completed ==> s.sq[q].eventCycle <= s.clock
  }

  ghost predicate Forwarding(s: State) {
    PlainTrace(s) && Waiting(s) && Consumers(s) && Exact(s) && PastStores(s)
  }

  // ----- a plain instruction has one store

  lemma {:induction false} TwoNonZero(xs: seq<nat>, i: nat, k: nat, n: nat)
    requires i < k < n <= |xs| && xs[i] != 0 && xs[k] != 0
    ensures NonZero(xs, n) >= 2
  {
    StoresOfAt(0, xs, i, k);
    StoresOfAt(0, xs, k, n);
  }

  lemma OneStore(x: MemInstr, i: nat, k: nat)
    requires Plain(x) && i < |x.stores| && k < |x.stores| && x.stores[i] != 0 && x.stores[k] != 0
    ensures i == k
  {
    if i < k { TwoNonZero(x.stores, i, k, |x.stores|); }
    if k < i { TwoNonZero(x.stores, k, i, |x.stores|); }
  }

  lemma LivePlain(s: State, c: nat)
    requires Shape(s) && PlainTrace(s) && Live(s, c)
    ensures Plain(s.rob[c].instr)
  {
  }

  // ----- the last store of the trace and the youngest store of the buffer

  lemma {:induction false} LastStoreEarlier(trace: seq<MemInstr>, t: nat, address: nat)
    requires t <= |trace|
    ensures LastStore(trace, t, address).Some? ==> LastStore(trace, t, address).value < t
    decreases t
  {
    if t > 0 { LastStoreEarlier(trace, t - 1, address); }
  }

  lemma {:induction false} LastStoreExtend(trace: seq<MemInstr>, x: MemInstr, t: nat, address: nat)
    requires t <= |trace|
    ensures LastStore(trace + [x], t, address) == LastStore(trace, t, address)
    decreases t
  {
    if t > 0 {
      assert (trace + [x])[t - 1] == trace[t - 1];
      LastStoreExtend(trace, x, t - 1, address);
    }
  }

  lemma SlotOfAge(s: State, age: nat) returns (k: nat)
    requires Shape(s) && age < s.occ
    ensures k == Slot(s, age) && Live(s, k) && Age(s, k) == age
    ensures s.rob[k].id == s.retired + age && s.rob[k].instr == s.trace[s.retired + age]
  {
    k := Slot(s, age);
    assert Live(s, k) && Age(s, k) == age;
  }

  /** Searching the buffer finds the last store of the trace, unless that has retired. */
  lemma {:induction false} YoungestIsLast(s: State, age: nat, address: nat)
    requires Shape(s) && age <= s.occ
    ensures var w, p := LastStore(s.trace, s.retired + age, address), YoungestStore(s, age, address);
            if p.Some? then Live(s, p.value) && w == Some(s.rob[p.value].id) && Age(s, p.value) < age
            else w.None? || w.value < s.retired
    decreases age
  {
    if age == 0 {
      LastStoreEarlier(s.trace, s.retired, address);
    } else {
      YoungestIsLast(s, age - 1, address);
      var k := SlotOfAge(s, age - 1);
      hide Shape, Live, Age, Slot;
      assert s.rob[k].instr == s.trace[s.retired + age - 1];
    }
  }

  // ----- steps that touch neither queued loads, nor records, nor pending stores

  ghost predicate SameRecords(s: State, s': State) {
    && SameWindow(s, s') && |s'.lq| == |s.lq|
    && (forall c: nat | c < |s.rob| :: && s'.rob[c].dependents == s.rob[c].dependents
                                       && s'.rob[c].isProducer == s.rob[c].isProducer
                                       && s'.rob[c].sourceAdded == s.rob[c].sourceAdded
                                       && s'.rob[c].lqIndex == s.rob[c].lqIndex)
    && (forall l: nat | l < |s.lq| :: SameLoad(s.lq[l], s'.lq[l]) && s'.lq[l].producer == s.lq[l].producer)
    && (forall c: nat, i: nat | c < |s.rob| :: StorePending(s', c, i) == StorePending(s, c, i))
  }

  lemma SameStillToStore(s: State, s': State, p: nat, address: nat)
    requires SameRecords(s, s')
    ensures StillToStore(s', p, address) == StillToStore(s, p, address)
  {
    if StillToStore(s, p, address) {
      var i: nat :| i < |s.rob[p].instr.stores| && s.rob[p].instr.stores[i] == address && StorePending(s, p, i);
      assert StorePending(s', p, i);
    }
    if StillToStore(s', p, address) {
      var i: nat :| i < |s'.rob[p].instr.stores| && s'.rob[p].instr.stores[i] == address && StorePending(s', p, i);
      assert StorePending(s, p, i);
    }
  }

  lemma KeepsWaiting(s: State, s': State)
    requires Waiting(s) && SameRecords(s, s')
    ensures Waiting(s')
  {
    forall l: nat | LqLive(s', l) ensures RightProducer(s', l) {
      assert SameLoad(s.lq[l], s'.lq[l]) && RightProducer(s, l);
    }
    forall l: nat | LqLive(s', l) && s'.lq[l].producer.Some?
      ensures exists p: nat :: WaitsFor(s', l, p, s'.lq[l].producer.value)
    {
      assert SameLoad(s.lq[l], s'.lq[l]) && LqLive(s, l);
      var p: nat :| WaitsFor(s, l, p, s.lq[l].producer.value);
      SameStillToStore(s, s', p, s.lq[l].address);
      assert WaitsFor(s', l, p, s'.lq[l].producer.value);
    }
  }

  lemma KeepsExact(s: State, s': State)
    requires Exact(s) && Consumers(s) && SameRecords(s, s')
    ensures Exact(s') && Consumers(s')
  {
    forall p: nat, d: nat | Live(s', p) && d in s'.rob[p].dependents ensures Consumer(s', p, d) {
      assert Consumer(s, p, d);
      ConsumerStays(s, s', p, d);
    }
    forall p: nat, d: nat, j: nat | QueuedLoad(s', p, d, j) ensures HeldBy(s', p, d, j)
    {
      SameStillToStore(s, s', p, s.rob[d].instr.loads[j]);
      assert QueuedLoad(s, p, d, j) && HeldBy(s, p, d, j);
      assert SameLoad(s.lq[s.rob[d].lqIndex[j].value], s'.lq[s.rob[d].lqIndex[j].value]);
    }
  }

  lemma KeepsForwarding(s: State, s': State)
    requires Forwarding(s) && SameRecords(s, s') && PastStores(s')
    ensures Forwarding(s')
  {
    KeepsWaiting(s, s');
    KeepsExact(s, s');
  }

  // ----- a load that went to the cache is finished

  lemma FinishStillToStore(s: State, l: nat, ev: nat, p: nat, address: nat)
    requires Shape(s) && Loads(s) && LqLive(s, l)
    ensures OwnedLoad(s, l) && StillToStore(FinishLoad(s, l, ev), p, address) == StillToStore(s, p, address)
  {
    FinishFrame(s, l, ev);
    FinishStoresPending(s, l, ev);
    var s' := FinishLoad(s, l, ev);
    if StillToStore(s, p, address) {
      var i: nat :| i < |s.rob[p].instr.stores| && s.rob[p].instr.stores[i] == address && StorePending(s, p, i);
      assert StorePending(s', p, i);
    }
    if StillToStore(s', p, address) {
      var i: nat :| i < |s'.rob[p].instr.stores| && s'.rob[p].instr.stores[i] == address && StorePending(s', p, i);
      assert StorePending(s, p, i);
    }
  }

  /** The other loads keep waiting as before. */
  lemma FinishKeepsWaitsFor(s: State, l: nat, ev: nat, k: nat, p: nat, w: nat)
    requires Shape(s) && Loads(s) && LqLive(s, l) && LqLive(s, k) && k != l && WaitsFor(s, k, p, w)
    ensures OwnedLoad(s, l) && WaitsFor(FinishLoad(s, l, ev), k, p, w)
  {
    FinishFrame(s, l, ev);
    FinishStillToStore(s, l, ev, p, s.lq[k].address);
  }

  lemma FinishKeepsHeldBy(s: State, l: nat, ev: nat, p: nat, d: nat, j: nat)
    requires Shape(s) && Loads(s) && LqLive(s, l) && Live(s, p) && HeldBy(s, p, d, j)
    requires s.rob[d].lqIndex[j] != Some(l)
    ensures OwnedLoad(s, l) && HeldBy(FinishLoad(s, l, ev), p, d, j)
  {
    FinishFrame(s, l, ev);
  }

  lemma FetchedKeepsForwarding(s: State, l: nat, ev: nat)
    requires Shape(s) && Loads(s) && Forwarding(s) && LqLive(s, l) && s.lq[l].producer.None?
    ensures OwnedLoad(s, l) && Forwarding(FinishLoad(s, l, ev))
  {
    FinishFrame(s, l, ev);
    var s' := FinishLoad(s, l, ev);
    forall k: nat | LqLive(s', k) ensures RightProducer(s', k) { assert RightProducer(s, k); }
    forall k: nat | LqLive(s', k) && s'.lq[k].producer.Some?
      ensures exists p: nat :: WaitsFor(s', k, p, s'.lq[k].producer.value)
    {
      var p: nat :| WaitsFor(s, k, p, s.lq[k].producer.value);
      FinishKeepsWaitsFor(s, l, ev, k, p, s.lq[k].producer.value);
    }
    forall p: nat, d: nat | Live(s', p) && d in s'.rob[p].dependents ensures Consumer(s', p, d) {
      assert Consumer(s, p, d);
      ConsumerStays(s, s', p, d);
    }
    forall p: nat, d: nat, j: nat | QueuedLoad(s', p, d, j) ensures HeldBy(s', p, d, j)
    {
      FinishStillToStore(s, l, ev, p, s.rob[d].instr.loads[j]);
      assert QueuedLoad(s, p, d, j) && HeldBy(s, p, d, j);
      FinishKeepsHeldBy(s, l, ev, p, d, j);
    }
  }

  // ----- the forwarding loops of execute_store

  /** Operand (`d`, `j`) has not been visited by the loops that stand at (`d0`, `j0`). */
  predicate Ahead(d: nat, j: nat, d0: nat, j0: nat) {
    d0 < d || (d == d0 && j0 <= j)
  }

  /** Slot `l` waits for the executing store `q`, and the loops will still come to it. */
  ghost predicate StillAhead(s: State, q: nat, l: nat, d: nat, j: nat)
    requires q < |s.sq| && l < |s.lq|
  {
    && s.lq[l].address == s.sq[q].address && s.sq[q].robIndex < |s.rob|
    && s.lq[l].robIndex in s.rob[s.sq[q].robIndex].dependents
    && Ahead(s.lq[l].robIndex, s.lq[l].dataIndex, d, j)
  }

  /** Between the iterations of the loops: loads for this store may still wait, all others wait as before. */
  ghost predicate Between(s: State, q: nat, d: nat, j: nat)
    requires q < |s.sq|
  {
    && PlainTrace(s) && Consumers(s) && Exact(s) && PastStores(s)
    && s.sq[q].robIndex < |s.rob| && Live(s, s.sq[q].robIndex) && s.rob[s.sq[q].robIndex].id == s.sq[q].instrId
    && (forall address: nat :: !StillToStore(s, s.sq[q].robIndex, address))
    && (forall l: nat :: LqLive(s, l) ==> RightProducer(s, l))
    && (forall l: nat :: LqLive(s, l) && s.lq[l].producer.Some? ==>
                           if s.lq[l].producer.value == s.sq[q].instrId then StillAhead(s, q, l, d, j)
                           else exists p: nat :: WaitsFor(s, l, p, s.lq[l].producer.value))
    && (forall e: nat, k: nat | e in s.rob[s.sq[q].robIndex].dependents && Ahead(e, k, d, j) && e < |s.rob| && k < NUM_INSTR_SOURCES && Matches(s, q, e, k)
          :: HeldBy(s, s.sq[q].robIndex, e, k))
  }

  lemma BetweenEnds(s: State, q: nat)
    requires Shape(s) && Loads(s) && q < |s.sq| && Between(s, q, |s.rob|, 0)
    ensures Forwarding(s)
  {
    forall l: nat | LqLive(s, l) && s.lq[l].producer.Some?
      ensures exists p: nat :: WaitsFor(s, l, p, s.lq[l].producer.value)
    {
      assert OwnedLoad(s, l);
    }
  }

  /** The loops may skip an operand that does not match. */
  lemma BetweenSkips(s: State, q: nat, d: nat, j: nat, d': nat, j': nat)
    requires Shape(s) && Loads(s) && q < |s.sq| && Between(s, q, d, j) && d < |s.rob|
    requires (d' == d + 1 && j' == 0 && (j == NUM_INSTR_SOURCES || d !in s.rob[s.sq[q].robIndex].dependents))
          || (d' == d && j' == j + 1 && j < NUM_INSTR_SOURCES && !Matches(s, q, d, j))
    ensures Between(s, q, d', j')
  {
    hide Exact, Consumers, PlainTrace, PastStores, StillToStore, RightProducer, WaitsFor, HeldBy, StillAhead, Shape;
    forall l: nat | LqLive(s, l) && s.lq[l].producer == Some(s.sq[q].instrId) ensures StillAhead(s, q, l, d', j') {
      SkippedIsBehind(s, q, d, j, d', j', l);
    }
  }

  lemma SkippedIsBehind(s: State, q: nat, d: nat, j: nat, d': nat, j': nat, l: nat)
    requires q < |s.sq| && d < |s.rob| && LqLive(s, l) && OwnedLoad(s, l) && StillAhead(s, q, l, d, j)
    requires (d' == d + 1 && j' == 0 && (j == NUM_INSTR_SOURCES || d !in s.rob[s.sq[q].robIndex].dependents))
          || (d' == d && j' == j + 1 && j < NUM_INSTR_SOURCES && !Matches(s, q, d, j))
    ensures StillAhead(s, q, l, d', j')
  {
  }

  /** Load `k` after load `l`, operand (`d`, `j`), has been forwarded. */
  lemma BetweenProducer(s: State, q: nat, d: nat, j: nat, l: nat, k: nat)
    requires Shape(s) && Loads(s) && q < |s.sq| && Between(s, q, d, j) && LqLive(s, l) && OwnedLoad(s, l)
    requires s.lq[l].robIndex == d && s.lq[l].dataIndex == j
    requires var s' := FinishLoad(s, l, s.clock); LqLive(s', k) && s'.lq[k].producer.Some?
    ensures var s' := FinishLoad(s, l, s.clock);
            if s'.lq[k].producer.value == s'.sq[q].instrId then StillAhead(s', q, k, d, j + 1)
            else exists p: nat :: WaitsFor(s', k, p, s'.lq[k].producer.value)
  {
    hide Wrap, AgeFrom, StillToStore, Exact, Consumers, PlainTrace, PastStores, Shape, RightProducer, HeldBy;
    FinishFrame(s, l, s.clock);
    if s.lq[k].producer.value == s.sq[q].instrId {
      assert StillAhead(s, q, k, d, j) && OwnedLoad(s, k);
    } else {
      var p: nat :| WaitsFor(s, k, p, s.lq[k].producer.value);
      FinishKeepsWaitsFor(s, l, s.clock, k, p, s.lq[k].producer.value);
    }
  }

  lemma BetweenFinishes(s: State, q: nat, d: nat, j: nat)
    requires Shape(s) && Loads(s) && q < |s.sq| && Between(s, q, d, j) && d < |s.rob| && j < NUM_INSTR_SOURCES
    requires d in s.rob[s.sq[q].robIndex].dependents && Matches(s, q, d, j)
    ensures var l := s.rob[d].lqIndex[j].value;
            && s.lq[l].producer == Some(s.sq[q].instrId) && LqLive(s, l) && OwnedLoad(s, l)
            && Between(FinishLoad(s, l, s.clock), q, d, j + 1)
  {
    hide StillToStore, WaitsFor, Exact, Consumers, Shape, Wrap, AgeFrom;
    assert HeldBy(s, s.sq[q].robIndex, d, j);
    var l := s.rob[d].lqIndex[j].value;
    FinishFrame(s, l, s.clock);
    var s' := FinishLoad(s, l, s.clock);
    var c := s.sq[q].robIndex;
    forall k: nat | LqLive(s', k) ensures RightProducer(s', k) { assert RightProducer(s, k); }
    forall k: nat | LqLive(s', k) && s'.lq[k].producer.Some?
      ensures if s'.lq[k].producer.value == s'.sq[q].instrId then StillAhead(s', q, k, d, j + 1)
              else exists p: nat :: WaitsFor(s', k, p, s'.lq[k].producer.value)
    {
      BetweenProducer(s, q, d, j, l, k);
    }
    BetweenKeepsExact(s, c, l);
    forall address: nat ensures !StillToStore(s', c, address) { FinishStillToStore(s, l, s.clock, c, address); }
    forall e: nat, k: nat | e in s'.rob[c].dependents && Ahead(e, k, d, j + 1) && e < |s'.rob| && k < NUM_INSTR_SOURCES && Matches(s', q, e, k)
      ensures HeldBy(s', c, e, k)
    {
      assert Matches(s, q, e, k) && HeldBy(s, c, e, k);
      FinishKeepsHeldBy(s, l, s.clock, c, e, k);
    }
  }

  /** Finishing a load of the store that just executed leaves the other producers' loads alone. */
  lemma OtherHeldBy(s: State, c: nat, l: nat, p: nat, e: nat, k: nat)
    requires Shape(s) && Loads(s) && Exact(s) && Live(s, c) && Live(s, p)
    requires LqLive(s, l) && s.lq[l].producer == Some(s.rob[c].id)
    requires forall address: nat :: !StillToStore(s, c, address)
    requires OwnedLoad(s, l) && QueuedLoad(FinishLoad(s, l, s.clock), p, e, k)
    ensures HeldBy(FinishLoad(s, l, s.clock), p, e, k)
  {
    hide Wrap, AgeFrom;
    FinishFrame(s, l, s.clock);
    FinishStillToStore(s, l, s.clock, p, s.rob[e].instr.loads[k]);
    assert QueuedLoad(s, p, e, k) && HeldBy(s, p, e, k);
    if s.rob[p].id == s.rob[c].id { SameId(s, p, c); }
    FinishKeepsHeldBy(s, l, s.clock, p, e, k);
  }

  lemma BetweenKeepsExact(s: State, c: nat, l: nat)
    requires Shape(s) && Loads(s) && Exact(s) && Consumers(s) && Live(s, c)
    requires LqLive(s, l) && s.lq[l].producer == Some(s.rob[c].id)
    requires forall address: nat :: !StillToStore(s, c, address)
    ensures OwnedLoad(s, l) && Consumers(FinishLoad(s, l, s.clock)) && Exact(FinishLoad(s, l, s.clock))
  {
    FinishFrame(s, l, s.clock);
    var s' := FinishLoad(s, l, s.clock);
    forall p: nat, e: nat | Live(s', p) && e in s'.rob[p].dependents ensures Consumer(s', p, e) {
      assert Consumer(s, p, e);
      ConsumerStays(s, s', p, e);
    }
    forall p: nat, e: nat, k: nat | QueuedLoad(s', p, e, k) ensures HeldBy(s', p, e, k)
    {
      OtherHeldBy(s, c, l, p, e, k);
    }
  }
}
