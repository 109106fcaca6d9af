/** Dispatch at the tail and retirement at the head keep every invariant of the register scheduler. */
module RingSteps {
  import opened Common
  import opened RegisterScheduler

  // ----- dispatch

  ghost predicate MayDispatch(s: State, x: Instr) {
    s.occ < |s.rob| && x.WellFormed()
  }

  lemma DispatchRing(s: State, x: Instr)
    requires Shape(s) && MayDispatch(s, x)
    ensures var s' := Dispatch(s, x);
            && Shape(s') && |s'.rob| == |s.rob| && !Live(s, s.tail) && Live(s', s.tail)
            && Pos(s', s.tail) == |s.trace|
            && s'.rob[s.tail] == Fresh(x, s.clock)
            && (forall i: nat :: Live(s', i) == (Live(s, i) || i == s.tail))
            && (forall i: nat | Live(s, i) :: && s'.rob[i] == s.rob[i] && Pos(s', i) == Pos(s, i)
                                              && Age(s', i) == Age(s, i) && Age(s, i) < Age(s', s.tail))
  {
    var s' := Dispatch(s, x);
    assert Age(s', s.tail) == s.occ;
    forall i: nat | Live(s', i) ensures EntryShape(s'.rob[i]) && s'.rob[i].instr == s'.trace[Pos(s', i)] {
      if i != s.tail { assert Live(s, i) && EntryShape(s.rob[i]); }
    }
  }

  lemma DispatchKeepsInOrder(s: State, x: Instr)
    requires Shape(s) && MayDispatch(s, x) && InOrder(s)
    ensures InOrder(Dispatch(s, x))
  {
    hide Wrap, AgeFrom;
    DispatchRing(s, x);
  }

  lemma DispatchKeepsEdges(s: State, x: Instr)
    requires Shape(s) && MayDispatch(s, x) && Edges(s) && OneProducer(s)
    ensures Edges(Dispatch(s, x)) && OneProducer(Dispatch(s, x))
  {
    var s' := Dispatch(s, x);
    DispatchRing(s, x);
    forall p: nat, c: nat, j: nat | Live(s', p) && Recorded(s', p, c, j)
      ensures p != s.tail && Recorded(s, p, c, j)
    {
      if j < NUM_INSTR_SOURCES { assert Fresh(x, s.clock).bySource[j] == {}; }
    }
    forall p: nat, c: nat, j: nat | Live(s', p) && Recorded(s', p, c, j) && j < NUM_INSTR_SOURCES
      ensures Edge(s', p, c, j)
    {
      assert Edge(s, p, c, j);
    }
    forall p: nat, c: nat | Live(s', p) && c in s'.rob[p].dependents
      ensures exists j: nat :: j < NUM_INSTR_SOURCES && Recorded(s', p, c, j)
    {
      var j: nat :| j < NUM_INSTR_SOURCES && Recorded(s, p, c, j);
      assert Recorded(s', p, c, j);
    }
  }

  lemma {:induction false} DispatchKeepsCount(s: State, x: Instr, c: nat, n: nat)
    requires Shape(s) && MayDispatch(s, x) && n <= NUM_INSTR_SOURCES
    ensures CountWaits(Dispatch(s, x), c, n) == CountWaits(s, c, n)
  {
    hide Wrap, AgeFrom;
    if n > 0 {
      var s', j := Dispatch(s, x), n - 1;
      DispatchKeepsCount(s, x, c, n - 1);
      DispatchRing(s, x);
      assert Fresh(x, s.clock).bySource[j] == {};
      if p: nat :| Live(s, p) && Recorded(s, p, c, j) && s.rob[p].executed != Completed {
        assert Live(s', p) && Recorded(s', p, c, j);
      }
      if p: nat :| Live(s', p) && Recorded(s', p, c, j) && s'.rob[p].executed != Completed {
        assert Live(s, p) && Recorded(s, p, c, j);
      }
    }
  }

  lemma DispatchKeepsCounts(s: State, x: Instr)
    requires Shape(s) && MayDispatch(s, x) && Counts(s)
    ensures Counts(Dispatch(s, x))
  {
    var s' := Dispatch(s, x);
    DispatchRing(s, x);
    forall c: nat | Live(s', c) && Scheduled(s', c)
      ensures s'.rob[c].numRegDependent == CountWaits(s', c, NUM_INSTR_SOURCES)
    {
      DispatchKeepsCount(s, x, c, NUM_INSTR_SOURCES);
      assert Live(s, c) && Scheduled(s, c);
    }
  }

  lemma {:induction false} LastWriterPrefix(trace: seq<Instr>, x: Instr, t: nat, r: nat)
    requires t <= |trace|
    ensures LastWriter(trace + [x], t, r) == LastWriter(trace, t, r)
    ensures LastWriter(trace, t, r).Some? ==> LastWriter(trace, t, r).value < t
    decreases t
  {
    if t > 0 {
      assert (trace + [x])[t - 1] == trace[t - 1];
      LastWriterPrefix(trace, x, t - 1, r);
    }
  }

  lemma DispatchKeepsCovered(s: State, x: Instr, d: nat, j: nat)
    requires Shape(s) && MayDispatch(s, x) && Live(s, d) && j < NUM_INSTR_SOURCES && Covered(s, d, j)
    requires Shape(Dispatch(s, x)) && Live(Dispatch(s, x), d)
    ensures Covered(Dispatch(s, x), d, j)
  {
    var s' := Dispatch(s, x);
    DispatchRing(s, x);
    var r := s.rob[d].instr.sources[j];
    var w := LastWriter(s.trace, Pos(s, d), r);
    LastWriterPrefix(s.trace, x, Pos(s, d), r);
    if r != 0 && w.Some? {
      if Done(s, w.value) {
        if w.value >= s.retired {
          var k: nat :| k < |s.rob| && Live(s, k) && Pos(s, k) == w.value && s.rob[k].executed == Completed;
          assert Live(s', k) && Pos(s', k) == w.value && s'.rob[k].executed == Completed;
        }
      } else {
        var p: nat :| Live(s, p) && Pos(s, p) == w.value && Recorded(s, p, d, j);
        assert Live(s', p) && Pos(s', p) == w.value && Recorded(s', p, d, j);
      }
    }
  }

  lemma DispatchKeepsCoverage(s: State, x: Instr)
    requires Shape(s) && MayDispatch(s, x) && Coverage(s) && Shape(Dispatch(s, x))
    ensures Coverage(Dispatch(s, x))
  {
    var s' := Dispatch(s, x);
    DispatchRing(s, x);
    forall d: nat, j: nat | Live(s', d) && Scheduled(s', d) && j < NUM_INSTR_SOURCES
      ensures Covered(s', d, j)
    {
      assert Live(s, d) && Covered(s, d, j);
      DispatchKeepsCovered(s, x, d, j);
    }
  }

  lemma DispatchKeepsRest(s: State, x: Instr)
    requires Shape(s) && MayDispatch(s, x) && Flags(s) && Queues(s) && Tallies(s)
    ensures var s' := Dispatch(s, x); Flags(s') && Queues(s') && Tallies(s')
  {
    var s' := Dispatch(s, x);
    DispatchRing(s, x);
    assert s.rob[s.tail] == EMPTY_ENTRY;
    forall k: nat ensures ReadyToExecute(s', k) == ReadyToExecute(s, k) {}
    TallyStep(s.rob, s'.rob, s.tail, CountsReg);
    TallyStep(s.rob, s'.rob, s.tail, CountsMem);
    TallyStep(s.rob, s'.rob, s.tail, CountsDone);
  }

  lemma DispatchKeepsHistory(s: State, x: Instr)
    requires Shape(s) && MayDispatch(s, x) && History(s)
    ensures History(Dispatch(s, x))
  {
    var s' := Dispatch(s, x);
    DispatchRing(s, x);
    forall t: nat ensures WasIssued(s', t) == WasIssued(s, t) {
      if k: nat :| k < |s.rob| && Live(s, k) && Pos(s, k) == t && !s.rob[k].instr.IsMemory() && s.rob[k].executed != Idle {
        assert Live(s', k) && Pos(s', k) == t;
      }
      if k: nat :| k < |s.rob| && Live(s', k) && Pos(s', k) == t && !s'.rob[k].instr.IsMemory() && s'.rob[k].executed != Idle {
        assert Live(s, k) && Pos(s, k) == t;
      }
    }
  }

  lemma DispatchKeepsInv(s: State, x: Instr)
    requires Inv(s) && MayDispatch(s, x)
    ensures Inv(Dispatch(s, x))
  {
    DispatchRing(s, x);
    DispatchKeepsInOrder(s, x);
    DispatchKeepsEdges(s, x);
    DispatchKeepsCounts(s, x);
    DispatchKeepsCoverage(s, x);
    DispatchKeepsRest(s, x);
    DispatchKeepsHistory(s, x);
  }

  // ----- retirement

  ghost predicate MayRetire(s: State) {
    s.occ > 0 && s.head < |s.rob| && s.rob[s.head].executed == Completed
  }

  lemma RetireRing(s: State)
    requires Shape(s) && MayRetire(s)
    ensures var s' := RetireHead(s);
            && Shape(s') && |s'.rob| == |s.rob| && Live(s, s.head) && Pos(s, s.head) == s.retired
            && s'.rob[s.head] == EMPTY_ENTRY
            && (forall i: nat :: Live(s', i) == (Live(s, i) && i != s.head))
            && (forall i: nat | Live(s', i) :: && s'.rob[i] == s.rob[i] && Pos(s', i) == Pos(s, i)
                                               && Age(s', i) == Age(s, i) - 1)
  {
    var s' := RetireHead(s);
    forall i: nat | Live(s', i) ensures EntryShape(s'.rob[i]) && s'.rob[i].instr == s'.trace[Pos(s', i)] {
      assert Live(s, i) && EntryShape(s.rob[i]);
    }
  }

  lemma RetireKeepsInOrder(s: State)
    requires Shape(s) && MayRetire(s) && InOrder(s)
    ensures InOrder(RetireHead(s))
  {
    RetireRing(s);
  }

  lemma RetireKeepsEdges(s: State)
    requires Shape(s) && MayRetire(s) && Edges(s) && OneProducer(s)
    ensures Edges(RetireHead(s)) && OneProducer(RetireHead(s))
  {
    var s' := RetireHead(s);
    RetireRing(s);
    forall p: nat, c: nat, j: nat | Live(s', p) && Recorded(s', p, c, j)
      ensures Recorded(s, p, c, j)
    {
    }
    forall p: nat, c: nat, j: nat | Live(s', p) && Recorded(s', p, c, j) && j < NUM_INSTR_SOURCES
      ensures Edge(s', p, c, j)
    {
      assert Edge(s, p, c, j);
    }
    forall p: nat, c: nat | Live(s', p) && c in s'.rob[p].dependents
      ensures exists j: nat :: j < NUM_INSTR_SOURCES && Recorded(s', p, c, j)
    {
      var j: nat :| j < NUM_INSTR_SOURCES && Recorded(s, p, c, j);
      assert Recorded(s', p, c, j);
    }
  }

  lemma {:induction false} RetireKeepsCount(s: State, c: nat, n: nat)
    requires Shape(s) && MayRetire(s)
    ensures CountWaits(RetireHead(s), c, n) == CountWaits(s, c, n)
  {
    hide Wrap, AgeFrom;
    if n > 0 {
      var s', j := RetireHead(s), n - 1;
      RetireKeepsCount(s, c, n - 1);
      RetireRing(s);
      if p: nat :| Live(s, p) && Recorded(s, p, c, j) && s.rob[p].executed != Completed {
        assert Live(s', p) && Recorded(s', p, c, j);
      }
      if p: nat :| Live(s', p) && Recorded(s', p, c, j) && s'.rob[p].executed != Completed {
        assert Live(s, p) && Recorded(s, p, c, j);
      }
    }
  }

  lemma RetireKeepsCounts(s: State)
    requires Shape(s) && MayRetire(s) && Counts(s)
    ensures Counts(RetireHead(s))
  {
    var s' := RetireHead(s);
    RetireRing(s);
    forall c: nat | Live(s', c) && Scheduled(s', c)
      ensures s'.rob[c].numRegDependent == CountWaits(s', c, NUM_INSTR_SOURCES)
    {
      RetireKeepsCount(s, c, NUM_INSTR_SOURCES);
      assert Live(s, c) && Scheduled(s, c);
    }
  }

  lemma RetireKeepsCovered(s: State, d: nat, j: nat)
    requires Shape(s) && MayRetire(s) && Live(s, d) && j < NUM_INSTR_SOURCES && Covered(s, d, j)
    requires Shape(RetireHead(s)) && Live(RetireHead(s), d)
    ensures Covered(RetireHead(s), d, j)
  {
    var s' := RetireHead(s);
    RetireRing(s);
    var r := s.rob[d].instr.sources[j];
    var w := LastWriter(s.trace, Pos(s, d), r);
    if r != 0 && w.Some? && w.value > s.retired {
      if Done(s, w.value) {
        var k: nat :| k < |s.rob| && Live(s, k) && Pos(s, k) == w.value && s.rob[k].executed == Completed;
        assert Live(s', k) && Pos(s', k) == w.value;
      } else {
        var p: nat :| Live(s, p) && Pos(s, p) == w.value && Recorded(s, p, d, j);
        assert Live(s', p) && Pos(s', p) == w.value && Recorded(s', p, d, j);
      }
    }
  }

  lemma RetireKeepsCoverage(s: State)
    requires Shape(s) && MayRetire(s) && Coverage(s) && Shape(RetireHead(s))
    ensures Coverage(RetireHead(s))
  {
    var s' := RetireHead(s);
    RetireRing(s);
    forall d: nat, j: nat | Live(s', d) && Scheduled(s', d) && j < NUM_INSTR_SOURCES
      ensures Covered(s', d, j)
    {
      assert Live(s, d) && Covered(s, d, j);
      RetireKeepsCovered(s, d, j);
    }
  }

  lemma RetireKeepsRest(s: State)
    requires Shape(s) && MayRetire(s) && Flags(s) && Queues(s) && Tallies(s)
    ensures var s' := RetireHead(s); Flags(s') && Queues(s') && Tallies(s')
  {
    var s' := RetireHead(s);
    RetireRing(s);
    forall k: nat ensures ReadyToExecute(s', k) == ReadyToExecute(s, k) {}
    TallyStep(s.rob, s'.rob, s.head, CountsReg);
    TallyStep(s.rob, s'.rob, s.head, CountsMem);
    TallyStep(s.rob, s'.rob, s.head, CountsDone);
  }

  lemma RetireKeepsHistory(s: State)
    requires Shape(s) && MayRetire(s) && History(s)
    ensures History(RetireHead(s))
  {
    var s' := RetireHead(s);
    RetireRing(s);
    assert s.rob[s.head].instr == s.trace[s.retired];
    forall t: nat ensures WasIssued(s', t) == WasIssued(s, t) {
      if k: nat :| k < |s.rob| && Live(s, k) && Pos(s, k) == t && !s.rob[k].instr.IsMemory() && s.rob[k].executed != Idle {
        assert k != s.head ==> Live(s', k) && Pos(s', k) == t;
      }
      if k: nat :| k < |s.rob| && Live(s', k) && Pos(s', k) == t && !s'.rob[k].instr.IsMemory() && s'.rob[k].executed != Idle {
        assert Live(s, k) && Pos(s, k) == t;
      }
      if t == s.retired { assert Live(s, s.head) && Pos(s, s.head) == t; }
    }
  }

  lemma RetireKeepsInv(s: State)
    requires Inv(s) && MayRetire(s)
    ensures Inv(RetireHead(s))
  {
    RetireRing(s);
    RetireKeepsInOrder(s);
    RetireKeepsEdges(s);
    RetireKeepsCounts(s);
    RetireKeepsCoverage(s);
    RetireKeepsRest(s);
    RetireKeepsHistory(s);
  }
}
