/** Execution, the memory side and the clock keep every invariant of the register scheduler. */
module PipelineSteps {
  import opened Common
  import opened RegisterScheduler

  // ----- steps that leave ring and dependencies alone

  /** Entry `b` is entry `a` further on its way: dependencies and the completed flag are the same. */
  ghost predicate Progress(a: Entry, b: Entry) {
    && b == a.(eventCycle := b.eventCycle, scheduled := b.scheduled, executed := b.executed, numMemOps := b.numMemOps)
    && (b.scheduled == Idle <==> a.scheduled == Idle)
    && (b.executed == Completed <==> a.executed == Completed)
    && (a.scheduled == Idle ==> b == a)
  }

  ghost predicate Advances(s: State, s': State) {
    && |s'.rob| == |s.rob| && s'.head == s.head && s'.tail == s.tail && s'.occ == s.occ
    && s'.trace == s.trace && s'.retired == s.retired
    && (forall k: nat :: k < |s.rob| ==> Progress(s.rob[k], s'.rob[k]))
  }

  lemma AdvanceKeepsRing(s: State, s': State)
    requires Shape(s) && Advances(s, s')
    ensures Shape(s')
    ensures forall k: nat :: Live(s', k) == Live(s, k)
    ensures forall p: nat, c: nat, j: nat | p < |s.rob| :: Recorded(s', p, c, j) == Recorded(s, p, c, j)
  {
    forall k: nat | Live(s', k) ensures EntryShape(s'.rob[k]) && s'.rob[k].instr == s'.trace[Pos(s', k)] {
      assert Live(s, k) && EntryShape(s.rob[k]) && Progress(s.rob[k], s'.rob[k]);
    }
    forall k: nat | k < |s.rob| && !Live(s, k) ensures s'.rob[k] == EMPTY_ENTRY {
      assert Progress(s.rob[k], s'.rob[k]);
    }
    forall p: nat, c: nat, j: nat | p < |s.rob| ensures Recorded(s', p, c, j) == Recorded(s, p, c, j) {
      assert Progress(s.rob[p], s'.rob[p]);
    }
  }

  lemma AdvanceKeepsInOrder(s: State, s': State)
    requires Shape(s) && Advances(s, s') && InOrder(s)
    ensures InOrder(s')
  {
    AdvanceKeepsRing(s, s');
    forall k: nat | Live(s, k) ensures Scheduled(s', k) == Scheduled(s, k) && (!Scheduled(s, k) ==> s'.rob[k] == s.rob[k]) {
      assert Progress(s.rob[k], s'.rob[k]);
    }
  }

  lemma AdvanceKeepsEdges(s: State, s': State)
    requires Shape(s) && Advances(s, s') && Edges(s)
    ensures Edges(s')
  {
    AdvanceKeepsRing(s, s');
    forall p: nat, c: nat, j: nat | Live(s', p) && Recorded(s', p, c, j) && j < NUM_INSTR_SOURCES
      ensures Edge(s', p, c, j)
    {
      assert Recorded(s, p, c, j) && Edge(s, p, c, j);
      assert Progress(s.rob[p], s'.rob[p]) && Progress(s.rob[c], s'.rob[c]);
    }
    forall p: nat, c: nat, j: nat | Live(s', p) && Recorded(s', p, c, j)
      ensures c in s'.rob[p].dependents
    {
      assert Recorded(s, p, c, j) && Progress(s.rob[p], s'.rob[p]);
    }
    forall p: nat, c: nat | Live(s', p) && c in s'.rob[p].dependents
      ensures exists j: nat :: j < NUM_INSTR_SOURCES && Recorded(s', p, c, j)
    {
      assert Progress(s.rob[p], s'.rob[p]);
      var j: nat :| j < NUM_INSTR_SOURCES && Recorded(s, p, c, j);
      assert Recorded(s', p, c, j);
    }
    forall p: nat | Live(s', p) && s'.rob[p].dependents != {} ensures s'.rob[p].isProducer {
      assert Progress(s.rob[p], s'.rob[p]);
    }
  }

  lemma {:induction false} AdvanceKeepsCount(s: State, s': State, c: nat, n: nat)
    requires Shape(s) && Advances(s, s')
    ensures CountWaits(s', c, n) == CountWaits(s, c, n)
  {
    if n > 0 {
      AdvanceKeepsCount(s, s', c, n - 1);
      AdvanceKeepsRing(s, s');
      var j := n - 1;
      if p: nat :| Live(s, p) && Recorded(s, p, c, j) && s.rob[p].executed != Completed {
        assert Progress(s.rob[p], s'.rob[p]);
        assert Live(s', p) && Recorded(s', p, c, j) && s'.rob[p].executed != Completed;
      }
      if p: nat :| Live(s', p) && Recorded(s', p, c, j) && s'.rob[p].executed != Completed {
        assert Progress(s.rob[p], s'.rob[p]);
        assert Live(s, p) && Recorded(s, p, c, j) && s.rob[p].executed != Completed;
      }
    }
  }

  lemma AdvanceKeepsCounts(s: State, s': State)
    requires Shape(s) && Advances(s, s') && Counts(s)
    ensures Counts(s')
  {
    AdvanceKeepsRing(s, s');
    forall c: nat | Live(s', c) && Scheduled(s', c)
      ensures s'.rob[c].numRegDependent == CountWaits(s', c, NUM_INSTR_SOURCES)
    {
      assert Live(s, c) && Progress(s.rob[c], s'.rob[c]);
      AdvanceKeepsCount(s, s', c, NUM_INSTR_SOURCES);
      assert s.rob[c].numRegDependent == CountWaits(s, c, NUM_INSTR_SOURCES);
    }
  }

  lemma AdvanceKeepsCovered(s: State, s': State, d: nat, j: nat)
    requires Shape(s) && Advances(s, s') && Live(s, d) && j < NUM_INSTR_SOURCES && Covered(s, d, j)
    requires Shape(s') && Live(s', d)
    ensures Covered(s', d, j)
  {
    AdvanceKeepsRing(s, s');
    assert Progress(s.rob[d], s'.rob[d]);
    var r := s.rob[d].instr.sources[j];
    var w := LastWriter(s.trace, Pos(s, d), r);
    if r != 0 && w.Some? {
      if Done(s, w.value) {
        if w.value >= s.retired {
          var k: nat :| k < |s.rob| && Live(s, k) && Pos(s, k) == w.value && s.rob[k].executed == Completed;
          assert Progress(s.rob[k], s'.rob[k]);
          assert Live(s', k) && Pos(s', k) == w.value && s'.rob[k].executed == Completed;
        }
      } else {
        var p: nat :| Live(s, p) && Pos(s, p) == w.value && Recorded(s, p, d, j);
        assert Live(s', p) && Pos(s', p) == w.value && Recorded(s', p, d, j);
      }
    }
  }

  lemma AdvanceKeepsCoverage(s: State, s': State)
    requires Shape(s) && Advances(s, s') && Coverage(s) && Shape(s')
    ensures Coverage(s')
  {
    AdvanceKeepsRing(s, s');
    forall d: nat, j: nat | Live(s', d) && Scheduled(s', d) && j < NUM_INSTR_SOURCES
      ensures Covered(s', d, j)
    {
      assert Live(s, d) && Progress(s.rob[d], s'.rob[d]);
      assert Covered(s, d, j);
      AdvanceKeepsCovered(s, s', d, j);
    }
  }

  /** The invariants that every such step keeps. */
  lemma AdvanceKeepsMost(s: State, s': State)
    requires Shape(s) && InOrder(s) && Edges(s) && OneProducer(s) && Counts(s) && Coverage(s) && Advances(s, s')
    ensures Shape(s') && InOrder(s') && Edges(s') && OneProducer(s') && Counts(s') && Coverage(s')
    ensures forall k: nat :: Live(s', k) == Live(s, k)
  {
    AdvanceKeepsRing(s, s');
    AdvanceKeepsInOrder(s, s');
    AdvanceKeepsEdges(s, s');
    AdvanceKeepsCounts(s, s');
    AdvanceKeepsCoverage(s, s');
  }

  /** `s'` differs from `s` in entry `i` at most. */
  ghost predicate Touches(s: State, s': State, i: nat) {
    && Live(s, i) && Advances(s, s')
    && (forall k: nat :: k < |s.rob| && k != i ==> s'.rob[k] == s.rob[k])
  }

  lemma TouchKeepsTallies(s: State, s': State, i: nat)
    requires Touches(s, s', i) && Tallies(s)
    requires s'.inflightReg == s.inflightReg - B(CountsReg(s.rob[i])) + B(CountsReg(s'.rob[i]))
    requires s'.inflightMem == s.inflightMem - B(CountsMem(s.rob[i])) + B(CountsMem(s'.rob[i]))
    requires s'.completedExecutions == s.completedExecutions
    ensures Tallies(s')
  {
    assert Progress(s.rob[i], s'.rob[i]);
    TallyStep(s.rob, s'.rob, i, CountsReg);
    TallyStep(s.rob, s'.rob, i, CountsMem);
    TallyStep(s.rob, s'.rob, i, CountsDone);
  }

  /** A step that sends nothing to execution keeps the record of what was sent. */
  lemma TouchKeepsHistory(s: State, s': State, i: nat)
    requires Shape(s) && Touches(s, s', i) && History(s) && s'.issued == s.issued
    requires s.rob[i].instr.IsMemory() || (s'.rob[i].executed == Idle <==> s.rob[i].executed == Idle)
    ensures History(s')
  {
    hide Wrap, AgeFrom;
    AdvanceKeepsRing(s, s');
    assert Progress(s.rob[i], s'.rob[i]);
    forall t: nat ensures WasIssued(s', t) == WasIssued(s, t) {
      if k: nat :| k < |s.rob| && Live(s, k) && Pos(s, k) == t && !s.rob[k].instr.IsMemory() && s.rob[k].executed != Idle {
        assert Live(s', k) && Pos(s', k) == t;
      }
      if k: nat :| k < |s.rob| && Live(s', k) && Pos(s', k) == t && !s'.rob[k].instr.IsMemory() && s'.rob[k].executed != Idle {
        assert Live(s, k) && Pos(s, k) == t;
      }
    }
  }

  // ----- sending a ready instruction to execution

  lemma SamePos(s: State, i: nat, k: nat)
    requires RingShape(s) && Live(s, i) && Live(s, k) && Pos(s, i) == Pos(s, k)
    ensures i == k
  {
  }

  /** Sending slot `i` to execution issues its instruction and no other. */
  lemma IssuedNow(s: State, i: nat, t: nat)
    requires Shape(s) && Live(s, i) && ReadyToExecute(s, i) && Touches(s, DoExecution(s, i), i)
    ensures WasIssued(DoExecution(s, i), t) == (WasIssued(s, t) || t == Pos(s, i))
  {
    hide Wrap, AgeFrom, Shape, EntryShape;
    var s' := DoExecution(s, i);
    AdvanceKeepsRing(s, s');
    if k: nat :| k < |s.rob| && Live(s, k) && Pos(s, k) == t && !s.rob[k].instr.IsMemory() && s.rob[k].executed != Idle {
      assert Live(s', k) && Pos(s', k) == t && s'.rob[k].executed != Idle;
    }
    if k: nat :| k < |s.rob| && Live(s', k) && Pos(s', k) == t && !s'.rob[k].instr.IsMemory() && s'.rob[k].executed != Idle {
      assert Live(s, k) && Pos(s, k) == t;
    }
    assert Live(s', i) && Pos(s', i) == Pos(s, i) && s'.rob[i].executed != Idle;
  }

  lemma IssueHistory(s: State, i: nat)
    requires Shape(s) && History(s) && Live(s, i) && ReadyToExecute(s, i)
    requires Touches(s, DoExecution(s, i), i)
    ensures History(DoExecution(s, i))
  {
    hide Wrap, AgeFrom;
    assert !WasIssued(s, Pos(s, i)) by {
      forall k: nat | Live(s, k) && Pos(s, k) == Pos(s, i) ensures k == i { SamePos(s, i, k); }
    }
    forall t: nat ensures WasIssued(DoExecution(s, i), t) == (WasIssued(s, t) || t == Pos(s, i)) { IssuedNow(s, i, t); }
  }

  /** Sending ready slot `i` to execution, leaving queues `q0` and `q1`. */
  lemma IssueKeepsInv(s: State, i: nat, q0: seq<nat>, q1: seq<nat>)
    requires Inv(s) && ReadyToExecute(s, i)
    requires Distinct(q0 + q1) && forall k :: k in q0 + q1 <==> k in s.rte0 + s.rte1 && k != i
    ensures Live(s, i) && Inv(DoExecution(s, i).(rte0 := q0, rte1 := q1))
  {
    hide Wrap, AgeFrom;
    var m := DoExecution(s, i);
    var s' := m.(rte0 := q0, rte1 := q1);
    assert FlagsOf(s.rob[i]);
    assert !Scheduled(s, i) ==> s.rob[i] == Fresh(s.rob[i].instr, s.rob[i].eventCycle);
    assert Touches(s, m, i) && Touches(s, s', i);
    AdvanceKeepsMost(s, s');
    TouchKeepsTallies(s, s', i);
    IssueHistory(s, i);
    AdvanceKeepsRing(s, m);
    TouchKeepsHistory(m, s', i);
  }

  lemma Issue0KeepsInv(s: State)
    requires Inv(s) && |s.rte0| > 0
    ensures Live(s, s.rte0[0]) && Inv(IssueFrom0(s))
  {
    var i := s.rte0[0];
    var q := s.rte0 + s.rte1;
    assert q[0] == i && i in q && ReadyToExecute(s, i);
    assert s.rte0[1..] + s.rte1 == q[1..];
    assert forall k :: k in q[1..] <==> k in q && k != i;
    IssueKeepsInv(s, i, s.rte0[1..], s.rte1);
  }

  lemma Issue1KeepsInv(s: State)
    requires Inv(s) && |s.rte1| > 0
    ensures Live(s, s.rte1[0]) && Inv(IssueFrom1(s))
  {
    var i, q, n := s.rte1[0], s.rte0 + s.rte1, |s.rte0|;
    assert q[n] == i && i in q && ReadyToExecute(s, i);
    var q' := s.rte0 + s.rte1[1..];
    assert q' == q[..n] + q[n + 1..];
    forall k ensures k in q' <==> k in q && k != i {
      if k in q && k != i {
        var x :| 0 <= x < |q| && q[x] == k;
        assert q'[if x < n then x else x - 1] == k;
      }
    }
    IssueKeepsInv(s, i, s.rte0, s.rte1[1..]);
  }

  // ----- the memory side and the clock

  /** do_memory_scheduling may queue the operations of a ready memory instruction. */
  ghost predicate MaySchedule(s: State, i: nat) {
    Live(s, i) && s.rob[i].instr.IsMemory() && s.rob[i].regReady && s.rob[i].scheduled == Inflight
  }

  /** A memory operation finishes only for a ready instruction that still has one outstanding. */
  ghost predicate MayFinish(s: State, i: nat) {
    Live(s, i) && s.rob[i].instr.IsMemory() && s.rob[i].regReady && s.rob[i].scheduled != Idle && s.rob[i].numMemOps > 0
  }

  lemma MemoryStepKeepsInv(s: State, s': State, i: nat)
    requires Inv(s) && Touches(s, s', i) && s.rob[i].instr.IsMemory() && FlagsOf(s'.rob[i])
    requires s'.rte0 == s.rte0 && s'.rte1 == s.rte1 && s'.issued == s.issued
    requires s'.inflightReg == s.inflightReg && s'.completedExecutions == s.completedExecutions
    requires s'.inflightMem == s.inflightMem - B(CountsMem(s.rob[i])) + B(CountsMem(s'.rob[i]))
    ensures Inv(s')
  {
    assert Progress(s.rob[i], s'.rob[i]);
    AdvanceKeepsMost(s, s');
    TouchKeepsTallies(s, s', i);
    TouchKeepsHistory(s, s', i);
    forall k: nat ensures ReadyToExecute(s', k) == ReadyToExecute(s, k) {}
  }

  lemma MemoryScheduledKeepsInv(s: State, i: nat)
    requires Inv(s) && MaySchedule(s, i)
    ensures Inv(MemoryScheduled(s, i))
  {
    assert FlagsOf(s.rob[i]);
    assert Touches(s, MemoryScheduled(s, i), i);
    MemoryStepKeepsInv(s, MemoryScheduled(s, i), i);
  }

  lemma MemoryOpDoneKeepsInv(s: State, i: nat, eventCycle: nat)
    requires Inv(s) && MayFinish(s, i)
    ensures Inv(MemoryOpDone(s, i, eventCycle))
  {
    assert FlagsOf(s.rob[i]);
    assert Touches(s, MemoryOpDone(s, i, eventCycle), i);
    MemoryStepKeepsInv(s, MemoryOpDone(s, i, eventCycle), i);
  }

  lemma TickKeepsInv(s: State, clock: nat)
    requires Inv(s)
    ensures Inv(s.(clock := clock))
  {
    var s' := s.(clock := clock);
    assert Advances(s, s');
    AdvanceKeepsMost(s, s');
    assert forall k: nat :: ReadyToExecute(s', k) == ReadyToExecute(s, k);
    forall t: nat ensures WasIssued(s', t) == WasIssued(s, t) {
      if k: nat :| k < |s.rob| && Live(s, k) && Pos(s, k) == t && !s.rob[k].instr.IsMemory() && s.rob[k].executed != Idle {
        assert Live(s', k) && Pos(s', k) == t;
      }
      if k: nat :| k < |s.rob| && Live(s', k) && Pos(s', k) == t && !s'.rob[k].instr.IsMemory() && s'.rob[k].executed != Idle {
        assert Live(s, k) && Pos(s, k) == t;
      }
    }
  }
}
