/** complete_execution, with the wake-up of consumers, keeps every invariant of the register scheduler. */
module CompletionStep {
  import opened Common
  import opened RegisterScheduler

  ghost predicate Ready(s: State, p: nat) {
    Live(s, p) && Completable(s, p)
  }

  lemma NoDependents(s: State, p: nat)
    requires Shape(s) && Edges(s) && Live(s, p) && !s.rob[p].isProducer
    ensures s.rob[p].dependents == {}
    ensures var e := s.rob[p].(executed := Completed); var rob := s.rob[p := e];
            EntryShape(s.rob[p]) && ReleaseBelow(rob, e, |rob|) == rob && Woken(rob, e, |rob|) == []
  {
    var e := s.rob[p].(executed := Completed);
    var rob := s.rob[p := e];
    NothingWoken(rob, e, |rob|);
  }

  lemma {:induction false} NothingWoken(rob: seq<Entry>, e: Entry, n: nat)
    requires n <= |rob| && |e.bySource| == NUM_INSTR_SOURCES && e.dependents == {}
    ensures Woken(rob, e, n) == []
  {
    if n > 0 { NothingWoken(rob, e, n - 1); }
  }

  lemma {:induction false} ReleasedBound(s: State, p: nat, c: nat, n: nat)
    requires Shape(s) && Edges(s) && Live(s, p) && n <= NUM_INSTR_SOURCES && EntryShape(s.rob[p])
    ensures c !in s.rob[p].dependents ==> Released(s.rob[p], c, n) == 0
    ensures s.rob[p].executed != Completed ==> Released(s.rob[p], c, n) <= CountWaits(s, c, n)
  {
    if n > 0 {
      ReleasedBound(s, p, c, n - 1);
      if Recorded(s, p, c, n - 1) {
        assert c in s.rob[p].dependents;
        assert s.rob[p].executed != Completed ==> Waits(s, c, n - 1);
      }
    }
  }

  /** What is known of a consumer that slot `p` will release. */
  lemma ReleasedConsumer(s: State, p: nat, i: nat)
    requires Shape(s) && Edges(s) && Counts(s) && Flags(s) && Ready(s, p) && i < |s.rob| && EntryShape(s.rob[p])
    ensures Released(s.rob[p], i, NUM_INSTR_SOURCES) > 0 ==>
              Live(s, i) && Scheduled(s, i) && !s.rob[i].regReady && i != p && i in s.rob[p].dependents
              && Released(s.rob[p], i, NUM_INSTR_SOURCES) <= s.rob[i].numRegDependent
  {
    ReleasedBound(s, p, i, NUM_INSTR_SOURCES);
    if i in s.rob[p].dependents {
      var j: nat :| j < NUM_INSTR_SOURCES && Recorded(s, p, i, j);
      assert Edge(s, p, i, j);
      assert FlagsOf(s.rob[i]);
    }
  }

  /** Entry `i` after slot `p` has completed. */
  lemma CompletedEntry(s: State, p: nat, i: nat)
    requires Shape(s) && Edges(s) && Counts(s) && Flags(s) && Ready(s, p) && i < |s.rob|
    ensures var s' := CompleteExecution(s, p);
            && |s'.rob| == |s.rob|
            && var e, e', k := s.rob[i], s'.rob[i], Released(s.rob[p], i, NUM_INSTR_SOURCES);
            && e'.executed == (if i == p then Completed else e.executed)
            && e'.numRegDependent == e.numRegDependent - k
            && e'.regReady == (e.regReady || (k > 0 && e.numRegDependent == k))
            && e' == e.(executed := e'.executed, numRegDependent := e'.numRegDependent, regReady := e'.regReady)
            && (k > 0 ==> Live(s, i) && Scheduled(s, i) && !e.regReady && i != p && i in s.rob[p].dependents)
  {
    assert EntryShape(s.rob[p]);
    if !s.rob[p].isProducer { NoDependents(s, p); }
    ReleasedBound(s, p, i, NUM_INSTR_SOURCES);
    ReleasedConsumer(s, p, i);
    WaitingFlags(s, i);
    ReleasedSame(s.rob[p], s.rob[p].(executed := Completed), i, NUM_INSTR_SOURCES);
    hide Shape, Edges, Counts, Flags, Released;
  }

  /** The schedule flag of an entry that still waits is the one that its wake-up sets. */
  lemma WaitingFlags(s: State, i: nat)
    requires Flags(s) && i < |s.rob|
    ensures Live(s, i) && Scheduled(s, i) && !s.rob[i].regReady ==>
              s.rob[i].scheduled == if s.rob[i].instr.IsMemory() then Inflight else Completed
  {
    if Live(s, i) { assert FlagsOf(s.rob[i]); }
  }

  lemma {:induction false} ReleasedSame(a: Entry, b: Entry, i: nat, n: nat)
    requires a.bySource == b.bySource && n <= |a.bySource|
    ensures Released(a, i, n) == Released(b, i, n)
  {
    if n > 0 { ReleasedSame(a, b, i, n - 1); }
  }

  lemma SameRing(s: State, p: nat)
    requires Shape(s) && Edges(s) && Counts(s) && Flags(s) && Ready(s, p)
    ensures var s' := CompleteExecution(s, p);
            && |s'.rob| == |s.rob|
            && (forall i: nat :: Live(s', i) == Live(s, i))
            && (forall i: nat | Live(s, i) :: && Age(s', i) == Age(s, i) && Pos(s', i) == Pos(s, i)
                                              && s'.rob[i].instr == s.rob[i].instr
                                              && s'.rob[i].scheduled == s.rob[i].scheduled
                                              && s'.rob[i].checked == s.rob[i].checked
                                              && s'.rob[i].isProducer == s.rob[i].isProducer
                                              && s'.rob[i].dependents == s.rob[i].dependents
                                              && s'.rob[i].bySource == s.rob[i].bySource
                                              && s'.rob[i].executed == (if i == p then Completed else s.rob[i].executed))
            && (forall i: nat, c: nat, j: nat | i < |s.rob| :: Recorded(s', i, c, j) == Recorded(s, i, c, j))
  {
    var s' := CompleteExecution(s, p);
    forall i: nat | i < |s.rob|
      ensures s'.rob[i] == s.rob[i].(executed := s'.rob[i].executed, numRegDependent := s'.rob[i].numRegDependent,
                                     regReady := s'.rob[i].regReady)
      ensures s'.rob[i].executed == (if i == p then Completed else s.rob[i].executed)
    {
      CompletedEntry(s, p, i);
    }
  }

  lemma KeepsShape(s: State, p: nat)
    requires Shape(s) && Edges(s) && Counts(s) && Flags(s) && Ready(s, p)
    ensures Shape(CompleteExecution(s, p))
  {
    var s' := CompleteExecution(s, p);
    SameRing(s, p);
    forall i: nat | i < |s.rob|
      ensures Live(s, i) ==> EntryShape(s'.rob[i])
      ensures !Live(s, i) ==> s'.rob[i] == EMPTY_ENTRY
    {
      CompletedEntry(s, p, i);
      if Live(s, i) { assert EntryShape(s.rob[i]); } else { assert s.rob[i] == EMPTY_ENTRY; }
    }
  }

  lemma KeepsInOrder(s: State, p: nat)
    requires Shape(s) && Edges(s) && Counts(s) && Flags(s) && InOrder(s) && Ready(s, p)
    ensures InOrder(CompleteExecution(s, p))
  {
    var s' := CompleteExecution(s, p);
    SameRing(s, p);
    forall i: nat | Live(s, i) && !Scheduled(s, i)
      ensures s'.rob[i] == Fresh(s'.rob[i].instr, s'.rob[i].eventCycle)
    {
      CompletedEntry(s, p, i);
      assert s.rob[i] == Fresh(s.rob[i].instr, s.rob[i].eventCycle);
    }
  }

  lemma KeepsEdges(s: State, p: nat)
    requires Shape(s) && Edges(s) && Counts(s) && Flags(s) && Ready(s, p)
    ensures Edges(CompleteExecution(s, p))
  {
    var s' := CompleteExecution(s, p);
    SameRing(s, p);
    forall q: nat, d: nat, j: nat | Live(s', q) && Recorded(s', q, d, j) && j < NUM_INSTR_SOURCES
      ensures Edge(s', q, d, j)
    {
      assert Recorded(s, q, d, j);
      assert Edge(s, q, d, j);
    }
    forall q: nat, d: nat, j: nat | Live(s', q) && Recorded(s', q, d, j)
      ensures d in s'.rob[q].dependents
    {
      assert Recorded(s, q, d, j);
    }
    forall q: nat, d: nat | Live(s', q) && d in s'.rob[q].dependents
      ensures exists j: nat :: j < NUM_INSTR_SOURCES && Recorded(s', q, d, j)
    {
      var j: nat :| j < NUM_INSTR_SOURCES && Recorded(s, q, d, j);
      assert Recorded(s', q, d, j);
    }
  }

  lemma KeepsOneProducer(s: State, p: nat)
    requires Shape(s) && Edges(s) && Counts(s) && Flags(s) && OneProducer(s) && Ready(s, p)
    ensures OneProducer(CompleteExecution(s, p))
  {
    SameRing(s, p);
  }

  lemma WaitsAfter(s: State, p: nat, c: nat, j: nat)
    requires Shape(s) && Edges(s) && Counts(s) && Flags(s) && OneProducer(s) && Ready(s, p)
    ensures Waits(CompleteExecution(s, p), c, j) == (Waits(s, c, j) && !Recorded(s, p, c, j))
  {
    var s' := CompleteExecution(s, p);
    SameRing(s, p);
    if q: nat :| Live(s, q) && Recorded(s, q, c, j) && s.rob[q].executed != Completed && !Recorded(s, p, c, j) {
      assert Live(s', q) && Recorded(s', q, c, j) && s'.rob[q].executed != Completed;
    }
    if q: nat :| Live(s', q) && Recorded(s', q, c, j) && s'.rob[q].executed != Completed {
      assert Live(s, q) && Recorded(s, q, c, j) && s.rob[q].executed != Completed;
    }
  }

  lemma {:induction false} CountAfter(s: State, p: nat, c: nat, n: nat)
    requires Shape(s) && Edges(s) && Counts(s) && Flags(s) && OneProducer(s) && Ready(s, p)
    requires n <= NUM_INSTR_SOURCES && EntryShape(s.rob[p])
    ensures CountWaits(CompleteExecution(s, p), c, n) == CountWaits(s, c, n) - Released(s.rob[p], c, n)
  {
    hide CompleteExecution, Shape, Edges, Counts, Flags, OneProducer;
    if n > 0 {
      CountAfter(s, p, c, n - 1);
      WaitsAfter(s, p, c, n - 1);
      assert Recorded(s, p, c, n - 1) ==> Waits(s, c, n - 1);
    }
  }

  lemma KeepsCounts(s: State, p: nat)
    requires Shape(s) && Edges(s) && Counts(s) && Flags(s) && OneProducer(s) && Ready(s, p)
    ensures Counts(CompleteExecution(s, p))
  {
    var s' := CompleteExecution(s, p);
    SameRing(s, p);
    forall c: nat | Live(s', c) && Scheduled(s', c)
      ensures s'.rob[c].numRegDependent == CountWaits(s', c, NUM_INSTR_SOURCES)
    {
      CompletedEntry(s, p, c);
      CountAfter(s, p, c, NUM_INSTR_SOURCES);
    }
  }

  lemma KeepsFlags(s: State, p: nat)
    requires Shape(s) && Edges(s) && Counts(s) && Flags(s) && InOrder(s) && Ready(s, p)
    ensures Flags(CompleteExecution(s, p))
  {
    var s' := CompleteExecution(s, p);
    SameRing(s, p);
    forall c: nat | Live(s', c)
      ensures FlagsOf(s'.rob[c])
    {
      CompletedEntry(s, p, c);
      assert FlagsOf(s.rob[c]);
    }
  }

  /** The wake-up list is increasing and holds exactly the slots it should wake. */
  lemma {:induction false} WokenExactly(rob: seq<Entry>, e: Entry, n: nat)
    requires n <= |rob| && |e.bySource| == NUM_INSTR_SOURCES
    ensures Distinct(Woken(rob, e, n))
    ensures forall i: nat :: i in Woken(rob, e, n) <==> i < n && Wakes(rob, e, i)
  {
    if n > 0 { WokenExactly(rob, e, n - 1); }
  }

  lemma KeepsQueues(s: State, p: nat)
    requires Shape(s) && Edges(s) && Counts(s) && Flags(s) && Queues(s) && Ready(s, p)
    ensures Queues(CompleteExecution(s, p))
  {
    var s' := CompleteExecution(s, p);
    var e := s.rob[p].(executed := Completed);
    var rob := s.rob[p := e];
    var woken := Woken(rob, e, |rob|);
    SameRing(s, p);
    assert EntryShape(s.rob[p]);
    WokenExactly(rob, e, |rob|);
    if !s.rob[p].isProducer { NoDependents(s, p); }
    assert s'.rte0 == s.rte0 + woken && s'.rte1 == s.rte1;
    forall i: nat
      ensures ReadyToExecute(s', i) == (ReadyToExecute(s, i) || i in woken)
      ensures i in woken ==> !ReadyToExecute(s, i)
    {
      if i < |s.rob| {
        CompletedEntry(s, p, i);
        ReleasedSame(s.rob[p], e, i, NUM_INSTR_SOURCES);
        if Live(s, i) { assert FlagsOf(s.rob[i]); }
      }
    }
    InsertMiddle(s.rte0, woken, s.rte1);
  }

  /** Appending to the first of two queues keeps the queues duplicate-free. */
  lemma InsertMiddle(a: seq<nat>, b: seq<nat>, c: seq<nat>)
    requires Distinct(a + c) && Distinct(b)
    requires forall x :: x in b ==> x !in a + c
    ensures Distinct(a + b + c)
    ensures forall x :: x in a + b + c <==> x in a + c || x in b
  {
    forall i, j | 0 <= i < j < |a + b + c|
      ensures (a + b + c)[i] != (a + b + c)[j]
    {
      var x, y := (a + b + c)[i], (a + b + c)[j];
      if |a| <= i < |a| + |b| {
        assert x == b[i - |a|];
        if |a| <= j < |a| + |b| { assert y == b[j - |a|]; }
        else { assert y == (a + c)[j - |b|]; assert x in b && y in a + c; }
      } else {
        assert x == (a + c)[if i < |a| then i else i - |b|];
        if |a| <= j < |a| + |b| { assert y == b[j - |a|]; assert y in b && x in a + c; }
        else { assert y == (a + c)[if j < |a| then j else j - |b|]; }
      }
    }
  }

  lemma KeepsCoverage(s: State, p: nat)
    requires Shape(s) && Edges(s) && Counts(s) && Flags(s) && Coverage(s) && Ready(s, p)
    requires Shape(CompleteExecution(s, p))
    ensures Coverage(CompleteExecution(s, p))
  {
    var s' := CompleteExecution(s, p);
    SameRing(s, p);
    forall t: nat | Done(s, t) ensures Done(s', t) {
      if t >= s.retired {
        var i: nat :| i < |s.rob| && Live(s, i) && Pos(s, i) == t && s.rob[i].executed == Completed;
        assert Live(s', i) && Pos(s', i) == t && s'.rob[i].executed == Completed;
      }
    }
    forall d: nat, j: nat | Live(s', d) && Scheduled(s', d) && j < NUM_INSTR_SOURCES
      ensures Covered(s', d, j)
    {
      assert Covered(s, d, j);
      if q: nat :| Live(s, q) && Recorded(s, q, d, j)
                 && LastWriter(s.trace, Pos(s, d), s.rob[d].instr.sources[j]) == Some(Pos(s, q)) {
        assert Live(s', q) && Recorded(s', q, d, j);
      }
    }
  }

  lemma KeepsTallies(s: State, p: nat)
    requires Shape(s) && Edges(s) && Counts(s) && Flags(s) && Tallies(s) && Ready(s, p)
    ensures Tallies(CompleteExecution(s, p))
  {
    var s' := CompleteExecution(s, p);
    forall i: nat | i < |s.rob| && i != p
      ensures CountsReg(s'.rob[i]) == CountsReg(s.rob[i])
      ensures CountsMem(s'.rob[i]) == CountsMem(s.rob[i])
      ensures CountsDone(s'.rob[i]) == CountsDone(s.rob[i])
    {
      CompletedEntry(s, p, i);
    }
    CompletedEntry(s, p, p);
    TallyStep(s.rob, s'.rob, p, CountsReg);
    TallyStep(s.rob, s'.rob, p, CountsMem);
    TallyStep(s.rob, s'.rob, p, CountsDone);
  }

  lemma KeepsHistory(s: State, p: nat)
    requires Shape(s) && Edges(s) && Counts(s) && Flags(s) && History(s) && Ready(s, p)
    ensures History(CompleteExecution(s, p))
  {
    var s' := CompleteExecution(s, p);
    SameRing(s, p);
    forall t: nat ensures WasIssued(s', t) == WasIssued(s, t) {
      if i: nat :| i < |s.rob| && Live(s, i) && Pos(s, i) == t && !s.rob[i].instr.IsMemory() && s.rob[i].executed != Idle {
        assert Live(s', i) && Pos(s', i) == t;
      }
      if i: nat :| i < |s.rob| && Live(s', i) && Pos(s', i) == t && !s'.rob[i].instr.IsMemory() && s'.rob[i].executed != Idle {
        assert Live(s, i) && Pos(s, i) == t;
      }
    }
  }

  lemma CompletionKeepsInv(s: State, p: nat)
    requires Inv(s) && Live(s, p)
    ensures |s.rob[p].bySource| == NUM_INSTR_SOURCES
    ensures Inv(CompleteExecution(s, p))
  {
    assert EntryShape(s.rob[p]);
    if Completable(s, p) {
      KeepsShape(s, p);
      KeepsInOrder(s, p);
      KeepsEdges(s, p);
      KeepsOneProducer(s, p);
      KeepsCounts(s, p);
      KeepsFlags(s, p);
      KeepsQueues(s, p);
      KeepsCoverage(s, p);
      KeepsTallies(s, p);
      KeepsHistory(s, p);
    }
  }
}
