/** do_scheduling keeps every invariant of the register scheduler. */
module SchedulingStep {
  import opened Common
  import opened RegisterScheduler

  /** Scheduling looks at the oldest unscheduled entry. */
  ghost predicate Next(s: State, c: nat) {
    && Live(s, c) && !Scheduled(s, c)
    && (forall a: nat :: Live(s, a) && Age(s, a) < Age(s, c) ==> Scheduled(s, a))
  }

  lemma InvImpliesMarking(s: State)
    requires Shape(s)
    ensures Marking(s)
  {
    forall i: nat | i < |s.rob|
      ensures && |s.rob[i].bySource| == |s.rob[i].checked| == NUM_INSTR_SOURCES
              && |s.rob[i].instr.sources| == NUM_INSTR_SOURCES
    {
      if Live(s, i) { assert EntryShape(s.rob[i]); }
    }
  }

  /** What YoungestWriter answers: a live, older, incomplete writer, and no younger one. */
  lemma {:induction false} YoungestWriterFound(s: State, age: nat, r: nat)
    requires Shape(s) && age <= s.occ
    ensures var w := YoungestWriter(s, age, r);
            && (w.Some? ==> && Live(s, w.value) && Age(s, w.value) < age
                            && s.rob[w.value].executed != Completed && r in s.rob[w.value].instr.destinations)
            && (forall q: nat | Live(s, q) && Age(s, q) < age && s.rob[q].executed != Completed
                             && r in s.rob[q].instr.destinations :: w.Some? && Age(s, q) <= Age(s, w.value))
    decreases age
  {
    if age > 0 {
      var p := Slot(s, age - 1);
      assert Live(s, p) && Age(s, p) == age - 1;
      assert forall q: nat :: Live(s, q) && Age(s, q) == age - 1 ==> q == p;
      YoungestWriterFound(s, age - 1, r);
    }
  }

  /** The producer that scheduling records for source `j` of slot `c`. */
  lemma ProducerFound(s: State, c: nat, j: nat)
    requires Shape(s) && Marking(s) && Live(s, c) && j < NUM_INSTR_SOURCES
    ensures var w := Producers(s, c)[j];
            w.Some? ==> && Live(s, w.value) && Age(s, w.value) < Age(s, c)
                        && s.rob[w.value].executed != Completed
                        && s.rob[c].instr.sources[j] != 0
                        && s.rob[c].instr.sources[j] in s.rob[w.value].instr.destinations
  {
    YoungestWriterFound(s, Age(s, c), s.rob[c].instr.sources[j]);
  }

  lemma ProducersFound(s: State, c: nat)
    requires Shape(s) && Marking(s) && Live(s, c)
    ensures var ps := Producers(s, c);
            forall j: nat :: j < NUM_INSTR_SOURCES && ps[j].Some? ==>
                          && Live(s, ps[j].value) && Age(s, ps[j].value) < Age(s, c)
                          && s.rob[ps[j].value].executed != Completed
                          && s.rob[c].instr.sources[j] != 0
                          && s.rob[c].instr.sources[j] in s.rob[ps[j].value].instr.destinations
  {
    forall j: nat | j < NUM_INSTR_SOURCES
      ensures var w := Producers(s, c)[j];
              w.Some? ==> && Live(s, w.value) && Age(s, w.value) < Age(s, c)
                          && s.rob[w.value].executed != Completed
                          && s.rob[c].instr.sources[j] != 0
                          && s.rob[c].instr.sources[j] in s.rob[w.value].instr.destinations
    {
      ProducerFound(s, c, j);
    }
  }

  /** Entry `i` after scheduling slot `c`, field by field. */
  lemma ScheduledEntry(s: State, c: nat, i: nat)
    requires Marking(s) && c < |s.rob| && i < |s.rob|
    ensures var s', ps := DoScheduling(s, c), Producers(s, c);
            var e, e' := s.rob[i], s'.rob[i];
            && |s'.rob| == |s.rob|
            && (i != c ==> e' == MarkProducer(e, i, c, ps))
            && (i == c ==> && e'.instr == e.instr && e'.fetched == e.fetched && e'.executed == e.executed
                           && e'.numMemOps == e.numMemOps && e'.isProducer == e.isProducer
                           && e'.dependents == e.dependents && e'.bySource == e.bySource
                           && e'.scheduled == (if e.instr.IsMemory() then Inflight else Completed)
                           && e'.regReady == (CountSome(ps) == 0)
                           && e'.numRegDependent == e.numRegDependent + CountSome(ps)
                           && |e'.checked| == NUM_INSTR_SOURCES
                           && forall j :: 0 <= j < NUM_INSTR_SOURCES ==> e'.checked[j] == (e.checked[j] || ps[j].Some?))
  {
  }

  lemma KeepsShape(s: State, c: nat)
    requires Shape(s) && Marking(s) && Live(s, c)
    ensures Shape(DoScheduling(s, c))
  {
    var s' := DoScheduling(s, c);
    ProducersFound(s, c);
    forall i: nat | i < |s.rob|
      ensures Live(s', i) == Live(s, i)
      ensures Live(s, i) ==> EntryShape(s'.rob[i]) && s'.rob[i].instr == s'.trace[Pos(s', i)]
      ensures !Live(s, i) ==> s'.rob[i] == EMPTY_ENTRY
    {
      ScheduledEntry(s, c, i);
      if Live(s, i) { assert EntryShape(s.rob[i]); }
      if !Live(s, i) {
        assert s.rob[i] == EMPTY_ENTRY;
        assert Some(i) !in Producers(s, c);
        assert s'.rob[i].bySource == EMPTY_ENTRY.bySource;
      }
    }
  }

  /** Scheduling slot `c` records exactly `c`, and exactly with the producers found. */
  lemma RecordedAfter(s: State, c: nat, p: nat, d: nat, j: nat)
    requires Marking(s) && c < |s.rob| && p < |s.rob| && j < NUM_INSTR_SOURCES
    ensures Recorded(DoScheduling(s, c), p, d, j) ==
            (Recorded(s, p, d, j) || (p != c && d == c && Producers(s, c)[j] == Some(p)))
  {
    ScheduledEntry(s, c, p);
  }

  lemma KeepsInOrder(s: State, c: nat)
    requires Shape(s) && Marking(s) && Next(s, c) && InOrder(s)
    ensures InOrder(DoScheduling(s, c))
  {
    var s' := DoScheduling(s, c);
    ProducersFound(s, c);
    forall i: nat | Live(s, i)
      ensures Live(s', i) && Age(s', i) == Age(s, i)
      ensures Scheduled(s', i) == (i == c || Scheduled(s, i))
      ensures !Scheduled(s', i) ==> s'.rob[i] == s.rob[i]
    {
      ScheduledEntry(s, c, i);
      if i != c && !Scheduled(s, i) {
        assert !(Some(i) in Producers(s, c));
        assert s'.rob[i].bySource == s.rob[i].bySource;
      }
    }
  }

  lemma SameRing(s: State, c: nat)
    requires Shape(s) && Marking(s) && Live(s, c)
    ensures var s' := DoScheduling(s, c);
            && |s'.rob| == |s.rob|
            && (forall i: nat :: Live(s', i) == Live(s, i))
            && (forall i: nat | Live(s, i) :: && Age(s', i) == Age(s, i) && Pos(s', i) == Pos(s, i)
                                              && s'.rob[i].instr == s.rob[i].instr
                                              && s'.rob[i].executed == s.rob[i].executed
                                              && s'.rob[i].numMemOps == s.rob[i].numMemOps)
  {
    var s' := DoScheduling(s, c);
    forall i: nat | Live(s, i)
      ensures && s'.rob[i].instr == s.rob[i].instr && s'.rob[i].executed == s.rob[i].executed
              && s'.rob[i].numMemOps == s.rob[i].numMemOps
    {
      ScheduledEntry(s, c, i);
    }
  }

  lemma EdgeAfter(s: State, c: nat, p: nat, d: nat, j: nat)
    requires Shape(s) && Marking(s) && Next(s, c) && InOrder(s) && Edges(s)
    requires var s' := DoScheduling(s, c); Live(s', p) && Recorded(s', p, d, j) && j < NUM_INSTR_SOURCES
    ensures Edge(DoScheduling(s, c), p, d, j)
  {
    SameRing(s, c);
    RecordedAfter(s, c, p, d, j);
    ScheduledEntry(s, c, p);
    if Recorded(s, p, d, j) {
      assert Edge(s, p, d, j);
      ScheduledEntry(s, c, d);
    } else {
      ProducerFound(s, c, j);
      ScheduledEntry(s, c, c);
    }
  }

  lemma DependentAfter(s: State, c: nat, p: nat, d: nat)
    requires Shape(s) && Marking(s) && Next(s, c) && Edges(s)
    requires var s' := DoScheduling(s, c); Live(s', p) && d in s'.rob[p].dependents
    ensures var s' := DoScheduling(s, c);
            s'.rob[p].isProducer && exists j: nat :: j < NUM_INSTR_SOURCES && Recorded(s', p, d, j)
  {
    SameRing(s, c);
    ScheduledEntry(s, c, p);
    if d in s.rob[p].dependents {
      var j: nat :| j < NUM_INSTR_SOURCES && Recorded(s, p, d, j);
      RecordedAfter(s, c, p, d, j);
    } else {
      var j: nat :| j < NUM_INSTR_SOURCES && Producers(s, c)[j] == Some(p);
      RecordedAfter(s, c, p, d, j);
    }
  }

  lemma RecordedDependent(s: State, c: nat, p: nat, d: nat, j: nat)
    requires Shape(s) && Marking(s) && Next(s, c) && Edges(s)
    requires var s' := DoScheduling(s, c); Live(s', p) && Recorded(s', p, d, j)
    ensures d in DoScheduling(s, c).rob[p].dependents
  {
    SameRing(s, c);
    ScheduledEntry(s, c, p);
    RecordedAfter(s, c, p, d, j);
  }

  lemma KeepsEdges(s: State, c: nat)
    requires Shape(s) && Marking(s) && Next(s, c) && InOrder(s) && Edges(s)
    ensures Edges(DoScheduling(s, c))
  {
    hide DoScheduling;
    var s' := DoScheduling(s, c);
    forall p: nat, d: nat, j: nat | Live(s', p) && Recorded(s', p, d, j) && j < NUM_INSTR_SOURCES
      ensures Edge(s', p, d, j)
    {
      EdgeAfter(s, c, p, d, j);
    }
    forall p: nat, d: nat, j: nat | Live(s', p) && Recorded(s', p, d, j)
      ensures d in s'.rob[p].dependents
    {
      RecordedDependent(s, c, p, d, j);
    }
    forall p: nat, d: nat | Live(s', p) && d in s'.rob[p].dependents
      ensures exists j: nat :: j < NUM_INSTR_SOURCES && Recorded(s', p, d, j)
      ensures s'.rob[p].isProducer
    {
      DependentAfter(s, c, p, d);
    }
  }

  lemma KeepsOneProducer(s: State, c: nat)
    requires Shape(s) && Marking(s) && Next(s, c) && Edges(s) && OneProducer(s)
    ensures OneProducer(DoScheduling(s, c))
  {
    var s' := DoScheduling(s, c);
    SameRing(s, c);
    forall p: nat, q: nat, d: nat, j: nat | Live(s', p) && Live(s', q) && Recorded(s', p, d, j) && Recorded(s', q, d, j)
      ensures p == q
    {
      ScheduledEntry(s, c, p);
      RecordedAfter(s, c, p, d, j);
      RecordedAfter(s, c, q, d, j);
      assert Recorded(s, p, c, j) ==> Edge(s, p, c, j);
      assert Recorded(s, q, c, j) ==> Edge(s, q, c, j);
    }
  }

  /** Waiting after scheduling slot `c`: for `c` what was found, for the others as before. */
  lemma WaitsAfter(s: State, c: nat, d: nat, j: nat)
    requires Shape(s) && Marking(s) && Next(s, c) && Edges(s) && j < NUM_INSTR_SOURCES
    ensures d != c ==> Waits(DoScheduling(s, c), d, j) == Waits(s, d, j)
    ensures Waits(DoScheduling(s, c), c, j) == Producers(s, c)[j].Some?
  {
    var s' := DoScheduling(s, c);
    SameRing(s, c);
    forall p: nat | Live(s, p)
      ensures Recorded(s', p, d, j) == (Recorded(s, p, d, j) || (p != c && d == c && Producers(s, c)[j] == Some(p)))
      ensures Recorded(s', p, c, j) == (p != c && Producers(s, c)[j] == Some(p))
    {
      RecordedAfter(s, c, p, d, j);
      RecordedAfter(s, c, p, c, j);
      assert Recorded(s, p, c, j) ==> Edge(s, p, c, j);
    }
    ProducerFound(s, c, j);
    if Producers(s, c)[j].Some? {
      var p := Producers(s, c)[j].value;
      assert Recorded(s', p, c, j) && Live(s', p) && s'.rob[p].executed != Completed;
    }
  }

  lemma {:induction false} CountAfterOther(s: State, c: nat, d: nat, n: nat)
    requires Shape(s) && Marking(s) && Next(s, c) && Edges(s) && n <= NUM_INSTR_SOURCES && d != c
    ensures CountWaits(DoScheduling(s, c), d, n) == CountWaits(s, d, n)
  {
    if n > 0 {
      CountAfterOther(s, c, d, n - 1);
      WaitsAfter(s, c, d, n - 1);
    }
  }

  lemma {:induction false} CountAfterSelf(s: State, c: nat, n: nat)
    requires Shape(s) && Marking(s) && Next(s, c) && Edges(s) && n <= NUM_INSTR_SOURCES
    ensures CountWaits(DoScheduling(s, c), c, n) == CountSome(Producers(s, c)[..n])
  {
    if n > 0 {
      CountAfterSelf(s, c, n - 1);
      WaitsAfter(s, c, c, n - 1);
      assert Producers(s, c)[..n][..n - 1] == Producers(s, c)[..n - 1];
    }
  }

  lemma KeepsCounts(s: State, c: nat)
    requires Shape(s) && Marking(s) && Next(s, c) && InOrder(s) && Edges(s) && Counts(s)
    ensures Counts(DoScheduling(s, c))
  {
    var s' := DoScheduling(s, c);
    SameRing(s, c);
    forall d: nat | Live(s', d) && Scheduled(s', d)
      ensures s'.rob[d].numRegDependent == CountWaits(s', d, NUM_INSTR_SOURCES)
    {
      ScheduledEntry(s, c, d);
      if d == c {
        CountAfterSelf(s, c, NUM_INSTR_SOURCES);
        assert Producers(s, c)[..NUM_INSTR_SOURCES] == Producers(s, c);
      } else {
        CountAfterOther(s, c, d, NUM_INSTR_SOURCES);
      }
    }
  }

  lemma KeepsFlags(s: State, c: nat)
    requires Shape(s) && Marking(s) && Next(s, c) && InOrder(s) && Flags(s)
    ensures Flags(DoScheduling(s, c))
  {
    var s' := DoScheduling(s, c);
    SameRing(s, c);
    forall d: nat | Live(s', d)
      ensures FlagsOf(s'.rob[d])
    {
      ScheduledEntry(s, c, d);
      assert FlagsOf(s.rob[d]);
    }
  }

  lemma KeepsQueues(s: State, c: nat)
    requires Shape(s) && Marking(s) && Next(s, c) && InOrder(s) && Queues(s)
    ensures Queues(DoScheduling(s, c))
  {
    var s' := DoScheduling(s, c);
    SameRing(s, c);
    assert !ReadyToExecute(s, c);
    forall i: nat ensures ReadyToExecute(s', i) == (ReadyToExecute(s, i) || (i == c && s'.rte1 != s.rte1))
    {
      if Live(s, i) {
        ScheduledEntry(s, c, i);
      }
    }
    assert c !in s.rte0 + s.rte1;
    assert s'.rte0 + s'.rte1 == if s'.rte1 == s.rte1 then s.rte0 + s.rte1 else (s.rte0 + s.rte1) + [c];
  }

  /** The youngest writer in the buffer is the last writer of the trace, unless that has completed. */
  lemma {:induction false} YoungestIsLast(s: State, age: nat, r: nat)
    requires Shape(s) && age <= s.occ
    ensures var w, y := LastWriter(s.trace, s.retired + age, r), YoungestWriter(s, age, r);
            w.None? || Done(s, w.value) || (y.Some? && Live(s, y.value) && Pos(s, y.value) == w.value)
    decreases age
  {
    if age == 0 {
      LastWriterIsEarlier(s.trace, s.retired, r);
    } else {
      var p := Slot(s, age - 1);
      assert Live(s, p) && Pos(s, p) == s.retired + age - 1;
      assert s.rob[p].instr == s.trace[s.retired + age - 1];
      YoungestIsLast(s, age - 1, r);
      if r in s.rob[p].instr.destinations && s.rob[p].executed == Completed {
        assert Done(s, s.retired + age - 1);
      }
    }
  }

  lemma {:induction false} LastWriterIsEarlier(trace: seq<Instr>, t: nat, r: nat)
    requires t <= |trace|
    ensures LastWriter(trace, t, r).Some? ==> LastWriter(trace, t, r).value < t
    decreases t
  {
    if t > 0 && r !in trace[t - 1].destinations { LastWriterIsEarlier(trace, t - 1, r); }
  }

  lemma DoneAfter(s: State, c: nat, t: nat)
    requires Shape(s) && Marking(s) && Live(s, c) && Done(s, t)
    ensures Done(DoScheduling(s, c), t)
  {
    var s' := DoScheduling(s, c);
    SameRing(s, c);
    if t >= s.retired {
      var i: nat :| i < |s.rob| && Live(s, i) && Pos(s, i) == t && s.rob[i].executed == Completed;
      assert Live(s', i) && Pos(s', i) == t && s'.rob[i].executed == Completed;
    }
  }

  lemma SameTrace(s: State, c: nat)
    requires Marking(s) && c < |s.rob|
    ensures DoScheduling(s, c).trace == s.trace && DoScheduling(s, c).retired == s.retired
  {
  }

  lemma CoveredAfterSelf(s: State, c: nat, j: nat)
    requires Shape(s) && Marking(s) && Next(s, c) && InOrder(s) && j < NUM_INSTR_SOURCES
    requires Shape(DoScheduling(s, c)) && Live(DoScheduling(s, c), c)
    ensures Covered(DoScheduling(s, c), c, j)
  {
    hide DoScheduling, Wrap, AgeFrom;
    var s' := DoScheduling(s, c);
    var r := s.rob[c].instr.sources[j];
    var w := LastWriter(s.trace, Pos(s, c), r);
    SameRing(s, c);
    SameTrace(s, c);
    if r != 0 && w.Some? {
      YoungestIsLast(s, Age(s, c), r);
      if Done(s, w.value) {
        DoneAfter(s, c, w.value);
      } else {
        assert Producers(s, c)[j].Some?;
        var p := Producers(s, c)[j].value;
        ProducerFound(s, c, j);
        RecordedAfter(s, c, p, c, j);
        assert Live(s', p) && Pos(s', p) == w.value && Recorded(s', p, c, j);
      }
    }
  }

  lemma CoveredAfterOther(s: State, c: nat, d: nat, j: nat)
    requires Shape(s) && Marking(s) && Live(s, c) && Live(s, d) && c != d && j < NUM_INSTR_SOURCES
    requires Covered(s, d, j)
    requires Shape(DoScheduling(s, c)) && Live(DoScheduling(s, c), d)
    ensures Covered(DoScheduling(s, c), d, j)
  {
    var s' := DoScheduling(s, c);
    var r := s.rob[d].instr.sources[j];
    var w := LastWriter(s.trace, Pos(s, d), r);
    SameRing(s, c);
    if r != 0 && w.Some? {
      if Done(s, w.value) {
        DoneAfter(s, c, w.value);
      } else {
        var p: nat :| Live(s, p) && Pos(s, p) == w.value && Recorded(s, p, d, j);
        RecordedAfter(s, c, p, d, j);
        assert Live(s', p) && Pos(s', p) == w.value && Recorded(s', p, d, j);
      }
    }
  }

  lemma KeepsCoverage(s: State, c: nat)
    requires Shape(s) && Marking(s) && Next(s, c) && InOrder(s) && Coverage(s)
    requires Shape(DoScheduling(s, c))
    ensures Coverage(DoScheduling(s, c))
  {
    var s' := DoScheduling(s, c);
    SameRing(s, c);
    forall d: nat, j: nat | Live(s', d) && Scheduled(s', d) && j < NUM_INSTR_SOURCES
      ensures Covered(s', d, j)
    {
      ScheduledEntry(s, c, d);
      if d == c { CoveredAfterSelf(s, c, j); } else { CoveredAfterOther(s, c, d, j); }
    }
  }

  lemma KeepsTallies(s: State, c: nat)
    requires Shape(s) && Marking(s) && Live(s, c) && Tallies(s)
    ensures Tallies(DoScheduling(s, c))
  {
    var s' := DoScheduling(s, c);
    forall i: nat | i < |s.rob|
      ensures CountsReg(s'.rob[i]) == CountsReg(s.rob[i])
      ensures CountsMem(s'.rob[i]) == CountsMem(s.rob[i])
      ensures CountsDone(s'.rob[i]) == CountsDone(s.rob[i])
    {
      ScheduledEntry(s, c, i);
    }
    TallySame(s.rob, s'.rob, CountsReg);
    TallySame(s.rob, s'.rob, CountsMem);
    TallySame(s.rob, s'.rob, CountsDone);
  }

  lemma KeepsHistory(s: State, c: nat)
    requires Shape(s) && Marking(s) && Live(s, c) && History(s)
    ensures History(DoScheduling(s, c))
  {
    var s' := DoScheduling(s, c);
    SameRing(s, c);
    forall t: nat ensures WasIssued(s', t) == WasIssued(s, t) {
      if i: nat :| i < |s.rob| && Live(s, i) && Pos(s, i) == t && !s.rob[i].instr.IsMemory() && s.rob[i].executed != Idle {
        assert Live(s', i) && Pos(s', i) == t;
      }
      if i: nat :| i < |s.rob| && Live(s', i) && Pos(s', i) == t && !s'.rob[i].instr.IsMemory() && s'.rob[i].executed != Idle {
        assert Live(s, i) && Pos(s, i) == t;
      }
    }
  }

  lemma SchedulingKeepsInv(s: State, c: nat)
    requires Inv(s) && Next(s, c)
    ensures Marking(s) && Inv(DoScheduling(s, c))
  {
    InvImpliesMarking(s);
    KeepsShape(s, c);
    KeepsInOrder(s, c);
    KeepsEdges(s, c);
    KeepsOneProducer(s, c);
    KeepsCounts(s, c);
    KeepsFlags(s, c);
    KeepsQueues(s, c);
    KeepsCoverage(s, c);
    KeepsTallies(s, c);
    KeepsHistory(s, c);
  }
}
