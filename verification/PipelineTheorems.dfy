/** What the register scheduler guarantees in every state of every run. */
module PipelineTheorems {
  import opened Common
  import opened RegisterScheduler
  import opened SchedulingStep
  import opened PipelineRuns

  /** A state that some run from an empty core of at least two slots reaches. */
  ghost function Reached(size: nat, schedulingLatency: nat, execLatency: nat, evs: seq<Event>): (s: State)
    requires size >= 2
    ensures Inv(s)
  {
    InitialInv(size, schedulingLatency, execLatency);
    Run(Initial(size, schedulingLatency, execLatency), evs)
  }

  /** The counter of a scheduled entry is the number of its sources that still wait, and the ready flag is its zero test. */
  lemma CounterIsExact(size: nat, a: nat, b: nat, evs: seq<Event>, c: nat)
    requires size >= 2
    requires var s := Reached(size, a, b, evs); Live(s, c) && Scheduled(s, c)
    ensures var s := Reached(size, a, b, evs);
            && s.rob[c].numRegDependent == CountWaits(s, c, NUM_INSTR_SOURCES)
            && (s.rob[c].regReady <==> forall j: nat :: j < NUM_INSTR_SOURCES ==> !Waits(s, c, j))
  {
    var s := Reached(size, a, b, evs);
    assert FlagsOf(s.rob[c]);
    CountZero(s, c, NUM_INSTR_SOURCES);
  }

  lemma {:induction false} CountZero(s: State, c: nat, n: nat)
    ensures CountWaits(s, c, n) == 0 <==> forall j: nat :: j < n ==> !Waits(s, c, j)
  {
    if n > 0 { CountZero(s, c, n - 1); }
  }

  /** No instruction is ready before the last writer, in trace order, of each of its sources has completed. */
  lemma ReadyAfterWriters(s: State, c: nat, j: nat)
    requires Inv(s) && Live(s, c) && s.rob[c].regReady && j < NUM_INSTR_SOURCES
    ensures EntryShape(s.rob[c]) && Pos(s, c) <= |s.trace|
    ensures var r := s.rob[c].instr.sources[j];
            var w := LastWriter(s.trace, Pos(s, c), r);
            r == 0 || w.None? || Done(s, w.value)
  {
    assert !Scheduled(s, c) ==> s.rob[c] == Fresh(s.rob[c].instr, s.rob[c].eventCycle);
    assert FlagsOf(s.rob[c]);
    CountZero(s, c, NUM_INSTR_SOURCES);
    assert !Waits(s, c, j);
    assert Covered(s, c, j);
  }

  /** All older writers of the sources of slot `c` have completed. */
  ghost predicate AllWritersDone(s: State, c: nat)
    requires Live(s, c)
  {
    forall u: nat, r: nat :: u < Pos(s, c) && u < |s.trace| && r != 0 && r in s.rob[c].instr.sources && r in s.trace[u].destinations
                             ==> Done(s, u)
  }

  /** Once all older writers of its sources have completed, a scheduled entry is ready. */
  lemma ReadyWithoutWriters(s: State, c: nat)
    requires Inv(s) && Live(s, c) && Scheduled(s, c) && AllWritersDone(s, c)
    ensures s.rob[c].regReady
  {
    hide Shape, AllWritersDone, Waits;
    assert FlagsOf(s.rob[c]);
    CountZero(s, c, NUM_INSTR_SOURCES);
    forall j: nat | j < NUM_INSTR_SOURCES ensures !Waits(s, c, j) { NotWaiting(s, c, j); }
  }

  lemma NotWaiting(s: State, c: nat, j: nat)
    requires Shape(s) && Edges(s) && Live(s, c) && AllWritersDone(s, c) && j < NUM_INSTR_SOURCES
    ensures !Waits(s, c, j)
  {
    if p: nat :| Live(s, p) && Recorded(s, p, c, j) && s.rob[p].executed != Completed {
      assert Edge(s, p, c, j);
      NotDone(s, p);
      var r := s.rob[c].instr.sources[j];
      assert r in s.rob[c].instr.sources && r in s.trace[Pos(s, p)].destinations;
    }
  }

  lemma NotDone(s: State, p: nat)
    requires Shape(s) && Live(s, p) && s.rob[p].executed != Completed
    ensures Pos(s, p) < |s.trace| && s.trace[Pos(s, p)] == s.rob[p].instr && !Done(s, Pos(s, p))
  {
  }

  /**
   Read-after-write order over whole runs: whatever has been sent to execution, even if it has
   retired since, had the last writer of each of its sources complete first.
   */
  lemma IssuedAfterWriters(size: nat, a: nat, b: nat, evs: seq<Event>, t: nat, j: nat)
    requires size >= 2 && j < NUM_INSTR_SOURCES
    requires t in Reached(size, a, b, evs).issued
    ensures var s := Reached(size, a, b, evs);
            && t < |s.trace| && !s.trace[t].IsMemory()
            && (j < |s.trace[t].sources| ==>
                  var w := LastWriter(s.trace, t, s.trace[t].sources[j]);
                  s.trace[t].sources[j] == 0 || w.None? || Done(s, w.value))
  {
    var s := Reached(size, a, b, evs);
    assert WasIssued(s, t);
    if t < s.retired {
      if j < |s.trace[t].sources| { LastWriterIsEarlier(s.trace, t, s.trace[t].sources[j]); }
    } else {
      var i: nat :| i < |s.rob| && Live(s, i) && Pos(s, i) == t && !s.rob[i].instr.IsMemory() && s.rob[i].executed != Idle;
      assert FlagsOf(s.rob[i]) && s.rob[i].instr == s.trace[t];
      ReadyAfterWriters(s, i, j);
    }
  }

  /** The ready rings cannot overflow: their contents are distinct live slots. */
  lemma QueuesFit(s: State)
    requires Inv(s)
    ensures |s.rte0| + |s.rte1| <= |s.rob|
    ensures forall x :: x in s.rte0 || x in s.rte1 ==> x < |s.rob|
    ensures (exists i: nat :: i < |s.rob| && !ReadyToExecute(s, i)) ==> |s.rte0| + |s.rte1| < |s.rob|
  {
    var q := s.rte0 + s.rte1;
    forall x | x in s.rte0 || x in s.rte1 ensures x < |s.rob| { assert x in q && ReadyToExecute(s, x); }
    DistinctBelow(q, |s.rob|);
    if i: nat :| i < |s.rob| && !ReadyToExecute(s, i) {
      assert i !in q;
      var q' := q + [i];
      DistinctBelow(q', |s.rob|);
    }
  }

  /** No wake-up is lost and none is doubled: a ready instruction waits in exactly one place of one queue. */
  lemma WakeUpsAreExact(size: nat, a: nat, b: nat, evs: seq<Event>, i: nat)
    requires size >= 2
    ensures var s := Reached(size, a, b, evs);
            multiset(s.rte0)[i] + multiset(s.rte1)[i] == (if ReadyToExecute(s, i) then 1 else 0)
  {
    var s := Reached(size, a, b, evs);
    var q := s.rte0 + s.rte1;
    DistinctCount(q, i);
    assert multiset(q) == multiset(s.rte0) + multiset(s.rte1);
  }

  /** Every retired non-memory instruction was sent to execution exactly once, every other one at most once. */
  lemma ExecutesOnce(size: nat, a: nat, b: nat, evs: seq<Event>, t: nat)
    requires size >= 2
    ensures var s := Reached(size, a, b, evs);
            && multiset(s.issued)[t] <= 1
            && (t < s.retired && !s.trace[t].IsMemory() ==> multiset(s.issued)[t] == 1)
  {
    var s := Reached(size, a, b, evs);
    DistinctCount(s.issued, t);
    assert t in s.issued <==> WasIssued(s, t);
  }

  /** Retirement follows the trace: the head of the buffer is the first instruction not yet retired. */
  lemma RetiresInTraceOrder(size: nat, a: nat, b: nat, evs: seq<Event>, k: nat)
    requires size >= 2
    requires k < Reached(size, a, b, evs).occ
    ensures var s := Reached(size, a, b, evs);
            && RingShape(s) && k < |s.rob| && s.retired + k < |s.trace|
            && s.rob[Slot(s, k)].instr == s.trace[s.retired + k]
  {
    var s := Reached(size, a, b, evs);
    assert Live(s, Slot(s, k)) && Pos(s, Slot(s, k)) == s.retired + k;
  }

  /** The oldest incomplete entry, once scheduled, waits for nothing: dependencies cannot deadlock. */
  lemma OldestIncompleteIsReady(size: nat, a: nat, b: nat, evs: seq<Event>, c: nat)
    requires size >= 2
    requires var s := Reached(size, a, b, evs);
             && Live(s, c) && Scheduled(s, c)
             && forall p: nat :: Live(s, p) && Age(s, p) < Age(s, c) ==> s.rob[p].executed == Completed
    ensures var s := Reached(size, a, b, evs); s.rob[c].numRegDependent == 0 && s.rob[c].regReady
  {
    var s := Reached(size, a, b, evs);
    assert forall j: nat :: j < NUM_INSTR_SOURCES ==> !Waits(s, c, j);
    CountZero(s, c, NUM_INSTR_SOURCES);
    assert FlagsOf(s.rob[c]);
  }

  lemma {:induction false} ZeroTally(rob: seq<Entry>, f: Entry -> bool, i: nat)
    requires i < |rob| && f(rob[i])
    ensures Tally(rob, f) > 0
  {
    if i < |rob| - 1 { ZeroTally(rob[..|rob| - 1], f, i); }
  }

  /** update_rob never skips its scan while an entry could complete. */
  lemma SkippedScanIsEmpty(size: nat, a: nat, b: nat, evs: seq<Event>, i: nat)
    requires size >= 2
    requires var s := Reached(size, a, b, evs); i < |s.rob| && Completable(s, i)
    ensures var s := Reached(size, a, b, evs); s.inflightReg > 0 || s.inflightMem > 0
  {
    var s := Reached(size, a, b, evs);
    if s.rob[i].instr.IsMemory() { ZeroTally(s.rob, CountsMem, i); } else { ZeroTally(s.rob, CountsReg, i); }
  }
}
