/**
 The core's register scheduling as it runs: the reorder buffer is an array updated in place and
 the ready queues are rings.  Every method is proved to take the core exactly to the state that
 the pure step of the same name gives.
 */
module OutOfOrderCore {
  import opened Common
  import opened Rings
  import opened RegisterScheduler
  import opened SchedulingStep
  import opened CompletionStep
  import opened PipelineSteps
  import opened RingSteps
  import opened PipelineRuns
  import opened PipelineTheorems

  // ----- marking, one producer at a time

  function AddConsumer(e: Entry, c: nat, j: nat): Entry
    requires j < |e.bySource|
  {
    e.(dependents := e.dependents + {c}, isProducer := true, bySource := e.bySource[j := e.bySource[j] + {c}])
  }

  function AddProducer(e: Entry, j: nat): Entry
    requires j < |e.checked|
  {
    e.(regReady := false, numRegDependent := e.numRegDependent + 1, checked := e.checked[j := true])
  }

  lemma {:induction false} CountSomeUpdate(ps: seq<Option<nat>>, j: nat, p: nat)
    requires j < |ps| && ps[j].None?
    ensures CountSome(ps[j := Some(p)]) == CountSome(ps) + 1
  {
    var n := |ps| - 1;
    if j < n {
      CountSomeUpdate(ps[..n], j, p);
      assert ps[j := Some(p)][..n] == ps[..n][j := Some(p)];
    } else {
      assert ps[j := Some(p)][..n] == ps[..n];
    }
  }

  lemma MarkStep(rob: seq<Entry>, c: nat, ps: seq<Option<nat>>, j: nat, p: nat)
    requires |ps| == NUM_INSTR_SOURCES && j < NUM_INSTR_SOURCES && ps[j].None?
    requires c < |rob| && p < |rob| && p != c
    requires forall i :: 0 <= i < |rob| ==> |rob[i].bySource| == |rob[i].checked| == NUM_INSTR_SOURCES
    ensures var m := Mark(rob, c, ps);
            Mark(rob, c, ps[j := Some(p)]) == m[p := AddConsumer(m[p], c, j)][c := AddProducer(m[c], j)]
  {
    var m := Mark(rob, c, ps);
    var ps' := ps[j := Some(p)];
    var m' := Mark(rob, c, ps');
    CountSomeUpdate(ps, j, p);
    forall i | 0 <= i < |rob|
      ensures m'[i] == m[p := AddConsumer(m[p], c, j)][c := AddProducer(m[c], j)][i]
    {
      if i == c {
        assert m'[c].checked == AddProducer(m[c], j).checked;
      } else if i == p {
        assert ps'[j] == Some(p);
        assert m'[p].bySource == AddConsumer(m[p], c, j).bySource;
        if Some(p) !in ps { assert m'[p].dependents == m[p].dependents + {c}; }
      } else {
        SameProducers(ps, j, p, i);
        assert m'[i].bySource == m[i].bySource;
      }
    }
  }

  lemma SameProducers(ps: seq<Option<nat>>, j: nat, p: nat, i: nat)
    requires j < |ps| && ps[j].None? && i != p
    ensures Some(i) in ps[j := Some(p)] <==> Some(i) in ps
  {
    if Some(i) in ps {
      var k :| 0 <= k < |ps| && ps[k] == Some(i);
      assert ps[j := Some(p)][k] == Some(i);
    }
  }

  lemma {:induction false} NoneCounted(ps: seq<Option<nat>>)
    requires forall j :: 0 <= j < |ps| ==> ps[j].None?
    ensures CountSome(ps) == 0
  {
    if |ps| > 0 { NoneCounted(ps[..|ps| - 1]); }
  }

  lemma MarkNone(rob: seq<Entry>, c: nat)
    requires forall i :: 0 <= i < |rob| ==> |rob[i].bySource| == |rob[i].checked| == NUM_INSTR_SOURCES
    ensures Mark(rob, c, [None, None, None, None]) == rob
  {
    var ps: seq<Option<nat>> := [None, None, None, None];
    NoneCounted(ps);
    forall i | 0 <= i < |rob| ensures Mark(rob, c, ps)[i] == rob[i] {
      assert Mark(rob, c, ps)[i].bySource == rob[i].bySource;
      assert i == c ==> Mark(rob, c, ps)[i].checked == rob[i].checked;
    }
  }

  /** Like YoungestWriter, but looking no further back than age `low`. */
  function WriterFrom(s: State, age: nat, low: nat, r: nat): Option<nat>
    requires RingShape(s) && age <= |s.rob|
    decreases age
  {
    if age <= low then None
    else
      var p := Slot(s, age - 1);
      if s.rob[p].executed != Completed && r in s.rob[p].instr.destinations then Some(p)
      else WriterFrom(s, age - 1, low, r)
  }

  lemma {:induction false} WriterFromBottom(s: State, age: nat, r: nat)
    requires RingShape(s) && age <= |s.rob|
    ensures WriterFrom(s, age, 0, r) == YoungestWriter(s, age, r)
    decreases age
  {
    if age > 0 { WriterFromBottom(s, age - 1, r); }
  }

  lemma {:induction false} WriterOneLower(s: State, age: nat, low: nat, r: nat)
    requires RingShape(s) && low < age <= |s.rob|
    ensures var above, p := WriterFrom(s, age, low + 1, r), Slot(s, low);
            WriterFrom(s, age, low, r)
            == if above.Some? then above
               else if s.rob[p].executed != Completed && r in s.rob[p].instr.destinations then Some(p) else None
    decreases age
  {
    if age > low + 1 { WriterOneLower(s, age - 1, low, r); }
    else { assert WriterFrom(s, age - 1, low, r) == None; }
  }

  function ProducerFrom(s: State, c: nat, j: nat, low: nat): Option<nat>
    requires RingShape(s) && c < |s.rob| && j < |s.rob[c].instr.sources| && j < |s.rob[c].checked|
  {
    var r := s.rob[c].instr.sources[j];
    if r == 0 || s.rob[c].checked[j] then None else WriterFrom(s, Age(s, c), low, r)
  }

  /** `ps` holds the producers of `c` among the entries of age `low` and more. */
  ghost predicate Found(s: State, c: nat, ps: seq<Option<nat>>, low: nat)
    requires Marking(s) && c < |s.rob|
  {
    |ps| == NUM_INSTR_SOURCES && forall j: nat :: j < NUM_INSTR_SOURCES ==> ps[j] == ProducerFrom(s, c, j, low)
  }

  lemma MarkKeepsExecuted(rob: seq<Entry>, c: nat, ps: seq<Option<nat>>, i: nat)
    requires c < |rob| && i < |rob| && |ps| == NUM_INSTR_SOURCES
    requires forall k :: 0 <= k < |rob| ==> |rob[k].bySource| == |rob[k].checked| == NUM_INSTR_SOURCES
    ensures |Mark(rob, c, ps)| == |rob| && Mark(rob, c, ps)[i].executed == rob[i].executed
  {
  }

  /** What slot `prior` adds to the producers found among the younger entries. */
  lemma ProducersOneLower(s: State, c: nat, prior: nat, ps: seq<Option<nat>>)
    requires Marking(s) && c < |s.rob| && prior < |s.rob| && Age(s, prior) < Age(s, c)
    requires Found(s, c, ps, Age(s, prior) + 1)
    ensures forall j: nat | j < NUM_INSTR_SOURCES ::
              ProducerFrom(s, c, j, Age(s, prior))
              == if ps[j].Some? || s.rob[c].instr.sources[j] == 0 || s.rob[c].checked[j] then ps[j]
                 else if s.rob[prior].executed != Completed && s.rob[c].instr.sources[j] in s.rob[prior].instr.destinations
                 then Some(prior) else None
  {
    assert Slot(s, Age(s, prior)) == prior;
    forall j: nat | j < NUM_INSTR_SOURCES
      ensures ProducerFrom(s, c, j, Age(s, prior))
              == if ps[j].Some? || s.rob[c].instr.sources[j] == 0 || s.rob[c].checked[j] then ps[j]
                 else if s.rob[prior].executed != Completed && s.rob[c].instr.sources[j] in s.rob[prior].instr.destinations
                 then Some(prior) else None
    {
      WriterOneLower(s, Age(s, c), Age(s, prior), s.rob[c].instr.sources[j]);
    }
  }

  lemma FoundAll(s: State, c: nat, ps: seq<Option<nat>>)
    requires Marking(s) && c < |s.rob| && Found(s, c, ps, 0)
    ensures ps == Producers(s, c)
  {
    forall j: nat | j < NUM_INSTR_SOURCES ensures ps[j] == Producers(s, c)[j] {
      WriterFromBottom(s, Age(s, c), s.rob[c].instr.sources[j]);
    }
  }

  lemma FoundNone(s: State, c: nat)
    requires Marking(s) && c < |s.rob|
    ensures Found(s, c, [None, None, None, None], Age(s, c))
  {
  }

  lemma ProducersIgnoreReady(s: State, c: nat)
    requires Marking(s) && c < |s.rob|
    ensures var s0 := s.(rob := s.rob[c := s.rob[c].(regReady := true)]);
            Marking(s0) && Producers(s0, c) == Producers(s, c)
  {
    var s0 := s.(rob := s.rob[c := s.rob[c].(regReady := true)]);
    forall j: nat | j < NUM_INSTR_SOURCES ensures Producers(s0, c)[j] == Producers(s, c)[j] {
      WriterIgnoresReady(s, c, Age(s, c), s.rob[c].instr.sources[j]);
    }
  }

  /** Setting the ready flag of `c` first does not change which producers are found. */
  lemma {:induction false} WriterIgnoresReady(s: State, c: nat, age: nat, r: nat)
    requires RingShape(s) && c < |s.rob| && age <= |s.rob|
    ensures YoungestWriter(s.(rob := s.rob[c := s.rob[c].(regReady := true)]), age, r) == YoungestWriter(s, age, r)
    decreases age
  {
    if age > 0 { WriterIgnoresReady(s, c, age - 1, r); }
  }

  // ----- wake-up, one consumer at a time

  lemma {:induction false} WokenGrows(rob: seq<Entry>, e: Entry, m: nat, n: nat)
    requires m <= n <= |rob| && |e.bySource| == NUM_INSTR_SOURCES
    ensures |Woken(rob, e, m)| <= |Woken(rob, e, n)|
    decreases n
  {
    if m < n { WokenGrows(rob, e, m, n - 1); }
  }

  lemma {:induction false} ReleasedGrows(e: Entry, i: nat, m: nat, n: nat)
    requires m <= n <= |e.bySource|
    ensures Released(e, i, m) <= Released(e, i, n)
    decreases n
  {
    if m < n { ReleasedGrows(e, i, m, n - 1); }
  }

  /** A consumer of a completing entry counts it at least as often as it will be released. */
  lemma DependentReleases(s: State, p: nat, i: nat)
    requires Inv(s) && Live(s, p) && Completable(s, p) && i in s.rob[p].dependents
    ensures EntryShape(s.rob[p]) && i < |s.rob| && i != p
    ensures Released(s.rob[p].(executed := Completed), i, NUM_INSTR_SOURCES) <= s.rob[i].numRegDependent
  {
    assert EntryShape(s.rob[p]);
    var j: nat :| j < NUM_INSTR_SOURCES && Recorded(s, p, i, j);
    assert Edge(s, p, i, j);
    ReleasedSame(s.rob[p].(executed := Completed), s.rob[p], i, NUM_INSTR_SOURCES);
    ReleasedBound(s, p, i, NUM_INSTR_SOURCES);
  }

  /** What reg_RAW_release needs of the entry: its consumers, their counters, and room in RTE0. */
  lemma DependentsCountIt(s: State, p: nat)
    requires Inv(s) && Live(s, p) && Completable(s, p)
    ensures var e := s.rob[p].(executed := Completed); var rob := s.rob[p := e];
            && |e.bySource| == NUM_INSTR_SOURCES
            && p !in e.dependents
            && (forall i: nat | i < |rob| && i in e.dependents :: Released(e, i, NUM_INSTR_SOURCES) <= rob[i].numRegDependent)
            && |s.rte0| + |Woken(rob, e, |rob|)| <= |rob|
            && (forall i: nat | i in e.dependents :: i < |rob|)
            && (!e.isProducer ==> CompletesQuietly(s, p))
  {
    assert EntryShape(s.rob[p]);
    var e := s.rob[p].(executed := Completed);
    forall i: nat | i in e.dependents
      ensures i < |s.rob| && i != p && Released(e, i, NUM_INSTR_SOURCES) <= s.rob[i].numRegDependent
    {
      DependentReleases(s, p, i);
    }
    CompletionKeepsInv(s, p);
    QueuesFit(CompleteExecution(s, p));
    if !e.isProducer { NoDependents(s, p); }
  }

  ghost predicate CompletesQuietly(s: State, p: nat)
    requires p < |s.rob| && |s.rob[p].bySource| == NUM_INSTR_SOURCES
  {
    CompleteExecution(s, p).rte0 == s.rte0
  }

  lemma EmptyNotCompletable(s: State, i: nat)
    requires Inv(s) && i < |s.rob| && !Live(s, i)
    ensures !Completable(s, i)
  {
  }

  lemma ReleaseStep(rob: seq<Entry>, e: Entry, i: nat)
    requires i < |rob| && |e.bySource| == NUM_INSTR_SOURCES
    ensures ReleaseBelow(rob, e, i)[i] == rob[i]
    ensures ReleaseBelow(rob, e, i + 1)
            == if i in e.dependents then ReleaseBelow(rob, e, i)[i := ReleaseEntry(rob[i], Released(e, i, NUM_INSTR_SOURCES))]
               else ReleaseBelow(rob, e, i)
    ensures Wakes(ReleaseBelow(rob, e, i), e, i) == Wakes(rob, e, i)
  {
  }

  /** Whether the first `n` sources of consumer `i` of `e` have brought its counter to zero. */
  predicate Freed(c: Entry, e: Entry, i: nat, n: nat)
    requires n <= |e.bySource|
  {
    Released(e, i, n) > 0 && c.numRegDependent == Released(e, i, n) && !c.instr.IsMemory()
  }

  lemma ReleaseNothing(c: Entry)
    ensures ReleaseEntry(c, 0) == c
  {
  }

  lemma ReleaseBelowNone(rob: seq<Entry>, e: Entry)
    requires |e.bySource| == NUM_INSTR_SOURCES
    ensures ReleaseBelow(rob, e, 0) == rob && Woken(rob, e, 0) == []
  {
  }

  lemma WakesDependents(rob: seq<Entry>, e: Entry, i: nat)
    requires i < |rob| && |e.bySource| == NUM_INSTR_SOURCES
    ensures Wakes(rob, e, i) ==> i in e.dependents
  {
  }

  lemma ScheduleNext(s: State, i: nat)
    requires Inv(s) && s.head <= i < |s.rob| && Eligible(s, i) && s.rob[i].scheduled == Idle && ScheduledUpTo(s, i)
    ensures Next(s, i)
  {
    assert s.rob[i] != EMPTY_ENTRY && Live(s, i);
  }

  lemma HeadInBuffer(s: State)
    requires Inv(s)
    ensures s.head < |s.rob|
  {
  }

  lemma SlotOfPiece(s: State, i: nat, lap: nat)
    requires Inv(s) && i < |s.rob| && ((lap == 0 && s.head <= i) || (lap == |s.rob| && i < s.head))
    ensures RingShape(s) && Slot(s, i + lap - s.head) == i
  {
  }

  lemma QueueFronts(s: State)
    requires Inv(s)
    ensures |s.rte0| > 0 ==> Live(s, s.rte0[0])
    ensures |s.rte1| > 0 ==> Live(s, s.rte1[0])
  {
    var q := s.rte0 + s.rte1;
    if |s.rte0| > 0 { assert q[0] in q && ReadyToExecute(s, q[0]); }
    if |s.rte1| > 0 { assert q[|s.rte0|] in q && ReadyToExecute(s, q[|s.rte0|]); }
  }

  lemma EmptyHead(s: State)
    requires Inv(s)
    ensures s.rob[s.head].instr.ip == 0 <==> s.occ == 0
  {
    if s.occ == 0 { assert s.rob[s.head] == EMPTY_ENTRY; }
    else { assert Live(s, s.head) && EntryShape(s.rob[s.head]); }
  }

  // ----- the core

  lemma TailIsEmpty(s: State)
    requires Inv(s) && s.occ < |s.rob|
    ensures s.tail < |s.rob| && s.rob[s.tail] == EMPTY_ENTRY
  {
    assert !Live(s, s.tail);
  }

  lemma MarkingStays(s: State, s': State, c: nat, e: Entry)
    requires Marking(s) && c < |s.rob| && s'.rob == s.rob[c := e]
    requires s'.head == s.head && s'.tail == s.tail && s'.occ == s.occ && s'.retired == s.retired && s'.trace == s.trace
    requires e.bySource == s.rob[c].bySource && e.checked == s.rob[c].checked && e.instr == s.rob[c].instr
    ensures Marking(s')
  {
  }

  class Core {
    const size: nat
    const schedulingLatency: nat
    const execLatency: nat
    const rob: array<Entry>
    const rte0: Ring
    const rte1: Ring
    var head: nat
    var tail: nat
    var occupancy: nat
    var nextSchedule: nat
    var clock: nat
    var inflightReg: int
    var inflightMem: int
    var completedExecutions: int
    ghost var trace: seq<Instr>
    ghost var retired: nat
    ghost var issued: seq<nat>

    ghost function Repr(): set<object> {
      {this, rob, rte0, rte0.slots, rte1, rte1.slots}
    }

    /** The objects fit together; the invariants of the scheduler may be broken for a moment. */
    ghost predicate Layout()
      reads this, rob, rte0, rte0.slots, rte1, rte1.slots
    {
      && rob.Length == size
      && rte0 != rte1 && rte0.slots != rte1.slots
      && rte0.Valid() && rte1.Valid()
      && rte0.size == rte1.size == rte0.empty == rte1.empty == size
      && Marking(St())
    }

    ghost predicate Valid()
      reads this, rob, rte0, rte0.slots, rte1, rte1.slots
    {
      Layout() && Inv(St())
    }

    ghost function St(): State
      reads this, rob, rte0, rte1
    {
      State(rob[..], head, tail, occupancy, nextSchedule, rte0.contents, rte1.contents,
            clock, schedulingLatency, execLatency, inflightReg, inflightMem, completedExecutions,
            trace, retired, issued)
    }

    constructor (size: nat, schedulingLatency: nat, execLatency: nat)
      requires size >= 2
      ensures Valid() && fresh(Repr())
      ensures St() == Initial(size, schedulingLatency, execLatency)
    {
      hide Inv, Wrap, AgeFrom;
      this.size, this.schedulingLatency, this.execLatency := size, schedulingLatency, execLatency;
      rob := new Entry[size](_ => EMPTY_ENTRY);
      rte0 := new Ring(size, size);
      rte1 := new Ring(size, size);
      head, tail, occupancy, nextSchedule, clock := 0, 0, 0, 0, 0;
      inflightReg, inflightMem, completedExecutions := 0, 0, 0;
      trace, retired, issued := [], 0, [];
      new;
      assert rob[..] == seq(size, i => EMPTY_ENTRY);
      InitialInv(size, schedulingLatency, execLatency);
      InvMarking(St());
    }

    /** add_to_rob; its check that the slot at the tail is empty holds. */
    method AddToRob(x: Instr)
      requires Valid() && MayDispatch(St(), x)
      modifies this, rob
      ensures Valid() && old(tail) < size && old(rob[tail]) == EMPTY_ENTRY && St() == Dispatch(old(St()), x)
    {
      TailIsEmpty(St());
      DispatchKeepsInv(St(), x);
      InvMarking(Dispatch(St(), x));
      hide Inv, Marking;
      PlaceAtTail(x);
    }

    method PlaceAtTail(x: Instr)
      requires rob.Length == size && tail < size && occupancy < size
      requires RingShape(St())
      modifies this`occupancy, this`tail, this`trace, rob
      ensures St() == Dispatch(old(St()), x)
    {
      rob[tail] := Fresh(x, clock);
      occupancy := occupancy + 1;
      tail := tail + 1;
      if tail >= size { tail := 0; }
      trace := trace + [x];
    }

    /** reg_RAW_dependency. */
    method RegRawDependency(prior: nat, current: nat, j: nat) returns (ghost found: bool)
      requires Layout() && prior < size && current < size && prior != current && j < NUM_INSTR_SOURCES
      requires rob[current].instr.sources[j] != 0
      modifies rob
      ensures Layout()
      ensures found <==> old(rob[current].instr.sources[j] in rob[prior].instr.destinations)
      ensures !found ==> rob[..] == old(rob[..])
      ensures found ==> rob[..] == old(rob[..])[prior := AddConsumer(old(rob[prior]), current, j)][current := AddProducer(old(rob[current]), j)]
    {
      var dests := rob[prior].instr.destinations;
      for i := 0 to |dests|
        invariant rob[..] == old(rob[..])
        invariant forall k :: 0 <= k < i ==> dests[k] != rob[current].instr.sources[j]
      {
        if dests[i] == 0 { continue; }
        if dests[i] == rob[current].instr.sources[j] {
          rob[prior] := AddConsumer(rob[prior], current, j);
          rob[current] := AddProducer(rob[current], j);
          found := true;
          return;
        }
      }
      found := false;
    }

    /** The body of the scans of reg_dependency: entry `prior` against every source of `c`. */
    method CheckPrior(prior: nat, c: nat, ghost s: State, ghost ps: seq<Option<nat>>) returns (ghost qs: seq<Option<nat>>)
      requires Layout() && Marking(s) && c < size && prior < size && |s.rob| == size
      requires St() == s.(rob := rob[..])
      requires prior != c && Age(s, prior) < Age(s, c)
      requires Found(s, c, ps, Age(s, prior) + 1) && rob[..] == Mark(s.rob, c, ps)
      modifies rob
      ensures Layout() && Found(s, c, qs, Age(s, prior)) && rob[..] == Mark(s.rob, c, qs)
    {
      hide Mark, ProducerFrom;
      qs := ps;
      ProducersOneLower(s, c, prior, ps);
      MarkKeepsExecuted(s.rob, c, ps, prior);
      if rob[prior].executed != Completed {
        for j := 0 to NUM_INSTR_SOURCES
          invariant Layout() && |qs| == NUM_INSTR_SOURCES && rob[..] == Mark(s.rob, c, qs)
          invariant forall k: nat :: k < j ==> qs[k] == ProducerFrom(s, c, k, Age(s, prior))
          invariant forall k: nat :: j <= k < NUM_INSTR_SOURCES ==> qs[k] == ps[k]
        {
          qs := CheckSource(prior, c, j, s, qs);
        }
      }
    }

    /** Entry `prior` against source `j` of `c`. */
    method CheckSource(prior: nat, c: nat, j: nat, ghost s: State, ghost ps: seq<Option<nat>>) returns (ghost qs: seq<Option<nat>>)
      requires Layout() && Marking(s) && c < size && prior < size && prior != c && j < NUM_INSTR_SOURCES
      requires |s.rob| == size && |ps| == NUM_INSTR_SOURCES && rob[..] == Mark(s.rob, c, ps)
      requires s.rob[prior].executed != Completed
      modifies rob
      ensures Layout() && |qs| == NUM_INSTR_SOURCES && rob[..] == Mark(s.rob, c, qs)
      ensures qs == if ps[j].None? && s.rob[c].instr.sources[j] != 0 && !s.rob[c].checked[j]
                       && s.rob[c].instr.sources[j] in s.rob[prior].instr.destinations
                    then ps[j := Some(prior)] else ps
    {
      qs := ps;
      assert rob[c] == rob[..][c] == MarkConsumer(s.rob[c], ps);
      assert rob[prior] == rob[..][prior] == MarkProducer(s.rob[prior], prior, c, ps);
      if rob[c].instr.sources[j] != 0 && !rob[c].checked[j] {
        ghost var found := RegRawDependency(prior, c, j);
        if found {
          MarkStep(s.rob, c, qs, j, prior);
          qs := qs[j := Some(prior)];
        }
      }
    }

    /** A scan of reg_dependency from the slot below `hi` down to `lo`; `lap` is the size if these slots lie before the head. */
    method ScanBack(hi: nat, lo: nat, c: nat, ghost lap: nat, ghost s: State, ghost ps: seq<Option<nat>>) returns (ghost qs: seq<Option<nat>>)
      requires Layout() && Marking(s) && c < size && |s.rob| == size && lo <= hi <= size
      requires St() == s.(rob := rob[..])
      requires (lap == 0 && head <= lo) || (lap == size && hi <= head)
      requires hi + lap - head <= Age(s, c)
      requires Found(s, c, ps, hi + lap - head) && rob[..] == Mark(s.rob, c, ps)
      modifies rob
      ensures Layout() && Found(s, c, qs, lo + lap - head) && rob[..] == Mark(s.rob, c, qs)
    {
      qs := ps;
      for i := hi downto lo
        invariant Layout() && Found(s, c, qs, i + lap - head) && rob[..] == Mark(s.rob, c, qs)
      {
        assert Age(s, i) == i + lap - head;
        qs := CheckPrior(i, c, s, qs);
      }
    }

    /** reg_dependency: from the entry before `c` back to the head, around the end of the buffer if need be. */
    method RegDependency(c: nat)
      requires Layout() && Live(St(), c)
      modifies rob
      ensures Layout() && rob[..] == Mark(old(rob[..]), c, Producers(old(St()), c))
    {
      hide Mark, Found, ProducerFrom, Producers;
      ghost var s := St();
      ghost var ps: seq<Option<nat>> := [None, None, None, None];
      MarkNone(s.rob, c);
      FoundNone(s, c);
      var prior: int := c - 1;
      if prior < 0 { prior := size - 1; }
      if c != head {
        if head <= prior {
          ps := ScanBack(prior + 1, head, c, 0, s, ps);
        } else {
          ps := ScanBack(prior + 1, 0, c, size, s, ps);
          ps := ScanBack(size, head, c, 0, s, ps);
        }
      }
      FoundAll(s, c, ps);
    }

    /** do_scheduling; the check that the slot at RTE1's tail is free never fails. */
    method DoSchedulingAt(c: nat)
      requires Valid() && Next(St(), c)
      modifies this, rob, rte1, rte1.slots
      ensures Valid() && St() == DoScheduling(old(St()), c)
    {
      hide Inv;
      ghost var s := St();
      SchedulingKeepsInv(s, c);
      QueuesFit(DoScheduling(s, c));
      rob[c] := rob[c].(regReady := true);
      ghost var s0 := s.(rob := s.rob[c := s.rob[c].(regReady := true)]);
      ProducersIgnoreReady(s, c);
      assert St() == s0;
      RegDependency(c);
      ghost var s1 := s0.(rob := Mark(s0.rob, c, Producers(s, c)));
      assert St() == s1;
      FinishScheduling(c);
      assert St() == DoScheduling(s, c);
      InvMarking(St());
    }

    /** The end of do_scheduling: what follows the dependency check. */
    method FinishScheduling(c: nat)
      requires Layout() && c < size
      requires !rob[c].instr.IsMemory() && rob[c].regReady ==> |rte1.contents| < size
      modifies this, rob, rte1, rte1.slots
      ensures Layout()
      ensures var s, e := old(St()), old(rob[c]);
              var next := if c == size - 1 then 0 else c + 1;
              St() == if e.instr.IsMemory() then s.(rob := s.rob[c := e.(scheduled := Inflight)], nextSchedule := next)
                      else s.(rob := s.rob[c := e.(scheduled := Completed, eventCycle := Later(e.eventCycle, s.clock, s.schedulingLatency))],
                              nextSchedule := next,
                              rte1 := if e.regReady then s.rte1 + [c] else s.rte1)
    {
      hide Marking;
      ghost var s := St();
      var e := rob[c];
      nextSchedule := if c == size - 1 then 0 else c + 1;
      if e.instr.IsMemory() {
        e := e.(scheduled := Inflight);
      } else {
        e := e.(scheduled := Completed);
        if e.eventCycle < clock {
          e := e.(eventCycle := clock + schedulingLatency);
        } else {
          e := e.(eventCycle := e.eventCycle + schedulingLatency);
        }
        if e.regReady {
          rte1.Push(c);
        }
      }
      SetEntry(c, e);
      MarkingStays(s, St(), c, e);
    }

    /** The body of the scan of schedule_instruction. */
    method ScheduleSlot(i: nat)
      requires Valid() && head <= i < size && Eligible(St(), i) && ScheduledUpTo(St(), i)
      modifies this, rob, rte1, rte1.slots
      ensures Valid() && ScheduledUpTo(St(), i + 1) && head == old(head) && clock == old(clock)
      ensures St() == if old(St()).rob[i].scheduled == Idle then DoScheduling(old(St()), i) else old(St())
    {
      hide Inv, ScheduledUpTo;
      ScheduleOne(St(), i);
      if rob[i].scheduled == Idle {
        ScheduleNext(St(), i);
        DoSchedulingAt(i);
      }
    }

    /** schedule_instruction; its limit is the initial 0, so only the scan to the end of the buffer runs. */
    method ScheduleInstruction()
      requires Valid()
      modifies this, rob, rte1, rte1.slots
      ensures Valid() && St() == Schedule(old(St()))
    {
      hide Inv, DoScheduling;
      if head == tail && occupancy == 0 { return; }
      ghost var s := St();
      var searched := 0;
      for i := head to size
        invariant Valid() && head == s.head && ScheduledUpTo(St(), i)
        invariant ScheduleFrom(s, s.head, 0) == ScheduleFrom(St(), i, searched)
      {
        if rob[i].fetched != Completed || rob[i].eventCycle > clock || searched >= SCHEDULER_SIZE {
          return;
        }
        ScheduleSlot(i);
        searched := searched + 1;
      }
    }

    /** do_execution. */
    method DoExecutionAt(i: nat)
      requires Layout() && Live(St(), i)
      modifies this, rob
      ensures Layout() && St() == DoExecution(old(St()), i)
    {
      ghost var s := St();
      var e := rob[i].(executed := Inflight);
      if e.eventCycle < clock {
        e := e.(eventCycle := clock + execLatency);
      } else {
        e := e.(eventCycle := e.eventCycle + execLatency);
      }
      rob[i] := e;
      inflightReg := inflightReg + 1;
      issued := issued + [Pos(s, i)];
      assert rob[..] == s.rob[i := e];
    }

    /** The oldest entry of RTE0 goes to execution. */
    method IssueFront0(i: nat)
      requires Valid() && rte0.contents != [] && i == rte0.contents[0] && Live(St(), i)
      modifies this, rob, rte0, rte0.slots
      ensures Valid() && St() == IssueFrom0(old(St()))
    {
      hide Inv;
      Issue0KeepsInv(St());
      DoExecutionAt(i);
      rte0.Pop();
      InvMarking(St());
    }

    method IssueFront1(i: nat)
      requires Valid() && rte1.contents != [] && i == rte1.contents[0] && Live(St(), i)
      modifies this, rob, rte1, rte1.slots
      ensures Valid() && St() == IssueFrom1(old(St()))
    {
      hide Inv;
      Issue1KeepsInv(St());
      DoExecutionAt(i);
      rte1.Pop();
      InvMarking(St());
    }

    /** execute_instruction; an entry that is not due blocks its ring until the iteration count ends the loop. */
    method ExecuteInstruction()
      requires Valid()
      modifies this, rob, rte0, rte0.slots, rte1, rte1.slots
      ensures Valid() && St() == Execute(old(St()))
    {
      if head == tail && occupancy == 0 { return; }
      var execIssued := ExecuteReleased();
      ExecuteRest(execIssued);
    }

    /** The first loop of execute_instruction. */
    method ExecuteReleased() returns (execIssued: nat)
      requires Valid()
      modifies this, rob, rte0, rte0.slots
      ensures Valid() && Execute0(old(St()), 0) == (St(), execIssued)
    {
      hide Inv, IssueFrom0, Wrap, AgeFrom;
      ghost var s := St();
      var numIteration := 0;
      execIssued := 0;
      while execIssued < EXEC_WIDTH
        invariant Valid() && execIssued <= numIteration < size - 1
        invariant Execute0(s, 0) == if execIssued == numIteration then Execute0(St(), execIssued) else (St(), execIssued)
        invariant execIssued < numIteration ==> rte0.contents != [] && Live(St(), rte0.contents[0]) && rob[rte0.contents[0]].eventCycle > clock
        decreases size - numIteration
      {
        QueueFronts(St());
        var i := rte0.Front();
        if i < size {
          if rob[i].eventCycle <= clock {
            IssueFront0(i);
            execIssued := execIssued + 1;
          }
        } else {
          break;
        }
        numIteration := numIteration + 1;
        if numIteration == size - 1 { break; }
      }
    }

    /** The second loop of execute_instruction. */
    method ExecuteRest(count: nat)
      requires Valid()
      modifies this, rob, rte1, rte1.slots
      ensures Valid() && St() == Execute1(old(St()), count, 0)
    {
      hide Inv, IssueFrom1, Wrap, AgeFrom;
      ghost var s := St();
      var execIssued, numIteration := count, 0;
      while execIssued < EXEC_WIDTH
        invariant Valid() && execIssued <= count + numIteration && numIteration < size - 1
        invariant Execute1(s, count, 0) == if execIssued == count + numIteration then Execute1(St(), execIssued, numIteration) else St()
        invariant execIssued < count + numIteration ==> rte1.contents != [] && Live(St(), rte1.contents[0]) && rob[rte1.contents[0]].eventCycle > clock
        decreases size - numIteration
      {
        QueueFronts(St());
        var i := rte1.Front();
        if i < size {
          if rob[i].eventCycle <= clock {
            IssueFront1(i);
            execIssued := execIssued + 1;
          }
        } else {
          break;
        }
        numIteration := numIteration + 1;
        if numIteration == size - 1 { break; }
      }
    }

    /** reg_RAW_release for source `j` of consumer `i` of entry `e`. */
    method ReleaseSource(e: Entry, i: nat, j: nat, ghost c: Entry)
      requires Layout() && i < size && j < |e.bySource| && i in e.bySource[j]
      requires rob[i] == ReleaseEntry(c, Released(e, i, j)) && Released(e, i, j + 1) <= c.numRegDependent
      requires Freed(c, e, i, j + 1) ==> |rte0.contents| < size
      modifies rob, rte0, rte0.slots
      ensures Layout()
      ensures rob[..] == old(rob[..])[i := ReleaseEntry(c, Released(e, i, j + 1))]
      ensures rte0.contents == old(rte0.contents) + if Freed(c, e, i, j + 1) then [i] else []
    {
      hide Wrap, AgeFrom;
      var x := rob[i];
      x := x.(numRegDependent := x.numRegDependent - 1);
      if x.numRegDependent == 0 {
        x := x.(regReady := true);
        if x.instr.IsMemory() {
          x := x.(scheduled := Inflight);
        } else {
          x := x.(scheduled := Completed);
          rte0.Push(i);
        }
      }
      rob[i] := x;
      assert rob[..] == old(rob[..])[i := x];
    }

    /** The inner loop of reg_RAW_release: consumer `i` of entry `e`, source by source. */
    method ReleaseConsumer(e: Entry, i: nat)
      requires Layout() && i < size && |e.bySource| == NUM_INSTR_SOURCES && i in e.dependents
      requires Released(e, i, NUM_INSTR_SOURCES) <= rob[i].numRegDependent
      requires Wakes(rob[..], e, i) ==> |rte0.contents| < size
      modifies rob, rte0, rte0.slots
      ensures Layout()
      ensures rob[..] == old(rob[..])[i := ReleaseEntry(old(rob[i]), Released(e, i, NUM_INSTR_SOURCES))]
      ensures rte0.contents == old(rte0.contents) + if Wakes(old(rob[..]), e, i) then [i] else []
    {
      hide ReleaseEntry, Marking, Wrap, AgeFrom;
      ghost var before, queue, c := rob[..], rte0.contents, rob[i];
      ReleaseNothing(c);
      for j := 0 to NUM_INSTR_SOURCES
        invariant Layout()
        invariant rob[..] == before[i := ReleaseEntry(c, Released(e, i, j))]
        invariant rte0.contents == queue + if Freed(c, e, i, j) then [i] else []
      {
        ReleasedGrows(e, i, j + 1, NUM_INSTR_SOURCES);
        if i in e.bySource[j] {
          assert rob[i] == rob[..][i];
          ReleaseSource(e, i, j, c);
        }
      }
    }

    /** reg_RAW_release of the completed entry `p`; the check on RTE0's tail never fails. */
    method RegRawRelease(p: nat)
      requires Layout() && p < size && p !in rob[p].dependents
      requires forall i: nat | i in rob[p].dependents :: i < size && Released(rob[p], i, NUM_INSTR_SOURCES) <= rob[i].numRegDependent
      requires |rte0.contents| + |Woken(rob[..], rob[p], size)| <= size
      modifies rob, rte0, rte0.slots
      ensures Layout()
      ensures rob[..] == ReleaseBelow(old(rob[..]), old(rob[p]), size)
      ensures rte0.contents == old(rte0.contents) + Woken(old(rob[..]), old(rob[p]), size)
    {
      hide ReleaseBelow, ReleaseEntry, Wakes, Woken, Wrap, AgeFrom;
      ghost var before := rob[..];
      ghost var queue := rte0.contents;
      var e := rob[p];
      ReleaseBelowNone(before, e);
      for i := 0 to size
        invariant Layout()
        invariant rob[..] == ReleaseBelow(before, e, i)
        invariant rte0.contents == queue + Woken(before, e, i)
      {
        WokenGrows(before, e, i + 1, size);
        ReleaseIfDependent(e, i, before, queue);
      }
    }

    /** One step of the outer loop of reg_RAW_release. */
    method ReleaseIfDependent(e: Entry, i: nat, ghost before: seq<Entry>, ghost queue: seq<nat>)
      requires Layout() && i < size == |before| && |e.bySource| == NUM_INSTR_SOURCES
      requires rob[..] == ReleaseBelow(before, e, i) && rte0.contents == queue + Woken(before, e, i)
      requires i in e.dependents ==> Released(e, i, NUM_INSTR_SOURCES) <= before[i].numRegDependent
      requires |queue| + |Woken(before, e, i + 1)| <= size
      modifies rob, rte0, rte0.slots
      ensures Layout()
      ensures rob[..] == ReleaseBelow(before, e, i + 1) && rte0.contents == queue + Woken(before, e, i + 1)
    {
      hide ReleaseBelow, ReleaseEntry, Wakes;
      ReleaseStep(before, e, i);
      WakesDependents(before, e, i);
      if i in e.dependents {
        assert rob[i] == rob[..][i] == before[i];
        ReleaseConsumer(e, i);
      }
    }

    /** complete_execution. */
    method CompleteExecutionAt(i: nat)
      requires Valid() && i < size
      modifies this, rob, rte0, rte0.slots
      ensures Valid() && St() == CompleteExecution(old(St()), i)
      ensures !Live(old(St()), i) ==> St() == old(St())
      ensures head == old(head) && tail == old(tail) && occupancy == old(occupancy)
    {
      hide Inv;
      if rob[i].executed == Inflight && rob[i].eventCycle <= clock && (rob[i].instr.IsMemory() ==> rob[i].numMemOps == 0) {
        assert Live(St(), i) by { if !Live(St(), i) { EmptyNotCompletable(St(), i); } }
        Complete(i);
      }
    }

    method SetEntry(i: nat, e: Entry)
      requires i < rob.Length
      modifies rob
      ensures rob[..] == old(rob[..])[i := e]
    {
      rob[i] := e;
    }

    /** The counters of a completed entry. */
    method CountCompletion(memory: bool)
      modifies this`inflightMem, this`inflightReg, this`completedExecutions
      ensures completedExecutions == old(completedExecutions) + 1
      ensures inflightMem == old(inflightMem) - (if memory then 1 else 0)
      ensures inflightReg == old(inflightReg) - (if memory then 0 else 1)
    {
      if memory { inflightMem := inflightMem - 1; } else { inflightReg := inflightReg - 1; }
      completedExecutions := completedExecutions + 1;
    }

    /** The completing branch of complete_execution. */
    method Complete(i: nat)
      requires Valid() && Live(St(), i) && Completable(St(), i)
      modifies this, rob, rte0, rte0.slots
      ensures Valid() && St() == CompleteExecution(old(St()), i)
    {
      hide Inv, ReleaseBelow, Woken, Released;
      ghost var s := St();
      CompletionKeepsInv(s, i);
      InvMarking(CompleteExecution(s, i));
      DependentsCountIt(s, i);
      var e := rob[i].(executed := Completed);
      SetEntry(i, e);
      ghost var rob1 := s.rob[i := e];
      CountCompletion(e.instr.IsMemory());
      if e.isProducer {
        assert rob[i] == rob[..][i] == e;
        RegRawRelease(i);
      }
      assert St() == CompleteExecution(s, i);
    }

    /** A scan of update_rob over the slots from `lo` to `hi`; `lap` is the size if these slots lie before the head. */
    method CompletePiece(lo: nat, hi: nat, ghost lap: nat)
      requires Valid() && lo <= hi <= size
      requires (lap == 0 && head <= lo) || (lap == size && hi <= head)
      requires occupancy > 0 ==> hi + lap - head <= occupancy
      modifies this, rob, rte0, rte0.slots
      ensures Valid() && head == old(head) && tail == old(tail) && occupancy == old(occupancy)
      ensures if occupancy == 0 then St() == old(St())
              else hi + lap - head <= occupancy && CompleteFrom(old(St()), lo + lap - head) == CompleteFrom(St(), hi + lap - head)
    {
      hide Inv, CompleteFrom, Wrap, AgeFrom, Marking;
      ghost var s := St();
      HeadInBuffer(s);
      for i := lo to hi
        invariant Valid() && head == s.head && tail == s.tail && occupancy == s.occ
        invariant if occupancy == 0 then St() == s else CompleteFrom(s, lo + lap - head) == CompleteFrom(St(), i + lap - head)
      {
        CompleteNext(i, lap);
      }
    }

    /** One step of the scan, at slot `i`. */
    method CompleteNext(i: nat, ghost lap: nat)
      requires Valid() && i < size && ((lap == 0 && head <= i) || (lap == size && i < head))
      requires occupancy > 0 ==> i + lap - head < occupancy
      modifies this, rob, rte0, rte0.slots
      ensures Valid() && head == old(head) && tail == old(tail) && occupancy == old(occupancy)
      ensures if occupancy == 0 then St() == old(St())
              else CompleteFrom(old(St()), i + lap - head) == CompleteFrom(St(), i + 1 + lap - head)
    {
      hide Inv, CompleteExecution, Wrap, AgeFrom, Marking;
      HeadInBuffer(St());
      if occupancy > 0 { SlotOfPiece(St(), i, lap); }
      CompleteExecutionAt(i);
    }

    /** The part of update_rob that completes executions, over the live part of the ring. */
    method UpdateRobEntries()
      requires Valid()
      modifies this, rob, rte0, rte0.slots
      ensures Valid() && St() == UpdateRob(old(St()))
    {
      hide Inv, CompleteExecution;
      if inflightReg > 0 || inflightMem > 0 {
        if head < tail {
          CompletePiece(head, tail, 0);
        } else {
          CompletePiece(head, size, 0);
          CompletePiece(0, tail, size);
        }
      }
    }

    /** retire_rob; `limit` is the retire width, or less once the write queue of the L1D is full. */
    method RetireRob(limit: nat)
      requires Valid()
      modifies this, rob
      ensures Valid() && St() == Retire(old(St()), limit)
    {
      hide Inv, RetireHead, Wrap, AgeFrom;
      ghost var s := St();
      for n := 0 to limit
        invariant Valid()
        invariant Retire(s, limit) == Retire(St(), limit - n)
      {
        EmptyHead(St());
        if rob[head].instr.ip == 0 { return; }
        if rob[head].executed != Completed { return; }
        RetireOne();
      }
    }

    /** The release of the oldest entry. */
    method RetireOne()
      requires Valid() && occupancy > 0 && head < size && rob[head].executed == Completed
      modifies this, rob
      ensures Valid() && St() == RetireHead(old(St()))
    {
      hide Inv, Marking, AgeFrom;
      ghost var s := St();
      RetireKeepsInv(s);
      InvMarking(RetireHead(s));
      rob[head] := EMPTY_ENTRY;
      assert rob[..] == s.rob[s.head := EMPTY_ENTRY];
      head := head + 1;
      if head == size { head := 0; }
      occupancy := occupancy - 1;
      completedExecutions := completedExecutions - 1;
      retired := retired + 1;
      assert St() == RetireHead(s);
    }

    /** One load or store of slot `i` has finished; the load/store queue decides which. */
    method FinishMemoryOp(i: nat, eventCycle: nat)
      requires Valid() && MayFinish(St(), i)
      modifies this, rob
      ensures Valid() && St() == MemoryOpDone(old(St()), i, eventCycle)
    {
      hide Inv;
      ghost var s := St();
      MemoryOpDoneKeepsInv(s, i, eventCycle);
      var e := rob[i].(numMemOps := rob[i].numMemOps - 1, eventCycle := eventCycle);
      rob[i] := e;
      if e.numMemOps == 0 { inflightMem := inflightMem + 1; }
      assert rob[..] == s.rob[i := e];
      InvMarking(St());
    }

    /** do_memory_scheduling once check_and_add_lsq has queued every operation of slot `i`. */
    method FinishMemoryScheduling(i: nat)
      requires Valid() && MaySchedule(St(), i)
      modifies this, rob
      ensures Valid() && St() == MemoryScheduled(old(St()), i)
    {
      hide Inv;
      ghost var s := St();
      MemoryScheduledKeepsInv(s, i);
      var e := rob[i].(scheduled := Completed);
      if e.executed == Idle { e := e.(executed := Inflight); }
      rob[i] := e;
      assert rob[..] == s.rob[i := e];
      InvMarking(St());
    }
  }
}
