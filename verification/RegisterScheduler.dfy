/**
 The register scheduler of the out-of-order core: the reorder buffer as a ring of entries,
 the marking of read-after-write dependencies, the two ready-to-execute queues, completion,
 wake-up and in-order retirement.  This module is the specification: pure states, pure steps
 and the invariants that every step keeps.
 */
module RegisterScheduler {
  import opened Common

  const NUM_INSTR_SOURCES: nat := 4
  const SCHEDULER_SIZE: nat := 128
  const EXEC_WIDTH: nat := 6

  /** What the trace says of one instruction; register 0 means "no register". */
  datatype Instr = Instr(ip: nat, sources: seq<nat>, destinations: seq<nat>, memOps: nat)
  {
    predicate IsMemory() { memOps > 0 }

    ghost predicate WellFormed() { ip != 0 && |sources| == NUM_INSTR_SOURCES }
  }

  datatype Entry = Entry(
    instr: Instr,
    eventCycle: nat,
    fetched: Status,
    scheduled: Status,
    executed: Status,
    regReady: bool,
    checked: seq<bool>,          // reg_RAW_checked
    numRegDependent: int,
    numMemOps: int,
    isProducer: bool,            // reg_RAW_producer
    dependents: set<nat>,        // registers_instrs_depend_on_me
    bySource: seq<set<nat>>)     // registers_index_depend_on_me

  const NO_INSTR := Instr(0, [0, 0, 0, 0], [], 0)

  const EMPTY_ENTRY := Entry(NO_INSTR, 0, Idle, Idle, Idle, false, [false, false, false, false],
                             0, 0, false, {}, [{}, {}, {}, {}])

  /** A freshly dispatched entry: decoding has already waited for the fetch. */
  function Fresh(x: Instr, clock: nat): Entry {
    EMPTY_ENTRY.(instr := x, eventCycle := clock, fetched := Completed, numMemOps := x.memOps)
  }

  /**
   The state of the scheduler.  `rte0` and `rte1` are the contents of the two ready rings,
   oldest first.  `trace`, `retired` and `issued` are history: the instructions dispatched so
   far, how many of them have retired, and the trace positions sent to execution, in order.
   */
  datatype State = State(
    rob: seq<Entry>, head: nat, tail: nat, occ: nat, nextSchedule: nat,
    rte0: seq<nat>, rte1: seq<nat>,
    clock: nat, schedulingLatency: nat, execLatency: nat,
    inflightReg: int, inflightMem: int, completedExecutions: int,
    trace: seq<Instr>, retired: nat, issued: seq<nat>)

  // ----- positions in the ring

  predicate RingShape(s: State) {
    && 2 <= |s.rob|
    && s.head < |s.rob| && s.occ <= |s.rob|
    && s.tail == Wrap(|s.rob|, s.head + s.occ) && s.tail < |s.rob|
    && |s.trace| == s.retired + s.occ
  }

  function Age(s: State, i: nat): nat
    requires s.head < |s.rob| && i < |s.rob|
  {
    AgeFrom(s.head, |s.rob|, i)
  }

  function Slot(s: State, age: nat): nat
    requires RingShape(s) && age < |s.rob|
  {
    Wrap(|s.rob|, s.head + age)
  }

  predicate Live(s: State, i: nat) {
    s.head < |s.rob| && i < |s.rob| && Age(s, i) < s.occ
  }

  /** The trace position of the instruction in live slot `i`. */
  function Pos(s: State, i: nat): nat
    requires Live(s, i)
  {
    s.retired + Age(s, i)
  }

  ghost predicate EntryShape(e: Entry) {
    && e.instr.WellFormed()
    && |e.checked| == NUM_INSTR_SOURCES
    && |e.bySource| == NUM_INSTR_SOURCES
    && e.fetched == Completed
  }

  /** Live slots hold the instructions of the trace in order, the others are empty. */
  ghost predicate Shape(s: State) {
    && RingShape(s)
    && (forall i: nat :: Live(s, i) ==> EntryShape(s.rob[i]) && s.rob[i].instr == s.trace[Pos(s, i)])
    && (forall i: nat :: i < |s.rob| && !Live(s, i) ==> s.rob[i] == EMPTY_ENTRY)
  }

  // ----- dependency marking

  /** The youngest incomplete entry of age below `age` that writes register `r`. */
  function YoungestWriter(s: State, age: nat, r: nat): Option<nat>
    requires RingShape(s) && age <= |s.rob|
    decreases age
  {
    if age == 0 then None
    else
      var p := Slot(s, age - 1);
      if s.rob[p].executed != Completed && r in s.rob[p].instr.destinations then Some(p)
      else YoungestWriter(s, age - 1, r)
  }

  function Producer(s: State, c: nat, j: nat): Option<nat>
    requires RingShape(s) && c < |s.rob| && j < |s.rob[c].instr.sources| && j < |s.rob[c].checked|
  {
    var r := s.rob[c].instr.sources[j];
    if r == 0 || s.rob[c].checked[j] then None else YoungestWriter(s, Age(s, c), r)
  }

  function CountSome(ps: seq<Option<nat>>): nat {
    if |ps| == 0 then 0 else CountSome(ps[..|ps| - 1]) + (if ps[|ps| - 1].Some? then 1 else 0)
  }

  /** Entry `p` after consumer `c` has been recorded for every source that `ps` gives to `p`. */
  function MarkProducer(e: Entry, p: nat, c: nat, ps: seq<Option<nat>>): Entry
    requires |ps| == |e.bySource| == NUM_INSTR_SOURCES
  {
    e.(dependents := if Some(p) in ps then e.dependents + {c} else e.dependents,
       isProducer := e.isProducer || Some(p) in ps,
       bySource := seq(NUM_INSTR_SOURCES, j requires 0 <= j < NUM_INSTR_SOURCES =>
                                            if ps[j] == Some(p) then e.bySource[j] + {c} else e.bySource[j]))
  }

  function MarkConsumer(e: Entry, ps: seq<Option<nat>>): Entry
    requires |ps| == |e.checked| == NUM_INSTR_SOURCES
  {
    e.(regReady := e.regReady && CountSome(ps) == 0,
       numRegDependent := e.numRegDependent + CountSome(ps),
       checked := seq(NUM_INSTR_SOURCES, j requires 0 <= j < NUM_INSTR_SOURCES => e.checked[j] || ps[j].Some?))
  }

  function Mark(rob: seq<Entry>, c: nat, ps: seq<Option<nat>>): (r: seq<Entry>)
    requires |ps| == NUM_INSTR_SOURCES
    requires forall i :: 0 <= i < |rob| ==> |rob[i].bySource| == |rob[i].checked| == NUM_INSTR_SOURCES
    ensures |r| == |rob|
  {
    seq(|rob|, i requires 0 <= i < |rob| =>
                 if i == c then MarkConsumer(rob[i], ps) else MarkProducer(rob[i], i, c, ps))
  }

  predicate Marking(s: State) {
    RingShape(s) && forall i :: 0 <= i < |s.rob| ==>
                                  && |s.rob[i].bySource| == |s.rob[i].checked| == NUM_INSTR_SOURCES
                                  && |s.rob[i].instr.sources| == NUM_INSTR_SOURCES
  }

  function Producers(s: State, c: nat): seq<Option<nat>>
    requires Marking(s) && c < |s.rob|
  {
    seq(NUM_INSTR_SOURCES, j requires 0 <= j < NUM_INSTR_SOURCES => Producer(s, c, j))
  }

  function Later(eventCycle: nat, clock: nat, latency: nat): nat {
    if eventCycle < clock then clock + latency else eventCycle + latency
  }

  /** do_scheduling on slot `c`. */
  function DoScheduling(s: State, c: nat): State
    requires Marking(s) && c < |s.rob|
  {
    var rob0 := s.rob[c := s.rob[c].(regReady := true)];
    var rob1 := Mark(rob0, c, Producers(s, c));
    var e := rob1[c];
    var next := if c == |s.rob| - 1 then 0 else c + 1;
    if e.instr.IsMemory() then
      s.(rob := rob1[c := e.(scheduled := Inflight)], nextSchedule := next)
    else
      s.(rob := rob1[c := e.(scheduled := Completed, eventCycle := Later(e.eventCycle, s.clock, s.schedulingLatency))],
         nextSchedule := next,
         rte1 := if e.regReady then s.rte1 + [c] else s.rte1)
  }

  // ----- execution

  /** do_execution on slot `i`. */
  function DoExecution(s: State, i: nat): State
    requires Live(s, i)
  {
    var e := s.rob[i];
    s.(rob := s.rob[i := e.(executed := Inflight, eventCycle := Later(e.eventCycle, s.clock, s.execLatency))],
       inflightReg := s.inflightReg + 1,
       issued := s.issued + [Pos(s, i)])
  }

  function IssueFrom0(s: State): State
    requires |s.rte0| > 0 && Live(s, s.rte0[0])
  {
    DoExecution(s, s.rte0[0]).(rte0 := s.rte0[1..])
  }

  function IssueFrom1(s: State): State
    requires |s.rte1| > 0 && Live(s, s.rte1[0])
  {
    DoExecution(s, s.rte1[0]).(rte1 := s.rte1[1..])
  }

  // ----- completion and wake-up

  /** For how many of its first `n` sources consumer `i` waits on the entry `e`. */
  function Released(e: Entry, i: nat, n: nat): nat
    requires n <= |e.bySource|
  {
    if n == 0 then 0 else Released(e, i, n - 1) + (if i in e.bySource[n - 1] then 1 else 0)
  }

  function ReleaseEntry(e: Entry, k: nat): Entry {
    var left := e.numRegDependent - k;
    if k > 0 && left == 0 then
      e.(numRegDependent := left, regReady := true, scheduled := if e.instr.IsMemory() then Inflight else Completed)
    else e.(numRegDependent := left)
  }

  predicate Wakes(rob: seq<Entry>, p: Entry, i: nat)
    requires i < |rob| && |p.bySource| == NUM_INSTR_SOURCES
  {
    && i in p.dependents
    && Released(p, i, NUM_INSTR_SOURCES) > 0
    && rob[i].numRegDependent == Released(p, i, NUM_INSTR_SOURCES)
    && !rob[i].instr.IsMemory()
  }

  /** The slots below `n` that entry `p` sends to the ready queue, in increasing order. */
  function Woken(rob: seq<Entry>, p: Entry, n: nat): seq<nat>
    requires n <= |rob| && |p.bySource| == NUM_INSTR_SOURCES
  {
    if n == 0 then []
    else Woken(rob, p, n - 1) + (if Wakes(rob, p, n - 1) then [n - 1] else [])
  }

  /** The buffer after reg_RAW_release of entry `p` has handled the consumers below `n`. */
  function ReleaseBelow(rob: seq<Entry>, p: Entry, n: nat): (r: seq<Entry>)
    requires |p.bySource| == NUM_INSTR_SOURCES
    ensures |r| == |rob|
  {
    seq(|rob|, i requires 0 <= i < |rob| =>
                 if i < n && i in p.dependents then ReleaseEntry(rob[i], Released(p, i, NUM_INSTR_SOURCES)) else rob[i])
  }

  predicate Completable(s: State, i: nat)
    requires i < |s.rob|
  {
    && s.rob[i].executed == Inflight && s.rob[i].eventCycle <= s.clock
    && (s.rob[i].instr.IsMemory() ==> s.rob[i].numMemOps == 0)
  }

  /** complete_execution on slot `i`, including reg_RAW_release. */
  function CompleteExecution(s: State, i: nat): State
    requires i < |s.rob| && |s.rob[i].bySource| == NUM_INSTR_SOURCES
  {
    if !Completable(s, i) then s
    else
      var e := s.rob[i].(executed := Completed);
      var rob := s.rob[i := e];
      var s1 := s.(rob := if e.isProducer then ReleaseBelow(rob, e, |rob|) else rob,
                   rte0 := if e.isProducer then s.rte0 + Woken(rob, e, |rob|) else s.rte0,
                   completedExecutions := s.completedExecutions + 1);
      if e.instr.IsMemory() then s1.(inflightMem := s.inflightMem - 1)
      else s1.(inflightReg := s.inflightReg - 1)
  }

  // ----- the other steps

  /** add_to_rob of instruction `x`. */
  function Dispatch(s: State, x: Instr): State
    requires s.tail < |s.rob|
  {
    s.(rob := s.rob[s.tail := Fresh(x, s.clock)],
       occ := s.occ + 1,
       tail := Wrap(|s.rob|, s.tail + 1),
       trace := s.trace + [x])
  }

  /** One iteration of retire_rob, once the oldest entry may leave. */
  function RetireHead(s: State): State
    requires s.occ > 0 && s.head < |s.rob|
  {
    s.(rob := s.rob[s.head := EMPTY_ENTRY],
       head := Wrap(|s.rob|, s.head + 1),
       occ := s.occ - 1,
       completedExecutions := s.completedExecutions - 1,
       retired := s.retired + 1)
  }

  /** The register scheduler's view of do_memory_scheduling once every operation is queued. */
  function MemoryScheduled(s: State, i: nat): State
    requires i < |s.rob|
  {
    var e := s.rob[i];
    s.(rob := s.rob[i := e.(scheduled := Completed, executed := if e.executed == Idle then Inflight else e.executed)])
  }

  /** One load or store of slot `i` finishes. */
  function MemoryOpDone(s: State, i: nat, eventCycle: nat): State
    requires i < |s.rob|
  {
    var e := s.rob[i];
    s.(rob := s.rob[i := e.(numMemOps := e.numMemOps - 1, eventCycle := eventCycle)],
       inflightMem := if e.numMemOps == 1 then s.inflightMem + 1 else s.inflightMem)
  }

  // ----- invariants

  predicate Scheduled(s: State, i: nat)
    requires i < |s.rob|
  {
    s.rob[i].scheduled != Idle
  }

  /** Scheduling is in order, and an unscheduled entry is still as it was dispatched. */
  ghost predicate InOrder(s: State) {
    && (forall a: nat, b: nat :: Live(s, a) && Live(s, b) && Age(s, a) < Age(s, b) && Scheduled(s, b) ==> Scheduled(s, a))
    && (forall i: nat :: Live(s, i) && !Scheduled(s, i) ==>
                      s.rob[i] == Fresh(s.rob[i].instr, s.rob[i].eventCycle))
  }

  /** A recorded consumer is a younger scheduled entry that reads a register the producer writes. */
  ghost predicate Edge(s: State, p: nat, c: nat, j: nat)
    requires Live(s, p) && 0 <= j < NUM_INSTR_SOURCES
  {
    && Live(s, c) && Age(s, p) < Age(s, c) && Scheduled(s, c)
    && j < |s.rob[c].checked| && j < |s.rob[c].instr.sources|
    && s.rob[c].checked[j]
    && s.rob[c].instr.sources[j] != 0
    && s.rob[c].instr.sources[j] in s.rob[p].instr.destinations
  }

  predicate Recorded(s: State, p: nat, c: nat, j: nat)
    requires p < |s.rob|
  {
    j < |s.rob[p].bySource| && c in s.rob[p].bySource[j]
  }

  ghost predicate Edges(s: State) {
    && (forall p: nat, c: nat, j: nat :: Live(s, p) && Recorded(s, p, c, j) && j < NUM_INSTR_SOURCES ==> Edge(s, p, c, j))
    && (forall p: nat, c: nat, j: nat :: Live(s, p) && Recorded(s, p, c, j) ==> c in s.rob[p].dependents)
    && (forall p: nat, c: nat :: Live(s, p) && c in s.rob[p].dependents ==> exists j: nat :: j < NUM_INSTR_SOURCES && Recorded(s, p, c, j))
    && (forall p: nat :: Live(s, p) && s.rob[p].dependents != {} ==> s.rob[p].isProducer)
  }

  /** Each source of a consumer is recorded with at most one producer. */
  ghost predicate OneProducer(s: State) {
    forall p: nat, q: nat, c: nat, j: nat :: Live(s, p) && Live(s, q) && Recorded(s, p, c, j) && Recorded(s, q, c, j) ==> p == q
  }

  ghost predicate Waits(s: State, c: nat, j: nat) {
    exists p: nat :: Live(s, p) && Recorded(s, p, c, j) && s.rob[p].executed != Completed
  }

  ghost function CountWaits(s: State, c: nat, n: nat): nat {
    if n == 0 then 0 else CountWaits(s, c, n - 1) + (if Waits(s, c, n - 1) then 1 else 0)
  }

  /** num_reg_dependent counts the sources whose recorded producer has not completed. */
  ghost predicate Counts(s: State) {
    forall c: nat :: Live(s, c) && Scheduled(s, c) ==> s.rob[c].numRegDependent == CountWaits(s, c, NUM_INSTR_SOURCES)
  }

  ghost predicate FlagsOf(e: Entry) {
    && (e.scheduled != Idle ==> (e.regReady <==> e.numRegDependent == 0))
    && (e.executed != Idle ==> e.regReady && e.scheduled == Completed)
    && (!e.instr.IsMemory() ==> e.scheduled != Inflight && e.numMemOps == 0)
    && (e.instr.IsMemory() ==> e.numMemOps >= 0)
    && (e.instr.IsMemory() && e.executed == Completed ==> e.numMemOps == 0)
    && (e.instr.IsMemory() && e.numMemOps < e.instr.memOps ==> e.regReady && e.scheduled != Idle)
    && (e.instr.IsMemory() && e.scheduled == Completed ==> e.executed != Idle && e.regReady)
  }

  ghost predicate Flags(s: State) {
    forall i: nat :: Live(s, i) ==> FlagsOf(s.rob[i])
  }

  predicate ReadyToExecute(s: State, i: nat) {
    Live(s, i) && !s.rob[i].instr.IsMemory() && s.rob[i].regReady && s.rob[i].executed == Idle
  }

  /** The two ready queues hold every ready non-memory instruction exactly once, and nothing else. */
  ghost predicate Queues(s: State) {
    && Distinct(s.rte0 + s.rte1)
    && (forall i: nat :: i in s.rte0 + s.rte1 <==> ReadyToExecute(s, i))
  }

  /** The last instruction before position `t` of the trace that writes register `r`. */
  function LastWriter(trace: seq<Instr>, t: nat, r: nat): Option<nat>
    requires t <= |trace|
    decreases t
  {
    if t == 0 then None
    else if r in trace[t - 1].destinations then Some(t - 1)
    else LastWriter(trace, t - 1, r)
  }

  /** The instruction at trace position `t` has completed, possibly long ago. */
  predicate Done(s: State, t: nat) {
    t < s.retired
    || exists i: nat :: i < |s.rob| && Live(s, i) && Pos(s, i) == t && s.rob[i].executed == Completed
  }

  /** The youngest older writer of source `j` of slot `c` has completed or has recorded `c`. */
  ghost predicate Covered(s: State, c: nat, j: nat)
    requires Shape(s) && Live(s, c) && j < NUM_INSTR_SOURCES
  {
    var r := s.rob[c].instr.sources[j];
    var w := LastWriter(s.trace, Pos(s, c), r);
    r == 0 || w.None? || Done(s, w.value)
    || exists p: nat :: Live(s, p) && Pos(s, p) == w.value && Recorded(s, p, c, j)
  }

  ghost predicate Coverage(s: State)
    requires Shape(s)
  {
    forall c: nat, j: nat :: Live(s, c) && Scheduled(s, c) && j < NUM_INSTR_SOURCES ==> Covered(s, c, j)
  }

  function B(b: bool): nat { if b then 1 else 0 }

  /** How many entries satisfy `f`. */
  function Tally(rob: seq<Entry>, f: Entry -> bool): nat {
    if |rob| == 0 then 0
    else Tally(rob[..|rob| - 1], f) + B(f(rob[|rob| - 1]))
  }

  predicate CountsReg(e: Entry) { !e.instr.IsMemory() && e.executed == Inflight }

  predicate CountsMem(e: Entry) { e.instr.IsMemory() && e.numMemOps == 0 && e.executed != Completed }

  predicate CountsDone(e: Entry) { e.executed == Completed }

  /** The three counters of the core are exact. */
  ghost predicate Tallies(s: State) {
    && s.inflightReg == Tally(s.rob, CountsReg)
    && s.inflightMem == Tally(s.rob, CountsMem)
    && s.completedExecutions == Tally(s.rob, CountsDone)
  }

  predicate WasIssued(s: State, t: nat) {
    || (t < s.retired && t < |s.trace| && !s.trace[t].IsMemory())
    || (exists i: nat :: i < |s.rob| && Live(s, i) && Pos(s, i) == t && !s.rob[i].instr.IsMemory() && s.rob[i].executed != Idle)
  }

  /** Every non-memory instruction is sent to execution at most once. */
  ghost predicate History(s: State) {
    && Distinct(s.issued)
    && (forall t: nat :: t in s.issued <==> WasIssued(s, t))
  }

  ghost predicate Inv(s: State) {
    && Shape(s) && InOrder(s) && Edges(s) && OneProducer(s) && Counts(s) && Flags(s)
    && Queues(s) && Coverage(s) && Tallies(s) && History(s)
  }

  // ----- facts about the counters

  lemma {:induction false} TallySame(a: seq<Entry>, b: seq<Entry>, f: Entry -> bool)
    requires |a| == |b|
    requires forall i :: 0 <= i < |a| ==> f(a[i]) == f(b[i])
    ensures Tally(a, f) == Tally(b, f)
  {
    if |a| > 0 { TallySame(a[..|a| - 1], b[..|b| - 1], f); }
  }

  lemma {:induction false} TallyUpdate(rob: seq<Entry>, i: nat, e: Entry, f: Entry -> bool)
    requires i < |rob|
    ensures Tally(rob[i := e], f) + B(f(rob[i])) == Tally(rob, f) + B(f(e))
  {
    var n := |rob| - 1;
    if i < n {
      TallyUpdate(rob[..n], i, e, f);
      assert rob[i := e][..n] == rob[..n][i := e];
    } else {
      assert rob[i := e][..n] == rob[..n];
    }
  }

  /** Two buffers that agree outside slot `i`, as far as `f` can tell. */
  lemma TallyStep(a: seq<Entry>, b: seq<Entry>, i: nat, f: Entry -> bool)
    requires |a| == |b| && i < |a|
    requires forall k :: 0 <= k < |a| && k != i ==> f(a[k]) == f(b[k])
    ensures Tally(b, f) + B(f(a[i])) == Tally(a, f) + B(f(b[i]))
  {
    TallyUpdate(a, i, b[i], f);
    TallySame(a[i := b[i]], b, f);
  }
}
