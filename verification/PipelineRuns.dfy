/**
 The stages of the core as they are called once per cycle, arbitrary runs of them, and what
 holds in every state that a run can reach.
 */
module PipelineRuns {
  import opened Common
  import opened RegisterScheduler
  import opened SchedulingStep
  import opened CompletionStep
  import opened PipelineSteps
  import opened RingSteps

  // ----- the stages

  predicate Eligible(s: State, i: nat)
    requires i < |s.rob|
  {
    s.rob[i].fetched == Completed && s.rob[i].eventCycle <= s.clock
  }

  lemma InvMarking(s: State)
    requires Inv(s)
    ensures Marking(s)
  {
    InvImpliesMarking(s);
  }

  lemma SchedulingKeepsMarking(s: State, i: nat)
    requires Marking(s) && i < |s.rob|
    ensures var r := DoScheduling(s, i);
            Marking(r) && |r.rob| == |s.rob| && r.head == s.head && r.occ == s.occ
  {
  }

  lemma CompletionKeepsMarking(s: State, i: nat)
    requires Marking(s) && i < |s.rob|
    ensures var r := CompleteExecution(s, i);
            Marking(r) && |r.rob| == |s.rob| && r.head == s.head && r.occ == s.occ
  {
  }

  /** schedule_instruction from slot `i` on; the scan never wraps, because its limit stays 0. */
  function ScheduleFrom(s: State, i: nat, searched: nat): (r: State)
    requires Marking(s) && i <= |s.rob|
    ensures Marking(r) && |r.rob| == |s.rob| && r.head == s.head && r.occ == s.occ
    decreases |s.rob| - i
  {
    if i == |s.rob| || !Eligible(s, i) || SCHEDULER_SIZE <= searched then s
    else if s.rob[i].scheduled == Idle then
      SchedulingKeepsMarking(s, i);
      ScheduleFrom(DoScheduling(s, i), i + 1, searched + 1)
    else ScheduleFrom(s, i + 1, searched + 1)
  }

  function Schedule(s: State): State
    requires Marking(s)
  {
    if s.occ == 0 then s else ScheduleFrom(s, s.head, 0)
  }

  /** The first loop of execute_instruction after `count` instructions have been issued. */
  function Execute0(s: State, count: nat): (r: (State, nat))
    decreases EXEC_WIDTH - count
  {
    if count < EXEC_WIDTH && count + 1 < |s.rob| && |s.rte0| > 0 && Live(s, s.rte0[0]) && s.rob[s.rte0[0]].eventCycle <= s.clock
    then Execute0(IssueFrom0(s), count + 1)
    else (s, count)
  }

  /** The second loop, with `count` instructions issued in all and `iterations` by this loop. */
  function Execute1(s: State, count: nat, iterations: nat): State
    decreases EXEC_WIDTH - count
  {
    if count < EXEC_WIDTH && iterations + 1 < |s.rob| && |s.rte1| > 0 && Live(s, s.rte1[0]) && s.rob[s.rte1[0]].eventCycle <= s.clock
    then Execute1(IssueFrom1(s), count + 1, iterations + 1)
    else s
  }

  function Execute(s: State): State {
    if s.occ == 0 then s else var (s1, count) := Execute0(s, 0); Execute1(s1, count, 0)
  }

  /** complete_execution on the entries of age `k` and more, oldest first. */
  function CompleteFrom(s: State, k: nat): (r: State)
    requires Marking(s) && k <= s.occ
    ensures Marking(r) && |r.rob| == |s.rob| && r.head == s.head && r.occ == s.occ
    decreases s.occ - k
  {
    if k == s.occ then s
    else
      CompletionKeepsMarking(s, Slot(s, k));
      CompleteFrom(CompleteExecution(s, Slot(s, k)), k + 1)
  }

  /** The part of update_rob that completes executions. */
  function UpdateRob(s: State): State
    requires Marking(s)
  {
    if s.inflightReg > 0 || s.inflightMem > 0 then CompleteFrom(s, 0) else s
  }

  /** retire_rob when at most `n` entries may leave: the width, or less once the write queue is full. */
  function Retire(s: State, n: nat): State
    requires Marking(s)
    decreases n
  {
    if n == 0 || s.rob[s.head].instr.ip == 0 || s.occ == 0 || s.rob[s.head].executed != Completed then s
    else
      var s' := RetireHead(s);
      Retire(s', n - 1)
  }

  // ----- every stage keeps the invariants

  /** All live slots from the head up to `i` are scheduled. */
  ghost predicate ScheduledUpTo(s: State, i: nat) {
    forall a: nat :: Live(s, a) && s.head <= a < i ==> Scheduled(s, a)
  }

  lemma ScheduleOne(s: State, i: nat)
    requires Inv(s) && Marking(s) && s.head <= i < |s.rob| && Eligible(s, i) && ScheduledUpTo(s, i)
    ensures s.rob[i].scheduled == Idle ==> Inv(DoScheduling(s, i)) && ScheduledUpTo(DoScheduling(s, i), i + 1)
    ensures s.rob[i].scheduled != Idle ==> ScheduledUpTo(s, i + 1)
  {
    assert s.rob[i] != EMPTY_ENTRY && Live(s, i);
    if s.rob[i].scheduled == Idle {
      var s' := DoScheduling(s, i);
      SchedulingKeepsInv(s, i);
      forall a: nat | Live(s', a) && s'.head <= a < i + 1 ensures Scheduled(s', a) {
        ScheduledEntry(s, i, a);
      }
    }
  }

  lemma {:induction false} ScheduleFromKeepsInv(s: State, i: nat, searched: nat)
    requires Inv(s) && Marking(s) && s.head <= i <= |s.rob| && ScheduledUpTo(s, i)
    ensures Inv(ScheduleFrom(s, i, searched))
    decreases |s.rob| - i
  {
    hide Inv, ScheduledUpTo;
    if i < |s.rob| && Eligible(s, i) && searched < SCHEDULER_SIZE {
      ScheduleOne(s, i);
      SchedulingKeepsMarking(s, i);
      ScheduleFromKeepsInv(if s.rob[i].scheduled == Idle then DoScheduling(s, i) else s, i + 1, searched + 1);
    }
  }

  lemma {:induction false} Execute0KeepsInv(s: State, count: nat)
    requires Inv(s)
    ensures Inv(Execute0(s, count).0) && Execute0(s, count).0.occ == s.occ
    decreases EXEC_WIDTH - count
  {
    hide Inv;
    if count < EXEC_WIDTH && |s.rte0| > 0 {
      Issue0KeepsInv(s);
      Execute0KeepsInv(IssueFrom0(s), count + 1);
    }
  }

  lemma {:induction false} Execute1KeepsInv(s: State, count: nat, iterations: nat)
    requires Inv(s)
    ensures Inv(Execute1(s, count, iterations))
    decreases EXEC_WIDTH - count
  {
    hide Inv;
    if count < EXEC_WIDTH && |s.rte1| > 0 {
      Issue1KeepsInv(s);
      Execute1KeepsInv(IssueFrom1(s), count + 1, iterations + 1);
    }
  }

  lemma {:induction false} CompleteFromKeepsInv(s: State, k: nat)
    requires Inv(s) && Marking(s) && k <= s.occ
    ensures Inv(CompleteFrom(s, k))
    decreases s.occ - k
  {
    if k < s.occ {
      assert Live(s, Slot(s, k));
      CompletionKeepsInv(s, Slot(s, k));
      CompletionKeepsMarking(s, Slot(s, k));
      hide Inv;
      CompleteFromKeepsInv(CompleteExecution(s, Slot(s, k)), k + 1);
    }
  }

  lemma {:induction false} RetireKeepsInvariants(s: State, n: nat)
    requires Inv(s) && Marking(s)
    ensures Inv(Retire(s, n))
    decreases n
  {
    if n > 0 && s.occ > 0 && s.rob[s.head].executed == Completed {
      RetireKeepsInv(s);
      InvImpliesMarking(RetireHead(s));
      RetireKeepsInvariants(RetireHead(s), n - 1);
    }
  }

  // ----- runs

  /** What can happen to the core, in any order; an event whose guard fails changes nothing. */
  datatype Event =
    | Dispatched(x: Instr)
    | ScheduleStage
    | ExecuteStage
    | UpdateStage
    | RetireStage(n: nat)
    | MemoryQueued(i: nat)
    | MemoryFinished(i: nat, eventCycle: nat)
    | Cycles(clock: nat)

  ghost function Step(s: State, ev: Event): State
    requires Inv(s)
  {
    InvImpliesMarking(s);
    match ev
    case Dispatched(x) => if MayDispatch(s, x) then Dispatch(s, x) else s
    case ScheduleStage => Schedule(s)
    case ExecuteStage => Execute(s)
    case UpdateStage => UpdateRob(s)
    case RetireStage(n) => Retire(s, n)
    case MemoryQueued(i) => if MaySchedule(s, i) then MemoryScheduled(s, i) else s
    case MemoryFinished(i, c) => if MayFinish(s, i) then MemoryOpDone(s, i, c) else s
    case Cycles(clock) => s.(clock := clock)
  }

  lemma StepKeepsInv(s: State, ev: Event)
    requires Inv(s)
    ensures Inv(Step(s, ev))
  {
    InvImpliesMarking(s);
    hide Inv;
    match ev
    case Dispatched(x) => if MayDispatch(s, x) { DispatchKeepsInv(s, x); }
    case ScheduleStage => if s.occ != 0 { ScheduleFromKeepsInv(s, s.head, 0); }
    case ExecuteStage =>
      if s.occ != 0 {
        Execute0KeepsInv(s, 0);
        Execute1KeepsInv(Execute0(s, 0).0, Execute0(s, 0).1, 0);
      }
    case UpdateStage => CompleteFromKeepsInv(s, 0);
    case RetireStage(n) => RetireKeepsInvariants(s, n);
    case MemoryQueued(i) => if MaySchedule(s, i) { MemoryScheduledKeepsInv(s, i); }
    case MemoryFinished(i, c) => if MayFinish(s, i) { MemoryOpDoneKeepsInv(s, i, c); }
    case Cycles(clock) => TickKeepsInv(s, clock);
  }

  function Initial(size: nat, schedulingLatency: nat, execLatency: nat): State {
    State(seq(size, i => EMPTY_ENTRY), 0, 0, 0, 0, [], [], 0, schedulingLatency, execLatency, 0, 0, 0, [], 0, [])
  }

  lemma {:induction false} EmptyTally(rob: seq<Entry>, f: Entry -> bool)
    requires forall i :: 0 <= i < |rob| ==> !f(rob[i])
    ensures Tally(rob, f) == 0
  {
    if |rob| > 0 { EmptyTally(rob[..|rob| - 1], f); }
  }

  lemma InitialInv(size: nat, schedulingLatency: nat, execLatency: nat)
    requires size >= 2
    ensures Inv(Initial(size, schedulingLatency, execLatency))
  {
    var s := Initial(size, schedulingLatency, execLatency);
    EmptyTally(s.rob, CountsReg);
    EmptyTally(s.rob, CountsMem);
    EmptyTally(s.rob, CountsDone);
  }

  /** The state after the events `evs`; the invariants hold in it. */
  ghost function Run(s0: State, evs: seq<Event>): (s: State)
    requires Inv(s0)
    ensures Inv(s)
    decreases |evs|
  {
    if |evs| == 0 then s0
    else
      var m := Run(s0, evs[..|evs| - 1]);
      StepKeepsInv(m, evs[|evs| - 1]);
      Step(m, evs[|evs| - 1])
  }
}
