/**
 What update_rob completes, and that the scheduler never gets stuck: once memory operations finish,
 the oldest instruction in the buffer can always retire.
 */
module PipelineProgress {
  import opened Common
  import opened RegisterScheduler
  import opened SchedulingStep
  import opened CompletionStep
  import opened PipelineSteps
  import opened RingSteps
  import opened PipelineRuns
  import opened PipelineTheorems

  // ----- what update_rob completes

  /** complete_execution on slot `p` completes that entry if it is due, and no other. */
  lemma CompletesOne(s: State, p: nat, i: nat)
    requires Marking(s) && p < |s.rob| && i < |s.rob|
    ensures var t, e := CompleteExecution(s, p), s.rob[i];
            && |t.rob| == |s.rob| && t.head == s.head && t.occ == s.occ && t.retired == s.retired && t.clock == s.clock
            && var f := t.rob[i];
            && f.instr == e.instr && f.eventCycle == e.eventCycle && f.numMemOps == e.numMemOps
            && f.executed == if i == p && e.executed == Inflight && e.eventCycle <= s.clock && (e.instr.memOps > 0 ==> e.numMemOps == 0)
                             then Completed else e.executed
  {
    hide Wrap, AgeFrom, Woken, Released;
  }

  lemma {:induction false} CompletesFrom(s: State, k: nat, i: nat)
    requires Marking(s) && k <= s.occ && Live(s, i)
    ensures var t, e := CompleteFrom(s, k), s.rob[i];
            && t.retired == s.retired && t.clock == s.clock
            && var f := t.rob[i];
            && f.instr == e.instr && f.eventCycle == e.eventCycle && f.numMemOps == e.numMemOps
            && f.executed == if Age(s, i) >= k && e.executed == Inflight && e.eventCycle <= s.clock && (e.instr.memOps > 0 ==> e.numMemOps == 0)
                             then Completed else e.executed
    decreases s.occ - k
  {
    if k < s.occ {
      hide CompleteExecution, Marking;
      SlotAge(s, k, i);
      CompletesOne(s, Slot(s, k), i);
      CompletionKeepsMarking(s, Slot(s, k));
      CompletesFrom(CompleteExecution(s, Slot(s, k)), k + 1, i);
    }
  }

  lemma SlotAge(s: State, k: nat, i: nat)
    requires Marking(s) && k < s.occ && Live(s, i)
    ensures RingShape(s) && Slot(s, k) < |s.rob| && (Slot(s, k) == i <==> Age(s, i) == k)
  {
  }

  /**
   After update_rob an entry is completed exactly if it was before, or was in flight, due, and had
   no memory operation outstanding; the others are as far as they were.
   */
  lemma UpdateCompletes(s: State, i: nat)
    requires Inv(s) && Live(s, i)
    ensures Marking(s) && i < |UpdateRob(s).rob|
    ensures var e, f := s.rob[i], UpdateRob(s).rob[i];
            && (f.executed == Completed <==>
                  || e.executed == Completed
                  || (e.executed == Inflight && e.eventCycle <= s.clock && (e.instr.memOps > 0 ==> e.numMemOps == 0)))
            && (f.executed != Completed ==> f.executed == e.executed)
            && f.instr == e.instr && f.eventCycle == e.eventCycle && f.numMemOps == e.numMemOps
  {
    InvMarking(s);
    if s.inflightReg > 0 || s.inflightMem > 0 {
      CompletesFrom(s, 0, i);
    } else {
      NothingInFlight(s, i);
    }
  }

  /** When both counters are 0 no entry is due. */
  lemma NothingInFlight(s: State, i: nat)
    requires Inv(s) && Live(s, i) && s.inflightReg <= 0 && s.inflightMem <= 0
    ensures s.rob[i].executed == Inflight ==> s.rob[i].instr.memOps > 0 && s.rob[i].numMemOps != 0
  {
    hide Shape, Edges, OneProducer, Counts, Queues, Coverage, History, InOrder;
    assert FlagsOf(s.rob[i]);
    if CountsReg(s.rob[i]) { ZeroTally(s.rob, CountsReg, i); }
    if CountsMem(s.rob[i]) { ZeroTally(s.rob, CountsMem, i); }
  }

  // ----- what can be reached without new instructions

  ghost predicate NoneNew(evs: seq<Event>) { forall k :: 0 <= k < |evs| ==> !evs[k].Dispatched? }

  /** Some events lead from `s` to `t`, no instruction being dispatched on the way. */
  ghost predicate Leads(s: State, t: State)
    requires Inv(s)
  {
    exists evs: seq<Event> :: NoneNew(evs) && Run(s, evs) == t
  }

  lemma LeadsNowhere(s: State)
    requires Inv(s)
    ensures Leads(s, s)
  {
    hide Inv;
    var evs: seq<Event> := [];
    assert NoneNew(evs) && Run(s, evs) == s;
  }

  lemma {:induction false} RunsJoin(s: State, a: seq<Event>, b: seq<Event>)
    requires Inv(s)
    ensures Run(s, a + b) == Run(Run(s, a), b)
    decreases |b|
  {
    hide Inv, Step;
    if |b| == 0 {
      assert a + b == a;
    } else {
      RunsJoin(s, a, b[..|b| - 1]);
      assert (a + b)[..|a + b| - 1] == a + b[..|b| - 1] && (a + b)[|a + b| - 1] == b[|b| - 1];
    }
  }

  lemma LeadsOne(s: State, ev: Event)
    requires Inv(s) && !ev.Dispatched?
    ensures Inv(Step(s, ev)) && Leads(s, Step(s, ev))
  {
    hide Inv, Step;
    StepKeepsInv(s, ev);
    var none, evs: seq<Event> := [], [ev];
    assert evs[..0] == none && Run(s, none) == s;
    assert NoneNew(evs) && Run(s, evs) == Step(s, ev);
  }

  lemma LeadsOn(s: State, m: State, t: State)
    requires Inv(s) && Leads(s, m) && Inv(m) && Leads(m, t)
    ensures Leads(s, t)
  {
    hide Inv, Run;
    var a: seq<Event> :| NoneNew(a) && Run(s, a) == m;
    var b: seq<Event> :| NoneNew(b) && Run(m, b) == t;
    RunsJoin(s, a, b);
    assert NoneNew(a + b);
  }

  // ----- the oldest entry

  /** The oldest entry is the same instruction, and no less scheduled. */
  ghost predicate SameTop(s: State, t: State) {
    && s.head < |s.rob| && |t.rob| == |s.rob| && t.head == s.head && t.occ == s.occ && t.retired == s.retired
    && t.rob[s.head].instr == s.rob[s.head].instr
    && (s.rob[s.head].scheduled != Idle ==> t.rob[s.head].scheduled != Idle)
  }

  lemma Top(s: State)
    requires Inv(s) && s.occ > 0
    ensures Live(s, s.head) && EntryShape(s.rob[s.head]) && FlagsOf(s.rob[s.head]) && s.rob[s.head].instr.ip != 0
  {
    hide InOrder, Edges, OneProducer, Counts, Queues, Coverage, Tallies, History;
    assert Live(s, s.head);
  }

  /** The latest cycle that an entry waits for. */
  function Latest(rob: seq<Entry>): (c: nat)
    ensures forall i :: 0 <= i < |rob| ==> rob[i].eventCycle <= c
  {
    if |rob| == 0 then 0
    else
      var c, e := Latest(rob[..|rob| - 1]), rob[|rob| - 1].eventCycle;
      if c < e then e else c
  }

  /** Everything is due. */
  ghost predicate AllDue(s: State) { forall i :: 0 <= i < |s.rob| ==> s.rob[i].eventCycle <= s.clock }

  lemma TimePasses(s: State) returns (t: State)
    requires Inv(s) && s.head < |s.rob|
    ensures Inv(t) && Leads(s, t) && SameTop(s, t) && AllDue(t) && t == s.(clock := t.clock)
  {
    hide Inv;
    t := s.(clock := Latest(s.rob));
    LeadsOne(s, Cycles(Latest(s.rob)));
  }

  // ----- scheduling

  lemma SchedulesOne(s: State, c: nat)
    requires Marking(s) && c < |s.rob|
    ensures var t := DoScheduling(s, c);
            && t.retired == s.retired && t.rob[c].scheduled != Idle
            && forall i: nat :: i < |s.rob| ==> && t.rob[i].instr == s.rob[i].instr && t.rob[i].executed == s.rob[i].executed
                                                && (s.rob[i].scheduled != Idle ==> t.rob[i].scheduled != Idle)
  {
    forall i: nat | i < |s.rob|
      ensures var t := DoScheduling(s, c);
              && t.rob[i].instr == s.rob[i].instr && t.rob[i].executed == s.rob[i].executed
              && (s.rob[i].scheduled != Idle ==> t.rob[i].scheduled != Idle)
    {
      ScheduledEntry(s, c, i);
    }
  }

  lemma {:induction false} SchedulesOn(s: State, i: nat, searched: nat, k: nat)
    requires Marking(s) && i <= |s.rob| && k < |s.rob|
    ensures var t := ScheduleFrom(s, i, searched);
            && t.retired == s.retired && t.rob[k].instr == s.rob[k].instr && t.rob[k].executed == s.rob[k].executed
            && (s.rob[k].scheduled != Idle ==> t.rob[k].scheduled != Idle)
    decreases |s.rob| - i
  {
    hide DoScheduling, Marking;
    if i < |s.rob| && Eligible(s, i) && searched < SCHEDULER_SIZE {
      if s.rob[i].scheduled == Idle {
        SchedulesOne(s, i);
        SchedulingKeepsMarking(s, i);
        SchedulesOn(DoScheduling(s, i), i + 1, searched + 1, k);
      } else {
        SchedulesOn(s, i + 1, searched + 1, k);
      }
    }
  }

  /** The oldest entry gets scheduled. */
  lemma TopSchedules(s: State) returns (t: State)
    requires Inv(s) && s.occ > 0
    ensures Inv(t) && Leads(s, t) && SameTop(s, t) && t.rob[s.head].scheduled != Idle && t.rob[s.head].executed == s.rob[s.head].executed
  {
    hide Inv, ScheduleFrom, Leads;
    Top(s);
    if s.rob[s.head].scheduled != Idle {
      t := s;
      LeadsNowhere(s);
    } else {
      var m := TimePasses(s);
      t := Step(m, ScheduleStage);
      LeadsOne(m, ScheduleStage);
      LeadsOn(s, m, t);
      Top(m);
      InvMarking(m);
      FirstScheduled(m);
    }
  }

  lemma FirstScheduled(s: State)
    requires Marking(s) && s.head < |s.rob| && s.occ > 0 && Eligible(s, s.head) && s.rob[s.head].scheduled == Idle
    ensures var t := Schedule(s); SameTop(s, t) && t.rob[s.head].scheduled != Idle && t.rob[s.head].executed == s.rob[s.head].executed
  {
    hide DoScheduling;
    SchedulesOne(s, s.head);
    SchedulingKeepsMarking(s, s.head);
    SchedulesOn(DoScheduling(s, s.head), s.head + 1, 1, s.head);
  }

  lemma TopReady(s: State)
    requires Inv(s) && s.occ > 0 && s.rob[s.head].scheduled != Idle
    ensures Live(s, s.head) && s.rob[s.head].regReady
  {
    hide InOrder, OneProducer, Queues, Coverage, Tallies, History;
    var c := s.head;
    assert Live(s, c);
    forall j: nat | j < NUM_INSTR_SOURCES ensures !Waits(s, c, j) {
      assert forall p: nat :: Live(s, p) && Recorded(s, p, c, j) ==> Edge(s, p, c, j);
    }
    CountZero(s, c, NUM_INSTR_SOURCES);
    assert FlagsOf(s.rob[c]);
  }

  // ----- execution

  ghost predicate Issues(s: State, t: State) {
    && SameTop(s, t) && t.clock == s.clock && |t.rte0| <= |s.rte0| && |t.rte1| <= |s.rte1|
    && t.rob[s.head].regReady == s.rob[s.head].regReady
  }

  lemma IssuesOn(s: State, m: State, t: State)
    requires Issues(s, m) && Issues(m, t)
    ensures Issues(s, t)
  {
  }

  lemma {:induction false} Execute0Issues(s: State, count: nat)
    requires Inv(s) && s.head < |s.rob|
    ensures Issues(s, Execute0(s, count).0) && Execute0(s, count).0.rte1 == s.rte1 && Execute0(s, count).1 >= count
    decreases EXEC_WIDTH - count
  {
    hide Inv;
    if count < EXEC_WIDTH && count + 1 < |s.rob| && |s.rte0| > 0 && Live(s, s.rte0[0]) && s.rob[s.rte0[0]].eventCycle <= s.clock {
      Issue0KeepsInv(s);
      Execute0Issues(IssueFrom0(s), count + 1);
      IssuesOn(s, IssueFrom0(s), Execute0(s, count).0);
    }
  }

  lemma {:induction false} Execute1Issues(s: State, count: nat, iterations: nat)
    requires Inv(s) && s.head < |s.rob|
    ensures Issues(s, Execute1(s, count, iterations)) && Execute1(s, count, iterations).rte0 == s.rte0
    decreases EXEC_WIDTH - count
  {
    hide Inv;
    if count < EXEC_WIDTH && iterations + 1 < |s.rob| && |s.rte1| > 0 && Live(s, s.rte1[0]) && s.rob[s.rte1[0]].eventCycle <= s.clock {
      Issue1KeepsInv(s);
      Execute1Issues(IssueFrom1(s), count + 1, iterations + 1);
      IssuesOn(s, IssueFrom1(s), Execute1(s, count, iterations));
    }
  }

  lemma Fronts(s: State)
    requires Inv(s)
    ensures 2 <= |s.rob|
    ensures |s.rte0| > 0 ==> Live(s, s.rte0[0])
    ensures |s.rte1| > 0 ==> Live(s, s.rte1[0])
  {
    hide InOrder, Edges, OneProducer, Counts, Flags, Coverage, Tallies, History;
    var q := s.rte0 + s.rte1;
    assert |s.rte0| == 0 || (q[0] in q && ReadyToExecute(s, s.rte0[0]));
    assert |s.rte1| == 0 || (q[|s.rte0|] in q && ReadyToExecute(s, s.rte1[0]));
  }

  /** When everything is due, one pass of execute_instruction issues at least one waiting instruction. */
  lemma ExecuteIssues(s: State)
    requires Inv(s) && s.occ > 0 && s.head < |s.rob| && AllDue(s) && |s.rte0| + |s.rte1| > 0
    ensures Issues(s, Execute(s)) && |Execute(s).rte0| + |Execute(s).rte1| < |s.rte0| + |s.rte1|
  {
    hide Inv, Execute0, Execute1;
    Fronts(s);
    Execute0KeepsInv(s, 0);
    Execute0Issues(s, 0);
    var (m, count) := Execute0(s, 0);
    Execute1Issues(m, count, 0);
    IssuesOn(s, m, Execute(s));
    if |s.rte0| > 0 {
      OneIssued0(s);
    } else {
      NoneIssued0(s);
      OneIssued1(s);
    }
  }

  lemma OneIssued0(s: State)
    requires Inv(s) && s.head < |s.rob| && 2 <= |s.rob| && |s.rte0| > 0 && Live(s, s.rte0[0]) && s.rob[s.rte0[0]].eventCycle <= s.clock
    ensures |Execute0(s, 0).0.rte0| < |s.rte0|
  {
    hide Inv;
    Issue0KeepsInv(s);
    Execute0Issues(IssueFrom0(s), 1);
  }

  lemma NoneIssued0(s: State)
    requires |s.rte0| == 0
    ensures Execute0(s, 0) == (s, 0)
  {
  }

  lemma OneIssued1(s: State)
    requires Inv(s) && s.head < |s.rob| && 2 <= |s.rob| && |s.rte1| > 0 && Live(s, s.rte1[0]) && s.rob[s.rte1[0]].eventCycle <= s.clock
    ensures |Execute1(s, 0, 0).rte1| < |s.rte1|
  {
    hide Inv;
    Issue1KeepsInv(s);
    Execute1Issues(IssueFrom1(s), 1, 1);
  }

  /** All waiting instructions can be issued. */
  lemma {:induction false} IssueAll(s: State) returns (t: State)
    requires Inv(s) && s.occ > 0 && s.head < |s.rob|
    ensures Inv(t) && Leads(s, t) && SameTop(s, t) && t.rte0 == t.rte1 == [] && t.rob[s.head].regReady == s.rob[s.head].regReady
    decreases |s.rte0| + |s.rte1|
  {
    hide Inv, Leads, Execute;
    if |s.rte0| + |s.rte1| == 0 {
      t := s;
      LeadsNowhere(s);
    } else {
      var m := TimePasses(s);
      ExecuteIssues(m);
      LeadsOne(m, ExecuteStage);
      t := IssueAll(Step(m, ExecuteStage));
      LeadsOn(m, Step(m, ExecuteStage), t);
      LeadsOn(s, m, t);
    }
  }

  lemma NothingWaits(s: State)
    requires Inv(s) && s.rte0 == s.rte1 == [] && Live(s, s.head) && s.rob[s.head].regReady && !s.rob[s.head].instr.IsMemory()
    ensures s.rob[s.head].executed != Idle
  {
    hide Shape, InOrder, Edges, OneProducer, Counts, Flags, Coverage, Tallies, History;
    assert s.head !in s.rte0 + s.rte1;
  }

  // ----- memory operations

  /** All operations of a memory instruction that is queued can finish. */
  lemma {:induction false} FinishAll(s: State) returns (t: State)
    requires Inv(s) && s.occ > 0 && s.rob[s.head].instr.IsMemory() && s.rob[s.head].regReady && s.rob[s.head].scheduled != Idle
    ensures Inv(t) && Leads(s, t) && SameTop(s, t) && t.rob[s.head].executed == s.rob[s.head].executed && t.rob[s.head].numMemOps == 0
    decreases s.rob[s.head].numMemOps
  {
    hide Inv, Leads;
    Top(s);
    if s.rob[s.head].numMemOps == 0 {
      t := s;
      LeadsNowhere(s);
    } else {
      LeadsOne(s, MemoryFinished(s.head, 0));
      t := FinishAll(Step(s, MemoryFinished(s.head, 0)));
      LeadsOn(s, Step(s, MemoryFinished(s.head, 0)), t);
    }
  }

  /** A ready oldest entry can be brought into flight with nothing outstanding, or has completed. */
  lemma TopExecutes(s: State) returns (t: State)
    requires Inv(s) && s.occ > 0 && s.rob[s.head].scheduled != Idle
    ensures Inv(t) && Leads(s, t) && SameTop(s, t)
    ensures t.rob[s.head].executed != Idle && (t.rob[s.head].instr.IsMemory() ==> t.rob[s.head].numMemOps == 0)
  {
    hide Inv, Leads, FlagsOf, EntryShape;
    Top(s);
    TopReady(s);
    if s.rob[s.head].instr.IsMemory() {
      t := MemoryTopExecutes(s);
    } else {
      t := IssueAll(s);
      Top(t);
      NothingWaits(t);
    }
  }

  lemma MemoryTopExecutes(s: State) returns (t: State)
    requires Inv(s) && s.occ > 0 && s.rob[s.head].scheduled != Idle && s.rob[s.head].regReady && s.rob[s.head].instr.IsMemory()
    ensures Inv(t) && Leads(s, t) && SameTop(s, t)
    ensures t.rob[s.head].executed != Idle && (t.rob[s.head].instr.IsMemory() ==> t.rob[s.head].numMemOps == 0)
  {
    hide Inv, Leads, EntryShape;
    Top(s);
    if s.rob[s.head].scheduled == Completed {
      t := FinishAll(s);
    } else {
      LeadsOne(s, MemoryQueued(s.head));
      var m := Step(s, MemoryQueued(s.head));
      t := FinishAll(m);
      LeadsOn(s, m, t);
    }
  }

  // ----- completion and retirement

  lemma TopCompletes(s: State) returns (t: State)
    requires Inv(s) && s.occ > 0 && s.rob[s.head].executed != Idle && (s.rob[s.head].instr.IsMemory() ==> s.rob[s.head].numMemOps == 0)
    ensures Inv(t) && Leads(s, t) && t.occ == s.occ && t.retired == s.retired && t.head < |t.rob| && t.rob[t.head].executed == Completed
  {
    hide Inv, Leads, UpdateRob, FlagsOf, EntryShape;
    Top(s);
    var m := TimePasses(s);
    Top(m);
    UpdateCompletes(m, m.head);
    UpdateKeepsTop(m);
    LeadsOne(m, UpdateStage);
    t := Step(m, UpdateStage);
    LeadsOn(s, m, t);
  }

  lemma UpdateKeepsTop(s: State)
    requires Marking(s) && Live(s, s.head)
    ensures var t := UpdateRob(s); t.occ == s.occ && t.retired == s.retired && t.head == s.head && |t.rob| == |s.rob|
  {
    CompletesFrom(s, 0, s.head);
  }

  lemma TopRetires(s: State) returns (t: State)
    requires Inv(s) && s.occ > 0 && s.head < |s.rob| && s.rob[s.head].executed == Completed
    ensures Inv(t) && Leads(s, t) && t.retired == s.retired + 1
  {
    hide Inv, Leads;
    Top(s);
    InvMarking(s);
    LeadsOne(s, RetireStage(1));
    t := Step(s, RetireStage(1));
    assert Retire(RetireHead(s), 0) == RetireHead(s);
  }

  /**
   Progress: from every state that keeps the invariants, without any new instruction and whatever
   is in the rings, there is a continuation in which the oldest instruction retires.
   */
  lemma OldestRetires(s: State) returns (t: State)
    requires Inv(s) && s.occ > 0
    ensures Leads(s, t) && t.retired == s.retired + 1
  {
    hide Inv, Leads, SameTop;
    var a := TopSchedules(s);
    UnfoldTop(s, a);
    var b := TopExecutes(a);
    UnfoldTop(a, b);
    var c := TopCompletes(b);
    t := TopRetires(c);
    LeadsOn(b, c, t);
    LeadsOn(a, b, t);
    LeadsOn(s, a, t);
  }

  lemma UnfoldTop(s: State, t: State)
    requires SameTop(s, t)
    ensures t.occ == s.occ && t.head == s.head && t.retired == s.retired && |t.rob| == |s.rob|
  {
  }

  /** Every reachable state of the core can retire its oldest instruction. */
  lemma AlwaysProgress(size: nat, a: nat, b: nat, evs: seq<Event>)
    requires size >= 2 && Reached(size, a, b, evs).occ > 0
    ensures exists more: seq<Event> :: NoneNew(more) && Run(Reached(size, a, b, evs), more).retired == Reached(size, a, b, evs).retired + 1
  {
    hide Reached, Inv;
    var s := Reached(size, a, b, evs);
    var t := OldestRetires(s);
    var more: seq<Event> :| NoneNew(more) && Run(s, more) == t;
  }
}
