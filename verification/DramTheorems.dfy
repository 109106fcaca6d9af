/** What the memory controller guarantees in every state of every run. */
module DramTheorems {
  import opened Common
  import opened DramController
  import opened DramSteps

  // ----- runs

  /** A request arrives from the last-level cache, or a cycle passes and operate runs. */
  datatype Event = Arrives(write: bool, address: nat, eventCycle: nat) | Cycles

  function Cycle(s: State): State
    requires BanksFit(s)
  {
    Operate(s.(clock := s.clock + 1))
  }

  function Step(s: State, ev: Event): State
    requires BanksFit(s)
  {
    match ev
    case Arrives(w, a, e) => if a != 0 then Add(s, w, a, e) else s
    case Cycles => Cycle(s)
  }

  lemma CycleKeepsInv(s: State)
    requires Inv(s)
    ensures BanksFit(s) && Inv(Cycle(s))
  {
    hide Inv, Operate;
    FitsOf(s);
    TickKeepsInv(s, 1);
    OperateKeepsInv(s.(clock := s.clock + 1));
  }

  lemma StepKeepsInv(s: State, ev: Event)
    requires Inv(s)
    ensures BanksFit(s) && Inv(Step(s, ev))
  {
    match ev
    case Arrives(w, a, e) => if a != 0 { AddKeepsInv(s, w, a, e); }
    case Cycles => CycleKeepsInv(s);
  }

  function EmptyQueue(n: nat): Queue { Queue(seq(n, _ => EMPTY), 0, 0, None, 0, None) }

  function Initial(c: Config): State {
    State(c, EmptyQueue(c.rqSize), EmptyQueue(c.wqSize), seq(Banks(c.g), _ => FRESH_BANK), 0, false, 0, 0, 0, [], [], [])
  }

  lemma {:induction false} AllEmpty(es: seq<Entry>)
    requires forall i: nat :: i < |es| ==> es[i] == EMPTY
    ensures Live(es) == 0 && Count(es) == 0
  {
    if |es| > 0 { AllEmpty(es[..|es| - 1]); }
  }

  lemma EmptyQueueOk(n: nat)
    ensures Tidy(EmptyQueue(n)) && NextsOk(EmptyQueue(n)) && NothingScheduled(EmptyQueue(n).entries)
  {
    var es := EmptyQueue(n).entries;
    AllEmpty(es);
    OldestMeaning(es, Unscheduled(es), n);
    OldestMeaning(es, Scheduled(es), n);
  }

  lemma InitialInv(c: Config)
    requires c.Valid()
    ensures Inv(Initial(c))
  {
    EmptyQueueOk(c.rqSize);
    EmptyQueueOk(c.wqSize);
    AllEmpty(Initial(c).rq.entries);
    AllEmpty(Initial(c).wq.entries);
    hide OldestOf, Unscheduled, Scheduled, NextsOk;
    var s := Initial(c);
    assert Q(s, false) == s.rq && Q(s, true) == s.wq;
    forall k: nat | k < |s.banks| ensures BankOk(s, false, k) { assert s.banks[k] == FRESH_BANK; }
  }

  /** The state after `evs`; the invariants hold in it. */
  ghost function Run(s0: State, evs: seq<Event>): (s: State)
    requires Inv(s0)
    ensures Inv(s)
    decreases |evs|
  {
    if |evs| == 0 then s0
    else
      var m := Run(s0, evs[..|evs| - 1]);
      StepKeepsInv(m, evs[|evs| - 1]);
      Step(m, evs[|evs| - 1])
  }

  ghost function Reached(c: Config, evs: seq<Event>): (s: State)
    requires c.Valid()
    ensures Inv(s)
  {
    InitialInv(c);
    Run(Initial(c), evs)
  }

  // ----- banks

  /** The entries of the queue of the mode that are scheduled on bank `k`. */
  ghost function OnBank(s: State, k: nat): set<nat>
    requires BanksFit(s)
  {
    set i: nat | i in Scheduled(Q(s, s.writeMode).entries) && BankIndex(s.c.g, Q(s, s.writeMode).entries[i].address) == k
  }

  /** A bank works exactly for the one entry that its request index names. */
  lemma BanksMatchRequests(c: Config, evs: seq<Event>, k: nat)
    requires c.Valid() && k < |Reached(c, evs).banks|
    ensures var s := Reached(c, evs);
            && BanksFit(s)
            && OnBank(s, k) == (if s.banks[k].working && s.banks[k].requestIndex.Some? then {s.banks[k].requestIndex.value} else {})
            && (s.banks[k].working <==> |OnBank(s, k)| == 1)
            && (s.banks[k].working ==> s.banks[k].cycleAvailable - s.c.tCAS >= 0)
  {
    hide Reached;
    BankOfInv(Reached(c, evs), k);
  }

  lemma BankOfInv(s: State, k: nat)
    requires Inv(s) && k < |s.banks|
    ensures OnBank(s, k) == (if s.banks[k].working && s.banks[k].requestIndex.Some? then {s.banks[k].requestIndex.value} else {})
    ensures s.banks[k].working <==> |OnBank(s, k)| == 1
    ensures s.banks[k].working ==> s.banks[k].cycleAvailable - s.c.tCAS >= 0
  {
    var es, b := Q(s, s.writeMode).entries, s.banks[k];
    assert BankOk(s, s.writeMode, k);
    var expected := if b.working && b.requestIndex.Some? then {b.requestIndex.value} else {};
    forall i: nat ensures i in OnBank(s, k) <==> i in expected {
      if i in OnBank(s, k) { assert IsScheduled(es, i) && Occupies(s, s.writeMode, i); }
    }
  }

  /** The counters count the scheduled entries, and the queue that is not served has none. */
  lemma CountersMatchRequests(c: Config, evs: seq<Event>)
    requires c.Valid()
    ensures var s := Reached(c, evs);
            && s.scheduledReads == Count(s.rq.entries) && s.scheduledWrites == Count(s.wq.entries)
            && (if s.writeMode then s.scheduledReads == 0 else s.scheduledWrites == 0)
            && s.rq.occupancy == Live(s.rq.entries) && s.wq.occupancy == Live(s.wq.entries)
            && UniqueAddresses(s.rq.entries) && UniqueAddresses(s.wq.entries)
  {
    hide Reached;
    var s := Reached(c, evs);
    NoneCounted(Q(s, !s.writeMode).entries);
  }

  /** None of the checks in reset_remain_requests and process can fail. */
  lemma ChecksNeverFail(c: Config, evs: seq<Event>, ticks: nat)
    requires c.Valid()
    ensures var s := Reached(c, evs).(clock := Reached(c, evs).clock + ticks);
            && BanksFit(s)
            && var r := Reset(s.(writeMode := !s.writeMode), s.writeMode);
            && r.scheduledReads == 0 && r.scheduledWrites == 0
            && var m := Switch(s);
            && BanksFit(m)
            && var n := TrySchedule(m, m.writeMode);
            ProcessDue(n, n.writeMode) ==>
              && var q := Q(n, n.writeMode);
              && BanksFit(n) && q.occupancy > 0 && q.entries[q.nextProcessIndex].scheduled
              && BankFor(n, q.entries[q.nextProcessIndex]).requestIndex == Some(q.nextProcessIndex)
  {
    hide Reached, Inv, Reset, Switch, TrySchedule, ProcessDue, BanksFit;
    TickKeepsInv(Reached(c, evs), ticks);
    CheckAt(Reached(c, evs).(clock := Reached(c, evs).clock + ticks));
  }

  lemma CheckAt(s: State)
    requires Inv(s)
    ensures BanksFit(s)
    ensures var r := Reset(s.(writeMode := !s.writeMode), s.writeMode); r.scheduledReads == 0 && r.scheduledWrites == 0
    ensures BanksFit(Switch(s))
    ensures var n := TrySchedule(Switch(s), Switch(s).writeMode);
            ProcessDue(n, n.writeMode) ==>
              && var q := Q(n, n.writeMode);
              && BanksFit(n) && q.occupancy > 0 && q.entries[q.nextProcessIndex].scheduled
              && BankFor(n, q.entries[q.nextProcessIndex]).requestIndex == Some(q.nextProcessIndex)
  {
    var flipped := s.(writeMode := !s.writeMode);
    QueuesOnly(s, flipped, s.writeMode);
    ResetKeeps(flipped, s.writeMode);
    SwitchKeepsInv(s);
    var m := Switch(s);
    hide Inv, Reset, Switch;
    FitsOf(s);
    FitsOf(m);
    if ScheduleDue(m, m.writeMode) { ScheduleKeepsInv(m); }
    var n := TrySchedule(m, m.writeMode);
    FitsOf(n);
    if ProcessDue(n, n.writeMode) { ProcessChecks(n); }
  }

  // ----- the scheduler

  /** `i` is the oldest entry of `among`, the first one on a tie. */
  ghost predicate IsOldest(es: seq<Entry>, among: set<nat>, i: nat) {
    && i in among && i < |es|
    && forall j: nat | j in among && j < |es| ::
         es[i].eventCycle <= es[j].eventCycle && (es[i].eventCycle == es[j].eventCycle ==> i <= j)
  }

  lemma OldestIsPicked(es: seq<Entry>, among: set<nat>, i: nat)
    requires forall x :: x in among ==> x < |es|
    ensures OldestOf(es, among).None? <==> among == {}
    ensures OldestOf(es, among) == Some(i) <==> IsOldest(es, among, i)
  {
    OldestMeaning(es, among, |es|);
    if among != {} { var x :| x in among; assert x < |es|; }
  }

  /**
   First-ready scheduling: nothing is picked exactly if no entry waits for an idle bank; otherwise
   entry `i` is picked exactly if it is the oldest open-row hit, or there is no hit and it is the oldest.
   */
  lemma SchedulerPicks(s: State, w: bool, i: nat)
    requires Shape(s)
    ensures Choice(s, w).None? <==> Eligible(s, w) == {}
    ensures Choice(s, w) == Some(i) <==> IsOldest(Q(s, w).entries, if Hits(s, w) != {} then Hits(s, w) else Eligible(s, w), i)
  {
    hide Oldest, IsOldest;
    var es := Q(s, w).entries;
    OldestIsPicked(es, Hits(s, w), i);
    OldestIsPicked(es, Eligible(s, w), i);
    assert Hits(s, w) <= Eligible(s, w);
  }

  // ----- conservation

  function InQueueTimes(es: seq<Entry>, t: nat): nat {
    if |es| == 0 then 0 else InQueueTimes(es[..|es| - 1], t) + (if Holds(es, |es| - 1, t) then 1 else 0)
  }

  function InLogTimes(log: seq<Transfer>, t: nat): nat {
    if |log| == 0 then 0 else InLogTimes(log[..|log| - 1], t) + (if Served(log, |log| - 1, t) then 1 else 0)
  }

  lemma {:induction false} QueueTimes(es: seq<Entry>, t: nat)
    requires forall i: nat, j: nat :: Holds(es, i, t) && Holds(es, j, t) ==> i == j
    ensures InQueueTimes(es, t) == if exists i: nat :: Holds(es, i, t) then 1 else 0
  {
    if |es| > 0 {
      var n := |es| - 1;
      forall i: nat ensures Holds(es[..n], i, t) <==> Holds(es, i, t) && i < n { }
      QueueTimes(es[..n], t);
      if i: nat :| Holds(es, i, t) { assert i < n ==> Holds(es[..n], i, t); }
    }
  }

  lemma {:induction false} LogTimes(log: seq<Transfer>, t: nat)
    requires forall i: nat, j: nat :: Served(log, i, t) && Served(log, j, t) ==> i == j
    ensures InLogTimes(log, t) == if exists i: nat :: Served(log, i, t) then 1 else 0
  {
    if |log| > 0 {
      var n := |log| - 1;
      forall i: nat ensures Served(log[..n], i, t) <==> Served(log, i, t) && i < n { }
      LogTimes(log[..n], t);
      if i: nat :| Served(log, i, t) { assert i < n ==> Served(log[..n], i, t); }
    }
  }

  /** Every accepted request is once in its queue or once in the log of transfers; neither twice nor in both. */
  lemma RequestsAreConserved(c: Config, evs: seq<Event>, t: nat)
    requires c.Valid() && t < |Reached(c, evs).arrivals|
    ensures var s := Reached(c, evs);
            InQueueTimes(Q(s, s.arrivals[t].write).entries, t) + InLogTimes(s.log, t) == 1
  {
    hide Reached;
    Conserved(Reached(c, evs), t);
  }

  lemma Conserved(s: State, t: nat)
    requires Tickets(s) && t < |s.arrivals|
    ensures InQueueTimes(Q(s, s.arrivals[t].write).entries, t) + InLogTimes(s.log, t) == 1
  {
    QueueTimes(Q(s, s.arrivals[t].write).entries, t);
    LogTimes(s.log, t);
    assert InQueue(s, t) <==> !InLog(s, t);
  }

  /** What goes over the bus is what was asked for: the same address, in the same direction. */
  lemma TransfersMatchArrivals(c: Config, evs: seq<Event>, k: nat)
    requires c.Valid() && k < |Reached(c, evs).log|
    ensures var s := Reached(c, evs);
            s.log[k].ticket < |s.arrivals| && s.arrivals[s.log[k].ticket] == Arrival(s.log[k].address, s.log[k].write)
  {
    hide Reached;
    assert LogTicket(Reached(c, evs), k);
  }

  lemma {:induction false} LiveFull(es: seq<Entry>)
    ensures Live(es) <= |es|
    ensures Live(es) == |es| <==> forall i: nat :: i < |es| ==> es[i].address != 0
  {
    if |es| > 0 {
      var front := es[..|es| - 1];
      LiveFull(front);
      assert forall i: nat :: i < |front| ==> front[i] == es[i];
      assert (forall i: nat :: i < |es| ==> es[i].address != 0) ==> es[|es| - 1].address != 0;
    }
  }

  predicate HasAddress(es: seq<Entry>, address: nat) { exists i :: 0 <= i < |es| && es[i].address == address }

  /** What becomes of a request; one is dropped exactly if it finds no entry to join and the queue is full. */
  lemma OutcomeMeaning(s: State, w: bool, address: nat)
    requires Tidy(Q(s, w)) && address != 0
    ensures OutcomeOf(s, w, address).Forwarded? <==> !w && HasAddress(s.wq.entries, address)
    ensures OutcomeOf(s, w, address).Merged? <==> (w || !HasAddress(s.wq.entries, address)) && HasAddress(Q(s, w).entries, address)
    ensures OutcomeOf(s, w, address).Full? <==> && (w || !HasAddress(s.wq.entries, address)) && !HasAddress(Q(s, w).entries, address)
                                                && Q(s, w).occupancy == |Q(s, w).entries|
  {
    FindMeaning(s.wq.entries, address, 0);
    FindMeaning(Q(s, w).entries, address, 0);
    FindMeaning(Q(s, w).entries, 0, 0);
    LiveFull(Q(s, w).entries);
  }

  // ----- the data bus

  /** Any two transfers are at least the bus time apart, and in opposite directions the turn-around time more. */
  lemma BusWindowsAreApart(c: Config, evs: seq<Event>, k: nat, l: nat)
    requires c.Valid() && k < l < |Reached(c, evs).log|
    ensures var log := Reached(c, evs).log;
            log[k].start + c.returnTime + (if log[k].write != log[l].write then c.turnAround else 0) <= log[l].start
  {
    ConfigStays(c, evs);
  }

  lemma {:induction false} ConfigStays(c: Config, evs: seq<Event>)
    requires c.Valid()
    ensures Reached(c, evs).c == c
    decreases |evs|
  {
    InitialInv(c);
    if |evs| > 0 {
      ConfigStays(c, evs[..|evs| - 1]);
      StepKeepsConfig(Run(Initial(c), evs[..|evs| - 1]), evs[|evs| - 1]);
    }
  }

  /** A step of operate changes neither the configuration nor what has arrived. */
  ghost predicate SameInputs(s: State, s': State) {
    s'.c == s.c && s'.arrivals == s.arrivals && s'.clock == s.clock
  }

  lemma SwitchKeepsInputs(s: State)
    requires BanksFit(s)
    ensures SameInputs(s, Switch(s))
  {
  }

  lemma ServeKeepsInputs(s: State, w: bool)
    requires BanksFit(s)
    ensures SameInputs(s, TrySchedule(s, w)) && SameInputs(s, TryProcess(s, w))
    ensures TrySchedule(s, w).writeMode == s.writeMode
  {
    hide UpdateSchedule, UpdateProcess, OldestOf, Hits, Eligible;
  }

  lemma ServeFits(m: State)
    requires Inv(m)
    ensures BanksFit(m) && BanksFit(TrySchedule(m, m.writeMode)) && BanksFit(TryProcess(TrySchedule(m, m.writeMode), m.writeMode))
  {
    if ScheduleDue(m, m.writeMode) { ScheduleKeepsInv(m); }
    var r := TrySchedule(m, m.writeMode);
    hide Schedule, Process;
    if ProcessDue(r, r.writeMode) { ProcessKeepsInv(r); }
  }

  /** The parts of one cycle. */
  lemma CycleIs(s: State)
    requires Inv(s)
    ensures var t := s.(clock := s.clock + 1);
            && BanksFit(s) && Inv(t) && BanksFit(t)
            && var m := Switch(t);
            && Inv(m) && BanksFit(m) && BanksFit(TrySchedule(m, m.writeMode))
            && BanksFit(TryProcess(TrySchedule(m, m.writeMode), m.writeMode))
            && TrySchedule(m, m.writeMode).writeMode == m.writeMode
            && Cycle(s) == TryProcess(TrySchedule(m, m.writeMode), m.writeMode)
  {
    hide Inv, Switch, TrySchedule, TryProcess;
    TickKeepsInv(s, 1);
    var t := s.(clock := s.clock + 1);
    SwitchKeepsInv(t);
    FitsOf(s);
    FitsOf(t);
    ServeFits(Switch(t));
    ServeKeepsInputs(Switch(t), Switch(t).writeMode);
  }

  lemma CycleKeepsInputs(s: State)
    requires Inv(s)
    ensures BanksFit(s) && Cycle(s).c == s.c && Cycle(s).arrivals == s.arrivals && Cycle(s).clock == s.clock + 1
  {
    hide Inv, Cycle, Switch, TrySchedule, TryProcess, BanksFit;
    CycleIs(s);
    var t := s.(clock := s.clock + 1);
    var m := Switch(t);
    SwitchKeepsInputs(t);
    ServeKeepsInputs(m, m.writeMode);
    ServeKeepsInputs(TrySchedule(m, m.writeMode), m.writeMode);
  }

  lemma StepKeepsConfig(s: State, ev: Event)
    requires Inv(s)
    ensures Step(s, ev).c == s.c
  {
    hide Inv, UpdateSchedule, Cycle;
    if ev.Cycles? { CycleKeepsInputs(s); }
  }
}
