/** When requests are served: what scheduling does to a request and its bank, and when its data can be transferred. */
module DramTiming {
  import opened Common
  import opened DramAddress
  import opened DramController
  import opened DramSteps
  import opened DramTheorems
  import opened DramDrain

  // ----- one request is scheduled

  /** How long a request takes: only the column access if its row is open, otherwise precharge and activation as well. */
  function Latency(c: Config, hit: bool): nat { if hit then c.tCAS else c.tRP + c.tRCD + c.tCAS }

  /** Entry `i` waits and its bank is idle. */
  predicate CanStart(s: State, w: bool, i: nat)
    requires BanksFit(s)
  {
    var es := Q(s, w).entries;
    i < |es| && es[i].address != 0 && !es[i].scheduled && !s.banks[BankIndex(s.c.g, es[i].address)].working
  }

  /** The row of entry `i` is open in its bank. */
  predicate RowOpen(s: State, w: bool, i: nat)
    requires BanksFit(s) && i < |Q(s, w).entries|
  {
    var a := Q(s, w).entries[i].address;
    s.banks[BankIndex(s.c.g, a)].openRow == Some(RowOf(s.c.g, a))
  }

  /** Entry `i` is next: the oldest that can start among those with an open row, or if there is none the oldest that can start. */
  ghost predicate IsNext(s: State, w: bool, i: nat)
    requires BanksFit(s)
  {
    var es := Q(s, w).entries;
    && CanStart(s, w, i)
    && ((exists j: nat :: CanStart(s, w, j) && RowOpen(s, w, j)) ==> RowOpen(s, w, i))
    && forall j: nat :: CanStart(s, w, j) && (RowOpen(s, w, i) ==> RowOpen(s, w, j)) ==>
         es[i].eventCycle <= es[j].eventCycle && (es[i].eventCycle == es[j].eventCycle ==> i <= j)
  }

  /** The state after entry `i` has been given to its bank. */
  ghost predicate Started(s: State, w: bool, i: nat, t: State)
    requires BanksFit(s) && i < |Q(s, w).entries|
  {
    var es, us, e := Q(s, w).entries, Q(t, w).entries, Q(s, w).entries[i];
    var k, due := BankIndex(s.c.g, e.address), s.clock + Latency(s.c, RowOpen(s, w, i));
    && |us| == |es| && us[i] == Entry(e.address, due, true, e.ticket) && (forall j: nat :: j < |es| && j != i ==> us[j] == es[j])
    && |t.banks| == |s.banks| && t.banks[k] == Bank(true, due, Some(RowOf(s.c.g, e.address)), RowOpen(s, w, i), w, !w, Some(i))
    && (forall j: nat :: j < |s.banks| && j != k ==> t.banks[j] == s.banks[j])
    && Q(t, !w) == Q(s, !w) && Q(t, w).occupancy == Q(s, w).occupancy && t.c == s.c && t.clock == s.clock && t.dbus == s.dbus
    && t.writeMode == s.writeMode && t.log == s.log && t.arrivals == s.arrivals
    && t.starts == s.starts + [Start(e.ticket, s.clock, RowOpen(s, w, i))]
    && t.scheduledReads == s.scheduledReads + (if w then 0 else 1) && t.scheduledWrites == s.scheduledWrites + (if w then 1 else 0)
  }

  lemma ChoiceIsNext(s: State, w: bool, i: nat)
    requires Shape(s) && Choice(s, w) == Some(i)
    ensures IsNext(s, w, i) && (i in Hits(s, w) <==> RowOpen(s, w, i))
  {
    SchedulerPicks(s, w, i);
    forall j: nat ensures j in Eligible(s, w) <==> CanStart(s, w, j) {}
    forall j: nat | CanStart(s, w, j) ensures j in Hits(s, w) <==> RowOpen(s, w, j) {}
    if j: nat :| CanStart(s, w, j) && RowOpen(s, w, j) { assert j in Hits(s, w); }
  }

  /** schedule starts the request that is next, if one can start, and changes nothing else. */
  lemma ScheduleStarts(s: State, w: bool)
    requires Shape(s)
    ensures var t := Schedule(s, w);
            if exists i: nat :: CanStart(s, w, i) then exists i: nat :: IsNext(s, w, i) && Started(s, w, i, t) else t == s
  {
    SchedulerPicks(s, w, 0);
    if Choice(s, w).Some? {
      var i := Choice(s, w).value;
      ChoiceIsNext(s, w, i);
      LaunchStarts(s, w, i);
      assert IsNext(s, w, i) && Started(s, w, i, Schedule(s, w));
    } else {
      forall i: nat ensures i in Eligible(s, w) <==> CanStart(s, w, i) {}
    }
  }

  lemma LaunchStarts(s: State, w: bool, i: nat)
    requires Shape(s) && CanStart(s, w, i)
    ensures Started(s, w, i, Launch(s, w, i, RowOpen(s, w, i)))
  {
  }

  // ----- no transfer is early

  /** The last start of the request with ticket `t`. */
  function LastStart(starts: seq<Start>, t: nat): Option<Start> {
    if |starts| == 0 then None
    else if starts[|starts| - 1].ticket == t then Some(starts[|starts| - 1])
    else LastStart(starts[..|starts| - 1], t)
  }

  /** The request with ticket `t` has been started, and is due at `cycle` or before. */
  ghost predicate DueBy(s: State, t: nat, cycle: nat) {
    var x := LastStart(s.starts, t);
    x.Some? && x.value.cycle + Latency(s.c, x.value.hit) <= cycle
  }

  /** The bank of scheduled entry `i` is not available before the entry is due. */
  ghost predicate NotEarly(s: State, i: nat)
    requires BanksFit(s)
  {
    var es := Q(s, s.writeMode).entries;
    i < |es| ==> DueBy(s, es[i].ticket, BankFor(s, es[i]).cycleAvailable)
  }

  ghost predicate TimingOk(s: State)
    requires BanksFit(s)
  {
    && (forall i: nat :: IsScheduled(Q(s, s.writeMode).entries, i) ==> NotEarly(s, i))
    && (forall k: nat :: k < |s.log| ==> DueBy(s, s.log[k].ticket, s.log[k].start))
  }

  lemma StartAppended(starts: seq<Start>, x: Start, t: nat)
    ensures LastStart(starts + [x], t) == if x.ticket == t then Some(x) else LastStart(starts, t)
  {
    assert (starts + [x])[..|starts + [x]| - 1] == starts;
  }

  lemma StartKeepsDue(s: State, m: State, x: Start, t: nat, cycle: nat)
    requires m.starts == s.starts + [x] && m.c == s.c && x.ticket != t && DueBy(s, t, cycle)
    ensures DueBy(m, t, cycle)
  {
    StartAppended(s.starts, x, t);
  }

  lemma SwitchKeepsTiming(s: State)
    requires Inv(s) && TimingOk(s)
    ensures Inv(Switch(s)) && TimingOk(Switch(s))
  {
    SwitchKeepsInv(s);
    if WantsSwitch(s) {
      var w := s.writeMode;
      var m := s.(writeMode := !w);
      QueuesOnly(s, m, w);
      ResetKeeps(m, w);
      hide Inv, Resetting, Reset;
      var t := Switch(s);
      forall k: nat | k < |t.log| ensures DueBy(t, t.log[k].ticket, t.log[k].start) { assert DueBy(s, s.log[k].ticket, s.log[k].start); }
    }
  }

  /** The request that is started is in no transfer yet, and no other entry has its ticket. */
  lemma TicketIsAlone(s: State, i: nat)
    requires Inv(s) && i < |Q(s, s.writeMode).entries| && Q(s, s.writeMode).entries[i].address != 0
    ensures var es := Q(s, s.writeMode).entries;
            && (forall j: nat :: j < |es| && j != i && es[j].address != 0 ==> es[j].ticket != es[i].ticket)
            && (forall k: nat :: k < |s.log| ==> s.log[k].ticket != es[i].ticket)
  {
    hide Tidy, NextsOk, BanksOk, CountersOk, BusOk;
    var w, es := s.writeMode, Q(s, s.writeMode).entries;
    assert EntryTicket(s, w, i) && Holds(es, i, es[i].ticket);
    forall j: nat | j < |es| && j != i && es[j].address != 0 ensures es[j].ticket != es[i].ticket {
      assert Holds(es, j, es[j].ticket);
    }
    assert InQueue(s, es[i].ticket);
    assert forall k: nat :: !Served(s.log, k, es[i].ticket);
    forall k: nat | k < |s.log| ensures s.log[k].ticket != es[i].ticket { assert !Served(s.log, k, es[i].ticket); }
  }

  /** A scheduled entry is live, and its bank works. */
  lemma ScheduledWorks(s: State, j: nat)
    requires Inv(s) && IsScheduled(Q(s, s.writeMode).entries, j)
    ensures Q(s, s.writeMode).entries[j].address != 0 && BankFor(s, Q(s, s.writeMode).entries[j]).working
    ensures BankFor(s, Q(s, s.writeMode).entries[j]).requestIndex == Some(j)
  {
    hide NextsOk, CountersOk, Tickets, BusOk;
    assert Occupies(s, s.writeMode, j);
  }

  lemma StartedIsDue(s: State, i: nat, t: State)
    requires BanksFit(s) && CanStart(s, s.writeMode, i) && Started(s, s.writeMode, i, t)
    ensures BanksFit(t) && NotEarly(t, i)
  {
    var e := Q(s, s.writeMode).entries[i];
    StartAppended(s.starts, Start(e.ticket, s.clock, RowOpen(s, s.writeMode, i)), e.ticket);
  }

  lemma OtherIsDue(s: State, i: nat, t: State, j: nat)
    requires Inv(s) && CanStart(s, s.writeMode, i) && Started(s, s.writeMode, i, t)
    requires j != i && IsScheduled(Q(s, s.writeMode).entries, j) && NotEarly(s, j)
    ensures BanksFit(t) && NotEarly(t, j)
  {
    hide Inv, DueBy;
    InvFits(s);
    var es := Q(s, s.writeMode).entries;
    TicketIsAlone(s, i);
    ScheduledWorks(s, j);
    StartKeepsDue(s, t, Start(es[i].ticket, s.clock, RowOpen(s, s.writeMode, i)), es[j].ticket, BankFor(s, es[j]).cycleAvailable);
  }

  lemma StartKeepsTiming(s: State, i: nat, t: State)
    requires Inv(s) && TimingOk(s) && CanStart(s, s.writeMode, i) && Started(s, s.writeMode, i, t)
    ensures BanksFit(t) && TimingOk(t)
  {
    hide Inv, TimingOk, DueBy, NotEarly;
    InvFits(s);
    TicketIsAlone(s, i);
    TimingParts(s);
    var w, es := s.writeMode, Q(s, s.writeMode).entries;
    var x := Start(es[i].ticket, s.clock, RowOpen(s, w, i));
    forall j: nat | IsScheduled(Q(t, w).entries, j) ensures NotEarly(t, j) {
      if j == i { StartedIsDue(s, i, t); } else { OtherIsDue(s, i, t, j); }
    }
    forall k: nat | k < |t.log| ensures DueBy(t, t.log[k].ticket, t.log[k].start) { StartKeepsDue(s, t, x, s.log[k].ticket, s.log[k].start); }
    TimingWhole(t);
  }

  lemma TimingParts(s: State)
    requires BanksFit(s) && TimingOk(s)
    ensures forall i: nat :: IsScheduled(Q(s, s.writeMode).entries, i) ==> NotEarly(s, i)
    ensures forall k: nat :: k < |s.log| ==> DueBy(s, s.log[k].ticket, s.log[k].start)
  {
  }

  lemma TimingWhole(s: State)
    requires BanksFit(s)
    requires forall i: nat :: IsScheduled(Q(s, s.writeMode).entries, i) ==> NotEarly(s, i)
    requires forall k: nat :: k < |s.log| ==> DueBy(s, s.log[k].ticket, s.log[k].start)
    ensures TimingOk(s)
  {
  }

  lemma ScheduleKeepsTiming(s: State)
    requires Inv(s) && TimingOk(s)
    ensures Inv(Schedule(s, s.writeMode)) && TimingOk(Schedule(s, s.writeMode))
  {
    hide TimingOk, Tidy, NextsOk, BanksOk, CountersOk, Tickets, BusOk, Schedule;
    ScheduleKeepsInv(s);
    ScheduleStarts(s, s.writeMode);
    var t := Schedule(s, s.writeMode);
    if exists i: nat :: CanStart(s, s.writeMode, i) {
      var i: nat :| IsNext(s, s.writeMode, i) && Started(s, s.writeMode, i, t);
      StartKeepsTiming(s, i, t);
    }
  }

  /** A transfer at `clock` is not early, and the banks of the other entries stay. */
  lemma ProcessKeepsTiming(s: State)
    requires Inv(s) && TimingOk(s) && ProcessDue(s, s.writeMode)
    ensures Inv(Process(s, s.writeMode)) && TimingOk(Process(s, s.writeMode))
  {
    hide Inv, TimingOk;
    ProcessKeepsInv(s);
    ProcessChecks(s);
    InvFits(s);
    TimingParts(s);
    var w, es := s.writeMode, Q(s, s.writeMode).entries;
    var i, t := Q(s, w).nextProcessIndex, Process(s, s.writeMode);
    var k := BankIndex(s.c.g, es[i].address);
    ScheduledWorks(s, i);
    assert NotEarly(s, i);
    forall j: nat | IsScheduled(Q(t, w).entries, j) ensures NotEarly(t, j) {
      assert IsScheduled(es, j) && NotEarly(s, j);
      ScheduledWorks(s, j);
    }
    forall n: nat | n < |t.log| ensures DueBy(t, t.log[n].ticket, t.log[n].start) {
      if n < |s.log| { assert DueBy(s, s.log[n].ticket, s.log[n].start); }
    }
    TimingWhole(t);
  }

  lemma InvFits(s: State)
    requires Inv(s)
    ensures BanksFit(s) && Shape(s)
  {
  }

  lemma OperateKeepsTiming(s: State)
    requires Inv(s) && TimingOk(s)
    ensures Inv(Operate(s)) && TimingOk(Operate(s))
  {
    hide Inv, TimingOk, Switch, Schedule, Process;
    InvFits(s);
    SwitchKeepsTiming(s);
    var m := Switch(s);
    InvFits(m);
    if ScheduleDue(m, m.writeMode) { ScheduleKeepsTiming(m); ScheduleKeepsInv(m); }
    var r := TrySchedule(m, m.writeMode);
    InvFits(r);
    if ProcessDue(r, r.writeMode) { ProcessKeepsTiming(r); }
  }

  lemma ArrivalKeepsTiming(s: State, w: bool, a: nat, e: nat)
    requires Inv(s) && TimingOk(s) && a != 0
    ensures Inv(Add(s, w, a, e)) && TimingOk(Add(s, w, a, e))
  {
    hide Inv, TimingOk;
    AddKeepsInv(s, w, a, e);
    InvFits(s);
    TimingParts(s);
    var t := Add(s, w, a, e);
    forall i: nat | IsScheduled(Q(t, t.writeMode).entries, i) ensures NotEarly(t, i) {
      assert IsScheduled(Q(s, s.writeMode).entries, i) && NotEarly(s, i);
    }
    forall k: nat | k < |t.log| ensures DueBy(t, t.log[k].ticket, t.log[k].start) { assert DueBy(s, s.log[k].ticket, s.log[k].start); }
    TimingWhole(t);
  }

  lemma StepKeepsTiming(s: State, ev: Event)
    requires Inv(s) && TimingOk(s)
    ensures BanksFit(s) && Inv(Step(s, ev)) && TimingOk(Step(s, ev))
  {
    hide Inv, TimingOk, Operate, Add;
    InvFits(s);
    match ev
    case Arrives(w, a, e) => if a != 0 { ArrivalKeepsTiming(s, w, a, e); }
    case Cycles =>
      TickKeepsInv(s, 1);
      TickKeepsTiming(s);
      OperateKeepsTiming(s.(clock := s.clock + 1));
  }

  lemma TickKeepsTiming(s: State)
    requires BanksFit(s) && TimingOk(s)
    ensures TimingOk(s.(clock := s.clock + 1))
  {
    var t := s.(clock := s.clock + 1);
    forall i: nat | IsScheduled(Q(t, t.writeMode).entries, i) ensures NotEarly(t, i) { assert NotEarly(s, i); }
    forall k: nat | k < |t.log| ensures DueBy(t, t.log[k].ticket, t.log[k].start) { assert DueBy(s, s.log[k].ticket, s.log[k].start); }
  }

  lemma {:induction false} RunKeepsTiming(s0: State, evs: seq<Event>)
    requires Inv(s0) && BanksFit(s0) && TimingOk(s0)
    ensures BanksFit(Run(s0, evs)) && TimingOk(Run(s0, evs))
    decreases |evs|
  {
    hide Inv, TimingOk, Step;
    if |evs| > 0 {
      RunKeepsTiming(s0, evs[..|evs| - 1]);
      var m := Run(s0, evs[..|evs| - 1]);
      StepKeepsTiming(m, evs[|evs| - 1]);
      InvFits(Step(m, evs[|evs| - 1]));
    }
  }

  /** In every run, no request is transferred before the latency of its row hit or miss has passed since it was last started. */
  lemma NoTransferIsEarly(c: Config, evs: seq<Event>, k: nat)
    requires c.Valid() && k < |Reached(c, evs).log|
    ensures var s := Reached(c, evs);
            var x := LastStart(s.starts, s.log[k].ticket);
            x.Some? && x.value.cycle + Latency(c, x.value.hit) <= s.log[k].start
  {
    hide Reached, LastStart;
    ReachedInTime(c, evs);
    TimingParts(Reached(c, evs));
  }

  lemma ReachedInTime(c: Config, evs: seq<Event>)
    requires c.Valid()
    ensures var s := Reached(c, evs); s.c == c && BanksFit(s) && TimingOk(s)
  {
    hide Inv, Run;
    InitialInv(c);
    InitialInTime(c);
    RunKeepsTiming(Initial(c), evs);
    SameConfig(Initial(c), evs);
  }

  lemma InitialInTime(c: Config)
    requires c.Valid()
    ensures BanksFit(Initial(c)) && TimingOk(Initial(c))
  {
  }

  lemma {:induction false} SameConfig(s0: State, evs: seq<Event>)
    requires Inv(s0)
    ensures Run(s0, evs).c == s0.c
    decreases |evs|
  {
    hide Inv, Step;
    if |evs| > 0 {
      SameConfig(s0, evs[..|evs| - 1]);
      StepConfig(Run(s0, evs[..|evs| - 1]), evs[|evs| - 1]);
    }
  }

  lemma StepConfig(s: State, ev: Event)
    requires Inv(s)
    ensures BanksFit(s) && Step(s, ev).c == s.c
  {
    hide Inv, Switch, Schedule, Process, ScheduleDue, ProcessDue, OutcomeOf, BankIndex, UpdateSchedule;
    InvFits(s);
    match ev
    case Arrives(w, a, e) =>
    case Cycles =>
      var a := s.(clock := s.clock + 1);
      TickKeepsInv(s, 1);
      SwitchKeepsInv(a);
      SwitchConfig(a);
      var m := Switch(a);
      InvFits(m);
      ScheduleStarts(m, m.writeMode);
      if ScheduleDue(m, m.writeMode) { ScheduleKeepsInv(m); }
      var r := TrySchedule(m, m.writeMode);
      InvFits(r);
      if ProcessDue(r, r.writeMode) { ProcessChecks(r); ProcessConfig(r); }
  }

  lemma SwitchConfig(s: State)
    requires BanksFit(s)
    ensures Switch(s).c == s.c
  {
  }

  lemma ProcessConfig(s: State)
    requires BanksFit(s) && Q(s, s.writeMode).nextProcessIndex < |Q(s, s.writeMode).entries|
    ensures Process(s, s.writeMode).c == s.c
  {
  }

  // ----- a lone read

  ghost predicate AllEmptyBut(es: seq<Entry>, first: Entry) {
    |es| > 0 && es[0] == first && forall i: nat :: 0 < i < |es| ==> es[i] == EMPTY
  }

  /** The controller reads, its bus is free, and `e` is the only entry of its queues; no entry at all if `e` is EMPTY. */
  ghost predicate Lone(s: State, e: Entry) {
    && Inv(s) && !s.writeMode && s.dbus <= s.clock && s.c.High() > 0
    && AllEmptyBut(s.rq.entries, e) && AllEmptyBut(s.wq.entries, EMPTY)
  }

  lemma {:induction false} NoneLive(es: seq<Entry>)
    requires forall i: nat :: i < |es| ==> es[i] == EMPTY
    ensures Live(es) == 0
  {
    if |es| > 0 { NoneLive(es[..|es| - 1]); }
  }

  lemma {:induction false} OneLive(es: seq<Entry>, e: Entry)
    requires AllEmptyBut(es, e) && e.address != 0
    ensures Live(es) == 1
  {
    if |es| > 1 { OneLive(es[..|es| - 1], e); } else { NoneLive(es[..0]); }
  }

  lemma LoneReads(s: State, e: Entry)
    requires Lone(s, e) && e.address != 0
    ensures BanksFit(s) && Switch(s) == s
  {
    hide NextsOk, BanksOk, CountersOk, Tickets, BusOk;
    OneLive(s.rq.entries, e);
    NoneLive(s.wq.entries);
  }

  lemma FindsNone(es: seq<Entry>, a: nat, i: nat)
    requires i <= |es| && a != 0 && forall j: nat :: i <= j < |es| ==> es[j] == EMPTY
    ensures FindFrom(es, a, i) == |es|
    decreases |es| - i
  {
    if i < |es| { FindsNone(es, a, i + 1); }
  }

  /** A read that arrives at an idle controller is queued. */
  lemma LoneArrives(s: State, a: nat, cycle: nat)
    requires Lone(s, EMPTY) && a != 0
    ensures Lone(Add(s, false, a, cycle), Entry(a, cycle, false, |s.arrivals|))
    ensures var t := Add(s, false, a, cycle); t.clock == s.clock && t.log == s.log && t.banks == s.banks && t.c == s.c
  {
    FindsNone(s.rq.entries, a, 0);
    FindsNone(s.wq.entries, a, 0);
    AddKeepsInv(s, false, a, cycle);
    hide Inv;
    InvFits(s);
  }

  /** Among one entry, that one is the oldest. */
  lemma OnlyOne(es: seq<Entry>, among: set<nat>)
    requires |es| > 0 && among == {0 as nat}
    ensures OldestOf(es, among) == Some(0)
  {
    OldestMeaning(es, among, |es|);
  }

  lemma NoOne(es: seq<Entry>)
    ensures OldestOf(es, {}) == None
  {
  }

  /** A waiting lone read is started at once. */
  lemma LoneStarts(s: State, e: Entry)
    requires Lone(s, e) && e.address != 0 && !e.scheduled && e.eventCycle <= s.clock
    ensures BanksFit(s) && Started(s, false, 0, TrySchedule(s, false))
  {
    hide Tidy, CountersOk, Tickets, BusOk, Schedule;
    var es := s.rq.entries;
    assert Unscheduled(es) == {0 as nat};
    OnlyOne(es, Unscheduled(es));
    var k := BankIndex(s.c.g, e.address);
    assert BankOk(s, false, k);
    assert CanStart(s, false, 0);
    ScheduleStarts(s, false);
    assert forall i: nat :: CanStart(s, false, i) ==> i == 0;
  }

  /** A started lone read is transferred as soon as it is due, and not before. */
  lemma LoneProcesses(s: State, e: Entry)
    requires Lone(s, e) && e.address != 0 && e.scheduled && BankFor(s, e).cycleAvailable == e.eventCycle
    ensures BanksFit(s) && TrySchedule(s, false) == s
    ensures var t := TryProcess(s, false);
            if e.eventCycle <= s.clock then t.log == s.log + [Transfer(s.clock, false, e.ticket, e.address)] else t == s
  {
    hide Tidy, CountersOk, Tickets, BusOk, BanksOk, UpdateProcess;
    var es := s.rq.entries;
    assert Scheduled(es) == {0 as nat};
    assert Unscheduled(es) == {};
    OnlyOne(es, Scheduled(es));
    NoOne(es);
  }

  /** The lone read `e` has been started and is due at its event cycle. */
  ghost predicate Pending(s: State, e: Entry) {
    Lone(s, e) && e.address != 0 && e.scheduled && BankFor(s, e).cycleAvailable == e.eventCycle
  }

  lemma PendingInv(s: State, e: Entry)
    requires Pending(s, e)
    ensures Inv(s) && BanksFit(s)
  {
    hide Inv;
    InvFits(s);
  }

  lemma PendingTicks(s: State, e: Entry)
    requires Pending(s, e)
    ensures Pending(s.(clock := s.clock + 1), e) && Switch(s.(clock := s.clock + 1)) == s.(clock := s.clock + 1)
  {
    TickKeepsInv(s, 1);
    hide Inv;
    LoneReads(s.(clock := s.clock + 1), e);
  }

  /** A pending read waits until it is due, and is transferred in that cycle. */
  lemma PendingWaits(s: State, e: Entry)
    requires Pending(s, e)
    ensures BanksFit(s)
    ensures s.clock + 1 < e.eventCycle ==> Cycle(s) == s.(clock := s.clock + 1) && Pending(Cycle(s), e)
    ensures s.clock + 1 == e.eventCycle ==> Cycle(s).log == s.log + [Transfer(e.eventCycle, false, e.ticket, e.address)]
  {
    hide Inv, Switch, TrySchedule, TryProcess;
    PendingInv(s, e);
    PendingTicks(s, e);
    LoneProcesses(s.(clock := s.clock + 1), e);
  }

  lemma StartedPends(s: State, e: Entry, t: State)
    requires Lone(s, e) && e.address != 0 && !e.scheduled && Started(s, false, 0, t) && Inv(t)
    ensures var f := Entry(e.address, s.clock + Latency(s.c, RowOpen(s, false, 0)), true, e.ticket); Pending(t, f)
  {
    hide Inv;
    InvFits(s);
  }

  lemma WaitingTicks(s: State, e: Entry)
    requires Lone(s, e) && e.address != 0
    ensures var m := s.(clock := s.clock + 1); Lone(m, e) && BanksFit(m) && Switch(m) == m
  {
    TickKeepsInv(s, 1);
    hide Inv;
    LoneReads(s.(clock := s.clock + 1), e);
  }

  /** The first cycle after the arrival: the read is started, and transferred if it takes no time. */
  lemma FirstCycle(s: State, e: Entry)
    requires Lone(s, e) && e.address != 0 && !e.scheduled && e.eventCycle <= s.clock + 1
    ensures BanksFit(s)
    ensures var lat := Latency(s.c, RowOpen(s, false, 0));
            var f := Entry(e.address, s.clock + 1 + lat, true, e.ticket);
            if lat == 0 then Cycle(s).log == s.log + [Transfer(s.clock + 1, false, e.ticket, e.address)]
            else Pending(Cycle(s), f) && Cycle(s).log == s.log && Cycle(s).clock == s.clock + 1
  {
    hide Inv, Switch, TrySchedule, TryProcess, Lone, Started;
    LoneFits(s, e);
    WaitingTicks(s, e);
    var m := s.(clock := s.clock + 1);
    LoneFits(m, e);
    LoneStarts(m, e);
    var t := TrySchedule(m, false);
    TryKeepsInv(m);
    StartedPends(m, e, t);
    StartedParts(m, e, t);
    var f := Entry(e.address, m.clock + Latency(s.c, RowOpen(s, false, 0)), true, e.ticket);
    LoneProcesses(t, f);
  }

  lemma LoneFits(s: State, e: Entry)
    requires Lone(s, e)
    ensures Inv(s) && BanksFit(s) && |s.rq.entries| > 0 && !s.writeMode && s.rq.entries[0] == e
  {
    hide Inv;
    InvFits(s);
  }

  lemma StartedParts(s: State, e: Entry, t: State)
    requires BanksFit(s) && |s.rq.entries| > 0 && Started(s, false, 0, t)
    ensures t.clock == s.clock && t.log == s.log && t.writeMode == s.writeMode && t.c == s.c
  {
  }

  lemma TryKeepsInv(s: State)
    requires Inv(s)
    ensures Inv(TrySchedule(s, s.writeMode))
  {
    hide Inv;
    InvFits(s);
    if ScheduleDue(s, s.writeMode) { ScheduleKeepsInv(s); }
  }

  lemma {:induction false} PendingRuns(s: State, e: Entry, n: nat)
    requires Pending(s, e) && s.clock + n < e.eventCycle
    ensures Inv(s) && Pending(After(s, n), e) && After(s, n).clock == s.clock + n && After(s, n).log == s.log
    decreases n
  {
    hide Pending, Cycle, Inv;
    PendingInv(s, e);
    if n > 0 {
      PendingWaits(s, e);
      PendingRuns(Cycle(s), e, n - 1);
    }
  }

  lemma {:induction false} OneMoreCycle(s: State, n: nat)
    requires Inv(s)
    ensures BanksFit(After(s, n)) && After(s, n + 1) == Cycle(After(s, n))
    decreases n
  {
    hide Inv, Cycle;
    InvFits(s);
    InvFits(After(s, n));
    if n > 0 {
      CycleKeepsInv(s);
      OneMoreCycle(Cycle(s), n - 1);
    }
  }

  /**
   A lone read: it arrives at a controller that is idle and in read mode, is started in the next
   cycle, and its data goes over the bus exactly when the latency of its row hit or miss has
   passed, not before and not after.
   */
  lemma LoneRead(s: State, address: nat, cycle: nat, n: nat)
    requires Lone(s, EMPTY) && address != 0 && cycle <= s.clock + 1
    ensures var m := Add(s, false, address, cycle);
            && Inv(m) && BanksFit(m) && |m.rq.entries| > 0
            && var lat := Latency(s.c, RowOpen(m, false, 0));
            && (n < lat ==> After(m, 1 + n).log == s.log)
            && (n == lat ==> After(m, 1 + n).log == s.log + [Transfer(s.clock + 1 + lat, false, |s.arrivals|, address)])
  {
    hide Inv, Cycle, Lone, Pending, Add;
    LoneArrives(s, address, cycle);
    var m, e := Add(s, false, address, cycle), Entry(address, cycle, false, |s.arrivals|);
    LoneFits(m, e);
    FirstCycle(m, e);
    CycleKeepsInv(m);
    var lat := Latency(s.c, RowOpen(m, false, 0));
    var f := Entry(address, m.clock + 1 + lat, true, |s.arrivals|);
    if n <= lat {
      if lat > 0 {
        var t := Cycle(m);
        if n < lat {
          PendingRuns(t, f, n);
        } else {
          PendingRuns(t, f, n - 1);
          PendingWaits(After(t, n - 1), f);
          OneMoreCycle(t, n - 1);
        }
      }
    }
  }
}
