/** Without new arrivals both queues drain, across every switch of the mode and the resets it causes. */
module DramDrain {
  import opened DramController
  import opened DramSteps
  import opened DramTheorems

  // ----- the measure

  function Total(s: State): int { s.rq.occupancy + s.wq.occupancy }

  function Active(s: State): Queue { Q(s, s.writeMode) }

  function ActiveScheduled(s: State): int { if s.writeMode then s.scheduledWrites else s.scheduledReads }

  /** How many entries of the served queue wait for a bank. */
  function Waiting(s: State): int { Active(s).occupancy - ActiveScheduled(s) }

  function Latest(a: nat, b: nat): nat { if a < b then b else a }

  /** The cycle by which the next entry is transferred, or else scheduled, if nothing else happens before. */
  function Deadline(s: State): nat
    requires BanksFit(s)
  {
    var q := Active(s);
    if q.nextProcessCycle.Some? && q.nextProcessIndex < |q.entries| then
      Latest(q.nextProcessCycle.value, Latest(BankFor(s, q.entries[q.nextProcessIndex]).cycleAvailable, s.dbus))
    else if q.nextScheduleCycle.Some? then q.nextScheduleCycle.value
    else 0
  }

  function Remaining(s: State): nat
    requires BanksFit(s)
  {
    if s.clock < Deadline(s) then Deadline(s) - s.clock else 0
  }

  function Wants(s: State): nat { if WantsSwitch(s) then 1 else 0 }

  ghost predicate Smaller(s': State, s: State)
    requires BanksFit(s) && BanksFit(s')
  {
    || Total(s') < Total(s)
    || (Total(s') == Total(s) && Wants(s') < Wants(s))
    || (Total(s') == Total(s) && Wants(s') == Wants(s) && Waiting(s') < Waiting(s))
    || (Total(s') == Total(s) && Wants(s') == Wants(s) && Waiting(s') == Waiting(s) && Remaining(s') < Remaining(s))
  }

  lemma {:induction false} CountBelowLive(es: seq<Entry>)
    requires forall i: nat :: i < |es| && es[i].scheduled ==> es[i].address != 0
    ensures Count(es) <= Live(es)
    ensures Count(es) < Live(es) ==> exists i: nat :: IsUnscheduled(es, i)
    ensures Count(es) > 0 ==> exists i: nat :: IsScheduled(es, i)
  {
    if |es| > 0 {
      var front := es[..|es| - 1];
      CountBelowLive(front);
      if i: nat :| IsUnscheduled(front, i) { assert IsUnscheduled(es, i); }
      if i: nat :| IsScheduled(front, i) { assert IsScheduled(es, i); }
      assert es[|es| - 1].scheduled ==> IsScheduled(es, |es| - 1);
      assert es[|es| - 1].address != 0 && !es[|es| - 1].scheduled ==> IsUnscheduled(es, |es| - 1);
    }
  }

  lemma Bounds(s: State)
    requires Inv(s)
    ensures 0 <= Waiting(s) && 0 <= s.rq.occupancy && 0 <= s.wq.occupancy && BanksFit(s)
    ensures ActiveScheduled(s) == Count(Active(s).entries)
  {
    forall w: bool, i: nat | IsScheduled(Q(s, w).entries, i) ensures Q(s, w).entries[i].address != 0 { ScheduledIsLive(s, w, i); }
    CountBelowLive(s.rq.entries);
    CountBelowLive(s.wq.entries);
  }

  // ----- one cycle

  /** After a switch, no switch is wanted until the queues change. */
  lemma SwitchOnce(s: State)
    requires BanksFit(s) && WantsSwitch(s) && s.c.High() > 0 && s.rq.occupancy >= 0 && s.wq.occupancy >= 0
    ensures !WantsSwitch(Switch(s))
  {
    SwitchKeepsOccupancy(s);
    assert s.c.High() >= s.c.Low();
  }

  lemma {:induction false} ResetKeepsOccupancy(s: State, w: bool, i: nat)
    requires BanksFit(s) && i <= |Q(s, w).entries|
    ensures var r := ResetFrom(s, w, i); r.rq.occupancy == s.rq.occupancy && r.wq.occupancy == s.wq.occupancy
    decreases |Q(s, w).entries| - i
  {
    if i < |Q(s, w).entries| { ResetKeepsOccupancy(ResetOne(s, w, i), w, i + 1); }
  }

  lemma SwitchKeepsOccupancy(s: State)
    requires BanksFit(s)
    ensures Switch(s).rq.occupancy == s.rq.occupancy && Switch(s).wq.occupancy == s.wq.occupancy
    ensures !WantsSwitch(s) ==> Switch(s) == s
  {
    ResetKeepsOccupancy(s.(writeMode := !s.writeMode), s.writeMode, 0);
  }

  /** schedule moves one waiting entry to its bank, or finds none and changes nothing. */
  lemma ScheduleEffect(s: State)
    requires BanksFit(s)
    ensures var w, r := s.writeMode, TrySchedule(s, s.writeMode);
            && r.writeMode == w && r.rq.occupancy == s.rq.occupancy && r.wq.occupancy == s.wq.occupancy && r.c == s.c
            && (r == s || Waiting(r) == Waiting(s) - 1)
            && (r == s ==> !ScheduleDue(s, w) || Choice(s, w).None?)
            && |Q(r, w).entries| == |Q(s, w).entries|
  {
    hide OldestOf, Hits, Eligible;
    var w := s.writeMode;
    if ScheduleDue(s, w) && Choice(s, w).Some? {
      var i := Choice(s, w).value;
      assert Waiting(TrySchedule(s, w)) == Waiting(s) - 1;
    }
  }

  /** process transfers one entry, or at most delays a bank until the bus is free. */
  lemma ProcessEffect(s: State)
    requires BanksFit(s)
    ensures var w, r := s.writeMode, TryProcess(s, s.writeMode);
            && r.writeMode == w && r.c == s.c
            && (|| Total(r) == Total(s) - 1
                || (&& r.rq == s.rq && r.wq == s.wq && r.scheduledReads == s.scheduledReads && r.scheduledWrites == s.scheduledWrites
                    && r.clock == s.clock && r.dbus == s.dbus && BanksFit(r)))
  {
    hide OldestOf;
  }

  /** If nothing is due or eligible, the deadline stands, and it lies ahead. */
  lemma NothingDue(s: State)
    requires Inv(s) && Total(s) > 0 && !WantsSwitch(s)
    requires !ScheduleDue(s, s.writeMode) || Choice(s, s.writeMode).None?
    requires var r := TryProcess(s, s.writeMode); BanksFit(r) && Total(r) == Total(s)
    ensures var r := TryProcess(s, s.writeMode); Deadline(r) == Deadline(s) && s.clock < Deadline(s)
  {
    SomethingPending(s);
    if ProcessDue(s, s.writeMode) { ProcessChecks(s); ProcessWaits(s); }
  }

  /** An entry of the served queue that waits or is scheduled gives a deadline. */
  lemma SomethingPending(s: State)
    requires Inv(s) && Total(s) > 0 && !WantsSwitch(s)
    requires !ScheduleDue(s, s.writeMode) || Choice(s, s.writeMode).None?
    ensures var q := Active(s);
            if q.nextProcessCycle.Some? then q.nextProcessIndex < |q.entries|
            else q.nextScheduleCycle.Some? && q.nextScheduleCycle.value > s.clock
  {
    Bounds(s);
    var q := Active(s);
    var es := q.entries;
    OldestMeaning(es, Scheduled(es), |es|);
    OldestMeaning(es, Unscheduled(es), |es|);
    if q.nextProcessCycle.None? {
      assert NothingScheduled(es) by {
        forall i: nat | i < |es| ensures !IsScheduled(es, i) { assert i !in Scheduled(es); }
      }
      NoneCounted(es);
      SomeWaits(s);
      var i: nat :| IsUnscheduled(es, i);
      assert i in Unscheduled(es);
      AllReleased(s, s.writeMode);
      assert i in Eligible(s, s.writeMode);
      SchedulerPicks(s, s.writeMode, i);
    }
  }

  lemma SomeWaits(s: State)
    requires Inv(s) && Total(s) > 0 && !WantsSwitch(s) && Count(Active(s).entries) == 0
    ensures exists i: nat :: IsUnscheduled(Active(s).entries, i)
  {
    Bounds(s);
    forall i: nat | IsScheduled(Active(s).entries, i) ensures Active(s).entries[i].address != 0 { ScheduledIsLive(s, s.writeMode, i); }
    CountBelowLive(Active(s).entries);
  }

  lemma ProcessWaits(s: State)
    requires BanksFit(s) && ProcessDue(s, s.writeMode)
    requires Total(TryProcess(s, s.writeMode)) == Total(s)
    ensures BanksFit(TryProcess(s, s.writeMode)) && Deadline(TryProcess(s, s.writeMode)) == Deadline(s) && s.clock < Deadline(s)
  {
    hide OldestOf;
  }

  /** Every cycle makes the measure smaller until both queues are empty. */
  lemma CycleProgresses(s: State)
    requires Inv(s) && Total(s) > 0 && s.c.High() > 0
    ensures BanksFit(s) && BanksFit(Cycle(s)) && Smaller(Cycle(s), s)
  {
    hide Inv, Cycle, Switch, TrySchedule, TryProcess;
    var t := s.(clock := s.clock + 1);
    CycleIs(s);
    var m := Switch(t);
    Bounds(s);
    Bounds(m);
    SwitchKeepsOccupancy(t);
    if WantsSwitch(t) {
      SwitchOnce(t);
      ServedAfterSwitch(m);
    } else {
      ServedProgress(s, t);
    }
  }

  lemma ServedAfterSwitch(m: State)
    requires BanksFit(m)
    requires !WantsSwitch(m)
    ensures var r := TrySchedule(m, m.writeMode);
            && BanksFit(r)
            && var s' := TryProcess(r, m.writeMode);
            Total(s') < Total(m) || (Total(s') == Total(m) && !WantsSwitch(s'))
  {
    ScheduleEffect(m);
    ProcessEffect(TrySchedule(m, m.writeMode));
  }

  lemma ServedProgress(s: State, t: State)
    requires Inv(t) && t == s.(clock := s.clock + 1) && Total(t) > 0 && !WantsSwitch(t)
    requires BanksFit(s) && BanksFit(t) && BanksFit(TrySchedule(t, t.writeMode)) && BanksFit(TryProcess(TrySchedule(t, t.writeMode), t.writeMode))
    ensures Smaller(TryProcess(TrySchedule(t, t.writeMode), t.writeMode), s)
  {
    ScheduleEffect(t);
    var r := TrySchedule(t, t.writeMode);
    ProcessEffect(r);
    var s' := TryProcess(r, t.writeMode);
    if Total(s') == Total(t) && r == t {
      NothingDue(t);
      assert Deadline(t) == Deadline(s);
    }
  }

  // ----- all the way down

  ghost function After(s: State, n: nat): (r: State)
    requires Inv(s)
    ensures Inv(r)
    decreases n
  {
    hide Inv, Operate;
    if n == 0 then s else (CycleKeepsInv(s); After(Cycle(s), n - 1))
  }

  /** Once no more requests arrive, after some number of cycles both queues are empty. */
  lemma {:induction false} QueuesDrain(s: State) returns (n: nat)
    requires Inv(s) && s.c.High() > 0
    ensures Total(After(s, n)) == 0 && After(s, n).arrivals == s.arrivals
    decreases Total(s), Wants(s), Waiting(s), if BanksFit(s) then Remaining(s) else 0
  {
    hide Inv;
    Bounds(s);
    if Total(s) == 0 { return 0; }
    CycleProgresses(s);
    CycleKeepsInv(s);
    CycleKeepsInputs(s);
    Bounds(Cycle(s));
    n := QueuesDrain(Cycle(s));
    n := n + 1;
  }

  /** Whatever was accepted before is transferred in the end, exactly once. */
  lemma EveryRequestIsServed(c: Config, evs: seq<Event>, t: nat)
    requires c.Valid() && c.wqSize >= 2 && t < |Reached(c, evs).arrivals|
    ensures exists n: nat :: InLogTimes(After(Reached(c, evs), n).log, t) == 1
  {
    var s := Reached(c, evs);
    ConfigStays(c, evs);
    hide Reached;
    var n := QueuesDrain(s);
    ServedIn(After(s, n), t);
  }

  lemma ServedIn(r: State, t: nat)
    requires Inv(r) && Total(r) == 0 && t < |r.arrivals|
    ensures InLogTimes(r.log, t) == 1
  {
    Bounds(r);
    var es := Q(r, r.arrivals[t].write).entries;
    Conserved(r, t);
    QueueTimes(es, t);
    if i: nat :| Holds(es, i, t) { LiveUpdate(es, i, EMPTY); }
  }
}
