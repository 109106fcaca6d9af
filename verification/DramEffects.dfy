/** What each part of a cycle, and an arrival, does to the queues, the banks and the bus, in terms of their fields. */
module DramEffects {
  import opened Common
  import opened DramAddress
  import opened DramController
  import opened DramSteps
  import opened DramTheorems
  import opened DramTiming

  // ----- switching

  /** An entry that is taken back waits again from now on. */
  ghost predicate TakenBack(s: State, e: Entry, f: Entry) {
    f == if e.scheduled then Entry(e.address, s.clock, false, e.ticket) else e
  }

  /** A bank that worked for an entry of queue `w` is free; its row stays open if only the column access was missing. */
  ghost predicate Released(s: State, w: bool, b: Bank, c: Bank) {
    if !b.working then c == b
    else
      && b.requestIndex.Some? && b.requestIndex.value < |Q(s, w).entries| && s.c.g.Valid()
      && var row := RowOf(s.c.g, Q(s, w).entries[b.requestIndex.value].address);
      c == Bank(false, s.clock, if b.cycleAvailable <= s.clock + s.c.tCAS then Some(row) else None, false, false, false, None)
  }

  /** What the loop of reset_remain_requests does from entry `i` on. */
  ghost predicate ResetFor(s: State, r: State, w: bool, i: nat)
    requires BanksFit(s)
  {
    && |Q(r, w).entries| == |Q(s, w).entries| && Q(r, !w) == Q(s, !w) && |r.banks| == |s.banks|
    && Q(r, w).occupancy == Q(s, w).occupancy
    && (forall j: nat :: j < |Q(s, w).entries| ==>
          if j < i then Q(r, w).entries[j] == Q(s, w).entries[j] else TakenBack(s, Q(s, w).entries[j], Q(r, w).entries[j]))
    && (forall k: nat :: k < |s.banks| ==>
          if s.banks[k].requestIndex.Some? && s.banks[k].requestIndex.value < i then r.banks[k] == s.banks[k]
          else Released(s, w, s.banks[k], r.banks[k]))
  }

  lemma ResetOneFor(s: State, r: State, w: bool, i: nat)
    requires Resetting(s, w) && i < |Q(s, w).entries| && BanksFit(ResetOne(s, w, i)) && ResetFor(ResetOne(s, w, i), r, w, i + 1)
    ensures ResetFor(s, r, w, i)
  {
    var m, es := ResetOne(s, w, i), Q(s, w).entries;
    var k0 := BankIndex(s.c.g, es[i].address);
    assert es[i].scheduled ==> IsScheduled(es, i) && Occupies(s, w, i);
    hide Tickets, CountersOk, Tidy;
    forall k: nat | k < |s.banks|
      ensures if s.banks[k].requestIndex.Some? && s.banks[k].requestIndex.value < i then r.banks[k] == s.banks[k]
              else Released(s, w, s.banks[k], r.banks[k])
    {
      assert BankOk(s, w, k);
    }
  }

  lemma {:induction false} ResetFromFor(s: State, w: bool, i: nat)
    requires Resetting(s, w) && i <= |Q(s, w).entries|
    ensures BanksFit(s) && ResetFor(s, ResetFrom(s, w, i), w, i)
    decreases |Q(s, w).entries| - i
  {
    hide Resetting, ResetOne, ResetFor;
    ResettingShape(s, w);
    if i < |Q(s, w).entries| {
      ResetOneKeeps(s, w, i);
      ResettingShape(ResetOne(s, w, i), w);
      ResetFromFor(ResetOne(s, w, i), w, i + 1);
      ResetOneFor(s, ResetFrom(s, w, i), w, i);
    } else {
      NothingReset(s, w);
    }
  }

  lemma NothingReset(s: State, w: bool)
    requires Resetting(s, w)
    ensures BanksFit(s) && ResetFor(s, s, w, |Q(s, w).entries|)
  {
    hide Tickets, CountersOk, Tidy;
    var n := |Q(s, w).entries|;
    forall k: nat | k < |s.banks|
      ensures if s.banks[k].requestIndex.Some? && s.banks[k].requestIndex.value < n then true else Released(s, w, s.banks[k], s.banks[k])
    {
      assert BankOk(s, w, k);
    }
    assert Q(s, !w) == Q(s, !w);
  }

  /** Whether the direction changes: to writing when enough writes wait or no read does, back when none is left or reads wait and few writes are left. */
  predicate Turns(s: State) {
    if s.writeMode then s.wq.occupancy == 0 || (s.rq.occupancy > 0 && s.wq.occupancy < s.c.wqSize * 3 / 4)
    else s.wq.occupancy >= s.c.wqSize * 7 / 8 || (s.rq.occupancy == 0 && s.wq.occupancy > 0)
  }

  /** The first part of operate: if the direction changes, all started requests are taken back and the bus is closed for the turn-around. */
  lemma SwitchMeaning(s: State)
    requires Inv(s)
    ensures BanksFit(s)
    ensures var t, w := Switch(s), s.writeMode;
            if !Turns(s) then t == s
            else
              && t.writeMode == !w && t.dbus == s.dbus + s.c.turnAround && t.clock == s.clock && t.log == s.log && t.starts == s.starts
              && |Q(t, w).entries| == |Q(s, w).entries| && Q(t, !w).entries == Q(s, !w).entries && |t.banks| == |s.banks|
              && (forall j: nat :: j < |Q(s, w).entries| ==> TakenBack(s, Q(s, w).entries[j], Q(t, w).entries[j]))
              && (forall k: nat :: k < |s.banks| ==> Released(s, w, s.banks[k], t.banks[k]))
              && t.scheduledReads == t.scheduledWrites == 0
  {
    hide Tickets, BusOk, NextsOk, ResetFrom, BanksOk;
    OccupancyFits(s);
    if WantsSwitch(s) {
      var w := s.writeMode;
      var m := s.(writeMode := !w);
      MayReset(s);
      ResetKeeps(m, w);
      ResetFromFor(m, w, 0);
    }
  }

  lemma MayReset(s: State)
    requires Inv(s)
    ensures Resetting(s.(writeMode := !s.writeMode), s.writeMode)
  {
    QueuesOnly(s, s.(writeMode := !s.writeMode), s.writeMode);
  }

  lemma OccupancyFits(s: State)
    requires Inv(s)
    ensures s.rq.occupancy >= 0 && s.wq.occupancy >= 0
  {
  }

  /** An activation that is interrupted leaves no row open. */
  lemma InterruptedRowsClose(s: State, k: nat)
    requires Inv(s) && BanksFit(s) && TimingOk(s) && Turns(s) && k < |s.banks| && s.banks[k].working
    ensures s.banks[k].requestIndex.Some? && s.banks[k].requestIndex.value < |Q(s, s.writeMode).entries|
    ensures var x := LastStart(s.starts, Q(s, s.writeMode).entries[s.banks[k].requestIndex.value].ticket);
            && x.Some? && k < |Switch(s).banks|
            && (!x.value.hit && s.clock < x.value.cycle + s.c.tRP + s.c.tRCD ==> Switch(s).banks[k].openRow.None?)
  {
    hide Tickets, BusOk, NextsOk, Switch, Tidy, CountersOk;
    SwitchMeaning(s);
    assert BankOk(s, s.writeMode, k);
    assert NotEarly(s, s.banks[k].requestIndex.value);
  }

  // ----- when something is done

  /** schedule is called exactly if a waiting request is due, process exactly if a started one is. */
  lemma DueMeaning(s: State, w: bool)
    requires Inv(s)
    ensures var es := Q(s, w).entries;
            && (ScheduleDue(s, w) <==> exists i: nat :: i < |es| && es[i].address != 0 && !es[i].scheduled && es[i].eventCycle <= s.clock)
            && (ProcessDue(s, w) <==> exists i: nat :: i < |es| && es[i].scheduled && es[i].eventCycle <= s.clock)
  {
    hide Tickets, BusOk, BanksOk, CountersOk, Tidy;
    var es := Q(s, w).entries;
    assert NextsOk(Q(s, w));
    OldestMeaning(es, Unscheduled(es), |es|);
    OldestMeaning(es, Scheduled(es), |es|);
    if i: nat :| i < |es| && es[i].address != 0 && !es[i].scheduled && es[i].eventCycle <= s.clock { assert i in Unscheduled(es); }
    if i: nat :| i < |es| && es[i].scheduled && es[i].eventCycle <= s.clock { assert i in Scheduled(es); }
  }

  // ----- process

  /** Entry `i` is the first with the lowest event cycle among the started ones. */
  ghost predicate FirstStarted(es: seq<Entry>, i: nat) {
    && i < |es| && es[i].scheduled
    && forall j: nat :: j < |es| && es[j].scheduled ==> es[i].eventCycle <= es[j].eventCycle && (es[i].eventCycle == es[j].eventCycle ==> i <= j)
  }

  /** The data of entry `i` goes over the bus now. */
  ghost predicate Transferred(s: State, w: bool, i: nat, t: State)
    requires BanksFit(s) && i < |Q(s, w).entries|
  {
    var e := Q(s, w).entries[i];
    var k := BankIndex(s.c.g, e.address);
    && Q(t, w).entries == Q(s, w).entries[i := EMPTY] && Q(t, w).occupancy == Q(s, w).occupancy - 1 && Q(t, !w) == Q(s, !w)
    && t.banks == s.banks[k := Bank(false, s.banks[k].cycleAvailable, s.banks[k].openRow, false, false, false, None)]
    && t.dbus == s.clock + s.c.returnTime && t.log == s.log + [Transfer(s.clock, w, e.ticket, e.address)]
    && t.clock == s.clock && t.writeMode == s.writeMode && t.arrivals == s.arrivals && t.starts == s.starts
    && t.scheduledReads == s.scheduledReads - (if w then 0 else 1) && t.scheduledWrites == s.scheduledWrites - (if w then 1 else 0)
  }

  /** process serves the first started request: its data goes out if bank and bus are free; if only the bus is not, its bank waits for the bus. */
  lemma ProcessMeaning(s: State) returns (i: nat)
    requires Inv(s) && BanksFit(s) && ProcessDue(s, s.writeMode)
    ensures FirstStarted(Q(s, s.writeMode).entries, i)
    ensures var t, k := Process(s, s.writeMode), BankIndex(s.c.g, Q(s, s.writeMode).entries[i].address);
            if s.banks[k].cycleAvailable > s.clock then t == s
            else if s.dbus > s.clock then t == s.(banks := s.banks[k := s.banks[k].(cycleAvailable := s.dbus)])
            else Transferred(s, s.writeMode, i, t)
  {
    hide Tickets, BusOk, BanksOk, CountersOk, Tidy;
    var w := s.writeMode;
    var es := Q(s, w).entries;
    i := Q(s, w).nextProcessIndex;
    assert NextsOk(Q(s, w));
    OldestMeaning(es, Scheduled(es), |es|);
    forall j: nat | j < |es| && es[j].scheduled ensures j in Scheduled(es) {}
  }

  // ----- arrivals

  /** Entry `i` is the first that holds `address`. */
  ghost predicate IsFirst(es: seq<Entry>, address: nat, i: nat) {
    i < |es| && es[i].address == address && forall j: nat :: j < i ==> es[j].address != address
  }

  /** An accepted request fills the first empty entry; any other leaves the queues as they are. */
  lemma AddMeaning(s: State, w: bool, address: nat, cycle: nat)
    requires address != 0
    ensures var t, es := Add(s, w, address, cycle), Q(s, w).entries;
            var there := (exists i: nat :: IsFirst(es, address, i)) || (!w && exists i: nat :: IsFirst(s.wq.entries, address, i));
            if !there && exists i: nat :: IsFirst(es, 0, i) then
              exists i: nat :: && IsFirst(es, 0, i) && Q(t, w).entries == es[i := Entry(address, cycle, false, |s.arrivals|)]
                               && Q(t, w).occupancy == Q(s, w).occupancy + 1 && t.arrivals == s.arrivals + [Arrival(address, w)]
                               && Q(t, !w) == Q(s, !w) && t.banks == s.banks && t.log == s.log && t.dbus == s.dbus
            else
              && Q(t, w).entries == es && Q(t, w).occupancy == Q(s, w).occupancy && t.arrivals == s.arrivals
              && Q(t, !w) == Q(s, !w) && t.banks == s.banks && t.log == s.log && t.dbus == s.dbus
  {
    hide UpdateSchedule;
    UpdateKeepsEntries(Q(s, w));
    FirstFound(s.wq.entries, address);
    FirstFound(Q(s, w).entries, address);
    FirstFound(Q(s, w).entries, 0);
    match OutcomeOf(s, w, address)
    case Queued(i) => InsertIs(s, w, i, address, cycle);
    case _ =>
  }

  lemma UpdateKeepsEntries(q: Queue)
    ensures UpdateSchedule(q).entries == q.entries && UpdateSchedule(q).occupancy == q.occupancy
  {
  }

  lemma InsertIs(s: State, w: bool, i: nat, address: nat, cycle: nat)
    requires i < |Q(s, w).entries|
    ensures var t, es := Insert(s, w, i, address, cycle), Q(s, w).entries;
            && Q(t, w).entries == es[i := Entry(address, cycle, false, |s.arrivals|)]
            && Q(t, w).occupancy == Q(s, w).occupancy + 1 && t.arrivals == s.arrivals + [Arrival(address, w)]
            && Q(t, !w) == Q(s, !w) && t.banks == s.banks && t.log == s.log && t.dbus == s.dbus
  {
  }

  lemma FirstFound(es: seq<Entry>, address: nat)
    ensures var f := FindFrom(es, address, 0);
            if f < |es| then IsFirst(es, address, f) else forall i: nat :: !IsFirst(es, address, i)
  {
    FindMeaning(es, address, 0);
  }
}
