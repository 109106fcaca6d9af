/** Every step of the memory controller keeps its invariants. */
module DramSteps {
  import opened Common
  import opened DramAddress
  import opened DramController

  // ----- counting and scanning

  lemma {:induction false} CountUpdate(es: seq<Entry>, i: nat, e: Entry)
    requires i < |es|
    ensures Count(es[i := e]) == Count(es) - (if es[i].scheduled then 1 else 0) + (if e.scheduled then 1 else 0)
  {
    var n := |es| - 1;
    if i == n {
      assert es[i := e][..n] == es[..n];
    } else {
      assert es[i := e][..n] == es[..n][i := e];
      CountUpdate(es[..n], i, e);
    }
  }

  lemma {:induction false} LiveUpdate(es: seq<Entry>, i: nat, e: Entry)
    requires i < |es|
    ensures Live(es[i := e]) == Live(es) - (if es[i].address != 0 then 1 else 0) + (if e.address != 0 then 1 else 0)
  {
    var n := |es| - 1;
    if i == n {
      assert es[i := e][..n] == es[..n];
    } else {
      assert es[i := e][..n] == es[..n][i := e];
      LiveUpdate(es[..n], i, e);
    }
  }

  lemma {:induction false} NoneCounted(es: seq<Entry>)
    ensures Count(es) == 0 <==> NothingScheduled(es)
  {
    if |es| > 0 {
      var front := es[..|es| - 1];
      NoneCounted(front);
      forall i: nat | i < |front| ensures IsScheduled(front, i) <==> IsScheduled(es, i) { }
      assert NothingScheduled(es) <==> NothingScheduled(front) && !IsScheduled(es, |es| - 1);
    }
  }

  /** What a scan finds: nothing exactly if there is nothing, else the oldest entry, on ties the first. */
  lemma {:induction false} OldestMeaning(es: seq<Entry>, among: set<nat>, n: nat)
    requires n <= |es|
    ensures var r := Oldest(es, among, n);
            && (r.None? <==> forall i :: i in among ==> n <= i)
            && (r.Some? ==> forall i: nat | i in among && i < n ::
                              && es[r.value].eventCycle <= es[i].eventCycle
                              && (es[r.value].eventCycle == es[i].eventCycle ==> r.value <= i))
  {
    if n > 0 { OldestMeaning(es, among, n - 1); }
  }

  /** A scan depends only on the event cycles of the entries it considers. */
  lemma {:induction false} OldestSame(es: seq<Entry>, es': seq<Entry>, among: set<nat>, n: nat)
    requires n <= |es| && n <= |es'|
    requires forall i: nat | i < n && i in among :: es[i].eventCycle == es'[i].eventCycle
    ensures Oldest(es, among, n) == Oldest(es', among, n)
  {
    if n > 0 { OldestSame(es, es', among, n - 1); }
  }

  lemma UpdatesMakeNextsOk(q: Queue)
    ensures NextsOk(UpdateProcess(UpdateSchedule(q)))
  {
  }

  // ----- what the requests are does not change

  ghost predicate SameRequests(s: State, s': State) {
    && s'.log == s.log && s'.arrivals == s.arrivals
    && forall w: bool :: |Q(s', w).entries| == |Q(s, w).entries| && SameContents(Q(s, w).entries, Q(s', w).entries)
  }

  ghost predicate SameContents(es: seq<Entry>, es': seq<Entry>)
  {
    |es'| == |es| && forall i: nat :: i < |es| ==> es'[i].address == es[i].address && es'[i].ticket == es[i].ticket
  }

  lemma TicketsStay(s: State, s': State)
    requires Tickets(s) && SameRequests(s, s')
    ensures Tickets(s')
  {
    forall w: bool, i: nat, t: nat
      ensures Holds(Q(s', w).entries, i, t) <==> Holds(Q(s, w).entries, i, t)
    {
      assert SameContents(Q(s, w).entries, Q(s', w).entries);
    }
    forall w: bool, i: nat | i < |Q(s', w).entries| ensures EntryTicket(s', w, i) {
      assert EntryTicket(s, w, i) && SameContents(Q(s, w).entries, Q(s', w).entries);
    }
    forall k: nat | k < |s'.log| ensures LogTicket(s', k) { assert LogTicket(s, k); }
    forall t: nat | t < |s'.arrivals| ensures InQueue(s', t) <==> !InLog(s', t) {
      assert InQueue(s', t) <==> InQueue(s, t);
      assert InLog(s', t) <==> InLog(s, t);
    }
  }

  // ----- one entry and its bank change

  /** Entry `i` of queue `w` becomes `e`, its bank becomes `b`; nothing else of the queues and banks changes. */
  ghost predicate Moves(s: State, s': State, w: bool, i: nat, e: Entry, b: Bank) {
    && Shape(s) && i < |Q(s, w).entries| && s'.c == s.c
    && Q(s', w).entries == Q(s, w).entries[i := e] && Q(s', !w).entries == Q(s, !w).entries
    && s'.banks == s.banks[BankIndex(s.c.g, Q(s, w).entries[i].address) := b]
  }

  /** A bank and its entry are released together. */
  lemma ReleaseKeepsBanks(s: State, s': State, w: bool, i: nat, e: Entry, b: Bank)
    requires Moves(s, s', w, i, e, b) && BanksOk(s, w) && IsScheduled(Q(s, w).entries, i)
    requires !e.scheduled && !b.working && b.requestIndex.None? && !b.isWrite && !b.isRead && !b.rowHit
    ensures Shape(s') && BanksOk(s', w)
  {
    var es, es' := Q(s, w).entries, Q(s', w).entries;
    assert Occupies(s, w, i);
    forall j: nat | IsScheduled(es', j) ensures Occupies(s', w, j) { assert IsScheduled(es, j) && Occupies(s, w, j); }
    forall k: nat | k < |s'.banks| ensures BankOk(s', w, k) { assert BankOk(s, w, k); }
  }

  /** A waiting entry is given to its idle bank. */
  lemma LaunchKeepsBanks(s: State, s': State, w: bool, i: nat, e: Entry, b: Bank)
    requires Moves(s, s', w, i, e, b) && BanksOk(s, w) && !BankFor(s, Q(s, w).entries[i]).working
    requires e.scheduled && e.address == Q(s, w).entries[i].address
    requires b.working && b.requestIndex == Some(i) && b.isWrite == w && b.isRead == !w && b.cycleAvailable >= s.c.tCAS
    ensures Shape(s') && BanksOk(s', w)
  {
    var es, es' := Q(s, w).entries, Q(s', w).entries;
    var k0 := BankIndex(s.c.g, es[i].address);
    forall j: nat | IsScheduled(es', j) ensures Occupies(s', w, j) {
      if j != i { assert IsScheduled(es, j) && Occupies(s, w, j); }
    }
    forall k: nat | k < |s'.banks| ensures BankOk(s', w, k) {
      assert BankOk(s, w, k);
      if k != k0 && s.banks[k].working { assert s.banks[k].requestIndex.value != i; }
    }
  }

  /** Only the cycle at which a working bank is ready moves, and not back. */
  lemma DelayKeepsBanks(s: State, k: nat, cycle: nat)
    requires Shape(s) && BanksOk(s, s.writeMode) && k < |s.banks| && s.banks[k].cycleAvailable <= cycle
    ensures var s' := s.(banks := s.banks[k := s.banks[k].(cycleAvailable := cycle)]); Shape(s') && BanksOk(s', s.writeMode)
  {
    var w := s.writeMode;
    var s' := s.(banks := s.banks[k := s.banks[k].(cycleAvailable := cycle)]);
    forall j: nat | IsScheduled(Q(s', w).entries, j) ensures Occupies(s', w, j) { assert Occupies(s, w, j); }
    forall x: nat | x < |s'.banks| ensures BankOk(s', w, x) { assert BankOk(s, w, x); }
  }

  lemma TidyUpdate(q: Queue, q': Queue, i: nat, e: Entry)
    requires Tidy(q) && i < |q.entries| && q'.entries == q.entries[i := e]
    requires e.address == q.entries[i].address != 0 && q'.occupancy == q.occupancy
    ensures Tidy(q')
  {
    LiveUpdate(q.entries, i, e);
  }

  // ----- reset_remain_requests

  /** What the loop of reset_remain_requests keeps; the cached positions are brought up to date after it. */
  ghost predicate Resetting(s: State, w: bool) {
    Shape(s) && Tidy(s.rq) && Tidy(s.wq) && BanksOk(s, w) && CountersOk(s) && Tickets(s)
  }

  lemma ScheduledIsLive(s: State, w: bool, i: nat)
    requires Tidy(Q(s, w)) && IsScheduled(Q(s, w).entries, i)
    ensures Q(s, w).entries[i].address != 0
  {
  }

  lemma ResetOneCounters(s: State, w: bool, i: nat)
    requires Resetting(s, w) && IsScheduled(Q(s, w).entries, i)
    ensures CountersOk(ResetOne(s, w, i))
  {
    var es := Q(s, w).entries;
    CountUpdate(es, i, es[i].(scheduled := false, eventCycle := s.clock));
    assert Occupies(s, w, i) && BankOk(s, w, BankIndex(s.c.g, es[i].address));
  }

  lemma ResetOneKeeps(s: State, w: bool, i: nat)
    requires Resetting(s, w) && i < |Q(s, w).entries|
    ensures Resetting(ResetOne(s, w, i), w) && |Q(ResetOne(s, w, i), w).entries| == |Q(s, w).entries|
  {
    var es := Q(s, w).entries;
    if es[i].scheduled {
      var s', e := ResetOne(s, w, i), es[i].(scheduled := false, eventCycle := s.clock);
      var k := BankIndex(s.c.g, es[i].address);
      assert Occupies(s, w, i) && BankOk(s, w, k);
      ResetOneCounters(s, w, i);
      ReleaseKeepsBanks(s, s', w, i, e, ResetBank(s.c, s.banks[k], RowOf(s.c.g, e.address), s.clock));
      ScheduledIsLive(s, w, i);
      TidyUpdate(Q(s, w), Q(s', w), i, e);
      TicketsStay(s, s');
    }
  }

  /** What the loop has done from index `i` on. */
  ghost predicate ResetResult(s: State, r: State, w: bool, i: nat) {
    && |Q(r, w).entries| == |Q(s, w).entries|
    && (forall j: nat :: i <= j < |Q(s, w).entries| ==> !Q(r, w).entries[j].scheduled)
    && (forall j: nat :: j < i && j < |Q(s, w).entries| ==> Q(r, w).entries[j] == Q(s, w).entries[j])
    && SameContents(Q(s, w).entries, Q(r, w).entries)
  }

  lemma ResetOneResult(s: State, r: State, w: bool, i: nat)
    requires BanksFit(s) && i < |Q(s, w).entries| && ResetResult(ResetOne(s, w, i), r, w, i + 1)
    ensures ResetResult(s, r, w, i)
  {
  }

  lemma {:induction false} ResetFromKeeps(s: State, w: bool, i: nat)
    requires Resetting(s, w) && i <= |Q(s, w).entries|
    ensures Resetting(ResetFrom(s, w, i), w) && ResetResult(s, ResetFrom(s, w, i), w, i)
    decreases |Q(s, w).entries| - i
  {
    hide Resetting, ResetOne;
    if i < |Q(s, w).entries| {
      ResetOneKeeps(s, w, i);
      ResettingShape(s, w);
      var m := ResetOne(s, w, i);
      ResetFromKeeps(m, w, i + 1);
      ResetOneResult(s, ResetFrom(s, w, i), w, i);
    } else {
      ResettingShape(s, w);
    }
  }

  lemma ResettingShape(s: State, w: bool)
    requires Resetting(s, w)
    ensures BanksFit(s)
  {
  }

  /** With nothing scheduled, all banks are free, whichever queue is served next. */
  lemma AllReleased(s: State, w: bool)
    requires Shape(s) && BanksOk(s, w) && NothingScheduled(Q(s, w).entries)
    ensures BanksOk(s, !w) && forall k: nat :: k < |s.banks| ==> !s.banks[k].working
  {
    forall k: nat | k < |s.banks| ensures !s.banks[k].working && BankOk(s, !w, k) { assert BankOk(s, w, k); }
  }

  /** After reset_remain_requests nothing is scheduled and all banks are free, so its check of the counter holds. */
  lemma ResetKeeps(s: State, w: bool)
    requires Resetting(s, w)
    ensures var r := Reset(s, w);
            && Resetting(r, w) && Resetting(r, !w) && NextsOk(r.rq) && NextsOk(r.wq)
            && r.scheduledReads == 0 && r.scheduledWrites == 0
            && (forall k: nat :: k < |r.banks| ==> !r.banks[k].working)
            && SameRequests(s, r)
  {
    var m := ResetFrom(s, w, 0);
    ResetFromKeeps(s, w, 0);
    assert NothingScheduled(Q(m, w).entries);
    AllReleased(m, w);
    NoneCounted(m.rq.entries);
    NoneCounted(m.wq.entries);
    UpdatesMakeNextsOk(m.rq);
    UpdatesMakeNextsOk(m.wq);
    hide Unscheduled, Scheduled, OldestOf, NextOk;
    var r := Reset(s, w);
    assert SameContents(Q(s, !w).entries, Q(r, !w).entries);
    QueuesOnly(m, r, w);
    QueuesOnly(m, r, !w);
    SameBothWays(s, r, w);
  }

  lemma SameBothWays(s: State, r: State, w: bool)
    requires r.log == s.log && r.arrivals == s.arrivals
    requires SameContents(Q(s, w).entries, Q(r, w).entries) && SameContents(Q(s, !w).entries, Q(r, !w).entries)
    ensures SameRequests(s, r)
  {
    forall v: bool ensures SameContents(Q(s, v).entries, Q(r, v).entries) { assert v == w || v == !w; }
  }

  /** The invariants of the loop do not depend on the cached positions. */
  lemma QueuesOnly(m: State, r: State, w: bool)
    requires Shape(m) && Tidy(m.rq) && Tidy(m.wq) && BanksOk(m, w) && CountersOk(m) && Tickets(m)
    requires r.c == m.c && r.banks == m.banks && r.log == m.log && r.arrivals == m.arrivals
    requires r.scheduledReads == m.scheduledReads && r.scheduledWrites == m.scheduledWrites
    requires r.rq.entries == m.rq.entries && r.wq.entries == m.wq.entries
    requires r.rq.occupancy == m.rq.occupancy && r.wq.occupancy == m.wq.occupancy
    ensures Resetting(r, w)
  {
    TicketsStay(m, r);
    forall i: nat | IsScheduled(Q(r, w).entries, i) ensures Occupies(r, w, i) { assert Occupies(m, w, i); }
    forall k: nat | k < |r.banks| ensures BankOk(r, w, k) { assert BankOk(m, w, k); }
  }

  // ----- operate

  lemma SwitchKeepsInv(s: State)
    requires Inv(s)
    ensures Inv(Switch(s))
  {
    if WantsSwitch(s) {
      var w := s.writeMode;
      var m := s.(writeMode := !w);
      QueuesOnly(s, m, w);
      ResetKeeps(m, w);
      var r := Reset(m, w);
      var s' := Switch(s);
      QueuesOnly(r, s', !w);
      BusSwitches(s, s');
    }
  }

  lemma BusSwitches(s: State, s': State)
    requires BusOk(s) && s'.log == s.log && s'.clock == s.clock && s'.c == s.c && s'.writeMode == !s.writeMode
    requires s'.dbus == s.dbus + s.c.turnAround
    ensures BusOk(s')
  {
  }

  lemma BusStays(s: State, s': State)
    requires BusOk(s) && s'.log == s.log && s'.clock >= s.clock && s'.c == s.c && s'.writeMode == s.writeMode && s'.dbus >= s.dbus
    ensures BusOk(s')
  {
  }

  lemma EligibleIs(s: State, w: bool, i: nat)
    requires BanksFit(s) && i in Eligible(s, w)
    ensures IsUnscheduled(Q(s, w).entries, i) && !BankFor(s, Q(s, w).entries[i]).working
  {
  }

  lemma LaunchMoves(s: State, w: bool, i: nat, hit: bool)
    requires Shape(s) && CountersOk(s) && i in Eligible(s, w)
    ensures var s', es := Launch(s, w, i, hit), Q(s, w).entries;
            var e := es[i].(scheduled := true, eventCycle := Q(s', w).entries[i].eventCycle);
            && Moves(s, s', w, i, e, s'.banks[BankIndex(s.c.g, es[i].address)])
            && CountersOk(s') && NextsOk(Q(s', w)) && Q(s', !w) == Q(s, !w) && Q(s', w).occupancy == Q(s, w).occupancy
            && s'.log == s.log && s'.arrivals == s.arrivals && s'.dbus == s.dbus && s'.clock == s.clock && s'.writeMode == s.writeMode
  {
    var s' := Launch(s, w, i, hit);
    EligibleIs(s, w, i);
    CountUpdate(Q(s, w).entries, i, Q(s', w).entries[i]);
    UpdatesMakeNextsOk(Q(s', w));
  }

  lemma LaunchTakesBank(s: State, w: bool, i: nat, hit: bool)
    requires Shape(s) && BanksOk(s, w) && CountersOk(s) && i in Eligible(s, w)
    ensures Shape(Launch(s, w, i, hit)) && BanksOk(Launch(s, w, i, hit), w)
  {
    var s', es := Launch(s, w, i, hit), Q(s, w).entries;
    LaunchMoves(s, w, i, hit);
    EligibleIs(s, w, i);
    hide OldestOf, Unscheduled, Scheduled, Eligible;
    LaunchKeepsBanks(s, s', w, i, Q(s', w).entries[i], s'.banks[BankIndex(s.c.g, es[i].address)]);
  }

  lemma LaunchKeepsInv(s: State, i: nat, hit: bool)
    requires Inv(s) && i in Eligible(s, s.writeMode)
    ensures Inv(Launch(s, s.writeMode, i, hit))
  {
    hide Launch, NextOk, BanksOk, CountersOk;
    var w := s.writeMode;
    var s' := Launch(s, w, i, hit);
    EligibleIs(s, w, i);
    LaunchMoves(s, w, i, hit);
    LaunchTakesBank(s, w, i, hit);
    TidyUpdate(Q(s, w), Q(s', w), i, Q(s', w).entries[i]);
    assert SameContents(Q(s, w).entries, Q(s', w).entries);
    SameBothWays(s, s', w);
    TicketsStay(s, s');
    BusStays(s, s');
  }

  lemma ScheduleKeepsInv(s: State)
    requires Inv(s)
    ensures Inv(Schedule(s, s.writeMode)) && Schedule(s, s.writeMode).writeMode == s.writeMode
  {
    if Choice(s, s.writeMode).Some? {
      LaunchKeepsInv(s, Choice(s, s.writeMode).value, Choice(s, s.writeMode).value in Hits(s, s.writeMode));
    }
  }

  /** The checks of process hold: the position is a scheduled entry, and its bank works for it. */
  lemma ProcessChecks(s: State)
    requires Inv(s) && ProcessDue(s, s.writeMode)
    ensures var i := Q(s, s.writeMode).nextProcessIndex;
            && IsScheduled(Q(s, s.writeMode).entries, i)
            && BankFor(s, Q(s, s.writeMode).entries[i]).requestIndex == Some(i)
            && Q(s, s.writeMode).occupancy > 0
  {
    var w := s.writeMode;
    var i := Q(s, w).nextProcessIndex;
    assert i in Scheduled(Q(s, w).entries);
    assert Occupies(s, w, i);
    ScheduledIsLive(s, w, i);
    LiveUpdate(Q(s, w).entries, i, EMPTY);
  }

  lemma RemoveKeepsTidy(q: Queue, q': Queue, i: nat)
    requires Tidy(q) && i < |q.entries| && q.entries[i].address != 0
    requires q'.entries == q.entries[i := EMPTY] && q'.occupancy == q.occupancy - 1
    ensures Tidy(q')
  {
    LiveUpdate(q.entries, i, EMPTY);
  }

  /** Taking a scheduled entry out does not change what waits. */
  lemma RemoveKeepsNexts(q: Queue, q': Queue, i: nat)
    requires NextsOk(q) && IsScheduled(q.entries, i)
    requires q' == UpdateProcess(q.(entries := q.entries[i := EMPTY], occupancy := q.occupancy - 1))
    ensures NextsOk(q')
  {
    var es, es' := q.entries, q.entries[i := EMPTY];
    assert Unscheduled(es') == Unscheduled(es);
    OldestSame(es, es', Unscheduled(es), |es|);
  }

  lemma TransferTickets(s: State, s': State, w: bool, i: nat)
    requires Tickets(s) && i < |Q(s, w).entries| && Q(s, w).entries[i].address != 0
    requires Q(s', w).entries == Q(s, w).entries[i := EMPTY] && Q(s', !w).entries == Q(s, !w).entries
    requires s'.arrivals == s.arrivals
    requires s'.log == s.log + [Transfer(s.clock, w, Q(s, w).entries[i].ticket, Q(s, w).entries[i].address)]
    ensures Tickets(s')
  {
    var e, n := Q(s, w).entries[i], |s.log|;
    assert EntryTicket(s, w, i) && Holds(Q(s, w).entries, i, e.ticket);
    forall v: bool, j: nat, t: nat
      ensures Holds(Q(s', v).entries, j, t) <==> Holds(Q(s, v).entries, j, t) && !(v == w && j == i)
    {
      assert v == w || v == !w;
    }
    forall k: nat, t: nat ensures Served(s'.log, k, t) <==> Served(s.log, k, t) || (k == n && t == e.ticket) { }
    assert InQueue(s, e.ticket) && !InLog(s, e.ticket);
    forall v: bool, j: nat | j < |Q(s', v).entries| ensures EntryTicket(s', v, j) {
      assert v == w || v == !w;
      assert EntryTicket(s, v, j);
    }
    forall k: nat | k < |s'.log| ensures LogTicket(s', k) { if k < n { assert LogTicket(s, k); } }
    forall t: nat | t < |s'.arrivals| ensures InQueue(s', t) <==> !InLog(s', t) { TransferTicket(s, s', w, i, t); }
    forall k: nat, l: nat, t: nat | Served(s'.log, k, t) && Served(s'.log, l, t) ensures k == l {
      if t == e.ticket { assert !Served(s.log, k, t) && !Served(s.log, l, t); }
    }
  }

  lemma TransferTicket(s: State, s': State, w: bool, i: nat, t: nat)
    requires Tickets(s) && t < |s.arrivals| && s'.arrivals == s.arrivals
    requires i < |Q(s, w).entries| && Q(s, w).entries[i].address != 0 && EntryTicket(s, w, i)
    requires forall v: bool, j: nat, u: nat ::
               Holds(Q(s', v).entries, j, u) <==> Holds(Q(s, v).entries, j, u) && !(v == w && j == i)
    requires forall k: nat, u: nat :: Served(s'.log, k, u) <==> Served(s.log, k, u) || (k == |s.log| && u == Q(s, w).entries[i].ticket)
    ensures InQueue(s', t) <==> !InLog(s', t)
  {
    var e := Q(s, w).entries[i];
    if t == e.ticket {
      assert Served(s'.log, |s.log|, t);
      assert Holds(Q(s, w).entries, i, t);
    } else {
      if InQueue(s, t) {
        var j: nat :| Holds(Q(s, s.arrivals[t].write).entries, j, t);
        assert Holds(Q(s', s.arrivals[t].write).entries, j, t);
      }
      assert InLog(s', t) <==> InLog(s, t);
    }
  }

  lemma BusTransfers(s: State, s': State)
    requires BusOk(s) && s.dbus <= s.clock && s'.clock == s.clock && s'.c == s.c && s'.writeMode == s.writeMode
    requires s'.dbus == s.clock + s.c.returnTime && |s'.log| == |s.log| + 1 && s'.log[..|s.log|] == s.log
    requires s'.log[|s.log|].start == s.clock && s'.log[|s.log|].write == s.writeMode
    ensures BusOk(s')
  {
    forall k: nat | k < |s.log| ensures s'.log[k] == s.log[k] { assert s'.log[..|s.log|][k] == s.log[k]; }
  }

  lemma TransferKeepsInv(s: State, i: nat)
    requires Inv(s) && IsScheduled(Q(s, s.writeMode).entries, i) && s.dbus <= s.clock
    ensures Inv(TransferAt(s, s.writeMode, i))
  {
    var w := s.writeMode;
    var s' := TransferAt(s, w, i);
    var es := Q(s, w).entries;
    CountUpdate(es, i, EMPTY);
    ScheduledIsLive(s, w, i);
    RemoveKeepsNexts(Q(s, w), Q(s', w), i);
    hide OldestOf, Unscheduled, Scheduled;
    RemoveKeepsTidy(Q(s, w), Q(s', w), i);
    ReleaseKeepsBanks(s, s', w, i, EMPTY, DoneBank(s.banks[BankIndex(s.c.g, es[i].address)]));
    TransferTickets(s, s', w, i);
    BusTransfers(s, s');
  }

  lemma ProcessKeepsInv(s: State)
    requires Inv(s) && ProcessDue(s, s.writeMode)
    ensures Inv(Process(s, s.writeMode))
  {
    ProcessChecks(s);
    var w := s.writeMode;
    var i := Q(s, w).nextProcessIndex;
    var k := BankIndex(s.c.g, Q(s, w).entries[i].address);
    if s.banks[k].cycleAvailable <= s.clock {
      if s.dbus <= s.clock {
        TransferKeepsInv(s, i);
      } else {
        DelayKeepsBanks(s, k, s.dbus);
        TicketsStay(s, Process(s, w));
      }
    }
  }

  lemma OperateKeepsInv(s: State)
    requires Inv(s)
    ensures Inv(Operate(s))
  {
    SwitchKeepsInv(s);
    var m := Switch(s);
    hide Inv;
    FitsOf(s);
    FitsOf(m);
    if ScheduleDue(m, m.writeMode) { ScheduleKeepsInv(m); }
    var r := TrySchedule(m, m.writeMode);
    if ProcessDue(r, r.writeMode) { ProcessKeepsInv(r); }
  }

  lemma FitsOf(s: State)
    requires Inv(s)
    ensures Shape(s) && BanksFit(s)
  {
  }

  // ----- arrivals

  lemma FindMeaning(es: seq<Entry>, address: nat, i: nat)
    requires i <= |es|
    ensures var r := FindFrom(es, address, i);
            && (r < |es| ==> es[r].address == address)
            && (forall j :: i <= j < r ==> es[j].address != address)
    decreases |es| - i
  {
    if i < |es| && es[i].address != address { FindMeaning(es, address, i + 1); }
  }

  lemma InsertKeepsNexts(q: Queue, q': Queue, i: nat, e: Entry)
    requires NextsOk(q) && i < |q.entries| && !q.entries[i].scheduled && !e.scheduled
    requires q' == UpdateSchedule(q.(entries := q.entries[i := e], occupancy := q.occupancy + 1))
    ensures NextsOk(q')
  {
    var es, es' := q.entries, q.entries[i := e];
    assert Scheduled(es') == Scheduled(es);
    OldestSame(es, es', Scheduled(es), |es|);
  }

  /** An entry that is not scheduled is filled; no bank notices. */
  lemma FillKeepsBanks(s: State, s': State, v: bool, w: bool, i: nat, e: Entry)
    requires Shape(s) && BanksOk(s, v) && i < |Q(s, w).entries| && !Q(s, w).entries[i].scheduled && !e.scheduled
    requires s'.c == s.c && s'.banks == s.banks
    requires Q(s', w).entries == Q(s, w).entries[i := e] && Q(s', !w).entries == Q(s, !w).entries
    ensures Shape(s') && BanksOk(s', v)
  {
    forall x: bool, j: nat ensures IsScheduled(Q(s', x).entries, j) == IsScheduled(Q(s, x).entries, j) { assert x == w || x == !w; }
    forall j: nat | IsScheduled(Q(s', v).entries, j) ensures Occupies(s', v, j) { assert Occupies(s, v, j); }
    forall k: nat | k < |s'.banks| ensures BankOk(s', v, k) { assert BankOk(s, v, k); }
  }

  lemma InsertTickets(s: State, s': State, w: bool, i: nat, e: Entry)
    requires Tickets(s) && i < |Q(s, w).entries| && Q(s, w).entries[i].address == 0
    requires e.address != 0 && e.ticket == |s.arrivals|
    requires Q(s', w).entries == Q(s, w).entries[i := e] && Q(s', !w).entries == Q(s, !w).entries
    requires s'.arrivals == s.arrivals + [Arrival(e.address, w)] && s'.log == s.log
    ensures Tickets(s')
  {
    var n := |s.arrivals|;
    forall v: bool, j: nat, t: nat
      ensures Holds(Q(s', v).entries, j, t) <==> if v == w && j == i then t == n else Holds(Q(s, v).entries, j, t)
    {
      assert v == w || v == !w;
    }
    forall v: bool, j: nat | j < |Q(s', v).entries| ensures EntryTicket(s', v, j) {
      assert v == w || v == !w;
      assert EntryTicket(s, v, j);
    }
    forall v: bool, j: nat, t: nat | Holds(Q(s, v).entries, j, t) ensures t < n { assert EntryTicket(s, v, j); }
    forall k: nat | k < |s'.log| ensures LogTicket(s', k) { assert LogTicket(s, k); }
    forall t: nat | t < |s'.arrivals| ensures InQueue(s', t) <==> !InLog(s', t) {
      assert InLog(s', t) <==> InLog(s, t);
      if t == n {
        assert Holds(Q(s', s'.arrivals[t].write).entries, i, n);
        forall k: nat ensures !Served(s.log, k, t) { if k < |s.log| { assert LogTicket(s, k); } }
      } else {
        assert s'.arrivals[t] == s.arrivals[t];
        if InQueue(s, t) {
          var j: nat :| Holds(Q(s, s.arrivals[t].write).entries, j, t);
          assert Holds(Q(s', s.arrivals[t].write).entries, j, t);
        }
        if InQueue(s', t) {
          var j: nat :| Holds(Q(s', s.arrivals[t].write).entries, j, t);
          assert Holds(Q(s, s.arrivals[t].write).entries, j, t);
        }
      }
    }
  }

  lemma InsertKeepsTidy(q: Queue, q': Queue, i: nat, e: Entry)
    requires Tidy(q) && i < |q.entries| && q.entries[i].address == 0 && e.address != 0
    requires forall j: nat :: j < |q.entries| ==> q.entries[j].address != e.address
    requires q'.entries == q.entries[i := e] && q'.occupancy == q.occupancy + 1
    ensures Tidy(q')
  {
    LiveUpdate(q.entries, i, e);
  }

  lemma InsertKeepsInv(s: State, w: bool, i: nat, address: nat, eventCycle: nat)
    requires Inv(s) && i < |Q(s, w).entries| && Q(s, w).entries[i].address == 0 && address != 0
    requires forall j: nat :: j < |Q(s, w).entries| ==> Q(s, w).entries[j].address != address
    ensures Inv(Insert(s, w, i, address, eventCycle))
  {
    var s' := Insert(s, w, i, address, eventCycle);
    var e := Entry(address, eventCycle, false, |s.arrivals|);
    var q := Q(s, w);
    assert q.entries[i] == EMPTY;
    CountUpdate(q.entries, i, e);
    InsertKeepsNexts(q, Q(s', w), i, e);
    hide OldestOf, Unscheduled, Scheduled;
    InsertKeepsTidy(q, Q(s', w), i, e);
    FillKeepsBanks(s, s', s.writeMode, w, i, e);
    InsertTickets(s, s', w, i, e);
  }

  /** A full queue only looks for its next entry again. */
  lemma FullKeepsInv(s: State, w: bool)
    requires Inv(s)
    ensures Inv(WithQ(s, w, UpdateSchedule(Q(s, w))))
  {
    QueuesOnly(s, WithQ(s, w, UpdateSchedule(Q(s, w))), s.writeMode);
  }

  lemma AddKeepsInv(s: State, w: bool, address: nat, eventCycle: nat)
    requires Inv(s) && address != 0
    ensures Inv(Add(s, w, address, eventCycle))
  {
    hide Inv, FindFrom, Insert, UpdateSchedule;
    var es := Q(s, w).entries;
    FindMeaning(es, address, 0);
    FindMeaning(es, 0, 0);
    match OutcomeOf(s, w, address)
    case Queued(i) => InsertKeepsInv(s, w, i, address, eventCycle);
    case Full => FullKeepsInv(s, w);
    case _ =>
  }

  lemma TickKeepsInv(s: State, n: nat)
    requires Inv(s)
    ensures Inv(s.(clock := s.clock + n))
  {
    QueuesOnly(s, s.(clock := s.clock + n), s.writeMode);
  }
}
