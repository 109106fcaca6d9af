/**
 One channel of the memory controller: a read and a write queue, the banks, the data bus, and the
 switching between draining reads and draining writes.  All cores share one clock.
 */
module DramController {
  import opened Common
  import opened DramAddress

  datatype Config = Config(g: Geometry, rqSize: nat, wqSize: nat, tRP: nat, tRCD: nat, tCAS: nat, returnTime: nat, turnAround: nat)
  {
    ghost predicate Valid() { g.Valid() && rqSize > 0 && wqSize > 0 }

    /** DRAM_WRITE_HIGH_WM and DRAM_WRITE_LOW_WM. */
    function High(): nat { wqSize * 7 / 8 }
    function Low(): nat { wqSize * 3 / 4 }
  }

  /** An entry of a queue; address 0 means "empty".  `ticket` numbers the accepted requests. */
  datatype Entry = Entry(address: nat, eventCycle: nat, scheduled: bool, ticket: nat)

  const EMPTY := Entry(0, 0, false, 0)

  /** BANK_REQUEST; an open row or request index of None stands for UINT32_MAX and -1. */
  datatype Bank = Bank(
    working: bool, cycleAvailable: nat, openRow: Option<nat>, rowHit: bool,
    isWrite: bool, isRead: bool, requestIndex: Option<nat>)

  const FRESH_BANK := Bank(false, 0, None, false, false, false, None)

  /** PACKET_QUEUE; a cycle of None stands for UINT64_MAX. */
  datatype Queue = Queue(
    entries: seq<Entry>, occupancy: int,
    nextScheduleIndex: nat, nextScheduleCycle: Option<nat>,
    nextProcessIndex: nat, nextProcessCycle: Option<nat>)

  /** A request that was put into a queue. */
  datatype Arrival = Arrival(address: nat, write: bool)

  /** A transfer over the data bus, for the request with that ticket. */
  datatype Transfer = Transfer(start: nat, write: bool, ticket: nat, address: nat)

  /** A request is given to its bank; `hit` says whether its row was open. */
  datatype Start = Start(ticket: nat, cycle: nat, hit: bool)

  /** `arrivals`, `log` and `starts` are history. */
  datatype State = State(
    c: Config, rq: Queue, wq: Queue, banks: seq<Bank>, dbus: nat, writeMode: bool,
    scheduledReads: int, scheduledWrites: int, clock: nat,
    arrivals: seq<Arrival>, log: seq<Transfer>, starts: seq<Start>)

  function Q(s: State, w: bool): Queue { if w then s.wq else s.rq }

  function WithQ(s: State, w: bool, q: Queue): State { if w then s.(wq := q) else s.(rq := q) }

  function Banks(g: Geometry): nat { g.ranks * g.banks }

  /** The place of an address in the table of banks. */
  function BankIndex(g: Geometry, a: nat): (r: nat)
    requires g.Valid()
    ensures r < Banks(g)
  {
    IndexFits(RankOf(g, a), g.ranks, BankOf(g, a), g.banks);
    RankOf(g, a) * g.banks + BankOf(g, a)
  }

  lemma IndexFits(x: nat, m: nat, y: nat, n: nat)
    requires x < m && y < n
    ensures x * n + y < m * n
  {
    MulMonotonic(n, x + 1, m);
  }

  // ----- the four scans

  /** The entry of `among` below index `n` with the smallest event cycle, the first one of them. */
  function Oldest(es: seq<Entry>, among: set<nat>, n: nat): (r: Option<nat>)
    requires n <= |es|
    ensures r.Some? ==> r.value < n && r.value in among
  {
    if n == 0 then None
    else
      var b := Oldest(es, among, n - 1);
      if n - 1 in among && (b.None? || es[n - 1].eventCycle < es[b.value].eventCycle) then Some(n - 1) else b
  }

  predicate IsUnscheduled(es: seq<Entry>, i: nat) { i < |es| && es[i].address != 0 && !es[i].scheduled }

  predicate IsScheduled(es: seq<Entry>, i: nat) { i < |es| && es[i].scheduled }

  ghost predicate NothingScheduled(es: seq<Entry>) { forall i: nat :: i < |es| ==> !IsScheduled(es, i) }

  function Unscheduled(es: seq<Entry>): set<nat> { set i: nat | i < |es| && IsUnscheduled(es, i) }

  function Scheduled(es: seq<Entry>): set<nat> { set i: nat | i < |es| && IsScheduled(es, i) }

  predicate BanksFit(s: State) { s.c.g.Valid() && |s.banks| == Banks(s.c.g) }

  function BankFor(s: State, e: Entry): Bank
    requires BanksFit(s)
  {
    s.banks[BankIndex(s.c.g, e.address)]
  }

  /** Entries that could be scheduled now: waiting, and their bank idle. */
  function Eligible(s: State, w: bool): set<nat>
    requires BanksFit(s)
  {
    set i: nat | i < |Q(s, w).entries| && IsUnscheduled(Q(s, w).entries, i) && !BankFor(s, Q(s, w).entries[i]).working
  }

  /** Those of them whose row is open. */
  function Hits(s: State, w: bool): set<nat>
    requires BanksFit(s)
  {
    set i: nat | i in Eligible(s, w) && BankFor(s, Q(s, w).entries[i]).openRow == Some(RowOf(s.c.g, Q(s, w).entries[i].address))
  }

  function OldestOf(es: seq<Entry>, among: set<nat>): (r: Option<nat>)
    ensures r.Some? ==> r.value < |es| && r.value in among
  {
    Oldest(es, among, |es|)
  }

  function CycleOf(es: seq<Entry>, x: Option<nat>): Option<nat>
    requires x.Some? ==> x.value < |es|
  {
    if x.Some? then Some(es[x.value].eventCycle) else None
  }

  function IndexOr(x: Option<nat>, n: nat): nat { if x.Some? then x.value else n }

  /** update_schedule_cycle. */
  function UpdateSchedule(q: Queue): Queue {
    var m := OldestOf(q.entries, Unscheduled(q.entries));
    q.(nextScheduleCycle := CycleOf(q.entries, m), nextScheduleIndex := IndexOr(m, |q.entries|))
  }

  /** update_process_cycle. */
  function UpdateProcess(q: Queue): Queue {
    var m := OldestOf(q.entries, Scheduled(q.entries));
    q.(nextProcessCycle := CycleOf(q.entries, m), nextProcessIndex := IndexOr(m, |q.entries|))
  }

  // ----- reset_remain_requests

  /** The bank of a request that is taken back before its data was transferred. */
  function ResetBank(c: Config, b: Bank, row: nat, clock: nat): Bank {
    Bank(false, clock, if b.cycleAvailable - c.tCAS <= clock then Some(row) else None, false,
         false, b.isWrite && b.isRead, None)
  }

  /** The loop body of reset_remain_requests for entry `i` of queue `w`. */
  function ResetOne(s: State, w: bool, i: nat): State
    requires BanksFit(s) && i < |Q(s, w).entries|
  {
    var q := Q(s, w);
    var e := q.entries[i];
    if !e.scheduled then s
    else
      var k := BankIndex(s.c.g, e.address);
      var b := s.banks[k];
      WithQ(s, w, q.(entries := q.entries[i := e.(scheduled := false, eventCycle := s.clock)]))
        .(banks := s.banks[k := ResetBank(s.c, b, RowOf(s.c.g, e.address), s.clock)],
          scheduledWrites := if b.isWrite then s.scheduledWrites - 1 else s.scheduledWrites,
          scheduledReads := if !b.isWrite && b.isRead then s.scheduledReads - 1 else s.scheduledReads)
  }

  function ResetFrom(s: State, w: bool, i: nat): (r: State)
    requires BanksFit(s) && i <= |Q(s, w).entries|
    ensures r == s.(rq := r.rq, wq := r.wq, banks := r.banks, scheduledReads := r.scheduledReads, scheduledWrites := r.scheduledWrites)
    ensures |r.banks| == |s.banks| && Q(r, !w) == Q(s, !w) && |Q(r, w).entries| == |Q(s, w).entries|
    decreases |Q(s, w).entries| - i
  {
    if i == |Q(s, w).entries| then s else ResetFrom(ResetOne(s, w, i), w, i + 1)
  }

  function UpdateAll(s: State): State {
    s.(rq := UpdateProcess(UpdateSchedule(s.rq)), wq := UpdateProcess(UpdateSchedule(s.wq)))
  }

  /** reset_remain_requests for queue `w`. */
  function Reset(s: State, w: bool): State
    requires BanksFit(s)
  {
    UpdateAll(ResetFrom(s, w, 0))
  }

  // ----- switching

  /** Whether operate starts with a switch of the mode. */
  predicate WantsSwitch(s: State) {
    if !s.writeMode then s.wq.occupancy >= s.c.High() || (s.rq.occupancy == 0 && s.wq.occupancy > 0)
    else s.wq.occupancy == 0 || (s.rq.occupancy != 0 && s.wq.occupancy < s.c.Low())
  }

  /** The first part of operate. */
  function Switch(s: State): State
    requires BanksFit(s)
  {
    if WantsSwitch(s) then
      var r := Reset(s.(writeMode := !s.writeMode), s.writeMode);
      r.(dbus := r.dbus + s.c.turnAround)
    else s
  }

  // ----- schedule

  /** The second half of schedule: entry `i` of queue `w` is given to its bank. */
  function Launch(s: State, w: bool, i: nat, hit: bool): State
    requires BanksFit(s) && i < |Q(s, w).entries|
  {
    var q := Q(s, w);
    var e := q.entries[i];
    var k := BankIndex(s.c.g, e.address);
    var ready := s.clock + if hit then s.c.tCAS else s.c.tRP + s.c.tRCD + s.c.tCAS;
    WithQ(s, w, UpdateProcess(UpdateSchedule(q.(entries := q.entries[i := e.(scheduled := true, eventCycle := ready)]))))
      .(banks := s.banks[k := Bank(true, ready, Some(RowOf(s.c.g, e.address)), hit, w, !w, Some(i))],
        scheduledWrites := if w then s.scheduledWrites + 1 else s.scheduledWrites,
        scheduledReads := if w then s.scheduledReads else s.scheduledReads + 1,
        starts := s.starts + [Start(e.ticket, s.clock, hit)])
  }

  /** The choice of schedule: the oldest hit of an open row, or else the oldest entry. */
  function Choice(s: State, w: bool): (r: Option<nat>)
    requires BanksFit(s)
    ensures r.Some? ==> r.value < |Q(s, w).entries|
  {
    var hit := OldestOf(Q(s, w).entries, Hits(s, w));
    if hit.Some? then hit else OldestOf(Q(s, w).entries, Eligible(s, w))
  }

  function Schedule(s: State, w: bool): State
    requires BanksFit(s)
  {
    if Choice(s, w).Some? then Launch(s, w, Choice(s, w).value, Choice(s, w).value in Hits(s, w)) else s
  }

  // ----- process

  /** A bank that has handed its request over. */
  function DoneBank(b: Bank): Bank {
    b.(working := false, rowHit := false, isWrite := false, isRead := false, requestIndex := None)
  }

  /** The data of entry `i` goes over the bus and the entry leaves the queue. */
  function TransferAt(s: State, w: bool, i: nat): State
    requires BanksFit(s) && i < |Q(s, w).entries|
  {
    var q := Q(s, w);
    var e := q.entries[i];
    var k := BankIndex(s.c.g, e.address);
    WithQ(s, w, UpdateProcess(q.(entries := q.entries[i := EMPTY], occupancy := q.occupancy - 1)))
      .(banks := s.banks[k := DoneBank(s.banks[k])],
        dbus := s.clock + s.c.returnTime,
        scheduledWrites := if w then s.scheduledWrites - 1 else s.scheduledWrites,
        scheduledReads := if w then s.scheduledReads else s.scheduledReads - 1,
        log := s.log + [Transfer(s.clock, w, e.ticket, e.address)])
  }

  function Process(s: State, w: bool): State
    requires BanksFit(s) && Q(s, w).nextProcessIndex < |Q(s, w).entries|
  {
    var i := Q(s, w).nextProcessIndex;
    var k := BankIndex(s.c.g, Q(s, w).entries[i].address);
    if s.banks[k].cycleAvailable <= s.clock then
      if s.dbus <= s.clock then TransferAt(s, w, i)
      else s.(banks := s.banks[k := s.banks[k].(cycleAvailable := s.dbus)])
    else s
  }

  // ----- operate

  predicate Due(clock: nat, index: nat, cycle: Option<nat>, n: nat) {
    index < n && cycle.Some? && cycle.value <= clock
  }

  predicate ScheduleDue(s: State, w: bool) {
    Due(s.clock, Q(s, w).nextScheduleIndex, Q(s, w).nextScheduleCycle, |Q(s, w).entries|)
  }

  predicate ProcessDue(s: State, w: bool) {
    Due(s.clock, Q(s, w).nextProcessIndex, Q(s, w).nextProcessCycle, |Q(s, w).entries|)
  }

  function TrySchedule(s: State, w: bool): State
    requires BanksFit(s)
  {
    if ScheduleDue(s, w) then Schedule(s, w) else s
  }

  function TryProcess(s: State, w: bool): State
    requires BanksFit(s)
  {
    if ProcessDue(s, w) then Process(s, w) else s
  }

  /** operate for this channel. */
  function Operate(s: State): State
    requires BanksFit(s)
  {
    var m := Switch(s);
    TryProcess(TrySchedule(m, m.writeMode), m.writeMode)
  }

  // ----- arrivals

  /** check_dram_queue. */
  function FindFrom(es: seq<Entry>, address: nat, i: nat): (r: nat)
    requires i <= |es|
    ensures i <= r <= |es|
    decreases |es| - i
  {
    if i == |es| || es[i].address == address then i else FindFrom(es, address, i + 1)
  }

  /** What became of a request: forwarded from write queue slot, merged with an entry, queued, or dropped because the queue is full. */
  datatype Outcome = Forwarded(index: nat) | Merged(index: nat) | Queued(index: nat) | Full

  /** The packet goes to the first empty slot `i` of queue `w`. */
  function Insert(s: State, w: bool, i: nat, address: nat, eventCycle: nat): State
    requires i < |Q(s, w).entries|
  {
    var q := Q(s, w);
    var e := Entry(address, eventCycle, false, |s.arrivals|);
    WithQ(s, w, UpdateSchedule(q.(entries := q.entries[i := e], occupancy := q.occupancy + 1)))
      .(arrivals := s.arrivals + [Arrival(address, w)])
  }

  function OutcomeOf(s: State, w: bool, address: nat): Outcome {
    var f := FindFrom(s.wq.entries, address, 0);
    var m := FindFrom(Q(s, w).entries, address, 0);
    var e := FindFrom(Q(s, w).entries, 0, 0);
    if !w && f < |s.wq.entries| then Forwarded(f)
    else if m < |Q(s, w).entries| then Merged(m)
    else if e < |Q(s, w).entries| then Queued(e)
    else Full
  }

  /** add_rq and add_wq after the warmup. */
  function Add(s: State, w: bool, address: nat, eventCycle: nat): State
  {
    match OutcomeOf(s, w, address)
    case Queued(i) => if i < |Q(s, w).entries| then Insert(s, w, i, address, eventCycle) else s
    case Full => WithQ(s, w, UpdateSchedule(Q(s, w)))
    case _ => s
  }

  // ----- invariants

  function Live(es: seq<Entry>): nat {
    if |es| == 0 then 0 else Live(es[..|es| - 1]) + (if es[|es| - 1].address != 0 then 1 else 0)
  }

  function Count(es: seq<Entry>): nat {
    if |es| == 0 then 0 else Count(es[..|es| - 1]) + (if es[|es| - 1].scheduled then 1 else 0)
  }

  ghost predicate UniqueAddresses(es: seq<Entry>) {
    forall i: nat, j: nat :: i < j < |es| && es[i].address != 0 ==> es[i].address != es[j].address
  }

  /** Empty entries are blank, no address is there twice, and occupancy counts the others. */
  ghost predicate Tidy(q: Queue) {
    && (forall i: nat :: i < |q.entries| && q.entries[i].address == 0 ==> q.entries[i] == EMPTY)
    && UniqueAddresses(q.entries)
    && q.occupancy == Live(q.entries)
  }

  /** The cached positions are up to date. */
  ghost predicate NextsOk(q: Queue) {
    && NextOk(q.entries, Unscheduled(q.entries), q.nextScheduleIndex, q.nextScheduleCycle)
    && NextOk(q.entries, Scheduled(q.entries), q.nextProcessIndex, q.nextProcessCycle)
  }

  /** `cycle` and `index` name the oldest entry of `among`; before the first update the index may be 0. */
  ghost predicate NextOk(es: seq<Entry>, among: set<nat>, index: nat, cycle: Option<nat>) {
    var m := OldestOf(es, among);
    cycle == CycleOf(es, m) && (m.Some? ==> index == m.value)
  }

  /** Scheduled entry `i` of queue `w` occupies its bank. */
  ghost predicate Occupies(s: State, w: bool, i: nat)
    requires BanksFit(s) && i < |Q(s, w).entries|
  {
    var b := BankFor(s, Q(s, w).entries[i]);
    b.working && b.requestIndex == Some(i)
  }

  /** Bank `k` works for the entry of queue `w` that its request index names; or it is free. */
  ghost predicate BankOk(s: State, w: bool, k: nat)
    requires BanksFit(s) && k < |s.banks|
  {
    var b := s.banks[k];
    if b.working then
      && b.requestIndex.Some? && IsScheduled(Q(s, w).entries, b.requestIndex.value)
      && BankIndex(s.c.g, Q(s, w).entries[b.requestIndex.value].address) == k
      && b.isWrite == w && b.isRead == !w
      && b.cycleAvailable >= s.c.tCAS
    else b.requestIndex.None? && !b.isWrite && !b.isRead && !b.rowHit
  }

  /** The banks work for the scheduled entries of queue `w`, and for nothing else. */
  ghost predicate BanksOk(s: State, w: bool)
    requires BanksFit(s)
  {
    && (forall i: nat :: IsScheduled(Q(s, w).entries, i) ==> Occupies(s, w, i))
    && (forall k: nat :: k < |s.banks| ==> BankOk(s, w, k))
    && NothingScheduled(Q(s, !w).entries)
  }

  ghost predicate CountersOk(s: State) {
    s.scheduledReads == Count(s.rq.entries) && s.scheduledWrites == Count(s.wq.entries)
  }

  // Every accepted request is in a queue or has been transferred, never both, and never twice.

  predicate Holds(es: seq<Entry>, i: nat, t: nat) { i < |es| && es[i].address != 0 && es[i].ticket == t }

  predicate Served(log: seq<Transfer>, k: nat, t: nat) { k < |log| && log[k].ticket == t }

  ghost predicate EntryTicket(s: State, w: bool, i: nat)
    requires i < |Q(s, w).entries|
  {
    var e := Q(s, w).entries[i];
    e.address != 0 ==> e.ticket < |s.arrivals| && s.arrivals[e.ticket] == Arrival(e.address, w)
  }

  ghost predicate LogTicket(s: State, k: nat)
    requires k < |s.log|
  {
    var x := s.log[k];
    x.ticket < |s.arrivals| && s.arrivals[x.ticket] == Arrival(x.address, x.write)
  }

  ghost predicate InQueue(s: State, t: nat)
    requires t < |s.arrivals|
  {
    exists i: nat :: Holds(Q(s, s.arrivals[t].write).entries, i, t)
  }

  ghost predicate InLog(s: State, t: nat) { exists k: nat :: Served(s.log, k, t) }

  ghost predicate Tickets(s: State) {
    && (forall w: bool, i: nat :: i < |Q(s, w).entries| ==> EntryTicket(s, w, i))
    && (forall k: nat :: k < |s.log| ==> LogTicket(s, k))
    && (forall t: nat :: t < |s.arrivals| ==> (InQueue(s, t) <==> !InLog(s, t)))
    && (forall w: bool, i: nat, j: nat, t: nat :: Holds(Q(s, w).entries, i, t) && Holds(Q(s, w).entries, j, t) ==> i == j)
    && (forall k: nat, l: nat, t: nat :: Served(s.log, k, t) && Served(s.log, l, t) ==> k == l)
  }

  /** How long the bus stays closed after transfer `x` for one in the direction `w`. */
  function Gap(c: Config, x: Transfer, w: bool): nat {
    c.returnTime + if x.write == w then 0 else c.turnAround
  }

  ghost predicate BusOk(s: State) {
    && (forall k: nat, l: nat :: k < l < |s.log| ==> s.log[k].start + Gap(s.c, s.log[k], s.log[l].write) <= s.log[l].start)
    && (forall k: nat :: k < |s.log| ==> s.log[k].start + Gap(s.c, s.log[k], s.writeMode) <= s.dbus)
    && (forall k: nat :: k < |s.log| ==> s.log[k].start <= s.clock)
  }

  ghost predicate Shape(s: State) {
    && s.c.Valid() && BanksFit(s) && |s.rq.entries| == s.c.rqSize && |s.wq.entries| == s.c.wqSize
  }

  ghost predicate Inv(s: State) {
    && Shape(s) && Tidy(s.rq) && Tidy(s.wq) && NextsOk(s.rq) && NextsOk(s.wq)
    && BanksOk(s, s.writeMode) && CountersOk(s) && Tickets(s) && BusOk(s)
  }
}
