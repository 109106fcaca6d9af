/**
 The memory controller as it runs: queue entries and banks are arrays updated in place.  Every
 method is proved to take the controller exactly to the state that the pure step of the same name gives.
 */
module MemoryController {
  import opened Common
  import opened DramAddress
  import opened DramController
  import opened DramSteps
  import opened DramTheorems

  class PacketQueue {
    const size: nat
    const entries: array<Entry>
    var occupancy: int
    var nextScheduleIndex: nat
    var nextScheduleCycle: Option<nat>
    var nextProcessIndex: nat
    var nextProcessCycle: Option<nat>

    ghost function Contents(): Queue
      reads this, entries
    {
      Queue(entries[..], occupancy, nextScheduleIndex, nextScheduleCycle, nextProcessIndex, nextProcessCycle)
    }

    constructor (size: nat)
      ensures fresh(entries) && entries.Length == size
      ensures Contents() == Queue(seq(size, _ => EMPTY), 0, 0, None, 0, None)
    {
      this.size := size;
      entries := new Entry[size](_ => EMPTY);
      occupancy, nextScheduleIndex, nextScheduleCycle, nextProcessIndex, nextProcessCycle := 0, 0, None, 0, None;
      new;
      assert entries[..] == seq(size, _ => EMPTY);
    }

    /** update_schedule_cycle. */
    method UpdateScheduleCycle()
      modifies this`nextScheduleIndex, this`nextScheduleCycle
      ensures Contents() == UpdateSchedule(old(Contents()))
    {
      ghost var es := entries[..];
      var minCycle: Option<nat> := None;
      var minIndex := entries.Length;
      for i := 0 to entries.Length
        invariant var m := Oldest(es, Unscheduled(es), i); minCycle == CycleOf(es, m) && minIndex == IndexOr(m, |es|)
      {
        assert i in Unscheduled(es) <==> IsUnscheduled(es, i);
        if entries[i].address != 0 && !entries[i].scheduled && (minCycle.None? || entries[i].eventCycle < minCycle.value) {
          minCycle, minIndex := Some(entries[i].eventCycle), i;
        }
      }
      nextScheduleCycle, nextScheduleIndex := minCycle, minIndex;
    }

    /** update_process_cycle. */
    method UpdateProcessCycle()
      modifies this`nextProcessIndex, this`nextProcessCycle
      ensures Contents() == UpdateProcess(old(Contents()))
    {
      ghost var es := entries[..];
      var minCycle: Option<nat> := None;
      var minIndex := entries.Length;
      for i := 0 to entries.Length
        invariant var m := Oldest(es, Scheduled(es), i); minCycle == CycleOf(es, m) && minIndex == IndexOr(m, |es|)
      {
        assert i in Scheduled(es) <==> IsScheduled(es, i);
        if entries[i].scheduled && (minCycle.None? || entries[i].eventCycle < minCycle.value) {
          minCycle, minIndex := Some(entries[i].eventCycle), i;
        }
      }
      nextProcessCycle, nextProcessIndex := minCycle, minIndex;
    }

    /** check_dram_queue, and the search for an empty entry. */
    method Find(address: nat) returns (i: nat)
      ensures i == FindFrom(entries[..], address, 0)
    {
      i := 0;
      while i < entries.Length
        invariant i <= entries.Length && FindFrom(entries[..], address, 0) == FindFrom(entries[..], address, i)
      {
        if entries[i].address == address { return; }
        i := i + 1;
      }
    }

    /** remove_queue; the queue is not empty. */
    method Remove(i: nat)
      requires i < entries.Length && occupancy > 0
      modifies this`occupancy, entries
      ensures Contents() == old(Contents()).(entries := old(entries[..])[i := EMPTY], occupancy := old(occupancy) - 1)
    {
      entries[i] := EMPTY;
      occupancy := occupancy - 1;
    }

    /** Entry `i` changes; then both cached positions are brought up to date. */
    method PutAndUpdate(i: nat, e: Entry)
      requires i < entries.Length
      modifies this, entries
      ensures Contents() == UpdateProcess(UpdateSchedule(old(Contents()).(entries := old(entries[..])[i := e])))
    {
      hide UpdateSchedule, UpdateProcess;
      Put(i, e);
      UpdateScheduleCycle();
      UpdateProcessCycle();
    }

    /** A new entry `i`. */
    method Fill(i: nat, e: Entry)
      requires i < entries.Length
      modifies this, entries
      ensures Contents() == UpdateSchedule(old(Contents()).(entries := old(entries[..])[i := e], occupancy := old(occupancy) + 1))
    {
      hide UpdateSchedule;
      Put(i, e);
      occupancy := occupancy + 1;
      UpdateScheduleCycle();
    }

    method Put(i: nat, e: Entry)
      requires i < entries.Length
      modifies entries
      ensures Contents() == old(Contents()).(entries := old(entries[..])[i := e])
    {
      entries[i] := e;
    }
  }

  class Controller {
    const c: Config
    const rq: PacketQueue
    const wq: PacketQueue
    const banks: array<Bank>
    var dbus: nat
    var writeMode: bool
    var scheduledReads: int
    var scheduledWrites: int
    var clock: nat
    ghost var arrivals: seq<Arrival>
    ghost var log: seq<Transfer>
    ghost var starts: seq<Start>

    ghost predicate Layout()
      reads this, rq, wq, rq.entries, wq.entries, banks
    {
      && rq != wq && rq.entries != wq.entries
      && c.g.Valid() && banks.Length == Banks(c.g)
    }

    ghost predicate Valid()
      reads this, rq, wq, rq.entries, wq.entries, banks
    {
      Layout() && Inv(St())
    }

    ghost function St(): State
      reads this, rq, wq, rq.entries, wq.entries, banks
    {
      State(c, rq.Contents(), wq.Contents(), banks[..], dbus, writeMode, scheduledReads, scheduledWrites, clock, arrivals, log, starts)
    }

    constructor (c: Config)
      requires c.Valid()
      ensures Valid() && St() == Initial(c)
      ensures fresh(rq) && fresh(wq) && fresh(rq.entries) && fresh(wq.entries) && fresh(banks)
    {
      this.c := c;
      rq := new PacketQueue(c.rqSize);
      wq := new PacketQueue(c.wqSize);
      banks := new Bank[Banks(c.g)](_ => FRESH_BANK);
      dbus, writeMode, scheduledReads, scheduledWrites, clock, arrivals, log, starts := 0, false, 0, 0, 0, [], [], [];
      new;
      hide Inv;
      assert banks[..] == seq(Banks(c.g), _ => FRESH_BANK);
      InitialInv(c);
    }

    function Queue(w: bool): PacketQueue { if w then wq else rq }

    /** The loop body of reset_remain_requests. */
    method ResetOneAt(w: bool, i: nat)
      requires Layout() && i < Queue(w).entries.Length
      modifies this`scheduledReads, this`scheduledWrites, Queue(w).entries, banks
      ensures Layout() && St() == ResetOne(old(St()), w, i)
    {
      ghost var m := ResetOne(St(), w, i);
      var queue := Queue(w);
      var e := queue.entries[i];
      if e.scheduled {
        var k, row := BankIndex(c.g, e.address), RowOf(c.g, e.address);
        var b := banks[k];
        if b.cycleAvailable - c.tCAS <= clock { b := b.(openRow := Some(row)); } else { b := b.(openRow := None); }
        b := b.(requestIndex := None, rowHit := false, working := false, cycleAvailable := clock);
        if b.isWrite {
          scheduledWrites := scheduledWrites - 1;
          b := b.(isWrite := false);
        } else if b.isRead {
          scheduledReads := scheduledReads - 1;
          b := b.(isRead := false);
        }
        banks[k] := b;
        queue.Put(i, e.(scheduled := false, eventCycle := clock));
        assert banks[..] == m.banks;
      }
    }

    method UpdateAllCycles()
      requires Layout()
      modifies rq, wq
      ensures Layout() && St() == UpdateAll(old(St()))
    {
      rq.UpdateScheduleCycle();
      wq.UpdateScheduleCycle();
      rq.UpdateProcessCycle();
      wq.UpdateProcessCycle();
    }

    method ResetAll(w: bool)
      requires Layout()
      modifies this`scheduledReads, this`scheduledWrites, Queue(w).entries, banks
      ensures Layout() && St() == ResetFrom(old(St()), w, 0)
    {
      ghost var s := St();
      hide ResetOne;
      var n := Queue(w).entries.Length;
      for i := 0 to n
        invariant Layout() && ResetFrom(s, w, 0) == ResetFrom(St(), w, i)
      {
        ResetOneAt(w, i);
      }
    }

    /** reset_remain_requests; at its end the counter of the queue is zero. */
    method ResetRemainRequests(w: bool)
      requires Layout() && Resetting(St(), w)
      modifies this`scheduledReads, this`scheduledWrites, rq, wq, Queue(w).entries, banks
      ensures Layout() && St() == Reset(old(St()), w)
    {
      ResetKeeps(St(), w);
      hide Resetting, ResetFrom, UpdateAll;
      ResetAll(w);
      UpdateAllCycles();
      assert if w then scheduledWrites == 0 else scheduledReads == 0;
    }

    /** The requests of queue `w` are taken back, and the bus turns around. */
    method FinishSwitch(w: bool)
      requires Layout() && Resetting(St(), w)
      modifies this, rq, wq, Queue(w).entries, banks
      ensures Layout() && St() == Reset(old(St()), w).(dbus := Reset(old(St()), w).dbus + c.turnAround)
    {
      hide Resetting, Reset;
      ResetRemainRequests(w);
      dbus := dbus + c.turnAround;
    }

    /** The conditions of operate for a switch of the mode. */
    method SwitchWanted() returns (wanted: bool)
      requires Layout()
      ensures wanted == WantsSwitch(St())
    {
      if !writeMode && (wq.occupancy >= c.High() || (rq.occupancy == 0 && wq.occupancy > 0)) {
        wanted := true;
      } else if writeMode {
        wanted := false;
        if wq.occupancy == 0 {
          wanted := true;
        } else if rq.occupancy != 0 && wq.occupancy < c.Low() {
          wanted := true;
        }
      } else {
        wanted := false;
      }
    }

    /** The mode switch at the start of operate. */
    method SwitchMode()
      requires Valid()
      modifies this, rq, wq, rq.entries, wq.entries, banks
      ensures Valid() && St() == Switch(old(St()))
    {
      hide Inv, Resetting, Reset, WantsSwitch;
      ghost var s := St();
      SwitchKeepsInv(s);
      MayReset(s);
      var wanted := SwitchWanted();
      if wanted {
        writeMode := !writeMode;
        FinishSwitch(!writeMode);
      }
    }

    /** The first loop of schedule: the oldest open row hit. */
    method SearchHit(w: bool) returns (oldest: Option<nat>)
      requires Layout()
      ensures oldest == OldestOf(Queue(w).entries[..], Hits(St(), w))
    {
      var queue := Queue(w);
      ghost var s, es := St(), queue.entries[..];
      oldest := None;
      var n := queue.entries.Length;
      for i := 0 to n
        invariant oldest == Oldest(es, Hits(s, w), i)
      {
        var e := queue.entries[i];
        assert es[i] == e && Q(s, w).entries == es;
        if e.scheduled { continue; }
        if e.address == 0 { continue; }
        var b := banks[BankIndex(c.g, e.address)];
        assert b == BankFor(s, e);
        if b.working { continue; }
        if b.openRow != Some(RowOf(c.g, e.address)) { continue; }
        assert i in Hits(s, w);
        if oldest.None? || e.eventCycle < queue.entries[oldest.value].eventCycle { oldest := Some(i); }
      }
    }

    /** The second loop of schedule: the oldest entry whose bank is idle. */
    method SearchIdle(w: bool) returns (oldest: Option<nat>)
      requires Layout()
      ensures oldest == OldestOf(Queue(w).entries[..], Eligible(St(), w))
    {
      var queue := Queue(w);
      ghost var s, es := St(), queue.entries[..];
      oldest := None;
      var n := queue.entries.Length;
      for i := 0 to n
        invariant oldest == Oldest(es, Eligible(s, w), i)
      {
        var e := queue.entries[i];
        assert es[i] == e && Q(s, w).entries == es;
        if e.scheduled { continue; }
        if e.address == 0 { continue; }
        var b := banks[BankIndex(c.g, e.address)];
        assert b == BankFor(s, e);
        if b.working { continue; }
        assert i in Eligible(s, w);
        if oldest.None? || e.eventCycle < queue.entries[oldest.value].eventCycle { oldest := Some(i); }
      }
    }

    /** Bank `k` starts to work for queue `w`. */
    method OccupyBank(w: bool, k: nat, b: Bank)
      requires k < banks.Length
      modifies this`scheduledReads, this`scheduledWrites, banks
      ensures banks[..] == old(banks[..])[k := b]
      ensures scheduledWrites == old(scheduledWrites) + (if w then 1 else 0)
      ensures scheduledReads == old(scheduledReads) + (if w then 0 else 1)
    {
      banks[k] := b;
      if w { scheduledWrites := scheduledWrites + 1; } else { scheduledReads := scheduledReads + 1; }
    }

    /** The second half of schedule. */
    method LaunchAt(w: bool, i: nat, hit: bool)
      requires Layout() && i < Queue(w).entries.Length
      modifies this`scheduledReads, this`scheduledWrites, this`starts, Queue(w), Queue(w).entries, banks
      ensures Layout() && St() == Launch(old(St()), w, i, hit)
    {
      hide UpdateSchedule, UpdateProcess, BankIndex, RowOf;
      var queue := Queue(w);
      var ready := clock + if hit then c.tCAS else c.tRP + c.tRCD + c.tCAS;
      var e := queue.entries[i];
      OccupyBank(w, BankIndex(c.g, e.address), Bank(true, ready, Some(RowOf(c.g, e.address)), hit, w, !w, Some(i)));
      queue.PutAndUpdate(i, e.(scheduled := true, eventCycle := ready));
      starts := starts + [Start(e.ticket, clock, hit)];
    }

    /** schedule. */
    method ScheduleQueue(w: bool)
      requires Layout()
      modifies this`scheduledReads, this`scheduledWrites, this`starts, Queue(w), Queue(w).entries, banks
      ensures Layout() && St() == Schedule(old(St()), w)
    {
      ghost var s := St();
      hide Launch, Eligible, OldestOf;
      var hit := true;
      var oldest := SearchHit(w);
      if oldest.None? {
        hit := false;
        oldest := SearchIdle(w);
      }
      assert oldest == Choice(s, w);
      if oldest.Some? {
        NoHits(s, w);
        LaunchAt(w, oldest.value, hit);
      }
    }

    /** The part of process that transfers the data of entry `i`. */
    method TransferEntry(w: bool, i: nat)
      requires Layout() && i < Queue(w).entries.Length && Queue(w).occupancy > 0
      modifies this, Queue(w), Queue(w).entries, banks
      ensures Layout() && St() == TransferAt(old(St()), w, i)
    {
      hide UpdateProcess;
      ghost var m := TransferAt(St(), w, i);
      var queue := Queue(w);
      var e := queue.entries[i];
      var k := BankIndex(c.g, e.address);
      dbus := clock + c.returnTime;
      banks[k] := banks[k].(requestIndex := None, rowHit := false, working := false, isWrite := false, isRead := false);
      if w { scheduledWrites := scheduledWrites - 1; } else { scheduledReads := scheduledReads - 1; }
      log := log + [Transfer(clock, w, e.ticket, e.address)];
      queue.Remove(i);
      queue.UpdateProcessCycle();
      assert banks[..] == m.banks;
    }

    /** process; the two checks at its start hold. */
    method ProcessQueue(w: bool)
      requires Layout() && Queue(w).nextProcessIndex < Queue(w).entries.Length && Queue(w).occupancy > 0
      requires BankFor(St(), Queue(w).entries[Queue(w).nextProcessIndex]).requestIndex == Some(Queue(w).nextProcessIndex)
      modifies this, Queue(w), Queue(w).entries, banks
      ensures Layout() && St() == Process(old(St()), w)
    {
      ghost var m := Process(St(), w);
      hide TransferAt;
      var queue := Queue(w);
      var i := queue.nextProcessIndex;
      assert i != queue.entries.Length;
      var k := BankIndex(c.g, queue.entries[i].address);
      assert banks[k].requestIndex == Some(i);
      if banks[k].cycleAvailable <= clock {
        if dbus <= clock {
          TransferEntry(w, i);
        } else {
          banks[k] := banks[k].(cycleAvailable := dbus);
          assert banks[..] == m.banks;
        }
      }
    }

    /** The scheduling part of operate for the queue of the mode. */
    method ScheduleIfDue(w: bool)
      requires Valid() && w == writeMode
      modifies this`scheduledReads, this`scheduledWrites, this`starts, Queue(w), Queue(w).entries, banks
      ensures Valid() && St() == TrySchedule(old(St()), w)
    {
      ScheduleKeepsInv(St());
      hide Inv, Schedule;
      var queue := Queue(w);
      if queue.nextScheduleIndex < queue.entries.Length {
        if queue.nextScheduleCycle.Some? && queue.nextScheduleCycle.value <= clock {
          ScheduleQueue(w);
        }
      }
    }

    /** The processing part of operate for the queue of the mode. */
    method ProcessIfDue(w: bool)
      requires Valid() && w == writeMode
      modifies this, Queue(w), Queue(w).entries, banks
      ensures Valid() && St() == TryProcess(old(St()), w)
    {
      if ProcessDue(St(), w) {
        ProcessChecks(St());
        ProcessKeepsInv(St());
      }
      hide Inv, Process;
      var queue := Queue(w);
      if queue.nextProcessIndex < queue.entries.Length {
        if queue.nextProcessCycle.Some? && queue.nextProcessCycle.value <= clock {
          ProcessQueue(w);
        }
      }
    }

    /** operate. */
    method OperateChannel()
      requires Valid()
      modifies this, rq, wq, rq.entries, wq.entries, banks
      ensures Valid() && St() == Operate(old(St()))
    {
      hide Inv, Switch, TrySchedule, TryProcess;
      SwitchMode();
      if writeMode {
        ScheduleIfDue(true);
        ProcessIfDue(true);
      } else {
        ScheduleIfDue(false);
        ProcessIfDue(false);
      }
    }

    /** The end of add_rq and add_wq: the packet goes to an empty entry. */
    method InsertAt(w: bool, i: nat, address: nat, eventCycle: nat, ticket: nat)
      requires Layout() && i < Queue(w).entries.Length && ticket == |arrivals|
      modifies this`arrivals, Queue(w), Queue(w).entries
      ensures Layout() && St() == Insert(old(St()), w, i, address, eventCycle)
    {
      hide UpdateSchedule;
      var queue := Queue(w);
      queue.Fill(i, Entry(address, eventCycle, false, ticket));
      arrivals := arrivals + [Arrival(address, w)];
    }

    /** The common part of add_rq and add_wq; the result is the index of the entry the packet was merged with, or -1. */
    method AddTo(w: bool, address: nat, eventCycle: nat, ticket: nat) returns (index: int)
      requires Valid() && address != 0 && ticket == |arrivals| && (!w ==> FindFrom(wq.entries[..], address, 0) == wq.entries.Length)
      modifies this`arrivals, Queue(w), Queue(w).entries
      ensures Valid() && St() == Add(old(St()), w, address, eventCycle)
      ensures index == if OutcomeOf(old(St()), w, address).Merged? then OutcomeOf(old(St()), w, address).index else -1
    {
      AddKeepsInv(St(), w, address, eventCycle);
      hide Inv, OutcomeOf, Add;
      index := AddToQueue(w, address, eventCycle, ticket);
    }

    method AddToQueue(w: bool, address: nat, eventCycle: nat, ticket: nat) returns (index: int)
      requires Layout() && address != 0 && ticket == |arrivals| && (!w ==> FindFrom(wq.entries[..], address, 0) == wq.entries.Length)
      modifies this`arrivals, Queue(w), Queue(w).entries
      ensures Layout() && St() == Add(old(St()), w, address, eventCycle)
      ensures index == if OutcomeOf(old(St()), w, address).Merged? then OutcomeOf(old(St()), w, address).index else -1
    {
      hide UpdateSchedule, Insert;
      var queue := Queue(w);
      var at := queue.Find(address);
      if at < queue.entries.Length { return at; }
      var free := queue.Find(0);
      if free < queue.entries.Length {
        InsertAt(w, free, address, eventCycle, ticket);
      } else {
        queue.UpdateScheduleCycle();
      }
      return -1;
    }

    /** add_rq after the warmup; a read of an address in the write queue is answered from there. */
    method AddRq(address: nat, eventCycle: nat, ticket: nat) returns (index: int, forwarded: bool)
      requires Valid() && address != 0 && ticket == |arrivals|
      modifies this`arrivals, rq, rq.entries
      ensures Valid() && St() == Add(old(St()), false, address, eventCycle)
      ensures forwarded == OutcomeOf(old(St()), false, address).Forwarded?
      ensures index == if OutcomeOf(old(St()), false, address).Merged? then OutcomeOf(old(St()), false, address).index else -1
    {
      hide Inv;
      var at := wq.Find(address);
      if at < wq.entries.Length { return -1, true; }
      index := AddTo(false, address, eventCycle, ticket);
      forwarded := false;
    }

    /** add_wq after the warmup. */
    method AddWq(address: nat, eventCycle: nat, ticket: nat) returns (index: int)
      requires Valid() && address != 0 && ticket == |arrivals|
      modifies this`arrivals, wq, wq.entries
      ensures Valid() && St() == Add(old(St()), true, address, eventCycle)
      ensures index == if OutcomeOf(old(St()), true, address).Merged? then OutcomeOf(old(St()), true, address).index else -1
    {
      index := AddTo(true, address, eventCycle, ticket);
    }
  }

  lemma MayReset(s: State)
    requires Inv(s)
    ensures Resetting(s.(writeMode := !s.writeMode), s.writeMode)
  {
    QueuesOnly(s, s.(writeMode := !s.writeMode), s.writeMode);
  }

  /** The choice is a hit exactly if there is one at all. */
  lemma NoHits(s: State, w: bool)
    requires BanksFit(s) && Choice(s, w).Some?
    ensures Choice(s, w).value in Hits(s, w) <==> OldestOf(Q(s, w).entries, Hits(s, w)).Some?
  {
    var es := Q(s, w).entries;
    OldestMeaning(es, Hits(s, w), |es|);
  }
}
