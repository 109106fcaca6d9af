/** Why the write queue needs two entries: with one, its high watermark is 0 and the mode switches in every cycle. */
module DramStarvation {
  import opened DramController
  import opened DramSteps
  import opened DramTheorems
  import opened DramDrain

  /** After a switch, one round of schedule and process transfers nothing, because every access takes time. */
  lemma NothingTransferred(m: State)
    requires Inv(m) && m.c.tCAS > 0 && NothingScheduled(Active(m).entries)
    ensures var r := TrySchedule(m, m.writeMode); BanksFit(r) && TryProcess(r, m.writeMode) == r && r.log == m.log
  {
    var w := m.writeMode;
    var r := TrySchedule(m, w);
    ServeFits(m);
    if ScheduleDue(m, w) && Choice(m, w).Some? {
      LaunchIsLater(m, w, Choice(m, w).value, Choice(m, w).value in Hits(m, w));
    } else {
      OldestMeaning(Active(m).entries, Scheduled(Active(m).entries), |Active(m).entries|);
    }
  }

  /** The only scheduled entry becomes due after the access time. */
  lemma LaunchIsLater(m: State, w: bool, i: nat, hit: bool)
    requires BanksFit(m) && i < |Q(m, w).entries| && m.c.tCAS > 0 && NothingScheduled(Q(m, w).entries)
    ensures !ProcessDue(Launch(m, w, i, hit), w) && Launch(m, w, i, hit).log == m.log
  {
    var r := Launch(m, w, i, hit);
    var es := Q(r, w).entries;
    OldestMeaning(es, Scheduled(es), |es|);
    forall k | k in Scheduled(es) ensures k == i { assert IsScheduled(es, k) && !IsScheduled(Q(m, w).entries, k); }
  }

  /** With a write queue of one entry, empty, a cycle switches the mode and transfers nothing. */
  lemma CycleStarves(s: State)
    requires Inv(s) && s.c.High() == 0 && s.c.tCAS > 0 && s.wq.occupancy == 0
    ensures BanksFit(s) && Cycle(s).log == s.log && Cycle(s).wq.occupancy == 0 && Cycle(s).c == s.c
  {
    CycleIs(s);
    CycleKeepsInputs(s);
    var t := s.(clock := s.clock + 1);
    var m := Switch(t);
    SwitchReleases(t);
    SwitchKeepsOccupancy(t);
    hide Inv, Cycle, Switch, TrySchedule, TryProcess;
    NothingTransferred(m);
    ScheduleEffect(m);
  }

  lemma SwitchReleases(t: State)
    requires Inv(t) && WantsSwitch(t)
    ensures BanksFit(t) && NothingScheduled(Active(Switch(t)).entries) && Switch(t).log == t.log && Switch(t).c == t.c
  {
    var flipped := t.(writeMode := !t.writeMode);
    QueuesOnly(t, flipped, t.writeMode);
    ResetKeeps(flipped, t.writeMode);
    hide Inv;
    var r := Reset(flipped, t.writeMode);
    NoneCounted(r.rq.entries);
    NoneCounted(r.wq.entries);
  }

  lemma {:induction false} StarvesForEver(s: State, n: nat)
    requires Inv(s) && s.c.High() == 0 && s.c.tCAS > 0 && s.wq.occupancy == 0
    ensures After(s, n).log == s.log
    decreases n
  {
    hide Inv, Cycle;
    if n > 0 {
      CycleStarves(s);
      CycleKeepsInv(s);
      StarvesForEver(Cycle(s), n - 1);
    }
  }

  const ONE_READ: seq<Event> := [Arrives(false, 1, 0)]

  /** One read has been accepted and nothing else happened. */
  lemma OneReadWaits(c: Config)
    requires c.Valid()
    ensures var s := Reached(c, ONE_READ); |s.arrivals| == 1 && s.log == [] && s.wq.occupancy == 0 && s.c == c
  {
    InitialInv(c);
    var s0 := Initial(c);
    assert ONE_READ[..0] == [];
    assert Reached(c, ONE_READ) == Step(s0, ONE_READ[0]);
    AddToEmpty(s0);
  }

  lemma AddToEmpty(s0: State)
    requires Inv(s0) && s0 == Initial(s0.c)
    ensures var s := Add(s0, false, 1, 0); |s.arrivals| == 1 && s.log == [] && s.wq.occupancy == 0 && s.c == s0.c
  {
    FindMeaning(s0.wq.entries, 1, 0);
    FindMeaning(s0.rq.entries, 1, 0);
    FindMeaning(s0.rq.entries, 0, 0);
    hide UpdateSchedule;
    assert OutcomeOf(s0, false, 1) == Queued(0);
  }

  ghost predicate ServesAll(c: Config)
    requires c.Valid()
  {
    forall evs: seq<Event>, t: nat :: t < |Reached(c, evs).arrivals| ==> ServedSomeTime(c, evs, t)
  }

  ghost predicate ServedSomeTime(c: Config, evs: seq<Event>, t: nat)
    requires c.Valid()
  {
    exists n: nat :: InLogTimes(After(Reached(c, evs), n).log, t) == 1
  }

  /** In every run, each accepted request is served once arrivals stop, exactly if the write queue has two entries or more. */
  lemma TwoEntriesAreNeeded(c: Config)
    requires c.Valid() && c.tCAS > 0
    ensures ServesAll(c) <==> c.wqSize >= 2
  {
    hide Reached;
    if c.wqSize >= 2 {
      forall evs: seq<Event>, t: nat | t < |Reached(c, evs).arrivals| ensures ServedSomeTime(c, evs, t) { EveryRequestIsServed(c, evs, t); }
    } else {
      OneReadWaits(c);
      var s := Reached(c, ONE_READ);
      assert c.High() == 0;
      forall n: nat ensures After(s, n).log == [] { StarvesForEver(s, n); }
      assert !ServedSomeTime(c, ONE_READ, 0);
    }
  }
}
