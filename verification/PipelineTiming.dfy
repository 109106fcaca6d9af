/**
 Which entries a pass of the scheduler, of execution and of retirement takes, when they are due
 afterwards, and how many cycles an instruction spends at least.
 */
module PipelineTiming {
  import opened Common
  import opened RegisterScheduler
  import opened SchedulingStep
  import opened CompletionStep
  import opened PipelineSteps
  import opened RingSteps
  import opened PipelineRuns
  import opened PipelineTheorems
  import opened PipelineProgress

  // ----- the scheduling pass

  /** The entries of the slots from `i` to `k` have all been fetched and are due. */
  ghost predicate AllFetched(s: State, i: nat, k: nat) {
    k < |s.rob| && forall m :: i <= m <= k ==> s.rob[m].fetched == Completed && s.rob[m].eventCycle <= s.clock
  }

  lemma SchedulesTimely(s: State, c: nat, k: nat)
    requires Marking(s) && c < |s.rob| && Eligible(s, c) && k < |s.rob|
    ensures var t := DoScheduling(s, c);
            && t.clock == s.clock && t.retired == s.retired && t.trace == s.trace && t.execLatency == s.execLatency
            && t.schedulingLatency == s.schedulingLatency
            && (t.rob[k].scheduled != Idle <==> k == c || s.rob[k].scheduled != Idle)
            && t.rob[k].fetched == s.rob[k].fetched && t.rob[k].instr == s.rob[k].instr && t.rob[k].executed == s.rob[k].executed
            && t.rob[k].eventCycle == if k == c && s.rob[k].instr.memOps == 0 then s.clock + s.schedulingLatency else s.rob[k].eventCycle
  {
  }

  /** What a scan from slot `i` on does to slot `k` when `room` entries may still be looked at. */
  ghost predicate Reaches(s: State, i: nat, room: nat, k: nat) { i <= k < i + room && AllFetched(s, i, k) }

  lemma ReachesNext(s: State, t: State, i: nat, room: nat, k: nat)
    requires i < |s.rob| && k < |s.rob| && Eligible(s, i) && room > 0 && |t.rob| == |s.rob| && t.clock == s.clock
    requires forall m: nat :: i < m < |s.rob| ==> t.rob[m].fetched == s.rob[m].fetched && t.rob[m].eventCycle == s.rob[m].eventCycle
    ensures Reaches(s, i, room, k) <==> k == i || Reaches(t, i + 1, room - 1, k)
  {
    if Reaches(t, i + 1, room - 1, k) {
      forall m | i <= m <= k ensures s.rob[m].fetched == Completed && s.rob[m].eventCycle <= s.clock {
        assert m > i ==> t.rob[m].fetched == Completed && t.rob[m].eventCycle <= t.clock;
      }
    }
  }

  lemma {:induction false} ScheduleFromReaches(s: State, i: nat, searched: nat, k: nat)
    requires Marking(s) && i <= |s.rob| && k < |s.rob| && searched <= SCHEDULER_SIZE
    ensures var t, reached := ScheduleFrom(s, i, searched), Reaches(s, i, SCHEDULER_SIZE - searched, k);
            && t.clock == s.clock && t.retired == s.retired && t.trace == s.trace && t.execLatency == s.execLatency
            && t.schedulingLatency == s.schedulingLatency
            && (t.rob[k].scheduled != Idle <==> s.rob[k].scheduled != Idle || reached)
            && t.rob[k].instr == s.rob[k].instr && t.rob[k].executed == s.rob[k].executed
            && t.rob[k].eventCycle == (if reached && s.rob[k].scheduled == Idle && s.rob[k].instr.memOps == 0
                                       then s.clock + s.schedulingLatency else s.rob[k].eventCycle)
    decreases |s.rob| - i
  {
    hide DoScheduling, Marking;
    if i < |s.rob| && Eligible(s, i) && searched < SCHEDULER_SIZE {
      if s.rob[i].scheduled == Idle {
        SchedulingKeepsMarking(s, i);
        var t := DoScheduling(s, i);
        forall m: nat | m < |s.rob|
          ensures t.rob[m].fetched == s.rob[m].fetched && (m != i ==> t.rob[m].eventCycle == s.rob[m].eventCycle)
        {
          SchedulesTimely(s, i, m);
        }
        SchedulesTimely(s, i, k);
        ReachesNext(s, t, i, SCHEDULER_SIZE - searched, k);
        ScheduleFromReaches(t, i + 1, searched + 1, k);
      } else {
        ReachesNext(s, s, i, SCHEDULER_SIZE - searched, k);
        ScheduleFromReaches(s, i + 1, searched + 1, k);
      }
    }
  }

  /**
   One pass of schedule_instruction schedules exactly the entries from the head on, up to the end of
   the buffer, that the first one not fetched or not due does not cut off, at most 128; a register
   instruction may go on after the scheduling latency.
   */
  lemma SchedulePicks(s: State, k: nat)
    requires Inv(s) && k < |s.rob|
    ensures Marking(s) && s.head < |s.rob| && |Schedule(s).rob| == |s.rob|
    ensures var t, picked := Schedule(s), s.rob[k].scheduled == Idle && s.head <= k < s.head + 128 && AllFetched(s, s.head, k);
            && (t.rob[k].scheduled != Idle <==> s.rob[k].scheduled != Idle || picked)
            && t.rob[k].instr == s.rob[k].instr && t.rob[k].executed == s.rob[k].executed
            && t.rob[k].eventCycle == if picked && s.rob[k].instr.memOps == 0 then s.clock + s.schedulingLatency else s.rob[k].eventCycle
  {
    InvMarking(s);
    if s.occ == 0 {
      assert !Live(s, k) && s.rob[k] == EMPTY_ENTRY;
    } else {
      ScheduleFromReaches(s, s.head, 0, k);
    }
  }

  // ----- the execution pass

  /** The first `n` slots of ready queue `q` are due, and the next one is not, unless `n` is as many as may be issued. */
  ghost predicate Picks(s: State, q: seq<nat>, n: nat, room: nat) {
    && n <= |q| && n <= room
    && (forall k :: 0 <= k < |q| ==> q[k] < |s.rob|)
    && (forall k :: 0 <= k < n ==> s.rob[q[k]].eventCycle <= s.clock)
    && (n < |q| && n < room ==> s.rob[q[n]].eventCycle > s.clock)
  }

  /** The entries of the slots in `q` are in execution from now on, and nothing else has changed. */
  ghost predicate Sent(s: State, t: State, q: seq<nat>) {
    && s.head < |s.rob| && |t.rob| == |s.rob| && t.head == s.head && t.occ == s.occ && t.retired == s.retired && t.trace == s.trace
    && t.clock == s.clock && t.execLatency == s.execLatency && t.schedulingLatency == s.schedulingLatency && t.nextSchedule == s.nextSchedule
    && (forall i :: 0 <= i < |s.rob| ==>
          t.rob[i] == if i in q then s.rob[i].(executed := Inflight, eventCycle := s.clock + s.execLatency) else s.rob[i])
    && (forall k :: 0 <= k < |q| ==> q[k] < |s.rob|)
    && t.issued == s.issued + seq(|q|, k requires 0 <= k < |q| => s.retired + AgeFrom(s.head, |s.rob|, q[k]))
  }

  lemma SendsOne(s: State, i: nat)
    requires Live(s, i) && s.rob[i].eventCycle <= s.clock
    ensures Sent(s, DoExecution(s, i), [i])
  {
  }

  lemma SentNext(s: State, m: State, t: State, i: nat, q: seq<nat>)
    requires Sent(s, m, [i]) && Sent(m, t, q)
    ensures Sent(s, t, [i] + q)
  {
    hide AgeFrom;
    assert forall k :: k in [i] + q <==> k == i || k in q;
  }

  lemma PicksNext(s: State, m: State, q: seq<nat>, n: nat, room: nat)
    requires |q| > 0 && room > 0 && q[0] < |s.rob| && s.rob[q[0]].eventCycle <= s.clock
    requires Sent(s, m, [q[0]]) && Distinct(q)
    requires Picks(m, q[1..], n, room - 1)
    ensures Picks(s, q, n + 1, room)
  {
    hide AgeFrom;
    var r := q[1..];
    forall k | 0 <= k < |r| ensures r[k] == q[k + 1] && q[k + 1] !in [q[0]] {}
    assert forall k :: 0 < k < |q| ==> q[k] == r[k - 1];
  }

  lemma OneMore(s: State, m: State, t: State, q: seq<nat>, n: nat, room: nat)
    requires |q| > 0 && room > 0 && q[0] < |s.rob| && s.rob[q[0]].eventCycle <= s.clock
    requires Sent(s, m, [q[0]]) && Distinct(q) && n < |q|
    requires Picks(m, q[1..], n, room - 1) && Sent(m, t, q[1..][..n])
    ensures Picks(s, q, n + 1, room) && Sent(s, t, q[..n + 1]) && q[1..][n..] == q[n + 1..]
  {
    hide Sent, Picks;
    PicksNext(s, m, q, n, room);
    SentNext(s, m, t, q[0], q[1..][..n]);
    assert [q[0]] + q[1..][..n] == q[..n + 1];
  }

  function Min(a: nat, b: nat): nat { if a < b then a else b }

  lemma Unique(s: State)
    requires Inv(s)
    ensures 2 <= |s.rob| && s.head < |s.rob| && Distinct(s.rte0) && Distinct(s.rte1)
    ensures forall k :: 0 <= k < |s.rte0| ==> s.rte0[k] < |s.rob|
    ensures forall k :: 0 <= k < |s.rte1| ==> s.rte1[k] < |s.rob|
  {
    hide InOrder, Edges, OneProducer, Counts, Flags, Coverage, Tallies, History;
    QueuesFit(s);
    var q := s.rte0 + s.rte1;
    forall i, j | 0 <= i < j < |s.rte0| ensures s.rte0[i] != s.rte0[j] { assert q[i] == s.rte0[i] && q[j] == s.rte0[j]; }
    forall i, j | 0 <= i < j < |s.rte1| ensures s.rte1[i] != s.rte1[j] {
      assert q[|s.rte0| + i] == s.rte1[i] && q[|s.rte0| + j] == s.rte1[j];
    }
    assert forall k :: 0 <= k < |s.rte0| ==> s.rte0[k] in s.rte0;
    assert forall k :: 0 <= k < |s.rte1| ==> s.rte1[k] in s.rte1;
  }

  /** Whether the first loop goes on after `count` instructions, and the second one after `iterations` of its own. */
  predicate GoesOn0(s: State, count: nat) {
    count < EXEC_WIDTH && count + 1 < |s.rob| && |s.rte0| > 0 && Live(s, s.rte0[0]) && s.rob[s.rte0[0]].eventCycle <= s.clock
  }

  predicate GoesOn1(s: State, count: nat, iterations: nat) {
    count < EXEC_WIDTH && iterations + 1 < |s.rob| && |s.rte1| > 0 && Live(s, s.rte1[0]) && s.rob[s.rte1[0]].eventCycle <= s.clock
  }

  lemma Unfold0(s: State, count: nat)
    ensures GoesOn0(s, count) ==> Execute0(s, count) == Execute0(IssueFrom0(s), count + 1)
    ensures !GoesOn0(s, count) ==> Execute0(s, count) == (s, count)
  {
  }

  lemma Unfold1(s: State, count: nat, iterations: nat)
    ensures GoesOn1(s, count, iterations) ==> Execute1(s, count, iterations) == Execute1(IssueFrom1(s), count + 1, iterations + 1)
    ensures !GoesOn1(s, count, iterations) ==> Execute1(s, count, iterations) == s
  {
  }

  /** The first slot of the queue is issued, or the queue is empty, its first slot not due, or the limit reached. */
  lemma First0(s: State, count: nat)
    requires Inv(s) && count <= EXEC_WIDTH && count < |s.rob|
    ensures if GoesOn0(s, count) then
              var m := IssueFrom0(s);
              && Inv(m) && Sent(s, m, [s.rte0[0]]) && m.rte0 == s.rte0[1..] && m.rte1 == s.rte1 && |m.rob| == |s.rob| && Distinct(s.rte0)
              && s.rte0[0] < |s.rob| && s.rob[s.rte0[0]].eventCycle <= s.clock && count < EXEC_WIDTH && count + 1 < |s.rob|
            else Picks(s, s.rte0, 0, Min(EXEC_WIDTH, |s.rob| - 1) - count) && Sent(s, s, s.rte0[..0])
  {
    hide Inv, DoExecution, Sent, Picks, Distinct;
    Unique(s);
    if |s.rte0| > 0 { Issue0KeepsInv(s); }
    if GoesOn0(s, count) { SentFrom0(s); } else { PicksNone(s, s.rte0, Min(EXEC_WIDTH, |s.rob| - 1) - count); }
  }

  lemma First1(s: State, count: nat, iterations: nat)
    requires Inv(s) && count <= EXEC_WIDTH && iterations < |s.rob|
    ensures if GoesOn1(s, count, iterations) then
              var m := IssueFrom1(s);
              && Inv(m) && Sent(s, m, [s.rte1[0]]) && m.rte1 == s.rte1[1..] && m.rte0 == s.rte0 && |m.rob| == |s.rob| && Distinct(s.rte1)
              && s.rte1[0] < |s.rob| && s.rob[s.rte1[0]].eventCycle <= s.clock && count < EXEC_WIDTH && iterations + 1 < |s.rob|
            else Picks(s, s.rte1, 0, Min(EXEC_WIDTH - count, |s.rob| - 1 - iterations)) && Sent(s, s, s.rte1[..0])
  {
    hide Inv, DoExecution, Sent, Picks, Distinct;
    Unique(s);
    if |s.rte1| > 0 { Issue1KeepsInv(s); }
    if GoesOn1(s, count, iterations) { SentFrom1(s); } else { PicksNone(s, s.rte1, Min(EXEC_WIDTH - count, |s.rob| - 1 - iterations)); }
  }

  lemma {:induction false} Execute0Picks(s: State, count: nat) returns (n: nat)
    requires Inv(s) && count <= EXEC_WIDTH && count < |s.rob|
    ensures n <= |s.rte0| && Picks(s, s.rte0, n, Min(EXEC_WIDTH, |s.rob| - 1) - count)
    ensures var (t, c) := Execute0(s, count);
            c == count + n && t.rte0 == s.rte0[n..] && t.rte1 == s.rte1 && Sent(s, t, s.rte0[..n])
    decreases EXEC_WIDTH - count
  {
    hide Inv, Execute0, IssueFrom0, Sent, Picks, Distinct, Live;
    First0(s, count);
    Unfold0(s, count);
    n := 0;
    if GoesOn0(s, count) {
      n := Execute0Picks(IssueFrom0(s), count + 1);
      OneMore(s, IssueFrom0(s), Execute0(s, count).0, s.rte0, n, Min(EXEC_WIDTH, |s.rob| - 1) - count);
      n := n + 1;
    }
  }

  lemma PicksNone(s: State, q: seq<nat>, room: int)
    requires s.head < |s.rob| && room >= 0
    requires forall k :: 0 <= k < |q| ==> q[k] < |s.rob|
    requires |q| > 0 && room > 0 ==> s.rob[q[0]].eventCycle > s.clock
    ensures Picks(s, q, 0, room) && Sent(s, s, q[..0])
  {
  }

  lemma SentFrom0(s: State)
    requires |s.rte0| > 0 && Live(s, s.rte0[0]) && s.rob[s.rte0[0]].eventCycle <= s.clock
    ensures var m := IssueFrom0(s); Sent(s, m, [s.rte0[0]]) && m.rte0 == s.rte0[1..] && m.rte1 == s.rte1 && |m.rob| == |s.rob|
  {
    SendsOne(s, s.rte0[0]);
  }

  lemma SentFrom1(s: State)
    requires |s.rte1| > 0 && Live(s, s.rte1[0]) && s.rob[s.rte1[0]].eventCycle <= s.clock
    ensures var m := IssueFrom1(s); Sent(s, m, [s.rte1[0]]) && m.rte1 == s.rte1[1..] && m.rte0 == s.rte0 && |m.rob| == |s.rob|
  {
    SendsOne(s, s.rte1[0]);
  }

  lemma {:induction false} Execute1Picks(s: State, count: nat, iterations: nat) returns (n: nat)
    requires Inv(s) && count <= EXEC_WIDTH && iterations < |s.rob|
    ensures n <= |s.rte1| && Picks(s, s.rte1, n, Min(EXEC_WIDTH - count, |s.rob| - 1 - iterations))
    ensures var t := Execute1(s, count, iterations);
            t.rte1 == s.rte1[n..] && t.rte0 == s.rte0 && Sent(s, t, s.rte1[..n])
    decreases EXEC_WIDTH - count
  {
    hide Inv, Execute1, IssueFrom1, Sent, Picks, Distinct, Live;
    First1(s, count, iterations);
    Unfold1(s, count, iterations);
    n := 0;
    if GoesOn1(s, count, iterations) {
      n := Execute1Picks(IssueFrom1(s), count + 1, iterations + 1);
      OneMore(s, IssueFrom1(s), Execute1(s, count, iterations), s.rte1, n, Min(EXEC_WIDTH - count, |s.rob| - 1 - iterations));
      n := n + 1;
    }
  }

  lemma SentBoth(s: State, m: State, t: State, q: seq<nat>, r: seq<nat>)
    requires Sent(s, m, q) && Sent(m, t, r)
    ensures Sent(s, t, q + r)
  {
    hide AgeFrom;
    assert forall k :: k in q + r <==> k in q || k in r;
  }

  /**
   One pass of execute_instruction issues the first `n` slots of RTE0 and the first `k` of RTE1, in this
   order: all that are due up to the first that is not, at most 6 together, which are due again after
   the execution latency.
   */
  lemma ExecutePicks(s: State) returns (n: nat, k: nat)
    requires Inv(s)
    ensures s.occ == 0 ==> n == k == 0
    ensures s.occ > 0 ==> Picks(s, s.rte0, n, Min(6, |s.rob| - 1)) && Picks(s, s.rte1, k, Min(6 - n, |s.rob| - 1))
    ensures n <= |s.rte0| && k <= |s.rte1|
    ensures var t := Execute(s); t.rte0 == s.rte0[n..] && t.rte1 == s.rte1[k..] && Sent(s, t, s.rte0[..n] + s.rte1[..k])
  {
    hide Inv, Execute0, Execute1, Sent, Picks, DoExecution;
    Unique(s);
    if s.occ == 0 {
      n, k := 0, 0;
      NoneSent(s);
    } else {
      n := Execute0Picks(s, 0);
      Execute0KeepsInv(s, 0);
      var m := Execute0(s, 0).0;
      UnfoldPicks(s, s.rte0, n, Min(EXEC_WIDTH, |s.rob| - 1));
      UnfoldSent(s, m, s.rte0[..n]);
      k := Execute1Picks(m, n, 0);
      UnfoldPicks(m, s.rte1, k, Min(EXEC_WIDTH - n, |s.rob| - 1));
      SentBoth(s, m, Execute(s), s.rte0[..n], s.rte1[..k]);
      StillPicked(s, m, n, k);
    }
  }

  lemma NoneSent(s: State)
    requires Inv(s) && s.occ == 0
    ensures Sent(s, s, s.rte0[..0] + s.rte1[..0])
  {
    hide InOrder, Edges, OneProducer, Counts, Flags, Queues, Coverage, Tallies, History;
  }

  lemma UnfoldSent(s: State, t: State, q: seq<nat>)
    requires Sent(s, t, q)
    ensures |t.rob| == |s.rob| && t.occ == s.occ
  {
  }

  lemma UnfoldPicks(s: State, q: seq<nat>, n: nat, room: nat)
    requires Picks(s, q, n, room)
    ensures n <= |q| && n <= room
  {
  }

  /** The first loop leaves the slots of the second queue alone. */
  lemma StillPicked(s: State, m: State, n: nat, k: nat)
    requires Inv(s) && n <= |s.rte0| && n <= EXEC_WIDTH && Sent(s, m, s.rte0[..n]) && Picks(m, s.rte1, k, Min(EXEC_WIDTH - n, |s.rob| - 1))
    ensures Picks(s, s.rte1, k, Min(EXEC_WIDTH - n, |s.rob| - 1))
  {
    hide Shape, InOrder, Edges, OneProducer, Counts, Flags, Coverage, Tallies, History, AgeFrom;
    var q := s.rte0 + s.rte1;
    forall x | 0 <= x < |s.rte1| ensures s.rte1[x] !in s.rte0[..n] {
      assert q[|s.rte0| + x] == s.rte1[x];
      assert forall y :: 0 <= y < n ==> q[y] == s.rte0[..n][y];
    }
  }

  // ----- the retirement pass

  /** retire_rob retires the completed entries from the head on, up to the first one not completed, at most `n`. */
  lemma {:induction false} RetirePicks(s: State, n: nat) returns (k: nat)
    requires Inv(s)
    ensures Marking(s) && k <= n && k <= s.occ
    ensures forall a :: 0 <= a < k ==> s.rob[Slot(s, a)].executed == Completed
    ensures k < n && k < s.occ ==> s.rob[Slot(s, k)].executed != Completed
    ensures var t := Retire(s, n); t.retired == s.retired + k && t.occ == s.occ - k && t.trace == s.trace && t.clock == s.clock
    decreases n
  {
    hide Inv, Marking, FlagsOf;
    InvMarking(s);
    UnfoldMarking(s);
    k := 0;
    if s.occ > 0 { Top(s); }
    if n > 0 && s.occ > 0 && s.rob[s.head].executed == Completed {
      var t := RetireHead(s);
      RetireKeepsInv(s);
      k := RetirePicks(t, n - 1);
      k := k + 1;
      OneRetired(s);
      forall a | 0 <= a < k ensures s.rob[Slot(s, a)].executed == Completed {
        if a > 0 { assert t.rob[Slot(t, a - 1)].executed == Completed; }
      }
    }
  }

  lemma UnfoldMarking(s: State)
    requires Marking(s)
    ensures RingShape(s)
  {
  }

  lemma OneRetired(s: State)
    requires Marking(s) && s.occ > 0
    ensures var t := RetireHead(s);
            && |t.rob| == |s.rob| && t.retired == s.retired + 1 && t.occ == s.occ - 1 && t.trace == s.trace && t.clock == s.clock
            && RingShape(t) && forall a: nat :: a < t.occ ==> Slot(t, a) == Slot(s, a + 1) && t.rob[Slot(t, a)] == s.rob[Slot(s, a + 1)]
  {
  }

  // ----- the ready queues are first in, first out

  lemma {:induction false} ScheduleAppends(s: State, i: nat, searched: nat)
    requires Marking(s) && i <= |s.rob|
    ensures var t := ScheduleFrom(s, i, searched); s.rte1 <= t.rte1 && t.rte0 == s.rte0
    decreases |s.rob| - i
  {
    if i < |s.rob| && Eligible(s, i) && searched < SCHEDULER_SIZE {
      if s.rob[i].scheduled == Idle { SchedulingKeepsMarking(s, i); }
      hide Marking;
      ScheduleAppends(if s.rob[i].scheduled == Idle then DoScheduling(s, i) else s, i + 1, searched + 1);
    }
  }

  lemma {:induction false} CompleteAppends(s: State, k: nat)
    requires Marking(s) && k <= s.occ
    ensures var t := CompleteFrom(s, k); s.rte0 <= t.rte0 && t.rte1 == s.rte1 && t.nextSchedule == s.nextSchedule
    decreases s.occ - k
  {
    if k < s.occ {
      CompletionKeepsMarking(s, Slot(s, k));
      hide Marking, Woken;
      CompleteAppends(CompleteExecution(s, Slot(s, k)), k + 1);
    }
  }

  lemma {:induction false} RetireKeepsQueues(s: State, n: nat)
    requires Inv(s) && Marking(s)
    ensures var t := Retire(s, n); t.rte0 == s.rte0 && t.rte1 == s.rte1
    decreases n
  {
    hide Inv;
    if n > 0 && s.occ > 0 && s.rob[s.head].executed == Completed {
      RetireKeepsInv(s);
      InvMarking(RetireHead(s));
      RetireKeepsQueues(RetireHead(s), n - 1);
    }
  }

  /** Whatever happens, both ready queues stay first in, first out. */
  lemma QueuesAreFifo(s: State, ev: Event)
    requires Inv(s)
    ensures Fifo(s.rte0, Step(s, ev).rte0) && Fifo(s.rte1, Step(s, ev).rte1)
  {
    hide Inv, ScheduleFrom, Execute, CompleteFrom, Retire, Fifo, Sent, Picks;
    InvMarking(s);
    StepKeepsInv(s, ev);
    Unique(Step(s, ev));
    match ev {
      case ScheduleStage => if s.occ != 0 { Top(s); ScheduleAppends(s, s.head, 0); }
      case ExecuteStage =>
        var n, k := ExecutePicks(s);
        SuffixIsFifo(s.rte0, n);
        SuffixIsFifo(s.rte1, k);
        return;
      case UpdateStage => CompleteAppends(s, 0);
      case RetireStage(n) => RetireKeepsQueues(s, n);
      case _ =>
    }
    PrefixIsFifo(s.rte0, Step(s, ev).rte0);
    PrefixIsFifo(s.rte1, Step(s, ev).rte1);
  }

  /** The slots in the second queue are in program order. */
  ghost predicate Ordered(s: State) {
    forall a, b :: 0 <= a < b < |s.rte1| && Live(s, s.rte1[a]) && Live(s, s.rte1[b]) ==> Pos(s, s.rte1[a]) < Pos(s, s.rte1[b])
  }

  lemma Waiting(s: State)
    requires Inv(s)
    ensures forall k :: 0 <= k < |s.rte1| ==> Live(s, s.rte1[k]) && s.rob[s.rte1[k]].executed == Idle && s.rob[s.rte1[k]].scheduled != Idle
  {
    hide Edges, OneProducer, Counts, Coverage, Tallies, History;
    var q := s.rte0 + s.rte1;
    forall k | 0 <= k < |s.rte1|
      ensures Live(s, s.rte1[k]) && s.rob[s.rte1[k]].executed == Idle && s.rob[s.rte1[k]].scheduled != Idle
    {
      assert q[|s.rte0| + k] in q && ReadyToExecute(s, s.rte1[k]);
      assert FlagsOf(s.rob[s.rte1[k]]);
    }
  }

  lemma SchedulingKeepsOrdered(s: State, c: nat)
    requires Inv(s) && Marking(s) && Live(s, c) && s.rob[c].scheduled == Idle && Ordered(s)
    ensures Ordered(DoScheduling(s, c))
  {
    hide AgeFrom, Edges, OneProducer, Counts, Flags, Queues, Coverage, Tallies, History, Shape;
    Waiting(s);
    forall k | 0 <= k < |s.rte1| ensures Age(s, s.rte1[k]) < Age(s, c) {
      assert Scheduled(s, s.rte1[k]) && !Scheduled(s, c);
      if Age(s, s.rte1[k]) == Age(s, c) { SameAge(s, s.rte1[k], c); }
    }
  }

  lemma SameAge(s: State, i: nat, k: nat)
    requires Live(s, i) && Live(s, k) && Age(s, i) == Age(s, k)
    ensures i == k
  {
  }

  lemma {:induction false} ScheduleKeepsOrdered(s: State, i: nat, searched: nat)
    requires Inv(s) && Marking(s) && s.head <= i <= |s.rob| && ScheduledUpTo(s, i) && Ordered(s)
    ensures Ordered(ScheduleFrom(s, i, searched))
    decreases |s.rob| - i
  {
    hide Inv, ScheduledUpTo, Ordered;
    if i < |s.rob| && Eligible(s, i) && searched < SCHEDULER_SIZE {
      ScheduleOne(s, i);
      SchedulingKeepsMarking(s, i);
      EligibleIsLive(s, i);
      if s.rob[i].scheduled == Idle { SchedulingKeepsOrdered(s, i); }
      ScheduleKeepsOrdered(if s.rob[i].scheduled == Idle then DoScheduling(s, i) else s, i + 1, searched + 1);
    }
  }

  lemma EligibleIsLive(s: State, i: nat)
    requires Inv(s) && i < |s.rob| && Eligible(s, i)
    ensures Live(s, i)
  {
    assert s.rob[i] != EMPTY_ENTRY;
  }

  lemma {:induction false} RetireKeepsOrdered(s: State, n: nat)
    requires Inv(s) && Marking(s) && Ordered(s)
    ensures Ordered(Retire(s, n))
    decreases n
  {
    hide Inv, Ordered;
    if n > 0 && s.occ > 0 && s.rob[s.head].executed == Completed {
      RetireKeepsInv(s);
      InvMarking(RetireHead(s));
      OneKeepsOrdered(s);
      RetireKeepsOrdered(RetireHead(s), n - 1);
    }
  }

  lemma OneKeepsOrdered(s: State)
    requires Inv(s) && MayRetire(s) && Ordered(s)
    ensures Ordered(RetireHead(s))
  {
    hide AgeFrom, Wrap, InOrder, Edges, OneProducer, Counts, Flags, Queues, Coverage, Tallies, History;
    RetireRing(s);
  }

  lemma DispatchKeepsOrdered(s: State, x: Instr)
    requires Inv(s) && MayDispatch(s, x) && Ordered(s)
    ensures Ordered(Dispatch(s, x))
  {
    hide AgeFrom, Wrap, Scheduled, Edges, OneProducer, Counts, Flags, Queues, Coverage, Tallies, History;
    DispatchRing(s, x);
    Waiting(s);
  }

  lemma SameKeepsOrdered(s: State, t: State, n: nat)
    requires Ordered(s) && |t.rob| == |s.rob| && t.head == s.head && t.occ == s.occ && t.retired == s.retired
    requires n <= |s.rte1| && t.rte1 == s.rte1[n..]
    ensures Ordered(t)
  {
    hide AgeFrom;
    forall a, b | 0 <= a < b < |t.rte1| && Live(t, t.rte1[a]) && Live(t, t.rte1[b]) ensures Pos(t, t.rte1[a]) < Pos(t, t.rte1[b]) {
      assert t.rte1[a] == s.rte1[a + n] && t.rte1[b] == s.rte1[b + n];
    }
  }

  lemma StepKeepsOrdered(s: State, ev: Event)
    requires Inv(s) && Ordered(s)
    ensures Ordered(Step(s, ev))
  {
    hide Inv, ScheduleFrom, Execute, CompleteFrom, Retire, Ordered, Picks;
    InvMarking(s);
    match ev
    case Dispatched(x) => if MayDispatch(s, x) { DispatchKeepsOrdered(s, x); }
    case ScheduleStage =>
      if s.occ != 0 {
        Top(s);
        NothingBefore(s);
        ScheduleKeepsOrdered(s, s.head, 0);
      }
    case ExecuteStage =>
      var n, k := ExecutePicks(s);
      SameKeepsOrdered(s, Execute(s), k);
    case UpdateStage =>
      CompleteAppends(s, 0);
      CompleteKeepsRest(s, 0);
      SameKeepsOrdered(s, UpdateRob(s), 0);
    case RetireStage(n) => RetireKeepsOrdered(s, n);
    case MemoryQueued(i) => SameKeepsOrdered(s, Step(s, ev), 0);
    case MemoryFinished(i, c) => SameKeepsOrdered(s, Step(s, ev), 0);
    case Cycles(clock) => SameKeepsOrdered(s, Step(s, ev), 0);
  }

  lemma NothingBefore(s: State)
    ensures ScheduledUpTo(s, s.head)
  {
  }

  /** In every reachable state RTE1 holds its instructions in program order. */
  lemma {:induction false} SecondQueueInOrder(size: nat, a: nat, b: nat, evs: seq<Event>)
    requires size >= 2
    ensures Ordered(Reached(size, a, b, evs))
    decreases |evs|
  {
    hide Inv, Step, Ordered;
    InitialInv(size, a, b);
    var s0 := Initial(size, a, b);
    if |evs| == 0 {
      NoneQueued(s0);
    } else {
      SecondQueueInOrder(size, a, b, evs[..|evs| - 1]);
      StepKeepsOrdered(Run(s0, evs[..|evs| - 1]), evs[|evs| - 1]);
    }
  }

  lemma NoneQueued(s: State)
    requires s.rte1 == []
    ensures Ordered(s)
  {
  }

  // ----- next_schedule

  /** The `k` oldest entries are scheduled, no other is, and next_schedule is the slot after them. */
  ghost predicate NextIs(s: State, k: nat) {
    && s.head < |s.rob| && k <= s.occ <= |s.rob| && s.nextSchedule == Wrap(|s.rob|, s.head + k)
    && forall i: nat :: Live(s, i) ==> (s.rob[i].scheduled != Idle <==> Age(s, i) < k)
  }

  lemma ScheduledBelow(s: State, c: nat, a: nat)
    requires Live(s, c) && s.head <= c && ScheduledUpTo(s, c) && a < Age(s, c)
    ensures Live(s, s.head + a) && Age(s, s.head + a) == a && s.rob[s.head + a].scheduled != Idle
  {
  }

  lemma SchedulingMovesNext(s: State, c: nat, k: nat)
    requires Inv(s) && Marking(s) && NextIs(s, k) && Live(s, c) && s.head <= c && s.rob[c].scheduled == Idle && ScheduledUpTo(s, c)
    ensures NextIs(DoScheduling(s, c), k + 1)
  {
    hide InOrder, Edges, OneProducer, Counts, Flags, Queues, Coverage, Tallies, History, Shape;
    var t := DoScheduling(s, c);
    if k < Age(s, c) { ScheduledBelow(s, c, k); }
    forall i: nat | Live(t, i) ensures t.rob[i].scheduled != Idle <==> Age(t, i) < k + 1 {
      ScheduledEntry(s, c, i);
      if Age(s, i) == Age(s, c) { SameAge(s, i, c); }
    }
  }

  lemma {:induction false} ScheduleMovesNext(s: State, i: nat, searched: nat, k: nat) returns (n: nat)
    requires Inv(s) && Marking(s) && s.head <= i <= |s.rob| && ScheduledUpTo(s, i) && NextIs(s, k)
    ensures NextIs(ScheduleFrom(s, i, searched), n)
    decreases |s.rob| - i
  {
    hide Inv, ScheduledUpTo, NextIs;
    n := k;
    if i < |s.rob| && Eligible(s, i) && searched < SCHEDULER_SIZE {
      ScheduleOne(s, i);
      SchedulingKeepsMarking(s, i);
      EligibleIsLive(s, i);
      if s.rob[i].scheduled == Idle {
        SchedulingMovesNext(s, i, k);
        n := ScheduleMovesNext(DoScheduling(s, i), i + 1, searched + 1, k + 1);
      } else {
        n := ScheduleMovesNext(s, i + 1, searched + 1, k);
      }
    }
  }

  lemma {:induction false} RetireMovesNext(s: State, n: nat, k: nat) returns (m: nat)
    requires Inv(s) && Marking(s) && NextIs(s, k)
    ensures NextIs(Retire(s, n), m)
    decreases n
  {
    hide Inv, NextIs;
    m := k;
    if n > 0 && s.occ > 0 && s.rob[s.head].executed == Completed && s.rob[s.head].instr.ip != 0 {
      RetireKeepsInv(s);
      InvMarking(RetireHead(s));
      OneMovesNext(s, k);
      m := RetireMovesNext(RetireHead(s), n - 1, k - 1);
    }
  }

  lemma OneMovesNext(s: State, k: nat)
    requires Inv(s) && MayRetire(s) && NextIs(s, k)
    ensures k > 0 && NextIs(RetireHead(s), k - 1)
  {
    hide InOrder, Edges, OneProducer, Counts, Queues, Coverage, Tallies, History;
    RetireRing(s);
    assert FlagsOf(s.rob[s.head]);
  }

  lemma SameKeepsNext(s: State, t: State, k: nat)
    requires NextIs(s, k) && |t.rob| == |s.rob| && t.head == s.head && t.occ == s.occ && t.nextSchedule == s.nextSchedule
    requires forall i: nat :: Live(s, i) ==> (t.rob[i].scheduled == Idle <==> s.rob[i].scheduled == Idle)
    ensures NextIs(t, k)
  {
    hide AgeFrom;
    assert forall i: nat :: Live(t, i) ==> Live(s, i) && Age(t, i) == Age(s, i);
  }

  lemma DispatchKeepsNext(s: State, x: Instr, k: nat)
    requires Inv(s) && MayDispatch(s, x) && NextIs(s, k)
    ensures NextIs(Dispatch(s, x), k)
  {
    hide AgeFrom, Wrap, InOrder, Edges, OneProducer, Counts, Flags, Queues, Coverage, Tallies, History;
    DispatchRing(s, x);
    assert Age(Dispatch(s, x), s.tail) == s.occ by { TailAge(s); }
  }

  lemma TailAge(s: State)
    requires RingShape(s) && s.occ < |s.rob|
    ensures AgeFrom(s.head, |s.rob|, s.tail) == s.occ
  {
  }

  lemma StepMovesNext(s: State, ev: Event, k: nat) returns (n: nat)
    requires Inv(s) && NextIs(s, k)
    ensures NextIs(Step(s, ev), n)
  {
    hide Inv, ScheduleFrom, Execute, CompleteFrom, Retire, NextIs, Picks;
    InvMarking(s);
    n := k;
    match ev
    case Dispatched(x) => if MayDispatch(s, x) { DispatchKeepsNext(s, x, k); }
    case ScheduleStage =>
      if s.occ != 0 {
        Top(s);
        NothingBefore(s);
        n := ScheduleMovesNext(s, s.head, 0, k);
      }
    case ExecuteStage =>
      var a, b := ExecutePicks(s);
      SameKeepsNext(s, Execute(s), k);
    case UpdateStage =>
      CompleteAppends(s, 0);
      CompleteKeepsRest(s, 0);
      SameKeepsNext(s, UpdateRob(s), k);
    case RetireStage(m) => n := RetireMovesNext(s, m, k);
    case MemoryQueued(i) => SameKeepsNext(s, Step(s, ev), k);
    case MemoryFinished(i, c) => SameKeepsNext(s, Step(s, ev), k);
    case Cycles(clock) => SameKeepsNext(s, Step(s, ev), k);
  }

  /** In every reachable state scheduling has come as far as next_schedule says. */
  lemma {:induction false} NextToSchedule(size: nat, a: nat, b: nat, evs: seq<Event>) returns (k: nat)
    requires size >= 2
    ensures NextIs(Reached(size, a, b, evs), k)
    decreases |evs|
  {
    hide Inv, Step, NextIs;
    InitialInv(size, a, b);
    var s0 := Initial(size, a, b);
    if |evs| == 0 {
      k := 0;
      NoneScheduled(s0);
    } else {
      k := NextToSchedule(size, a, b, evs[..|evs| - 1]);
      k := StepMovesNext(Run(s0, evs[..|evs| - 1]), evs[|evs| - 1], k);
    }
  }

  lemma NoneScheduled(s: State)
    requires 0 < |s.rob| && s.head == s.nextSchedule == s.occ == 0
    ensures NextIs(s, 0)
  {
  }

  // ----- how long an instruction takes at least

  /** The times of an entry that was not scheduled before cycle `since`; `a` and `b` are the two latencies. */
  ghost predicate EntryInTime(e: Entry, since: nat, a: nat, b: nat, clock: nat) {
    && (e.executed == Idle && e.scheduled != Idle ==> since + a <= e.eventCycle)
    && (e.executed == Inflight ==> since + a + b <= e.eventCycle)
    && (e.executed == Completed ==> since + a + b <= clock)
  }

  /** The same of the register instruction at trace position `t`. */
  ghost predicate InTime(s: State, t: nat, since: nat, a: nat, b: nat) {
    && since <= s.clock && s.schedulingLatency == a && s.execLatency == b
    && (t < s.retired && t < |s.trace| && !s.trace[t].IsMemory() ==> since + a + b <= s.clock)
    && (forall i: nat :: Live(s, i) && Pos(s, i) == t && !s.rob[i].instr.IsMemory() ==> EntryInTime(s.rob[i], since, a, b, s.clock))
  }

  /** The ring, the trace and the latencies are the same. */
  ghost predicate SameRun(s: State, t: State) {
    && |t.rob| == |s.rob| && t.head == s.head && t.occ == s.occ && t.retired == s.retired && t.trace == s.trace
    && t.clock == s.clock && t.schedulingLatency == s.schedulingLatency && t.execLatency == s.execLatency
    && forall i: nat :: i < |s.rob| ==> t.rob[i].instr == s.rob[i].instr
  }

  lemma EntriesInTime(s: State, s': State, t: nat, since: nat, a: nat, b: nat)
    requires InTime(s, t, since, a, b) && SameRun(s, s')
    requires forall i: nat :: Live(s, i) && !s.rob[i].instr.IsMemory() && EntryInTime(s.rob[i], since, a, b, s.clock)
                           ==> EntryInTime(s'.rob[i], since, a, b, s.clock)
    ensures InTime(s', t, since, a, b)
  {
    hide EntryInTime, AgeFrom;
    forall i: nat | Live(s', i) && Pos(s', i) == t && !s'.rob[i].instr.IsMemory() ensures EntryInTime(s'.rob[i], since, a, b, s'.clock) {
      assert Live(s, i) && Pos(s, i) == t;
    }
  }

  lemma ScheduleInTime(s: State, t: nat, since: nat, a: nat, b: nat)
    requires Inv(s) && InTime(s, t, since, a, b)
    ensures Marking(s) && InTime(Schedule(s), t, since, a, b)
  {
    hide Inv, Schedule, InTime;
    InvMarking(s);
    ScheduleSameRun(s);
    UnfoldTime(s, t, since, a, b);
    forall i: nat | Live(s, i) && !s.rob[i].instr.IsMemory() && EntryInTime(s.rob[i], since, a, b, s.clock)
      ensures EntryInTime(Schedule(s).rob[i], since, a, b, s.clock)
    {
      SchedulePicks(s, i);
    }
    EntriesInTime(s, Schedule(s), t, since, a, b);
  }

  lemma UnfoldTime(s: State, t: nat, since: nat, a: nat, b: nat)
    requires InTime(s, t, since, a, b)
    ensures since <= s.clock && s.schedulingLatency == a && s.execLatency == b
  {
  }

  lemma ScheduleSameRun(s: State)
    requires Inv(s) && Marking(s)
    ensures SameRun(s, Schedule(s))
  {
    hide Inv, ScheduleFrom;
    if s.occ != 0 {
      Top(s);
      forall i: nat | i < |s.rob| ensures Schedule(s).rob[i].instr == s.rob[i].instr { ScheduleFromReaches(s, s.head, 0, i); }
      ScheduleFromReaches(s, s.head, 0, s.head);
    }
  }

  lemma ExecuteInTime(s: State, t: nat, since: nat, a: nat, b: nat)
    requires Inv(s) && InTime(s, t, since, a, b)
    ensures InTime(Execute(s), t, since, a, b)
  {
    hide Inv, Execute, InTime, Picks;
    var n, k := ExecutePicks(s);
    var q := s.rte0[..n] + s.rte1[..k];
    UnfoldTime(s, t, since, a, b);
    forall i: nat | Live(s, i) && i in q ensures s.rob[i].executed == Idle && s.rob[i].scheduled != Idle && s.rob[i].eventCycle <= s.clock {
      PickedIsDue(s, n, k, i);
    }
    EntriesInTime(s, Execute(s), t, since, a, b);
  }

  lemma PickedIsDue(s: State, n: nat, k: nat, i: nat)
    requires Inv(s) && n <= |s.rte0| && k <= |s.rte1| && i in s.rte0[..n] + s.rte1[..k] && s.occ > 0
    requires Picks(s, s.rte0, n, Min(6, |s.rob| - 1)) && Picks(s, s.rte1, k, Min(6 - n, |s.rob| - 1))
    ensures i < |s.rob| && s.rob[i].executed == Idle && s.rob[i].scheduled != Idle && s.rob[i].eventCycle <= s.clock
  {
    hide Edges, OneProducer, Counts, Coverage, Tallies, History, Min;
    assert i in s.rte0 + s.rte1 && ReadyToExecute(s, i);
    assert FlagsOf(s.rob[i]);
  }

  lemma {:induction false} CompleteKeepsRest(s: State, k: nat)
    requires Inv(s) && Marking(s) && k <= s.occ
    ensures SameRun(s, CompleteFrom(s, k))
    ensures forall i: nat :: Live(s, i) ==> CompleteFrom(s, k).rob[i].scheduled == s.rob[i].scheduled
    decreases s.occ - k
  {
    hide Inv, CompleteExecution, Marking, AgeFrom, Wrap;
    if k < s.occ {
      SlotIsLive(s, k);
      var p := Slot(s, k);
      CompletionKeepsInv(s, p);
      CompletionKeepsMarking(s, p);
      var m := CompleteExecution(s, p);
      CompletionKeepsRest(s, p);
      CompleteKeepsRest(m, k + 1);
    }
  }

  lemma SlotIsLive(s: State, k: nat)
    requires Marking(s) && k < s.occ
    ensures RingShape(s) && Live(s, Slot(s, k))
  {
  }

  lemma CompletionKeepsRest(s: State, p: nat)
    requires Inv(s) && Marking(s) && Live(s, p)
    ensures var t := CompleteExecution(s, p);
            SameRun(s, t) && forall i: nat :: Live(s, i) ==> t.rob[i].scheduled == s.rob[i].scheduled
  {
    hide Edge, Covered, CountWaits, ReadyToExecute, Tallies, History, Queues, Coverage, OneProducer, InOrder;
    if Completable(s, p) { CompletionStep.SameRing(s, p); }
    forall i: nat | i < |s.rob| ensures CompleteExecution(s, p).rob[i].instr == s.rob[i].instr { CompletesOne(s, p, i); }
  }

  lemma UpdateInTime(s: State, t: nat, since: nat, a: nat, b: nat)
    requires Inv(s) && InTime(s, t, since, a, b)
    ensures Marking(s) && InTime(UpdateRob(s), t, since, a, b)
  {
    hide Inv, CompleteFrom, InTime;
    InvMarking(s);
    CompleteKeepsRest(s, 0);
    forall i: nat | Live(s, i) && !s.rob[i].instr.IsMemory() && EntryInTime(s.rob[i], since, a, b, s.clock)
      ensures EntryInTime(UpdateRob(s).rob[i], since, a, b, s.clock)
    {
      UpdateCompletes(s, i);
    }
    EntriesInTime(s, UpdateRob(s), t, since, a, b);
  }

  lemma {:induction false} RetireInTime(s: State, n: nat, t: nat, since: nat, a: nat, b: nat)
    requires Inv(s) && Marking(s) && InTime(s, t, since, a, b)
    ensures InTime(Retire(s, n), t, since, a, b)
    decreases n
  {
    hide Inv, InTime;
    if n > 0 && s.occ > 0 && s.rob[s.head].executed == Completed {
      RetireKeepsInv(s);
      InvMarking(RetireHead(s));
      OneInTime(s, t, since, a, b);
      RetireInTime(RetireHead(s), n - 1, t, since, a, b);
    }
  }

  lemma OneInTime(s: State, t: nat, since: nat, a: nat, b: nat)
    requires Inv(s) && s.occ > 0 && s.head < |s.rob| && s.rob[s.head].executed == Completed && InTime(s, t, since, a, b)
    ensures InTime(RetireHead(s), t, since, a, b)
  {
    hide AgeFrom, Wrap, InOrder, Edges, OneProducer, Counts, Flags, Queues, Coverage, Tallies, History;
    RetireRing(s);
    assert EntryInTime(s.rob[s.head], since, a, b, s.clock) || s.rob[s.head].instr.IsMemory() || t != s.retired;
  }

  lemma DispatchInTime(s: State, x: Instr, t: nat, since: nat, a: nat, b: nat)
    requires Inv(s) && MayDispatch(s, x) && InTime(s, t, since, a, b)
    ensures InTime(Dispatch(s, x), t, since, a, b)
  {
    hide AgeFrom, Wrap, InOrder, Edges, OneProducer, Counts, Flags, Queues, Coverage, Tallies, History;
    DispatchRing(s, x);
  }

  lemma MemoryInTime(s: State, s': State, i: nat, t: nat, since: nat, a: nat, b: nat)
    requires Inv(s) && InTime(s, t, since, a, b) && Touches(s, s', i) && s.rob[i].instr.IsMemory()
    requires s'.clock == s.clock && s'.schedulingLatency == s.schedulingLatency && s'.execLatency == s.execLatency
    ensures InTime(s', t, since, a, b)
  {
    hide AgeFrom, Wrap, InOrder, Edges, OneProducer, Counts, Flags, Queues, Coverage, Tallies, History, EntryInTime, InTime;
    assert forall k: nat :: k < |s.rob| ==> Progress(s.rob[k], s'.rob[k]);
    EntriesInTime(s, s', t, since, a, b);
  }

  lemma StepInTime(s: State, ev: Event, t: nat, since: nat, a: nat, b: nat)
    requires Inv(s) && InTime(s, t, since, a, b) && (ev.Cycles? ==> s.clock <= ev.clock)
    ensures InTime(Step(s, ev), t, since, a, b)
  {
    InvMarking(s);
    match ev
    case Dispatched(x) => if MayDispatch(s, x) { DispatchInTime(s, x, t, since, a, b); }
    case ScheduleStage => ScheduleInTime(s, t, since, a, b);
    case ExecuteStage => ExecuteInTime(s, t, since, a, b);
    case UpdateStage => UpdateInTime(s, t, since, a, b);
    case RetireStage(n) => RetireInTime(s, n, t, since, a, b);
    case MemoryQueued(i) =>
      if MaySchedule(s, i) {
        QueuedTouches(s, i);
        MemoryInTime(s, MemoryScheduled(s, i), i, t, since, a, b);
      }
    case MemoryFinished(i, c) =>
      if MayFinish(s, i) {
        FinishedTouches(s, i, c);
        MemoryInTime(s, MemoryOpDone(s, i, c), i, t, since, a, b);
      }
    case Cycles(clock) => TickInTime(s, clock, t, since, a, b);
  }

  lemma QueuedTouches(s: State, i: nat)
    requires Inv(s) && MaySchedule(s, i)
    ensures Touches(s, MemoryScheduled(s, i), i)
  {
    assert FlagsOf(s.rob[i]);
  }

  lemma FinishedTouches(s: State, i: nat, c: nat)
    requires Inv(s) && MayFinish(s, i)
    ensures Touches(s, MemoryOpDone(s, i, c), i)
  {
    assert FlagsOf(s.rob[i]);
  }

  lemma TickInTime(s: State, clock: nat, t: nat, since: nat, a: nat, b: nat)
    requires InTime(s, t, since, a, b) && s.clock <= clock
    ensures InTime(s.(clock := clock), t, since, a, b)
  {
    hide AgeFrom;
    var s' := s.(clock := clock);
    forall i: nat | Live(s', i) && Pos(s', i) == t && !s'.rob[i].instr.IsMemory() ensures EntryInTime(s'.rob[i], since, a, b, clock) {
      assert Live(s, i) && Pos(s, i) == t;
    }
  }

  /** The clock never goes back in a run from `s`. */
  ghost predicate Forward(s: State, evs: seq<Event>)
    requires Inv(s)
  {
    forall k :: 0 <= k < |evs| && evs[k].Cycles? ==> Run(s, evs[..k]).clock <= evs[k].clock
  }

  lemma {:induction false} RunInTime(s: State, evs: seq<Event>, t: nat, since: nat, a: nat, b: nat)
    requires Inv(s) && InTime(s, t, since, a, b) && Forward(s, evs)
    ensures InTime(Run(s, evs), t, since, a, b)
    decreases |evs|
  {
    hide Inv, InTime, Step;
    if |evs| > 0 {
      var n := |evs| - 1;
      assert forall k :: 0 <= k < n ==> evs[..n][..k] == evs[..k];
      RunInTime(s, evs[..n], t, since, a, b);
      StepInTime(Run(s, evs[..n]), evs[n], t, since, a, b);
    }
  }

  /** No instruction of a run that is not scheduled yet, or not even dispatched, completes before both latencies have passed. */
  lemma LatenciesPass(size: nat, a: nat, b: nat, evs: seq<Event>, more: seq<Event>, t: nat)
    requires size >= 2
    requires var s := Reached(size, a, b, evs);
             Forward(s, more) && s.retired <= t && forall i: nat :: Live(s, i) && Pos(s, i) == t ==> s.rob[i].scheduled == Idle
    requires var u := Run(Reached(size, a, b, evs), more); t < |u.trace| && !u.trace[t].IsMemory() && Done(u, t)
    ensures Run(Reached(size, a, b, evs), more).clock >= Reached(size, a, b, evs).clock + a + b
  {
    hide Reached, Run, Inv;
    var s := Reached(size, a, b, evs);
    var u := Run(s, more);
    StartsInTime(size, a, b, evs, t);
    RunInTime(s, more, t, s.clock, a, b);
    if t >= u.retired {
      var i: nat :| i < |u.rob| && Live(u, i) && Pos(u, i) == t && u.rob[i].executed == Completed;
      SameInstr(u, i);
    }
  }

  lemma SameInstr(s: State, i: nat)
    requires Inv(s) && Live(s, i)
    ensures Pos(s, i) < |s.trace| && s.rob[i].instr == s.trace[Pos(s, i)]
  {
  }

  lemma StartsInTime(size: nat, a: nat, b: nat, evs: seq<Event>, t: nat)
    requires size >= 2
    requires var s := Reached(size, a, b, evs);
             s.retired <= t && forall i: nat :: Live(s, i) && Pos(s, i) == t ==> s.rob[i].scheduled == Idle
    ensures InTime(Reached(size, a, b, evs), t, Reached(size, a, b, evs).clock, a, b)
  {
    hide Edges, OneProducer, Counts, Queues, Coverage, Tallies, History, InOrder, Shape, Run;
    var s := Reached(size, a, b, evs);
    LatenciesStay(Initial(size, a, b), evs, size, a, b);
    assert forall i: nat :: Live(s, i) ==> FlagsOf(s.rob[i]);
  }

  lemma {:induction false} LatenciesStay(s: State, evs: seq<Event>, size: nat, a: nat, b: nat)
    requires size >= 2 && s == Initial(size, a, b)
    ensures Inv(s) && Run(s, evs).schedulingLatency == a && Run(s, evs).execLatency == b
    decreases |evs|
  {
    InitialInv(size, a, b);
    hide Inv, Step, Initial;
    if |evs| > 0 {
      LatenciesStay(s, evs[..|evs| - 1], size, a, b);
      LatencyStays(Run(s, evs[..|evs| - 1]), evs[|evs| - 1]);
    }
  }

  lemma LatencyStays(s: State, ev: Event)
    requires Inv(s)
    ensures Step(s, ev).schedulingLatency == s.schedulingLatency && Step(s, ev).execLatency == s.execLatency
  {
    hide Inv, ScheduleFrom, Execute, CompleteFrom, Retire;
    InvMarking(s);
    match ev
    case ScheduleStage => ScheduleSameRun(s);
    case ExecuteStage => { var n, k := ExecutePicks(s); }
    case UpdateStage => CompleteKeepsRest(s, 0);
    case RetireStage(n) => RetireLatency(s, n);
    case _ =>
  }

  lemma {:induction false} RetireLatency(s: State, n: nat)
    requires Marking(s) && Inv(s)
    ensures Retire(s, n).schedulingLatency == s.schedulingLatency && Retire(s, n).execLatency == s.execLatency
    decreases n
  {
    hide Inv;
    if n > 0 && s.occ > 0 && s.rob[s.head].executed == Completed {
      RetireKeepsInv(s);
      InvMarking(RetireHead(s));
      RetireLatency(RetireHead(s), n - 1);
    }
  }

  /** After its last operation has finished, a memory instruction completes exactly from the cycle of that operation on. */
  lemma MemoryCompletes(s: State, i: nat, cycle: nat, clock: nat)
    requires Inv(s) && MayFinish(s, i) && s.rob[i].numMemOps == 1 && s.rob[i].executed == Inflight
    ensures var t := Step(s, MemoryFinished(i, cycle));
            && Inv(t) && Inv(Step(t, Cycles(clock)))
            && var u := Step(Step(t, Cycles(clock)), UpdateStage);
            i < |u.rob| && (u.rob[i].executed == Completed <==> cycle <= clock)
  {
    hide Inv, UpdateRob;
    var t := Step(s, MemoryFinished(i, cycle));
    StepKeepsInv(s, MemoryFinished(i, cycle));
    StepKeepsInv(t, Cycles(clock));
    UpdateCompletes(Step(t, Cycles(clock)), i);
  }
}
