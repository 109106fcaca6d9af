/**
 The load/store queue with the register scheduler around it: an instruction is scheduled only once
 its registers are ready.  The scheduler enters through what PipelineTheorems proves of it: ready
 entries have the last writer of each source done, and entries without an unfinished writer are ready.
 */
module ReadyRuns {
  import opened Common
  import opened LoadStoreQueue
  import opened LsqForwarding
  import opened LsqRuns
  import opened LsqTheorems
  import R = RegisterScheduler

  /** Whether the registers of slot `c` are ready, for the register operands `regs` of the program. */
  type Readiness = (seq<R.Instr>, State, nat) -> bool

  /** The instruction at trace position `t` has completed. */
  ghost predicate DoneAt(s: State, t: nat) {
    t < s.retired || exists c: nat :: Live(s, c) && s.rob[c].id == t && s.rob[c].executed == Completed
  }

  /** Every source register of the instruction at position `t` has its last older writer done. */
  ghost predicate LastWritersDone(regs: seq<R.Instr>, s: State, t: nat) {
    t < |regs| ==> forall r: nat :: r != 0 && r in regs[t].sources ==>
                     var w := R.LastWriter(regs, t, r); w.None? || DoneAt(s, w.value)
  }

  /** All older writers of all its sources are done. */
  ghost predicate AllWritersDone(regs: seq<R.Instr>, s: State, t: nat) {
    t < |regs| ==> forall u: nat, r: nat :: u < t && r != 0 && r in regs[t].sources && r in regs[u].destinations ==> DoneAt(s, u)
  }

  /** What is known of the register scheduler. */
  ghost predicate Sound(ready: Readiness) {
    forall regs: seq<R.Instr>, s: State, c: nat :: Live(s, c) ==>
      && (ready(regs, s, c) ==> LastWritersDone(regs, s, s.rob[c].id))
      && (AllWritersDone(regs, s, s.rob[c].id) ==> ready(regs, s, c))
  }

  /** A core runs a program; `front` is the room of its front end. */
  datatype Core = Core(front: nat, regs: seq<R.Instr>, ready: Readiness)

  /** Memory operands are queued, and instructions without any complete, only once the registers are ready. */
  ghost predicate Allowed(p: Core, s: State, ev: Event) {
    match ev
    case Schedules(c) => Live(s, c) ==> p.ready(p.regs, s, c)
    case Completes(c) => Live(s, c) && !s.rob[c].instr.IsMemory() ==> p.ready(p.regs, s, c)
    case _ => true
  }

  ghost function ReadyStep(p: Core, s: State, ev: Event): (s': State)
    requires Inv(s)
    ensures Inv(s')
  {
    StepKeepsInv(s, p.front, ev);
    if Allowed(p, s, ev) then Step(s, p.front, ev) else s
  }

  /** The state after the events `evs`; those that are not allowed change nothing. */
  ghost function ReadyRun(p: Core, s0: State, evs: seq<Event>): (s: State)
    requires Inv(s0)
    ensures Inv(s)
    decreases |evs|
  {
    if |evs| == 0 then s0 else ReadyStep(p, ReadyRun(p, s0, evs[..|evs| - 1]), evs[|evs| - 1])
  }

  lemma ReadyStepForwards(p: Core, s: State, ev: Event)
    requires Inv(s) && Forwarding(s) && (ev.Reads? ==> Plain(ev.x))
    ensures Forwarding(ReadyStep(p, s, ev))
  {
    hide Inv, Forwarding, Step;
    StepForwards(s, p.front, ev);
  }

  lemma {:induction false} ReadyRunForwards(p: Core, s0: State, evs: seq<Event>)
    requires Inv(s0) && Forwarding(s0) && PlainEvents(evs)
    ensures Forwarding(ReadyRun(p, s0, evs))
    decreases |evs|
  {
    hide Inv, Forwarding, ReadyStep;
    if |evs| > 0 {
      ReadyRunForwards(p, s0, evs[..|evs| - 1]);
      ReadyStepForwards(p, ReadyRun(p, s0, evs[..|evs| - 1]), evs[|evs| - 1]);
    }
  }

  lemma {:induction false} RunsJoin(p: Core, s: State, a: seq<Event>, b: seq<Event>)
    requires Inv(s)
    ensures ReadyRun(p, s, a + b) == ReadyRun(p, ReadyRun(p, s, a), b)
    decreases |b|
  {
    hide Inv, ReadyStep;
    if |b| == 0 {
      assert a + b == a;
    } else {
      var b' := b[..|b| - 1];
      RunsJoin(p, s, a, b');
      assert (a + b)[..|a + b| - 1] == a + b' && (a + b)[|a + b| - 1] == b[|b| - 1];
    }
  }

  // ----- what can be reached from a state

  /** Some events lead from `s` to `t`, all instructions read on the way being plain. */
  ghost predicate Leads(p: Core, s: State, t: State)
    requires Inv(s)
  {
    exists evs: seq<Event> :: PlainEvents(evs) && ReadyRun(p, s, evs) == t
  }

  lemma LeadsNowhere(p: Core, s: State)
    requires Inv(s)
    ensures Leads(p, s, s)
  {
    hide Inv;
    var evs: seq<Event> := [];
    assert PlainEvents(evs) && ReadyRun(p, s, evs) == s;
  }

  lemma LeadsOne(p: Core, s: State, ev: Event)
    requires Inv(s) && !ev.Reads?
    ensures Leads(p, s, ReadyStep(p, s, ev))
  {
    hide Inv, ReadyStep;
    var none, evs: seq<Event> := [], [ev];
    assert evs[..0] == none && ReadyRun(p, s, none) == s;
    assert PlainEvents(evs) && ReadyRun(p, s, evs) == ReadyStep(p, s, ev);
  }

  lemma LeadsOn(p: Core, s: State, m: State, t: State)
    requires Inv(s) && Leads(p, s, m) && Inv(m) && Leads(p, m, t)
    ensures Leads(p, s, t)
  {
    hide Inv, ReadyRun;
    var a: seq<Event> :| PlainEvents(a) && ReadyRun(p, s, a) == m;
    var b: seq<Event> :| PlainEvents(b) && ReadyRun(p, m, b) == t;
    RunsJoin(p, s, a, b);
    assert PlainEvents(a + b);
  }

  // ----- the property

  ghost function Begin(k: Config): (s: State)
    requires k.Valid()
    ensures Inv(s) && Forwarding(s)
  {
    InitialInv(k.robSize, k.lqSize, k.sqSize, k.latency);
    Initial(k.robSize, k.lqSize, k.sqSize, k.latency)
  }

  /**
   From wherever a plain program has got to, the oldest instruction in the buffer can still retire.
   Readiness may be decided in one way on the way there and in another from there on; a scheduler
   that remembers more than the state lies between the most eager and the most reluctant sound one.
   */
  ghost predicate AlwaysRetires(k: Config, before: Readiness, after: Readiness)
    requires k.Valid()
  {
    forall regs: seq<R.Instr>, evs: seq<Event> :: PlainEvents(evs) ==>
      var s := ReadyRun(Core(k.front, regs, before), Begin(k), evs);
      s.occ > 0 ==> CanRetire(Core(k.front, regs, after), s)
  }

  ghost predicate CanRetire(p: Core, s: State)
    requires Inv(s)
  {
    exists t: State :: Leads(p, s, t) && t.retired > s.retired
  }
}
