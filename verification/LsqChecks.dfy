/** Exactly when the producer check of execute_store fails, and a program for which it does. */
module LsqChecks {
  import opened Common
  import opened LoadStoreQueue
  import opened LsqForwarding
  import opened LsqStores

  /** The forwarding loops for store queue slot `q` look at operand (`d`, `j`). */
  ghost predicate Visited(s: State, q: nat, d: nat, j: nat) {
    && q < |s.sq| && s.sq[q].robIndex < |s.rob| && d < |s.rob| && j < NUM_INSTR_SOURCES
    && d in s.rob[s.sq[q].robIndex].dependents && Matches(s, q, d, j)
  }

  function LoadSlot(s: State, d: nat, j: nat): nat {
    if d < |s.rob| && j < |s.rob[d].lqIndex| && s.rob[d].lqIndex[j].Some? then s.rob[d].lqIndex[j].value else 0
  }

  /** The slot that operand (`d`, `j`) names was filled for a load of this store. */
  ghost predicate SlotOk(s: State, q: nat, d: nat, j: nat)
    requires q < |s.sq|
  {
    && LoadSlot(s, d, j) < |s.lq|
    && s.lq[LoadSlot(s, d, j)].producer == Some(s.sq[q].instrId) && s.lq[LoadSlot(s, d, j)].robIndex < |s.rob|
  }

  /** From operand (`d0`, `j0`) on, all visited operands name slots of loads of this store, and different ones. */
  ghost predicate Checked(s: State, q: nat, d0: nat, j0: nat)
    requires q < |s.sq|
  {
    && (forall d: nat, j: nat :: Visited(s, q, d, j) && Ahead(d, j, d0, j0) ==> SlotOk(s, q, d, j))
    && (forall d: nat, j: nat, e: nat, k: nat ::
          (Visited(s, q, d, j) && Visited(s, q, e, k) && Ahead(d, j, d0, j0) && Ahead(e, k, d0, j0)
           && LoadSlot(s, d, j) == LoadSlot(s, e, k)) ==> d == e && j == k)
  }

  /** Finishing a load changes no operand; its own slot no longer passes. */
  lemma FinishVisits(s: State, q: nat, l: nat, d: nat, j: nat)
    requires q < |s.sq| && l < |s.lq| && s.lq[l].robIndex < |s.rob|
    ensures var s' := FinishLoad(s, l, s.clock);
            && Visited(s', q, d, j) == Visited(s, q, d, j) && LoadSlot(s', d, j) == LoadSlot(s, d, j)
            && SlotOk(s', q, d, j) == (SlotOk(s, q, d, j) && LoadSlot(s, d, j) != l)
  {
    var s', c := FinishLoad(s, l, s.clock), s.lq[l].robIndex;
    forall x | 0 <= x < |s.rob|
      ensures s'.rob[x].instr == s.rob[x].instr && s'.rob[x].lqIndex == s.rob[x].lqIndex
      ensures s'.rob[x].sourceAdded == s.rob[x].sourceAdded && s'.rob[x].dependents == s.rob[x].dependents
    {
      if x != c { assert s'.rob[x] == s.rob[x]; }
    }
  }

  /** One visited operand passes: the rest passes before exactly if it passes afterwards. */
  lemma OneChecked(s: State, q: nat, d: nat, j: nat)
    requires Visited(s, q, d, j) && SlotOk(s, q, d, j)
    ensures Checked(s, q, d, j) <==> Checked(FinishLoad(s, LoadSlot(s, d, j), s.clock), q, d, j + 1)
  {
    var l := LoadSlot(s, d, j);
    var s' := FinishLoad(s, l, s.clock);
    forall e: nat, k: nat
      ensures Visited(s', q, e, k) == Visited(s, q, e, k) && LoadSlot(s', e, k) == LoadSlot(s, e, k)
      ensures SlotOk(s', q, e, k) == (SlotOk(s, q, e, k) && LoadSlot(s, e, k) != l)
    {
      FinishVisits(s, q, l, e, k);
    }
    hide FinishLoad, SlotOk, Visited, LoadSlot;
    if Checked(s', q, d, j + 1) {
      forall e: nat, k: nat | Visited(s, q, e, k) && Ahead(e, k, d, j) ensures SlotOk(s, q, e, k) && (LoadSlot(s, e, k) == l ==> e == d && k == j) {
        if !(e == d && k == j) { assert Ahead(e, k, d, j + 1); }
      }
    }
  }

  /** The forwarding loops run through exactly if every operand ahead passes. */
  lemma {:induction false} ForwardExact(s: State, q: nat, d: nat, j: nat)
    requires q < |s.sq| && s.sq[q].robIndex < |s.rob| && d <= |s.rob| && j <= NUM_INSTR_SOURCES
    ensures Forward(s, q, d, j).Some? <==> Checked(s, q, d, j)
    decreases |s.rob| - d, NUM_INSTR_SOURCES - j
  {
    hide Checked, FinishLoad, SlotOk;
    if d == |s.rob| {
      NothingAhead(s, q, j);
    } else if j == NUM_INSTR_SOURCES || d !in s.rob[s.sq[q].robIndex].dependents {
      ForwardExact(s, q, d + 1, 0);
      SkipChecked(s, q, d, j, d + 1, 0);
    } else if Matches(s, q, d, j) {
      VisitChecked(s, q, d, j);
      if SlotOk(s, q, d, j) {
        OneChecked(s, q, d, j);
        ForwardExact(FinishLoad(s, LoadSlot(s, d, j), s.clock), q, d, j + 1);
      }
    } else {
      ForwardExact(s, q, d, j + 1);
      SkipChecked(s, q, d, j, d, j + 1);
    }
  }

  lemma NothingAhead(s: State, q: nat, j: nat)
    requires q < |s.sq|
    ensures Checked(s, q, |s.rob|, j)
  {
  }

  /** The test of the loops for the operand they look at. */
  lemma VisitChecked(s: State, q: nat, d: nat, j: nat)
    requires Visited(s, q, d, j)
    ensures s.rob[d].lqIndex[j].value == LoadSlot(s, d, j) < |s.lq|
    ensures SlotOk(s, q, d, j) <==> s.lq[LoadSlot(s, d, j)].producer == Some(s.sq[q].instrId) && s.lq[LoadSlot(s, d, j)].robIndex < |s.rob|
    ensures !SlotOk(s, q, d, j) ==> !Checked(s, q, d, j)
    ensures SlotOk(s, q, d, j) ==>
              FinishLoad(s, LoadSlot(s, d, j), s.clock).sq == s.sq && |FinishLoad(s, LoadSlot(s, d, j), s.clock).rob| == |s.rob|
  {
    assert Ahead(d, j, d, j);
  }

  lemma SkipChecked(s: State, q: nat, d: nat, j: nat, d': nat, j': nat)
    requires q < |s.sq| && d < |s.rob|
    requires (d' == d + 1 && j' == 0 && forall k: nat :: j <= k ==> !Visited(s, q, d, k))
          || (d' == d && j' == j + 1 && !Visited(s, q, d, j))
    ensures Checked(s, q, d, j) <==> Checked(s, q, d', j')
  {
    forall e: nat, k: nat | Visited(s, q, e, k) ensures Ahead(e, k, d, j) <==> Ahead(e, k, d', j') { }
  }

  /**
   execute_store passes its check exactly if, of the instructions recorded as consumers, every added
   load from the address of the store names a load queue slot that waits for this instruction, and no two name the same.
   */
  lemma ProducerCheckExact(s: State)
    requires Inv(s) && |s.rts1| > 0
    ensures s.rts1[0] < |s.sq| && s.sq[s.rts1[0]].robIndex < |s.rob|
    ensures ExecuteStore(s).Some? <==> (s.rob[s.sq[s.rts1[0]].robIndex].isProducer ==> Checked(s, s.rts1[0], 0, 0))
  {
    ExecuteStoreKeepsInv(s);
    var q := s.rts1[0];
    var s1 := StoreDone(s, q).(rts1 := s.rts1[1..]);
    hide Inv;
    ForwardExact(s1, q, 0, 0);
    SameChecked(s, s1, q);
  }

  lemma SameChecked(s: State, s1: State, q: nat)
    requires q < |s.sq| && s.sq[q].robIndex < |s.rob| && s1 == StoreDone(s, q).(rts1 := s1.rts1)
    ensures Checked(s, q, 0, 0) <==> Checked(s1, q, 0, 0)
  {
    forall d: nat, j: nat
      ensures Visited(s1, q, d, j) == Visited(s, q, d, j) && LoadSlot(s1, d, j) == LoadSlot(s, d, j) && SlotOk(s1, q, d, j) == SlotOk(s, q, d, j)
    {
      if d < |s.rob| && d != s.sq[q].robIndex { assert s1.rob[d] == s.rob[d]; }
    }
  }
}
