/** The stores of a trace, numbered in program order. */
module StoreRanks {
  import opened LoadStoreQueue

  lemma {:induction false} AllStoresPrefix(trace: seq<MemInstr>, t: nat, u: nat)
    requires t <= u <= |trace|
    ensures AllStores(trace, t) <= AllStores(trace, u)
    decreases u
  {
    if t < u { AllStoresPrefix(trace, t, u - 1); }
  }

  lemma {:induction false} AllStoresExtend(trace: seq<MemInstr>, x: MemInstr, t: nat)
    requires t <= |trace|
    ensures AllStores(trace + [x], t) == AllStores(trace, t)
  {
    if t > 0 {
      assert (trace + [x])[t - 1] == trace[t - 1];
      AllStoresExtend(trace, x, t - 1);
    }
  }

  lemma {:induction false} NonZeroGrows(xs: seq<nat>, m: nat, n: nat)
    requires m <= n <= |xs|
    ensures NonZero(xs, m) <= NonZero(xs, n) <= NonZero(xs, m) + (n - m)
    decreases n
  {
    if m < n { NonZeroGrows(xs, m, n - 1); }
  }

  lemma {:induction false} StoresOfAt(t: nat, xs: seq<nat>, i: nat, n: nat)
    requires i < n <= |xs| && xs[i] != 0
    ensures NonZero(xs, i) < NonZero(xs, n) && StoresOf(t, xs, n)[NonZero(xs, i)] == StoreId(t, i)
    decreases n
  {
    if i < n - 1 { StoresOfAt(t, xs, i, n - 1); }
  }

  lemma {:induction false} StoresOfFind(t: nat, xs: seq<nat>, n: nat, m: nat) returns (i: nat)
    requires n <= |xs| && m < NonZero(xs, n)
    ensures i < n && xs[i] != 0 && NonZero(xs, i) == m
    decreases n
  {
    if NonZero(xs, n - 1) == m { i := n - 1; } else { i := StoresOfFind(t, xs, n - 1, m); }
  }

  /** A store sits at its rank in the list of all stores. */
  lemma RankAt(trace: seq<MemInstr>, t: nat, i: nat, u: nat)
    requires t < u <= |trace| && i < |trace[t].stores| && trace[t].stores[i] != 0
    ensures Rank(trace, t, i) < |AllStores(trace, t + 1)| <= |AllStores(trace, u)|
    ensures AllStores(trace, u)[Rank(trace, t, i)] == StoreId(t, i)
  {
    StoresOfAt(t, trace[t].stores, i, |trace[t].stores|);
    AllStoresPrefix(trace, t + 1, u);
    var xs, a := StoresOf(t, trace[t].stores, |trace[t].stores|), AllStores(trace, t);
    assert AllStores(trace, t + 1) == a + xs;
    hide StoresOf, AllStores, NonZero;
    assert (a + xs)[Rank(trace, t, i)] == xs[Rank(trace, t, i) - |a|];
  }

  /** Every place in the list is the rank of a store. */
  lemma {:induction false} RankFind(trace: seq<MemInstr>, u: nat, m: nat) returns (t: nat, i: nat)
    requires u <= |trace| && m < |AllStores(trace, u)|
    ensures t < u && i < |trace[t].stores| && trace[t].stores[i] != 0 && Rank(trace, t, i) == m
    ensures AllStores(trace, u)[m] == StoreId(t, i)
    decreases u
  {
    var before := |AllStores(trace, u - 1)|;
    if m < before {
      t, i := RankFind(trace, u - 1, m);
    } else {
      t := u - 1;
      i := StoresOfFind(t, trace[t].stores, |trace[t].stores|, m - before);
      RankAt(trace, t, i, u);
    }
  }

  /** Ranks follow program order. */
  lemma RankOrder(trace: seq<MemInstr>, t: nat, i: nat, u: nat, k: nat)
    requires t < |trace| && i < |trace[t].stores| && trace[t].stores[i] != 0
    requires u < |trace| && k < |trace[u].stores|
    requires t < u || (t == u && i < k)
    ensures Rank(trace, t, i) < Rank(trace, u, k)
  {
    hide AllStores, StoresOf;
    if t < u {
      RankAt(trace, t, i, t + 1);
      AllStoresPrefix(trace, t + 1, u);
    } else {
      StoresOfAt(t, trace[t].stores, i, |trace[t].stores|);
      NonZeroGrows(trace[t].stores, i + 1, k);
    }
  }

  lemma RankInjective(trace: seq<MemInstr>, t: nat, i: nat, u: nat, k: nat)
    requires t < |trace| && i < |trace[t].stores| && trace[t].stores[i] != 0
    requires u < |trace| && k < |trace[u].stores| && trace[u].stores[k] != 0
    requires Rank(trace, t, i) == Rank(trace, u, k)
    ensures t == u && i == k
  {
    RankAt(trace, t, i, |trace|);
    RankAt(trace, u, k, |trace|);
  }
}
