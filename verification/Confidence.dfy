/** The branch-confidence estimators EJRS, UDCE and BPRU, and the composite estimator CBCP that combines them. */
module Confidence {
  import opened Bits

  const ENTRIES: nat := 4096
  const INDEX_BITS: nat := 12
  const THRESHOLD: nat := 15
  const UPDATE_SHIFT: nat := 14

  // ----- the two counter tables

  /** A table of miss-distance counters with its branch history. */
  datatype Estimator = Estimator(ghrSize: nat, mdc: seq<nat>, history: nat)
  {
    ghost predicate Valid() { 0 < ghrSize < 31 && |mdc| == ENTRIES && forall i :: 0 <= i < ENTRIES ==> mdc[i] <= THRESHOLD }
  }

  function FreshEstimator(ghrSize: nat): Estimator { Estimator(ghrSize, seq(ENTRIES, _ => THRESHOLD), 0) }

  function Digit(b: bool): nat { if b then 1 else 0 }

  /** The entry for a branch, its history and its prediction, with shifts of `s` bits. */
  function Entry(ip: nat, s: nat, history: nat, pred: bool): (r: nat)
    ensures r < ENTRIES
  {
    var a := Low(ip, Power(64));
    Xor(Xor(Xor(Xor(a, Above(a, Power(s))), Above(a, Power(2 * s))), history), Digit(pred)) % ENTRIES
  }

  predicate Confident(e: Estimator, ip: nat, pred: bool)
    requires 0 < e.ghrSize < 31 && |e.mdc| == ENTRIES
  {
    e.mdc[Entry(ip, e.ghrSize, e.history, pred)] >= THRESHOLD
  }

  /** The branch history after one more outcome; the lowest bit is free after the shift. */
  function Shifted(history: nat, ghrSize: nat, taken: bool): nat {
    Low(2 * history, Power(ghrSize)) + Digit(taken)
  }

  /** update_table; `reset` tells EJRS, which clears a counter on a misprediction, from UDCE, which decrements it. */
  function Updated(e: Estimator, reset: bool, ip: nat, taken: bool, lastPred: bool): Estimator
    requires 0 < e.ghrSize < 31 && |e.mdc| == ENTRIES
  {
    var i := Entry(ip, UPDATE_SHIFT, e.history, lastPred);
    var c := e.mdc[i];
    var c' := if lastPred == taken then (if c < THRESHOLD then c + 1 else c)
              else if reset then 0 else if c > 0 then c - 1 else c;
    Estimator(e.ghrSize, e.mdc[i := c'], Shifted(e.history, e.ghrSize, taken))
  }

  /** One branch: address, outcome and what had been predicted. */
  datatype Branch = Branch(ip: nat, taken: bool, lastPred: bool)

  // ----- what the entry and the history are

  predicate Odd(a: bool, b: bool, c: bool, d: bool, e: bool) { a != (b != (c != (d != e))) }

  /** Bit `b` of the entry is the parity of three bits of the address, one of the history and, for the lowest, the prediction. */
  lemma EntryBits(ip: nat, s: nat, history: nat, pred: bool, b: nat)
    requires b < INDEX_BITS
    ensures var a := Low(ip, Power(64));
            Bit(Entry(ip, s, history, pred), b)
            <==> Odd(Bit(a, b), Bit(a, b + s), Bit(a, b + 2 * s), Bit(history, b), b == 0 && pred)
  {
    var a := Low(ip, Power(64));
    var x := Xor(a, Above(a, Power(s)));
    var y := Xor(x, Above(a, Power(2 * s)));
    var z := Xor(y, history);
    BitOfXor(a, Above(a, Power(s)), b);
    BitOfAbove(a, s, b);
    BitOfXor(x, Above(a, Power(2 * s)), b);
    BitOfAbove(a, 2 * s, b);
    BitOfXor(y, history, b);
    BitOfXor(z, Digit(pred), b);
    BitOfDigit(pred, b);
    PowerOfTwelve();
    BitOfLow(Xor(z, Digit(pred)), INDEX_BITS, b);
  }

  lemma BitOfDigit(pred: bool, b: nat)
    ensures Bit(Digit(pred), b) <==> b == 0 && pred
  {
    if b > 0 { BitOfZero(b - 1); }
  }

  /** The lookup of get_confidence shifts by the history size, that of update_table by 14: they meet for all branches only at 14. */
  lemma LookupMeetsUpdate(ghrSize: nat)
    ensures (forall ip: nat, history: nat, pred: bool :: Entry(ip, ghrSize, history, pred) == Entry(ip, UPDATE_SHIFT, history, pred))
            <==> ghrSize == UPDATE_SHIFT
  {
    if ghrSize != UPDATE_SHIFT {
      var b := if ghrSize == 7 then 7 else 0;
      EntryBits(0x4000, ghrSize, 0, false, b);
      EntryBits(0x4000, UPDATE_SHIFT, 0, false, b);
      forall c: nat ensures Bit(Low(0x4000, Power(64)), c) <==> c == 14 { OneBit(c); }
      BitOfZero(b);
      assert Entry(0x4000, ghrSize, 0, false) != Entry(0x4000, UPDATE_SHIFT, 0, false);
    }
  }

  lemma OneBit(c: nat)
    ensures Bit(Low(0x4000, Power(64)), c) <==> c == 14
  {
    BitOfLow(0x4000, 64, c);
    assert Power(14) == 0x4000 by { PowerOfTwelve(); }
    BitOfPower(14, c);
  }

  lemma {:induction false} BitOfPower(n: nat, c: nat)
    ensures Bit(Power(n), c) <==> c == n
    decreases n
  {
    if n == 0 {
      if c > 0 { BitOfZero(c - 1); }
    } else if c > 0 {
      BitOfPower(n - 1, c - 1);
    }
  }

  /** The history after the outcomes of `bs`. */
  function HistoryOf(ghrSize: nat, bs: seq<Branch>): nat {
    if |bs| == 0 then 0 else Shifted(HistoryOf(ghrSize, bs[..|bs| - 1]), ghrSize, bs[|bs| - 1].taken)
  }

  /** Its bits are the most recent outcomes, the last one lowest. */
  lemma {:induction false} HistoryBits(ghrSize: nat, bs: seq<Branch>, a: nat)
    requires ghrSize > 0
    ensures Bit(HistoryOf(ghrSize, bs), a) <==> a < ghrSize && a < |bs| && bs[|bs| - 1 - a].taken
    decreases |bs|
  {
    if |bs| == 0 {
      BitOfZero(a);
    } else {
      ShiftedBits(HistoryOf(ghrSize, bs[..|bs| - 1]), ghrSize, bs[|bs| - 1].taken, a);
      if a > 0 { HistoryBits(ghrSize, bs[..|bs| - 1], a - 1); }
    }
  }

  lemma ShiftedBits(history: nat, ghrSize: nat, taken: bool, a: nat)
    requires ghrSize > 0
    ensures Bit(Shifted(history, ghrSize, taken), a) <==> if a == 0 then taken else a < ghrSize && Bit(history, a - 1)
  {
    LowHalves(2 * history, Power(ghrSize - 1));
    assert Shifted(history, ghrSize, taken) / 2 == Low(history, Power(ghrSize - 1));
    if a > 0 { BitOfLow(history, ghrSize - 1, a - 1); }
  }

  // ----- what the counters are

  /** The updates among `bs` that hit entry `k`, in order: whether the prediction was right. */
  function HitsOf(ghrSize: nat, bs: seq<Branch>, k: nat): seq<bool> {
    if |bs| == 0 then []
    else
      var b := bs[|bs| - 1];
      HitsOf(ghrSize, bs[..|bs| - 1], k)
      + if Entry(b.ip, UPDATE_SHIFT, HistoryOf(ghrSize, bs[..|bs| - 1]), b.lastPred) == k then [b.lastPred == b.taken] else []
  }

  /** How many hits there have been since the last misprediction. */
  function SinceWrong(hits: seq<bool>): (r: nat)
    ensures r <= |hits|
  {
    if |hits| == 0 || !hits[|hits| - 1] then 0 else 1 + SinceWrong(hits[..|hits| - 1])
  }

  lemma {:induction false} SinceWrongMeaning(hits: seq<bool>)
    ensures var r := SinceWrong(hits);
            (forall i :: |hits| - r <= i < |hits| ==> hits[i]) && (r < |hits| ==> !hits[|hits| - r - 1])
  {
    if |hits| > 0 && hits[|hits| - 1] { SinceWrongMeaning(hits[..|hits| - 1]); }
  }

  /** The counter of EJRS for the hits of its entry: 15 if none was wrong, otherwise their number since the last wrong one, at most 15. */
  function MissDistance(hits: seq<bool>): nat {
    var r := SinceWrong(hits);
    if r == |hits| || r >= THRESHOLD then THRESHOLD else r
  }

  /** The counter of UDCE: one step up or down for each hit, between 0 and 15. */
  function Balance(hits: seq<bool>): nat {
    if |hits| == 0 then THRESHOLD
    else
      var c := Balance(hits[..|hits| - 1]);
      if hits[|hits| - 1] then (if c == THRESHOLD then c else c + 1) else if c == 0 then c else c - 1
  }

  lemma NoHits()
    ensures MissDistance([]) == Balance([]) == THRESHOLD
  {
  }

  lemma OneMoreHit(hits: seq<bool>, right: bool)
    ensures MissDistance(hits + [right])
         == if !right then 0 else if MissDistance(hits) < THRESHOLD then MissDistance(hits) + 1 else THRESHOLD
    ensures MissDistance(hits) <= THRESHOLD && Balance(hits) <= THRESHOLD
    ensures Balance(hits + [right])
         == if right then (if Balance(hits) < THRESHOLD then Balance(hits) + 1 else THRESHOLD)
            else if Balance(hits) > 0 then Balance(hits) - 1 else 0
  {
    assert (hits + [right])[..|hits + [right]| - 1] == hits;
    BalanceFits(hits);
  }

  lemma {:induction false} BalanceFits(hits: seq<bool>)
    ensures Balance(hits) <= THRESHOLD
  {
    if |hits| > 0 { BalanceFits(hits[..|hits| - 1]); }
  }

  /** Every counter after any run follows from the hits of its entry alone. */
  lemma {:induction false} CountersFollowHits(ghrSize: nat, bs: seq<Branch>, k: nat)
    requires 0 < ghrSize < 31 && k < ENTRIES
    ensures Trained(FreshEstimator(ghrSize), true, bs).mdc[k] == MissDistance(HitsOf(ghrSize, bs, k))
    ensures Trained(FreshEstimator(ghrSize), false, bs).mdc[k] == Balance(HitsOf(ghrSize, bs, k))
    ensures Trained(FreshEstimator(ghrSize), true, bs).history == Trained(FreshEstimator(ghrSize), false, bs).history == HistoryOf(ghrSize, bs)
    decreases |bs|
  {
    hide Entry, Shifted, MissDistance, Balance;
    if |bs| == 0 {
      NoHits();
    } else {
      var bs', b := bs[..|bs| - 1], bs[|bs| - 1];
      CountersFollowHits(ghrSize, bs', k);
      var hits := HitsOf(ghrSize, bs', k);
      OneMoreHit(hits, b.lastPred == b.taken);
      assert hits + [] == hits;
    }
  }

  /**
   EJRS is confident in a branch exactly if none of the last 15 updates that hit its entry was a
   misprediction, UDCE exactly if the right ones have made up for the wrong ones.
   */
  lemma ConfidentMeansNoneWrong(ghrSize: nat, bs: seq<Branch>, ip: nat, pred: bool)
    requires 0 < ghrSize < 31
    ensures var hits := HitsOf(ghrSize, bs, Entry(ip, ghrSize, HistoryOf(ghrSize, bs), pred));
            && (Confident(Trained(FreshEstimator(ghrSize), true, bs), ip, pred) <==> forall i :: 0 <= i < |hits| && |hits| - 15 <= i ==> hits[i])
            && (Confident(Trained(FreshEstimator(ghrSize), false, bs), ip, pred) <==> Balance(hits) == 15)
  {
    hide HitsOf, Trained, SinceWrong, Balance, Entry, HistoryOf;
    var k := Entry(ip, ghrSize, HistoryOf(ghrSize, bs), pred);
    CountersFollowHits(ghrSize, bs, k);
    SinceWrongMeaning(HitsOf(ghrSize, bs, k));
    BalanceFits(HitsOf(ghrSize, bs, k));
  }

  /** UDCE and EJRS have seen the same history, and no counter of UDCE is behind. */
  ghost predicate Dominates(u: Estimator, e: Estimator) {
    && u.Valid() && e.Valid() && u.ghrSize == e.ghrSize && u.history == e.history
    && forall i :: 0 <= i < ENTRIES ==> e.mdc[i] <= u.mdc[i]
  }

  function Trained(e: Estimator, reset: bool, bs: seq<Branch>): (r: Estimator)
    requires 0 < e.ghrSize < 31 && |e.mdc| == ENTRIES
    ensures r.ghrSize == e.ghrSize && |r.mdc| == ENTRIES
    decreases |bs|
  {
    if |bs| == 0 then e
    else
      var b := bs[|bs| - 1];
      Updated(Trained(e, reset, bs[..|bs| - 1]), reset, b.ip, b.taken, b.lastPred)
  }

  lemma UpdateKeepsDominance(u: Estimator, e: Estimator, b: Branch)
    requires Dominates(u, e)
    ensures Dominates(Updated(u, false, b.ip, b.taken, b.lastPred), Updated(e, true, b.ip, b.taken, b.lastPred))
  {
  }

  /** From fresh estimators, under any sequence of updates, no counter of UDCE is below that of EJRS. */
  lemma {:induction false} UdceDominates(ghrSize: nat, bs: seq<Branch>)
    requires 0 < ghrSize < 31
    ensures Dominates(Trained(FreshEstimator(ghrSize), false, bs), Trained(FreshEstimator(ghrSize), true, bs))
    decreases |bs|
  {
    hide Shifted, Entry;
    if |bs| > 0 {
      UdceDominates(ghrSize, bs[..|bs| - 1]);
      UpdateKeepsDominance(Trained(FreshEstimator(ghrSize), false, bs[..|bs| - 1]), Trained(FreshEstimator(ghrSize), true, bs[..|bs| - 1]), bs[|bs| - 1]);
    }
  }

  lemma TrainedOneMore(ghrSize: nat, reset: bool, bs: seq<Branch>, b: Branch)
    requires 0 < ghrSize < 31
    ensures Trained(FreshEstimator(ghrSize), reset, bs + [b])
         == Updated(Trained(FreshEstimator(ghrSize), reset, bs), reset, b.ip, b.taken, b.lastPred)
  {
    assert (bs + [b])[..|bs + [b]| - 1] == bs;
  }

  function Vote(b: bool): nat { if b then 1 else 0 }

  /** The composite of EJRS and UDCE, which asks for two votes, answers as EJRS alone. */
  lemma TwoEstimatorsAreEjrs(ghrSize: nat, bs: seq<Branch>, ip: nat, pred: bool)
    requires 0 < ghrSize < 31
    ensures var e, u := Trained(FreshEstimator(ghrSize), true, bs), Trained(FreshEstimator(ghrSize), false, bs);
            Vote(Confident(e, ip, pred)) + Vote(Confident(u, ip, pred)) >= 2 <==> Confident(e, ip, pred)
  {
    UdceDominates(ghrSize, bs);
    hide Trained, Entry, FreshEstimator;
  }

  /** With BPRU's vote and three votes asked for, it answers as EJRS and BPRU without UDCE. */
  lemma ThreeEstimatorsIgnoreUdce(ghrSize: nat, bs: seq<Branch>, ip: nat, pred: bool, keeps: bool)
    requires 0 < ghrSize < 31
    ensures var e, u := Trained(FreshEstimator(ghrSize), true, bs), Trained(FreshEstimator(ghrSize), false, bs);
            Vote(keeps) + Vote(Confident(e, ip, pred)) + Vote(Confident(u, ip, pred)) >= 3 <==> Confident(e, ip, pred) && keeps
  {
    UdceDominates(ghrSize, bs);
    hide Trained, Entry, FreshEstimator;
  }
}
