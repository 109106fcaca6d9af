/** PF_check of the KPCP prefetcher: candidates for the current signature, then lookahead along the most likely path. */
module KpcpLookahead {
  import opened Common
  import opened KpcpPatterns

  const PF_THRESHOLD: nat := 25
  const BUFFER: nat := 32

  /** PF_buffer: a prefetch candidate. */
  datatype Candidate = Candidate(delta: int, signature: bv16, depth: nat, conf: nat)

  const NO_CANDIDATE := Candidate(0, 0, 0, 0)

  /** Where the lookahead is: the signature, the confidence and the delta of the path, the delta before it, and the buffer. */
  datatype Path = Path(signature: bv16, conf: nat, delta: int, last: int, out: seq<Candidate>)

  ghost predicate TablesOk(ts: seq<seq<Pattern>>) {
    |ts| == SETS && forall r :: 0 <= r < SETS ==> SetOk(ts[r])
  }

  function SetOf(signature: bv16): (r: nat)
    ensures r < SETS
  {
    signature as nat % PRIME
  }

  predicate SamePage(block: int, delta: int) { 0 <= block + delta <= 63 }

  // ----- the current signature

  /** The confidence of way `i`, in percent. */
  function Confidence(t: seq<Pattern>, i: nat): nat
    requires i < |t| && t[0].cSig > 0
  {
    100 * t[i].cDelta / t[0].cSig
  }

  /** The candidates among the first `n` ways. */
  function Candidates(t: seq<Pattern>, signature: bv16, block: int, n: nat): (r: seq<Candidate>)
    requires n <= |t| && (n > 0 ==> t[0].cSig > 0)
    ensures |r| <= n
  {
    if n == 0 then []
    else
      Candidates(t, signature, block, n - 1)
      + if Confidence(t, n - 1) >= PF_THRESHOLD && SamePage(block, t[n - 1].delta)
        then [Candidate(t[n - 1].delta, signature, 1, Confidence(t, n - 1))] else []
  }

  /** The way with the highest counter among the first `n` ways that are likely enough. */
  function Likeliest(t: seq<Pattern>, n: nat): (r: Option<nat>)
    requires n <= |t| && (n > 0 ==> t[0].cSig > 0)
    ensures r.Some? ==> r.value < n && t[r.value].cDelta > 0 && Confidence(t, r.value) >= PF_THRESHOLD
  {
    if n == 0 then None
    else
      var b := Likeliest(t, n - 1);
      if Confidence(t, n - 1) >= PF_THRESHOLD && (if b.Some? then t[b.value].cDelta else 0) < t[n - 1].cDelta then Some(n - 1) else b
  }

  /** The way with the highest counter among those that are likely enough, the first one; none if no way is. */
  lemma {:induction false} LikeliestMeaning(t: seq<Pattern>, n: nat)
    requires n <= |t| && (n > 0 ==> t[0].cSig > 0)
    ensures var r := Likeliest(t, n);
            && (r.None? <==> forall k: nat :: k < n ==> Confidence(t, k) < PF_THRESHOLD)
            && (r.Some? ==> forall k: nat :: k < n && Confidence(t, k) >= PF_THRESHOLD ==>
                              if k < r.value then t[k].cDelta < t[r.value].cDelta else t[k].cDelta <= t[r.value].cDelta)
  {
    if n > 0 {
      LikeliestMeaning(t, n - 1);
      if Confidence(t, n - 1) >= PF_THRESHOLD { LikelyCounts(100, t[n - 1].cDelta, t[0].cSig); }
    }
  }

  lemma LikelyCounts(x: nat, c: nat, s: nat)
    requires s > 0 && x * c / s > 0
    ensures c > 0
  {
  }

  function First(ts: seq<seq<Pattern>>, signature: bv16, block: int): Path
    requires TablesOk(ts)
  {
    var t := ts[SetOf(signature)];
    if t[0].cSig == 0 then Path(signature, 0, 0, 0, [])
    else
      var out := Candidates(t, signature, block, WAYS);
      match Likeliest(t, WAYS)
      case None => Path(signature, 0, 0, 0, out)
      case Some(i) => Path(signature, Confidence(t, i), t[i].delta, 0, out)
  }

  // ----- lookahead

  /** The confidence of the path if it goes on with way `i`. */
  function PathConfidence(conf: nat, t: seq<Pattern>, i: nat, maxConf: nat): nat
    requires i < |t| && t[0].cSig > 0
  {
    conf * t[i].cDelta / t[0].cSig * maxConf / 100
  }

  function NextWay(conf: nat, t: seq<Pattern>, maxConf: nat, n: nat): (r: Option<nat>)
    requires n <= |t| && (n > 0 ==> t[0].cSig > 0)
    ensures r.Some? ==> r.value < n && t[r.value].cDelta > 0 && PathConfidence(conf, t, r.value, maxConf) >= PF_THRESHOLD
  {
    if n == 0 then None
    else
      var b := NextWay(conf, t, maxConf, n - 1);
      if PathConfidence(conf, t, n - 1, maxConf) >= PF_THRESHOLD && (if b.Some? then t[b.value].cDelta else 0) < t[n - 1].cDelta
      then Some(n - 1) else b
  }

  /** Of the ways along which the path stays likely enough, the one with the highest counter, the first one. */
  lemma {:induction false} NextWayMeaning(conf: nat, t: seq<Pattern>, maxConf: nat, n: nat)
    requires n <= |t| && (n > 0 ==> t[0].cSig > 0)
    ensures var r := NextWay(conf, t, maxConf, n);
            && (r.None? <==> forall k: nat :: k < n ==> PathConfidence(conf, t, k, maxConf) < PF_THRESHOLD)
            && (r.Some? ==> forall k: nat :: k < n && PathConfidence(conf, t, k, maxConf) >= PF_THRESHOLD ==>
                              if k < r.value then t[k].cDelta < t[r.value].cDelta else t[k].cDelta <= t[r.value].cDelta)
  {
    if n > 0 {
      NextWayMeaning(conf, t, maxConf, n - 1);
      PathCounts(conf, t, n - 1, maxConf);
    }
  }

  lemma PathCounts(conf: nat, t: seq<Pattern>, i: nat, maxConf: nat)
    requires i < |t| && t[0].cSig > 0
    ensures t[i].cDelta == 0 ==> PathConfidence(conf, t, i, maxConf) == 0
  {
    assert t[i].cDelta == 0 ==> conf * t[i].cDelta == 0;
  }

  /** The delta that led to the current signature is one of the table. */
  predicate PathOk(p: Path) { -64 < p.delta - p.last < 64 }

  /** One round of the lookahead loop. */
  function Advance(ts: seq<seq<Pattern>>, p: Path, block: int, maxConf: nat): Path
    requires TablesOk(ts) && PathOk(p)
  {
    var signature := NewSignature(p.signature, p.delta - p.last);
    var t := ts[SetOf(signature)];
    var stop := Path(signature, 0, 0, p.delta, p.out);
    if t[0].cSig == 0 then stop
    else
      match NextWay(p.conf, t, maxConf, WAYS)
      case None => stop
      case Some(i) =>
        if |p.out| >= BUFFER then stop
        else
          var conf, delta := PathConfidence(p.conf, t, i, maxConf), p.delta + t[i].delta;
          var found := if SamePage(block, delta) && delta != 0 then [Candidate(delta, signature, |p.out| + 1, conf)] else [];
          Path(signature, conf, delta, p.delta, p.out + found)
  }

  lemma DivideBack(x: nat, a: nat, s: nat)
    requires s > 0 && x <= a * s
    ensures x / s <= a
  {
    var q := x / s;
    assert q * s <= x;
    if q > a { MulMonotonic(s, a + 1, q); }
  }

  /** The path confidence falls strictly while the cap is below 100. */
  lemma PathConfidenceFalls(conf: nat, t: seq<Pattern>, i: nat, maxConf: nat)
    requires i < |t| && t[0].cSig > 0 && t[i].cDelta <= t[0].cSig && maxConf <= 99 && conf > 0
    ensures PathConfidence(conf, t, i, maxConf) < conf
  {
    MulMonotonic(conf, t[i].cDelta, t[0].cSig);
    DivideBack(conf * t[i].cDelta, conf, t[0].cSig);
    var x := conf * t[i].cDelta / t[0].cSig;
    MulMonotonic(x, maxConf, 99);
  }

  lemma AdvanceFalls(ts: seq<seq<Pattern>>, p: Path, block: int, maxConf: nat)
    requires TablesOk(ts) && PathOk(p) && maxConf <= 99 && p.conf > 0
    ensures Advance(ts, p, block, maxConf).conf < p.conf
    ensures Advance(ts, p, block, maxConf).conf > 0 ==> PathOk(Advance(ts, p, block, maxConf))
  {
    var t := ts[SetOf(NewSignature(p.signature, p.delta - p.last))];
    assert SetOk(t);
    forall i: nat | i < WAYS && t[0].cSig > 0 ensures PathConfidence(p.conf, t, i, maxConf) < p.conf {
      PartOfSum(t, i, WAYS);
      PathConfidenceFalls(p.conf, t, i, maxConf);
    }
  }

  /** A table in which one delta always follows. */
  const CERTAIN: seq<Pattern> := [Pattern(1, 1, 1), NO_PATTERN, NO_PATTERN, NO_PATTERN]

  ghost predicate AlwaysFalls(maxConf: nat) {
    forall ts: seq<seq<Pattern>>, p: Path, block: int ::
      TablesOk(ts) && PathOk(p) && p.conf > 0 ==> Advance(ts, p, block, maxConf).conf < p.conf
  }

  /** The lookahead rests on the cap: the path confidence always falls exactly if MAX_CONF is below 100. */
  lemma CapIsNeeded(maxConf: nat)
    ensures AlwaysFalls(maxConf) <==> maxConf <= 99
  {
    if maxConf <= 99 {
      forall ts: seq<seq<Pattern>>, p: Path, block: int | TablesOk(ts) && PathOk(p) && p.conf > 0
        ensures Advance(ts, p, block, maxConf).conf < p.conf
      {
        AdvanceFalls(ts, p, block, maxConf);
      }
    } else {
      CertainNeverFalls(maxConf);
    }
  }

  lemma CertainNeverFalls(maxConf: nat)
    requires maxConf >= 100
    ensures !AlwaysFalls(maxConf)
  {
    CertainTables();
    var ts := seq(SETS, _ => CERTAIN);
    var p := Path(1, 100, 1, 0, []);
    CertainWay(100, maxConf);
    assert Advance(ts, p, 0, maxConf).conf >= p.conf;
  }

  // ----- whether the loop ends

  lemma AdvanceIsOk(ts: seq<seq<Pattern>>, p: Path, block: int, maxConf: nat)
    requires TablesOk(ts) && PathOk(p)
    ensures Advance(ts, p, block, maxConf).conf > 0 ==> PathOk(Advance(ts, p, block, maxConf))
  {
    assert SetOk(ts[SetOf(NewSignature(p.signature, p.delta - p.last))]);
  }

  /** The path after `n` rounds of the loop, or where it ended before. */
  function Rounds(ts: seq<seq<Pattern>>, p: Path, block: int, maxConf: nat, n: nat): (r: Path)
    requires TablesOk(ts) && PathOk(p)
    ensures r.conf > 0 ==> PathOk(r)
  {
    if n == 0 then p
    else
      var q := Rounds(ts, p, block, maxConf, n - 1);
      if q.conf < PF_THRESHOLD then q
      else
        AdvanceIsOk(ts, q, block, maxConf);
        Advance(ts, q, block, maxConf)
  }

  /** The loop ends after some number of rounds. */
  ghost predicate Ends(ts: seq<seq<Pattern>>, p: Path, block: int, maxConf: nat)
    requires TablesOk(ts) && PathOk(p)
  {
    exists n: nat :: Rounds(ts, p, block, maxConf, n).conf < PF_THRESHOLD
  }

  /** Whatever the tables have learnt, the lookahead for any signature and block of a page ends. */
  ghost predicate AlwaysEnds(maxConf: nat) {
    forall ts: seq<seq<Pattern>>, signature: bv16, block: int ::
      TablesOk(ts) && Fits(signature) && 0 <= block < 64 ==>
        PathOk(First(ts, signature, block)) && Ends(ts, First(ts, signature, block), block, maxConf)
  }

  lemma {:induction false} RoundsFall(ts: seq<seq<Pattern>>, p: Path, block: int, maxConf: nat, n: nat)
    requires TablesOk(ts) && PathOk(p) && maxConf <= 99
    ensures var r := Rounds(ts, p, block, maxConf, n); r.conf < PF_THRESHOLD || r.conf + n <= p.conf
  {
    hide Advance;
    if n > 0 {
      RoundsFall(ts, p, block, maxConf, n - 1);
      var q := Rounds(ts, p, block, maxConf, n - 1);
      if q.conf >= PF_THRESHOLD { AdvanceFalls(ts, q, block, maxConf); }
    }
  }

  lemma CertainTables()
    ensures TablesOk(seq(SETS, _ => CERTAIN))
  {
    assert SetOk(CERTAIN) by {
      assert CERTAIN[0].cDelta == 1;
      assert Sum(CERTAIN, 1) == 1;
      assert Sum(CERTAIN, 2) == 1;
      assert Sum(CERTAIN, 3) == 1;
    }
  }

  /** A path out of the page along a delta that is certain. */
  ghost predicate Leaving(p: Path) { p.conf >= 100 && p.out == [] && p.delta == p.last + 1 && p.delta >= 1 }

  lemma CertainWay(conf: nat, maxConf: nat)
    requires conf >= 100 && maxConf >= 100
    ensures NextWay(conf, CERTAIN, maxConf, WAYS) == Some(0) && PathConfidence(conf, CERTAIN, 0, maxConf) >= conf
  {
    MulMonotonic(conf, 100, maxConf);
    assert PathConfidence(conf, CERTAIN, 0, maxConf) == conf * maxConf / 100 >= conf;
    assert PathConfidence(conf, CERTAIN, 1, maxConf) == PathConfidence(conf, CERTAIN, 2, maxConf) == PathConfidence(conf, CERTAIN, 3, maxConf) == 0;
    var always := Some(0 as nat);
    assert NextWay(conf, CERTAIN, maxConf, 1) == always;
    assert NextWay(conf, CERTAIN, maxConf, 2) == always;
    assert NextWay(conf, CERTAIN, maxConf, 3) == always;
  }

  lemma {:induction false} LeavesForEver(p: Path, maxConf: nat, n: nat)
    requires maxConf >= 100 && Leaving(p)
    ensures TablesOk(seq(SETS, _ => CERTAIN)) && Leaving(Rounds(seq(SETS, _ => CERTAIN), p, 63, maxConf, n))
  {
    CertainTables();
    if n > 0 {
      LeavesForEver(p, maxConf, n - 1);
      CertainWay(Rounds(seq(SETS, _ => CERTAIN), p, 63, maxConf, n - 1).conf, maxConf);
    }
  }

  lemma CertainFirst()
    ensures TablesOk(seq(SETS, _ => CERTAIN)) && First(seq(SETS, _ => CERTAIN), 1, 63) == Path(1, 100, 1, 0, [])
  {
    CertainTables();
    var always := Some(0 as nat);
    assert Confidence(CERTAIN, 0) == 100 && Confidence(CERTAIN, 1) == Confidence(CERTAIN, 2) == Confidence(CERTAIN, 3) == 0;
    assert Candidates(CERTAIN, 1, 63, 1) == [];
    assert Candidates(CERTAIN, 1, 63, 2) == [];
    assert Candidates(CERTAIN, 1, 63, 3) == [];
    assert Likeliest(CERTAIN, 1) == always;
    assert Likeliest(CERTAIN, 2) == always;
    assert Likeliest(CERTAIN, 3) == always;
  }

  /**
   The lookahead always ends exactly if MAX_CONF is below 100.  At 100, in tables where one delta
   is certain, the path leaves the page for ever: nothing more is buffered, so a full buffer does not end it either.
   */
  lemma EndsExactly(maxConf: nat)
    ensures AlwaysEnds(maxConf) <==> maxConf <= 99
  {
    if maxConf <= 99 {
      forall ts: seq<seq<Pattern>>, signature: bv16, block: int | TablesOk(ts)
        ensures PathOk(First(ts, signature, block)) && Ends(ts, First(ts, signature, block), block, maxConf)
      {
        FirstIsOk(ts, signature, block);
        RoundsFall(ts, First(ts, signature, block), block, maxConf, 101);
      }
    } else {
      CertainFirst();
      var ts, p := seq(SETS, _ => CERTAIN), Path(1, 100, 1, 0, []);
      forall n: nat ensures Rounds(ts, p, 63, maxConf, n).conf >= PF_THRESHOLD { LeavesForEver(p, maxConf, n); }
      assert !Ends(ts, p, 63, maxConf);
    }
  }

  /** The lookahead loop. */
  function Lookahead(ts: seq<seq<Pattern>>, p: Path, block: int, maxConf: nat): Path
    requires TablesOk(ts) && PathOk(p) && maxConf <= 99 && p.conf > 0
    decreases p.conf
  {
    AdvanceFalls(ts, p, block, maxConf);
    var q := Advance(ts, p, block, maxConf);
    if q.conf >= PF_THRESHOLD then Lookahead(ts, q, block, maxConf) else q
  }

  /** PF_check: what is in the buffer at the end. */
  function Check(ts: seq<seq<Pattern>>, signature: bv16, block: int, maxConf: nat): seq<Candidate>
    requires TablesOk(ts) && maxConf <= 99
  {
    var p := First(ts, signature, block);
    FirstIsOk(ts, signature, block);
    if p.conf >= PF_THRESHOLD then Lookahead(ts, p, block, maxConf).out else p.out
  }

  lemma FirstIsOk(ts: seq<seq<Pattern>>, signature: bv16, block: int)
    requires TablesOk(ts)
    ensures PathOk(First(ts, signature, block)) && First(ts, signature, block).conf <= 100
    ensures |First(ts, signature, block).out| <= WAYS
  {
    var t := ts[SetOf(signature)];
    assert SetOk(t);
    forall i: nat | i < WAYS && t[0].cSig > 0 ensures Confidence(t, i) <= 100 { ConfidenceBound(t, i); }
  }

  lemma ConfidenceBound(t: seq<Pattern>, i: nat)
    requires SetOk(t) && i < WAYS && t[0].cSig > 0
    ensures Confidence(t, i) <= 100
    ensures Confidence(t, i) > 0 ==> t[i].delta != 0
  {
    PartOfSum(t, i, WAYS);
    DivideBack(100 * t[i].cDelta, 100, t[0].cSig);
  }

  // ----- what ends up in the buffer

  /** A candidate that may be prefetched: not the block itself, in the same page, and likely enough. */
  ghost predicate GoodCandidate(x: Candidate, block: int) {
    x.delta != 0 && SamePage(block, x.delta) && PF_THRESHOLD <= x.conf <= 100
  }

  ghost predicate GoodBuffer(out: seq<Candidate>, block: int) {
    |out| <= BUFFER && forall i :: 0 <= i < |out| ==> GoodCandidate(out[i], block)
  }

  lemma {:induction false} CandidatesAreGood(t: seq<Pattern>, signature: bv16, block: int, n: nat)
    requires SetOk(t) && n <= WAYS && t[0].cSig > 0
    ensures GoodBuffer(Candidates(t, signature, block, n), block)
  {
    if n > 0 {
      CandidatesAreGood(t, signature, block, n - 1);
      ConfidenceBound(t, n - 1);
    }
  }

  lemma {:induction false} LookaheadIsGood(ts: seq<seq<Pattern>>, p: Path, block: int, maxConf: nat)
    requires TablesOk(ts) && PathOk(p) && maxConf <= 99 && 0 < p.conf <= 100 && GoodBuffer(p.out, block)
    ensures GoodBuffer(Lookahead(ts, p, block, maxConf).out, block)
    decreases p.conf
  {
    AdvanceFalls(ts, p, block, maxConf);
    var q := Advance(ts, p, block, maxConf);
    AdvanceIsGood(ts, p, block, maxConf);
    if q.conf >= PF_THRESHOLD { LookaheadIsGood(ts, q, block, maxConf); }
  }

  lemma AdvanceIsGood(ts: seq<seq<Pattern>>, p: Path, block: int, maxConf: nat)
    requires TablesOk(ts) && PathOk(p) && maxConf <= 99 && 0 < p.conf <= 100 && GoodBuffer(p.out, block)
    ensures GoodBuffer(Advance(ts, p, block, maxConf).out, block)
  {
    AdvanceFalls(ts, p, block, maxConf);
    hide TablesOk, PathConfidence, NewSignature;
  }

  /** Whatever the tables have learnt, every buffered candidate may be prefetched, and the buffer is never overrun. */
  lemma CheckIsGood(ts: seq<seq<Pattern>>, signature: bv16, block: int, maxConf: nat)
    requires TablesOk(ts) && maxConf <= 99
    ensures GoodBuffer(Check(ts, signature, block, maxConf), block)
  {
    var t := ts[SetOf(signature)];
    assert SetOk(t);
    FirstIsOk(ts, signature, block);
    if t[0].cSig > 0 { CandidatesAreGood(t, signature, block, WAYS); }
    var p := First(ts, signature, block);
    if p.conf >= PF_THRESHOLD { LookaheadIsGood(ts, p, block, maxConf); }
  }

  /** The first `n` ways that are likely enough and stay in the page give one candidate each, in their order, and no other does. */
  lemma {:induction false} CandidatesAreExact(t: seq<Pattern>, signature: bv16, block: int, n: nat) returns (ways: seq<nat>)
    requires n <= |t| && (n > 0 ==> t[0].cSig > 0)
    ensures |ways| == |Candidates(t, signature, block, n)| && forall a, b :: 0 <= a < b < |ways| ==> ways[a] < ways[b]
    ensures forall i: nat :: i in ways <==> i < n && 100 * t[i].cDelta / t[0].cSig >= 25 && 0 <= block + t[i].delta <= 63
    ensures forall a :: 0 <= a < |ways| ==>
              && ways[a] < n
              && Candidates(t, signature, block, n)[a] == Candidate(t[ways[a]].delta, signature, 1, 100 * t[ways[a]].cDelta / t[0].cSig)
  {
    ways := [];
    if n > 0 {
      ways := CandidatesAreExact(t, signature, block, n - 1);
      if Confidence(t, n - 1) >= PF_THRESHOLD && SamePage(block, t[n - 1].delta) { ways := ways + [n - 1]; }
    }
  }

  /** Way `i` is the first with the highest counter among those along which the path stays likely enough. */
  ghost predicate Best(conf: nat, t: seq<Pattern>, maxConf: nat, i: nat)
    requires |t| == WAYS
  {
    && i < WAYS && t[0].cSig > 0 && conf * t[i].cDelta / t[0].cSig * maxConf / 100 >= 25
    && forall k: nat | k < |t| && conf * t[k].cDelta / t[0].cSig * maxConf / 100 >= 25 ::
                          if k < i then t[k].cDelta < t[i].cDelta else t[k].cDelta <= t[i].cDelta
  }

  ghost predicate NoneBest(conf: nat, t: seq<Pattern>, maxConf: nat)
    requires |t| == WAYS
  {
    forall i: nat :: !Best(conf, t, maxConf, i)
  }

  /** From `p` the path goes on along a best way to `q`, and the block it comes to is buffered if it is another one of the page. */
  ghost predicate GoesOn(ts: seq<seq<Pattern>>, p: Path, q: Path, block: int, maxConf: nat)
    requires TablesOk(ts) && PathOk(p)
  {
    && q.signature == NewSignature(p.signature, p.delta - p.last) && q.last == p.delta && |p.out| < 32
    && var t := ts[SetOf(q.signature)];
    && exists i: nat :: && Best(p.conf, t, maxConf, i)
                        && q.delta == p.delta + t[i].delta && q.conf == p.conf * t[i].cDelta / t[0].cSig * maxConf / 100
                        && q.out == if q.delta != 0 && 0 <= block + q.delta <= 63
                                    then p.out + [Candidate(q.delta, q.signature, |p.out| + 1, q.conf)] else p.out
  }

  /** From `p` the path cannot go on: no way is likely enough, or the buffer is full. */
  ghost predicate GoesNowhere(ts: seq<seq<Pattern>>, p: Path, maxConf: nat)
    requires TablesOk(ts) && PathOk(p)
  {
    |p.out| >= 32 || NoneBest(p.conf, ts[SetOf(NewSignature(p.signature, p.delta - p.last))], maxConf)
  }

  lemma NextIsBest(conf: nat, t: seq<Pattern>, maxConf: nat)
    requires |t| == WAYS && t[0].cSig > 0
    ensures var r := NextWay(conf, t, maxConf, WAYS);
            if r.Some? then Best(conf, t, maxConf, r.value) else NoneBest(conf, t, maxConf)
  {
    hide NextWay;
    NextWayMeaning(conf, t, maxConf, WAYS);
    assert forall k: nat :: k < WAYS ==> PathConfidence(conf, t, k, maxConf) == conf * t[k].cDelta / t[0].cSig * maxConf / 100;
  }

  lemma AdvanceGoesOn(ts: seq<seq<Pattern>>, p: Path, block: int, maxConf: nat)
    requires TablesOk(ts) && PathOk(p)
    ensures var q := Advance(ts, p, block, maxConf);
            if q.conf >= 25 then GoesOn(ts, p, q, block, maxConf) else q.out == p.out && GoesNowhere(ts, p, maxConf)
  {
    hide NewSignature, NextWay, Best;
    var t := ts[SetOf(NewSignature(p.signature, p.delta - p.last))];
    assert SetOk(t);
    if t[0].cSig > 0 { NextIsBest(p.conf, t, maxConf); } else { NoBest(p.conf, t, maxConf); }
  }

  lemma NoBest(conf: nat, t: seq<Pattern>, maxConf: nat)
    requires |t| == WAYS && t[0].cSig == 0
    ensures NoneBest(conf, t, maxConf)
  {
  }

  /** A path of the lookahead from `ps[0]` on, to a point from which it cannot go on. */
  ghost predicate Walk(ts: seq<seq<Pattern>>, ps: seq<Path>, block: int, maxConf: nat)
    requires TablesOk(ts)
  {
    && |ps| > 0 && (forall k :: 0 <= k < |ps| ==> PathOk(ps[k]))
    && (forall k :: 0 <= k < |ps| - 1 ==> GoesOn(ts, ps[k], ps[k + 1], block, maxConf))
    && GoesNowhere(ts, ps[|ps| - 1], maxConf)
  }

  /**
   The buffer of the lookahead is what one walk leaves in it: at each step along the first best way
   of the set of the next signature, the deltas add up, and the walk ends only where it must.
   */
  lemma {:induction false} LookaheadWalks(ts: seq<seq<Pattern>>, p: Path, block: int, maxConf: nat) returns (ps: seq<Path>)
    requires TablesOk(ts) && PathOk(p) && maxConf <= 99 && p.conf > 0
    ensures Walk(ts, ps, block, maxConf) && ps[0] == p && Lookahead(ts, p, block, maxConf).out == ps[|ps| - 1].out
    decreases p.conf
  {
    hide Advance, GoesOn, GoesNowhere, TablesOk;
    AdvanceFalls(ts, p, block, maxConf);
    AdvanceGoesOn(ts, p, block, maxConf);
    var q := Advance(ts, p, block, maxConf);
    ps := [p];
    if q.conf >= PF_THRESHOLD {
      var rest := LookaheadWalks(ts, q, block, maxConf);
      ps := ps + rest;
      forall k | 0 <= k < |ps| - 1 ensures GoesOn(ts, ps[k], ps[k + 1], block, maxConf) {
        if k > 0 { assert ps[k] == rest[k - 1] && ps[k + 1] == rest[k]; }
      }
    }
  }

  /** Way `w` is the first with the highest counter among those that are likely enough by themselves. */
  ghost predicate BestFirst(t: seq<Pattern>, w: nat) {
    && w < |t| && t[0].cSig > 0 && 100 * t[w].cDelta / t[0].cSig >= 25
    && forall k: nat | k < |t| && 100 * t[k].cDelta / t[0].cSig >= 25 ::
         if k < w then t[k].cDelta < t[w].cDelta else t[k].cDelta <= t[w].cDelta
  }

  lemma NoCandidates(t: seq<Pattern>, signature: bv16, block: int, n: nat)
    requires n <= |t| && (n > 0 ==> t[0].cSig > 0) && forall k: nat :: k < n ==> Confidence(t, k) < PF_THRESHOLD
    ensures Candidates(t, signature, block, n) == []
  {
  }

  /**
   PF_check buffers nothing if no way of the current signature is likely enough.  Otherwise it buffers the
   candidates of the current signature and what a walk along the best ways leaves, from the best of them on.
   */
  lemma CheckWalks(ts: seq<seq<Pattern>>, signature: bv16, block: int, maxConf: nat) returns (w: nat, ps: seq<Path>)
    requires TablesOk(ts) && maxConf <= 99
    ensures var t, out := ts[SetOf(signature)], Check(ts, signature, block, maxConf);
            if t[0].cSig > 0 && exists k: nat :: k < WAYS && Confidence(t, k) >= 25 then
              && BestFirst(t, w) && Walk(ts, ps, block, maxConf) && out == ps[|ps| - 1].out
              && ps[0] == Path(signature, 100 * t[w].cDelta / t[0].cSig, t[w].delta, 0, Candidates(t, signature, block, WAYS))
            else out == []
  {
    hide Lookahead, Walk, Candidates, Likeliest;
    var t, p := ts[SetOf(signature)], First(ts, signature, block);
    assert SetOk(t);
    FirstIsOk(ts, signature, block);
    w, ps := 0, [p];
    if t[0].cSig > 0 {
      LikeliestMeaning(t, WAYS);
      match Likeliest(t, WAYS)
      case None => NoCandidates(t, signature, block, WAYS);
      case Some(i) =>
        w := i;
        ps := LookaheadWalks(ts, p, block, maxConf);
    }
  }
}
