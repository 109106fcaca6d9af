/** Signatures and the pattern table of the KPCP prefetcher: which deltas followed a signature, and how often. */
module KpcpPatterns {

  const WAYS: nat := 4
  const SETS: nat := 512
  const PRIME: nat := 509
  const CSIG_MAX: nat := 16

  /** One way of a pattern set; only way 0 uses its signature counter. */
  datatype Pattern = Pattern(delta: int, cDelta: nat, cSig: nat)

  const NO_PATTERN := Pattern(0, 0, 0)

  // ----- signatures

  /** A delta as it enters a signature. */
  function Folded(delta: int): bv16
    requires -64 < delta < 64
  {
    (if delta < 0 then 64 - delta else delta) as bv16
  }

  function Mix(x: bv16, a: bv16): bv16 { ((x << 3) ^ a) & 0xFFF }

  /** The signature before the case that it would be 0. */
  function Shifted(old_: bv16, delta: int): bv16
    requires -64 < delta < 64
  {
    Mix(old_, Folded(delta))
  }

  /** get_new_signature. */
  function NewSignature(old_: bv16, delta: int): bv16
    requires -64 < delta < 64
  {
    if delta == 0 then old_
    else if Shifted(old_, delta) != 0 then Shifted(old_, delta)
    else if Folded(delta) != 0 then Folded(delta)
    else old_
  }

  predicate Fits(signature: bv16) { signature & 0xF000 == 0 }

  lemma FoldedSmall(delta: int)
    requires -64 < delta < 64
    ensures Folded(delta) & 0xFF80 == 0
    ensures delta != 0 ==> Folded(delta) != 0
  {
    var n: nat := if delta < 0 then 64 - delta else delta;
    assert n < 128;
    assert Folded(delta) < 128;
  }

  /** A signature keeps to 12 bits, and no delta leads to signature 0. */
  lemma NewSignatureFits(old_: bv16, delta: int)
    requires Fits(old_) && -64 < delta < 64
    ensures Fits(NewSignature(old_, delta))
    ensures delta != 0 ==> NewSignature(old_, delta) != 0
  {
    FoldedSmall(delta);
  }

  /** Unless a step would give 0, a signature depends on the last four deltas only. */
  lemma SignatureForgets(x: bv16, y: bv16, a: int, b: int, c: int, d: int)
    requires -64 < a < 64 && -64 < b < 64 && -64 < c < 64 && -64 < d < 64
    requires a != 0 && b != 0 && c != 0 && d != 0
    requires NoZero(x, a, b, c) && NoZero(y, a, b, c)
    ensures NewSignature(NewSignature(NewSignature(NewSignature(x, a), b), c), d)
         == NewSignature(NewSignature(NewSignature(NewSignature(y, a), b), c), d)
  {
    FourSteps(x, y, Folded(a), Folded(b), Folded(c), Folded(d));
    FoldedSmall(d);
    hide Mix, Folded;
  }

  ghost predicate NoZero(x: bv16, a: int, b: int, c: int)
    requires -64 < a < 64 && -64 < b < 64 && -64 < c < 64
  {
    Shifted(x, a) != 0 && Shifted(Shifted(x, a), b) != 0 && Shifted(Shifted(Shifted(x, a), b), c) != 0
  }

  lemma FourSteps(x: bv16, y: bv16, a: bv16, b: bv16, c: bv16, d: bv16)
    ensures Mix(Mix(Mix(Mix(x, a), b), c), d) == Mix(Mix(Mix(Mix(y, a), b), c), d)
  {
  }

  /** How a delta enters a signature: its size, and 64 more if it is negative, so that no two deltas look alike. */
  lemma FoldedMeaning(delta: int)
    requires -64 < delta < 64
    ensures Folded(delta) as nat == (if delta < 0 then 64 - delta else delta)
  {
    var n: nat := if delta < 0 then 64 - delta else delta;
    if n < 32 { Back32(n); } else if n < 64 { Back64(n); } else if n < 96 { Back96(n); } else { Back128(n); }
  }

  lemma Back32(n: nat)
    requires n < 32
    ensures (n as bv16) as nat == n
  {
  }

  lemma Back64(n: nat)
    requires 32 <= n < 64
    ensures (n as bv16) as nat == n
  {
  }

  lemma Back96(n: nat)
    requires 64 <= n < 96
    ensures (n as bv16) as nat == n
  {
  }

  lemma Back128(n: nat)
    requires 96 <= n < 128
    ensures (n as bv16) as nat == n
  {
  }

  /** Unless a step would give 0, the signature overlays the last four deltas, each three bits further left than the next. */
  lemma SignatureOfFour(x: bv16, a: int, b: int, c: int, d: int)
    requires -64 < a < 64 && -64 < b < 64 && -64 < c < 64 && -64 < d < 64
    requires a != 0 && b != 0 && c != 0 && d != 0 && NoZero(x, a, b, c)
    ensures var r := NewSignature(NewSignature(NewSignature(NewSignature(x, a), b), c), d);
            var overlaid := ((Folded(a) << 9) ^ (Folded(b) << 6) ^ (Folded(c) << 3) ^ Folded(d)) & 0xFFF;
            r == if overlaid != 0 then overlaid else Folded(d)
  {
    FoldedSmall(d);
    FourMixes(x, Folded(a), Folded(b), Folded(c), Folded(d));
    hide Mix, Folded;
  }

  lemma FourMixes(x: bv16, a: bv16, b: bv16, c: bv16, d: bv16)
    ensures Mix(Mix(Mix(Mix(x, a), b), c), d) == ((a << 9) ^ (b << 6) ^ (c << 3) ^ d) & 0xFFF
  {
  }

  // ----- updating a set

  function Sum(t: seq<Pattern>, n: nat): nat
    requires n <= |t|
  {
    if n == 0 then 0 else Sum(t, n - 1) + t[n - 1].cDelta
  }

  /** The counters of the deltas add up to no more than the counter of the signature, and empty ways count nothing. */
  ghost predicate SetOk(t: seq<Pattern>) {
    && |t| == WAYS
    && Sum(t, WAYS) <= t[0].cSig < CSIG_MAX
    && (forall i :: 0 <= i < WAYS ==> -64 < t[i].delta < 64 && (t[i].delta == 0 ==> t[i].cDelta == 0))
    && (forall i, j :: 0 <= i < j < WAYS && t[i].delta == t[j].delta ==> t[i].delta == 0)
  }

  /** The signature counter goes up; when it saturates all counters of the set are halved. */
  function Counted(t: seq<Pattern>): (r: seq<Pattern>)
    requires |t| == WAYS
    ensures |r| == WAYS
  {
    if t[0].cSig + 1 == CSIG_MAX then
      seq(WAYS, i requires 0 <= i < WAYS => Pattern(t[i].delta, t[i].cDelta / 2, if i == 0 then CSIG_MAX / 2 else t[i].cSig))
    else t[0 := t[0].(cSig := t[0].cSig + 1)]
  }

  /** The first way from `i` on with delta `d`. */
  function WayOf(t: seq<Pattern>, d: int, i: nat): (r: nat)
    requires i <= |t|
    ensures i <= r <= |t|
    ensures r < |t| ==> t[r].delta == d
    ensures forall k :: i <= k < r ==> t[k].delta != d
    decreases |t| - i
  {
    if i == |t| || t[i].delta == d then i else WayOf(t, d, i + 1)
  }

  /** The way below `n` with the lowest counter, the first one; n is |t| or more if all counters are saturated. */
  function Lowest(t: seq<Pattern>, n: nat): (r: nat)
    requires n <= |t|
    ensures r < n || r == |t|
    ensures r < |t| ==> t[r].cDelta < CSIG_MAX
    ensures forall k :: 0 <= k < n ==> t[k].cDelta >= CSIG_MAX || (r < |t| && t[r].cDelta <= t[k].cDelta)
  {
    if n == 0 then |t|
    else
      var m := Lowest(t, n - 1);
      if t[n - 1].cDelta < (if m < |t| then t[m].cDelta else CSIG_MAX) then n - 1 else m
  }

  /** The way that L2_PT_update gives to delta `d`. */
  function Target(t: seq<Pattern>, d: int): (r: nat)
    ensures r <= |t|
  {
    if WayOf(t, d, 0) < |t| then WayOf(t, d, 0)
    else if WayOf(t, 0, 0) < |t| then WayOf(t, 0, 0)
    else Lowest(t, |t|)
  }

  /** The second part of L2_PT_update: a known delta counts up, a new one takes an empty way or the one with the lowest counter. */
  function Assigned(a: seq<Pattern>, d: int): seq<Pattern> {
    var w := Target(a, d);
    if w == |a| then a
    else if a[w].delta == d then a[w := a[w].(cDelta := a[w].cDelta + 1)]
    else a[w := a[w].(delta := d, cDelta := 0)]
  }

  /** L2_PT_update for one set. */
  function Updated(t: seq<Pattern>, d: int): seq<Pattern>
    requires |t| == WAYS
  {
    Assigned(Counted(t), d)
  }

  lemma {:induction false} SumUpdate(t: seq<Pattern>, w: nat, p: Pattern, n: nat)
    requires w < |t| && n <= |t|
    ensures Sum(t[w := p], n) == Sum(t, n) + (if w < n then p.cDelta - t[w].cDelta else 0)
  {
    if n > 0 { SumUpdate(t, w, p, n - 1); }
  }

  lemma {:induction false} SumHalved(t: seq<Pattern>, h: seq<Pattern>, n: nat)
    requires n <= |t| == |h| && forall i :: 0 <= i < |t| ==> h[i].cDelta == t[i].cDelta / 2
    ensures 2 * Sum(h, n) <= Sum(t, n)
  {
    if n > 0 { SumHalved(t, h, n - 1); }
  }

  lemma {:induction false} PartOfSum(t: seq<Pattern>, i: nat, n: nat)
    requires i < n <= |t|
    ensures t[i].cDelta <= Sum(t, n)
  {
    if i < n - 1 { PartOfSum(t, i, n - 1); }
  }

  /** After the first part of an update there is room for one more count. */
  lemma CountedHasRoom(t: seq<Pattern>)
    requires SetOk(t)
    ensures var a := Counted(t);
            && Sum(a, WAYS) < a[0].cSig < CSIG_MAX
            && forall i :: 0 <= i < WAYS ==> a[i].delta == t[i].delta && a[i].cDelta <= t[i].cDelta
  {
    var a := Counted(t);
    if t[0].cSig + 1 == CSIG_MAX { SumHalved(t, a, WAYS); }
    else { SumUpdate(t, 0, t[0].(cSig := t[0].cSig + 1), WAYS); }
  }

  /** L2_PT_update keeps the table consistent, always finds a way, and knows the delta afterwards. */
  lemma UpdateKeepsSet(t: seq<Pattern>, d: int)
    requires SetOk(t) && -64 < d < 64 && d != 0
    ensures SetOk(Updated(t, d)) && Target(Counted(t), d) < WAYS
    ensures Updated(t, d)[Target(Counted(t), d)].delta == d
  {
    var a := Counted(t);
    CountedHasRoom(t);
    forall i | 0 <= i < WAYS ensures a[i].cDelta < CSIG_MAX { PartOfSum(t, i, WAYS); }
    var w := Target(a, d);
    SumUpdate(a, w, Updated(t, d)[w], WAYS);
  }

  // ----- what an update counts

  /** A counter of a delta before it is counted up: halved if the signature's counter saturates. */
  function Aged(t: seq<Pattern>, i: nat): nat
    requires i < |t|
  {
    if t[0].cSig == CSIG_MAX - 1 then t[i].cDelta / 2 else t[i].cDelta
  }

  /** Way `i` keeps its delta, and its counter but for aging. */
  ghost predicate Stays(t: seq<Pattern>, r: seq<Pattern>, i: nat)
    requires i < |t| == |r|
  {
    r[i].delta == t[i].delta && r[i].cDelta == Aged(t, i)
  }

  /** Way `w` is the one to replace: the first empty one, or if there is none the first with the lowest counter. */
  ghost predicate Replaceable(t: seq<Pattern>, w: nat)
    requires w < |t|
  {
    if exists k: nat :: k < |t| && t[k].delta == 0 then t[w].delta == 0 && forall k: nat :: k < w ==> t[k].delta != 0
    else (forall k: nat :: k < |t| ==> Aged(t, w) <= Aged(t, k)) && (forall k: nat :: k < w ==> Aged(t, w) < Aged(t, k))
  }

  /** What becomes of the set `t` when delta `d` follows its signature once more. */
  ghost predicate Counts(t: seq<Pattern>, d: int, r: seq<Pattern>)
    requires |t| == |r| == WAYS
  {
    && r[0].cSig == (if t[0].cSig == CSIG_MAX - 1 then CSIG_MAX / 2 else t[0].cSig + 1)
    && if exists w: nat :: w < WAYS && t[w].delta == d then
         forall i: nat :: i < WAYS ==>
           if t[i].delta == d then r[i].delta == d && r[i].cDelta == Aged(t, i) + 1 else Stays(t, r, i)
       else
         exists w: nat :: w < WAYS && Replaceable(t, w) && r[w].delta == d && r[w].cDelta == 0
                          && forall i: nat :: i < WAYS && i != w ==> Stays(t, r, i)
  }

  lemma CountedAges(t: seq<Pattern>)
    requires SetOk(t)
    ensures var a := Counted(t);
            && |a| == WAYS && a[0].cSig == (if t[0].cSig == CSIG_MAX - 1 then CSIG_MAX / 2 else t[0].cSig + 1)
            && forall i: nat :: i < WAYS ==> a[i].delta == t[i].delta && a[i].cDelta == Aged(t, i) < CSIG_MAX
  {
    forall i: nat | i < WAYS ensures t[i].cDelta < CSIG_MAX { PartOfSum(t, i, WAYS); }
  }

  lemma {:induction false} LowestIsFirst(t: seq<Pattern>, n: nat, k: nat)
    requires n <= |t| && Lowest(t, n) < |t| && k < Lowest(t, n)
    ensures t[Lowest(t, n)].cDelta < t[k].cDelta || t[k].cDelta >= CSIG_MAX
  {
    if Lowest(t, n) != n - 1 { LowestIsFirst(t, n - 1, k); }
  }

  /** L2_PT_update counts what it should. */
  lemma UpdateCounts(t: seq<Pattern>, d: int)
    requires SetOk(t) && -64 < d < 64 && d != 0
    ensures |Updated(t, d)| == WAYS && Counts(t, d, Updated(t, d))
  {
    var a, r := Counted(t), Updated(t, d);
    CountedAges(t);
    UpdateKeepsSet(t, d);
    var w := Target(a, d);
    if exists k: nat :: k < WAYS && t[k].delta == d {
      assert WayOf(a, d, 0) == w;
    } else {
      hide Counted, SetOk;
      TargetIsReplaceable(t, a, d);
      forall i: nat | i < WAYS && i != w ensures Stays(t, r, i) { assert r[i] == a[i]; }
    }
  }

  lemma TargetIsReplaceable(t: seq<Pattern>, a: seq<Pattern>, d: int)
    requires |t| == |a| == WAYS && d != 0 && forall i: nat :: i < WAYS ==> a[i].delta == t[i].delta && a[i].cDelta == Aged(t, i) < CSIG_MAX
    requires (forall k: nat :: k < WAYS ==> t[k].delta != d) && Target(a, d) < WAYS
    ensures Replaceable(t, Target(a, d))
  {
    assert WayOf(a, d, 0) == WAYS;
    if WayOf(a, 0, 0) == WAYS {
      forall k: nat | k < Lowest(a, WAYS) ensures Aged(t, Lowest(a, WAYS)) < Aged(t, k) { LowestIsFirst(a, WAYS, k); }
      assert forall k: nat :: k < WAYS ==> t[k].delta == a[k].delta != 0;
    }
  }

  // ----- what a set holds after a run

  const EMPTY_SET: seq<Pattern> := [NO_PATTERN, NO_PATTERN, NO_PATTERN, NO_PATTERN]

  ghost predicate Deltas(ds: seq<int>) { forall i :: 0 <= i < |ds| ==> -64 < ds[i] < 64 && ds[i] != 0 }

  /** The set after the deltas `ds` have followed its signature, from an empty one. */
  function After(ds: seq<int>): (t: seq<Pattern>)
    ensures |t| == WAYS
  {
    if |ds| == 0 then EMPTY_SET else Updated(After(ds[..|ds| - 1]), ds[|ds| - 1])
  }

  /** The counters are those of the deltas: for each its occurrences but the first. */
  ghost predicate Tallied(t: seq<Pattern>, ds: seq<int>)
    requires |t| == WAYS
  {
    && t[0].cSig == |ds|
    && (forall w: nat :: w < WAYS && t[w].delta != 0 ==> t[w].delta in ds && t[w].cDelta == multiset(ds)[t[w].delta] - 1)
    && (forall d: int :: d in ds ==> exists w: nat :: w < WAYS && t[w].delta == d)
  }

  lemma EmptySetOk()
    ensures SetOk(EMPTY_SET)
  {
    assert Sum(EMPTY_SET, 1) == 0;
    assert Sum(EMPTY_SET, 2) == 0;
    assert Sum(EMPTY_SET, 3) == 0;
    assert Sum(EMPTY_SET, 4) == 0;
  }

  /** Four full ways and one more delta make five. */
  lemma FiveDeltas(t: seq<Pattern>, ds: set<int>, d: int)
    requires SetOk(t) && d in ds && forall w: nat :: w < WAYS ==> t[w].delta != 0 && t[w].delta != d && t[w].delta in ds
    ensures |ds| > WAYS
  {
    var five := {d, t[0].delta, t[1].delta, t[2].delta, t[3].delta};
    assert |five| == 5;
    Smaller(five, ds);
  }

  lemma Smaller(a: set<int>, b: set<int>)
    requires a <= b
    ensures |a| <= |b|
  {
    assert a + (b - a) == b;
    assert a * (b - a) == {};
  }

  lemma TallyGoesOn(t: seq<Pattern>, ds: seq<int>, d: int, r: seq<Pattern>)
    requires SetOk(t) && d != 0 && 0 !in ds && |ds| + 1 < CSIG_MAX && Tallied(t, ds) && |r| == WAYS && Counts(t, d, r)
    requires |set x | x in ds + [d]| <= WAYS
    ensures Tallied(r, ds + [d])
  {
    var es := ds + [d];
    assert multiset(es) == multiset(ds) + multiset{d};
    if w: nat :| w < WAYS && t[w].delta == d {
      assert r[w].delta == d;
      forall e: int | e in es ensures exists k: nat :: k < WAYS && r[k].delta == e {
        if e != d { var k: nat :| k < WAYS && t[k].delta == e; assert Stays(t, r, k); }
      }
    } else {
      var w: nat :| w < WAYS && Replaceable(t, w) && r[w].delta == d && r[w].cDelta == 0
                    && forall i: nat :: i < WAYS && i != w ==> Stays(t, r, i);
      NewIsEmpty(t, ds, d, w);
      NewDelta(t, ds, d, r, w);
    }
  }

  /** With at most four deltas a new one finds an empty way. */
  lemma NewIsEmpty(t: seq<Pattern>, ds: seq<int>, d: int, w: nat)
    requires SetOk(t) && w < WAYS && Replaceable(t, w) && Tallied(t, ds)
    requires |set x | x in ds + [d]| <= WAYS && forall k: nat :: k < WAYS ==> t[k].delta != d
    ensures t[w].delta == 0 && d !in ds
  {
    if t[w].delta != 0 { FiveDeltas(t, (set x | x in ds + [d]), d); }
  }

  lemma NewDelta(t: seq<Pattern>, ds: seq<int>, d: int, r: seq<Pattern>, w: nat)
    requires |t| == |r| == WAYS && d != 0 && 0 !in ds && Tallied(t, ds) && w < WAYS && t[w].delta == 0 && d !in ds
    requires r[0].cSig == t[0].cSig + 1 && t[0].cSig + 1 < CSIG_MAX && r[w].delta == d && r[w].cDelta == 0
    requires forall i: nat :: i < WAYS && i != w ==> Stays(t, r, i)
    ensures Tallied(r, ds + [d])
  {
    var es := ds + [d];
    assert multiset(es) == multiset(ds) + multiset{d};
    forall e: int | e in es ensures exists k: nat :: k < WAYS && r[k].delta == e {
      if e != d { var k: nat :| k < WAYS && t[k].delta == e; assert Stays(t, r, k); }
    }
    forall k: nat | k < WAYS && r[k].delta != 0 ensures r[k].delta in es && r[k].cDelta == multiset(es)[r[k].delta] - 1 {
      if k != w { assert Stays(t, r, k); }
    }
  }

  /**
   From an empty set, fewer than 16 updates with at most four different deltas are counted exactly:
   the signature as often as it was updated, each delta as often as it came again.
   */
  lemma {:induction false} UpdatesAreCounted(ds: seq<int>)
    requires Deltas(ds) && |ds| < CSIG_MAX && |set x | x in ds| <= WAYS
    ensures SetOk(After(ds)) && Tallied(After(ds), ds)
  {
    if |ds| == 0 {
      EmptySetOk();
    } else {
      var es, d := ds[..|ds| - 1], ds[|ds| - 1];
      assert ds == es + [d];
      Smaller((set x | x in es), (set x | x in ds));
      UpdatesAreCounted(es);
      UpdateKeepsSet(After(es), d);
      UpdateCounts(After(es), d);
      TallyGoesOn(After(es), es, d, After(ds));
    }
  }
}
