/** The confidence estimators as they run: counter tables and the reversal table are arrays updated in place. */
module CompositeConfidence {
  import opened Common
  import opened Bits
  import opened Confidence

  /** EJRS or UDCE. */
  class CounterTable {
    const ghrSize: nat
    const reset: bool
    const mdc: array<nat>
    var bhVector: nat

    ghost function Value(): Estimator
      reads this, mdc
    {
      Estimator(ghrSize, mdc[..], bhVector)
    }

    ghost predicate Valid()
      reads this, mdc
    {
      Value().Valid()
    }

    constructor (ghrSize: nat, reset: bool)
      requires 0 < ghrSize < 31
      ensures Valid() && fresh(mdc) && Value() == FreshEstimator(ghrSize) && this.reset == reset
    {
      this.ghrSize, this.reset, bhVector := ghrSize, reset, 0;
      mdc := new nat[ENTRIES](_ => THRESHOLD);
      new;
      assert mdc[..] == seq(ENTRIES, _ => THRESHOLD);
    }

    /** get_confidence. */
    method GetConfidence(ip: nat, pred: bool) returns (c: int)
      requires Valid()
      ensures c == Vote(Confident(Value(), ip, pred))
    {
      var i := Entry(ip, ghrSize, bhVector, pred);
      c := if mdc[i] >= THRESHOLD then 1 else 0;
    }

    /** update_table. */
    method UpdateTable(ip: nat, taken: bool, lastPred: bool)
      requires Valid()
      modifies this, mdc
      ensures Valid() && Value() == Updated(old(Value()), reset, ip, taken, lastPred)
    {
      hide Entry, Shifted;
      var i := Entry(ip, UPDATE_SHIFT, bhVector, lastPred);
      if lastPred == taken {
        if mdc[i] < THRESHOLD { mdc[i] := mdc[i] + 1; }
      } else if reset {
        mdc[i] := 0;
      } else {
        if mdc[i] > 0 { mdc[i] := mdc[i] - 1; }
      }
      bhVector := Shifted(bhVector, ghrSize, taken);
    }
  }

  // ----- the reversal table

  /** The parameters of BPRU. */
  datatype RtConfig = RtConfig(size: nat, maxCounter: nat, mask: bv16, shift: nat, ways: nat, tagBits: nat)
  {
    ghost predicate Valid() { 0 < ways <= size && shift < 16 && tagBits <= 16 && 0 < size / ways && maxCounter < 256 }
  }

  function TagOf(c: RtConfig, ip: nat): nat { ip % Power(c.tagBits) }

  lemma SetFits(c: RtConfig, h: nat)
    requires c.Valid() && h < c.size / c.ways
    ensures (h + 1) * c.ways <= c.size && h < c.size && h * c.ways + c.ways == (h + 1) * c.ways
  {
    MulMonotonic(c.ways, h + 1, c.size / c.ways);
    MulMonotonic(h, 1, c.ways);
  }

  /** The search of RT_hash from slot `i` to `end`: the tag, or an empty slot, or the highest counter seen. */
  function Search(tags: seq<nat>, rev: seq<nat>, tag: nat, i: nat, end: nat, best: nat): (r: nat)
    requires i <= end <= |tags| == |rev| && best < |tags|
    ensures r < |tags|
    decreases end - i
  {
    if i == end then best
    else if tags[i] == tag || tags[i] == 0 then i
    else Search(tags, rev, tag, i + 1, end, if rev[i] > rev[best] then i else best)
  }

  /** RT_hash. */
  function SlotOf(c: RtConfig, tags: seq<nat>, rev: seq<nat>, ip: nat): (r: nat)
    requires c.Valid() && |tags| == |rev| == c.size
    ensures r < c.size
  {
    var h := ip % (c.size / c.ways);
    SetFits(c, h);
    Search(tags, rev, TagOf(c, ip), h * c.ways, (h + 1) * c.ways, h)
  }

  /** Slot `k` belongs to the set of the branch. */
  predicate InSet(c: RtConfig, ip: nat, k: nat)
    requires c.Valid()
  {
    var h := ip % (c.size / c.ways);
    h * c.ways <= k < (h + 1) * c.ways
  }

  /** Slot `k` has the tag or is empty. */
  predicate Takes(tags: seq<nat>, tag: nat, k: nat) { k < |tags| && (tags[k] == tag || tags[k] == 0) }

  lemma {:induction false} SearchMeaning(tags: seq<nat>, rev: seq<nat>, tag: nat, i: nat, end: nat, best: nat)
    requires i <= end <= |tags| == |rev| && best < |tags|
    ensures var r := Search(tags, rev, tag, i, end, best);
            if exists k: nat :: i <= k < end && Takes(tags, tag, k)
            then i <= r < end && Takes(tags, tag, r) && forall k: nat :: i <= k < end && Takes(tags, tag, k) ==> r <= k
            else && (r == best || (i <= r < end && rev[r] > rev[best]))
                 && forall k: nat :: i <= k < end ==> rev[k] <= rev[r]
    decreases end - i
  {
    if i < end {
      if Takes(tags, tag, i) {
        assert Search(tags, rev, tag, i, end, best) == i;
      } else {
        SearchMeaning(tags, rev, tag, i + 1, end, if rev[i] > rev[best] then i else best);
        if k: nat :| i <= k < end && Takes(tags, tag, k) { assert i + 1 <= k; }
      }
    }
  }

  /**
   The first slot of the set with the tag or empty; if there is none, a slot with the highest counter,
   which is one of the set, or the slot numbered like the set if none is above that.
   */
  ghost predicate IsSlot(c: RtConfig, tags: seq<nat>, rev: seq<nat>, ip: nat, r: nat)
    requires c.Valid() && |tags| == |rev| == c.size && r < c.size
  {
    var tag, h := TagOf(c, ip), ip % (c.size / c.ways);
    if exists k: nat :: InSet(c, ip, k) && Takes(tags, tag, k)
    then InSet(c, ip, r) && Takes(tags, tag, r) && forall k: nat :: InSet(c, ip, k) && Takes(tags, tag, k) ==> r <= k
    else && h < c.size && (r == h || (InSet(c, ip, r) && rev[r] > rev[h]))
         && forall k: nat :: InSet(c, ip, k) ==> k < c.size && rev[k] <= rev[r]
  }

  /** What RT_hash finds. */
  lemma SlotMeaning(c: RtConfig, tags: seq<nat>, rev: seq<nat>, ip: nat)
    requires c.Valid() && |tags| == |rev| == c.size
    ensures IsSlot(c, tags, rev, ip, SlotOf(c, tags, rev, ip))
  {
    var h := ip % (c.size / c.ways);
    SetFits(c, h);
    SearchMeaning(tags, rev, TagOf(c, ip), h * c.ways, (h + 1) * c.ways, h);
    hide Search, TagOf;
  }

  /** The bit of a counter that asks for a reversal. */
  predicate Says(c: RtConfig, counter: nat)
    requires c.shift < 16
  {
    ((counter % 0x10000) as bv16 & c.mask) >> c.shift != 0
  }

  /** Whether the counter of the branch says to reverse; a branch that is not in the table starts at 0. */
  predicate Reverses(c: RtConfig, tags: seq<nat>, rev: seq<nat>, ip: nat)
    requires c.Valid() && |tags| == |rev| == c.size
  {
    var i := SlotOf(c, tags, rev, ip);
    Says(c, if tags[i] != TagOf(c, ip) then 0 else rev[i])
  }

  /** Whether update_RT counts up: the final prediction was right after a reversal, or wrong without one. */
  predicate CountsUp(wasReversed: bool, recent: bool, taken: bool) {
    if wasReversed then taken == recent else taken != recent
  }

  /** The tags after reverse_prediction. */
  function LookedTags(c: RtConfig, tags: seq<nat>, rev: seq<nat>, ip: nat): (r: seq<nat>)
    requires c.Valid() && |tags| == |rev| == c.size
    ensures |r| == |tags|
  {
    tags[SlotOf(c, tags, rev, ip) := TagOf(c, ip)]
  }

  /** The counters after reverse_prediction: a branch new to its slot starts at 0. */
  function LookedRev(c: RtConfig, tags: seq<nat>, rev: seq<nat>, ip: nat): (r: seq<nat>)
    requires c.Valid() && |tags| == |rev| == c.size
    ensures |r| == |rev|
  {
    var i := SlotOf(c, tags, rev, ip);
    rev[i := if tags[i] == TagOf(c, ip) then rev[i] else 0]
  }

  /** A counter one step up or down, within its bounds. */
  function Bumped(x: nat, up: bool, max: nat): nat {
    if up then (if x < max then x + 1 else x) else if x > 0 then x - 1 else x
  }

  /** The counters after update_RT. */
  function CountedRev(c: RtConfig, tags: seq<nat>, rev: seq<nat>, ip: nat, wasReversed: bool, recent: bool, taken: bool): seq<nat>
    requires c.Valid() && |tags| == |rev| == c.size
  {
    var i := SlotOf(c, tags, rev, ip);
    rev[i := Bumped(rev[i], CountsUp(wasReversed, recent, taken), c.maxCounter)]
  }

  /**
   reverse_prediction followed by update_RT: the counter goes up exactly if the branch predictor
   itself was wrong, whether or not it was overruled.
   */
  lemma CountsMispredictions(c: RtConfig, tags: seq<nat>, rev: seq<nat>, ip: nat, pred: bool, taken: bool)
    requires c.Valid() && |tags| == |rev| == c.size
    ensures var t, r := LookedTags(c, tags, rev, ip), LookedRev(c, tags, rev, ip);
            var reversed := Reverses(c, tags, rev, ip);
            var recent := if reversed then !pred else pred;
            var u := SlotOf(c, t, r, ip);
            CountedRev(c, t, r, ip, reversed, recent, taken) == r[u := Bumped(r[u], pred != taken, c.maxCounter)]
  {
  }

  /**
   update_RT counts in the slot that reverse_prediction has just looked at exactly if that slot is
   in the set of the branch, or had its tag already, or all counters of the set are 0: otherwise
   the search started from a slot outside the set, and clearing that one's counter sends it elsewhere.
   */
  lemma UpdateFindsSlot(c: RtConfig, tags: seq<nat>, rev: seq<nat>, ip: nat)
    requires c.Valid() && |tags| == |rev| == c.size
    ensures var i := SlotOf(c, tags, rev, ip);
            SlotOf(c, LookedTags(c, tags, rev, ip), LookedRev(c, tags, rev, ip), ip) == i
            <==> InSet(c, ip, i) || tags[i] == TagOf(c, ip) || forall k: nat :: InSet(c, ip, k) ==> k < c.size && rev[k] == 0
  {
    var i, t, r, tag := SlotOf(c, tags, rev, ip), LookedTags(c, tags, rev, ip), LookedRev(c, tags, rev, ip), TagOf(c, ip);
    SlotMeaning(c, tags, rev, ip);
    SlotMeaning(c, t, r, ip);
    var u := SlotOf(c, t, r, ip);
    hide SlotOf, TagOf, InSet;
    if InSet(c, ip, i) {
      assert Takes(t, tag, i);
    } else {
      assert forall k: nat :: InSet(c, ip, k) ==> !Takes(tags, tag, k);
      forall k: nat | InSet(c, ip, k) ensures !Takes(t, tag, k) && r[k] == rev[k] { assert k != i && !Takes(tags, tag, k); }
      if tags[i] == tag { assert t == tags && r == rev; }
    }
  }

  // ----- runs of the reversal table

  datatype Tables = Tables(tags: seq<nat>, rev: seq<nat>)

  /** A branch is predicted and resolved; `wrong` says whether the branch predictor was. */
  function Resolved(c: RtConfig, s: Tables, ip: nat, wrong: bool): (r: Tables)
    requires c.Valid() && |s.tags| == |s.rev| == c.size
    ensures |r.tags| == |r.rev| == c.size
  {
    var tags, rev := LookedTags(c, s.tags, s.rev, ip), LookedRev(c, s.tags, s.rev, ip);
    var u := SlotOf(c, tags, rev, ip);
    Tables(tags, rev[u := Bumped(rev[u], wrong, c.maxCounter)])
  }

  datatype Outcome = Outcome(ip: nat, wrong: bool)

  /** The tables after the branches `os`, from fresh ones. */
  function Learnt(c: RtConfig, os: seq<Outcome>): (r: Tables)
    requires c.Valid()
    ensures |r.tags| == |r.rev| == c.size
  {
    if |os| == 0 then Tables(seq(c.size, _ => 0), seq(c.size, _ => 0))
    else Resolved(c, Learnt(c, os[..|os| - 1]), os[|os| - 1].ip, os[|os| - 1].wrong)
  }

  /** Both lookups for the next branch meet in one slot. */
  predicate SameSlot(c: RtConfig, s: Tables, ip: nat)
    requires c.Valid() && |s.tags| == |s.rev| == c.size
  {
    SlotOf(c, LookedTags(c, s.tags, s.rev, ip), LookedRev(c, s.tags, s.rev, ip), ip) == SlotOf(c, s.tags, s.rev, ip)
  }

  /** With one set, or one slot a set, the slot always belongs to the branch. */
  lemma SimpleTablesAgree(c: RtConfig, s: Tables, ip: nat)
    requires c.Valid() && |s.tags| == |s.rev| == c.size && (c.ways == 1 || c.size / c.ways == 1)
    ensures SameSlot(c, s, ip)
  {
    hide SlotOf, TagOf, LookedTags, LookedRev;
    SlotMeaning(c, s.tags, s.rev, ip);
    UpdateFindsSlot(c, s.tags, s.rev, ip);
    var h := ip % (c.size / c.ways);
    assert InSet(c, ip, h);
  }

  // ----- what the counters of the reversal table are

  /** A counter after one step for each outcome, up for a misprediction and down otherwise, between 0 and `max`. */
  function Level(max: nat, wrong: seq<bool>): nat {
    if |wrong| == 0 then 0
    else
      var x := Level(max, wrong[..|wrong| - 1]);
      if wrong[|wrong| - 1] then (if x == max then max else x + 1) else if x == 0 then 0 else x - 1
  }

  lemma OneMoreLevel(max: nat, wrong: seq<bool>, w: bool)
    ensures Level(max, []) == 0 && Level(max, wrong) <= max
    ensures Level(max, wrong + [w]) == Bumped(Level(max, wrong), w, max)
  {
    assert (wrong + [w])[..|wrong|] == wrong;
    LevelFits(max, wrong);
  }

  lemma {:induction false} LevelFits(max: nat, wrong: seq<bool>)
    ensures Level(max, wrong) <= max
  {
    if |wrong| > 0 { LevelFits(max, wrong[..|wrong| - 1]); }
  }

  /** The mispredictions of the branches in slot `k` since its tag came in. */
  function UsesOf(c: RtConfig, os: seq<Outcome>, k: nat): seq<bool>
    requires c.Valid() && k < c.size
  {
    if |os| == 0 then []
    else
      var s, o := Learnt(c, os[..|os| - 1]), os[|os| - 1];
      var before := UsesOf(c, os[..|os| - 1], k);
      if SlotOf(c, s.tags, s.rev, o.ip) != k then before
      else (if s.tags[k] == TagOf(c, o.ip) then before else []) + [o.wrong]
  }

  /** Prediction and update met in one slot for every branch so far. */
  ghost predicate AlwaysMeet(c: RtConfig, os: seq<Outcome>)
    requires c.Valid()
  {
    forall n :: 0 <= n < |os| ==> SameSlot(c, Learnt(c, os[..n]), os[n].ip)
  }

  /** Then every counter is the level of the mispredictions in its slot. */
  lemma {:induction false} CountersAreLevels(c: RtConfig, os: seq<Outcome>, k: nat)
    requires c.Valid() && k < c.size && AlwaysMeet(c, os)
    ensures Learnt(c, os).rev[k] == Level(c.maxCounter, UsesOf(c, os, k))
    decreases |os|
  {
    hide SlotOf, TagOf, Bumped, Level;
    if |os| == 0 {
      OneMoreLevel(c.maxCounter, [], false);
    } else {
      var os', o := os[..|os| - 1], os[|os| - 1];
      assert forall n :: 0 <= n < |os'| ==> os'[..n] == os[..n];
      CountersAreLevels(c, os', k);
      OneMoreLevel(c.maxCounter, UsesOf(c, os', k), o.wrong);
      OneMoreLevel(c.maxCounter, [], o.wrong);
      assert UsesOf(c, os', k) + [] == UsesOf(c, os', k);
    }
  }

  /** With the mask and shift of the simulator a counter asks for a reversal in its upper half. */
  lemma UpperHalf(c: RtConfig, counter: nat)
    requires c.mask == 4 && c.shift == 2 && counter < 8
    ensures Says(c, counter) <==> counter >= 4
  {
  }

  /** A prediction is reversed exactly if the branch is in the table and its slot was mispredicted often enough. */
  lemma ReversesOftenWrong(c: RtConfig, os: seq<Outcome>, ip: nat)
    requires c.Valid() && c.mask == 4 && c.shift == 2 && c.maxCounter == 7 && AlwaysMeet(c, os)
    ensures var s := Learnt(c, os);
            var k := SlotOf(c, s.tags, s.rev, ip);
            Reverses(c, s.tags, s.rev, ip) <==> s.tags[k] == TagOf(c, ip) && Level(7, UsesOf(c, os, k)) >= 4
  {
    hide SlotOf, TagOf, Level, Says, UsesOf, Learnt, AlwaysMeet;
    var s := Learnt(c, os);
    var k := SlotOf(c, s.tags, s.rev, ip);
    CountersAreLevels(c, os, k);
    LevelFits(7, UsesOf(c, os, k));
    UpperHalf(c, s.rev[k]);
    UpperHalf(c, 0);
  }

  // Two sets of two slots: branches 2 and 4 fill the first, 1 and 3 the second; branch 5 finds no place.

  const SMALL := RtConfig(4, 7, 4, 2, 2, 3)
  const HISTORY: seq<Outcome> := [Outcome(1, true), Outcome(3, false), Outcome(2, false), Outcome(4, true)]

  lemma TagsOfSmall()
    ensures SMALL.Valid() && forall ip: nat :: ip < 8 ==> TagOf(SMALL, ip) == ip
  {
    assert Power(3) == 2 * Power(2) == 4 * Power(1) == 8 * Power(0);
  }

  /** The search in a set of two slots. */
  lemma TwoSlots(s: Tables, ip: nat)
    requires ip < 8 && |s.tags| == |s.rev| == 4
    ensures SMALL.Valid()
    ensures var h, tag := ip % 2, ip; var i := 2 * h;
            SlotOf(SMALL, s.tags, s.rev, ip) ==
            if s.tags[i] == tag || s.tags[i] == 0 then i
            else var best := if s.rev[i] > s.rev[h] then i else h;
                 if s.tags[i + 1] == tag || s.tags[i + 1] == 0 then i + 1
                 else if s.rev[i + 1] > s.rev[best] then i + 1 else best
  {
    TagsOfSmall();
    var h := ip % 2;
    var i, best := 2 * h, if s.rev[2 * h] > s.rev[h] then 2 * h else h;
    assert Search(s.tags, s.rev, ip, i + 1, i + 2, best)
           == if s.tags[i + 1] == ip || s.tags[i + 1] == 0 then i + 1 else if s.rev[i + 1] > s.rev[best] then i + 1 else best;
  }

  /** A branch that enters the free slot `i` of its set. */
  lemma EntersFree(s: Tables, ip: nat, wrong: bool, i: nat)
    requires 0 < ip < 8 && |s.tags| == |s.rev| == 4 && i < 4 && s.tags[i] == 0
    requires if i == 2 * (ip % 2) then true else i == 2 * (ip % 2) + 1 && s.tags[i - 1] != 0 && s.tags[i - 1] != ip
    ensures SMALL.Valid()
    ensures Resolved(SMALL, s, ip, wrong) == Tables(s.tags[i := ip], s.rev[i := if wrong then 1 else 0])
  {
    TagsOfSmall();
    TwoSlots(s, ip);
    var tags, rev := LookedTags(SMALL, s.tags, s.rev, ip), LookedRev(SMALL, s.tags, s.rev, ip);
    assert tags == s.tags[i := ip] && rev == s.rev[i := 0];
    TwoSlots(Tables(tags, rev), ip);
  }

  lemma LearnOne(c: RtConfig, os: seq<Outcome>, o: Outcome)
    requires c.Valid()
    ensures Learnt(c, os + [o]) == Resolved(c, Learnt(c, os), o.ip, o.wrong)
  {
    assert (os + [o])[..|os + [o]| - 1] == os;
  }

  /** After the four branches both sets are full; branches 4 and 1 have a counter above 0. */
  lemma FullTables()
    ensures SMALL.Valid()
    ensures var s := Learnt(SMALL, HISTORY);
            && s.tags[0] == 2 && s.tags[1] == 4 && s.tags[2] == 1 && s.tags[3] == 3
            && s.rev[0] == 0 && s.rev[1] == 1 && s.rev[2] == 1 && s.rev[3] == 0
  {
    TagsOfSmall();
    var h0: seq<Outcome> := [];
    var h1, h2, h3 := h0 + [HISTORY[0]], h0 + [HISTORY[0]] + [HISTORY[1]], h0 + [HISTORY[0]] + [HISTORY[1]] + [HISTORY[2]];
    assert HISTORY == h3 + [HISTORY[3]];
    LearnOne(SMALL, h0, HISTORY[0]);
    EntersFree(Learnt(SMALL, h0), 1, true, 2);
    LearnOne(SMALL, h1, HISTORY[1]);
    EntersFree(Learnt(SMALL, h1), 3, false, 3);
    LearnOne(SMALL, h2, HISTORY[2]);
    EntersFree(Learnt(SMALL, h2), 2, false, 0);
    LearnOne(SMALL, h3, HISTORY[3]);
    EntersFree(Learnt(SMALL, h3), 4, true, 1);
  }

  /**
   The property fails in tables that fresh ones come to: the prediction of branch 5 claims slot 1,
   which belongs to the other set, and the update counts in slot 2.
   */
  lemma UpdateMissesSlot()
    ensures SMALL.Valid()
    ensures var s := Learnt(SMALL, HISTORY);
            && SlotOf(SMALL, s.tags, s.rev, 5) == 1 && !InSet(SMALL, 5, 1)
            && SlotOf(SMALL, LookedTags(SMALL, s.tags, s.rev, 5), LookedRev(SMALL, s.tags, s.rev, 5), 5) == 2
            && !SameSlot(SMALL, s, 5)
  {
    FullTables();
    TagsOfSmall();
    hide Learnt, SlotOf;
    var s := Learnt(SMALL, HISTORY);
    TwoSlots(s, 5);
    TwoSlots(Tables(LookedTags(SMALL, s.tags, s.rev, 5), LookedRev(SMALL, s.tags, s.rev, 5)), 5);
  }

  class Bpru {
    const c: RtConfig
    const tags: array<nat>
    const rev: array<nat>
    var recentPrediction: bool
    var wasReversed: bool

    /** No counter exceeds its maximum. */
    ghost predicate Valid()
      reads this, tags, rev
    {
      && c.Valid() && tags != rev && tags.Length == rev.Length == c.size
      && forall i :: 0 <= i < c.size ==> rev[i] <= c.maxCounter
    }

    constructor (c: RtConfig)
      requires c.Valid()
      ensures Valid() && fresh(tags) && fresh(rev) && this.c == c
    {
      this.c := c;
      tags := new nat[c.size](_ => 0);
      rev := new nat[c.size](_ => 0);
      recentPrediction, wasReversed := false, false;
    }

    /** RT_hash. */
    method RtHash(ip: nat) returns (slot: nat)
      requires Valid()
      ensures slot == SlotOf(c, tags[..], rev[..], ip) < c.size
      ensures IsSlot(c, tags[..], rev[..], ip, slot)
    {
      hide TagOf, IsSlot;
      SlotMeaning(c, tags[..], rev[..], ip);
      var h := ip % (c.size / c.ways);
      SetFits(c, h);
      var tag, end := TagOf(c, ip), (h + 1) * c.ways;
      var best: nat := h;
      slot := h * c.ways;
      while slot < end
        invariant slot <= end && best < c.size
        invariant SlotOf(c, tags[..], rev[..], ip) == Search(tags[..], rev[..], tag, slot, end, best)
      {
        if tags[slot] == tag || tags[slot] == 0 { return; }
        if rev[slot] > rev[best] { best := slot; }
        slot := slot + 1;
      }
      slot := best;
    }

    /** reverse_prediction. */
    method ReversePrediction(ip: nat, pred: bool) returns (p: bool)
      requires Valid()
      modifies this, tags, rev
      ensures Valid() && p == recentPrediction == (if wasReversed then !pred else pred)
      ensures wasReversed == Reverses(c, old(tags[..]), old(rev[..]), ip)
      ensures tags[..] == LookedTags(c, old(tags[..]), old(rev[..]), ip)
      ensures rev[..] == LookedRev(c, old(tags[..]), old(rev[..]), ip)
    {
      hide Says, SlotOf, TagOf, IsSlot;
      var slot := RtHash(ip);
      var tag := TagOf(c, ip);
      if tags[slot] != tag {
        tags[slot] := tag;
        rev[slot] := 0;
      }
      if !Says(c, rev[slot]) {
        recentPrediction, wasReversed := pred, false;
      } else {
        recentPrediction, wasReversed := !pred, true;
      }
      p := recentPrediction;
    }

    /** update_RT. */
    method UpdateRt(ip: nat, taken: bool)
      requires Valid()
      modifies rev
      ensures Valid()
      ensures rev[..] == CountedRev(c, tags[..], old(rev[..]), ip, wasReversed, recentPrediction, taken)
    {
      hide SlotOf, TagOf, IsSlot;
      var slot := RtHash(ip);
      var correct := taken == recentPrediction;
      if wasReversed {
        if correct && rev[slot] < c.maxCounter { rev[slot] := rev[slot] + 1; }
        else if !correct && rev[slot] > 0 { rev[slot] := rev[slot] - 1; }
      } else {
        if correct && rev[slot] > 0 { rev[slot] := rev[slot] - 1; }
        else if !correct && rev[slot] < c.maxCounter { rev[slot] := rev[slot] + 1; }
      }
    }

    /** A branch is predicted and then resolved: its counter moves towards reversal exactly if the predictor was wrong. */
    method Resolve(ip: nat, pred: bool, taken: bool) returns (p: bool)
      requires Valid()
      modifies this, tags, rev
      ensures Valid() && p == (if Reverses(c, old(tags[..]), old(rev[..]), ip) then !pred else pred)
      ensures Tables(tags[..], rev[..]) == Resolved(c, Tables(old(tags[..]), old(rev[..])), ip, pred != taken)
    {
      CountsMispredictions(c, tags[..], rev[..], ip, pred, taken);
      hide SlotOf, LookedTags, LookedRev, CountedRev, Reverses, Bumped;
      p := ReversePrediction(ip, pred);
      UpdateRt(ip, taken);
    }
  }

  // ----- the composite

  /** CBCP over all three estimators; `seen` lists the updates so far. */
  class Composite {
    const bpru: Bpru
    const ejrs: CounterTable
    const udce: CounterTable
    ghost var seen: seq<Branch>

    ghost predicate Valid()
      reads this, bpru, bpru.tags, bpru.rev, ejrs, ejrs.mdc, udce, udce.mdc
    {
      && bpru.Valid() && ejrs.Valid() && udce.Valid()
      && ejrs != udce && ejrs.mdc != udce.mdc && bpru.tags != ejrs.mdc && bpru.tags != udce.mdc
      && bpru.rev != ejrs.mdc && bpru.rev != udce.mdc
      && ejrs.reset && !udce.reset && ejrs.ghrSize == udce.ghrSize
      && ejrs.Value() == Trained(FreshEstimator(ejrs.ghrSize), true, seen)
      && udce.Value() == Trained(FreshEstimator(ejrs.ghrSize), false, seen)
    }

    constructor (c: RtConfig, ghrSize: nat)
      requires c.Valid() && 0 < ghrSize < 31
      ensures Valid() && seen == []
    {
      bpru := new Bpru(c);
      ejrs := new CounterTable(ghrSize, true);
      udce := new CounterTable(ghrSize, false);
      seen := [];
    }

    /** get_confidence with a threshold of three votes: EJRS is confident and BPRU does not reverse. */
    method GetConfidence(ip: nat, pred: bool) returns (confident: bool)
      requires Valid()
      modifies bpru, bpru.tags, bpru.rev
      ensures Valid() && confident == (Confident(ejrs.Value(), ip, pred) && !bpru.wasReversed)
      ensures bpru.wasReversed == Reverses(bpru.c, old(bpru.tags[..]), old(bpru.rev[..]), ip)
    {
      hide Trained, Reverses, SlotOf, TagOf, Entry, Shifted, LookedTags, LookedRev;
      var p := bpru.ReversePrediction(ip, pred);
      var raw1 := if p == pred then 1 else 0;
      var raw2 := ejrs.GetConfidence(ip, pred);
      var raw3 := udce.GetConfidence(ip, pred);
      ThreeEstimatorsIgnoreUdce(ejrs.ghrSize, seen, ip, pred, p == pred);
      confident := raw1 + raw2 + raw3 >= 3;
    }

    /** get_confidence of the composite of EJRS and UDCE, with a threshold of two votes. */
    method GetConfidenceOfTwo(ip: nat, pred: bool) returns (confident: bool)
      requires Valid()
      ensures confident == Confident(ejrs.Value(), ip, pred)
    {
      var raw2 := ejrs.GetConfidence(ip, pred);
      var raw3 := udce.GetConfidence(ip, pred);
      TwoEstimatorsAreEjrs(ejrs.ghrSize, seen, ip, pred);
      confident := raw2 + raw3 >= 2;
    }

    /** update_confidence_estimators. */
    method UpdateEstimators(ip: nat, taken: bool, lastPred: bool)
      requires Valid()
      modifies this, bpru.rev, ejrs, ejrs.mdc, udce, udce.mdc
      ensures Valid() && seen == old(seen) + [Branch(ip, taken, lastPred)]
      ensures bpru.rev[..] == CountedRev(bpru.c, bpru.tags[..], old(bpru.rev[..]), ip, bpru.wasReversed, bpru.recentPrediction, taken)
    {
      hide Updated, SlotOf, Shifted, CountedRev, Trained;
      TrainedOneMore(ejrs.ghrSize, true, seen, Branch(ip, taken, lastPred));
      TrainedOneMore(ejrs.ghrSize, false, seen, Branch(ip, taken, lastPred));
      bpru.UpdateRt(ip, taken);
      ejrs.UpdateTable(ip, taken, lastPred);
      udce.UpdateTable(ip, taken, lastPred);
      seen := seen + [Branch(ip, taken, lastPred)];
    }
  }
}
