/** When a set holds all that a set with fewer ways holds. */
module LruInclusion {
  import opened LruRanks
  import opened LruSet

  // ----- if no write-back hits the larger set

  lemma RecentInBoth(ways: nat, more: nat, h: seq<Access>, x: nat)
    requires 0 < ways <= more && WritebacksMiss(ways, h) && WritebacksMiss(more, h) && Hits(Run(ways, h), x)
    ensures Hits(Run(more, h), x)
  {
    HoldsMostRecent(ways, h, x);
    HoldsMostRecent(more, h, x);
    var st := Stack(h);
    var k :| 0 <= k < Least(ways, |st|) && st[..Least(ways, |st|)][k] == x;
    assert st[..Least(more, |st|)][k] == x;
  }

  /** A write-back that misses the larger set misses the smaller one. */
  lemma {:induction false} MissInFewerWays(ways: nat, more: nat, h: seq<Access>)
    requires 0 < ways <= more && WritebacksMiss(more, h)
    ensures WritebacksMiss(ways, h)
    decreases |h|
  {
    if |h| > 0 {
      var before, a := h[..|h| - 1], h[|h| - 1];
      MissInFewerWays(ways, more, before);
      if a.writeback && Hits(Run(ways, before), a.tag) { RecentInBoth(ways, more, before, a.tag); }
    }
  }

  /** Inclusion: as long as no write-back hits the larger set, it holds what the set with fewer ways holds. */
  lemma MoreWaysHoldMore(ways: nat, more: nat, h: seq<Access>, x: nat)
    requires 0 < ways <= more && WritebacksMiss(more, h) && Hits(Run(ways, h), x)
    ensures Hits(Run(more, h), x)
  {
    MissInFewerWays(ways, more, h);
    RecentInBoth(ways, more, h, x);
  }

  /** More ways never add a miss. */
  lemma {:induction false} MoreWaysNeverMissMore(ways: nat, more: nat, h: seq<Access>)
    requires 0 < ways <= more && WritebacksMiss(more, h)
    ensures Misses(more, h) <= Misses(ways, h)
    decreases |h|
  {
    if |h| > 0 {
      var before, t := h[..|h| - 1], h[|h| - 1].tag;
      MoreWaysNeverMissMore(ways, more, before);
      if Hits(Run(ways, before), t) { MoreWaysHoldMore(ways, more, before, t); }
    }
  }

  // ----- one way

  lemma HitIff(s: seq<Block>, x: nat)
    ensures Hits(s, x) <==> exists w :: 0 <= w < |s| && s[w].valid && s[w].tag == x
  {
  }

  /** The set after one more access. */
  lemma OneMore(ways: nat, h: seq<Access>, a: Access)
    ensures Run(ways, h + [a]) == After(Run(ways, h), a)
  {
    assert (h + [a])[..|h + [a]| - 1] == h;
  }

  /** What a miss leaves: the new tag in the victim's way, as the most recent, and the other ways as they were but for ranks. */
  lemma MissLeaves(s: seq<Block>, a: Access)
    requires !Hits(s, a.tag) && Victim(s) < |s|
    ensures var v, r := Victim(s), After(s, a);
            && r[v] == Block(true, a.tag, 0)
            && forall i | 0 <= i < |s| && i != v :: r[i].valid == s[i].valid && r[i].tag == s[i].tag
  {
  }

  /** A set holds the tag accessed last. */
  lemma LastIsHeld(s: seq<Block>, a: Access)
    requires Victim(s) < |s|
    ensures Hits(After(s, a), a.tag)
  {
    HitIff(s, a.tag);
    HitIff(After(s, a), a.tag);
    if Hits(s, a.tag) {
      var w := HitFrom(s, a.tag, 0);
      assert After(s, a)[w].valid && After(s, a)[w].tag == a.tag;
    } else {
      MissLeaves(s, a);
    }
  }

  /** A single way holds nothing but the tag accessed last. */
  lemma OneWayIncluded(more: nat, h: seq<Access>, x: nat)
    requires 0 < more && Hits(Run(1, h), x)
    ensures Hits(Run(more, h), x)
  {
    if |h| > 0 {
      var before, a := h[..|h| - 1], h[|h| - 1];
      RanksArePermutation(1, before);
      RanksArePermutation(more, before);
      LastIsHeld(Run(1, before), a);
      LastIsHeld(Run(more, before), a);
      HitIff(Run(1, h), x);
      HitIff(Run(1, h), a.tag);
    }
  }

  // ----- two ways and more

  /** The tags 1 to `n` are used in turn. */
  function Uses(n: nat): seq<Access> {
    if n == 0 then [] else Uses(n - 1) + [Access(n, false)]
  }

  lemma {:induction false} UsesOnly(ways: nat, n: nat)
    ensures WritebacksMiss(ways, Uses(n))
  {
    if n > 0 {
      UsesOnly(ways, n - 1);
      assert Uses(n)[..|Uses(n)| - 1] == Uses(n - 1);
    }
  }

  lemma StackGrows(h: seq<Access>, a: Access)
    ensures Stack(h + [a]) == [a.tag] + Without(Stack(h), a.tag)
  {
    assert (h + [a])[..|h + [a]| - 1] == h;
  }

  lemma {:induction false} StackOfUses(n: nat)
    ensures |Stack(Uses(n))| == n && forall i :: 0 <= i < n ==> Stack(Uses(n))[i] == n - i
  {
    hide Without;
    if n > 0 {
      StackOfUses(n - 1);
      StackGrows(Uses(n - 1), Access(n, false));
      NoneLeft(Stack(Uses(n - 1)), n);
    }
  }

  /** A set of at most `n` ways after the uses: full, each way with the tag of its rank. */
  lemma AfterUses(ways: nat, n: nat)
    requires 0 < ways <= n
    ensures var s := Run(ways, Uses(n));
            && Permutation(Ranks(s)) && Victim(s) < ways
            && forall w :: 0 <= w < ways ==> s[w].valid && s[w].lru < ways && s[w].tag == n - s[w].lru
  {
    UsesOnly(ways, n);
    StackOfUses(n);
    RunMatches(ways, Uses(n));
    RanksArePermutation(ways, Uses(n));
  }

  /** The smaller set does not hold tag 1 any more; the write-back fills it, as the most recent one. */
  lemma SmallerKeeps(ways: nat, n: nat)
    requires 2 <= ways < n
    ensures Hits(Run(ways, Uses(n) + [Access(1, true)] + [Access(n + 1, false)]), 1)
  {
    hide Run, Uses;
    AfterUses(ways, n);
    var s, a, b := Run(ways, Uses(n)), Access(1, true), Access(n + 1, false);
    var m := After(s, a);
    OneMore(ways, Uses(n), a);
    OneMore(ways, Uses(n) + [a], b);
    RanksArePermutation(ways, Uses(n) + [a]);
    MissLeaves(s, a);
    HitIff(m, n + 1);
    assert !Hits(m, n + 1);
    MissLeaves(m, b);
    assert InvalidFrom(m, 0) == ways;
    assert Victim(m) != Victim(s);
    HitIff(After(m, b), 1);
    assert After(m, b)[Victim(s)].tag == 1;
  }

  /** In the larger set the write-back hits, leaves tag 1 the least recent one, and the next miss takes its way. */
  lemma LargerLoses(n: nat)
    requires 2 <= n
    ensures !Hits(Run(n, Uses(n) + [Access(1, true)] + [Access(n + 1, false)]), 1)
  {
    hide Run, Uses;
    AfterUses(n, n);
    var s, a, b := Run(n, Uses(n)), Access(1, true), Access(n + 1, false);
    OneMore(n, Uses(n), a);
    OneMore(n, Uses(n) + [a], b);
    EveryRankHeld(Ranks(s), n - 1);
    HitIff(s, 1);
    assert After(s, a) == s;
    HitIff(s, n + 1);
    MissLeaves(s, b);
    var v := Victim(s);
    assert InvalidFrom(s, 0) == n && s[v].lru == n - 1;
    forall w | 0 <= w < n && w != v ensures s[w].tag != 1 { assert Ranks(s)[w] != Ranks(s)[v]; }
    HitIff(After(s, b), 1);
  }

  /** From two ways on, a write-back that hits the larger set only breaks inclusion. */
  lemma WritebacksBreakInclusion(ways: nat, more: nat)
    requires 2 <= ways < more
    ensures var h := Uses(more) + [Access(1, true)] + [Access(more + 1, false)];
            Hits(Run(ways, h), 1) && !Hits(Run(more, h), 1)
  {
    SmallerKeeps(ways, more);
    LargerLoses(more);
  }

  /** The larger set holds what the smaller one holds, after any accesses. */
  ghost predicate Included(ways: nat, more: nat) {
    forall h: seq<Access>, x: nat :: Hits(Run(ways, h), x) ==> Hits(Run(more, h), x)
  }

  /** With write-backs, inclusion is guaranteed exactly for a single way, or the same number of ways. */
  lemma InclusionExact(ways: nat, more: nat)
    requires 0 < ways <= more
    ensures Included(ways, more) <==> ways == 1 || ways == more
  {
    if ways == 1 {
      forall h: seq<Access>, x: nat | Hits(Run(ways, h), x) ensures Hits(Run(more, h), x) { OneWayIncluded(more, h, x); }
    } else if ways < more {
      WritebacksBreakInclusion(ways, more);
    }
  }
}
