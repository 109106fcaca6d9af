/** One set of a cache under the least-recently-used policy, with every access looked up and filled at once. */
module LruSet {
  import opened Common
  import opened LruRanks

  datatype Block = Block(valid: bool, tag: nat, lru: nat)

  /** An access to the set; a write-back that hits does not count as a use. */
  datatype Access = Access(tag: nat, writeback: bool)

  function Ranks(set_: seq<Block>): (r: seq<nat>)
    ensures |r| == |set_| && forall i :: 0 <= i < |r| ==> r[i] == set_[i].lru
  {
    seq(|set_|, i requires 0 <= i < |set_| => set_[i].lru)
  }

  /** check_hit: the first way from `i` on that holds `tag`. */
  function HitFrom(set_: seq<Block>, tag: nat, i: nat): (r: nat)
    requires i <= |set_|
    ensures i <= r <= |set_|
    ensures r < |set_| ==> set_[r].valid && set_[r].tag == tag
    ensures forall k :: i <= k < r ==> !(set_[k].valid && set_[k].tag == tag)
    decreases |set_| - i
  {
    if i == |set_| || (set_[i].valid && set_[i].tag == tag) then i else HitFrom(set_, tag, i + 1)
  }

  function InvalidFrom(set_: seq<Block>, i: nat): (r: nat)
    requires i <= |set_|
    ensures i <= r <= |set_|
    ensures r < |set_| ==> !set_[r].valid
    ensures forall k :: i <= k < r ==> set_[k].valid
    decreases |set_| - i
  {
    if i == |set_| || !set_[i].valid then i else InvalidFrom(set_, i + 1)
  }

  function LastRankFrom(set_: seq<Block>, i: nat): (r: nat)
    requires i <= |set_|
    ensures i <= r <= |set_|
    ensures r < |set_| ==> set_[r].lru == |set_| - 1
    ensures forall k :: i <= k < r ==> set_[k].lru != |set_| - 1
    decreases |set_| - i
  {
    if i == |set_| || set_[i].lru == |set_| - 1 then i else LastRankFrom(set_, i + 1)
  }

  /** lru_victim: an invalid way, or else the way of the last rank; |set_| if there is none. */
  function Victim(set_: seq<Block>): (r: nat)
    ensures r <= |set_|
  {
    if InvalidFrom(set_, 0) < |set_| then InvalidFrom(set_, 0) else LastRankFrom(set_, 0)
  }

  /** lru_update. */
  function Promote(set_: seq<Block>, w: nat): (r: seq<Block>)
    requires w < |set_|
    ensures |r| == |set_| && Ranks(r) == Touch(Ranks(set_), w)
    ensures forall i :: 0 <= i < |r| ==> r[i] == set_[i].(lru := Touch(Ranks(set_), w)[i])
  {
    seq(|set_|, i requires 0 <= i < |set_| => set_[i].(lru := Touch(Ranks(set_), w)[i]))
  }

  /** One access: on a hit only the ranks change, on a miss the victim is filled. */
  function After(set_: seq<Block>, a: Access): (r: seq<Block>)
    ensures |r| == |set_|
  {
    var w := HitFrom(set_, a.tag, 0);
    var v := Victim(set_);
    if w < |set_| then (if a.writeback then set_ else Promote(set_, w))
    else if v < |set_| then Promote(set_[v := set_[v].(valid := true, tag := a.tag)], v)
    else set_
  }

  function Fresh(ways: nat): seq<Block> { seq(ways, i requires 0 <= i < ways => Block(false, 0, i)) }

  /** The set after the accesses `h`. */
  function Run(ways: nat, h: seq<Access>): (r: seq<Block>)
    ensures |r| == ways
    decreases |h|
  {
    if |h| == 0 then Fresh(ways) else After(Run(ways, h[..|h| - 1]), h[|h| - 1])
  }

  predicate Hits(set_: seq<Block>, tag: nat) { HitFrom(set_, tag, 0) < |set_| }

  function Misses(ways: nat, h: seq<Access>): nat
    decreases |h|
  {
    if |h| == 0 then 0
    else Misses(ways, h[..|h| - 1]) + if Hits(Run(ways, h[..|h| - 1]), h[|h| - 1].tag) then 0 else 1
  }

  /** In every reachable state the ranks are a permutation and a victim is found. */
  lemma {:induction false} RanksArePermutation(ways: nat, h: seq<Access>)
    requires ways > 0
    ensures Permutation(Ranks(Run(ways, h))) && Victim(Run(ways, h)) < ways
    decreases |h|
  {
    var s := Run(ways, h);
    if |h| > 0 {
      var m := Run(ways, h[..|h| - 1]);
      RanksArePermutation(ways, h[..|h| - 1]);
      var w, v := HitFrom(m, h[|h| - 1].tag, 0), Victim(m);
      if w < ways {
        TouchKeepsPermutation(Ranks(m), w);
      } else {
        var filled := m[v := m[v].(valid := true, tag := h[|h| - 1].tag)];
        assert Ranks(filled) == Ranks(m);
        TouchKeepsPermutation(Ranks(m), v);
      }
    }
    EveryRankHeld(Ranks(s), ways - 1);
  }

  // ----- the most recently used tags

  function Without(q: seq<nat>, x: nat): (r: seq<nat>)
    ensures forall y :: y in r <==> y in q && y != x
  {
    if |q| == 0 then [] else (if q[0] == x then [] else [q[0]]) + Without(q[1..], x)
  }

  /** The tags used by `h`, the most recently used first. */
  function Stack(h: seq<Access>): seq<nat>
    decreases |h|
  {
    if |h| == 0 then [] else [h[|h| - 1].tag] + Without(Stack(h[..|h| - 1]), h[|h| - 1].tag)
  }

  /** One more than the position of the last use of tag `x`, or 0. */
  function LastUse(h: seq<Access>, x: nat): (r: nat)
    ensures r <= |h|
    decreases |h|
  {
    if |h| == 0 then 0 else if h[|h| - 1].tag == x then |h| else LastUse(h[..|h| - 1], x)
  }

  lemma {:induction false} WithoutOrder(q: seq<nat>, x: nat, i: nat, j: nat)
    requires i < j < |Without(q, x)|
    ensures exists k, l :: 0 <= k < l < |q| && q[k] == Without(q, x)[i] && q[l] == Without(q, x)[j]
  {
    var r := Without(q, x);
    if q[0] == x {
      WithoutOrder(q[1..], x, i, j);
      var k, l :| 0 <= k < l < |q[1..]| && q[1..][k] == r[i] && q[1..][l] == r[j];
      assert q[k + 1] == r[i] && q[l + 1] == r[j];
    } else if i == 0 {
      assert r[j] in Without(q[1..], x) && r[j] in q[1..];
      var l :| 0 <= l < |q[1..]| && q[1..][l] == r[j];
      assert q[0] == r[0] && q[l + 1] == r[j];
    } else {
      WithoutOrder(q[1..], x, i - 1, j - 1);
      var k, l :| 0 <= k < l < |q[1..]| && q[1..][k] == r[i] && q[1..][l] == r[j];
      assert q[k + 1] == r[i] && q[l + 1] == r[j];
    }
  }

  /** Earlier in the list means used later. */
  ghost predicate ByRecency(h: seq<Access>, st: seq<nat>) {
    forall i, j :: 0 <= i < j < |st| ==> LastUse(h, st[i]) > LastUse(h, st[j])
  }

  lemma MoveKeepsRecency(before: seq<Access>, h: seq<Access>, st: seq<nat>, t: nat)
    requires |h| == |before| + 1 && h[..|before|] == before && h[|before|].tag == t && ByRecency(before, st)
    ensures ByRecency(h, [t] + Without(st, t))
  {
    var r := Without(st, t);
    forall i, j | 0 <= i < j < |r| ensures LastUse(h, r[i]) > LastUse(h, r[j]) {
      assert r[i] in r && r[j] in r;
      WithoutOrder(st, t, i, j);
    }
    forall j | 0 <= j < |r| ensures LastUse(h, t) > LastUse(h, r[j]) { assert r[j] in r; }
  }

  /** The stack has every used tag once, ordered by last use. */
  lemma {:induction false} StackIsByRecency(h: seq<Access>)
    ensures ByRecency(h, Stack(h))
    ensures forall x :: x in Stack(h) <==> LastUse(h, x) > 0
    decreases |h|
  {
    if |h| > 0 {
      var before, t := h[..|h| - 1], h[|h| - 1].tag;
      StackIsByRecency(before);
      MoveKeepsRecency(before, h, Stack(before), t);
    }
  }

  lemma {:induction false} StackDistinct(h: seq<Access>)
    ensures Distinct(Stack(h))
  {
    StackIsByRecency(h);
  }

  /** Where the parts of a list end up when `x` moves to its front. */
  lemma {:induction false} WithoutAt(q: seq<nat>, x: nat, k: nat)
    requires Distinct(q) && k <= |q| && (k < |q| ==> q[k] == x) && (k == |q| ==> x !in q)
    ensures var r := Without(q, x);
            && |r| == (if k < |q| then |q| - 1 else |q|)
            && forall j :: 0 <= j < |r| ==> r[j] == q[if j < k then j else j + 1]
  {
    if |q| > 0 {
      forall i, j | 0 <= i < j < |q[1..]| ensures q[1..][i] != q[1..][j] { assert q[i + 1] != q[j + 1]; }
      if k == 0 {
        NoneLeft(q[1..], x);
      } else {
        WithoutAt(q[1..], x, k - 1);
      }
    }
  }

  lemma {:induction false} NoneLeft(q: seq<nat>, x: nat)
    requires x !in q
    ensures Without(q, x) == q
  {
    if |q| > 0 {
      NoneLeft(q[1..], x);
      assert q == [q[0]] + q[1..];
    }
  }

  function Least(a: nat, b: nat): nat { if a < b then a else b }

  /** The set holds the first tags of the list `st`, each at its rank; the ways without a tag are the last ones. */
  ghost predicate Matches(set_: seq<Block>, st: seq<nat>) {
    var v := Least(|set_|, |st|);
    && (forall w :: 0 <= w < |set_| ==> (set_[w].valid <==> w < v))
    && (forall w :: 0 <= w < v ==> set_[w].lru < v && set_[w].tag == st[set_[w].lru])
    && (forall w :: v <= w < |set_| ==> set_[w].lru == w)
  }

  /** Tag `x` is in the set exactly if it is among the first tags of the list. */
  lemma HitMeaning(set_: seq<Block>, st: seq<nat>, x: nat)
    requires Matches(set_, st) && Permutation(Ranks(set_))
    ensures Hits(set_, x) <==> x in st[..Least(|set_|, |st|)]
  {
    var v := Least(|set_|, |st|);
    if k: nat :| k < v && st[k] == x {
      EveryRankHeld(Ranks(set_), k);
    }
    if x in st[..v] {
      var k :| 0 <= k < v && st[..v][k] == x;
      EveryRankHeld(Ranks(set_), k);
    }
  }

  /** The list with `t` moved to its front from position `k`, or put there. */
  lemma MovedToFront(st: seq<nat>, t: nat, k: nat)
    requires Distinct(st) && k <= |st| && (k < |st| ==> st[k] == t) && (k == |st| ==> t !in st)
    ensures var r := [t] + Without(st, t);
            && r[0] == t && |r| == (if k < |st| then |st| else |st| + 1)
            && (forall j :: 0 <= j < k ==> r[j + 1] == st[j])
            && (forall j :: k < j < |st| ==> r[j] == st[j])
  {
    WithoutAt(st, t, k);
  }

  lemma HitMatches(set_: seq<Block>, st: seq<nat>, t: nat, w: nat)
    requires Matches(set_, st) && Distinct(st) && w < |set_| && set_[w].valid && set_[w].tag == t && Permutation(Ranks(set_))
    ensures Matches(Promote(set_, w), [t] + Without(st, t))
  {
    var k, r, p := set_[w].lru, [t] + Without(st, t), Promote(set_, w);
    MovedToFront(st, t, k);
    forall i | 0 <= i < Least(|set_|, |st|) ensures p[i].lru < Least(|set_|, |st|) && p[i].tag == r[p[i].lru] {
      if i != w { assert Ranks(set_)[i] != Ranks(set_)[w]; }
    }
  }

  /** The position of `t` in the list, past the tags in the set. */
  lemma PositionBehind(st: seq<nat>, t: nat, v: nat) returns (k: nat)
    requires v <= |st| && t !in st[..v]
    ensures v <= k <= |st| && (k < |st| ==> st[k] == t) && (k == |st| ==> t !in st)
  {
    forall j | 0 <= j < v ensures st[j] != t { assert st[..v][j] in st[..v]; }
    if t in st {
      k :| 0 <= k < |st| && st[k] == t;
    } else {
      k := |st|;
    }
  }

  lemma VictimRank(set_: seq<Block>, st: seq<nat>, v: nat)
    requires Matches(set_, st) && v < |set_| && v == Victim(set_)
    ensures set_[v].lru == Least(|set_| - 1, |st|)
    ensures if |st| < |set_| then v == |st| else forall w :: 0 <= w < |set_| ==> set_[w].valid
  {
    var f := InvalidFrom(set_, 0);
    if |st| < |set_| {
      assert !set_[|st|].valid;
      assert f == |st|;
    }
  }

  /** Filling way `v`, of rank `x`, and promoting it: the others of smaller rank age by one. */
  lemma FilledWays(set_: seq<Block>, v: nat, t: nat)
    requires v < |set_| && Permutation(Ranks(set_))
    ensures var p := Promote(set_[v := set_[v].(valid := true, tag := t)], v);
            && |p| == |set_| && p[v] == Block(true, t, 0)
            && (forall i | 0 <= i < |set_| && i != v ::
                  && set_[i].lru != set_[v].lru
                  && p[i] == set_[i].(lru := if set_[i].lru < set_[v].lru then set_[i].lru + 1 else set_[i].lru))
  {
    var filled := set_[v := set_[v].(valid := true, tag := t)];
    assert Ranks(filled) == Ranks(set_);
    forall i | 0 <= i < |set_| && i != v ensures set_[i].lru != set_[v].lru { assert Ranks(set_)[i] != Ranks(set_)[v]; }
  }

  lemma FillMatches(set_: seq<Block>, st: seq<nat>, t: nat, v: nat)
    requires Matches(set_, st) && Distinct(st) && v < |set_| && Permutation(Ranks(set_))
    requires t !in st[..Least(|set_|, |st|)]
    requires v == Victim(set_)
    ensures Matches(Promote(set_[v := set_[v].(valid := true, tag := t)], v), [t] + Without(st, t))
  {
    hide Victim, Without, Promote, Permutation, Distinct;
    var k := PositionBehind(st, t, Least(|set_|, |st|));
    MovedToFront(st, t, k);
    VictimRank(set_, st, v);
    FilledWays(set_, v, t);
  }

  /** Whatever writes back to the set misses it, so that every access is a use. */
  ghost predicate WritebacksMiss(ways: nat, h: seq<Access>)
    decreases |h|
  {
    |h| == 0 || (WritebacksMiss(ways, h[..|h| - 1])
                 && (h[|h| - 1].writeback ==> !Hits(Run(ways, h[..|h| - 1]), h[|h| - 1].tag)))
  }

  /** If no write-back hits, way `w` of the set holds the tag whose recency is the way's rank. */
  lemma {:induction false} RunMatches(ways: nat, h: seq<Access>)
    requires ways > 0 && WritebacksMiss(ways, h)
    ensures Matches(Run(ways, h), Stack(h))
    decreases |h|
  {
    if |h| > 0 {
      var before, t := h[..|h| - 1], h[|h| - 1].tag;
      var m, st := Run(ways, before), Stack(before);
      RunMatches(ways, before);
      RanksArePermutation(ways, before);
      StackDistinct(before);
      HitMeaning(m, st, t);
      if Hits(m, t) {
        HitMatches(m, st, t, HitFrom(m, t, 0));
      } else {
        FillMatches(m, st, t, Victim(m));
      }
    }
  }

  /** The set holds exactly the most recently used distinct tags, as many as it has ways. */
  lemma HoldsMostRecent(ways: nat, h: seq<Access>, x: nat)
    requires ways > 0 && WritebacksMiss(ways, h)
    ensures Hits(Run(ways, h), x) <==> x in Stack(h)[..Least(ways, |Stack(h)|)]
  {
    RunMatches(ways, h);
    RanksArePermutation(ways, h);
    HitMeaning(Run(ways, h), Stack(h), x);
  }
}
