/** The ranks of a least-recently-used policy: 0 is the most recent, each rank is held once. */
module LruRanks {
  import opened Common

  ghost predicate Permutation(r: seq<nat>) {
    Distinct(r) && forall i :: 0 <= i < |r| ==> r[i] < |r|
  }

  /** lru_update: entry `w` becomes the most recent, all that were more recent than it age by one. */
  function Touch(r: seq<nat>, w: nat): (t: seq<nat>)
    requires w < |r|
    ensures |t| == |r|
    ensures forall i :: 0 <= i < |r| ==> t[i] == if i == w then 0 else if r[i] < r[w] then r[i] + 1 else r[i]
  {
    seq(|r|, i requires 0 <= i < |r| => if i == w then 0 else if r[i] < r[w] then r[i] + 1 else r[i])
  }

  lemma TouchKeepsPermutation(r: seq<nat>, w: nat)
    requires Permutation(r) && w < |r|
    ensures Permutation(Touch(r, w))
  {
  }

  /** Every rank is held, in particular the last one: a victim is always found. */
  lemma EveryRankHeld(r: seq<nat>, k: nat)
    requires Permutation(r) && k < |r|
    ensures exists i :: 0 <= i < |r| && r[i] == k
  {
    if forall i :: 0 <= i < |r| ==> r[i] != k {
      var q := seq(|r|, i requires 0 <= i < |r| => if r[i] > k then (r[i] - 1) as nat else r[i]);
      assert Distinct(q);
      DistinctBelow(q, |r| - 1);
    }
  }
}
