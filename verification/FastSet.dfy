/** The set of inc/set.h as it runs, proved to be a mathematical set under all of its operations. */
module FastSet {
  import opened Bits
  import opened FastSets

  /** The number of 64-bit words that join combines: up to and including the one of bit `n`. */
  function Limit(n: nat): nat { (Or(n, 63) + 1) / 64 }

  lemma OrOdd(n: nat, m: nat)
    ensures Or(n, 2 * m + 1) == 2 * Or(n / 2, m) + 1
  {
  }

  lemma OrSixtyThree(n: nat)
    ensures Or(n, 63) == n / 64 * 64 + 63
  {
    hide Or;
    var a := n / 2;
    var b := a / 2;
    var c := b / 2;
    var d := c / 2;
    var e := d / 2;
    OrOdd(n, 31);
    OrOdd(a, 15);
    OrOdd(b, 7);
    OrOdd(c, 3);
    OrOdd(d, 1);
    OrOdd(e, 0);
    OrWithZero(e / 2);
  }

  /** join stays inside the block exactly if its bound is below the number of bits. */
  lemma LimitFits(n: nat)
    ensures Limit(n) <= MAX_SIZE / 64 <==> n < MAX_SIZE
  {
    OrSixtyThree(n);
  }

  class Set {
    const mem: array<Half>
    var card: nat

    ghost predicate Valid()
      reads this, mem
    {
      && mem.Length == HALVES && card <= SMALL_SIZE
      && (card < SMALL_SIZE ==> Sorted())
    }

    ghost predicate Sorted()
      reads this, mem
    {
      card <= mem.Length && Ascending(mem[..card]) && forall i :: 0 <= i < card ==> mem[i] < MAX_SIZE
    }

    ghost function Elements(): set<nat>
      requires Valid()
      reads this, mem
    {
      if card < SMALL_SIZE then ListSet(mem[..], card) else BitSet(mem[..])
    }

    constructor ()
      ensures Valid() && fresh(mem) && Elements() == {}
    {
      mem := new Half[HALVES](_ => 0);
      card := 0;
    }

    method MarkBit(x: nat)
      requires mem.Length == HALVES && x < MAX_SIZE
      modifies mem
      ensures mem[..] == MarkIn(old(mem[..]), x)
    {
      mem[x / 64 * 4 + x % 64 / 16] := SetBit(mem[x / 64 * 4 + x % 64 / 16], x % 64 % 16);
    }

    method GetBit(x: nat) returns (b: bool)
      requires mem.Length == HALVES && x < MAX_SIZE
      ensures b == (x in BitSet(mem[..]))
    {
      b := Bit(mem[x / 64 * 4 + x % 64 / 16], x % 64 % 16);
    }

    /** insert_small: the list stays sorted and gains `x`. */
    method InsertSmall(x: nat)
      requires mem.Length == HALVES && card < SMALL_SIZE && Sorted() && x < MAX_SIZE
      modifies this, mem
      ensures card <= SMALL_SIZE && Sorted() && ListSet(mem[..], card) == old(ListSet(mem[..], card)) + {x}
      ensures x in old(ListSet(mem[..], card)) ==> card == old(card) && mem[..] == old(mem[..])
    {
      var i := FindPlace(x);
      if i < card && mem[i] == x { return; }
      ghost var q := mem[..];
      ghost var n := card;
      hide ListSet;
      MakeRoom(i);
      mem[i] := x;
      card := card + 1;
      assert mem[..card] == q[..i] + [x] + q[i..n];
      InsertedSet(q, mem[..], n, i, x);
    }

    /** The loop of insert_small that moves the values from position `i` on one place up. */
    method MakeRoom(i: nat)
      requires mem.Length == HALVES && i <= card < SMALL_SIZE
      modifies mem
      ensures mem[..i] == old(mem[..i]) && mem[i + 1..card + 1] == old(mem[i..card])
    {
      ghost var q, n := mem[..], card;
      var j: int := card - 1;
      while j >= i
        invariant i - 1 <= j < card == n
        invariant mem[..j + 2] == q[..j + 2] && mem[j + 2..n + 1] == q[j + 1..n]
        decreases j
      {
        ghost var moved := mem[j + 2..n + 1];
        assert q[j] == q[..j + 2][j] == mem[..j + 2][j] == mem[j];
        mem[j + 1] := mem[j];
        assert mem[j + 1..n + 1] == [q[j]] + moved;
        assert q[j..n] == [q[j]] + q[j + 1..n];
        assert mem[..j + 1] == q[..j + 2][..j + 1];
        j := j - 1;
      }
      assert mem[..i] == mem[..i + 1][..i];
    }

    /** The first position whose value is not below `x`. */
    method FindPlace(x: nat) returns (i: nat)
      requires mem.Length == HALVES && card < SMALL_SIZE && Sorted()
      ensures i <= card && (forall k :: 0 <= k < i ==> mem[k] < x) && (i < card ==> mem[i] >= x)
      ensures x in ListSet(mem[..], card) <==> i < card && mem[i] == x
    {
      i := 0;
      while i < card
        invariant i <= card && forall k :: 0 <= k < i ==> mem[k] < x
      {
        if mem[i] == x { break; }
        if mem[i] > x { break; }
        i := i + 1;
      }
      if x in ListSet(mem[..], card) {
        var k: nat :| k < card && mem[..][k] == x;
        assert i < card && (i < k ==> mem[..card][i] < mem[..card][k]);
      }
    }

    /** smalltobit: the same elements, now as bits. */
    method SmallToBit()
      requires mem.Length == HALVES && card <= SMALL_SIZE && Sorted()
      modifies mem
      ensures BitSet(mem[..]) == old(ListSet(mem[..], card))
    {
      var tmp := mem[..card];
      for i := 0 to HALVES
        invariant forall k :: 0 <= k < i ==> mem[k] == 0
      {
        mem[i] := 0;
      }
      NoBits(mem[..]);
      for i := 0 to card
        invariant BitSet(mem[..]) == ListSet(tmp, i)
      {
        MarkAdds(mem[..], tmp[i]);
        MarkBit(tmp[i]);
        ListGrows(tmp, i);
      }
      SameList(tmp, old(mem[..]), card);
    }

    /** insert. */
    method Insert(x: nat)
      requires Valid() && x < MAX_SIZE
      modifies this, mem
      ensures Valid() && Elements() == old(Elements()) + {x}
      ensures x in old(Elements()) && old(card) < SMALL_SIZE ==> card == old(card) && mem[..] == old(mem[..])
    {
      if card == 0 {
        mem[card] := x;
        card := card + 1;
        ListGrows(mem[..], 0);
      } else if card < SMALL_SIZE {
        InsertSmall(x);
        if card == SMALL_SIZE { SmallToBit(); }
      } else {
        MarkAdds(mem[..], x);
        MarkBit(x);
      }
    }

    /** search_small_linear. */
    method SearchSmallLinear(x: nat) returns (found: bool)
      requires Valid() && card < SMALL_SIZE
      ensures found == (x in Elements())
    {
      for i := 0 to card
        invariant forall k :: 0 <= k < i ==> mem[k] < x
      {
        if mem[i] > x {
          assert forall k :: i < k < card ==> mem[..card][i] < mem[..card][k];
          return false;
        }
        if mem[i] == x { return true; }
      }
      found := false;
    }

    /** search_small: linear for the smallest lists, binary for the others. */
    method SearchSmall(x: nat) returns (found: bool)
      requires Valid() && card < SMALL_SIZE
      ensures found == (x in Elements())
    {
      if card == 0 { return false; }
      if card < SMALLER_SIZE {
        found := SearchSmallLinear(x);
        return;
      }
      ghost var q := mem[..card];
      var begin: int, end: int := 0, card - 1;
      var middle := end / 2;
      while true
        invariant 0 <= begin <= middle <= end < card
        invariant forall k :: 0 <= k < begin ==> q[k] < x
        invariant forall k :: end < k < card ==> x < q[k]
        decreases end - begin
      {
        var y := mem[middle];
        assert y == q[middle];
        if x < y { end := middle - 1; }
        else if x > y { begin := middle + 1; }
        else { return true; }
        if end < begin { break; }
        middle := (begin + end) / 2;
      }
      assert forall k :: 0 <= k < card ==> q[k] != x;
      found := false;
    }

    /** search. */
    method Search(x: nat) returns (found: bool)
      requires Valid() && x < MAX_SIZE
      ensures found == (x in Elements())
    {
      if card == 0 { return false; }
      if card == 1 {
        assert mem[..][0] == mem[0];
        return mem[0] == x;
      }
      if card < SMALL_SIZE {
        found := SearchSmall(x);
      } else {
        found := GetBit(x);
      }
    }

    /** The loop of join over the 64-bit words. */
    method OrWords(other: Set, lim: nat)
      requires mem.Length == HALVES && other.mem.Length == HALVES && lim * 4 <= HALVES && other.mem != mem
      modifies mem
      ensures mem[..] == OrFirst(old(mem[..]), other.mem[..], lim * 4)
    {
      ghost var a := mem[..];
      for i := 0 to lim
        invariant mem[..] == OrFirst(a, other.mem[..], i * 4)
      {
        for k := 0 to 4
          invariant mem[..] == OrFirst(a, other.mem[..], i * 4 + k)
        {
          mem[i * 4 + k] := OrHalf(mem[i * 4 + k], other.mem[i * 4 + k]);
        }
      }
    }

    /** The case of join that `other` is a list. */
    method InsertAll(other: Set)
      requires Valid() && other.Valid() && other.card < SMALL_SIZE && (other == this || other.mem != mem)
      modifies this, mem
      ensures Valid() && Elements() == old(Elements()) + old(other.Elements())
    {
      ghost var q, n := other.mem[..], other.card;
      ghost var before := Elements();
      for i := 0 to other.card
        invariant Valid() && other.card == n && other.mem[..] == q
        invariant Elements() == before + ListSet(q, i)
      {
        ListGrows(q, i);
        assert other == this ==> q[i] as nat in Elements();
        assert Elements() + {q[i] as nat} == before + ListSet(q, i + 1);
        Insert(other.mem[i]);
      }
    }

    /** The case of join that `other` is a bit set. */
    method JoinBits(other: Set, n: nat)
      requires Valid() && other.Valid() && (other == this || other.mem != mem)
      requires other.card == SMALL_SIZE && n < MAX_SIZE
      modifies this, mem
      ensures Valid() && Elements() == old(Elements()) + Within(old(other.Elements()), n / 64 * 64 + 64)
    {
      hide BitSet, ListSet, Sorted;
      var lim := WordLimit(n);
      if card < SMALL_SIZE {
        assert Sorted();
        SmallToBit();
        card := SMALL_SIZE;
      }
      if other != this {
        OrFirstAdds(mem[..], other.mem[..], lim);
        OrWords(other, lim);
      }
    }

    method WordLimit(n: nat) returns (lim: nat)
      requires n < MAX_SIZE
      ensures lim == Limit(n) && lim * 64 == n / 64 * 64 + 64 && lim * 4 <= HALVES
    {
      OrSixtyThree(n);
      lim := Limit(n);
    }

    /**
     join: the union; a bit set contributes only the words up to the one of bit `n`, which is all of
     it if its elements are below `n`.
     */
    method Join(other: Set, n: nat)
      requires Valid() && other.Valid() && (other == this || other.mem != mem)
      requires other.card == SMALL_SIZE ==> n < MAX_SIZE
      modifies this, mem
      ensures Valid()
      ensures Elements() == old(Elements()) + if old(other.card) < SMALL_SIZE then old(other.Elements())
                                              else Within(old(other.Elements()), n / 64 * 64 + 64)
      ensures (forall x :: x in old(other.Elements()) ==> x < n) ==> Elements() == old(Elements()) + old(other.Elements())
    {
      hide Or, Sorted;
      if other.card == 0 {
        assert other.Elements() == {};
      } else if other.card < SMALL_SIZE {
        InsertAll(other);
      } else {
        AllWithin(other.Elements(), n);
        JoinBits(other, n);
      }
    }

    /** One bit of expand. */
    method ExpandBit(v: array<Half>, l: nat, n: nat, found: nat) returns (k: nat)
      requires mem.Length == HALVES && v != mem && l < n <= MAX_SIZE && v.Length >= |Listing(BitSet(mem[..]), n)|
      requires found <= v.Length && v[..found] == Listing(BitSet(mem[..]), l)
      modifies v
      ensures k <= v.Length && v[..k] == Listing(BitSet(mem[..]), l + 1)
    {
      k := found;
      var b := GetBit(l);
      hide BitSet;
      ListingGrows(BitSet(mem[..]), l + 1, n);
      if b {
        v[k] := l;
        k := k + 1;
      }
    }

    /** The inner loop of expand over the bits of one word. */
    method ExpandWord(v: array<Half>, i: nat, n: nat, found: nat) returns (k: nat)
      requires mem.Length == HALVES && v != mem && i < n <= MAX_SIZE && v.Length >= |Listing(BitSet(mem[..]), n)|
      requires found <= v.Length && v[..found] == Listing(BitSet(mem[..]), i)
      modifies v
      ensures k <= v.Length && v[..k] == Listing(BitSet(mem[..]), if i + 64 < n then i + 64 else n)
    {
      k := found;
      hide BitSet, Listing;
      for j := 0 to 64
        invariant i + j <= n && k <= v.Length && v[..k] == Listing(BitSet(mem[..]), i + j)
      {
        if i + j < n {
          k := ExpandBit(v, i + j, n, k);
        } else {
          return;
        }
      }
    }

    /** The loops of expand over the words and bits of a bit set. */
    method ExpandBits(v: array<Half>, n: nat) returns (k: nat)
      requires mem.Length == HALVES && v != mem && n <= MAX_SIZE && v.Length >= |Listing(BitSet(mem[..]), n)|
      modifies v
      ensures k <= v.Length && v[..k] == Listing(BitSet(mem[..]), n)
    {
      hide InBits;
      k := 0;
      var i := 0;
      while i < n
        invariant i % 64 == 0 && k <= v.Length && v[..k] == Listing(BitSet(mem[..]), if i < n then i else n)
      {
        var w := i / 64;
        if mem[w * 4] != 0 || mem[w * 4 + 1] != 0 || mem[w * 4 + 2] != 0 || mem[w * 4 + 3] != 0 {
          k := ExpandWord(v, i, n, k);
        } else {
          EmptyWord(mem[..], w, if i + 64 < n then i + 64 else n);
        }
        i := i + 64;
      }
    }

    /** The case of expand that the set is a list. */
    method ExpandList(v: array<Half>) returns (k: nat)
      requires Valid() && card < SMALL_SIZE && v != mem && v.Length >= |Listing(Elements(), MAX_SIZE)|
      modifies v
      ensures k <= v.Length && v[..k] == Listing(Elements(), MAX_SIZE)
    {
      SortedListing(mem[..], card);
      assert mem[..][..card] == mem[..card];
      ghost var q := mem[..card];
      for i := 0 to card
        invariant v[..i] == q[..i]
      {
        assert q[..i + 1] == q[..i] + [q[i]];
        v[i] := mem[i];
      }
      return card;
    }

    /** expand: the elements in ascending order, all of a list, and those of a bit set that are below `n`. */
    method Expand(v: array<Half>, n: nat) returns (k: nat)
      requires Valid() && v != mem && n <= MAX_SIZE
      requires v.Length >= |Listing(Elements(), if card < SMALL_SIZE then MAX_SIZE else n)|
      modifies v
      ensures k <= v.Length && v[..k] == Listing(Elements(), if card < SMALL_SIZE then MAX_SIZE else n)
    {
      hide Sorted, BitSet, Listing;
      if card < SMALL_SIZE {
        k := ExpandList(v);
      } else {
        k := ExpandBits(v, n);
      }
    }
  }

  function Within(s: set<nat>, n: nat): set<nat> { set x | x in s && x < n }

  lemma AllWithin(s: set<nat>, n: nat)
    ensures (forall x :: x in s ==> x < n) ==> Within(s, n / 64 * 64 + 64) == s
  {
  }

  /** The first `h` half-words of `a` combined with those of `b`. */
  function OrFirst(a: seq<Half>, b: seq<Half>, h: nat): (r: seq<Half>)
    requires h <= |a| == |b|
    ensures |r| == |a| && forall i :: 0 <= i < |a| ==> r[i] == if i < h then OrHalf(a[i], b[i]) else a[i]
  {
    seq(|a|, i requires 0 <= i < |a| => if i < h then OrHalf(a[i], b[i]) else a[i])
  }

  lemma OrFirstAdds(a: seq<Half>, b: seq<Half>, lim: nat)
    requires |a| == |b| == HALVES && lim * 4 <= HALVES
    ensures BitSet(OrFirst(a, b, lim * 4)) == BitSet(a) + Within(BitSet(b), lim * 64)
  {
    forall x: nat | x < MAX_SIZE ensures InBits(OrFirst(a, b, lim * 4), x) <==> InBits(a, x) || (InBits(b, x) && x < lim * 64) {
      BitOfOr(a[x / 64 * 4 + x % 64 / 16], b[x / 64 * 4 + x % 64 / 16], x % 64 % 16);
      assert x / 64 * 4 + x % 64 / 16 < lim * 4 <==> x < lim * 64;
    }
  }

  lemma SortedListing(q: seq<Half>, n: nat)
    requires n <= |q| && Ascending(q[..n]) && forall k :: 0 <= k < n ==> q[k] < MAX_SIZE
    ensures q[..n] == Listing(ListSet(q, n), MAX_SIZE)
  {
    forall x: nat ensures x in q[..n] <==> x in ListSet(q, n) && x < MAX_SIZE { ListOf(q, n, x); }
    AscendingIsListing(q[..n], ListSet(q, n), MAX_SIZE);
  }

  lemma {:induction false} ListingGrows(s: set<nat>, m: nat, n: nat)
    requires m <= n
    ensures |Listing(s, m)| <= |Listing(s, n)|
    decreases n
  {
    if m < n { ListingGrows(s, m, n - 1); }
  }

  lemma NoBitInWord(mem: seq<Half>, w: nat, x: nat)
    requires |mem| == HALVES && w * 4 + 3 < HALVES && w * 64 <= x < w * 64 + 64
    requires mem[w * 4] == 0 && mem[w * 4 + 1] == 0 && mem[w * 4 + 2] == 0 && mem[w * 4 + 3] == 0
    ensures x !in BitSet(mem)
  {
    assert x / 64 == w;
    var k, b := x % 64 / 16, x % 64 % 16;
    assert mem[w * 4 + k] == 0;
    BitOfZero(b);
  }

  /** A word without bits adds nothing to the listing. */
  lemma {:induction false} EmptyWord(mem: seq<Half>, w: nat, n: nat)
    requires |mem| == HALVES && w * 4 + 3 < HALVES && w * 64 <= n <= w * 64 + 64
    requires mem[w * 4] == 0 && mem[w * 4 + 1] == 0 && mem[w * 4 + 2] == 0 && mem[w * 4 + 3] == 0
    ensures Listing(BitSet(mem), n) == Listing(BitSet(mem), w * 64)
    decreases n
  {
    hide BitSet;
    if n > w * 64 {
      EmptyWord(mem, w, n - 1);
      NoBitInWord(mem, w, n - 1);
    }
  }

  lemma ListGrows(q: seq<Half>, i: nat)
    requires i < |q|
    ensures ListSet(q, i + 1) == ListSet(q, i) + {q[i] as nat}
  {
  }

  lemma SameList(q: seq<Half>, r: seq<Half>, n: nat)
    requires n <= |q| && n <= |r| && forall i :: 0 <= i < n ==> q[i] == r[i]
    ensures ListSet(q, n) == ListSet(r, n)
  {
  }

  lemma NoBits(mem: seq<Half>)
    requires forall k :: 0 <= k < |mem| ==> mem[k] == 0
    ensures BitSet(mem) == {}
  {
    forall x: nat ensures !InBits(mem, x) { BitOfZero(x % 64 % 16); }
  }

  lemma ListOf(q: seq<Half>, n: nat, y: nat)
    requires n <= |q|
    ensures y in ListSet(q, n) <==> y in q[..n]
  {
    if k: nat :| k < n && q[k] == y { assert q[..n][k] == y; }
  }

  /** Inserting `x` at position `i` of the first `n` values. */
  lemma InsertedSet(q: seq<Half>, r: seq<Half>, n: nat, i: nat, x: nat)
    requires i <= n <= |q| && n < |r| && x < MAX_SIZE
    requires r[..n + 1] == q[..i] + [x] + q[i..n]
    requires Ascending(q[..n]) && forall k :: 0 <= k < n ==> q[k] < MAX_SIZE
    requires (forall k :: 0 <= k < i ==> q[k] < x) && (i < n ==> x < q[i])
    ensures ListSet(r, n + 1) == ListSet(q, n) + {x}
    ensures Ascending(r[..n + 1]) && forall k :: 0 <= k < n + 1 ==> r[k] < MAX_SIZE
  {
    hide Ascending, ListSet;
    InsertedOrder(q, r, n, i, x);
    assert q[..n] == q[..i] + q[i..n];
    forall y: nat ensures y in ListSet(r, n + 1) <==> y in ListSet(q, n) + {x} {
      ListOf(r, n + 1, y);
      ListOf(q, n, y);
    }
  }

  lemma InsertedOrder(q: seq<Half>, r: seq<Half>, n: nat, i: nat, x: nat)
    requires i <= n <= |q| && n < |r| && x < MAX_SIZE
    requires r[..n + 1] == q[..i] + [x] + q[i..n]
    requires Ascending(q[..n]) && forall k :: 0 <= k < n ==> q[k] < MAX_SIZE
    requires (forall k :: 0 <= k < i ==> q[k] < x) && (i < n ==> x < q[i])
    ensures Ascending(r[..n + 1]) && forall k :: 0 <= k < n + 1 ==> r[k] < MAX_SIZE
  {
    forall k | 0 <= k < n + 1 ensures r[k] < MAX_SIZE && (k < i ==> r[k] < x) && (k > i ==> x < r[k]) {
      assert r[..n + 1][k] == r[k];
      if k < i { assert r[k] == q[k]; }
      if k > i { assert r[k] == q[..n][k - 1] && (k - 1 > i ==> q[..n][i] < q[..n][k - 1]); }
    }
    var s := r[..n + 1];
    forall k, l | 0 <= k < l < |s| ensures s[k] < s[l] {
      assert s[k] == r[k] && s[l] == r[l];
      if l < i { assert r[k] == q[..n][k] && r[l] == q[..n][l]; }
      if k > i { assert r[k] == q[..n][k - 1] && r[l] == q[..n][l - 1]; }
    }
  }
}
