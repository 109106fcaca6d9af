/** Half-words as memory: their bits, and the two ways in which inc/set.h keeps a set of numbers in a block of them. */
module FastSets {
  import opened Bits

  const MAX_SIZE: nat := 512
  const SMALL_SIZE: nat := 13
  const SMALLER_SIZE: nat := 6
  const HALVES: nat := 32     // the block of memory, in units of 16 bits

  /** unsigned short int. */
  type Half = x: int | 0 <= x < 0x10000

  function SetBit(h: Half, b: nat): Half
    requires b < 16
  {
    SixteenBits();
    WithBitFits(h, b, 16);
    WithBit(h, b)
  }

  function OrHalf(h: Half, g: Half): Half {
    SixteenBits();
    OrFits(h, g, 16);
    Or(h, g)
  }

  // ----- the two views of the memory

  /** Bit `x` of the block: bit x & 63 of its 64-bit word x >> 6. */
  predicate InBits(mem: seq<Half>, x: nat) {
    x / 64 * 4 + x % 64 / 16 < |mem| && Bit(mem[x / 64 * 4 + x % 64 / 16], x % 64 % 16)
  }

  function BitSet(mem: seq<Half>): set<nat> { set x: nat | x < MAX_SIZE && InBits(mem, x) }

  function ListSet(mem: seq<Half>, n: nat): set<nat>
    requires n <= |mem|
  {
    set i: nat | i < n :: mem[i] as nat
  }

  ghost predicate Ascending(q: seq<int>) { forall i, j :: 0 <= i < j < |q| ==> q[i] < q[j] }

  /** The block with the bit for `x` set. */
  function MarkIn(mem: seq<Half>, x: nat): (r: seq<Half>)
    requires |mem| == HALVES && x < MAX_SIZE
    ensures |r| == HALVES
  {
    mem[x / 64 * 4 + x % 64 / 16 := SetBit(mem[x / 64 * 4 + x % 64 / 16], x % 64 % 16)]
  }

  /** setbit adds exactly its argument. */
  lemma MarkAdds(mem: seq<Half>, x: nat)
    requires |mem| == HALVES && x < MAX_SIZE
    ensures BitSet(MarkIn(mem, x)) == BitSet(mem) + {x}
  {
    forall y: nat | y < MAX_SIZE ensures InBits(MarkIn(mem, x), y) <==> InBits(mem, y) || y == x {
      if y / 64 * 4 + y % 64 / 16 == x / 64 * 4 + x % 64 / 16 {
        BitOfWith(mem[x / 64 * 4 + x % 64 / 16], x % 64 % 16, y % 64 % 16);
        assert x / 16 == x / 64 * 4 + x % 64 / 16 && y / 16 == y / 64 * 4 + y % 64 / 16;
        assert x % 16 == x % 64 % 16 && y % 16 == y % 64 % 16;
      }
    }
  }

  /** The elements of `s` below `n` in ascending order. */
  function Listing(s: set<nat>, n: nat): seq<nat> {
    if n == 0 then [] else Listing(s, n - 1) + (if n - 1 in s then [n - 1] else [])
  }

  /** The listing is ascending and lists exactly the elements below the bound. */
  lemma {:induction false} ListingIsComplete(s: set<nat>, n: nat)
    ensures Ascending(Listing(s, n))
    ensures forall x: nat :: x in Listing(s, n) <==> x in s && x < n
  {
    if n > 0 {
      ListingIsComplete(s, n - 1);
      var front := Listing(s, n - 1);
      forall i | 0 <= i < |front| ensures front[i] < n - 1 { assert front[i] in front; }
    }
  }

  /** An ascending list is the listing of its elements. */
  lemma {:induction false} AscendingIsListing(q: seq<nat>, s: set<nat>, n: nat)
    requires Ascending(q) && forall x: nat :: x in q <==> x in s && x < n
    ensures Listing(s, n) == q
  {
    forall i | 0 <= i < |q| ensures q[i] < n { assert q[i] in q; }
    assert |q| > 0 ==> q[0] < n;
    if n > 0 {
      if n - 1 in s {
        assert n - 1 in q;
        assert forall i :: 0 <= i < |q| ==> q[i] <= q[|q| - 1];
        var front := q[..|q| - 1];
        assert q == front + [n - 1];
        forall x: nat ensures x in front <==> x in s && x < n - 1 {
          if x in front { var i :| 0 <= i < |front| && front[i] == x; assert q[i] < q[|q| - 1]; }
          if x in s && x < n - 1 { assert x in q; }
        }
        AscendingIsListing(front, s, n - 1);
      } else {
        AscendingIsListing(q, s, n - 1);
      }
    }
  }
}
