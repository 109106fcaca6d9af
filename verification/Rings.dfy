/** The circular arrays of the core: ready-to-execute, ready-to-load, ready-to-store and the store order array. */
module Rings {
  import opened Common

  /** A ring of numbers below `empty`; a free slot holds `empty` itself. */
  class Ring {
    const size: nat
    const empty: nat
    const slots: array<nat>
    var head: nat
    var tail: nat
    ghost var contents: seq<nat>

    ghost predicate Valid()
      reads this, slots
    {
      && slots.Length == size && 0 < size
      && head < size && |contents| <= size
      && tail < size && tail == Wrap(size, head + |contents|)
      && (forall k :: 0 <= k < |contents| ==> contents[k] < empty && slots[Wrap(size, head + k)] == contents[k])
      && (forall i :: 0 <= i < size && AgeFrom(head, size, i) >= |contents| ==> slots[i] == empty)
    }

    constructor (size: nat, empty: nat)
      requires 0 < size
      ensures Valid() && fresh(slots) && this.size == size && this.empty == empty && contents == []
    {
      this.size, this.empty := size, empty;
      slots := new nat[size](_ => empty);
      head, tail, contents := 0, 0, [];
    }

    /** The number at the head, or `empty` if the ring is empty. */
    method Front() returns (x: nat)
      requires Valid()
      ensures x < empty <==> contents != []
      ensures contents != [] ==> x == contents[0]
    {
      x := slots[head];
      if contents != [] { assert slots[Wrap(size, head + 0)] == contents[0]; }
    }

    /** The slot at the tail is free whenever the ring is not full, so nothing is overwritten. */
    method Push(x: nat)
      requires Valid() && x < empty && |contents| < size
      modifies this, slots
      ensures Valid() && contents == old(contents) + [x]
    {
      assert AgeFrom(head, size, tail) == |contents| && slots[tail] == empty;
      slots[tail] := x;
      tail := tail + 1;
      if tail == size { tail := 0; }
      contents := contents + [x];
    }

    method Pop()
      requires Valid() && contents != []
      modifies this, slots
      ensures Valid() && contents == old(contents)[1..]
    {
      ghost var h := head;
      slots[head] := empty;
      head := head + 1;
      if head == size { head := 0; }
      contents := contents[1..];
      forall k | 0 <= k < |contents| ensures slots[Wrap(size, head + k)] == contents[k] {
        assert Wrap(size, head + k) == Wrap(size, h + (k + 1)) != h;
      }
    }
  }
}
