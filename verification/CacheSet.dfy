/** One set of a cache as it runs: the blocks are an array, and the loops of the replacement policy update their ranks in place. */
module CacheSet {
  import opened LruSet

  class Set {
    const ways: nat
    const blocks: array<Block>
    ghost var history: seq<Access>

    ghost predicate Valid()
      reads this, blocks
    {
      ways > 0 && blocks.Length == ways && blocks[..] == Run(ways, history)
    }

    constructor (ways: nat)
      requires ways > 0
      ensures Valid() && fresh(blocks) && this.ways == ways && history == []
    {
      this.ways := ways;
      blocks := new Block[ways](i requires 0 <= i < ways => Block(false, 0, i));
      history := [];
    }

    /** check_hit. */
    method CheckHit(tag: nat) returns (way: nat)
      requires blocks.Length == ways
      ensures way == HitFrom(blocks[..], tag, 0)
    {
      way := 0;
      while way < ways
        invariant way <= ways && HitFrom(blocks[..], tag, 0) == HitFrom(blocks[..], tag, way)
      {
        if blocks[way].valid && blocks[way].tag == tag { return; }
        way := way + 1;
      }
    }

    /** lru_victim; its check that there is a victim never fails. */
    method LruVictim() returns (way: nat)
      requires Valid()
      ensures way == Victim(blocks[..]) && way < ways
    {
      RanksArePermutation(ways, history);
      way := 0;
      while way < ways
        invariant way <= ways && InvalidFrom(blocks[..], 0) == InvalidFrom(blocks[..], way)
      {
        if !blocks[way].valid { break; }
        way := way + 1;
      }
      if way == ways {
        way := 0;
        while way < ways
          invariant way <= ways && LastRankFrom(blocks[..], 0) == LastRankFrom(blocks[..], way)
        {
          if blocks[way].lru == ways - 1 { break; }
          way := way + 1;
        }
      }
      assert way != ways;
    }

    /** lru_update. */
    method LruUpdate(way: nat)
      requires blocks.Length == ways && way < ways
      modifies blocks
      ensures blocks[..] == Promote(old(blocks[..]), way)
    {
      ghost var s := blocks[..];
      for i := 0 to ways
        invariant forall k :: 0 <= k < ways ==>
                    blocks[k] == if k < i && s[k].lru < s[way].lru then s[k].(lru := s[k].lru + 1) else s[k]
      {
        if blocks[i].lru < blocks[way].lru {
          blocks[i] := blocks[i].(lru := blocks[i].lru + 1);
        }
      }
      blocks[way] := blocks[way].(lru := 0);
    }

    /** update_replacement_state. */
    method UpdateReplacementState(way: nat, writeback: bool, hit: bool)
      requires blocks.Length == ways && way < ways
      modifies blocks
      ensures blocks[..] == if writeback && hit then old(blocks[..]) else Promote(old(blocks[..]), way)
    {
      if writeback {
        if hit { return; }
      }
      LruUpdate(way);
    }

    /** A lookup followed, on a miss, by the fill of the victim. */
    method AccessBlock(tag: nat, writeback: bool) returns (hit: bool)
      requires Valid()
      modifies this, blocks
      ensures Valid() && history == old(history) + [Access(tag, writeback)] && hit == Hits(old(blocks[..]), tag)
    {
      ghost var s := blocks[..];
      var way := CheckHit(tag);
      hit := way < ways;
      if !hit {
        way := LruVictim();
        blocks[way] := blocks[way].(valid := true, tag := tag);
      }
      UpdateReplacementState(way, writeback, hit);
      assert blocks[..] == After(s, Access(tag, writeback));
      history := history + [Access(tag, writeback)];
      assert history[..|history| - 1] == old(history);
    }
  }
}
