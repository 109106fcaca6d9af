/** The page table, its inverse, and how va_to_pa fills and swaps pages. */
module PageAllocation {
  import opened Bits
  import opened PageTables

  const MAX64: nat := 0x1_0000_0000_0000_0000

  /** `queued` is the length of page_queue. */
  datatype State = State(pages: map<nat, nat>, inverse: map<nat, nat>, queued: nat, previous: nat, adjacent: nat, inUse: nat)

  const EMPTY := State(map[], map[], 0, 0, 0, 0)

  /** The tables are inverse to each other, and all counters agree. */
  ghost predicate Ok(s: State, limit: nat) {
    && (forall v: nat :: v in s.pages ==> s.pages[v] in s.inverse && s.inverse[s.pages[v]] == v)
    && (forall p: nat :: p in s.inverse ==> s.inverse[p] in s.pages && s.pages[s.inverse[p]] == p)
    && |s.pages| == |s.inverse| == s.inUse == s.queued <= limit
    && s.adjacent <= 512
  }

  // ----- physical pages from a stream of random numbers

  /** From position `pos` on, the random numbers hit a free page some time. */
  ghost predicate FreeAhead(draws: nat -> nat, pos: nat, taken: set<nat>) {
    exists k: nat :: pos <= k && draws(k) !in taken
  }

  // ----- allocation and swap

  /** num_adjacent_page--, in 64 bits. */
  function Minus(n: nat): nat { (n + MAX64 - 1) % MAX64 }

  /** A new physical page `p` for `v`; after an interruption the next run has 2^r pages. */
  function Mapped(s: State, v: nat, p: nat, fragmented: bool, r: nat): State {
    State(s.pages[v := p], s.inverse[p := v], s.queued + 1, p, if fragmented then Power(r) else Minus(s.adjacent), s.inUse + 1)
  }

  /** The virtual page `victim` loses its physical page to `v`. */
  function Swapped(s: State, v: nat, victim: nat): State
    requires victim in s.pages
  {
    s.(pages := (s.pages - {victim})[v := s.pages[victim]], inverse := s.inverse[s.pages[victim] := v])
  }

  ghost predicate IsSmallest(pages: map<nat, nat>, v: nat) { v in pages && forall u :: u in pages ==> v <= u }

  /** What one call of va_to_pa does to the tables, for virtual page `v`. */
  ghost predicate Translates(s: State, s': State, v: nat, limit: nat, draws: nat -> nat, pos: nat, r: nat) {
    if v in s.pages then s' == s
    else if s.inUse >= limit then exists victim: nat :: IsSmallest(s.pages, victim) && s' == Swapped(s, v, victim)
    else if s.adjacent > 0 && s.previous + 1 !in s.inverse then s' == Mapped(s, v, s.previous + 1, false, r)
    else exists k: nat :: && pos <= k && draws(k) !in s.inverse && (forall i :: pos <= i < k ==> draws(i) in s.inverse)
                          && s' == Mapped(s, v, draws(k), true, r)
  }

  lemma PowersOfRun(r: nat)
    requires r < 10
    ensures 1 <= Power(r) <= 512
  {
    PowerGrows(0, r);
    PowerGrows(r, 9);
    assert Power(4) == 16;
    assert Power(9) == 512;
  }

  lemma MappedOk(s: State, v: nat, p: nat, fragmented: bool, r: nat, limit: nat)
    requires Ok(s, limit) && v !in s.pages && p !in s.inverse && r < 10 && s.inUse < limit
    requires !fragmented ==> s.adjacent > 0
    ensures Ok(Mapped(s, v, p, fragmented, r), limit)
  {
    PowersOfRun(r);
    var s' := Mapped(s, v, p, fragmented, r);
    assert |s'.pages| == |s.pages| + 1 && |s'.inverse| == |s.inverse| + 1;
  }

  lemma SwappedOk(s: State, v: nat, victim: nat, limit: nat)
    requires Ok(s, limit) && v !in s.pages && victim in s.pages
    ensures Ok(Swapped(s, v, victim), limit)
  {
    var s' := Swapped(s, v, victim);
    assert |s.pages - {victim}| == |s.pages| - 1 by {
      assert s.pages == (s.pages - {victim})[victim := s.pages[victim]];
    }
    assert s'.inverse.Keys == s.inverse.Keys;
    assert |s'.inverse| == |s'.inverse.Keys| == |s.inverse.Keys| == |s.inverse|;
  }

  /** Every call keeps the tables inverse to each other and within the memory; num_adjacent_page never stays wrapped around. */
  lemma TranslationKeepsTables(s: State, s': State, v: nat, limit: nat, draws: nat -> nat, pos: nat, r: nat)
    requires Ok(s, limit) && r < 10 && Translates(s, s', v, limit, draws, pos, r)
    ensures Ok(s', limit) && v in s'.pages
  {
    if v in s.pages {
    } else if s.inUse >= limit {
      var victim: nat :| IsSmallest(s.pages, victim) && s' == Swapped(s, v, victim);
      SwappedOk(s, v, victim, limit);
    } else if s.adjacent > 0 && s.previous + 1 !in s.inverse {
      MappedOk(s, v, s.previous + 1, false, r, limit);
    } else {
      var k: nat :| && pos <= k && draws(k) !in s.inverse && s' == Mapped(s, v, draws(k), true, r);
      MappedOk(s, v, draws(k), true, r, limit);
    }
  }

  /** A translation changes no other mapping, except that a full memory takes the page of the smallest virtual page. */
  lemma TranslationKeepsOthers(s: State, s': State, v: nat, limit: nat, draws: nat -> nat, pos: nat, r: nat, u: nat)
    requires Ok(s, limit) && Translates(s, s', v, limit, draws, pos, r) && u in s.pages && u != v
    ensures u in s'.pages ==> s'.pages[u] == s.pages[u]
    ensures u !in s'.pages <==> v !in s.pages && s.inUse == limit && IsSmallest(s.pages, u)
  {
    if v !in s.pages && s.inUse >= limit {
      var victim: nat :| IsSmallest(s.pages, victim) && s' == Swapped(s, v, victim);
    }
  }

  /** Two pages of any cores that are mapped at the same time never share a physical page. */
  lemma CoresNeverShare(s: State, limit: nat, cores: nat, c: nat, d: nat, p: nat, q: nat)
    requires Ok(s, limit) && 0 < cores <= 4096 && Lg(cores) < WIDTH && IsPower(cores)
    requires c < cores && d < cores && p < Power(52) && q < Power(52) && (c, p) != (d, q)
    requires VirtualPage(cores, c, p) in s.pages && VirtualPage(cores, d, q) in s.pages
    ensures s.pages[VirtualPage(cores, c, p)] != s.pages[VirtualPage(cores, d, q)]
  {
    CoresAreSeparate(cores);
  }

  /** Mapping the page that the search found is a translation. */
  lemma FoundTranslates(s: State, v: nat, limit: nat, draws: nat -> nat, pos: nat, r: nat, p: nat, fragmented: bool, next: nat)
    requires v !in s.pages && s.inUse < limit
    requires if s.adjacent > 0 && s.previous + 1 !in s.inverse then p == s.previous + 1 && !fragmented
             else && fragmented && pos < next && p == draws(next - 1) && p !in s.inverse
                  && forall i :: pos <= i < next - 1 ==> draws(i) in s.inverse
    ensures p !in s.inverse && (!fragmented ==> s.adjacent > 0)
    ensures Translates(s, Mapped(s, v, p, fragmented, r), v, limit, draws, pos, r)
  {
    hide Mapped;
    if fragmented { assert pos <= next - 1 && p == draws(next - 1); }
  }

  // ----- runs of adjacent pages

  /** The new page is remembered as the last one, and the run gets shorter by one or starts anew. */
  lemma MappedRemembers(s: State, v: nat, p: nat, fragmented: bool, r: nat)
    requires r < 10 && (!fragmented ==> 0 < s.adjacent <= 512)
    ensures var t := Mapped(s, v, p, fragmented, r);
            && t.pages == s.pages[v := p] && t.inverse == s.inverse[p := v] && t.previous == p
            && t.adjacent == (if fragmented then Power(r) else s.adjacent - 1) && t.inUse == s.inUse + 1
  {
  }

  /** One call, with some position in the random numbers and some exponent. */
  ghost predicate Called(s: State, s': State, v: nat, limit: nat, draws: nat -> nat) {
    exists pos: nat, r: nat | r < 10 :: Translates(s, s', v, limit, draws, pos, r)
  }

  /** One call for each virtual page of `vs`, from `ss[0]` to the last state. */
  ghost predicate Calls(ss: seq<State>, vs: seq<nat>, limit: nat, draws: nat -> nat) {
    |ss| == |vs| + 1 && forall i :: 0 <= i < |vs| ==> Called(ss[i], ss[i + 1], vs[i], limit, draws)
  }

  /** While a run goes on and the next page is free, a new virtual page gets it. */
  lemma NextOfRun(s: State, s': State, v: nat, limit: nat, draws: nat -> nat)
    requires Called(s, s', v, limit, draws) && v !in s.pages && s.inUse < limit
    requires 0 < s.adjacent <= 512 && s.previous + 1 !in s.inverse
    ensures s'.pages == s.pages[v := s.previous + 1] && s'.inverse == s.inverse[s.previous + 1 := v]
    ensures s'.previous == s.previous + 1 && s'.adjacent == s.adjacent - 1 && s'.inUse == s.inUse + 1
  {
    var pos: nat, r: nat :| r < 10 && Translates(s, s', v, limit, draws, pos, r);
    MappedRemembers(s, v, s.previous + 1, false, r);
  }

  /** New virtual pages get the physical pages after the last one, as long as the run goes on and they are free. */
  lemma {:induction false} RunIsContiguous(ss: seq<State>, vs: seq<nat>, limit: nat, draws: nat -> nat)
    requires Calls(ss, vs, limit, draws) && |vs| <= ss[0].adjacent <= 512 && ss[0].inUse + |vs| <= limit
    requires (forall i :: 0 <= i < |vs| ==> vs[i] !in ss[0].pages) && (forall i, j :: 0 <= i < j < |vs| ==> vs[i] != vs[j])
    requires forall p :: ss[0].previous < p <= ss[0].previous + |vs| ==> p !in ss[0].inverse
    ensures var s, t := ss[0], ss[|vs|];
            && t.previous == s.previous + |vs| && t.adjacent == s.adjacent - |vs| && t.inUse == s.inUse + |vs|
            && (forall i :: 0 <= i < |vs| ==> vs[i] in t.pages && t.pages[vs[i]] == s.previous + 1 + i)
            && (forall v :: v in t.pages <==> v in s.pages || v in vs) && (forall v :: v in s.pages ==> t.pages[v] == s.pages[v])
            && (forall p :: p in t.inverse <==> p in s.inverse || s.previous < p <= s.previous + |vs|)
    decreases |vs|
  {
    hide Called;
    if |vs| > 0 {
      var n := |vs| - 1;
      RunIsContiguous(ss[..n + 1], vs[..n], limit, draws);
      var s, m, t := ss[0], ss[n], ss[n + 1];
      assert ss[..n + 1][n] == m && vs == vs[..n] + [vs[n]];
      NextOfRun(m, t, vs[n], limit, draws);
      forall i | 0 <= i < |vs| ensures vs[i] in t.pages && t.pages[vs[i]] == s.previous + 1 + i {
        if i < n { assert vs[..n][i] == vs[i]; }
      }
    }
  }

  lemma SmallestExists(pages: map<nat, nat>)
    requires |pages| > 0
    ensures exists v :: IsSmallest(pages, v)
  {
    var v0 :| v0 in pages;
    SmallestFrom(pages, v0);
  }

  lemma {:induction false} SmallestFrom(pages: map<nat, nat>, v: nat)
    requires v in pages
    ensures exists u :: IsSmallest(pages, u)
    decreases v
  {
    if u: nat :| u in pages && u < v { SmallestFrom(pages, u); } else { assert IsSmallest(pages, v); }
  }

  class PageTable {
    const limit: nat        // DRAM_PAGES
    const cores: nat        // NUM_CPUS
    var pageTable: map<nat, nat>
    var inverseTable: map<nat, nat>
    var queued: nat
    var previousPpage: nat
    var numAdjacentPage: nat
    var allocatedPages: nat

    ghost function St(): State
      reads this
    {
      State(pageTable, inverseTable, queued, previousPpage, numAdjacentPage, allocatedPages)
    }

    ghost predicate Valid()
      reads this
    {
      0 < limit && 0 < cores && Lg(cores) < WIDTH && Ok(St(), limit)
    }

    constructor (limit: nat, cores: nat)
      requires 0 < limit && 0 < cores && Lg(cores) < WIDTH
      ensures Valid() && St() == EMPTY && this.limit == limit && this.cores == cores
    {
      this.limit, this.cores := limit, cores;
      pageTable, inverseTable := map[], map[];
      queued, previousPpage, numAdjacentPage, allocatedPages := 0, 0, 0, 0;
    }

    /** The search for a page that was not used recently: recent_page is never filled, so it is the first one of the map. */
    method FindVictim() returns (victim: nat)
      requires |pageTable| > 0
      ensures IsSmallest(pageTable, victim)
    {
      SmallestExists(pageTable);
      victim :| victim in pageTable && forall u :: u in pageTable ==> victim <= u;
    }

    /** The search for a free physical page: the one after the last, if a run goes on, or else random ones. */
    method FindFree(draws: nat -> nat, pos: nat) returns (p: nat, fragmented: bool, next: nat)
      requires FreeAhead(draws, pos, inverseTable.Keys)
      ensures if numAdjacentPage > 0 && previousPpage + 1 !in inverseTable then p == previousPpage + 1 && !fragmented && next == pos
              else && fragmented && pos < next && p == draws(next - 1) && p !in inverseTable
                   && forall i :: pos <= i < next - 1 ==> draws(i) in inverseTable
    {
      ghost var w: nat :| pos <= w && draws(w) !in inverseTable.Keys;
      next, fragmented := pos, false;
      if numAdjacentPage > 0 {
        p := previousPpage + 1;
      } else {
        p, next, fragmented := draws(pos), pos + 1, true;
      }
      while p in inverseTable
        invariant if next == pos then !fragmented && numAdjacentPage > 0 && p == previousPpage + 1
                  else && fragmented && pos < next <= w + 1 && p == draws(next - 1)
                       && (numAdjacentPage > 0 ==> previousPpage + 1 in inverseTable)
        invariant forall i :: pos <= i < next - 1 ==> draws(i) in inverseTable
        decreases w + 1 - next
      {
        assert next == w + 1 ==> p == draws(w);
        if numAdjacentPage > 0 { fragmented := true; }
        p, next := draws(next), next + 1;
      }
    }

    /** The swap of va_to_pa when the memory is full. */
    method SwapPage(v: nat)
      requires Valid() && v !in pageTable && allocatedPages >= limit
      modifies this
      ensures Valid() && exists victim: nat :: IsSmallest(old(pageTable), victim) && St() == Swapped(old(St()), v, victim)
    {
      var victim := FindVictim();
      SwappedOk(St(), v, victim, limit);
      var p := pageTable[victim];
      pageTable := pageTable - {victim};
      pageTable := pageTable[v := p];
      assert p in inverseTable;
      inverseTable := inverseTable[p := v];
      queued := queued - 1;
      queued := queued + 1;
    }

    /** The allocation of va_to_pa; `r` is the random exponent of the next run. */
    method AllocatePage(v: nat, draws: nat -> nat, pos: nat, r: nat)
      requires Valid() && v !in pageTable && allocatedPages < limit && r < 10
      requires FreeAhead(draws, pos, inverseTable.Keys)
      modifies this
      ensures Valid() && Translates(old(St()), St(), v, limit, draws, pos, r)
    {
      ghost var s := St();
      var p, fragmented, next := FindFree(draws, pos);
      hide Ok, Power, Mapped, Translates;
      FoundTranslates(s, v, limit, draws, pos, r, p, fragmented, next);
      MappedOk(s, v, p, fragmented, r, limit);
      InsertPage(v, p, fragmented, r);
    }

    /** The insertion into both tables, and the length of the next run. */
    method InsertPage(v: nat, p: nat, fragmented: bool, r: nat)
      modifies this
      ensures St() == Mapped(old(St()), v, p, fragmented, r)
    {
      pageTable := pageTable[v := p];
      inverseTable := inverseTable[p := v];
      queued := queued + 1;
      previousPpage := p;
      numAdjacentPage := Minus(numAdjacentPage);
      allocatedPages := allocatedPages + 1;
      if fragmented { numAdjacentPage := Power(r); }
    }

    /** va_to_pa, without the footprint counters and the stall cycles. */
    method VaToPa(cpu: nat, va: nat, page: nat, draws: nat -> nat, pos: nat, r: nat) returns (pa: nat)
      requires Valid() && va != 0 && r < 10
      requires VirtualPage(cores, cpu, page) !in pageTable && allocatedPages < limit ==> FreeAhead(draws, pos, inverseTable.Keys)
      modifies this
      ensures Valid()
      ensures Translates(old(St()), St(), VirtualPage(cores, cpu, page), limit, draws, pos, r)
      ensures VirtualPage(cores, cpu, page) in pageTable
      ensures pa == pageTable[VirtualPage(cores, cpu, page)] * 4096 + PageOffset(cores, cpu, va)
    {
      ghost var s := St();
      var v, offset := VirtualPage(cores, cpu, page), PageOffset(cores, cpu, va);
      if v !in pageTable {
        if allocatedPages >= limit {
          SwapPage(v);
        } else {
          AllocatePage(v, draws, pos, r);
        }
      }
      TranslationKeepsTables(s, St(), v, limit, draws, pos, r);
      pa := pageTable[v] * 4096 + offset;
    }
  }
}
