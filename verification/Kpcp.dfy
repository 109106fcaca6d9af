/** The KPCP prefetcher as it runs: tables and buffer are arrays, updated in place by its loops. */
module Kpcp {
  import opened Common
  import opened LruRanks
  import opened KpcpPatterns
  import opened KpcpSignatures
  import opened KpcpLookahead
  import opened KpcpHistory

  lemma {:induction false} NothingCounted(t: seq<Pattern>, n: nat)
    requires n <= |t| && forall i :: 0 <= i < |t| ==> t[i] == NO_PATTERN
    ensures Sum(t, n) == 0
  {
    if n > 0 { NothingCounted(t, n - 1); }
  }

  /** The tag of the page of an address, and the block within the page. */
  function TagOf(addr: nat): nat { addr / 4096 % 65536 }

  function BlockOf(addr: nat): (b: nat)
    ensures b < 64
  {
    addr / 64 % 64
  }

  /** MAX_CONF: the share of useful prefetches in percent, at most 99. */
  function Cap(useful: nat, issued: nat): (r: nat)
    ensures r <= 99
  {
    if issued > 0 && 100 * useful / issued < 99 then 100 * useful / issued else 99
  }

  class Prefetcher {
    const st: array<Page>
    const pt: array2<Pattern>
    const pfBuffer: array<Candidate>
    var numPf: nat
    var currConf: nat
    var currDelta: int
    var maxConf: nat

    ghost predicate Layout() {
      st.Length == ST_WAYS && pt.Length0 == SETS && pt.Length1 == WAYS && pfBuffer.Length == BUFFER
    }

    function Row(r: nat): (t: seq<Pattern>)
      requires Layout() && r < SETS
      reads pt
      ensures |t| == WAYS && forall i :: 0 <= i < WAYS ==> t[i] == pt[r, i]
    {
      seq(WAYS, i requires 0 <= i < WAYS reads pt requires Layout() => pt[r, i])
    }

    ghost function Tables(): (ts: seq<seq<Pattern>>)
      requires Layout()
      reads pt
      ensures |ts| == SETS && forall r :: 0 <= r < SETS ==> ts[r] == Row(r)
    {
      seq(SETS, r requires 0 <= r < SETS reads pt requires Layout() => Row(r))
    }

    ghost predicate Valid()
      reads this, st, pt
    {
      Layout() && TableOk(st[..]) && TablesOk(Tables()) && numPf <= BUFFER
    }

    constructor ()
      ensures Valid() && fresh(st) && fresh(pt) && fresh(pfBuffer)
      ensures st[..] == NoPages() && forall r :: 0 <= r < SETS ==> Row(r) == EMPTY_SET
    {
      st := new Page[ST_WAYS](i requires 0 <= i < ST_WAYS => Page(false, 0, 0, 0, i, false));
      pt := new Pattern[SETS, WAYS]((r, i) => NO_PATTERN);
      pfBuffer := new Candidate[BUFFER](_ => NO_CANDIDATE);
      numPf, currConf, currDelta, maxConf := 0, 0, 0, 0;
      new;
      forall r | 0 <= r < SETS ensures SetOk(Row(r)) { NothingCounted(Row(r), WAYS); }
      assert Fits(0);
    }

    // ----- L2_PT_update

    /** The counters of the set, with the halving when the signature counter saturates. */
    method CountSignature(r: nat)
      requires Layout() && r < SETS
      modifies pt
      ensures Row(r) == Counted(old(Row(r)))
      ensures forall q, i :: 0 <= q < SETS && 0 <= i < WAYS && q != r ==> pt[q, i] == old(pt[q, i])
    {
      ghost var t := Row(r);
      pt[r, 0] := pt[r, 0].(cSig := pt[r, 0].cSig + 1);
      if pt[r, 0].cSig == CSIG_MAX {
        pt[r, 0] := pt[r, 0].(cSig := CSIG_MAX / 2);
        for i := 0 to WAYS
          invariant forall q, k :: 0 <= q < SETS && 0 <= k < WAYS && q != r ==> pt[q, k] == old(pt[q, k])
          invariant forall k :: 0 <= k < WAYS ==>
                      pt[r, k] == Pattern(t[k].delta, if k < i then t[k].cDelta / 2 else t[k].cDelta, if k == 0 then CSIG_MAX / 2 else t[k].cSig)
        {
          pt[r, i] := pt[r, i].(cDelta := pt[r, i].cDelta / 2);
        }
      }
    }

    /** The first way of set `r` with delta `d`. */
    method FindDelta(r: nat, d: int) returns (way: nat)
      requires Layout() && r < SETS
      ensures way == WayOf(Row(r), d, 0)
    {
      way := 0;
      while way < WAYS
        invariant way <= WAYS && WayOf(Row(r), d, 0) == WayOf(Row(r), d, way)
      {
        if pt[r, way].delta == d { return; }
        way := way + 1;
      }
    }

    /** The search of L2_PT_update for the lowest counter. */
    method FindLowest(r: nat) returns (way: nat)
      requires Layout() && r < SETS
      ensures way == Lowest(Row(r), WAYS)
    {
      way := WAYS;
      var least := CSIG_MAX;
      for i := 0 to WAYS
        invariant way == Lowest(Row(r), i) && least == (if way < WAYS then Row(r)[way].cDelta else CSIG_MAX)
      {
        if pt[r, i].cDelta < least { way, least := i, pt[r, i].cDelta; }
      }
    }

    /** L2_PT_update; a way is always found. */
    method PtUpdate(signature: bv16, d: int)
      requires Layout() && SetOk(Row(SetOf(signature))) && -64 < d < 64 && d != 0
      modifies pt
      ensures Row(SetOf(signature)) == Updated(old(Row(SetOf(signature))), d)
      ensures forall q, i :: 0 <= q < SETS && 0 <= i < WAYS && q != SetOf(signature) ==> pt[q, i] == old(pt[q, i])
    {
      var r := SetOf(signature);
      UpdateKeepsSet(Row(r), d);
      hide Counted, SetOk, Assigned;
      CountSignature(r);
      AssignDelta(r, d);
    }

    /** The second part of L2_PT_update. */
    method AssignDelta(r: nat, d: int)
      requires Layout() && r < SETS && Target(Row(r), d) < WAYS
      modifies pt
      ensures Row(r) == Assigned(old(Row(r)), d)
      ensures forall q, i :: 0 <= q < SETS && 0 <= i < WAYS && q != r ==> pt[q, i] == old(pt[q, i])
    {
      ghost var t := Row(r);
      var way := FindDelta(r, d);
      if way < WAYS {
        pt[r, way] := pt[r, way].(cDelta := pt[r, way].cDelta + 1);
      } else {
        way := FindDelta(r, 0);
        if way == WAYS { way := FindLowest(r); }
        assert way == Target(t, d) < WAYS;
        pt[r, way] := pt[r, way].(delta := d, cDelta := 0);
      }
      assert Row(r) == t[way := Row(r)[way]];
    }

    // ----- L2_ST_update and L2_ST_check

    /** L2_ST_check, and the search of L2_ST_update for the page. */
    method StCheck(tag: nat) returns (way: nat)
      requires Layout()
      ensures way == FindFrom(st[..], tag, 0)
    {
      way := 0;
      while way < ST_WAYS
        invariant way <= ST_WAYS && FindFrom(st[..], tag, 0) == FindFrom(st[..], tag, way)
      {
        if st[way].valid && st[way].tag == tag { return; }
        way := way + 1;
      }
    }

    /** The searches of L2_ST_update for an invalid way, or else for the least recently used one. */
    method FindVictim() returns (way: nat)
      requires Layout()
      ensures way == if InvalidFrom(st[..], 0) < ST_WAYS then InvalidFrom(st[..], 0) else LastRankFrom(st[..], 0)
    {
      way := 0;
      while way < ST_WAYS
        invariant way <= ST_WAYS && InvalidFrom(st[..], 0) == InvalidFrom(st[..], way)
      {
        if !st[way].valid { return; }
        way := way + 1;
      }
      way := 0;
      while way < ST_WAYS
        invariant way <= ST_WAYS && LastRankFrom(st[..], 0) == LastRankFrom(st[..], way)
      {
        if st[way].lru == ST_WAYS - 1 { return; }
        way := way + 1;
      }
    }

    /** The end of L2_ST_update. */
    method UpdateLru(way: nat)
      requires Layout() && way < ST_WAYS
      modifies st
      ensures st[..] == Promoted(old(st[..]), way)
    {
      ghost var s := st[..];
      var position := st[way].lru;
      for i := 0 to ST_WAYS
        invariant forall k :: 0 <= k < ST_WAYS ==>
                    st[k] == if k < i && s[k].lru < position then s[k].(lru := s[k].lru + 1) else s[k]
      {
        if st[i].lru < position { st[i] := st[i].(lru := st[i].lru + 1); }
      }
      st[way] := st[way].(lru := 0);
    }

    method Learn(signature: bv16, d: int)
      requires Layout() && TablesOk(Tables()) && -64 < d < 64 && d != 0
      modifies pt
      ensures Tables() == Taught(old(Tables()), Some(Lesson(signature, d)))
    {
      ghost var ts, r := Tables(), SetOf(signature);
      hide Updated;
      assert Row(r) == ts[r];
      PtUpdate(signature, d);
      forall q | 0 <= q < SETS && q != r ensures Tables()[q] == ts[q] { assert Row(q) == ts[q]; }
    }

    /** The page in `way` is used again; the pattern table learns the delta. */
    method Revisit(way: nat, block: int)
      requires Layout() && way < ST_WAYS && PageOk(st[way]) && 0 <= block < 64 && TablesOk(Tables())
      modifies st, pt
      ensures st[..] == old(st[..])[way := Revisited(old(st[way]), block)]
      ensures Tables() == Taught(old(Tables()), LessonOf(old(st[way]), block))
    {
      hide NewSignature, Updated, TablesOk;
      var p := st[way];
      var delta := block - p.lastBlock;
      if p.signature == 0 {
        st[way] := p.(signature := Folded(delta) & 0xFFF, firstHit := true, lastBlock := block);
      } else {
        st[way] := p.(firstHit := false);
        if delta == 0 { return; }
        Learn(p.signature, delta);
        st[way] := st[way].(signature := NewSignature(p.signature, delta), lastBlock := block);
      }
    }

    /** L2_ST_update for block `block` of page `tag`. */
    method StUpdate(tag: nat, block: int)
      requires Valid() && 0 <= block < 64
      modifies st, pt
      ensures Valid() && st[..] == Used(old(st[..]), tag, block)
      ensures Tables() == Taught(old(Tables()), LessonFor(old(st[..]), tag, block))
    {
      WayFound(st[..], tag);
      UsedKeepsTable(st[..], tag, block);
      LessonForIsSmall(st[..], tag, block);
      TaughtOk(Tables(), LessonFor(st[..], tag, block));
      hide TablesOk, Revisited, LessonOf, Taught, Promoted, Permutation;
      var way := StCheck(tag);
      if way < ST_WAYS {
        Revisit(way, block);
      } else {
        way := FindVictim();
        st[way] := Page(true, tag, block, 0, st[way].lru, false);
      }
      UpdateLru(way);
    }

    // ----- PF_check

    method Buffer(x: Candidate)
      requires Layout() && numPf < BUFFER
      modifies this`numPf, pfBuffer
      ensures numPf == old(numPf) + 1 && pfBuffer[..numPf] == old(pfBuffer[..numPf]) + [x]
    {
      pfBuffer[numPf] := x;
      numPf := numPf + 1;
    }

    /** A way of the current signature that is likely enough becomes a candidate, if it stays in the page. */
    method TryCandidate(r: nat, i: nat, signature: bv16, block: int) returns (conf: nat)
      requires Layout() && r < SETS && i < WAYS && numPf <= i && Row(r)[0].cSig > 0
      requires pfBuffer[..numPf] == Candidates(Row(r), signature, block, i)
      modifies this`numPf, pfBuffer
      ensures conf == Confidence(Row(r), i) && numPf <= i + 1
      ensures pfBuffer[..numPf] == Candidates(Row(r), signature, block, i + 1)
    {
      conf := 100 * pt[r, i].cDelta / pt[r, 0].cSig;
      if conf >= PF_THRESHOLD {
        if SamePage(block, pt[r, i].delta) { Buffer(Candidate(pt[r, i].delta, signature, 1, conf)); }
      }
    }

    /** The first loop of PF_check, over the ways of the current signature. */
    method FirstCandidates(signature: bv16, block: int)
      requires Layout() && numPf == 0 && Row(SetOf(signature))[0].cSig > 0
      modifies this`numPf, this`currConf, this`currDelta, pfBuffer
      ensures numPf <= WAYS
      ensures var t := Row(SetOf(signature));
              && pfBuffer[..numPf] == Candidates(t, signature, block, WAYS)
              && match Likeliest(t, WAYS)
                 case None => currConf == 0 && currDelta == 0
                 case Some(i) => currConf == Confidence(t, i) && currDelta == t[i].delta
    {
      var r := SetOf(signature);
      hide Candidates, Confidence, SetOf;
      var best: Option<nat> := None;
      var pfMax, confMax := 0, 100;
      for i := 0 to WAYS
        invariant numPf <= i && pfBuffer[..numPf] == Candidates(Row(r), signature, block, i)
        invariant best == Likeliest(Row(r), i)
        invariant if best.Some? then pfMax == Row(r)[best.value].cDelta && confMax == Confidence(Row(r), best.value) else pfMax == 0
      {
        var conf := TryCandidate(r, i, signature, block);
        if conf >= PF_THRESHOLD {
          if pfMax < pt[r, i].cDelta { pfMax, best, confMax := pt[r, i].cDelta, Some(i), conf; }
        }
      }
      if best.Some? { currConf, currDelta := confMax, pt[r, best.value].delta; } else { currConf, currDelta := 0, 0; }
    }

    /** The loop over the ways within one round of the lookahead. */
    method SearchPath(r: nat) returns (best: Option<nat>, confMax: nat)
      requires Layout() && r < SETS && Row(r)[0].cSig > 0
      ensures best == NextWay(currConf, Row(r), maxConf, WAYS)
      ensures best.Some? ==> confMax == PathConfidence(currConf, Row(r), best.value, maxConf)
    {
      var pfMax := 0;
      best, confMax := None, 100;
      for i := 0 to WAYS
        invariant best == NextWay(currConf, Row(r), maxConf, i)
        invariant pfMax == if best.Some? then Row(r)[best.value].cDelta else 0
        invariant best.Some? ==> confMax == PathConfidence(currConf, Row(r), best.value, maxConf)
      {
        var conf := currConf * pt[r, i].cDelta / pt[r, 0].cSig * maxConf / 100;
        if conf >= PF_THRESHOLD {
          if pfMax < pt[r, i].cDelta { pfMax, best, confMax := pt[r, i].cDelta, Some(i), conf; }
        }
      }
    }

    /** Where the lookahead is. */
    ghost function At(signature: bv16, last: int): Path
      requires Layout() && numPf <= BUFFER
      reads this, pfBuffer
    {
      Path(signature, currConf, currDelta, last, pfBuffer[..numPf])
    }

    /** The end of a round: the path goes on over a delta `d` with confidence `conf`, if the buffer has room. */
    method GoOn(next: bv16, d: int, conf: nat, block: int)
      requires Layout() && numPf <= BUFFER
      modifies this`numPf, this`currConf, this`currDelta, pfBuffer
      ensures numPf <= BUFFER
      ensures var delta := old(currDelta) + d;
              if old(numPf) >= BUFFER then currConf == 0 && currDelta == 0 && pfBuffer[..numPf] == old(pfBuffer[..numPf])
              else && currConf == conf && currDelta == delta
                   && pfBuffer[..numPf] == old(pfBuffer[..numPf])
                      + if SamePage(block, delta) && delta != 0 then [Candidate(delta, next, old(numPf) + 1, conf)] else []
    {
      if numPf < BUFFER {
        var delta := currDelta + d;
        if SamePage(block, delta) {
          if delta != 0 { Buffer(Candidate(delta, next, numPf + 1, conf)); }
        }
        currConf, currDelta := conf, delta;
      } else {
        currConf, currDelta := 0, 0;
      }
    }

    /** One round of the lookahead loop. */
    method LookOnce(signature: bv16, last: int, block: int) returns (next: bv16, last': int)
      requires Layout() && TablesOk(Tables()) && numPf <= BUFFER && PathOk(At(signature, last))
      modifies this`numPf, this`currConf, this`currDelta, pfBuffer
      ensures numPf <= BUFFER && At(next, last') == Advance(Tables(), old(At(signature, last)), block, maxConf)
    {
      ghost var p := At(signature, last);
      hide TablesOk, NewSignature, PathConfidence, SetOf;
      last' := currDelta;
      next := NewSignature(signature, currDelta - last);
      var r := SetOf(next);
      assert Tables()[r] == Row(r);
      if pt[r, 0].cSig > 0 {
        var best, conf := SearchPath(r);
        if best.Some? {
          GoOn(next, pt[r, best.value].delta, conf, block);
        } else {
          currConf, currDelta := 0, 0;
        }
      } else {
        currConf, currDelta := 0, 0;
      }
    }

    /** The lookahead loop of PF_check; it ends because the path confidence falls. */
    method LookAhead(signature: bv16, block: int)
      requires Layout() && TablesOk(Tables()) && numPf <= BUFFER && maxConf <= 99
      requires currConf >= PF_THRESHOLD && PathOk(At(signature, 0))
      modifies this`numPf, this`currConf, this`currDelta, pfBuffer
      ensures numPf <= BUFFER && pfBuffer[..numPf] == Lookahead(Tables(), old(At(signature, 0)), block, maxConf).out
    {
      hide TablesOk, Advance;
      ghost var p := At(signature, 0);
      AdvanceFalls(Tables(), p, block, maxConf);
      var s, last := LookOnce(signature, 0, block);
      while currConf >= PF_THRESHOLD
        invariant numPf <= BUFFER && (currConf > 0 ==> PathOk(At(s, last)))
        invariant Lookahead(Tables(), p, block, maxConf) ==
                  if currConf >= PF_THRESHOLD then Lookahead(Tables(), At(s, last), block, maxConf) else At(s, last)
        decreases currConf
      {
        AdvanceFalls(Tables(), At(s, last), block, maxConf);
        s, last := LookOnce(s, last, block);
      }
    }

    /** PF_check. */
    method PfCheck(signature: bv16, block: int)
      requires Layout() && TablesOk(Tables()) && numPf == 0 && maxConf <= 99
      modifies this`numPf, this`currConf, this`currDelta, pfBuffer
      ensures numPf <= BUFFER && pfBuffer[..numPf] == Check(Tables(), signature, block, maxConf)
    {
      FirstIsOk(Tables(), signature, block);
      hide TablesOk, Lookahead;
      var r := SetOf(signature);
      assert Tables()[r] == Row(r);
      if pt[r, 0].cSig > 0 {
        FirstCandidates(signature, block);
      } else {
        currConf, currDelta := 0, 0;
      }
      if currConf >= PF_THRESHOLD { LookAhead(signature, block); }
    }

    // ----- l2c_prefetcher_operate

    /** The reset of the prefetch buffers. */
    method ResetBuffers()
      requires Layout()
      modifies this, pfBuffer
      ensures maxConf == 99 && numPf == 0 && currConf == 0 && currDelta == 0
    {
      maxConf, numPf, currConf, currDelta := 99, 0, 0, 0;
      for i := 0 to BUFFER
        invariant maxConf == 99 && numPf == 0 && currConf == 0 && currDelta == 0
      {
        pfBuffer[i] := NO_CANDIDATE;
      }
    }

    /**
     l2c_prefetcher_operate up to the prefetches: `useful` and `issued` are the counters that decide
     MAX_CONF.  The two checks, that the page is found and that no buffered delta is 0, never fail.
     */
    method OperatePrefetcher(addr: nat, useful: nat, issued: nat)
      requires Valid()
      modifies this, st, pt, pfBuffer
      ensures Valid()
      ensures var tag, block := TagOf(addr), BlockOf(addr);
              && st[..] == Used(old(st[..]), tag, block)
              && Tables() == Taught(old(Tables()), LessonFor(old(st[..]), tag, block))
              && FindFrom(st[..], tag, 0) < ST_WAYS
              && var p := st[..][FindFrom(st[..], tag, 0)];
              && pfBuffer[..numPf] == (if p.signature != 0 && !p.firstHit then Check(Tables(), p.signature, block, Cap(useful, issued)) else [])
              && GoodBuffer(pfBuffer[..numPf], block)
    {
      var tag, block := TagOf(addr), BlockOf(addr);
      CheckFindsUsed(st[..], tag, block);
      hide TableOk, TablesOk, Used, Taught, LessonFor, Check, Fits, TagOf, BlockOf;
      StUpdate(tag, block);
      var way := StCheck(tag);
      assert way != ST_WAYS;
      BufferCandidates(st[way].signature, st[way].firstHit, block, useful, issued);
      for i := 0 to numPf
      {
        assert pfBuffer[..numPf][i].delta != 0;
      }
    }

    /** The middle part of l2c_prefetcher_operate, which fills the buffer for a page's signature. */
    method BufferCandidates(signature: bv16, firstHit: bool, block: nat, useful: nat, issued: nat)
      requires Layout() && TablesOk(Tables())
      modifies this, pfBuffer
      ensures numPf <= BUFFER && GoodBuffer(pfBuffer[..numPf], block)
      ensures pfBuffer[..numPf] == if signature != 0 && !firstHit then Check(Tables(), signature, block, Cap(useful, issued)) else []
    {
      hide TablesOk, Check;
      ResetBuffers();
      if issued > 0 { maxConf := 100 * useful / issued; }
      if maxConf >= 99 { maxConf := 99; }
      if signature != 0 && !firstHit {
        CheckIsGood(Tables(), signature, block, maxConf);
        PfCheck(signature, block);
      }
    }
  }
}
