/** What the KPCP prefetcher knows after a run of accesses: the signature of each page, and what has been learnt. */
module KpcpHistory {
  import opened Common
  import opened LruRanks
  import opened KpcpPatterns
  import opened KpcpSignatures
  import opened KpcpLookahead

  /** The pattern tables after a lesson. */
  function Taught(ts: seq<seq<Pattern>>, x: Option<Lesson>): seq<seq<Pattern>>
    requires |ts| == SETS && forall r :: 0 <= r < SETS ==> |ts[r]| == WAYS
  {
    match x
    case None => ts
    case Some(l) => ts[SetOf(l.signature) := Updated(ts[SetOf(l.signature)], l.delta)]
  }

  lemma TaughtOk(ts: seq<seq<Pattern>>, x: Option<Lesson>)
    requires TablesOk(ts) && (x.Some? ==> -64 < x.value.delta < 64 && x.value.delta != 0)
    ensures (forall r :: 0 <= r < SETS ==> |ts[r]| == WAYS) && TablesOk(Taught(ts, x))
  {
    if x.Some? { UpdateKeepsSet(ts[SetOf(x.value.signature)], x.value.delta); }
  }

  /** The lesson of an access to `block` of page `tag`. */
  function LessonFor(st: seq<Page>, tag: nat, block: int): Option<Lesson> {
    if FindFrom(st, tag, 0) < |st| then LessonOf(st[FindFrom(st, tag, 0)], block) else None
  }

  lemma LessonForIsSmall(st: seq<Page>, tag: nat, block: int)
    requires TableOk(st) && 0 <= block < 64
    ensures var x := LessonFor(st, tag, block); x.Some? ==> -64 < x.value.delta < 64 && x.value.delta != 0
  {
    if FindFrom(st, tag, 0) < |st| {
      var p := st[FindFrom(st, tag, 0)];
      assert PageOk(p);
      if LessonOf(p, block).Some? { LessonIsSmall(p, block); }
    }
  }

  // ----- the signature of a page

  /** An access to block `block` of the page `tag`. */
  datatype Use = Use(tag: nat, block: int)

  ghost predicate Blocks(us: seq<Use>) { forall i :: 0 <= i < |us| ==> 0 <= us[i].block < 64 }

  function NoPages(): seq<Page> { seq(ST_WAYS, i requires 0 <= i < ST_WAYS => Page(false, 0, 0, 0, i, false)) }

  function WithUse(st: seq<Page>, u: Use): (r: seq<Page>)
    requires TableOk(st) && 0 <= u.block < 64
    ensures TableOk(r)
  {
    UsedKeepsTable(st, u.tag, u.block);
    Used(st, u.tag, u.block)
  }

  /** The signature table after the accesses `us`. */
  function TableOf(us: seq<Use>): (st: seq<Page>)
    requires Blocks(us)
    ensures TableOk(st)
    decreases |us|
  {
    if |us| == 0 then
      NoPagesOk();
      NoPages()
    else
      WithUse(TableOf(us[..|us| - 1]), us[|us| - 1])
  }

  lemma NoPagesOk()
    ensures TableOk(NoPages())
  {
    assert Fits(0);
  }

  /** The blocks of one page among the accesses. */
  function Of(us: seq<Use>, tag: nat): (bs: seq<int>)
    ensures Blocks(us) ==> forall i :: 0 <= i < |bs| ==> 0 <= bs[i] < 64
  {
    if |us| == 0 then []
    else Of(us[..|us| - 1], tag) + if us[|us| - 1].tag == tag then [us[|us| - 1].block] else []
  }

  /** The steps from each block to the next, where it is another one. */
  function Moves(bs: seq<int>): seq<int> {
    if |bs| < 2 then []
    else Moves(bs[..|bs| - 1]) + if bs[|bs| - 1] != bs[|bs| - 2] then [bs[|bs| - 1] - bs[|bs| - 2]] else []
  }

  lemma {:induction false} MovesAreSmall(bs: seq<int>)
    requires forall i :: 0 <= i < |bs| ==> 0 <= bs[i] < 64
    ensures Deltas(Moves(bs))
  {
    if |bs| >= 2 { MovesAreSmall(bs[..|bs| - 1]); }
  }

  /** The signature of a sequence of deltas. */
  function Hash(ds: seq<int>): bv16
    requires Deltas(ds)
  {
    if |ds| == 0 then 0 else NewSignature(Hash(ds[..|ds| - 1]), ds[|ds| - 1])
  }

  lemma HashFits(ds: seq<int>)
    requires Deltas(ds)
    ensures Fits(Hash(ds)) && (|ds| > 0 ==> Hash(ds) != 0)
  {
    assert Fits(0);
    if |ds| > 0 {
      HashFits(ds[..|ds| - 1]);
      NewSignatureFits(Hash(ds[..|ds| - 1]), ds[|ds| - 1]);
    }
  }

  /** A page with signature 0 takes the delta itself, as the step from signature 0 does. */
  lemma FirstSignature(d: int)
    requires -64 < d < 64
    ensures Folded(d) & 0xFFF == NewSignature(0, d) && (d == 0 ==> NewSignature(0, d) == 0)
  {
    FoldedSmall(d);
    SmallMix(Folded(d));
  }

  lemma SmallMix(x: bv16)
    requires x & 0xFF80 == 0
    ensures Mix(0, x) == x & 0xFFF == x
  {
  }

  lemma HashNext(ds: seq<int>, d: int)
    requires Deltas(ds) && -64 < d < 64 && d != 0
    ensures Deltas(ds + [d]) && Hash(ds + [d]) == NewSignature(Hash(ds), d)
  {
    hide NewSignature;
    assert (ds + [d])[..|ds|] == ds;
  }

  predicate Holds(st: seq<Page>, tag: nat) { FindFrom(st, tag, 0) < |st| }

  /** Page `tag` came into the table with access `j` and has been there since. */
  ghost predicate Since(us: seq<Use>, tag: nat, j: nat)
    requires Blocks(us)
  {
    && j < |us| && us[j].tag == tag && !Holds(TableOf(us[..j]), tag)
    && forall m :: j < m <= |us| ==> Holds(TableOf(us[..m]), tag)
  }

  /** The entry of a page that was accessed at the blocks `bs`. */
  ghost predicate Remembers(p: Page, bs: seq<int>)
    requires forall i :: 0 <= i < |bs| ==> 0 <= bs[i] < 64
  {
    && |bs| > 0 && p.lastBlock == bs[|bs| - 1] && Deltas(Moves(bs)) && p.signature == Hash(Moves(bs))
    && (p.firstHit <==> |bs| > 1 && Moves(bs[..|bs| - 1]) == [])
  }

  /** One more access to the page. */
  lemma RevisitRemembers(p: Page, bs: seq<int>, block: int)
    requires (forall i :: 0 <= i < |bs| ==> 0 <= bs[i] < 64) && 0 <= block < 64 && Remembers(p, bs)
    ensures Remembers(Revisited(p, block), bs + [block])
  {
    hide NewSignature, Folded, Hash, Fits;
    var bs', d := bs + [block], block - p.lastBlock;
    assert bs'[..|bs'| - 1] == bs;
    MovesAreSmall(bs');
    HashFits(Moves(bs));
    FirstSignature(d);
    NoHash();
    assert |Moves(bs)| == 0 ==> Moves(bs) == [];
    if d != 0 { HashNext(Moves(bs), d); } else { assert Moves(bs') == Moves(bs); }
  }

  lemma NoHash()
    ensures Hash([]) == 0
  {
  }

  /** The page just entered. */
  lemma EnteredRemembers(p: Page, tag: nat, block: int)
    requires 0 <= block < 64
    ensures Remembers(Entered(p, tag, block), [block])
  {
    NoHash();
  }

  /** What L2_ST_update leaves in the way of the page. */
  lemma UsedEntry(st: seq<Page>, tag: nat, block: int, bs: seq<int>)
    requires TableOk(st) && 0 <= block < 64 && forall i :: 0 <= i < |bs| ==> 0 <= bs[i] < 64
    requires Holds(st, tag) ==> Remembers(st[FindFrom(st, tag, 0)], bs)
    ensures var r := Used(st, tag, block);
            Holds(r, tag) && Remembers(r[FindFrom(r, tag, 0)], if Holds(st, tag) then bs + [block] else [block])
  {
    hide Remembers, Revisited, Promoted;
    CheckFindsUsed(st, tag, block);
    var w := WayFor(st, tag);
    var p := if Holds(st, tag) then Revisited(st[w], block) else Entered(st[w], tag, block);
    if Holds(st, tag) { RevisitRemembers(st[w], bs, block); } else { EnteredRemembers(st[w], tag, block); }
    SameMemory(p, Used(st, tag, block)[w], if Holds(st, tag) then bs + [block] else [block]);
  }

  lemma SameMemory(p: Page, q: Page, bs: seq<int>)
    requires (forall i :: 0 <= i < |bs| ==> 0 <= bs[i] < 64) && Remembers(p, bs) && q == p.(lru := q.lru)
    ensures Remembers(q, bs)
  {
  }

  /** The entry of another page that stays. */
  lemma OtherEntry(st: seq<Page>, tag: nat, block: int, other: nat)
    requires TableOk(st) && 0 <= block < 64 && other != tag && Holds(Used(st, tag, block), other)
    ensures var r, o := Used(st, tag, block), FindFrom(st, other, 0);
            Holds(st, other) && o < |st| && FindFrom(r, other, 0) == o && r[o] == st[o].(lru := r[o].lru)
  {
    OtherPagesStay(st, tag, block, other);
    UsedKeepsTable(st, tag, block);
    WayFound(st, tag);
    var r, w, o := Used(st, tag, block), WayFor(st, tag), FindFrom(st, other, 0);
    hide Revisited, WayFor;
    assert r[o].valid && r[o].tag == other;
    assert r[FindFrom(r, other, 0)].valid && r[FindFrom(r, other, 0)].tag == other;
  }

  lemma {:induction false} OfSuffix(us: seq<Use>, tag: nat, j: nat)
    requires j < |us|
    ensures Of(us[j..], tag) == (if j == |us| - 1 then [] else Of(us[..|us| - 1][j..], tag)) + if us[|us| - 1].tag == tag then [us[|us| - 1].block] else []
  {
    var v := us[j..];
    assert v[|v| - 1] == us[|us| - 1] && v[..|v| - 1] == us[..|us| - 1][j..];
  }

  lemma SinceNow(us: seq<Use>, tag: nat)
    requires Blocks(us) && |us| > 0 && us[|us| - 1].tag == tag && !Holds(TableOf(us[..|us| - 1]), tag) && Holds(TableOf(us), tag)
    ensures Since(us, tag, |us| - 1) && Of(us[|us| - 1..], tag) == [us[|us| - 1].block]
  {
    hide Holds, TableOf;
    assert us[..|us|] == us;
    OfSuffix(us, tag, |us| - 1);
  }

  lemma SinceThen(us: seq<Use>, tag: nat, j: nat)
    requires Blocks(us) && |us| > 0 && j < |us| - 1 && Since(us[..|us| - 1], tag, j) && Holds(TableOf(us), tag)
    ensures Since(us, tag, j)
    ensures Of(us[j..], tag) == Of(us[..|us| - 1][j..], tag) + if us[|us| - 1].tag == tag then [us[|us| - 1].block] else []
  {
    hide Holds, TableOf;
    var vs := us[..|us| - 1];
    assert us[..|us|] == us;
    forall m | j < m <= |us| ensures Holds(TableOf(us[..m]), tag) {
      assert m < |us| ==> us[..m] == vs[..m];
    }
    assert us[..j] == vs[..j];
    OfSuffix(us, tag, j);
  }

  /**
   The entry of a page in the table remembers the blocks of all its accesses since it came in: its
   signature is that of the steps between them.
   */
  lemma {:induction false} SignatureIsHistory(us: seq<Use>, tag: nat) returns (j: nat)
    requires Blocks(us) && Holds(TableOf(us), tag)
    ensures j < |us| && Since(us, tag, j) && Remembers(TableOf(us)[FindFrom(TableOf(us), tag, 0)], Of(us[j..], tag))
    decreases |us|
  {
    hide Remembers, Used, FindFrom, Holds, Since, Of;
    if |us| == 0 {
      j := 0;
      NoneHeld(tag);
    } else {
      var vs, u := us[..|us| - 1], us[|us| - 1];
      var st := TableOf(vs);
      if u.tag != tag {
        OtherEntry(st, u.tag, u.block, tag);
        j := SignatureIsHistory(vs, tag);
        SinceThen(us, tag, j);
        var o := FindFrom(st, tag, 0);
        assert Of(us[j..], tag) == Of(vs[j..], tag);
        SameMemory(st[o], TableOf(us)[o], Of(vs[j..], tag));
      } else if Holds(st, tag) {
        j := SignatureIsHistory(vs, tag);
        SinceThen(us, tag, j);
        UsedEntry(st, tag, u.block, Of(vs[j..], tag));
      } else {
        j := |us| - 1;
        SinceNow(us, tag);
        UsedEntry(st, tag, u.block, []);
      }
    }
  }

  lemma NoneHeld(tag: nat)
    ensures !Holds(NoPages(), tag)
  {
    assert forall i :: 0 <= i < |NoPages()| ==> !NoPages()[i].valid;
  }

  // ----- what has been learnt

  /** The lesson of one more access, in terms of the accesses of its page since it came in. */
  lemma LessonIsHistory(us: seq<Use>, tag: nat, block: int) returns (j: nat)
    requires Blocks(us) && 0 <= block < 64 && Holds(TableOf(us), tag)
    ensures j < |us| && Since(us, tag, j) && |Of(us[j..], tag)| > 0
    ensures var bs := Of(us[j..], tag);
            var ds, d := Moves(bs), block - bs[|bs| - 1];
            && Deltas(ds)
            && LessonFor(TableOf(us), tag, block) == if |ds| > 0 && d != 0 then Some(Lesson(Hash(ds), d)) else None
  {
    hide Hash, Since, TableOf, Of, Moves, Fits;
    j := SignatureIsHistory(us, tag);
    HashFits(Moves(Of(us[j..], tag)));
    NoHash();
    assert |Moves(Of(us[j..], tag))| == 0 ==> Moves(Of(us[j..], tag)) == [];
  }

  /** The pattern tables after the accesses `us`. */
  function TablesAfter(us: seq<Use>): (ts: seq<seq<Pattern>>)
    requires Blocks(us)
    ensures |ts| == SETS && forall r :: 0 <= r < SETS ==> |ts[r]| == WAYS
  {
    if |us| == 0 then seq(SETS, r => EMPTY_SET)
    else
      var vs, u := us[..|us| - 1], us[|us| - 1];
      Taught(TablesAfter(vs), LessonFor(TableOf(vs), u.tag, u.block))
  }

  /** The deltas that set `r` was taught, in order. */
  function Lessons(us: seq<Use>, r: nat): (ds: seq<int>)
    requires Blocks(us)
  {
    if |us| == 0 then []
    else
      var vs, u := us[..|us| - 1], us[|us| - 1];
      var x := LessonFor(TableOf(vs), u.tag, u.block);
      Lessons(vs, r) + if x.Some? && SetOf(x.value.signature) == r then [x.value.delta] else []
  }

  lemma AfterNext(ds: seq<int>, d: int)
    ensures After(ds + [d]) == Updated(After(ds), d)
  {
    hide Updated;
    assert (ds + [d])[..|ds|] == ds;
  }

  lemma NothingLearnt()
    ensures After([]) == EMPTY_SET
  {
  }

  /** Each set is what its own lessons make of an empty one. */
  lemma {:induction false} SetsLearn(us: seq<Use>, r: nat)
    requires Blocks(us) && r < SETS
    ensures TablesAfter(us)[r] == After(Lessons(us, r)) && Deltas(Lessons(us, r))
  {
    hide LessonFor, TableOf, Updated, After, SetOf;
    if |us| == 0 {
      NothingLearnt();
    } else {
      var vs, u := us[..|us| - 1], us[|us| - 1];
      SetsLearn(vs, r);
      LessonForIsSmall(TableOf(vs), u.tag, u.block);
      var x := LessonFor(TableOf(vs), u.tag, u.block);
      if x.Some? && SetOf(x.value.signature) == r {
        AfterNext(Lessons(vs, r), x.value.delta);
      } else {
        assert Lessons(us, r) == Lessons(vs, r);
      }
    }
  }

  /**
   While a set has had fewer than 16 lessons of at most four different deltas, its counters are
   those of the moves within the pages that followed its signatures.
   */
  lemma SetsCount(us: seq<Use>, r: nat)
    requires Blocks(us) && r < SETS && |Lessons(us, r)| < CSIG_MAX && |set d | d in Lessons(us, r)| <= WAYS
    ensures Tallied(TablesAfter(us)[r], Lessons(us, r))
  {
    SetsLearn(us, r);
    UpdatesAreCounted(Lessons(us, r));
  }
}
