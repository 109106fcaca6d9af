/** The signature table of the KPCP prefetcher: the last block and the signature of each recently used page. */
module KpcpSignatures {
  import opened Common
  import opened LruRanks
  import opened KpcpPatterns

  const ST_WAYS: nat := 256

  datatype Page = Page(valid: bool, tag: nat, lastBlock: int, signature: bv16, lru: nat, firstHit: bool)

  /** A delta that follows a signature, to be learnt by the pattern table. */
  datatype Lesson = Lesson(signature: bv16, delta: int)

  function Ranks(st: seq<Page>): (r: seq<nat>)
    ensures |r| == |st| && forall i :: 0 <= i < |r| ==> r[i] == st[i].lru
  {
    seq(|st|, i requires 0 <= i < |st| => st[i].lru)
  }

  ghost predicate PageOk(p: Page) { 0 <= p.lastBlock < 64 && Fits(p.signature) }

  ghost predicate TableOk(st: seq<Page>) {
    && |st| == ST_WAYS && Permutation(Ranks(st))
    && (forall i :: 0 <= i < |st| ==> PageOk(st[i]))
    && (forall i, j :: 0 <= i < j < |st| && st[i].valid && st[j].valid ==> st[i].tag != st[j].tag)
  }

  /** L2_ST_check: the first way from `i` on that holds `tag`. */
  function FindFrom(st: seq<Page>, tag: nat, i: nat): (r: nat)
    requires i <= |st|
    ensures i <= r <= |st|
    ensures r < |st| ==> st[r].valid && st[r].tag == tag
    ensures forall k :: i <= k < r ==> !(st[k].valid && st[k].tag == tag)
    decreases |st| - i
  {
    if i == |st| || (st[i].valid && st[i].tag == tag) then i else FindFrom(st, tag, i + 1)
  }

  function InvalidFrom(st: seq<Page>, i: nat): (r: nat)
    requires i <= |st|
    ensures i <= r <= |st|
    ensures r < |st| ==> !st[r].valid
    decreases |st| - i
  {
    if i == |st| || !st[i].valid then i else InvalidFrom(st, i + 1)
  }

  function LastRankFrom(st: seq<Page>, i: nat): (r: nat)
    requires i <= |st|
    ensures i <= r <= |st|
    ensures forall k :: i <= k < r ==> st[k].lru != ST_WAYS - 1
    decreases |st| - i
  {
    if i == |st| || st[i].lru == ST_WAYS - 1 then i else LastRankFrom(st, i + 1)
  }

  /** The way that L2_ST_update works on: the one of the page, or an invalid one, or the least recently used. */
  function WayFor(st: seq<Page>, tag: nat): (r: nat)
    ensures r <= |st|
  {
    if FindFrom(st, tag, 0) < |st| then FindFrom(st, tag, 0)
    else if InvalidFrom(st, 0) < |st| then InvalidFrom(st, 0)
    else LastRankFrom(st, 0)
  }

  /** A page that is in the table is used again. */
  function Revisited(p: Page, block: int): Page
    requires 0 <= p.lastBlock < 64 && 0 <= block < 64
  {
    var delta := block - p.lastBlock;
    if p.signature == 0 then p.(signature := Folded(delta) & 0xFFF, firstHit := true, lastBlock := block)
    else if delta != 0 then p.(signature := NewSignature(p.signature, delta), firstHit := false, lastBlock := block)
    else p.(firstHit := false)
  }

  /** What the pattern table learns from that. */
  function LessonOf(p: Page, block: int): Option<Lesson> {
    if p.signature != 0 && block != p.lastBlock then Some(Lesson(p.signature, block - p.lastBlock)) else None
  }

  function Entered(p: Page, tag: nat, block: int): Page { Page(true, tag, block, 0, p.lru, false) }

  /** L2_ST_update. */
  function Used(st: seq<Page>, tag: nat, block: int): (r: seq<Page>)
    requires 0 <= block < 64 && forall i :: 0 <= i < |st| ==> 0 <= st[i].lastBlock < 64
    ensures |r| == |st|
  {
    var w := WayFor(st, tag);
    if w == |st| then st
    else
      var p := if FindFrom(st, tag, 0) < |st| then Revisited(st[w], block) else Entered(st[w], tag, block);
      Promoted(st[w := p], w)
  }

  function Promoted(st: seq<Page>, w: nat): (r: seq<Page>)
    requires w < |st|
    ensures |r| == |st| && Ranks(r) == Touch(Ranks(st), w)
    ensures forall i :: 0 <= i < |st| ==> r[i] == st[i].(lru := Touch(Ranks(st), w)[i])
  {
    seq(|st|, i requires 0 <= i < |st| => st[i].(lru := Touch(Ranks(st), w)[i]))
  }

  lemma MaskFits(x: bv16)
    ensures Fits(x & 0xFFF)
  {
  }

  lemma RevisitedOk(p: Page, block: int)
    requires PageOk(p) && 0 <= block < 64
    ensures PageOk(Revisited(p, block)) && Revisited(p, block).valid == p.valid && Revisited(p, block).tag == p.tag
    ensures Revisited(p, block).lru == p.lru
  {
    MaskFits(Folded(block - p.lastBlock));
    if block != p.lastBlock { NewSignatureFits(p.signature, block - p.lastBlock); }
    hide Fits, NewSignature;
  }

  /** A way is always found, and the page in it afterwards is the one that was used. */
  lemma WayFound(st: seq<Page>, tag: nat)
    requires TableOk(st)
    ensures WayFor(st, tag) < ST_WAYS
  {
    EveryRankHeld(Ranks(st), ST_WAYS - 1);
  }

  /** L2_ST_update keeps the table consistent; the page is then in the way it chose, as the most recent one. */
  lemma UsedKeepsTable(st: seq<Page>, tag: nat, block: int)
    requires TableOk(st) && 0 <= block < 64
    ensures TableOk(Used(st, tag, block))
    ensures var r, w := Used(st, tag, block), WayFor(st, tag); w < ST_WAYS && r[w].valid && r[w].tag == tag && r[w].lru == 0
  {
    WayFound(st, tag);
    var w := WayFor(st, tag);
    var found := FindFrom(st, tag, 0) < |st|;
    if found { RevisitedOk(st[w], block); }
    var p := if found then Revisited(st[w], block) else Entered(st[w], tag, block);
    assert Fits(0);
    assert PageOk(p) && p.valid && p.tag == tag && p.lru == st[w].lru;
    hide Fits, NewSignature, Revisited, WayFor;
    assert Ranks(st[w := p]) == Ranks(st);
    TouchKeepsPermutation(Ranks(st), w);
  }

  /** L2_ST_check right after L2_ST_update finds the page, in the way just used, so its check never fails. */
  lemma CheckFindsUsed(st: seq<Page>, tag: nat, block: int)
    requires TableOk(st) && 0 <= block < 64
    ensures FindFrom(Used(st, tag, block), tag, 0) == WayFor(st, tag) < ST_WAYS
  {
    UsedKeepsTable(st, tag, block);
    var r, w := Used(st, tag, block), WayFor(st, tag);
    var f := FindFrom(r, tag, 0);
    hide WayFor, Used;
    assert f < |r|;
  }

  /** Other pages stay, except the one whose way was taken. */
  lemma OtherPagesStay(st: seq<Page>, tag: nat, block: int, other: nat)
    requires TableOk(st) && 0 <= block < 64 && other != tag
    ensures FindFrom(Used(st, tag, block), other, 0) < ST_WAYS <==> FindFrom(st, other, 0) < ST_WAYS && FindFrom(st, other, 0) != WayFor(st, tag)
  {
    UsedKeepsTable(st, tag, block);
    var r, w, o := Used(st, tag, block), WayFor(st, tag), FindFrom(st, other, 0);
    var f := FindFrom(r, other, 0);
    forall i | 0 <= i < ST_WAYS && i != w ensures r[i].valid == st[i].valid && r[i].tag == st[i].tag { }
    if o < ST_WAYS && o != w { assert r[o].valid && r[o].tag == other; }
    if f < ST_WAYS { assert f != w && st[f].valid && st[f].tag == other; }
  }

  /** What the pattern table learns is a delta within the page, and not 0. */
  lemma LessonIsSmall(p: Page, block: int)
    requires PageOk(p) && 0 <= block < 64 && LessonOf(p, block).Some?
    ensures -64 < LessonOf(p, block).value.delta < 64 && LessonOf(p, block).value.delta != 0
  {
  }
}
