/** The trace converter moves data pages that are also code pages to fresh ones. */
module PageRemapping {
  const PAGE: nat := 4096
  const FIRST_FRESH: nat := 0x1000

  /** What the converter looks at in a record: its address, and the address of a load or store. */
  datatype Record = Record(pc: nat, memory: bool, ea: nat)

  /** preprocess_file: the pages of all instructions, and of all loads and stores. */
  function CodePages(t: seq<Record>): set<nat> { set i | 0 <= i < |t| :: t[i].pc / PAGE }

  function DataPages(t: seq<Record>): set<nat> { set i | 0 <= i < |t| && t[i].memory :: t[i].ea / PAGE }

  datatype State = State(bump: nat, remapped: map<nat, nat>)

  const FRESH := State(FIRST_FRESH, map[])

  /** The first page from `p` on that is not in `used`. */
  ghost function FirstUnused(used: set<nat>, p: nat): (r: nat)
    ensures p <= r && r !in used && forall q :: p <= q < r ==> q in used
    decreases set q | q in used && p <= q
  {
    var later := set q | q in used && p <= q;
    if p !in used then p
    else
      assert p in later && (set q | q in used && p + 1 <= q) == later - {p};
      FirstUnused(used, p + 1)
  }

  /** transform, on pages. */
  ghost function Transformed(s: State, code: set<nat>, data: set<nat>, page: nat): (State, nat) {
    if page !in code then (s, page)
    else if page in s.remapped && s.remapped[page] != 0 then (s, s.remapped[page])
    else
      var p := FirstUnused(code + data, s.bump);
      (State(p + 1, s.remapped[page := p]), p)
  }

  /** The pages that all loads and stores of the trace end up on, with the final state. */
  ghost function Converted(t: seq<Record>, code: set<nat>, data: set<nat>, n: nat): (r: (State, seq<nat>))
    requires n <= |t|
    ensures |r.1| == n
  {
    if n == 0 then (FRESH, [])
    else
      var (s, out) := Converted(t, code, data, n - 1);
      if t[n - 1].memory then
        var (s', p) := Transformed(s, code, data, t[n - 1].ea / PAGE);
        (s', out + [p])
      else (s, out + [0])
  }

  /** Remapped pages are fresh and different. */
  ghost predicate Ok(s: State, code: set<nat>, data: set<nat>) {
    && FIRST_FRESH <= s.bump
    && (forall p :: p in s.remapped ==> FIRST_FRESH <= s.remapped[p] < s.bump && s.remapped[p] !in code && s.remapped[p] !in data)
    && (forall p, q :: p in s.remapped && q in s.remapped && s.remapped[p] == s.remapped[q] ==> p == q)
  }

  /** Where a page goes. */
  ghost function Target(s: State, code: set<nat>, page: nat): nat {
    if page in code && page in s.remapped then s.remapped[page] else page
  }

  lemma TransformKeeps(s: State, code: set<nat>, data: set<nat>, page: nat)
    requires Ok(s, code, data)
    ensures var (s', p) := Transformed(s, code, data, page);
            && Ok(s', code, data) && (forall q :: q in s.remapped ==> q in s'.remapped && s'.remapped[q] == s.remapped[q])
            && (page in code ==> page in s'.remapped) && p == Target(s', code, page) && p !in code
  {
  }

  /** The outcome so far is given by the final map, whatever came after. */
  lemma {:induction false} ConversionIsAMap(t: seq<Record>, code: set<nat>, data: set<nat>, n: nat)
    requires n <= |t|
    ensures var (s, out) := Converted(t, code, data, n);
            && Ok(s, code, data)
            && forall i | 0 <= i < n && t[i].memory ::
                 && out[i] == Target(s, code, t[i].ea / PAGE) && out[i] !in code
                 && (t[i].ea / PAGE in code ==> t[i].ea / PAGE in s.remapped)
  {
    if n > 0 {
      ConversionIsAMap(t, code, data, n - 1);
      var (s, out) := Converted(t, code, data, n - 1);
      if t[n - 1].memory { TransformKeeps(s, code, data, t[n - 1].ea / PAGE); }
    }
  }

  /** Over a whole conversion, equal pages go to equal pages, different data pages stay different, and none lands on code. */
  lemma ConversionIsInjective(t: seq<Record>, i: nat, j: nat)
    requires i < |t| && j < |t| && t[i].memory && t[j].memory
    ensures var out := Converted(t, CodePages(t), DataPages(t), |t|).1;
            && out[i] !in CodePages(t)
            && (out[i] == out[j] <==> t[i].ea / PAGE == t[j].ea / PAGE)
  {
    var code, data := CodePages(t), DataPages(t);
    ConversionIsAMap(t, code, data, |t|);
    var (s, out) := Converted(t, code, data, |t|);
    var p, q := t[i].ea / PAGE, t[j].ea / PAGE;
    assert p in data && q in data;
  }

  // ----- as it runs

  /** preprocess_file. */
  method Preprocess(t: seq<Record>) returns (code: set<nat>, data: set<nat>)
    ensures code == CodePages(t) && data == DataPages(t)
  {
    code, data := {}, {};
    for n := 0 to |t|
      invariant code == (set i | 0 <= i < n :: t[i].pc / PAGE) && data == (set i | 0 <= i < n && t[i].memory :: t[i].ea / PAGE)
    {
      code := code + {t[n].pc / PAGE};
      if t[n].memory { data := data + {t[n].ea / PAGE}; }
    }
  }

  class Converter {
    const codePages: set<nat>
    const dataPages: set<nat>
    var bumpPage: nat
    var remappedPages: map<nat, nat>

    ghost function St(): State
      reads this
    {
      State(bumpPage, remappedPages)
    }

    ghost predicate Valid()
      reads this
    {
      Ok(St(), codePages, dataPages)
    }

    constructor (code: set<nat>, data: set<nat>)
      ensures Valid() && St() == FRESH && codePages == code && dataPages == data
    {
      codePages, dataPages, bumpPage, remappedPages := code, data, FIRST_FRESH, map[];
    }

    /** transform; its search ends because the pages of the trace are finitely many. */
    method TransformAddress(a: nat) returns (r: nat)
      requires Valid()
      modifies this
      ensures Valid()
      ensures var (s', p) := Transformed(old(St()), codePages, dataPages, a / PAGE);
              St() == s' && r / PAGE == p && r % PAGE == a % PAGE
    {
      TransformKeeps(St(), codePages, dataPages, a / PAGE);
      var page := a / PAGE;
      var newPage := page;
      if page in codePages {
        newPage := if page in remappedPages then remappedPages[page] else 0;
        if newPage == 0 {
          newPage := bumpPage;
          ghost var free := FirstUnused(codePages + dataPages, bumpPage);
          while newPage in codePages || newPage in dataPages
            invariant newPage <= free && FirstUnused(codePages + dataPages, newPage) == free
            decreases free - newPage
          {
            newPage := newPage + 1;
          }
          bumpPage := newPage + 1;
          remappedPages := remappedPages[page := newPage];
        }
      }
      r := newPage * PAGE + a % PAGE;
    }
  }
}
