/** Address translation: how a core number enters a virtual page, and the two page tables with their allocation and swap. */
module PageTables {
  import opened Bits

  // ----- cores and pages

  /** The number of bits below the highest bit of `n`. */
  function Lg(n: nat): (c: nat)
    requires n > 0
    ensures Power(c) <= n < Power(c + 1)
  {
    if n == 1 then 0 else Lg(n / 2) + 1
  }

  /** lg2: the loop gives -1 for 0. */
  method Lg2(n: nat) returns (c: int)
    ensures c == if n == 0 then -1 else Lg(n)
  {
    var m := n;
    c := -1;
    while m != 0
      invariant if n == 0 then m == 0 && c == -1 else if m == 0 then c == Lg(n) else c + 1 + Lg(m) == Lg(n)
    {
      m := m / 2;
      c := c + 1;
    }
  }

  const WIDTH: nat := 64

  /** n << c. */
  function ShiftedLeft(n: nat, c: nat): nat {
    if c == 0 then n else 2 * ShiftedLeft(n, c - 1)
  }

  /** rotr64. */
  function RotateRight(n: nat, c: nat): nat
    requires c < WIDTH
  {
    Or(Above(n, Power(c)), Low(ShiftedLeft(n, LeftShift(c)), Power(WIDTH)))
  }

  /** The shift to the left in a rotation to the right: -c & 63. */
  function LeftShift(c: nat): nat
    requires c < WIDTH
  {
    if c == 0 then 0 else WIDTH - c
  }

  /** What the core number adds to a virtual address or page. */
  function CoreMask(cores: nat, cpu: nat): nat
    requires 0 < cores && Lg(cores) < WIDTH
  {
    RotateRight(cpu, Lg(cores))
  }

  function VirtualPage(cores: nat, cpu: nat, page: nat): nat
    requires 0 < cores && Lg(cores) < WIDTH
  {
    Or(page, CoreMask(cores, cpu))
  }

  function PageOffset(cores: nat, cpu: nat, va: nat): nat
    requires 0 < cores && Lg(cores) < WIDTH
  {
    Or(va, CoreMask(cores, cpu)) % 4096
  }

  predicate IsPower(cores: nat)
    requires 0 < cores
  {
    Power(Lg(cores)) == cores
  }

  lemma {:induction false} PowerGrows(a: nat, b: nat)
    requires a <= b
    ensures Power(a) <= Power(b)
    decreases b
  {
    if a < b { PowerGrows(a, b - 1); }
  }

  lemma {:induction false} OrSelf(n: nat)
    ensures Or(n, n) == n
  {
    if n > 0 { OrSelf(n / 2); }
  }

  lemma FromHalves(x: nat, q: nat, r: nat)
    requires x / 2 == q && x % 2 == r
    ensures x == 2 * q + r
  {
  }

  lemma OrEven(a: nat, b: nat)
    requires Or(a / 2, b) == a / 2 + b
    ensures Or(a, 2 * b) == a + 2 * b
  {
    hide Or;
    OrHalves(a, 2 * b);
    FromHalves(Or(a, 2 * b), a / 2 + b, a % 2);
  }

  /** A shift to the left is a multiplication. */
  lemma {:induction false} ShiftIsProduct(n: nat, c: nat)
    ensures ShiftedLeft(n, c) == n * Power(c)
  {
    if c > 0 { ShiftIsProduct(n, c - 1); }
  }

  lemma {:induction false} ShiftOfPower(a: nat, b: nat)
    ensures ShiftedLeft(Power(a), b) == Power(a + b)
    decreases b
  {
    if b > 0 { ShiftOfPower(a, b - 1); }
  }

  lemma {:induction false} ShiftTwice(n: nat, a: nat, b: nat)
    ensures ShiftedLeft(n, a + b) == ShiftedLeft(ShiftedLeft(n, a), b)
    decreases b
  {
    if b > 0 { ShiftTwice(n, a, b - 1); }
  }

  lemma {:induction false} ShiftFits(n: nat, k: nat, j: nat)
    requires n < Power(k)
    ensures ShiftedLeft(n, j) < Power(k + j)
    decreases j
  {
    if j > 0 { ShiftFits(n, k, j - 1); }
  }

  /** A number of at most `j` bits and one shifted past them have no bits in common. */
  lemma {:induction false} OrDisjoint(a: nat, m: nat, j: nat)
    requires a < Power(j)
    ensures Or(a, ShiftedLeft(m, j)) == a + ShiftedLeft(m, j)
    decreases j
  {
    if j == 0 {
      OrWithZero(m);
    } else {
      OrDisjoint(a / 2, m, j - 1);
      OrEven(a, ShiftedLeft(m, j - 1));
    }
  }

  lemma Small(n: nat, m: nat)
    requires n < m
    ensures Low(n, m) == n && Above(n, m) == 0
  {
    LowOfSmall(n, m);
    AboveBelow(n, m, 1);
  }

  lemma RotateSmall(n: nat, k: nat)
    requires n < Power(k) && 0 < k < WIDTH
    ensures RotateRight(n, k) == ShiftedLeft(n, WIDTH - k)
  {
    hide Low, Above, Power, Or, ShiftedLeft;
    ShiftFits(n, k, WIDTH - k);
    var x := ShiftedLeft(n, WIDTH - k);
    Small(n, Power(k));
    Small(x, Power(WIDTH));
    OrWithZero(x);
  }

  lemma RotateZero()
    ensures RotateRight(0, 0) == 0
  {
    hide Low, Or, Power;
    assert ShiftedLeft(0, 0) == 0;
    Small(0, Power(WIDTH));
    Small(0, Power(0));
    OrWithZero(0);
  }

  /** For a power-of-two number of cores the mask is the core number in the highest bits. */
  lemma MaskOfPower(cores: nat, cpu: nat, k: nat)
    requires 0 < cores && k == Lg(cores) < WIDTH && IsPower(cores) && cpu < cores
    ensures CoreMask(cores, cpu) == ShiftedLeft(cpu, WIDTH - k)
  {
    if k == 0 {
      assert cores == 1;
      RotateZero();
      ShiftIsProduct(0, WIDTH);
    } else {
      hide RotateRight, Power, ShiftedLeft;
      RotateSmall(cpu, k);
    }
  }

  /** For any other number of cores, the highest bit of a core number ends up in the lowest bit of the mask. */
  lemma MaskOfOther(cores: nat)
    requires 0 < cores && Lg(cores) < WIDTH && !IsPower(cores)
    ensures Power(Lg(cores)) < cores && CoreMask(cores, Power(Lg(cores))) == 1
  {
    var k := Lg(cores);
    assert k > 0;
    RotateOut(k);
  }

  lemma RotateOut(k: nat)
    requires 0 < k < WIDTH
    ensures RotateRight(Power(k), k) == 1
  {
    hide Low, Above, Power, Or, ShiftedLeft;
    ShiftOfPower(k, WIDTH - k);
    SelfParts(Power(k));
    SelfParts(Power(WIDTH));
    OrWithZero(1);
  }

  // ----- different pages stay different

  /** Pages of 52 bits of different cores, or different pages of one core, become different virtual pages. */
  ghost predicate Separate(cores: nat)
    requires 0 < cores && Lg(cores) < WIDTH
  {
    forall c: nat, d: nat, p: nat, q: nat ::
      c < cores && d < cores && p < Power(52) && q < Power(52) && VirtualPage(cores, c, p) == VirtualPage(cores, d, q) ==> c == d && p == q
  }

  lemma PageOfPower(cores: nat, cpu: nat, page: nat, k: nat)
    requires 0 < cores && k == Lg(cores) <= 12 && IsPower(cores) && cpu < cores && page < Power(52)
    ensures page < Power(WIDTH - k) && VirtualPage(cores, cpu, page) == Join(page, Power(WIDTH - k), cpu)
  {
    hide Power, Or, CoreMask, Lg, IsPower, ShiftedLeft;
    PowerGrows(52, WIDTH - k);
    MaskOfPower(cores, cpu, k);
    OrDisjoint(page, cpu, WIDTH - k);
    ShiftIsProduct(cpu, WIDTH - k);
    Commutes(cpu, Power(WIDTH - k));
  }

  lemma Commutes(a: nat, b: nat)
    ensures a * b == b * a
  {
  }

  lemma PowerIsSeparate(cores: nat, k: nat)
    requires 0 < cores && k == Lg(cores) <= 12 && IsPower(cores)
    ensures Separate(cores)
  {
    hide VirtualPage, Power, Low, Above, Join, Lg, IsPower;
    forall c: nat, d: nat, p: nat, q: nat
      | c < cores && d < cores && p < Power(52) && q < Power(52) && VirtualPage(cores, c, p) == VirtualPage(cores, d, q)
      ensures c == d && p == q
    {
      PageOfPower(cores, c, p, k);
      PageOfPower(cores, d, q, k);
      JoinParts(p, Power(WIDTH - k), c);
      JoinParts(q, Power(WIDTH - k), d);
    }
  }

  lemma OtherCollides(cores: nat)
    requires 0 < cores && Lg(cores) < WIDTH && !IsPower(cores)
    ensures !Separate(cores)
  {
    MaskOfOther(cores);
    PowerGrows(1, 52);
    var c := Power(Lg(cores));
    assert VirtualPage(cores, c, 0) == Or(0, 1) == 1;
    assert VirtualPage(cores, c, 1) == Or(1, 1) == 1;
  }

  lemma TooManyCollide(cores: nat, k: nat)
    requires 0 < cores && 13 <= k == Lg(cores) < WIDTH && IsPower(cores)
    ensures !Separate(cores)
  {
    hide Power, Or, Low, Above, Lg, CoreMask, ShiftedLeft;
    var c, p := Power(k - 13), Power(51);
    PowerStrict(k - 13, k);
    assert IsPower(cores) && c < cores;
    MaskOfPower(cores, c, k);
    ShiftOfPower(k - 13, WIDTH - k);
    OrWithZero(p);
    OrSelf(p);
    PowerStrict(51, 52);
    assert VirtualPage(cores, c, 0) == VirtualPage(cores, c, p);
  }

  lemma {:induction false} PowerStrict(a: nat, b: nat)
    requires a < b
    ensures Power(a) < Power(b)
    decreases b
  {
    if a < b - 1 { PowerStrict(a, b - 1); }
  }

  lemma LgBound(cores: nat)
    requires 0 < cores && IsPower(cores)
    ensures Lg(cores) <= 12 <==> cores <= 4096
  {
    PowerOfTwelve();
    if Lg(cores) <= 12 { PowerGrows(Lg(cores), 12); } else { PowerStrict(12, Lg(cores)); }
  }

  /** Running the same pages on several cores never mixes them up exactly if the number of cores is a power of two, at most 4096. */
  lemma CoresAreSeparate(cores: nat)
    requires 0 < cores && Lg(cores) < WIDTH
    ensures Separate(cores) <==> IsPower(cores) && cores <= 4096
  {
    if IsPower(cores) {
      LgBound(cores);
      if Lg(cores) <= 12 { PowerIsSeparate(cores, Lg(cores)); } else { TooManyCollide(cores, Lg(cores)); }
    } else {
      OtherCollides(cores);
    }
  }

  lemma {:induction false} OrKeepsLow(a: nat, m: nat, n: nat)
    ensures Low(Or(a, ShiftedLeft(m, n)), Power(n)) == Low(a, Power(n))
    decreases n
  {
    if n > 0 {
      var p, b := Power(n - 1), ShiftedLeft(m, n - 1);
      OrKeepsLow(a / 2, m, n - 1);
      hide Or, Low;
      OrHalves(a, 2 * b);
      FromHalves(Or(a, 2 * b), Or(a / 2, b), a % 2);
      FromHalves(a, a / 2, a % 2);
      DoubleLow(Or(a / 2, b), a % 2, p);
      DoubleLow(a / 2, a % 2, p);
    } else {
      LowOne(Or(a, m));
      LowOne(a);
    }
  }

  lemma LowOne(n: nat)
    ensures Low(n, 1) == 0
  {
  }

  lemma DoubleLow(x: nat, r: nat, p: nat)
    requires r < 2 && p > 0
    ensures Low(2 * x + r, 2 * p) == 2 * Low(x, p) + r
  {
    var l, a := Low(x, p), Above(x, p);
    PartsJoin(x, p);
    assert 2 * x + r == Join(2 * l + r, 2 * p, a);
    JoinParts(2 * l + r, 2 * p, a);
  }

  /** The offset within the page survives for every core exactly if the number of cores is a power of two. */
  lemma OffsetSurvives(cores: nat)
    requires 0 < cores && Lg(cores) <= 52
    ensures (forall cpu: nat, va: nat :: cpu < cores ==> PageOffset(cores, cpu, va) == va % 4096) <==> IsPower(cores)
  {
    hide PageOffset, IsPower, Lg;
    if IsPower(cores) {
      forall cpu: nat, va: nat | cpu < cores ensures PageOffset(cores, cpu, va) == va % 4096 { OffsetOfPower(cores, cpu, va); }
    } else {
      OffsetLost(cores);
    }
  }

  lemma TwoOrOne()
    ensures Or(2, 1) == 3
  {
    OrHalves(2, 1);
    OrWithZero(1);
  }

  lemma OffsetLost(cores: nat)
    requires 0 < cores && Lg(cores) < WIDTH && !IsPower(cores)
    ensures exists cpu: nat :: cpu < cores && PageOffset(cores, cpu, 2) != 2 % 4096
  {
    hide Or, Lg, Power, CoreMask;
    MaskOfOther(cores);
    TwoOrOne();
    assert PageOffset(cores, Power(Lg(cores)), 2) == 3;
  }

  lemma OffsetOfPower(cores: nat, cpu: nat, va: nat)
    requires 0 < cores && Lg(cores) <= 52 && IsPower(cores) && cpu < cores
    ensures PageOffset(cores, cpu, va) == va % 4096
  {
    hide Power, Or, CoreMask, IsPower, ShiftedLeft;
    var k := Lg(cores);
    MaskOfPower(cores, cpu, k);
    ShiftTwice(cpu, 52 - k, 12);
    OrKeepsLow(va, ShiftedLeft(cpu, 52 - k), 12);
    PowerOfTwelve();
  }
}
