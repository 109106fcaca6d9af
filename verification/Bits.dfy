/** Numbers as strings of bits and of fields. */
module Bits {
  import opened Common

  function Power(n: nat): (p: nat)
    ensures p > 0
  {
    if n == 0 then 1 else 2 * Power(n - 1)
  }

  lemma SixteenBits()
    ensures Power(16) == 0x10000
  {
    assert Power(4) == 16;
    assert Power(8) == 256;
    assert Power(12) == 4096;
  }

  // ----- bits, the lowest first

  predicate Bit(h: nat, b: nat)
    decreases b
  {
    if b == 0 then h % 2 == 1 else Bit(h / 2, b - 1)
  }

  /** h | 1 << b. */
  function WithBit(h: nat, b: nat): nat
    decreases b
  {
    if b == 0 then h - h % 2 + 1 else 2 * WithBit(h / 2, b - 1) + h % 2
  }

  /** h | g. */
  function Or(h: nat, g: nat): nat {
    if h == 0 && g == 0 then 0 else 2 * Or(h / 2, g / 2) + if h % 2 == 1 || g % 2 == 1 then 1 else 0
  }

  /** h ^ g. */
  function Xor(h: nat, g: nat): nat {
    if h == 0 && g == 0 then 0 else 2 * Xor(h / 2, g / 2) + if (h % 2) != (g % 2) then 1 else 0
  }

  lemma XorHalves(h: nat, g: nat)
    ensures Xor(h, g) / 2 == Xor(h / 2, g / 2)
    ensures Xor(h, g) % 2 == if (h % 2) != (g % 2) then 1 else 0
  {
  }

  lemma {:induction false} BitOfXor(h: nat, g: nat, c: nat)
    ensures Bit(Xor(h, g), c) <==> Bit(h, c) != Bit(g, c)
    decreases c
  {
    hide Xor;
    XorHalves(h, g);
    if c > 0 { BitOfXor(h / 2, g / 2, c - 1); }
  }

  /** The bits of h % 2^n, and of h / 2^n. */
  lemma {:induction false} BitOfLow(h: nat, n: nat, c: nat)
    ensures Bit(Low(h, Power(n)), c) <==> c < n && Bit(h, c)
    decreases n
  {
    if n == 0 {
      BitOfZero(c);
    } else {
      LowHalves(h, Power(n - 1));
      if c > 0 { BitOfLow(h / 2, n - 1, c - 1); }
    }
  }

  lemma LowHalves(h: nat, m: nat)
    requires m > 0
    ensures Low(h, 2 * m) % 2 == h % 2 && Low(h, 2 * m) / 2 == Low(h / 2, m)
  {
    var q, r := h / 2 / m, h / 2 % m;
    assert h / 2 == m * q + r;
    assert h == 2 * m * q + (2 * r + h % 2);
    JoinParts(2 * r + h % 2, 2 * m, q);
  }

  lemma {:induction false} BitOfAbove(h: nat, n: nat, c: nat)
    ensures Bit(Above(h, Power(n)), c) <==> Bit(h, c + n)
    decreases n
  {
    if n > 0 {
      AboveHalves(h, Power(n - 1));
      BitOfAbove(h / 2, n - 1, c);
    }
  }

  lemma AboveHalves(h: nat, m: nat)
    requires m > 0
    ensures Above(h, 2 * m) == Above(h / 2, m)
  {
    var q, r := h / 2 / m, h / 2 % m;
    assert h / 2 == m * q + r;
    assert h == 2 * m * q + (2 * r + h % 2);
    JoinParts(2 * r + h % 2, 2 * m, q);
  }

  lemma {:induction false} BitOfWith(h: nat, b: nat, c: nat)
    ensures Bit(WithBit(h, b), c) <==> b == c || Bit(h, c)
    decreases b
  {
    if b > 0 && c > 0 { BitOfWith(h / 2, b - 1, c - 1); }
  }

  lemma {:induction false} WithBitFits(h: nat, b: nat, n: nat)
    requires h < Power(n) && b < n
    ensures WithBit(h, b) < Power(n)
    decreases n
  {
    if b > 0 { WithBitFits(h / 2, b - 1, n - 1); }
  }

  /** The lowest bit of an or, and the bits above it. */
  lemma OrHalves(h: nat, g: nat)
    ensures Or(h, g) / 2 == Or(h / 2, g / 2)
    ensures Or(h, g) % 2 == if h % 2 == 1 || g % 2 == 1 then 1 else 0
  {
  }

  lemma {:induction false} BitOfOr(h: nat, g: nat, c: nat)
    ensures Bit(Or(h, g), c) <==> Bit(h, c) || Bit(g, c)
    decreases c
  {
    hide Or;
    OrHalves(h, g);
    if c > 0 { BitOfOr(h / 2, g / 2, c - 1); }
  }

  lemma {:induction false} OrFits(h: nat, g: nat, n: nat)
    requires h < Power(n) && g < Power(n)
    ensures Or(h, g) < Power(n)
    decreases n
  {
    if n > 0 { OrFits(h / 2, g / 2, n - 1); }
  }

  lemma {:induction false} BitOfZero(c: nat)
    ensures !Bit(0, c)
  {
    if c > 0 { BitOfZero(c - 1); }
  }

  // ----- fields: the low part of a number, what is above it, and putting both together

  function Low(a: nat, m: nat): nat
    requires m > 0
  {
    a % m
  }

  function Above(a: nat, m: nat): nat
    requires m > 0
  {
    a / m
  }

  function Join(x: nat, m: nat, y: nat): nat { x + m * y }

  lemma AboveBelow(a: nat, m: nat, n: nat)
    requires m > 0 && a < m * n
    ensures Above(a, m) < n
  {
    assert a == m * (a / m) + a % m;
    if a / m >= n { MulMonotonic(m, n, a / m); }
  }

  lemma JoinParts(x: nat, m: nat, y: nat)
    requires x < m
    ensures Low(Join(x, m, y), m) == x && Above(Join(x, m, y), m) == y
  {
    var a := x + m * y;
    var q, r := a / m, a % m;
    assert a == m * q + r;
    if q < y { MulMonotonic(m, q + 1, y); }
    if q > y { MulMonotonic(m, y + 1, q); }
  }

  lemma PartsJoin(a: nat, m: nat)
    requires m > 0
    ensures Join(Low(a, m), m, Above(a, m)) == a
  {
  }

  lemma LowOfSmall(a: nat, m: nat)
    requires a < m
    ensures Low(a, m) == a
  {
  }

  lemma SelfParts(m: nat)
    requires m > 0
    ensures Low(m, m) == 0 && Above(m, m) == 1
  {
    JoinParts(0, m, 1);
  }

  lemma {:induction false} OrWithZero(n: nat)
    ensures Or(n, 0) == n && Or(0, n) == n
  {
    if n > 0 { OrWithZero(n / 2); }
  }

  lemma {:induction false} PowerAdds(a: nat, b: nat)
    ensures Power(a + b) == Power(a) * Power(b)
    decreases a
  {
    if a > 0 {
      PowerAdds(a - 1, b);
      assert Power(a) * Power(b) == 2 * (Power(a - 1) * Power(b));
    }
  }

  lemma PowerOfTwelve()
    ensures Power(12) == 4096
  {
    assert Power(4) == 16;
    assert Power(8) == 256;
  }
}
