/** The bit operations of the source on unsigned integers, and what they are in arithmetic. */
module Bitwise {
  import opened Bytes

  function Pow2(k: nat): (p: nat)
    ensures p > 0
  {
    if k == 0 then 1 else 2 * Pow2(k - 1)
  }

  // a | b
  function Or(a: nat, b: nat): nat
    decreases a + b
  {
    if a == 0 && b == 0 then 0 else
      2 * Or(a / 2, b / 2) + if a % 2 == 1 || b % 2 == 1 then 1 else 0
  }

  // a & b
  function And(a: nat, b: nat): nat
    decreases a
  {
    if a == 0 then 0 else
      2 * And(a / 2, b / 2) + if a % 2 == 1 && b % 2 == 1 then 1 else 0
  }

  lemma {:induction false} OrNothing(b: nat)
    ensures Or(0, b) == b
  {
    if b > 0 {
      OrNothing(b / 2);
    }
  }

  lemma {:induction false} AndNothing(a: nat)
    ensures And(a, 0) == 0
  {
    if a > 0 {
      AndNothing(a / 2);
    }
  }

  lemma {:induction false} OrCommutes(a: nat, b: nat)
    ensures Or(a, b) == Or(b, a)
    decreases a + b
  {
    if a != 0 || b != 0 {
      OrCommutes(a / 2, b / 2);
    }
  }

  lemma {:induction false} OrInRange(a: nat, b: nat, k: nat)
    requires a < Pow2(k) && b < Pow2(k)
    ensures Or(a, b) < Pow2(k)
    decreases k
  {
    if k > 0 {
      OrInRange(a / 2, b / 2, k - 1);
    }
  }

  /** Fields that do not overlap are added. */
  lemma {:induction false} OrDisjoint(lo: nat, k: nat, hi: nat)
    requires lo < Pow2(k)
    ensures Or(lo, hi * Pow2(k)) == lo + hi * Pow2(k)
    decreases k
  {
    if k == 0 {
      OrNothing(hi);
    } else {
      var half := hi * Pow2(k - 1);
      assert hi * Pow2(k) == 2 * half;
      OrDisjoint(lo / 2, k - 1, hi);
      OrStep(lo, half);
    }
  }

  lemma OrBelow(hi: nat, k: nat, lo: nat)
    requires lo < Pow2(k)
    ensures Or(hi * Pow2(k), lo) == hi * Pow2(k) + lo
  {
    OrCommutes(hi * Pow2(k), lo);
    OrDisjoint(lo, k, hi);
  }

  // Setting a bit that is clear.
  lemma {:induction false} OrClear(lo: nat, k: nat, hi: nat)
    requires lo < Pow2(k)
    ensures Or(lo + hi * (2 * Pow2(k)), Pow2(k)) == lo + hi * (2 * Pow2(k)) + Pow2(k)
    decreases k
  {
    hide Or;
    if k == 0 {
      OrBelow(hi, 1, 1);
    } else {
      var p := Pow2(k - 1);
      Doubled(hi, 2 * p);
      var a := lo / 2 + hi * (2 * p);
      OrClear(lo / 2, k - 1, hi);
      assert lo + hi * (2 * Pow2(k)) == 2 * a + lo % 2;
      assert (2 * a + lo % 2) / 2 == a;
      OrStep(2 * a + lo % 2, p);
    }
  }

  lemma OrStep(lo: nat, half: nat)
    ensures Or(lo, 2 * half) == 2 * Or(lo / 2, half) + lo % 2
  {
    assert (2 * half) / 2 == half;
  }

  /** A mask of ones keeps the low bits. */
  lemma {:induction false} MaskIsLow(x: nat, n: nat)
    ensures And(x, Pow2(n) - 1) == Low(x, Pow2(n))
    decreases n
  {
    if n == 0 {
      AndNothing(x);
      LowIs(x, 0, 1, x);
    } else {
      var half := Pow2(n - 1);
      MaskIsLow(x / 2, n - 1);
      AndOdd(x, half - 1);
      hide And, Low;
      HalfLow(x, half);
    }
  }

  lemma AndOdd(x: nat, m: nat)
    ensures And(x, 2 * m + 1) == 2 * And(x / 2, m) + x % 2
  {
    assert (2 * m + 1) / 2 == m;
  }

  lemma HalfLow(x: nat, half: nat)
    requires half > 0
    ensures Low(x, 2 * half) == 2 * Low(x / 2, half) + x % 2
  {
    var q, r := (x / 2) / half, (x / 2) % half;
    assert x / 2 == half * q + r;
    assert x == (2 * r + x % 2) + 2 * half * q;
    LowIs(x, 2 * r + x % 2, 2 * half, q);
  }

  lemma {:induction false} AndShifted(x: nat, m: nat, k: nat)
    ensures And(x * Pow2(k), m * Pow2(k)) == And(x, m) * Pow2(k)
    decreases k
  {
    hide And;
    if k > 0 {
      var p := Pow2(k - 1);
      Doubled(x, p);
      Doubled(m, p);
      Doubled(And(x, m), p);
      AndShifted(x, m, k - 1);
      AndStep(x * p, m * p);
    }
  }

  lemma Doubled(x: nat, p: nat)
    ensures x * (2 * p) == 2 * (x * p)
  {
  }

  lemma AndUnfold(a: nat, b: nat)
    ensures And(a, b) == 2 * And(a / 2, b / 2) + if a % 2 == 1 && b % 2 == 1 then 1 else 0
  {
  }

  // Bits above the mask do not matter.
  lemma {:induction false} AndCut(x: nat, m: nat, n: nat)
    requires m < Pow2(n)
    ensures And(Low(x, Pow2(n)), m) == And(x, m)
    decreases n
  {
    hide And, Low;
    if n == 0 {
      AndNothing(Low(x, Pow2(n)));
      AndNothing(x);
    } else {
      var p := Pow2(n - 1);
      HalfLow(x, p);
      var y, half := Low(x, 2 * p), Low(x / 2, p);
      assert y / 2 == half && y % 2 == x % 2;
      AndUnfold(y, m);
      AndUnfold(x, m);
      AndCut(x / 2, m / 2, n - 1);
    }
  }

  lemma AndStep(a: nat, b: nat)
    ensures And(2 * a, 2 * b) == 2 * And(a, b)
  {
    assert (2 * a) / 2 == a && (2 * b) / 2 == b;
  }

  // x & mask, the mask being n ones.
  function Mask(x: nat, n: nat): (r: nat)
    ensures r == Low(x, Pow2(n))
  {
    MaskIsLow(x, n);
    And(x, Pow2(n) - 1)
  }

  // (x >> k) & mask
  function Extract(x: nat, k: nat, n: nat): (r: nat)
    ensures r == Bits(x, Pow2(k), Pow2(n))
  {
    MaskIsLow(Shr(x, Pow2(k)), n);
    hide And, Pow2;
    And(Shr(x, Pow2(k)), Pow2(n) - 1)
  }

  // x >> k, m being the power of two.
  function Shr(x: nat, m: nat): nat
    requires m > 0
  {
    x / m
  }

  // (x << k) & mask, the mask being n ones shifted by k.
  function Field(x: nat, k: nat, n: nat): (r: nat)
    ensures r == Low(x, Pow2(n)) * Pow2(k)
  {
    MaskIsLow(x, n);
    AndShifted(x, Pow2(n) - 1, k);
    hide And, Pow2, Low;
    And(Shl(x, Pow2(k)), Shl(Pow2(n) - 1, Pow2(k)))
  }

  // x << k, m being the power of two.
  function Shl(x: nat, m: nat): nat { x * m }

  // (x << k) & mask in 64-bit arithmetic
  function Field64(x: nat, k: nat, n: nat): (r: nat)
    requires Shl(Pow2(n) - 1, Pow2(k)) < Pow2(64)
    ensures r == Low(x, Pow2(n)) * Pow2(k)
  {
    AndCut(Shl(x, Pow2(k)), Shl(Pow2(n) - 1, Pow2(k)), 64);
    MaskIsLow(x, n);
    AndShifted(x, Pow2(n) - 1, k);
    hide And, Pow2, Low;
    And(Low(Shl(x, Pow2(k)), Pow2(64)), Shl(Pow2(n) - 1, Pow2(k)))
  }

  // lo |= (x << k) & mask
  function Insert(lo: nat, x: nat, k: nat, n: nat): (r: nat)
    requires lo < Pow2(k)
    ensures r == lo + Low(x, Pow2(n)) * Pow2(k)
  {
    OrDisjoint(lo, k, Low(x, Pow2(n)));
    Or(lo, Field(x, k, n))
  }

  lemma Powers()
    ensures Pow2(0) == 1 && Pow2(1) == 2 && Pow2(2) == 4 && Pow2(3) == 8 && Pow2(4) == 16 && Pow2(5) == 32
    ensures Pow2(6) == 64 && Pow2(7) == 128 && Pow2(8) == 256 && Pow2(9) == 0x200 && Pow2(10) == 0x400
    ensures Pow2(12) == 0x1000 && Pow2(13) == 0x2000 && Pow2(14) == 0x4000 && Pow2(15) == 0x8000 && Pow2(16) == 0x1_0000
    ensures Pow2(17) == 0x2_0000 && Pow2(64) == 0x1_0000_0000_0000_0000
    ensures Pow2(24) == 0x100_0000 && Pow2(25) == 0x200_0000 && Pow2(30) == 0x4000_0000
  {
    assert Pow2(4) == 16;
    assert Pow2(8) == 256;
    assert Pow2(12) == 0x1000;
    assert Pow2(16) == 0x1_0000;
    assert Pow2(20) == 0x10_0000;
    assert Pow2(24) == 0x100_0000;
    assert Pow2(28) == 0x1000_0000;
    assert Pow2(32) == 0x1_0000_0000;
    assert Pow2(36) == 0x10_0000_0000;
    assert Pow2(40) == 0x100_0000_0000;
    assert Pow2(44) == 0x1000_0000_0000;
    assert Pow2(48) == 0x1_0000_0000_0000;
    assert Pow2(52) == 0x10_0000_0000_0000;
    assert Pow2(56) == 0x100_0000_0000_0000;
    assert Pow2(60) == 0x1000_0000_0000_0000;
  }
}
