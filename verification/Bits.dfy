/** Bit arithmetic on unbounded naturals: the two bit tricks the allocator uses on addresses
    (flip one bit, clear the low bits), each proved equal to plain arithmetic. */
module Bits {

  function Pow2(k: nat): (p: nat)
    ensures p > 0
  {
    if k == 0 then 1 else 2 * Pow2(k - 1)
  }

  lemma {:induction false} Pow2Sum(a: nat, b: nat)
    ensures Pow2(a + b) == Pow2(a) * Pow2(b)
  {
    if a > 0 { Pow2Sum(a - 1, b); }
  }

  /** `a ^ b`, bit by bit. */
  function Xor(a: nat, b: nat): nat
    decreases a + b
  {
    if a == 0 && b == 0 then 0
    else 2 * Xor(a / 2, b / 2) + (if a % 2 != b % 2 then 1 else 0)
  }

  /** `a & !b`, bit by bit. */
  function AndNot(a: nat, b: nat): nat {
    if a == 0 then 0
    else 2 * AndNot(a / 2, b / 2) + (if a % 2 == 1 && b % 2 == 0 then 1 else 0)
  }

  lemma {:induction false} XorZero(a: nat)
    ensures Xor(a, 0) == a
  {
    if a > 0 { XorZero(a / 2); }
  }

  /** Flipping bit `k` adds or subtracts `2^k`, whichever clears or sets that bit. */
  lemma {:induction false} XorPow2(a: nat, k: nat)
    ensures Xor(a, Pow2(k)) == if a / Pow2(k) % 2 == 0 then a + Pow2(k) else a - Pow2(k)
  {
    if k == 0 {
      XorZero(a / 2);
      assert Xor(a, 1) == 2 * Xor(a / 2, 0) + (if a % 2 != 1 then 1 else 0);
    } else {
      XorPow2(a / 2, k - 1);
      DivDiv(a, Pow2(k - 1));
      assert Pow2(k) / 2 == Pow2(k - 1) && Pow2(k) % 2 == 0;
    }
  }

  /** Masking with the complement of `2^k - 1` rounds down to a multiple of `2^k`. */
  lemma {:induction false} AndNotMask(a: nat, k: nat, p: nat)
    requires p == Pow2(k)
    ensures AndNot(a, p - 1) == a - a % p
  {
    hide AndNot;
    if k == 0 {
      AndNotZero(a);
    } else if a == 0 {
      NoneAndNot(p - 1);
    } else {
      var h := Pow2(k - 1);
      AndNotMask(a / 2, k - 1, h);
      AndNotStep(a, h, a / 2 - a / 2 % h);
      ModDouble(a, h);
    }
  }

  lemma NoneAndNot(b: nat)
    ensures AndNot(0, b) == 0
  {
  }

  lemma AndNotStep(a: nat, p: nat, x: nat)
    requires a > 0 && p > 0 && AndNot(a / 2, p - 1) == x
    ensures AndNot(a, 2 * p - 1) == 2 * x
  {
    assert (2 * p - 1) / 2 == p - 1 && (2 * p - 1) % 2 == 1;
  }

  lemma {:induction false} AndNotZero(a: nat)
    ensures AndNot(a, 0) == a
  {
    if a > 0 { AndNotZero(a / 2); }
  }

  lemma DivDiv(a: nat, p: nat)
    requires p > 0
    ensures a / 2 / p == a / (2 * p)
  {
    var q, r := a / 2 / p, a / 2 % p;
    assert a / 2 == q * p + r;
    assert a == (2 * p) * q + (2 * r + a % 2);
    Quotient(a, 2 * p, q, 2 * r + a % 2);
  }

  lemma ModDouble(a: nat, p: nat)
    requires p > 0
    ensures a % (2 * p) == 2 * (a / 2 % p) + a % 2
  {
    var q, r := a / 2 / p, a / 2 % p;
    assert a / 2 == q * p + r;
    assert a == (2 * p) * q + (2 * r + a % 2);
    Quotient(a, 2 * p, q, 2 * r + a % 2);
  }

  /** Euclidean division is unique. */
  lemma Quotient(a: nat, d: nat, q: nat, r: nat)
    requires d > 0 && r < d && a == d * q + r
    ensures a / d == q && a % d == r
  {
    var e := a / d - q;
    assert d * e == r - a % d;
    assert d * e > 0 - d && d * e < d;
    assert e == 0 by {
      if e >= 1 { Grows(d, e, 1); } else if e <= -1 { Grows(d, -1, e); }
    }
  }

  lemma Grows(d: nat, x: int, y: int)
    requires x >= y
    ensures d * x >= d * y
  {
    assert d * (x - y) >= 0;
  }
}
