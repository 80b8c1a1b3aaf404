/** Bitwise operators on naturals, defined bit by bit, and the mask identities the code relies on. */
module Bits {
  function Shl(a: nat, k: nat): nat {
    if k == 0 then a else 2 * Shl(a, k - 1)
  }

  function Shr(a: nat, k: nat): nat {
    if k == 0 then a else Shr(a / 2, k - 1)
  }

  function Pow2(k: nat): (r: nat)
    ensures r >= 1
  {
    if k == 0 then 1 else 2 * Pow2(k - 1)
  }

  function And(a: nat, b: nat): nat {
    if a == 0 || b == 0 then 0
    else 2 * And(a / 2, b / 2) + (if a % 2 == 1 && b % 2 == 1 then 1 else 0)
  }

  function Or(a: nat, b: nat): nat {
    if a == 0 && b == 0 then 0
    else 2 * Or(a / 2, b / 2) + (if a % 2 == 1 || b % 2 == 1 then 1 else 0)
  }

  lemma MulAtLeast(m: nat, d: int)
    requires d >= 1
    ensures m * d >= m
  {
    assert m * d == m + m * (d - 1);
  }

  lemma DivModUnique(x: int, m: nat, q: int, r: int)
    requires m > 0 && 0 <= r < m && x == m * q + r
    ensures x / m == q && x % m == r
  {
    var q0, r0 := x / m, x % m;
    assert x == m * q0 + r0;
    assert m * (q - q0) == r0 - r && m * (q0 - q) == r - r0 by {
      assert m * (q - q0) == m * q - m * q0;
      assert m * (q0 - q) == m * q0 - m * q;
    }
    if q > q0 {
      MulAtLeast(m, q - q0);
    } else if q < q0 {
      MulAtLeast(m, q0 - q);
    }
  }

  /** Halving before or after reducing modulo a doubled modulus. */
  lemma ModDouble(x: nat, m: nat)
    requires m > 0
    ensures x % (2 * m) == 2 * (x / 2 % m) + x % 2
  {
    var q, r := x / 2 / m, x / 2 % m;
    assert x / 2 == m * q + r;
    DivModUnique(x, 2 * m, q, 2 * r + x % 2);
  }

  lemma AndStep(a: nat, bit: nat, b: nat, mask: nat)
    requires bit < 2 && mask < 2
    ensures And(2 * a + bit, 2 * b + mask) == 2 * And(a, b) + (if bit == 1 && mask == 1 then 1 else 0)
  {
  }

  lemma {:induction false} AndAtMost(a: nat, b: nat)
    ensures And(a, b) <= a
    decreases a
  {
    if a > 0 && b > 0 {
      AndAtMost(a / 2, b / 2);
    }
  }

  /** `x & (2^k - 1)` is `x mod 2^k`. */
  lemma {:induction false} AndLowMask(x: nat, k: nat)
    ensures And(x, Pow2(k) - 1) == x % Pow2(k)
    decreases k
  {
    if k > 0 {
      hide And;
      AndOnes(x, Pow2(k - 1));
      ModDouble(x, Pow2(k - 1));
      AndLowMask(x / 2, k - 1);
    } else {
      assert And(x, 0) == 0;
    }
  }

  lemma AndOnes(x: nat, m: nat)
    requires m > 0
    ensures And(x, 2 * m - 1) == 2 * And(x / 2, m - 1) + x % 2
  {
    AndStep(x / 2, x % 2, m - 1, 1);
  }

  /** A mask whose low k bits are clear looks only at the high part. */
  lemma {:induction false} AndShifted(x: nat, k: nat, m: nat)
    ensures And(x, Shl(m, k)) == Shl(And(Shr(x, k), m), k)
    decreases k
  {
    if k > 0 {
      AndShifted(x / 2, k - 1, m);
    }
  }

  lemma {:induction false} OrZero(a: nat)
    ensures Or(a, 0) == a
  {
    if a > 0 {
      OrZero(a / 2);
    }
  }

  /** `|` of a number with clear low bits and a number that fits there is their sum. */
  lemma {:induction false} OrDisjoint(a: nat, k: nat, b: nat)
    requires b < Pow2(k)
    ensures Or(Shl(a, k), b) == Shl(a, k) + b
    decreases k
  {
    if k == 0 {
      OrZero(a);
    } else {
      OrDisjoint(a, k - 1, b / 2);
    }
  }
}
