/** Bitwise AND and OR on natural numbers, digit by digit, and the two facts the
    C sources lean on: masking by 2^k - 1 is a remainder, and OR-ing a number
    into free high bits is an addition. */
module Bits {

  function Pow2(k: nat): (p: nat)
    ensures p > 0
  {
    if k == 0 then 1 else 2 * Pow2(k - 1)
  }

  lemma {:induction false} Pow2Sum(a: nat, b: nat)
    ensures Pow2(a + b) == Pow2(a) * Pow2(b)
  {
    if a != 0 {
      Pow2Sum(a - 1, b);
    }
  }

  /** a >> k */
  function ShiftRight(a: nat, k: nat): nat
    decreases k
  {
    if k == 0 then a else ShiftRight(a / 2, k - 1)
  }

  function And(a: nat, b: nat): (r: nat)
    ensures r <= a && r <= b
    decreases a
  {
    if a == 0 then 0
    else 2 * And(a / 2, b / 2) + (if a % 2 == 1 && b % 2 == 1 then 1 else 0)
  }

  function Or(a: nat, b: nat): nat
    decreases a + b
  {
    if a == 0 && b == 0 then 0
    else 2 * Or(a / 2, b / 2) + (if a % 2 == 1 || b % 2 == 1 then 1 else 0)
  }

  /** a & ~b */
  function AndNot(a: nat, b: nat): nat
    decreases a
  {
    if a == 0 then 0
    else 2 * AndNot(a / 2, b / 2) + (if a % 2 == 1 && b % 2 == 0 then 1 else 0)
  }

  lemma {:induction false} ShiftDivides(a: nat, k: nat)
    ensures ShiftRight(a, k) == a / Pow2(k)
    decreases k
  {
    if k > 0 {
      ShiftDivides(a / 2, k - 1);
      DivModDouble(a, Pow2(k - 1));
    }
  }

  /** x / (2p) and x % (2p) from its last binary digit and its other digits. */
  lemma DivModDouble(x: nat, p: nat)
    requires p > 0
    ensures 2 * p > 0 && x / (2 * p) == (x / 2) / p && x % (2 * p) == 2 * ((x / 2) % p) + x % 2
  {
    var q, r := (x / 2) / p, (x / 2) % p;
    assert x / 2 == p * q + r;
    assert x == (2 * p) * q + (2 * r + x % 2) by {
      assert (2 * p) * q == 2 * (p * q);
    }
    DivModUnique(x, 2 * p, q, 2 * r + x % 2);
  }

  lemma ModDouble(x: nat, p: nat)
    requires p > 0
    ensures 2 * p > 0 && x % (2 * p) == 2 * ((x / 2) % p) + x % 2
  {
    DivModDouble(x, p);
  }

  /** Quotient and remainder are unique. */
  lemma DivModUnique(x: int, d: int, q: int, r: int)
    requires d > 0 && x == d * q + r && 0 <= r < d
    ensures x / d == q && x % d == r
  {
    var m := q - x / d;
    var n := x % d - r;
    assert d * m == n by {
      assert x == d * (x / d) + x % d;
      assert d * m == d * q - d * (x / d);
    }
    MulBounds(d, m);
  }

  lemma MulBounds(d: int, m: int)
    requires d > 0
    ensures m >= 1 ==> d * m >= d
    ensures m <= -1 ==> d * m <= -d
  {
  }

  /** The mask trick of HASH_TO_BKT and of the tagged pointers. */
  lemma {:induction false} AndMask(x: nat, k: nat)
    ensures And(x, Pow2(k) - 1) == x % Pow2(k)
    decreases k
  {
    hide And;
    if k == 0 {
      AndZero(x);
    } else {
      var p := Pow2(k - 1);
      calc {
        And(x, Pow2(k) - 1);
        And(x, 2 * (p - 1) + 1);
        { AndStep(x, p - 1); }
        2 * And(x / 2, p - 1) + x % 2;
        { AndMask(x / 2, k - 1); }
        2 * (x / 2 % p) + x % 2;
        { ModDouble(x, p); }
        x % (2 * p);
      }
    }
  }

  lemma AndStep(x: nat, y: nat)
    ensures And(x, 2 * y + 1) == 2 * And(x / 2, y) + x % 2
  {
    HalfOdd(y);
    assert And(x, 2 * y + 1) == 2 * And(x / 2, (2 * y + 1) / 2) + x % 2;
    hide And;
  }

  lemma HalfOdd(y: nat)
    ensures (2 * y + 1) / 2 == y && (2 * y + 1) % 2 == 1
  {
  }

  /** Masking by the complement of 2^k - 1 rounds down. */
  lemma {:induction false} AndNotMask(x: nat, k: nat)
    ensures AndNot(x, Pow2(k) - 1) == x - x % Pow2(k)
    decreases k
  {
    hide AndNot;
    if k == 0 {
      AndNotZero(x);
    } else {
      var p := Pow2(k - 1);
      calc {
        AndNot(x, Pow2(k) - 1);
        AndNot(x, 2 * (p - 1) + 1);
        { AndNotStep(x, p - 1); }
        2 * AndNot(x / 2, p - 1);
        { AndNotMask(x / 2, k - 1); }
        2 * (x / 2 - x / 2 % p);
        { ModDouble(x, p); }
        x - x % (2 * p);
      }
    }
  }

  lemma AndNotStep(x: nat, y: nat)
    ensures AndNot(x, 2 * y + 1) == 2 * AndNot(x / 2, y)
  {
    HalfOdd(y);
    assert AndNot(x, 2 * y + 1) == 2 * AndNot(x / 2, (2 * y + 1) / 2);
    hide AndNot;
  }

  lemma {:induction false} AndNotZero(x: nat)
    ensures AndNot(x, 0) == x
  {
    if x != 0 {
      AndNotZero(x / 2);
    }
  }

  lemma {:induction false} AndZero(x: nat)
    ensures And(x, 0) == 0
  {
  }

  lemma {:induction false} OrZero(x: nat)
    ensures Or(x, 0) == x && Or(0, x) == x
  {
    if x != 0 {
      OrZero(x / 2);
    }
  }

  /** Numbers that use disjoint binary digits are OR-ed by adding them. */
  lemma {:induction false} OrShifted(low: nat, high: nat, k: nat)
    requires low < Pow2(k)
    ensures Or(low, high * Pow2(k)) == low + high * Pow2(k)
    decreases k
  {
    if k == 0 {
      OrZero(high);
    } else {
      var h := high * Pow2(k - 1);
      assert high * Pow2(k) == 2 * h;
      OrShifted(low / 2, high, k - 1);
      OrStep(low, h);
    }
  }

  lemma OrStep(low: nat, h: nat)
    ensures Or(low, 2 * h) == 2 * Or(low / 2, h) + low % 2
  {
  }
}
