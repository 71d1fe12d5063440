/** Bitwise operators on natural numbers, defined bit by bit, and the division/remainder
    forms that the rest of the project calculates with. */
module Bits {

  const TWO64: nat := 0x1_0000_0000_0000_0000

  /** uint64_t */
  type Word = x: nat | x < 0x1_0000_0000_0000_0000

  function Pow2(n: nat): nat {
    if n == 0 then 1 else 2 * Pow2(n - 1)
  }

  function Shr(x: nat, k: nat): nat {
    if k == 0 then x else Shr(x / 2, k - 1)
  }

  /** Left shift of a 64-bit word: bits moved past bit 63 are lost. */
  function Shl(x: nat, k: nat): nat
    decreases k, x
  {
    if k == 0 then x % TWO64 else Shl((2 * x) % TWO64, k - 1)
  }

  function And(x: nat, y: nat): nat {
    if x == 0 then 0 else (x % 2) * (y % 2) + 2 * And(x / 2, y / 2)
  }

  function Or(x: nat, y: nat): nat
    decreases x + y
  {
    if x == 0 then y
    else if y == 0 then x
    else (if x % 2 == 1 || y % 2 == 1 then 1 else 0) + 2 * Or(x / 2, y / 2)
  }

  lemma {:induction false} Pow2Positive(n: nat)
    ensures Pow2(n) > 0
  {
    if n > 0 { Pow2Positive(n - 1); }
  }

  lemma MulAtLeast(z: int, d: nat)
    requires z >= 1
    ensures z * d >= d
  {
    assert z * d == (z - 1) * d + d;
  }

  lemma DivUnique(x: nat, d: nat, q: nat, r: nat)
    requires d > 0 && r < d && x == q * d + r
    ensures x / d == q && x % d == r
  {
    var z := x / d - q;
    assert z * d == r - x % d by {
      assert x == (x / d) * d + x % d;
      assert (x / d - q) * d == (x / d) * d - q * d;
    }
    assert (-z) * d == -(z * d);
    if z >= 1 { MulAtLeast(z, d); }
    if z <= -1 { MulAtLeast(-z, d); }
  }

  /** Halving x first and then dividing by b is dividing by 2b; the bit shifted out is the
      low bit of the remainder. */
  lemma HalveDivide(x: nat, b: nat)
    requires b > 0
    ensures x / 2 / b == x / (2 * b)
    ensures x % (2 * b) == 2 * (x / 2 % b) + x % 2
  {
    var q := x / 2 / b;
    var r := x / 2 % b;
    assert x / 2 == q * b + r;
    assert 2 * (q * b) == q * (2 * b);
    DivUnique(x, 2 * b, q, 2 * r + x % 2);
  }

  lemma {:induction false} ShrIsDiv(x: nat, k: nat)
    ensures Pow2(k) > 0
    ensures Shr(x, k) == x / Pow2(k)
  {
    if k > 0 {
      ShrIsDiv(x / 2, k - 1);
      HalveDivide(x, Pow2(k - 1));
    }
  }

  lemma {:induction false} ShlIsMul(x: nat, k: nat)
    ensures Shl(x, k) == (x * Pow2(k)) % TWO64
    decreases k, x
  {
    if k > 0 {
      var y := (2 * x) % TWO64;
      ShlIsMul(y, k - 1);
      var p := Pow2(k - 1);
      MulMod(2 * x, p);
      assert 2 * x * p == x * (2 * p);
    }
  }

  lemma MulMod(a: nat, p: nat)
    ensures (a % TWO64) * p % TWO64 == a * p % TWO64
  {
    var q := a / TWO64;
    var r := a % TWO64;
    assert a * p == (q * TWO64 + r) * p == q * p * TWO64 + r * p;
    var s := r * p;
    DivUnique(a * p, TWO64, q * p + s / TWO64, s % TWO64);
  }

  lemma {:induction false} AndMask(x: nat, k: nat)
    ensures Pow2(k) > 0
    ensures And(x, Pow2(k) - 1) == x % Pow2(k)
  {
    Pow2Positive(k);
    if k == 0 {
      AndZero(x);
    } else {
      var p := Pow2(k - 1);
      Pow2Positive(k - 1);
      AndMask(x / 2, k - 1);
      HalveDivide(x, p);
      assert (2 * p - 1) / 2 == p - 1 && (2 * p - 1) % 2 == 1;
    }
  }

  lemma {:induction false} AndZero(x: nat)
    ensures And(x, 0) == 0
  {
    if x > 0 { AndZero(x / 2); }
  }

  lemma {:induction false} OrDisjoint(x: nat, y: nat, k: nat)
    requires Pow2(k) > 0 && x % Pow2(k) == 0 && y < Pow2(k)
    ensures Or(x, y) == x + y
  {
    if k == 0 || x == 0 || y == 0 {
    } else {
      var p := Pow2(k - 1);
      Pow2Positive(k - 1);
      var q := x / (2 * p);
      assert x == q * (2 * p) == 2 * (q * p);
      assert x / 2 == q * p;
      DivUnique(x / 2, p, q, 0);
      OrDisjoint(x / 2, y / 2, k - 1);
    }
  }

  lemma {:induction false} OrBelow(x: nat, y: nat, k: nat)
    requires x < Pow2(k) && y < Pow2(k)
    ensures Or(x, y) < Pow2(k)
  {
    if k > 0 && x > 0 && y > 0 { OrBelow(x / 2, y / 2, k - 1); }
  }

  lemma OrOne(x: nat)
    ensures Or(x, 1) == x - x % 2 + 1
  {
    if x > 0 {
      assert 1 / 2 == 0;
      assert Or(x / 2, 0) == x / 2;
    }
  }

  lemma AndOne(x: nat)
    ensures And(x, 1) == x % 2
  {
    AndMask(x, 1);
    assert Pow2(1) == 2;
  }
}
