/** Bitwise operators on natural numbers, bit by bit, and the arithmetic they amount to. */
module Bits {

  function Pow2(n: nat): nat
    ensures Pow2(n) >= 1
  {
    if n == 0 then 1 else 2 * Pow2(n - 1)
  }

  function Or(x: nat, y: nat): nat {
    if x == 0 && y == 0 then 0
    else 2 * Or(x / 2, y / 2) + (if x % 2 == 1 || y % 2 == 1 then 1 else 0)
  }

  function And(x: nat, y: nat): nat {
    if x == 0 || y == 0 then 0
    else 2 * And(x / 2, y / 2) + (if x % 2 == 1 && y % 2 == 1 then 1 else 0)
  }

  function ShiftLeft(x: nat, k: nat): nat { x * Pow2(k) }

  function ShiftRight(x: nat, k: nat): nat {
    if k == 0 then x else ShiftRight(x / 2, k - 1)
  }

  lemma {:induction false} OrZero(x: nat)
    ensures Or(x, 0) == x
  {
    if x > 0 { OrZero(x / 2); }
  }

  lemma Halves(x: nat, p: nat)
    ensures x * (2 * p) == 2 * (x * p) && 2 * (x * p) / 2 == x * p && 2 * (x * p) % 2 == 0
  {
  }

  /** Or-ing in fewer bits than were shifted in adds them. */
  lemma {:induction false} OrIsSum(x: nat, k: nat, y: nat)
    requires y < Pow2(k)
    ensures Or(ShiftLeft(x, k), y) == ShiftLeft(x, k) + y
  {
    if k == 0 {
      OrZero(x);
    } else {
      Halves(x, Pow2(k - 1));
      OrIsSum(x, k - 1, y / 2);
    }
  }

  lemma HalfRemainder(x: nat, p: nat)
    requires p > 0
    ensures 2 * (x / 2 % p) + x % 2 == x % (2 * p)
  {
    var q, r := x / 2 / p, x / 2 % p;
    assert x / 2 == q * p + r;
    assert x == q * (2 * p) + (2 * r + x % 2);
    RemainderIsUnique(x, 2 * p, q, 2 * r + x % 2);
  }

  lemma RemainderIsUnique(x: nat, p: nat, q: nat, r: nat)
    requires p > 0 && x == q * p + r && r < p
    ensures x % p == r
  {
    var d := x / p;
    assert x == d * p + x % p;
    if d < q { MultiplesApart(d, q, p); }
    if q < d { MultiplesApart(q, d, p); }
  }

  lemma MultiplesApart(j: nat, k: nat, p: nat)
    requires j < k
    ensures j * p + p <= k * p
  {
    assert k * p == j * p + p + (k - j - 1) * p;
  }

  lemma HalfMask(p: nat)
    requires p > 0
    ensures (2 * p - 1) / 2 == p - 1 && (2 * p - 1) % 2 == 1
  {
  }

  /** One more bit under the mask. */
  lemma MaskStep(x: nat, p: nat)
    requires x > 0 && p > 0
    ensures And(x, 2 * p - 1) == 2 * And(x / 2, p - 1) + x % 2
  {
    HalfMask(p);
  }

  /** The number the low bits stand for. */
  function LowBits(x: nat, k: nat): nat {
    if k == 0 then 0 else 2 * LowBits(x / 2, k - 1) + x % 2
  }

  lemma {:induction false} NoBits(k: nat)
    ensures LowBits(0, k) == 0
  {
    if k > 0 { NoBits(k - 1); }
  }

  lemma {:induction false} MaskIsLowBits(x: nat, k: nat)
    ensures And(x, Pow2(k) - 1) == LowBits(x, k)
    decreases k
  {
    if x == 0 {
      NoBits(k);
    } else if k > 0 {
      MaskIsLowBits(x / 2, k - 1);
      MaskStep(x, Pow2(k - 1));
    }
  }

  lemma {:induction false} LowBitsAreRemainder(x: nat, k: nat)
    ensures LowBits(x, k) == x % Pow2(k)
    decreases k
  {
    if k > 0 {
      LowBitsAreRemainder(x / 2, k - 1);
      HalfRemainder(x, Pow2(k - 1));
    }
  }

  /** Masking the low bits takes the remainder. */
  lemma MaskIsRemainder(x: nat, k: nat)
    ensures And(x, Pow2(k) - 1) == x % Pow2(k)
  {
    MaskIsLowBits(x, k);
    LowBitsAreRemainder(x, k);
  }

  lemma {:induction false} ShiftTwice(x: nat, j: nat, k: nat)
    ensures ShiftRight(x, j + k) == ShiftRight(ShiftRight(x, j), k)
    decreases j
  {
    if j > 0 { ShiftTwice(x / 2, j - 1, k); }
  }

  /** Shifting by eight and sixteen bits divides. */
  lemma ShiftIsDivision(x: nat)
    ensures ShiftRight(x, 8) == x / 0x100 && ShiftRight(x, 16) == x / 0x10000
  {
    ShiftByEight(x);
    ShiftByEight(x / 0x100);
    ShiftTwice(x, 8, 8);
    assert x / 0x100 / 0x100 == x / 0x10000;
  }

  lemma ShiftByFour(x: nat)
    ensures ShiftRight(x, 4) == x / 16
  {
    assert ShiftRight(x, 4) == ShiftRight(x / 2, 3) == ShiftRight(x / 2 / 2, 2) == ShiftRight(x / 2 / 2 / 2, 1);
  }

  lemma ShiftByEight(x: nat)
    ensures ShiftRight(x, 8) == x / 0x100
  {
    ShiftByFour(x);
    ShiftByFour(x / 16);
    ShiftTwice(x, 4, 4);
  }
}
