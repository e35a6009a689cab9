/**
 Decimal arithmetic rounded to a number of significant digits, ties to even.
 Values are whole numbers of some common decimal unit, fine enough for every
 input; rounding to significant digits does not depend on the unit chosen
 (`RoundScales`).
 */
module DecimalRounding {

  function Pow10(n: nat): nat
    ensures Pow10(n) >= 1
  {
    if n == 0 then 1 else 10 * Pow10(n - 1)
  }

  /** How many digits of `n` exceed the precision. */
  function Excess(prec: nat, n: nat): nat {
    if n < Pow10(prec) then 0 else 1 + Excess(prec, n / 10)
  }

  /** The unit in the last place of `n`. */
  function Ulp(prec: nat, n: nat): nat {
    Pow10(Excess(prec, n))
  }

  /** `n` to the nearest multiple of `unit`, ties to an even multiple. */
  function NearestEven(n: nat, unit: nat): nat
    requires unit > 0
  {
    var q, r := n / unit, n % unit;
    if 2 * r > unit || (2 * r == unit && q % 2 == 1) then (q + 1) * unit else q * unit
  }

  function Round(prec: nat, n: nat): nat {
    NearestEven(n, Ulp(prec, n))
  }

  function Abs(x: int): nat { if x < 0 then -x else x }

  // --------------------------------------------------------------------
  // Rounding to multiples of one unit
  // --------------------------------------------------------------------

  lemma DivideWithRemainder(n: nat, unit: nat)
    requires unit > 0
    ensures n == (n / unit) * unit + n % unit && 0 <= n % unit < unit
  {
  }

  lemma NearestEvenError(n: nat, unit: nat)
    requires unit > 0
    ensures 2 * Abs(NearestEven(n, unit) - n) <= unit
    ensures exists k: nat :: NearestEven(n, unit) == k * unit
  {
    DivideWithRemainder(n, unit);
    var q := n / unit;
    assert (q + 1) * unit == q * unit + unit;
    if NearestEven(n, unit) == q * unit {
    } else {
      assert NearestEven(n, unit) == (q + 1) * unit;
    }
  }

  /** Halfway between two multiples, the even one is taken. */
  lemma TiesGoToEven(k: nat, half: nat)
    requires half > 0
    ensures NearestEven(k * (2 * half) + half, 2 * half) == (if k % 2 == 0 then k else k + 1) * (2 * half)
  {
    var n, unit := k * (2 * half) + half, 2 * half;
    QuotientIsUnique(n, unit, k, half);
  }

  lemma MultiplesApart(j: int, k: int, unit: nat)
    requires unit > 0 && j < k
    ensures j * unit + unit <= k * unit
  {
    assert (k - j - 1) * unit >= 0;
    assert k * unit == j * unit + unit + (k - j - 1) * unit;
  }

  /** A multiple is its own rounding, and rounding never crosses one. */
  lemma NearestEvenBounds(n: nat, k: nat, unit: nat)
    requires unit > 0
    ensures n == k * unit ==> NearestEven(n, unit) == k * unit
    ensures n <= k * unit ==> NearestEven(n, unit) <= k * unit
    ensures n >= k * unit ==> NearestEven(n, unit) >= k * unit
  {
    NearestEvenError(n, unit);
    var j: nat :| NearestEven(n, unit) == j * unit;
    if j < k { MultiplesApart(j, k, unit); }
    if k < j { MultiplesApart(k, j, unit); }
  }

  lemma NearestEvenMonotone(a: nat, b: nat, unit: nat)
    requires unit > 0 && a <= b
    ensures NearestEven(a, unit) <= NearestEven(b, unit)
  {
    DivideWithRemainder(a, unit);
    DivideWithRemainder(b, unit);
    var p, q := a / unit, b / unit;
    assert (p + 1) * unit == p * unit + unit && (q + 1) * unit == q * unit + unit;
    if q < p { MultiplesApart(q, p, unit); assert false; }
    if p < q {
      MultiplesApart(p, q, unit);
    }
  }

  // --------------------------------------------------------------------
  // Rounding to significant digits
  // --------------------------------------------------------------------

  lemma {:induction false} Pow10Monotone(a: nat, b: nat)
    requires a <= b
    ensures Pow10(a) <= Pow10(b)
    decreases b
  {
    if a < b { Pow10Monotone(a, b - 1); }
  }

  lemma {:induction false} Pow10Adds(a: nat, b: nat)
    ensures Pow10(a + b) == Pow10(a) * Pow10(b)
  {
    if a > 0 {
      Pow10Adds(a - 1, b);
      assert Pow10(a + b) == 10 * (Pow10(a - 1) * Pow10(b));
    }
  }

  /** The range of values with a given excess. */
  lemma {:induction false} ExcessRange(prec: nat, n: nat)
    ensures n < Pow10(prec) * Ulp(prec, n)
    ensures Excess(prec, n) > 0 ==> n >= Pow10(prec) * Pow10(Excess(prec, n) - 1)
    decreases n
  {
    if n >= Pow10(prec) {
      ExcessRange(prec, n / 10);
      var e := Excess(prec, n / 10);
      TenTimes(Pow10(prec), Pow10(e));
      if e > 0 { TenTimes(Pow10(prec), Pow10(e - 1)); }
    }
  }

  lemma TenTimes(x: nat, y: nat)
    ensures x * (10 * y) == 10 * (x * y)
  {
  }

  lemma {:induction false} ExcessMonotone(prec: nat, a: nat, b: nat)
    requires a <= b
    ensures Excess(prec, a) <= Excess(prec, b)
    decreases b
  {
    if a >= Pow10(prec) { ExcessMonotone(prec, a / 10, b / 10); }
  }

  lemma UlpMonotone(prec: nat, a: nat, b: nat)
    requires a <= b
    ensures Ulp(prec, a) <= Ulp(prec, b)
  {
    ExcessMonotone(prec, a, b);
    Pow10Monotone(Excess(prec, a), Excess(prec, b));
  }

  lemma Shift(a: nat, b: nat)
    ensures Pow10(a + 1) * Pow10(b) == Pow10(a) * Pow10(b + 1)
  {
    var x, y := Pow10(a), Pow10(b);
    assert (10 * x) * y == x * (10 * y);
  }

  /** Rounding stays within the power of ten above. */
  lemma RoundWithin(prec: nat, n: nat)
    ensures Round(prec, n) <= Pow10(prec) * Ulp(prec, n)
    ensures prec > 0 && Excess(prec, n) > 0 ==> Round(prec, n) >= Pow10(prec) * Pow10(Excess(prec, n) - 1)
  {
    ExcessRange(prec, n);
    NearestEvenBounds(n, Pow10(prec), Ulp(prec, n));
    if prec > 0 && Excess(prec, n) > 0 {
      // The lower bound is itself a multiple of the unit.
      Shift(prec - 1, Excess(prec, n) - 1);
      NearestEvenBounds(n, Pow10(prec - 1), Ulp(prec, n));
    }
  }

  lemma RoundMonotone(prec: nat, a: nat, b: nat)
    requires prec > 0 && a <= b
    ensures Round(prec, a) <= Round(prec, b)
  {
    ExcessMonotone(prec, a, b);
    var d, e := Excess(prec, a), Excess(prec, b);
    if d == e {
      NearestEvenMonotone(a, b, Ulp(prec, a));
    } else {
      RoundWithin(prec, a);
      RoundWithin(prec, b);
      Pow10Monotone(d, e - 1);
      ScaleUp(Pow10(prec), Pow10(d), Pow10(e - 1));
    }
  }

  lemma ScaleUp(k: nat, a: nat, b: nat)
    requires a <= b
    ensures k * a <= k * b
  {
    assert k * (b - a) >= 0;
  }

  /** A value whose digits fit is its own rounding; so is any value already rounded. */
  lemma RoundExact(prec: nat, n: nat)
    requires prec > 0
    ensures n < Pow10(prec) ==> Round(prec, n) == n
    ensures Round(prec, Round(prec, n)) == Round(prec, n)
  {
    if n < Pow10(prec) {
      assert Ulp(prec, n) == 1;
    }
    var r := Round(prec, n);
    NearestEvenError(n, Ulp(prec, n));
    var k: nat :| r == k * Ulp(prec, n);
    RoundWithin(prec, n);
    if r < Pow10(prec) * Ulp(prec, n) {
      RoundedUlp(prec, n);
      NearestEvenBounds(r, k, Ulp(prec, n));
    } else {
      PowerIsExact(prec, Excess(prec, n));
    }
  }

  /** A value in the range of one excess cannot be in the range of another. */
  lemma RangesAreApart(prec: nat, n: nat, e: nat)
    requires n < Pow10(prec) * Pow10(e) && (e > 0 ==> n >= Pow10(prec) * Pow10(e - 1))
    ensures Excess(prec, n) == e
  {
    ExcessRange(prec, n);
    var f := Excess(prec, n);
    if f > e {
      Pow10Monotone(e, f - 1);
      ScaleUp(Pow10(prec), Pow10(e), Pow10(f - 1));
    }
    if f < e {
      Pow10Monotone(f, e - 1);
      ScaleUp(Pow10(prec), Pow10(f), Pow10(e - 1));
    }
  }

  /** Below the next power of ten, rounding keeps the unit. */
  lemma RoundedUlp(prec: nat, n: nat)
    requires prec > 0 && Round(prec, n) < Pow10(prec) * Ulp(prec, n)
    ensures Ulp(prec, Round(prec, n)) == Ulp(prec, n)
  {
    RoundWithin(prec, n);
    RangesAreApart(prec, Round(prec, n), Excess(prec, n));
  }

  /** A power of ten times the precision's own is a multiple of its unit. */
  lemma PowerIsExact(prec: nat, e: nat)
    requires prec > 0
    ensures Round(prec, Pow10(prec) * Pow10(e)) == Pow10(prec) * Pow10(e)
  {
    PowerExcess(prec, e);
    Shift(prec - 1, e);
    NearestEvenBounds(Pow10(prec) * Pow10(e), Pow10(prec - 1), Pow10(e + 1));
  }

  lemma {:induction false} PowerExcess(prec: nat, e: nat)
    ensures Excess(prec, Pow10(prec) * Pow10(e)) == e + 1
  {
    var n := Pow10(prec) * Pow10(e);
    if e == 0 {
      assert n / 10 < Pow10(prec);
    } else {
      var x, y := Pow10(prec), Pow10(e - 1);
      TenTimes(x, y);
      ScaleUp(x, 1, y);
      ScaleUp(x, 1, 10 * y);
      PowerExcess(prec, e - 1);
    }
  }

  /** The rounding error is at most half a unit in the last place of the result. */
  lemma RoundError(prec: nat, n: nat)
    requires prec > 0
    ensures 2 * Abs(Round(prec, n) - n) <= Ulp(prec, Round(prec, n))
  {
    NearestEvenError(n, Ulp(prec, n));
    RoundWithin(prec, n);
    if Round(prec, n) < Pow10(prec) * Ulp(prec, n) {
      RoundedUlp(prec, n);
    } else {
      ExcessRange(prec, n);
      UlpMonotone(prec, n, Round(prec, n));
    }
  }

  // --------------------------------------------------------------------
  // The choice of unit
  // --------------------------------------------------------------------

  lemma DivideScales(n: nat, unit: nat)
    requires unit > 0
    ensures (10 * n) / (10 * unit) == n / unit && (10 * n) % (10 * unit) == 10 * (n % unit)
  {
    var q, r := n / unit, n % unit;
    DivideWithRemainder(n, unit);
    assert 10 * n == q * (10 * unit) + 10 * r;
    QuotientIsUnique(10 * n, 10 * unit, q, 10 * r);
  }

  lemma QuotientIsUnique(n: nat, unit: nat, q: nat, r: nat)
    requires unit > 0 && n == q * unit + r && r < unit
    ensures n / unit == q && n % unit == r
  {
    DivideWithRemainder(n, unit);
    var p := n / unit;
    if p < q { MultiplesApart(p, q, unit); }
    if q < p { MultiplesApart(q, p, unit); }
  }

  lemma NearestEvenScales(n: nat, unit: nat)
    requires unit > 0
    ensures NearestEven(10 * n, 10 * unit) == 10 * NearestEven(n, unit)
  {
    DivideScales(n, unit);
    var q := n / unit;
    TenTimes(q, unit);
    TenTimes(q + 1, unit);
  }

  /** Rounding to significant digits does not depend on the unit: in units ten times finer it gives the same value. */
  lemma RoundScales(prec: nat, n: nat)
    requires prec > 0
    ensures Round(prec, 10 * n) == 10 * Round(prec, n)
  {
    if n < Pow10(prec) {
      RoundExact(prec, n);
      if 10 * n < Pow10(prec) {
        RoundExact(prec, 10 * n);
      } else {
        assert Excess(prec, 10 * n) == 1 + Excess(prec, n) == 1;
        assert Pow10(1) == 10 * Pow10(0) == 10;
        NearestEvenBounds(10 * n, n, 10);
      }
    } else {
      assert (10 * n) / 10 == n;
      assert Excess(prec, 10 * n) == 1 + Excess(prec, n);
      NearestEvenScales(n, Ulp(prec, n));
    }
  }
}
