/**
 The finance guard: recomputes a claimed total with decimal arithmetic of
 finite precision, and how far a verified claim can be from the exact sum.
 */
module FinanceGuard {
  import opened Options
  import opened Engines
  import opened DecimalRounding

  /** A payload field as the guard reads it; a number is a multiple of 10^-scale. */
  datatype Field = Missing | Null | Malformed | NonFinite | Number(units: int)

  datatype LineItem = NotAMapping | LineItem(amount: Field, quantity: Field)

  datatype Payload =
    | DataNotAMapping
    | Data(claimedTotal: Field, lineItems: Option<seq<LineItem>>)  // `None`: not a list

  /** The precision of the decimal context, and the unit all numbers of the payload are multiples of. */
  datatype Setting = Setting(prec: nat, scale: nat)
  {
    ghost predicate Valid() { prec > 0 && scale > 0 }

    /** One, in units of 10^-scale. */
    function One(): nat { Pow10(scale) }

    /** One cent, in the units of a product of two inputs, 10^-(2 * scale). */
    function Cent(): nat
      requires scale > 0
    {
      Pow10(2 * scale - 2)
    }
  }

  predicate NonNegative(f: Field) {
    f.Number? && f.units >= 0
  }

  predicate ValidLineItem(item: LineItem) {
    item.LineItem? && NonNegative(item.amount) && (item.quantity.Missing? || NonNegative(item.quantity))
  }

  predicate ValidPayload(p: Payload) {
    && p.Data?
    && p.lineItems.Some?
    && NonNegative(p.claimedTotal)
    && p.lineItems.value != []
    && forall item | item in p.lineItems.value :: ValidLineItem(item)
  }

  /** An absent quantity counts as one. */
  function Quantity(s: Setting, item: LineItem): nat
    requires ValidLineItem(item)
  {
    if item.quantity.Missing? then s.One() else item.quantity.units
  }

  function Product(s: Setting, item: LineItem): nat
    requires ValidLineItem(item)
  {
    item.amount.units * Quantity(s, item)
  }

  /** The exact sum of the first `n` items. */
  function ExactSum(s: Setting, items: seq<LineItem>, n: nat): nat
    requires n <= |items| && forall item | item in items :: ValidLineItem(item)
  {
    if n == 0 then 0 else ExactSum(s, items, n - 1) + Product(s, items[n - 1])
  }

  /** The sum as the decimal context computes it: every product and every partial sum is rounded. */
  function RoundedSum(s: Setting, items: seq<LineItem>, n: nat): nat
    requires n <= |items| && forall item | item in items :: ValidLineItem(item)
  {
    if n == 0 then 0
    else Round(s.prec, RoundedSum(s, items, n - 1) + Round(s.prec, Product(s, items[n - 1])))
  }

  /** To whole cents, ties upwards. */
  function ToCents(n: nat, cent: nat): nat
    requires cent > 0
  {
    (2 * n + cent) / (2 * cent)
  }

  /** Quantizing fails when the result has more digits than the precision. */
  function Quantize(s: Setting, n: nat): Option<nat>
    requires s.scale > 0
  {
    var cents := ToCents(n, s.Cent());
    if cents < Pow10(s.prec) then Some(cents) else None
  }

  /** The claimed total in the units of the computed one. */
  function Claimed(s: Setting, p: Payload): nat
    requires p.Data? && NonNegative(p.claimedTotal)
  {
    p.claimedTotal.units * s.One()
  }

  /** `None` means the engine raises: the computed total does not fit the precision. */
  function Judge(s: Setting, p: Payload): Option<EngineResult>
    requires s.scale > 0
  {
    if !ValidPayload(p) then Some(Unverifiable)
    else
      var items := p.lineItems.value;
      var total := Quantize(s, RoundedSum(s, items, |items|));
      var claim := Quantize(s, Claimed(s, p));
      if total.None? then None
      else if claim.None? then Some(Unverifiable)
      else if Abs(total.value - claim.value) > 1 then Some(NotVerified)
      else Some(EngineResult.Verified)
  }

  method ValidateFinancialPayload(p: Payload) returns (ok: bool)
    ensures ok == ValidPayload(p)
  {
    if p.DataNotAMapping? {
      return false;
    }
    if p.lineItems.None? {
      return false;
    }
    match p.claimedTotal {
      case Number(units) =>
        if units < 0 {
          return false;
        }
      case _ => return false;
    }
    var items := p.lineItems.value;
    if items == [] {
      return false;
    }
    for i := 0 to |items|
      invariant forall j | 0 <= j < i :: ValidLineItem(items[j])
    {
      if !ValidLineItem(items[i]) {
        return false;
      }
    }
    return true;
  }

  method ComputeTotal(s: Setting, items: seq<LineItem>) returns (computedTotal: nat)
    requires forall item | item in items :: ValidLineItem(item)
    ensures computedTotal == RoundedSum(s, items, |items|)
  {
    computedTotal := 0;
    for i := 0 to |items|
      invariant computedTotal == RoundedSum(s, items, i)
    {
      assert items[i] in items;
      computedTotal := Round(s.prec, computedTotal + Round(s.prec, items[i].amount.units * Quantity(s, items[i])));
    }
  }

  method VerifyFinancial(s: Setting, p: Payload) returns (result: Option<EngineResult>)
    requires s.Valid()
    ensures result == Judge(s, p)
  {
    var ok := ValidateFinancialPayload(p);
    if !ok {
      return Some(Unverifiable);
    }
    var computedTotal := ComputeTotal(s, p.lineItems.value);
    var total := Quantize(s, computedTotal);
    if total.None? {
      return None;
    }
    var claim := Quantize(s, Claimed(s, p));
    if claim.None? {
      return Some(Unverifiable);
    }
    // The difference of two totals that fit the precision fits it too.
    DifferenceIsExact(s.prec, total.value, claim.value);
    var difference := Round(s.prec, Abs(total.value as int - claim.value as int));
    if difference > 1 {
      return Some(NotVerified);
    }
    return Some(EngineResult.Verified);
  }

  lemma DifferenceIsExact(prec: nat, a: nat, b: nat)
    requires prec > 0 && a < Pow10(prec) && b < Pow10(prec)
    ensures Round(prec, Abs(a - b)) == Abs(a - b)
  {
    RoundExact(prec, Abs(a - b));
  }

  // --------------------------------------------------------------------
  // The accumulated rounding error
  // --------------------------------------------------------------------

  /** A partial sum is already rounded. */
  lemma SumIsRounded(s: Setting, items: seq<LineItem>, n: nat)
    requires s.Valid() && n <= |items| && forall item | item in items :: ValidLineItem(item)
    ensures Round(s.prec, RoundedSum(s, items, n)) == RoundedSum(s, items, n)
  {
    if n == 0 { RoundExact(s.prec, 0); }
    else { RoundExact(s.prec, RoundedSum(s, items, n - 1) + Round(s.prec, Product(s, items[n - 1]))); }
  }

  /** Partial sums never decrease, and no rounded product exceeds the sum that includes it. */
  lemma SumsGrow(s: Setting, items: seq<LineItem>, n: nat)
    requires s.Valid() && 0 < n <= |items| && forall item | item in items :: ValidLineItem(item)
    ensures RoundedSum(s, items, n - 1) <= RoundedSum(s, items, n)
    ensures Round(s.prec, Product(s, items[n - 1])) <= RoundedSum(s, items, n)
  {
    var before, product := RoundedSum(s, items, n - 1), Round(s.prec, Product(s, items[n - 1]));
    SumIsRounded(s, items, n - 1);
    RoundExact(s.prec, Product(s, items[n - 1]));
    RoundMonotone(s.prec, before, before + product);
    RoundMonotone(s.prec, product, before + product);
  }

  lemma {:induction false} SumsAreMonotone(s: Setting, items: seq<LineItem>, i: nat, n: nat)
    requires s.Valid() && i <= n <= |items| && forall item | item in items :: ValidLineItem(item)
    ensures RoundedSum(s, items, i) <= RoundedSum(s, items, n)
    decreases n
  {
    if i < n {
      SumsGrow(s, items, n);
      SumsAreMonotone(s, items, i, n - 1);
    }
  }

  /** One item adds at most one unit in the last place of the new sum to the error. */
  lemma ItemError(prec: nat, before: nat, exactBefore: nat, exactProduct: nat, ulp: nat, n: nat)
    requires prec > 0 && n > 0 && Abs(before - exactBefore) <= (n - 1) * ulp
    requires Ulp(prec, Round(prec, exactProduct)) <= ulp
    requires Ulp(prec, Round(prec, before + Round(prec, exactProduct))) <= ulp
    ensures Abs(Round(prec, before + Round(prec, exactProduct)) - (exactBefore + exactProduct)) <= n * ulp
  {
    var product := Round(prec, exactProduct);
    RoundError(prec, exactProduct);
    RoundError(prec, before + product);
    Accumulate(before, exactBefore, product, exactProduct, Round(prec, before + product), ulp, n);
  }

  lemma {:induction false} SumError(s: Setting, items: seq<LineItem>, n: nat, ulp: nat)
    requires s.Valid() && n <= |items| && forall item | item in items :: ValidLineItem(item)
    requires Ulp(s.prec, RoundedSum(s, items, n)) <= ulp
    ensures Abs(RoundedSum(s, items, n) - ExactSum(s, items, n)) <= n * ulp
    decreases n
  {
    if n > 0 {
      SumsGrow(s, items, n);
      UlpMonotone(s.prec, RoundedSum(s, items, n - 1), RoundedSum(s, items, n));
      UlpMonotone(s.prec, Round(s.prec, Product(s, items[n - 1])), RoundedSum(s, items, n));
      SumError(s, items, n - 1, ulp);
      ItemError(s.prec, RoundedSum(s, items, n - 1), ExactSum(s, items, n - 1), Product(s, items[n - 1]), ulp, n);
    }
  }

  lemma Accumulate(before: nat, exactBefore: nat, product: nat, exactProduct: nat, after: nat, ulp: nat, n: nat)
    requires n > 0 && Abs(before - exactBefore) <= (n - 1) * ulp
    requires 2 * Abs(product - exactProduct) <= ulp && 2 * Abs(after - (before + product)) <= ulp
    ensures Abs(after - (exactBefore + exactProduct)) <= n * ulp
  {
    assert n * ulp == (n - 1) * ulp + ulp;
  }

  /** The computed total is within one unit in its last place per item of the exact sum. */
  lemma TotalErrorIsBounded(s: Setting, items: seq<LineItem>)
    requires s.Valid() && forall item | item in items :: ValidLineItem(item)
    ensures Abs(RoundedSum(s, items, |items|) - ExactSum(s, items, |items|))
            <= |items| * Ulp(s.prec, RoundedSum(s, items, |items|))
  {
    SumError(s, items, |items|, Ulp(s.prec, RoundedSum(s, items, |items|)));
  }

  /** A total whose digits fit the precision was computed exactly. */
  lemma {:induction false} SmallTotalIsExact(s: Setting, items: seq<LineItem>, n: nat)
    requires s.Valid() && n <= |items| && forall item | item in items :: ValidLineItem(item)
    requires RoundedSum(s, items, n) < Pow10(s.prec)
    ensures RoundedSum(s, items, n) == ExactSum(s, items, n)
    decreases n
  {
    if n > 0 {
      var before, product := RoundedSum(s, items, n - 1), Round(s.prec, Product(s, items[n - 1]));
      SumsGrow(s, items, n);
      SmallTotalIsExact(s, items, n - 1);
      RoundError(s.prec, Product(s, items[n - 1]));
      RoundError(s.prec, before + product);
    }
  }

  // --------------------------------------------------------------------
  // What VERIFIED means
  // --------------------------------------------------------------------

  /** Half-up rounding: the cents are the whole number nearest to the value. */
  lemma ToCentsBounds(n: nat, cent: nat)
    requires cent > 0
    ensures 2 * (ToCents(n, cent) * cent) <= 2 * n + cent < 2 * (ToCents(n, cent) * cent) + 2 * cent
  {
    var x := ToCents(n, cent);
    DivideWithRemainder(2 * n + cent, 2 * cent);
    assert x * (2 * cent) == 2 * (x * cent);
  }

  lemma CentsOrdered(x: nat, y: nat, cent: nat)
    requires x <= y
    ensures y <= x + 1 ==> y * cent <= x * cent + cent
    ensures y >= x + 2 ==> y * cent >= x * cent + 2 * cent
  {
    var d := y - x;
    assert y * cent == x * cent + d * cent;
    if d == 1 { assert d * cent == cent; }
    if d >= 2 { assert d * cent == 2 * cent + (d - 2) * cent; }
  }

  /** Only whole cents, and the bounds on what is left of the values, matter. */
  lemma BoundedApart(a: nat, b: nat, cent: nat, x: nat, y: nat, p: nat, q: nat)
    requires cent > 0 && x <= y && p == x * cent && q == y * cent
    requires 2 * p <= 2 * a + cent < 2 * p + 2 * cent && 2 * q <= 2 * b + cent < 2 * q + 2 * cent
    ensures y <= x + 1 ==> Abs(a - b) < 2 * cent
    ensures Abs(a - b) <= cent ==> y <= x + 1
  {
    CentsOrdered(x, y, cent);
    CentsKeepOrder(x, y, cent);
  }

  lemma CentsKeepOrder(x: nat, y: nat, cent: nat)
    requires x <= y
    ensures x * cent <= y * cent
  {
    assert (y - x) * cent >= 0;
    assert y * cent == x * cent + (y - x) * cent;
  }

  lemma CentsApartOrdered(a: nat, b: nat, cent: nat)
    requires cent > 0 && ToCents(a, cent) <= ToCents(b, cent)
    ensures ToCents(b, cent) <= ToCents(a, cent) + 1 ==> Abs(a - b) < 2 * cent
    ensures Abs(a - b) <= cent ==> ToCents(b, cent) <= ToCents(a, cent) + 1
  {
    var x, y := ToCents(a, cent), ToCents(b, cent);
    ToCentsBounds(a, cent);
    ToCentsBounds(b, cent);
    BoundedApart(a, b, cent, x, y, x * cent, y * cent);
  }

  /** Whole cents at most one apart come from values less than two cents apart. */
  lemma CentsApart(a: nat, b: nat, cent: nat)
    requires cent > 0
    ensures Abs(ToCents(a, cent) - ToCents(b, cent)) <= 1 ==> Abs(a - b) < 2 * cent
    ensures Abs(a - b) <= cent ==> Abs(ToCents(a, cent) - ToCents(b, cent)) <= 1
  {
    if ToCents(a, cent) <= ToCents(b, cent) {
      CentsApartOrdered(a, b, cent);
    } else {
      CentsApartOrdered(b, a, cent);
    }
  }

  /** The claim is within two cents of the computed total, and so within two
      cents and the accumulated rounding error of the exact sum. */
  ghost predicate ClaimInBound(s: Setting, p: Payload)
    requires s.Valid()
  {
    && ValidPayload(p)
    && var items := p.lineItems.value;
       var computed, exact := RoundedSum(s, items, |items|), ExactSum(s, items, |items|);
       && Abs(computed - Claimed(s, p)) < 2 * s.Cent()
       && Abs(exact - Claimed(s, p)) < 2 * s.Cent() + |items| * Ulp(s.prec, computed)
  }

  lemma VerifiedBoundsTheClaim(s: Setting, p: Payload)
    requires s.Valid() && Judge(s, p) == Some(EngineResult.Verified)
    ensures ClaimInBound(s, p)
  {
    var items := p.lineItems.value;
    CentsApart(RoundedSum(s, items, |items|), Claimed(s, p), s.Cent());
    TotalErrorIsBounded(s, items);
  }

  /** With a total whose digits fit the precision, a verified claim is less than two cents from the exact sum. */
  lemma VerifiedBoundsTheClaimExactly(s: Setting, p: Payload)
    requires s.Valid() && Judge(s, p) == Some(EngineResult.Verified)
    requires RoundedSum(s, p.lineItems.value, |p.lineItems.value|) < Pow10(s.prec)
    ensures Abs(ExactSum(s, p.lineItems.value, |p.lineItems.value|) - Claimed(s, p)) < 2 * s.Cent()
  {
    VerifiedBoundsTheClaim(s, p);
    SmallTotalIsExact(s, p.lineItems.value, |p.lineItems.value|);
  }

  /** Two totals that fit the precision and are at most a cent apart are judged equal. */
  lemma CloseTotalsAreVerified(s: Setting, p: Payload)
    requires s.Valid() && ValidPayload(p)
    requires var computed := RoundedSum(s, p.lineItems.value, |p.lineItems.value|);
             && Quantize(s, computed).Some? && Quantize(s, Claimed(s, p)).Some?
             && Abs(computed - Claimed(s, p)) <= s.Cent()
    ensures Judge(s, p) == Some(EngineResult.Verified)
  {
    CentsApart(RoundedSum(s, p.lineItems.value, |p.lineItems.value|), Claimed(s, p), s.Cent());
  }

  /** A claim within a cent of the exact sum, less the rounding error, is verified if both totals fit the precision. */
  lemma CloseClaimIsVerified(s: Setting, p: Payload)
    requires s.Valid() && ValidPayload(p)
    requires var items := p.lineItems.value;
             var computed := RoundedSum(s, items, |items|);
             && Quantize(s, computed).Some? && Quantize(s, Claimed(s, p)).Some?
             && Abs(ExactSum(s, items, |items|) - Claimed(s, p)) + |items| * Ulp(s.prec, computed) <= s.Cent()
    ensures Judge(s, p) == Some(EngineResult.Verified)
  {
    TotalErrorIsBounded(s, p.lineItems.value);
    CloseTotalsAreVerified(s, p);
  }

  /** With a total whose digits fit the precision, any claim within a cent of the exact sum is verified. */
  lemma CloseClaimIsVerifiedExactly(s: Setting, p: Payload)
    requires s.Valid() && ValidPayload(p)
    requires var items := p.lineItems.value;
             var computed := RoundedSum(s, items, |items|);
             && computed < Pow10(s.prec) && Quantize(s, computed).Some? && Quantize(s, Claimed(s, p)).Some?
             && Abs(ExactSum(s, items, |items|) - Claimed(s, p)) <= s.Cent()
    ensures Judge(s, p) == Some(EngineResult.Verified)
  {
    SmallTotalIsExact(s, p.lineItems.value, |p.lineItems.value|);
    CloseTotalsAreVerified(s, p);
  }

  // --------------------------------------------------------------------
  // When the tolerance is what it says
  // --------------------------------------------------------------------

  /** How far a value is above its whole cents; negative when it was rounded up. */
  function Residual(n: nat, cent: nat): int
    requires cent > 0
  {
    n - ToCents(n, cent) * cent
  }

  lemma ResidualBounds(n: nat, cent: nat)
    requires cent > 0
    ensures 0 <= 2 * Residual(n, cent) + cent < 2 * cent
  {
    ToCentsBounds(n, cent);
  }

  lemma ToCentsMonotone(a: nat, b: nat, cent: nat)
    requires cent > 0 && a <= b
    ensures ToCents(a, cent) <= ToCents(b, cent)
  {
    ToCentsBounds(a, cent);
    ToCentsBounds(b, cent);
    if ToCents(b, cent) < ToCents(a, cent) { MultiplesApart(ToCents(b, cent), ToCents(a, cent), cent); }
  }

  /** For values at most a cent apart once rounded, exactly when they were at most a cent apart before. */
  lemma ToleranceExactly(large: nat, small: nat, cent: nat)
    requires cent > 0 && small <= large && ToCents(large, cent) <= ToCents(small, cent) + 1
    ensures large - small <= cent <==>
            ToCents(large, cent) == ToCents(small, cent) || Residual(large, cent) <= Residual(small, cent)
  {
    ToCentsMonotone(small, large, cent);
    ResidualBounds(large, cent);
    ResidualBounds(small, cent);
    var x, y := ToCents(small, cent), ToCents(large, cent);
    if y == x + 1 { assert y * cent == x * cent + cent; }
  }

  /** The larger of the two totals was not rounded down further, in cents, than the smaller. */
  predicate RoundedAlike(a: nat, b: nat, cent: nat)
    requires cent > 0
  {
    || ToCents(a, cent) == ToCents(b, cent)
    || (if a >= b then Residual(a, cent) <= Residual(b, cent) else Residual(b, cent) <= Residual(a, cent))
  }

  /**
   Exactly when a verified claim is within the tolerance of one cent: when the
   totals round to the same cents, or what is left of the larger one beyond its
   cents is no more than what is left of the smaller one.
   */
  lemma VerifiedWithinACentExactly(s: Setting, p: Payload)
    requires s.Valid() && Judge(s, p) == Some(EngineResult.Verified)
    ensures var a, b := RoundedSum(s, p.lineItems.value, |p.lineItems.value|), Claimed(s, p);
            Abs(a - b) <= s.Cent() <==> RoundedAlike(a, b, s.Cent())
  {
    var a, b := RoundedSum(s, p.lineItems.value, |p.lineItems.value|), Claimed(s, p);
    if a >= b {
      ToCentsMonotone(b, a, s.Cent());
      ToleranceExactly(a, b, s.Cent());
    } else {
      ToCentsMonotone(a, b, s.Cent());
      ToleranceExactly(b, a, s.Cent());
    }
  }

  lemma WholeCents(n: nat, cent: nat)
    requires cent > 0 && n % cent == 0
    ensures ToCents(n, cent) * cent == n
  {
    var k := n / cent;
    DivideWithRemainder(n, cent);
    assert n == k * cent;
    ToCentsBounds(n, cent);
    var x := ToCents(n, cent);
    if x < k { MultiplesApart(x, k, cent); }
    if k < x { MultiplesApart(k, x, cent); }
  }

  lemma WholeCentsApart(a: nat, b: nat, cent: nat)
    requires cent > 0 && a % cent == 0 && b % cent == 0
    ensures Abs(ToCents(a, cent) - ToCents(b, cent)) <= 1 <==> Abs(a - b) <= cent
  {
    WholeCents(a, cent);
    WholeCents(b, cent);
    var x, y := ToCents(a, cent), ToCents(b, cent);
    if x <= y {
      CentsOrdered(x, y, cent);
      CentsKeepOrder(x, y, cent);
    } else {
      CentsOrdered(y, x, cent);
      CentsKeepOrder(y, x, cent);
    }
  }

  /** On totals that are whole cents and fit the precision, the guard verifies exactly the claims within a cent. */
  lemma WholeCentsAreVerifiedExactly(s: Setting, p: Payload)
    requires s.Valid() && ValidPayload(p)
    requires var a, b := RoundedSum(s, p.lineItems.value, |p.lineItems.value|), Claimed(s, p);
             && a % s.Cent() == 0 && b % s.Cent() == 0
             && Quantize(s, a).Some? && Quantize(s, b).Some?
    ensures Judge(s, p) == Some(EngineResult.Verified) <==>
            Abs(RoundedSum(s, p.lineItems.value, |p.lineItems.value|) - Claimed(s, p)) <= s.Cent()
  {
    WholeCentsApart(RoundedSum(s, p.lineItems.value, |p.lineItems.value|), Claimed(s, p), s.Cent());
  }

  /** The two-cent bound is the right one: a claim of 0.024 for one item of 0.005
      is off by 1.9 cents and verified, since both round half up towards each other. */
  lemma VerifiedMayBeNearlyTwoCentsOff(prec: nat)
    requires prec >= 5
    ensures var s, p := Setting(prec, 3), Data(Number(24), Some([LineItem(Number(5), Missing)]));
            && Judge(s, p) == Some(EngineResult.Verified)
            && 10 * Abs(ExactSum(s, p.lineItems.value, 1) - Claimed(s, p)) == 19 * s.Cent()
  {
    var s, items := Setting(prec, 3), [LineItem(Number(5), Missing)];
    assert Pow10(3) == 1000 && Pow10(4) == 10_000 && Pow10(5) == 100_000 by {
      assert Pow10(0) == 1 && Pow10(1) == 10 && Pow10(2) == 100;
    }
    Pow10Monotone(5, prec);
    assert Product(s, items[0]) == 5000;
    RoundExact(prec, 5000);
    assert RoundedSum(s, items, 0) == 0;
    assert RoundedSum(s, items, 1) == 5000;
    assert ToCents(5000, 10_000) == 1 && ToCents(24_000, 10_000) == 2;
  }
}
