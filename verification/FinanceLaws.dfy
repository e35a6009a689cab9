/** The finance guard in the payload's own numbers: amounts, quantities and a claimed total. */
module FinanceLaws {
  import opened Options
  import opened Engines
  import opened DecimalRounding
  import opened FinanceGuard

  // --------------------------------------------------------------------
  // What is added up
  // --------------------------------------------------------------------

  /** One line of an invoice; both numbers in units of 10^-scale. */
  datatype Line = Line(amount: nat, quantity: nat)

  /** The sum of amount times quantity. */
  function TotalOf(lines: seq<Line>): nat {
    if lines == [] then 0 else lines[0].amount * lines[0].quantity + TotalOf(lines[1..])
  }

  function Items(lines: seq<Line>): seq<LineItem> {
    seq(|lines|, i requires 0 <= i < |lines| => LineItem(Number(lines[i].amount), Number(lines[i].quantity)))
  }

  lemma ItemsAreValid(lines: seq<Line>)
    ensures forall item | item in Items(lines) :: ValidLineItem(item)
  {
  }

  lemma OneItem(s: Setting, amount: nat, quantity: nat)
    ensures ExactSum(s, [LineItem(Number(amount), Number(quantity))], 1) == amount * quantity
  {
    var items := [LineItem(Number(amount), Number(quantity))];
    assert ExactSum(s, items, 0) == 0;
  }

  /** An absent quantity totals as the number one. */
  lemma AbsentQuantityIsOne(s: Setting, amount: nat)
    ensures ExactSum(s, [LineItem(Number(amount), Missing)], 1) == amount * Pow10(s.scale)
    ensures ExactSum(s, [LineItem(Number(amount), Missing)], 1)
            == ExactSum(s, [LineItem(Number(amount), Number(Pow10(s.scale)))], 1)
  {
    OneItem(s, amount, Pow10(s.scale));
    assert ExactSum(s, [LineItem(Number(amount), Missing)], 0) == 0;
  }

  lemma {:induction false} SamePrefix(s: Setting, items: seq<LineItem>, more: seq<LineItem>, n: nat)
    requires n <= |items| <= |more| && more[..|items|] == items
    requires (forall item | item in items :: ValidLineItem(item)) && (forall item | item in more :: ValidLineItem(item))
    ensures ExactSum(s, more, n) == ExactSum(s, items, n)
  {
    if n > 0 {
      SamePrefix(s, items, more, n - 1);
      assert items[n - 1] == more[..|items|][n - 1];
    }
  }

  /** Totals of lists add. */
  lemma {:induction false} TotalsAdd(s: Setting, items: seq<LineItem>, others: seq<LineItem>)
    requires (forall item | item in items :: ValidLineItem(item))
             && (forall item | item in others :: ValidLineItem(item))
    ensures forall item | item in items + others :: ValidLineItem(item)
    ensures ExactSum(s, items + others, |items + others|) == ExactSum(s, items, |items|) + ExactSum(s, others, |others|)
    decreases |others|
  {
    if others == [] {
      assert items + others == items;
    } else {
      var fewer := others[..|others| - 1];
      TotalsAdd(s, items, fewer);
      assert items + others == (items + fewer) + [others[|others| - 1]];
      SamePrefix(s, items + fewer, items + others, |items + fewer|);
      SamePrefix(s, fewer, others, |fewer|);
    }
  }

  /** The reference of every bound is the sum of amount times quantity. */
  lemma {:induction false} ExactSumIsTotal(s: Setting, lines: seq<Line>)
    requires forall item | item in Items(lines) :: ValidLineItem(item)
    ensures ExactSum(s, Items(lines), |lines|) == TotalOf(lines)
    decreases |lines|
  {
    if lines != [] {
      var first := [LineItem(Number(lines[0].amount), Number(lines[0].quantity))];
      ItemsAreValid(lines[1..]);
      ExactSumIsTotal(s, lines[1..]);
      OneItem(s, lines[0].amount, lines[0].quantity);
      assert Items(lines) == first + Items(lines[1..]);
      TotalsAdd(s, first, Items(lines[1..]));
    }
  }

  // --------------------------------------------------------------------
  // What fits the precision is computed exactly
  // --------------------------------------------------------------------

  lemma {:induction false} PartialSumsGrow(s: Setting, items: seq<LineItem>, n: nat)
    requires n <= |items| && forall item | item in items :: ValidLineItem(item)
    ensures ExactSum(s, items, n) <= ExactSum(s, items, |items|)
    decreases |items| - n
  {
    if n < |items| { PartialSumsGrow(s, items, n + 1); }
  }

  /** If the exact total fits the precision, nothing is rounded on the way to it. */
  lemma {:induction false} FittingTotalIsComputed(s: Setting, items: seq<LineItem>, n: nat)
    requires s.prec > 0 && n <= |items| && forall item | item in items :: ValidLineItem(item)
    requires ExactSum(s, items, |items|) < Pow10(s.prec)
    ensures RoundedSum(s, items, n) == ExactSum(s, items, n)
    decreases n
  {
    if n > 0 {
      FittingTotalIsComputed(s, items, n - 1);
      PartialSumsGrow(s, items, n);
      AddedExactly(s.prec, ExactSum(s, items, n - 1), Product(s, items[n - 1]));
    }
  }

  lemma AddedExactly(prec: nat, sum: nat, product: nat)
    requires prec > 0 && sum + product < Pow10(prec)
    ensures Round(prec, sum + Round(prec, product)) == sum + product
  {
    RoundExact(prec, product);
    RoundExact(prec, sum + product);
  }

  // --------------------------------------------------------------------
  // The law
  // --------------------------------------------------------------------

  /** A payload that claims a total for some lines. */
  function Invoice(claim: nat, lines: seq<Line>): Payload {
    Data(Number(claim), Some(Items(lines)))
  }

  lemma InvoiceIsValid(claim: nat, lines: seq<Line>)
    requires lines != []
    ensures ValidPayload(Invoice(claim, lines))
  {
    ItemsAreValid(lines);
    assert |Items(lines)| == |lines|;
  }

  lemma InvoiceTotal(s: Setting, claim: nat, lines: seq<Line>)
    requires s.prec > 0 && lines != [] && TotalOf(lines) < Pow10(s.prec)
    ensures ValidPayload(Invoice(claim, lines))
    ensures RoundedSum(s, Items(lines), |Items(lines)|) == TotalOf(lines)
  {
    InvoiceIsValid(claim, lines);
    ExactSumIsTotal(s, lines);
    assert |Items(lines)| == |lines|;
    FittingTotalIsComputed(s, Items(lines), |lines|);
  }

  lemma AtLeastOnce(k: nat, cent: nat)
    requires cent > 0
    ensures k <= k * cent
  {
    assert k * (cent - 1) >= 0;
    assert k * cent == k + k * (cent - 1);
  }

  lemma FewerCents(n: nat, cent: nat, limit: nat)
    requires cent > 0 && n < limit && n % cent == 0
    ensures ToCents(n, cent) < limit
  {
    WholeCents(n, cent);
    AtLeastOnce(ToCents(n, cent), cent);
  }

  lemma FitsWhenQuantized(s: Setting, n: nat, cent: nat)
    requires s.Valid() && cent == Pow10(2 * s.scale - 2) && n < Pow10(s.prec) && n % cent == 0
    ensures Quantize(s, n).Some?
  {
    FewerCents(n, cent, Pow10(s.prec));
  }

  /**
   The law of the finance guard. Let the lines' total, and the claim, be whole
   cents that fit the decimal precision. Then the guard verifies the claim if and
   only if it is within a cent of the sum of amount times quantity.
   */
  lemma InvoiceIsVerifiedExactly(s: Setting, claim: nat, lines: seq<Line>, cent: nat)
    requires s.prec > 0 && s.scale > 0 && lines != [] && cent == Pow10(2 * s.scale - 2)
    requires TotalOf(lines) % cent == 0 && TotalOf(lines) < Pow10(s.prec)
    requires (claim * Pow10(s.scale)) % cent == 0 && claim * Pow10(s.scale) < Pow10(s.prec)
    ensures Judge(s, Invoice(claim, lines)) == Some(EngineResult.Verified)
            <==> -(cent as int) <= TotalOf(lines) - claim * Pow10(s.scale) <= cent
    ensures Judge(s, Invoice(claim, lines)) == Some(EngineResult.Verified)
            || Judge(s, Invoice(claim, lines)) == Some(NotVerified)
  {
    var p := Invoice(claim, lines);
    InvoiceTotal(s, claim, lines);
    FitsWhenQuantized(s, TotalOf(lines), cent);
    FitsWhenQuantized(s, claim * Pow10(s.scale), cent);
    assert Claimed(s, p) == claim * Pow10(s.scale);
    WholeCentsAreVerifiedExactly(s, p);
  }

  /** Ten for two pieces at five is verified at the default precision, five for them is not. */
  lemma TwoAtFive()
    ensures Judge(Setting(28, 2), Invoice(1000, [Line(500, 200)])) == Some(EngineResult.Verified)
    ensures Judge(Setting(28, 2), Invoice(500, [Line(500, 200)])) == Some(NotVerified)
  {
    SmallPowers();
    Pow10Monotone(6, 28);
    OneLineTotal(Line(500, 200));
    ClaimFor(Setting(28, 2), 1000, [Line(500, 200)], 100_000, 100_000);
    ClaimFor(Setting(28, 2), 500, [Line(500, 200)], 100_000, 50_000);
  }

  lemma OneLineTotal(line: Line)
    ensures TotalOf([line]) == line.amount * line.quantity
  {
    assert [line][1..] == [] && TotalOf([]) == 0;
  }

  /** The law, for numbers in hundredths. */
  lemma ClaimFor(s: Setting, claim: nat, lines: seq<Line>, total: nat, claimed: nat)
    requires s.prec > 0 && s.scale == 2 && lines != [] && TotalOf(lines) == total && claimed == claim * 100
    requires total % 100 == 0 && total < Pow10(s.prec) && claimed < Pow10(s.prec)
    ensures Judge(s, Invoice(claim, lines)) == Some(EngineResult.Verified) <==> -100 <= total - claimed <= 100
    ensures Judge(s, Invoice(claim, lines)) == Some(EngineResult.Verified)
            || Judge(s, Invoice(claim, lines)) == Some(NotVerified)
  {
    SmallPowers();
    InvoiceIsVerifiedExactly(s, claim, lines, 100);
  }

  lemma SmallPowers()
    ensures Pow10(2) == 100 && Pow10(6) == 1_000_000
  {
    assert Pow10(0) == 1 && Pow10(1) == 10;
    assert Pow10(3) == 1000 && Pow10(4) == 10_000 && Pow10(5) == 100_000;
  }

  // --------------------------------------------------------------------
  // What cannot be judged
  // --------------------------------------------------------------------

  /** A field that is no number, or a negative one. */
  predicate Unusable(f: Field) {
    match f
    case Number(units) => units < 0
    case _ => true
  }

  /** Whatever else a payload holds: it is unverifiable with data or items that are no mapping or list,
      without items, with a claim or an amount that is absent, null, malformed, not finite or negative, or
      with a quantity that is present and any of these. */
  lemma UnusableIsUnverifiable(s: Setting, p: Payload)
    requires s.scale > 0
    requires || p.DataNotAMapping?
             || (p.Data? && (p.lineItems.None? || p.lineItems == Some([]) || Unusable(p.claimedTotal)))
             || (p.Data? && p.lineItems.Some? && exists item | item in p.lineItems.value ::
                   || item == NotAMapping
                   || (item.LineItem? && (Unusable(item.amount)
                                          || (item.quantity != Missing && Unusable(item.quantity)))))
    ensures Judge(s, p) == Some(Unverifiable)
  {
  }

  /** Whole cents fit the precision exactly if the value is half a cent or more below the first that do not. */
  lemma CentsFit(n: nat, cent: nat, limit: nat)
    requires cent > 0
    ensures ToCents(n, cent) < limit <==> 2 * n + cent < limit * (2 * cent)
  {
    var x := ToCents(n, cent);
    DivideWithRemainder(2 * n + cent, 2 * cent);
    if x < limit { CentsKeepOrder(x + 1, limit, 2 * cent); } else { CentsKeepOrder(limit, x, 2 * cent); }
    assert (x + 1) * (2 * cent) == x * (2 * cent) + 2 * cent;
  }

  /**
   Totals too large for the precision: the engine raises exactly if the computed
   total, in whole cents, has more digits than the precision; and a usable payload
   is unverifiable exactly if the computed total has not, but the claim has.
   */
  lemma TooLargeExactly(s: Setting, p: Payload, cent: nat)
    requires s.Valid() && ValidPayload(p) && cent == Pow10(2 * s.scale - 2)
    ensures var total := RoundedSum(s, p.lineItems.value, |p.lineItems.value|);
            var claim := p.claimedTotal.units * Pow10(s.scale);
            var limit := Pow10(s.prec) * (2 * cent);
            && (Judge(s, p) == None <==> 2 * total + cent >= limit)
            && (Judge(s, p) == Some(Unverifiable) <==> 2 * total + cent < limit && 2 * claim + cent >= limit)
  {
    CentsFit(RoundedSum(s, p.lineItems.value, |p.lineItems.value|), cent, Pow10(s.prec));
    CentsFit(Claimed(s, p), cent, Pow10(s.prec));
  }

  /** Everything else is judged: the claim is verified or refuted, or a total is too large for the precision. */
  lemma UsableIsJudged(s: Setting, p: Payload)
    requires s.Valid() && p.Data? && p.lineItems.Some? && p.lineItems.value != [] && !Unusable(p.claimedTotal)
    requires forall item | item in p.lineItems.value ::
               item.LineItem? && !Unusable(item.amount) && (item.quantity == Missing || !Unusable(item.quantity))
    ensures ValidPayload(p)
    ensures Judge(s, p) == Some(Unverifiable) ==> Quantize(s, Claimed(s, p)).None?
    ensures Judge(s, p) == None ==> Quantize(s, RoundedSum(s, p.lineItems.value, |p.lineItems.value|)).None?
  {
  }
}
