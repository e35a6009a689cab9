/** What the finance guard concludes does not depend on the unit its numbers are counted in. */
module FinanceUnits {
  import opened Options
  import opened Engines
  import opened DecimalRounding
  import opened FinanceGuard

  /** The same numbers, counted in units ten times finer. */
  function FinerSetting(s: Setting): Setting {
    Setting(s.prec, s.scale + 1)
  }

  function FinerField(f: Field): Field {
    if f.Number? then Number(10 * f.units) else f
  }

  function FinerItem(item: LineItem): LineItem {
    if item.LineItem? then LineItem(FinerField(item.amount), FinerField(item.quantity)) else item
  }

  function FinerItems(items: seq<LineItem>): seq<LineItem> {
    seq(|items|, i requires 0 <= i < |items| => FinerItem(items[i]))
  }

  function Finer(p: Payload): Payload {
    if p.DataNotAMapping? then p
    else Data(FinerField(p.claimedTotal), if p.lineItems.None? then None else Some(FinerItems(p.lineItems.value)))
  }

  lemma FinerItemsAreValid(items: seq<LineItem>)
    ensures (forall item | item in items :: ValidLineItem(item))
            <==> (forall item | item in FinerItems(items) :: ValidLineItem(item))
  {
    var finer := FinerItems(items);
    if forall item | item in items :: ValidLineItem(item) {
      forall item | item in finer ensures ValidLineItem(item) {
        var i :| 0 <= i < |finer| && finer[i] == item;
        assert items[i] in items;
      }
    }
    if forall item | item in finer :: ValidLineItem(item) {
      forall item | item in items ensures ValidLineItem(item) {
        var i :| 0 <= i < |items| && items[i] == item;
        assert finer[i] in finer;
      }
    }
  }

  lemma FinerIsValid(p: Payload)
    ensures ValidPayload(Finer(p)) <==> ValidPayload(p)
  {
    if p.Data? && p.lineItems.Some? {
      FinerItemsAreValid(p.lineItems.value);
      assert |FinerItems(p.lineItems.value)| == |p.lineItems.value|;
    }
  }

  lemma FinerProduct(s: Setting, item: LineItem)
    requires ValidLineItem(item)
    ensures ValidLineItem(FinerItem(item)) && Product(FinerSetting(s), FinerItem(item)) == 100 * Product(s, item)
  {
    TenByTen(item.amount.units, Quantity(s, item));
  }

  lemma TenByTen(a: nat, b: nat)
    ensures (10 * a) * (10 * b) == 100 * (a * b)
  {
  }

  lemma HundredRounds(prec: nat, n: nat)
    requires prec > 0
    ensures Round(prec, 100 * n) == 100 * Round(prec, n)
  {
    RoundScales(prec, n);
    RoundScales(prec, 10 * n);
    assert 10 * (10 * n) == 100 * n;
  }

  /** Adding a product to a sum, each rounded. */
  function Adding(prec: nat): (nat, nat) -> nat {
    (before: nat, product: nat) => Round(prec, before + Round(prec, product))
  }

  /** A way of adding that does not depend on the unit. */
  ghost predicate Scales(add: (nat, nat) -> nat) {
    forall before: nat, product: nat :: add(100 * before, 100 * product) == 100 * add(before, product)
  }

  /** Partial sums of some products, by some way of adding. */
  ghost predicate AddsUp(add: (nat, nat) -> nat, sum: nat -> nat, products: seq<nat>) {
    sum(0) == 0 && forall k | 0 <= k < |products| :: sum(k + 1) == add(sum(k), products[k])
  }

  lemma {:induction false} SumsScale(add: (nat, nat) -> nat, sum: nat -> nat, finer: nat -> nat,
                                     products: seq<nat>, finerProducts: seq<nat>, n: nat)
    requires Scales(add) && AddsUp(add, sum, products) && AddsUp(add, finer, finerProducts)
    requires n <= |products| == |finerProducts|
    requires forall i | 0 <= i < |products| :: finerProducts[i] == 100 * products[i]
    ensures finer(n) == 100 * sum(n)
  {
    if n > 0 {
      SumsScale(add, sum, finer, products, finerProducts, n - 1);
      assert sum(n - 1 + 1) == add(sum(n - 1), products[n - 1]);
      assert finer(n - 1 + 1) == add(finer(n - 1), finerProducts[n - 1]);
    }
  }

  lemma AddingScales(prec: nat)
    requires prec > 0
    ensures Scales(Adding(prec))
  {
    forall before: nat, product: nat
      ensures Adding(prec)(100 * before, 100 * product) == 100 * Adding(prec)(before, product)
    {
      FinerStep(prec, before, product);
    }
  }

  predicate AllValid(items: seq<LineItem>) {
    forall item | item in items :: ValidLineItem(item)
  }

  function Products(s: Setting, items: seq<LineItem>): seq<nat>
    requires AllValid(items)
  {
    seq(|items|, i requires 0 <= i < |items| => Product(s, items[i]))
  }

  function PartialSums(s: Setting, items: seq<LineItem>): nat -> nat
    requires AllValid(items)
  {
    (k: nat) => if k <= |items| then RoundedSum(s, items, k) else 0
  }

  lemma SumStep(s: Setting, items: seq<LineItem>, k: nat)
    requires AllValid(items) && k < |items|
    ensures RoundedSum(s, items, k + 1) == Adding(s.prec)(RoundedSum(s, items, k), Product(s, items[k]))
  {
  }

  lemma PartialSumsAddUp(s: Setting, items: seq<LineItem>)
    requires AllValid(items)
    ensures AddsUp(Adding(s.prec), PartialSums(s, items), Products(s, items))
  {
    forall k | 0 <= k < |items|
      ensures PartialSums(s, items)(k + 1) == Adding(s.prec)(PartialSums(s, items)(k), Products(s, items)[k])
    {
      SumStep(s, items, k);
    }
  }

  lemma FinerProducts(s: Setting, items: seq<LineItem>, finer: seq<LineItem>)
    requires finer == FinerItems(items) && AllValid(items) && AllValid(finer)
    ensures forall i | 0 <= i < |items| :: Products(FinerSetting(s), finer)[i] == 100 * Products(s, items)[i]
  {
    forall i | 0 <= i < |items|
      ensures Products(FinerSetting(s), finer)[i] == 100 * Products(s, items)[i]
    {
      FinerProduct(s, items[i]);
    }
  }

  lemma FinerSum(s: Setting, items: seq<LineItem>, finer: seq<LineItem>)
    requires s.Valid() && finer == FinerItems(items) && AllValid(items) && AllValid(finer)
    ensures RoundedSum(FinerSetting(s), finer, |items|) == 100 * RoundedSum(s, items, |items|)
  {
    AddingScales(s.prec);
    PartialSumsAddUp(s, items);
    PartialSumsAddUp(FinerSetting(s), finer);
    FinerProducts(s, items, finer);
    SumsScale(Adding(s.prec), PartialSums(s, items), PartialSums(FinerSetting(s), finer),
              Products(s, items), Products(FinerSetting(s), finer), |items|);
  }

  lemma FinerStep(prec: nat, before: nat, product: nat)
    requires prec > 0
    ensures Round(prec, 100 * before + Round(prec, 100 * product)) == 100 * Round(prec, before + Round(prec, product))
  {
    HundredRounds(prec, product);
    HundredRounds(prec, before + Round(prec, product));
  }

  lemma FinerCent(s: Setting)
    requires s.scale > 0
    ensures FinerSetting(s).Cent() == 100 * s.Cent()
  {
    assert Pow10(2 * s.scale) == 10 * Pow10(2 * s.scale - 1);
  }

  lemma HundredCents(n: nat, cent: nat)
    requires cent > 0
    ensures ToCents(100 * n, 100 * cent) == ToCents(n, cent)
  {
    DivideScales(2 * n + cent, 2 * cent);
    DivideScales(10 * (2 * n + cent), 10 * (2 * cent));
    assert 2 * (100 * n) + 100 * cent == 10 * (10 * (2 * n + cent)) && 2 * (100 * cent) == 10 * (10 * (2 * cent));
  }

  lemma FinerQuantize(s: Setting, n: nat)
    requires s.scale > 0
    ensures Quantize(FinerSetting(s), 100 * n) == Quantize(s, n)
  {
    FinerCent(s);
    HundredCents(n, s.Cent());
  }

  lemma FinerClaim(s: Setting, p: Payload)
    requires ValidPayload(p) && ValidPayload(Finer(p))
    ensures Claimed(FinerSetting(s), Finer(p)) == 100 * Claimed(s, p)
  {
    TenByTen(p.claimedTotal.units, s.One());
  }

  /** Counting in finer units changes no conclusion, for any payload and any precision. */
  lemma JudgeIgnoresTheUnit(s: Setting, p: Payload)
    requires s.Valid()
    ensures Judge(FinerSetting(s), Finer(p)) == Judge(s, p)
  {
    FinerIsValid(p);
    if ValidPayload(p) {
      var items := p.lineItems.value;
      FinerSum(s, items, FinerItems(items));
      FinerClaim(s, p);
      FinerQuantize(s, RoundedSum(s, items, |items|));
      FinerQuantize(s, Claimed(s, p));
    }
  }
}
