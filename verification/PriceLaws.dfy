/**
 A resolved price, told without its stages (apps/api/src/pricing/resolve.ts): every amount of a
 resolution is the nearest one to an exact value, or the difference that makes a sum come out.
 */
module PriceLaws {
  import opened Allocation
  import opened Money
  import opened Numbers
  import opened PriceResolution
  import opened PricingRules
  import opened Wrappers

  // ---------------------------------------------------------------------------
  // Stage by stage

  /** The amount a rule adds to a basis: a share of it, or its own amount in the basis's currency, once or for each night or guest. */
  ghost predicate AskedFor(rule: Option<Rule>, basis: Money, context: Context, asked: int) {
    match rule
    case None => asked == 0
    case Some(r) =>
      && SafeInteger(r.value) && SafeInteger(asked) && Asks(r, basis.amount, context, asked)
      && (r.valueType != Percent ==> r.currency == Some(basis.currency))
      && (r.valueType !in {Percent, Fixed} ==> SafeInteger(QuantityOf(r, context).value))
  }

  lemma AskedIs(rule: Rule, basis: Money, context: Context, asked: int)
    requires ValidMoney(basis)
    ensures RuleMarkup(rule, basis, context) == Success(Money(asked, basis.currency)) <==> AskedFor(Some(rule), basis, context, asked)
    ensures RuleMarkup(rule, basis, context).Success? ==> RuleMarkup(rule, basis, context).value.currency == basis.currency
  {
    if rule.valueType == Percent {
      ScalingIsNearest(basis, rule.value, 10000, asked);
    } else if rule.valueType != Fixed {
      var quantity := QuantityOf(rule, context);
      if quantity.Some? {
        ScalingIsNearest(Money(rule.value, basis.currency), quantity.value, 1, asked);
      }
    }
  }

  /** A rule's discount stops at a price of zero. */
  lemma MarkedIs(basis: Money, asked: Money, markup: Money, preTax: Money)
    requires ValidMoney(basis) && basis.amount >= 0 && ValidMoney(asked) && asked.currency == basis.currency
    ensures Marked(basis, asked) == Success((markup, preTax))
            <==> && SafeInteger(basis.amount + asked.amount) && markup.currency == preTax.currency == basis.currency
                 && preTax.amount == basis.amount + markup.amount
                 && markup.amount == if basis.amount + asked.amount < 0 then -basis.amount else asked.amount
  {
  }

  /**
   Of two shares that add up, each the floor of its quota or one more by the larger remainder, the first
   is the nearest to its quota: the remainders add up to one whole or to none.
   */
  lemma FirstOfTwo(x: nat, y: nat, total: int, amount: int, p: int, q: int)
    requires total > 0 && x + y == amount * total && p + q == amount
    requires p == x / total || (p == x / total + 1 && x % total > 0)
    requires q == y / total || (q == y / total + 1 && y % total > 0)
    requires p != x / total && q == y / total ==> x % total >= y % total
    requires p == x / total && q != y / total ==> y % total > x % total
    ensures NearestTiesAway(p, x, total)
  {
    var u, v := p - x / total, q - y / total;
    DivisionExact(x, total);
    DivisionExact(y, total);
    Distribute(x / total, u, total);
    Distribute(y / total, v, total);
    Distribute(p, q, total);
    assert x % total + y % total == u * total + v * total;
  }

  lemma NegatedIsNearest(p: int, n: int, denominator: int)
    requires denominator > 0 && NearestTiesAway(p, n, denominator)
    ensures NearestTiesAway(-p, -n, denominator)
  {
    RoundingCharacterised(p, n, denominator);
    RoundingIsOdd(n, denominator);
    RoundingCharacterised(-p, -n, denominator);
  }

  lemma NaturalFirstShare(abs: nat, a: int, b: int)
    requires ValidWeights([a, b]) && 0 <= a <= 10000 && 0 <= b <= 10000 && a + b > 0
    ensures NearestTiesAway(AbsoluteParts(abs, [a, b])[0], abs * a, a + b)
  {
    var weights := [a, b];
    var parts := AbsoluteParts(abs, weights);
    PairWeightsAreValid(a, b);
    LargestRemainders(abs, weights, 0);
    LargestRemainders(abs, weights, 1);
    PairAddsUp(Money(abs, "SAR"), a, b);
    Distribute(a, b, abs);
    FirstOfTwo(abs * a, abs * b, a + b, abs, parts[0], parts[1]);
  }

  /** The first share of a pair is the nearest amount to its exact share, ties going to it; the second is the rest. */
  lemma FirstShareIsNearest(total: Money, a: int, b: int)
    requires ValidWeights([a, b]) && 0 <= a <= 10000 && 0 <= b <= 10000 && a + b > 0
    ensures NearestTiesAway(Pair(total, a, b).0.amount, total.amount * a, a + b)
  {
    var abs: nat := Abs(total.amount);
    NaturalFirstShare(abs, a, b);
    if total.amount < 0 {
      NegatedIsNearest(AbsoluteParts(abs, [a, b])[0], abs * a, a + b);
      assert total.amount * a == -(abs * a);
    }
  }

  /** A pair of amounts in one currency that add up to a total, the first nearest to its share of it. */
  ghost predicate SharesOf(first: Money, second: Money, total: Money, a: int, b: int) {
    && first.currency == second.currency == total.currency && first.amount + second.amount == total.amount
    && NearestTiesAway(first.amount, total.amount * a, a + b)
  }

  lemma PairIs(total: Money, a: int, b: int, first: Money, second: Money)
    requires ValidWeights([a, b]) && 0 <= a <= 10000 && 0 <= b <= 10000 && a + b > 0
    ensures Pair(total, a, b) == (first, second) <==> SharesOf(first, second, total, a, b)
  {
    FirstShareIsNearest(total, a, b);
    PairAddsUp(total, a, b);
    if SharesOf(first, second, total, a, b) {
      NearestIsUnique(first.amount, Pair(total, a, b).0.amount, total.amount * a, a + b);
    }
  }

  /** A price before tax split into base and tax, or raised by the tax, or free of it. */
  ghost predicate TaxedAs(preTax: Money, vat: VatTreatment, sell: Money, base: Money, tax: Money) {
    match vat.mode
    case Inclusive => sell == preTax && SharesOf(base, tax, preTax, 10000, vat.rateBps)
    case Exclusive =>
      && base == preTax && sell.currency == tax.currency == preTax.currency && sell.amount == preTax.amount + tax.amount
      && SafeInteger(tax.amount) && SafeInteger(sell.amount) && NearestTiesAway(tax.amount, preTax.amount * vat.rateBps, 10000)
    case Exempt => sell == base == preTax && tax == Money(0, preTax.currency)
  }

  lemma TaxIs(preTax: Money, vat: VatTreatment, sell: Money, base: Money, tax: Money)
    requires ValidVat(vat) && ValidMoney(preTax) && preTax.amount >= 0
    ensures Tax(preTax, vat) == Success(Taxed(sell, base, tax)) <==> TaxedAs(preTax, vat, sell, base, tax)
  {
    match vat.mode {
      case Inclusive =>
        PairWeightsAreValid(10000, vat.rateBps);
        PairIs(preTax, 10000, vat.rateBps, base, tax);
      case Exclusive => ScalingIsNearest(preTax, vat.rateBps, 10000, tax.amount);
      case Exempt =>
    }
  }

  /** The markup shared between agency and tenant exactly if the rule says so. */
  ghost predicate SharedAs(rule: Option<Rule>, markup: Money, split: Option<CommissionSplit>) {
    if rule.None? || rule.value.commissionSplitBps.None? then split.None?
    else
      var bps := rule.value.commissionSplitBps.value;
      split.Some? && SharesOf(split.value.agencyCommission, split.value.tenantMargin, markup, bps, 10000 - bps)
  }

  lemma SplitIs(rule: Option<Rule>, markup: Money, split: Option<CommissionSplit>)
    requires rule.Some? ==> ValidRule(rule.value)
    ensures Split(rule, markup) == split <==> SharedAs(rule, markup, split)
  {
    if rule.Some? && rule.value.commissionSplitBps.Some? {
      var bps := rule.value.commissionSplitBps.value;
      PairWeightsAreValid(bps, 10000 - bps);
      var (agency, tenant) := Pair(markup, bps, 10000 - bps);
      PairIs(markup, bps, 10000 - bps, agency, tenant);
      if split.Some? {
        PairIs(markup, bps, 10000 - bps, split.value.agencyCommission, split.value.tenantMargin);
      }
    }
  }

  // ---------------------------------------------------------------------------
  // The whole price

  /** Everything a resolution says, given what the rule asks for on its basis. */
  ghost predicate ResolvesTo(net: Money, context: Context, rule: Option<Rule>, settlement: Option<Settlement>, vat: VatTreatment,
                             asked: int, res: Resolution) {
    var b := res.breakdown;
    var preTax := Money(b.net.amount + b.markup.amount, b.net.currency);
    && ConvertedTo(net, settlement, b.net)
    && AskedFor(rule, b.net, context, asked) && SafeInteger(b.net.amount + asked)
    && b.markup == Money(if b.net.amount + asked < 0 then -b.net.amount else asked, b.net.currency)
    && TaxedAs(preTax, vat, res.sell, b.taxableBase, b.vat) && b.vatTreatment == vat
    && b.components == [Component(NetPart, b.net), Component(MarkupPart, b.markup)]
                       + (if vat.mode == Exclusive then [Component(VatPart, b.vat)] else [])
    && SharedAs(rule, b.markup, b.commissionSplit)
    && b.fx == (if settlement.None? then None else Some(AppliedFx(net, settlement.value.rate, settlement.value.bufferBps)))
    && res.firedRuleId == (if rule.None? then None else Some(rule.value.id))
  }

  /** What the rule, or no rule, asks for on a basis. */
  function AskedOf(rule: Option<Rule>, basis: Money, context: Context): Priced<Money> {
    if rule.None? then Success(Zero(basis.currency)) else RuleMarkup(rule.value, basis, context)
  }

  lemma ResolvedPriceIs(net: Money, context: Context, rule: Option<Rule>, settlement: Option<Settlement>, vat: VatTreatment)
    returns (asked: int)
    requires Accepted(net, vat) && (rule.Some? ==> ValidRule(rule.value))
    requires Price(net, context, rule, settlement, vat).Success?
    ensures ResolvesTo(net, context, rule, settlement, vat, asked, Price(net, context, rule, settlement, vat).value)
  {
    var basis := Basis(net, settlement).value;
    BasisIs(net, settlement, basis);
    BasisIsValid(net, settlement);
    asked := AskedOf(rule, basis, context).value.amount;
    if rule.Some? {
      AskedIs(rule.value, basis, context, asked);
    }
    var (markup, preTax) := Marked(basis, Money(asked, basis.currency)).value;
    MarkedIs(basis, Money(asked, basis.currency), markup, preTax);
    var taxed := Tax(preTax, vat).value;
    TaxIs(preTax, vat, taxed.sell, taxed.taxableBase, taxed.vat);
    SplitIs(rule, markup, Split(rule, markup));
  }

  lemma PriceResolvesTo(net: Money, context: Context, rule: Option<Rule>, settlement: Option<Settlement>, vat: VatTreatment,
                        asked: int, res: Resolution)
    requires Accepted(net, vat) && (rule.Some? ==> ValidRule(rule.value))
    requires ResolvesTo(net, context, rule, settlement, vat, asked, res)
    ensures Price(net, context, rule, settlement, vat) == Success(res)
  {
    var b := res.breakdown;
    BasisIs(net, settlement, b.net);
    BasisIsValid(net, settlement);
    if rule.Some? {
      AskedIs(rule.value, b.net, context, asked);
    }
    var preTax := Money(b.net.amount + b.markup.amount, b.net.currency);
    MarkedIs(b.net, Money(asked, b.net.currency), b.markup, preTax);
    TaxIs(preTax, vat, res.sell, b.taxableBase, b.vat);
    SplitIs(rule, b.markup, b.commissionSplit);
  }

  /**
   A price resolves, and to exactly this, when the settlement covers the net's currency, the rule can be
   applied in the sell currency, and every amount is safe: the basis is the nearest amount to the net at
   the stored rate, and then to that raised by the buffer; the markup is what the rule asks for, a
   discount stopping at zero; an exclusive tax is the nearest to its share and raises the price, an
   inclusive one is carved out of it; the split and the conversion are recorded. Everything else fails.
   */
  lemma PriceIsExactly(net: Money, context: Context, rule: Option<Rule>, settlement: Option<Settlement>, vat: VatTreatment, res: Resolution)
    requires Accepted(net, vat) && (rule.Some? ==> ValidRule(rule.value))
    ensures Price(net, context, rule, settlement, vat) == Success(res)
            <==> exists asked: int :: ResolvesTo(net, context, rule, settlement, vat, asked, res)
  {
    if Price(net, context, rule, settlement, vat) == Success(res) {
      var asked := ResolvedPriceIs(net, context, rule, settlement, vat);
    }
    if asked: int :| ResolvesTo(net, context, rule, settlement, vat, asked, res) {
      PriceResolvesTo(net, context, rule, settlement, vat, asked, res);
    }
  }
}
