/**
 Price resolution (apps/api/src/pricing/resolve.ts): from a supplier net to a sell price with an exact
 breakdown. Decimal scalars are integer ratios here: a basis-point share is over 10000, a stored rate
 is its numerator over its denominator.
 */
module PriceResolution {
  import opened Allocation
  import opened Money
  import opened Numbers
  import opened PricingRules
  import opened Wrappers

  datatype VatMode = Inclusive | Exclusive | Exempt

  datatype VatTreatment = VatTreatment(mode: VatMode, rateBps: int)

  const SA_DEFAULT_VAT := VatTreatment(Inclusive, 1500)

  datatype StoredFxRate = StoredFxRate(from: string, to: string, numerator: int, denominator: int)

  datatype Settlement = Settlement(currency: string, rate: StoredFxRate, bufferBps: int)

  datatype ComponentKind = NetPart | MarkupPart | VatPart

  datatype Component = Component(kind: ComponentKind, amount: Money)

  datatype CommissionSplit = CommissionSplit(agencyCommission: Money, tenantMargin: Money)

  /** The conversion that was applied, as a resolution reports it. */
  datatype AppliedFx = AppliedFx(supplierNet: Money, rate: StoredFxRate, bufferBps: int)

  datatype Breakdown = Breakdown(net: Money, markup: Money, taxableBase: Money, vat: Money, vatTreatment: VatTreatment,
                                 components: seq<Component>, commissionSplit: Option<CommissionSplit>, fx: Option<AppliedFx>)

  datatype Resolution = Resolution(sell: Money, breakdown: Breakdown, firedRuleId: Option<string>)

  datatype PricingError = InvalidInput | CurrencyNotCovered | BadRule | AmountFailed(error: MoneyError)

  type Priced<T> = Result<T, PricingError>

  function Lift<T>(r: Result<T, MoneyError>): Priced<T> {
    match r
    case Success(value) => Success(value)
    case Failure(error) => Failure(AmountFailed(error))
  }

  // ---------------------------------------------------------------------------
  // The stages

  predicate ValidSettlement(settlement: Settlement) {
    && ValidCurrency(settlement.currency)
    && settlement.rate.denominator > 0 && settlement.rate.numerator > 0
    && 0 <= settlement.bufferBps <= 10000
  }

  predicate Covers(settlement: Settlement, netCurrency: string) {
    settlement.rate.from == netCurrency && settlement.rate.to == settlement.currency
  }

  /** Stage 1: the net as it is, or converted at the stored rate and raised by the buffer. */
  function Basis(net: Money, settlement: Option<Settlement>): Priced<Money> {
    if settlement.None? then Success(net)
    else
      var s := settlement.value;
      if !ValidCurrency(s.currency) || s.currency == net.currency then Failure(InvalidInput)
      else if !Covers(s, net.currency) then Failure(CurrencyNotCovered)
      else if !ValidSettlement(s) then Failure(InvalidInput)
      else
        match MultiplyByRatio(net, s.rate.numerator, s.rate.denominator)
        case Failure(e) => Failure(AmountFailed(e))
        case Success(m) =>
          var converted := Money(m.amount, s.currency);
          if s.bufferBps == 0 then Success(converted) else Lift(MultiplyByRatio(converted, 10000 + s.bufferBps, 10000))
  }

  /** The net as it is, or converted at the stored rate and then raised by the buffer, rounding twice. */
  ghost predicate ConvertedTo(net: Money, settlement: Option<Settlement>, basis: Money) {
    match settlement
    case None => basis == net
    case Some(s) =>
      && ValidSettlement(s) && s.currency != net.currency && s.rate.from == net.currency && s.rate.to == s.currency == basis.currency
      && SafeInteger(basis.amount)
      && exists converted: int ::
           && SafeInteger(converted) && NearestTiesAway(converted, net.amount * s.rate.numerator, s.rate.denominator)
           && (s.bufferBps == 0 ==> basis.amount == converted)
           && (s.bufferBps != 0 ==> NearestTiesAway(basis.amount, converted * (10000 + s.bufferBps), 10000))
  }

  lemma BasisIs(net: Money, settlement: Option<Settlement>, basis: Money)
    requires ValidMoney(net)
    ensures Basis(net, settlement) == Success(basis) <==> ConvertedTo(net, settlement, basis)
  {
    if settlement.Some? && ValidSettlement(settlement.value) {
      var s := settlement.value;
      forall converted: int
        ensures MultiplyByRatio(net, s.rate.numerator, s.rate.denominator) == Success(Money(converted, net.currency))
                <==> SafeInteger(converted) && NearestTiesAway(converted, net.amount * s.rate.numerator, s.rate.denominator)
      {
        ScalingIsNearest(net, s.rate.numerator, s.rate.denominator, converted);
      }
      if MultiplyByRatio(net, s.rate.numerator, s.rate.denominator).Success? {
        var converted := MultiplyByRatio(net, s.rate.numerator, s.rate.denominator).value.amount;
        ScalingIsNearest(Money(converted, s.currency), 10000 + s.bufferBps, 10000, basis.amount);
      }
    }
  }

  function QuantityOf(rule: Rule, context: Context): Option<int> {
    if rule.valueType == PerNight then context.nights else context.paxCount
  }

  /** Stage 3: what the fired rule adds. */
  function RuleMarkup(rule: Rule, net: Money, context: Context): Priced<Money> {
    if !SafeInteger(rule.value) && (rule.valueType == Percent || rule.currency == Some(net.currency)) then Failure(BadRule)
    else if rule.valueType == Percent then Lift(MultiplyByRatio(net, rule.value, 10000))
    else if rule.currency != Some(net.currency) then Failure(CurrencyNotCovered)
    else if rule.valueType == Fixed then Success(Money(rule.value, net.currency))
    else
      var quantity := QuantityOf(rule, context);
      if quantity.None? || !SafeInteger(quantity.value) || quantity.value < 1 then Failure(InvalidInput)
      else Lift(MultiplyByRatio(Money(rule.value, net.currency), quantity.value, 1))
  }

  /** The markup actually applied and the price before tax: a discount stops at zero. */
  function Marked(net: Money, markup: Money): Priced<(Money, Money)> {
    match Add(net, markup)
    case Failure(e) => Failure(AmountFailed(e))
    case Success(preTax) =>
      if preTax.amount >= 0 then Success((markup, preTax))
      else
        match Subtract(Zero(net.currency), net)
        case Failure(e) => Failure(AmountFailed(e))
        case Success(clamped) => Success((clamped, Zero(net.currency)))
  }

  datatype Taxed = Taxed(sell: Money, taxableBase: Money, vat: Money)

  function Pair(total: Money, a: int, b: int): (Money, Money)
    requires ValidWeights([a, b])
  {
    var parts := Parts(total.amount, [a, b]);
    (Money(parts[0], total.currency), Money(parts[1], total.currency))
  }

  predicate ValidVat(vat: VatTreatment) {
    0 <= vat.rateBps <= 10000
  }

  lemma PairWeightsAreValid(a: int, b: int)
    requires 0 <= a <= 10000 && 0 <= b <= 10000 && a + b > 0
    ensures ValidWeights([a, b]) && Sum([a, b]) == a + b
  {
    assert [a, b][1..] == [b] && [b][1..] == [];
    assert Sum([b]) == b;
  }

  /** Stage 4. */
  function Tax(preTax: Money, vat: VatTreatment): Priced<Taxed>
    requires ValidVat(vat)
  {
    match vat.mode
    case Inclusive =>
      PairWeightsAreValid(10000, vat.rateBps);
      var (base, tax) := Pair(preTax, 10000, vat.rateBps);
      Success(Taxed(preTax, base, tax))
    case Exclusive =>
      (match MultiplyByRatio(preTax, vat.rateBps, 10000)
       case Failure(e) => Failure(AmountFailed(e))
       case Success(tax) =>
         match Add(preTax, tax)
         case Failure(e) => Failure(AmountFailed(e))
         case Success(sell) => Success(Taxed(sell, preTax, tax)))
    case Exempt => Success(Taxed(preTax, preTax, Zero(preTax.currency)))
  }

  /** Stage 5. */
  function Split(rule: Option<Rule>, markup: Money): Option<CommissionSplit>
    requires rule.Some? ==> ValidRule(rule.value)
  {
    if rule.None? || rule.value.commissionSplitBps.None? then None
    else
      var bps := rule.value.commissionSplitBps.value;
      PairWeightsAreValid(bps, 10000 - bps);
      var (agency, tenant) := Pair(markup, bps, 10000 - bps);
      Some(CommissionSplit(agency, tenant))
  }

  function Components(net: Money, markup: Money, taxed: Taxed, mode: VatMode): seq<Component> {
    [Component(NetPart, net), Component(MarkupPart, markup)] + if mode == Exclusive then [Component(VatPart, taxed.vat)] else []
  }

  /** Everything after the rule is selected. */
  function Price(net: Money, context: Context, rule: Option<Rule>, settlement: Option<Settlement>, vat: VatTreatment): Priced<Resolution>
    requires ValidVat(vat) && (rule.Some? ==> ValidRule(rule.value))
  {
    match Basis(net, settlement)
    case Failure(e) => Failure(e)
    case Success(basis) =>
      match if rule.None? then Success(Zero(basis.currency)) else RuleMarkup(rule.value, basis, context)
      case Failure(e) => Failure(e)
      case Success(asked) =>
        match Marked(basis, asked)
        case Failure(e) => Failure(e)
        case Success((markup, preTax)) =>
          match Tax(preTax, vat)
          case Failure(e) => Failure(e)
          case Success(taxed) => Success(Assembled(rule, basis, markup, taxed, vat, FxOf(net, settlement)))
  }

  function FxOf(net: Money, settlement: Option<Settlement>): Option<AppliedFx> {
    if settlement.None? then None else Some(AppliedFx(net, settlement.value.rate, settlement.value.bufferBps))
  }

  /** Stage 6. */
  function Assembled(rule: Option<Rule>, basis: Money, markup: Money, taxed: Taxed, vat: VatTreatment, fx: Option<AppliedFx>): Resolution
    requires rule.Some? ==> ValidRule(rule.value)
  {
    Resolution(taxed.sell,
               Breakdown(basis, markup, taxed.taxableBase, taxed.vat, vat, Components(basis, markup, taxed, vat.mode), Split(rule, markup), fx),
               if rule.None? then None else Some(rule.value.id))
  }

  ghost predicate AllValid(rules: seq<Rule>) {
    forall i :: 0 <= i < |rules| ==> ValidRule(rules[i])
  }

  lemma SelectedIsValid(rules: seq<Rule>, context: Context)
    requires AllValid(rules)
    ensures Select(rules, context).Some? ==> ValidRule(Select(rules, context).value)
  {
    SelectedIsUnbeaten(rules, context);
  }

  // ---------------------------------------------------------------------------
  // resolvePrice, stage by stage

  method AllocatePair(total: Money, a: int, b: int) returns (r: Priced<(Money, Money)>)
    requires 0 <= a <= 10000 && 0 <= b <= 10000 && a + b > 0
    ensures ValidWeights([a, b])
    ensures r == if ValidMoney(total) then Success(Pair(total, a, b)) else Failure(AmountFailed(InvalidMoney))
  {
    PairWeightsAreValid(a, b);
    var parts := Allocate(total, [a, b]);
    if parts.Failure? {
      return Failure(AmountFailed(InvalidMoney));
    }
    r := Success((parts.value[0], parts.value[1]));
  }

  /** What a rule asks to add to a basis: the nearest share of it, an amount, or an amount for each night or guest. */
  ghost predicate Asks(rule: Rule, basis: int, context: Context, asked: int) {
    match rule.valueType
    case Percent => NearestTiesAway(asked, basis * rule.value, 10000)
    case Fixed => asked == rule.value
    case _ => QuantityOf(rule, context).Some? && QuantityOf(rule, context).value >= 1 && asked == rule.value * QuantityOf(rule, context).value
  }

  lemma WholeMultiplesAreExact(asked: int, x: int)
    requires NearestTiesAway(asked, x, 1)
    ensures asked == x
  {
  }

  lemma RuleMarkupAsks(rule: Rule, basis: Money, context: Context)
    requires RuleMarkup(rule, basis, context).Success?
    ensures Asks(rule, basis.amount, context, RuleMarkup(rule, basis, context).value.amount)
  {
    var asked := RuleMarkup(rule, basis, context).value.amount;
    if rule.valueType == Percent {
      ScalingIsNearest(basis, rule.value, 10000, asked);
    } else if rule.valueType != Fixed {
      var quantity := QuantityOf(rule, context).value;
      ScalingIsNearest(Money(rule.value, basis.currency), quantity, 1, asked);
      WholeMultiplesAreExact(asked, rule.value * quantity);
    }
  }

  /**
   Stage 3: the markup applied and the price before tax. They add up in the basis's currency; the markup
   is what the rule asks for, or nothing without a rule, except that a discount stops at zero.
   */
  method ApplyMarkup(rule: Option<Rule>, basis: Money, context: Context) returns (r: Priced<(Money, Money)>)
    requires ValidMoney(basis) && basis.amount >= 0
    ensures r.Success? ==>
              var (markup, preTax) := r.value;
              && ValidMoney(markup) && ValidMoney(preTax) && markup.currency == preTax.currency == basis.currency
              && preTax.amount >= 0 && basis.amount + markup.amount == preTax.amount
              && (rule.None? ==> markup.amount == 0)
              && (rule.Some? ==> Asks(rule.value, basis.amount, context, markup.amount)
                                 || (preTax.amount == 0 && exists asked: int :: asked < markup.amount && Asks(rule.value, basis.amount, context, asked)))
    ensures r == match if rule.None? then Success(Zero(basis.currency)) else RuleMarkup(rule.value, basis, context)
                 case Failure(e) => Failure(e)
                 case Success(asked) => Marked(basis, asked)
  {
    var markup := Zero(basis.currency);
    if rule.Some? {
      var asked := RuleMarkup(rule.value, basis, context);
      if asked.Failure? {
        return Failure(asked.error);
      }
      markup := asked.value;
      RuleMarkupAsks(rule.value, basis, context);
    }
    ghost var asked := markup.amount;
    var added := Add(basis, markup);
    if added.Failure? {
      return Failure(AmountFailed(added.error));
    }
    var preTax := added.value;
    if preTax.amount < 0 {
      preTax := Zero(basis.currency);
      var clamped := Subtract(preTax, basis);
      if clamped.Failure? {
        return Failure(AmountFailed(clamped.error));
      }
      markup := clamped.value;
      assert asked < markup.amount;
    }
    r := Success((markup, preTax));
  }

  /** The part is within one minor unit of its exact share b / whole of the total. */
  predicate NearlyExact(part: int, total: int, b: int, whole: int) {
    -whole < part * whole - total * b < whole
  }

  /**
   Stage 4: base and tax add up to the sell price in one currency, none of them negative. An inclusive
   tax is carved out of the price to within one minor unit, an exclusive one is the nearest amount and
   raises the price by itself, an exempt one is zero.
   */
  method ApplyVat(preTax: Money, vat: VatTreatment) returns (r: Priced<Taxed>)
    requires ValidVat(vat) && ValidMoney(preTax) && preTax.amount >= 0
    ensures r.Success? ==>
              var t := r.value;
              && t.taxableBase.amount + t.vat.amount == t.sell.amount && t.vat.amount >= 0 && t.taxableBase.amount >= 0
              && t.sell.amount == preTax.amount + (if vat.mode == Exclusive then t.vat.amount else 0)
              && t.sell.currency == t.taxableBase.currency == t.vat.currency == preTax.currency
              && (vat.mode == Inclusive ==> NearlyExact(t.vat.amount, preTax.amount, vat.rateBps, 10000 + vat.rateBps))
              && (vat.mode == Exclusive ==> NearestTiesAway(t.vat.amount, preTax.amount * vat.rateBps, 10000))
              && (vat.mode == Exempt ==> t.vat.amount == 0)
    ensures r == Tax(preTax, vat)
  {
    var sell, taxableBase, tax := preTax, preTax, Zero(preTax.currency);
    match vat.mode {
      case Inclusive =>
        var carved := AllocatePair(sell, 10000, vat.rateBps);
        taxableBase, tax := carved.value.0, carved.value.1;
      case Exclusive =>
        var scaled := MultiplyByRatio(preTax, vat.rateBps, 10000);
        if scaled.Failure? {
          return Failure(AmountFailed(scaled.error));
        }
        tax := scaled.value;
        var total := Add(preTax, tax);
        if total.Failure? {
          return Failure(AmountFailed(total.error));
        }
        sell := total.value;
      case Exempt =>
    }
    r := Success(Taxed(sell, taxableBase, tax));
    TaxAddsUp(preTax, vat);
    TaxIsAccurate(preTax, vat);
  }

  /**
   Stage 5: the markup is split exactly when the fired rule says so; the shares add up to it, neither
   changes its sign, and each is within one minor unit of its exact share.
   */
  method SplitCommission(rule: Option<Rule>, markup: Money) returns (split: Option<CommissionSplit>)
    requires ValidMoney(markup) && (rule.Some? ==> ValidRule(rule.value))
    ensures split.Some? <==> rule.Some? && rule.value.commissionSplitBps.Some?
    ensures split.Some? ==>
              var (agency, tenant, bps) := (split.value.agencyCommission, split.value.tenantMargin, rule.value.commissionSplitBps.value);
              && agency.amount + tenant.amount == markup.amount && agency.currency == tenant.currency == markup.currency
              && (markup.amount >= 0 ==> agency.amount >= 0 && tenant.amount >= 0)
              && (markup.amount <= 0 ==> agency.amount <= 0 && tenant.amount <= 0)
              && NearlyExact(agency.amount, markup.amount, bps, 10000) && NearlyExact(tenant.amount, markup.amount, 10000 - bps, 10000)
    ensures split == Split(rule, markup)
  {
    if rule.None? || rule.value.commissionSplitBps.None? {
      return None;
    }
    var bps := rule.value.commissionSplitBps.value;
    var shares := AllocatePair(markup, bps, 10000 - bps);
    split := Some(CommissionSplit(shares.value.0, shares.value.1));
    PairWeightsAreValid(bps, 10000 - bps);
    PairAddsUp(markup, bps, 10000 - bps);
    PairIsNearlyExact(markup, bps, 10000 - bps);
  }

  predicate Accepted(net: Money, vat: VatTreatment) {
    ValidMoney(net) && net.amount >= 0 && ValidVat(vat)
  }

  /** Succeeds exactly when the inputs are valid and every stage succeeds, and then with what the stages yield on the net as converted. */
  method ResolvePrice(net: Money, context: Context, rules: seq<Rule>, settlement: Option<Settlement>, vat: VatTreatment)
    returns (r: Priced<Resolution>)
    ensures AllValid(rules) ==> Select(rules, context).Some? ==> ValidRule(Select(rules, context).value)
    ensures r.Success? <==> Accepted(net, vat) && AllValid(rules) && Price(net, context, Select(rules, context), settlement, vat).Success?
    ensures r.Success? ==> r == Price(net, context, Select(rules, context), settlement, vat)
    ensures r.Success? ==> ConvertedTo(net, settlement, r.value.breakdown.net)
  {
    if AllValid(rules) {
      SelectedIsValid(rules, context);
    }
    if !ValidMoney(net) || net.amount < 0 || !ValidVat(vat) {
      return Failure(InvalidInput);
    }
    var based := Basis(net, settlement);
    if based.Failure? {
      return Failure(based.error);
    }
    var fx: Option<AppliedFx> := None;
    if settlement.Some? {
      fx := Some(AppliedFx(net, settlement.value.rate, settlement.value.bufferBps));
    }
    var selected := SelectRule(rules, context);
    if selected.Failure? {
      return Failure(BadRule);
    }
    var rule := selected.value;
    BasisIsValid(net, settlement);
    BasisIs(net, settlement, based.value);
    var marked := ApplyMarkup(rule, based.value, context);
    if marked.Failure? {
      return Failure(marked.error);
    }
    var (markup, preTax) := marked.value;
    var taxed := ApplyVat(preTax, vat);
    if taxed.Failure? {
      return Failure(taxed.error);
    }
    var commissionSplit := SplitCommission(rule, markup);
    var components := [Component(NetPart, based.value), Component(MarkupPart, markup)];
    if vat.mode == Exclusive {
      components := components + [Component(VatPart, taxed.value.vat)];
    }
    var resolution := Resolution(taxed.value.sell,
                                 Breakdown(based.value, markup, taxed.value.taxableBase, taxed.value.vat, vat, components, commissionSplit, fx),
                                 if rule.None? then None else Some(rule.value.id));
    assert components == Components(based.value, markup, taxed.value, vat.mode);
    assert resolution == Assembled(rule, based.value, markup, taxed.value, vat, fx);
    r := Success(resolution);
  }

  // ---------------------------------------------------------------------------
  // Every stage keeps valid money

  lemma BasisIsValid(net: Money, settlement: Option<Settlement>)
    requires ValidMoney(net) && net.amount >= 0 && Basis(net, settlement).Success?
    ensures ValidMoney(Basis(net, settlement).value) && Basis(net, settlement).value.amount >= 0
  {
    if settlement.Some? {
      var s := settlement.value;
      ScalingKeepsSign(net, s.rate.numerator, s.rate.denominator);
      var converted := Money(MultiplyByRatio(net, s.rate.numerator, s.rate.denominator).value.amount, s.currency);
      if s.bufferBps != 0 {
        ScalingKeepsSign(converted, 10000 + s.bufferBps, 10000);
      }
    }
  }

  /** Scaling something not negative by something not negative gives nothing negative. */
  lemma ScalingKeepsSign(m: Money, numerator: int, denominator: int)
    requires denominator > 0 && numerator >= 0 && m.amount >= 0
    ensures var r := MultiplyByRatio(m, numerator, denominator);
            r.Success? ==> ValidMoney(r.value) && r.value.amount >= 0 && r.value.currency == m.currency
  {
    ProductOrder(0, m.amount, numerator);
    RoundingIsMonotone(0 * numerator, m.amount * numerator, denominator);
  }

  lemma MarkedIsValid(net: Money, settlement: Option<Settlement>, rule: Option<Rule>, context: Context)
    requires ValidMoney(net) && net.amount >= 0 && Basis(net, settlement).Success?
    ensures var basis := Basis(net, settlement).value;
            var asked := if rule.None? then Success(Zero(basis.currency)) else RuleMarkup(rule.value, basis, context);
            asked.Success? && Marked(basis, asked.value).Success? ==>
              var (markup, preTax) := Marked(basis, asked.value).value;
              && ValidMoney(markup) && ValidMoney(preTax) && preTax.amount >= 0
              && markup.currency == preTax.currency == basis.currency
              && basis.amount + markup.amount == preTax.amount
              && markup == (if basis.amount + asked.value.amount < 0 then Money(-basis.amount, basis.currency) else asked.value)
  {
    BasisIsValid(net, settlement);
  }

  // ---------------------------------------------------------------------------
  // What a resolution guarantees

  function ComponentSum(components: seq<Component>): int {
    if components == [] then 0 else ComponentSum(components[..|components| - 1]) + components[|components| - 1].amount.amount
  }

  lemma PairAddsUp(total: Money, a: int, b: int)
    requires ValidWeights([a, b])
    ensures Pair(total, a, b).0.amount + Pair(total, a, b).1.amount == total.amount
    ensures total.amount >= 0 ==> Pair(total, a, b).0.amount >= 0 && Pair(total, a, b).1.amount >= 0
    ensures total.amount <= 0 ==> Pair(total, a, b).0.amount <= 0 && Pair(total, a, b).1.amount <= 0
  {
    var parts := Parts(total.amount, [a, b]);
    Conserves(total.amount, [a, b]);
    PartBounds(total.amount, [a, b], 0);
    PartBounds(total.amount, [a, b], 1);
    assert parts[1..] == [parts[1]] && parts[1..][1..] == [];
    assert Sum(parts) == parts[0] + Sum(parts[1..]);
    assert Sum(parts[1..]) == parts[1];
  }

  lemma CarveOut(exact: int, whole: int, part: int)
    requires whole > 0 && (part == exact / whole || (part == exact / whole + 1 && exact % whole > 0))
    ensures -whole < part * whole - exact < whole
  {
    assert exact == (exact / whole) * whole + exact % whole;
    assert (exact / whole + 1) * whole == (exact / whole) * whole + whole;
  }

  lemma NegatedIsAsExact(part: int, total: int, b: int, whole: int)
    requires NearlyExact(part, total, b, whole)
    ensures NearlyExact(-part, -total, b, whole)
  {
    assert (-part) * whole == -(part * whole) && (-total) * b == -(total * b);
  }

  lemma ShareIsNearlyExact(amount: int, a: int, b: int, i: nat)
    requires 0 <= a <= 10000 && 0 <= b <= 10000 && a + b > 0 && i < 2
    ensures ValidWeights([a, b]) && NearlyExact(Parts(amount, [a, b])[i], amount, [a, b][i], a + b)
  {
    PairWeightsAreValid(a, b);
    var abs: nat := Abs(amount);
    LargestRemainders(abs, [a, b], i);
    DivisionExact(abs * [a, b][i], a + b);
    CarveOut(abs * [a, b][i], a + b, AbsoluteParts(abs, [a, b])[i]);
    if amount < 0 {
      NegatedIsAsExact(AbsoluteParts(abs, [a, b])[i], abs, [a, b][i], a + b);
    }
  }

  lemma PairIsNearlyExact(total: Money, a: int, b: int)
    requires 0 <= a <= 10000 && 0 <= b <= 10000 && a + b > 0 && ValidWeights([a, b])
    ensures NearlyExact(Pair(total, a, b).0.amount, total.amount, a, a + b)
    ensures NearlyExact(Pair(total, a, b).1.amount, total.amount, b, a + b)
  {
    ShareIsNearlyExact(total.amount, a, b, 0);
    ShareIsNearlyExact(total.amount, a, b, 1);
  }

  lemma TaxIsAccurate(preTax: Money, vat: VatTreatment)
    requires ValidVat(vat) && ValidMoney(preTax) && preTax.amount >= 0 && Tax(preTax, vat).Success?
    ensures var t := Tax(preTax, vat).value;
            && (vat.mode == Inclusive ==> NearlyExact(t.vat.amount, preTax.amount, vat.rateBps, 10000 + vat.rateBps))
            && (vat.mode == Exclusive ==> NearestTiesAway(t.vat.amount, preTax.amount * vat.rateBps, 10000))
            && (vat.mode == Exempt ==> t.vat.amount == 0)
  {
    match vat.mode {
      case Inclusive =>
        PairWeightsAreValid(10000, vat.rateBps);
        PairIsNearlyExact(preTax, 10000, vat.rateBps);
      case Exclusive => ScalingIsNearest(preTax, vat.rateBps, 10000, Tax(preTax, vat).value.vat.amount);
      case Exempt =>
    }
  }

  lemma TaxAddsUp(preTax: Money, vat: VatTreatment)
    requires ValidVat(vat) && ValidMoney(preTax) && preTax.amount >= 0 && Tax(preTax, vat).Success?
    ensures var t := Tax(preTax, vat).value;
            && t.taxableBase.amount + t.vat.amount == t.sell.amount
            && t.sell.amount == preTax.amount + (if vat.mode == Exclusive then t.vat.amount else 0)
            && t.vat.amount >= 0 && t.taxableBase.amount >= 0
            && t.sell.currency == t.taxableBase.currency == t.vat.currency == preTax.currency
  {
    match vat.mode {
      case Inclusive =>
        PairWeightsAreValid(10000, vat.rateBps);
        PairAddsUp(preTax, 10000, vat.rateBps);
      case Exclusive => ScalingKeepsSign(preTax, vat.rateBps, 10000);
      case Exempt =>
    }
  }

  lemma SplitAddsUp(rule: Option<Rule>, markup: Money)
    requires rule.Some? ==> ValidRule(rule.value)
    ensures var split := Split(rule, markup);
            && (split.Some? <==> rule.Some? && rule.value.commissionSplitBps.Some?)
            && (split.Some? ==> split.value.agencyCommission.amount + split.value.tenantMargin.amount == markup.amount)
  {
    if rule.Some? && rule.value.commissionSplitBps.Some? {
      var bps := rule.value.commissionSplitBps.value;
      PairWeightsAreValid(bps, 10000 - bps);
      PairAddsUp(markup, bps, 10000 - bps);
    }
  }

  lemma ComponentsAddUp(net: Money, markup: Money, taxed: Taxed, mode: VatMode)
    ensures ComponentSum(Components(net, markup, taxed, mode))
            == net.amount + markup.amount + if mode == Exclusive then taxed.vat.amount else 0
  {
    var cs := Components(net, markup, taxed, mode);
    var two := [Component(NetPart, net), Component(MarkupPart, markup)];
    assert two[..1] == [two[0]] && [two[0]][..0] == [];
    assert ComponentSum([two[0]]) == net.amount;
    assert ComponentSum(two) == net.amount + markup.amount;
    if mode == Exclusive {
      assert cs[..2] == two;
    } else {
      assert cs == two;
    }
  }

  /**
   For every net, context, rule, settlement and VAT mode that resolves: the components sum exactly to
   the sell price, taxable base and VAT do too, the commission split sums exactly to the markup, all in
   one currency; and the sell price is never negative.
   */
  lemma NothingIsLost(net: Money, context: Context, rule: Option<Rule>, settlement: Option<Settlement>, vat: VatTreatment)
    requires Accepted(net, vat) && (rule.Some? ==> ValidRule(rule.value))
    requires Price(net, context, rule, settlement, vat).Success?
    ensures var res := Price(net, context, rule, settlement, vat).value;
            var b := res.breakdown;
            && ComponentSum(b.components) == res.sell.amount
            && b.taxableBase.amount + b.vat.amount == res.sell.amount
            && (b.commissionSplit.Some? <==> rule.Some? && rule.value.commissionSplitBps.Some?)
            && (b.commissionSplit.Some? ==>
                  b.commissionSplit.value.agencyCommission.amount + b.commissionSplit.value.tenantMargin.amount == b.markup.amount)
            && res.sell.amount >= 0 && b.vat.amount >= 0 && b.taxableBase.amount >= 0
            && (forall i :: 0 <= i < |b.components| ==> b.components[i].amount.currency == res.sell.currency)
            && b.taxableBase.currency == b.vat.currency == b.net.currency == res.sell.currency
  {
    var basis := Basis(net, settlement).value;
    MarkedIsValid(net, settlement, rule, context);
    var asked := if rule.None? then Zero(basis.currency) else RuleMarkup(rule.value, basis, context).value;
    var (markup, preTax) := Marked(basis, asked).value;
    TaxAddsUp(preTax, vat);
    ComponentsAddUp(basis, markup, Tax(preTax, vat).value, vat.mode);
    SplitAddsUp(rule, markup);
  }

  /**
   The net is priced as it is, or at the nearest amount to it at the stored rate, raised to the nearest
   amount by the buffer; exactly such a conversion is recorded, from the net's currency to the sell currency.
   */
  lemma ConversionIsRecorded(net: Money, context: Context, rule: Option<Rule>, settlement: Option<Settlement>, vat: VatTreatment)
    requires Accepted(net, vat) && (rule.Some? ==> ValidRule(rule.value))
    requires Price(net, context, rule, settlement, vat).Success?
    ensures var res := Price(net, context, rule, settlement, vat).value;
            var fx := res.breakdown.fx;
            && ConvertedTo(net, settlement, res.breakdown.net)
            && (fx.Some? <==> settlement.Some?)
            && (fx.Some? ==> && fx.value == AppliedFx(net, settlement.value.rate, settlement.value.bufferBps)
                             && fx.value.rate.from == net.currency && fx.value.rate.to == res.sell.currency != net.currency)
  {
    NothingIsLost(net, context, rule, settlement, vat);
    BasisIs(net, settlement, Basis(net, settlement).value);
  }

  /** The markup a rule asks for is negative only if the rule's value is. */
  lemma MarkupFollowsTheValue(rule: Rule, basis: Money, context: Context)
    requires basis.amount >= 0 && RuleMarkup(rule, basis, context).Success?
    ensures rule.value >= 0 ==> RuleMarkup(rule, basis, context).value.amount >= 0
    ensures rule.value <= 0 ==> RuleMarkup(rule, basis, context).value.amount <= 0
  {
    if rule.valueType == Percent {
      if rule.value >= 0 {
        ScalingKeepsSign(basis, rule.value, 10000);
      } else {
        ProductSign(basis.amount, rule.value);
        RoundingIsMonotone(basis.amount * rule.value, 0, 10000);
      }
    } else if rule.valueType != Fixed {
      var q := QuantityOf(rule, context).value;
      if rule.value >= 0 {
        ScalingKeepsSign(Money(rule.value, basis.currency), q, 1);
      } else {
        ProductSign(q, rule.value);
        RoundingIsMonotone(rule.value * q, 0, 1);
      }
    }
  }

  lemma ProductSign(a: int, b: int)
    requires a >= 0 && b <= 0
    ensures a * b <= 0 && b * a <= 0
  {
  }

  /** The sale never goes below the net basis unless the fired rule discounts, and never below zero. */
  lemma SellCoversTheNet(net: Money, context: Context, rule: Option<Rule>, settlement: Option<Settlement>, vat: VatTreatment)
    requires Accepted(net, vat) && (rule.Some? ==> ValidRule(rule.value))
    requires Price(net, context, rule, settlement, vat).Success?
    ensures var res := Price(net, context, rule, settlement, vat).value;
            && (rule.None? ==> res.breakdown.markup.amount == 0)
            && (rule.None? || rule.value.value >= 0 ==> res.sell.amount >= res.breakdown.net.amount >= 0)
            && (res.sell.amount < res.breakdown.net.amount ==> rule.Some? && rule.value.value < 0)
            && res.breakdown.markup.amount >= -res.breakdown.net.amount
  {
    var basis := Basis(net, settlement).value;
    BasisIsValid(net, settlement);
    MarkedIsValid(net, settlement, rule, context);
    var asked := if rule.None? then Zero(basis.currency) else RuleMarkup(rule.value, basis, context).value;
    if rule.Some? {
      MarkupFollowsTheValue(rule.value, basis, context);
    }
    TaxAddsUp(Marked(basis, asked).value.1, vat);
  }

  /** Inclusive VAT is within one minor unit of the exact share rate / (10000 + rate) of the sell price. */
  lemma InclusiveVatIsNearlyExact(net: Money, context: Context, rule: Option<Rule>, settlement: Option<Settlement>, vat: VatTreatment)
    requires Accepted(net, vat) && vat.mode == Inclusive && (rule.Some? ==> ValidRule(rule.value))
    requires Price(net, context, rule, settlement, vat).Success?
    ensures var res := Price(net, context, rule, settlement, vat).value;
            NearlyExact(res.breakdown.vat.amount, res.sell.amount, vat.rateBps, 10000 + vat.rateBps)
  {
    var basis := Basis(net, settlement).value;
    MarkedIsValid(net, settlement, rule, context);
    var asked := if rule.None? then Zero(basis.currency) else RuleMarkup(rule.value, basis, context).value;
    TaxIsAccurate(Marked(basis, asked).value.1, vat);
  }

  /** Exclusive VAT is the nearest amount to the exact one, ties away from zero. */
  lemma ExclusiveVatIsNearest(net: Money, context: Context, rule: Option<Rule>, settlement: Option<Settlement>, vat: VatTreatment)
    requires Accepted(net, vat) && vat.mode == Exclusive && (rule.Some? ==> ValidRule(rule.value))
    requires Price(net, context, rule, settlement, vat).Success?
    ensures var b := Price(net, context, rule, settlement, vat).value.breakdown;
            NearestTiesAway(b.vat.amount, b.taxableBase.amount * vat.rateBps, 10000)
  {
    var b := Price(net, context, rule, settlement, vat).value.breakdown;
    ScalingIsNearest(b.taxableBase, vat.rateBps, 10000, b.vat.amount);
  }

  /** The price does not depend on the order rules are listed in. */
  lemma PriceIgnoresRuleOrder(net: Money, context: Context, a: seq<Rule>, b: seq<Rule>, settlement: Option<Settlement>, vat: VatTreatment)
    requires ValidVat(vat) && AllValid(a) && AllValid(b) && DistinctIds(a) && DistinctIds(b) && multiset(a) == multiset(b)
    ensures Select(a, context).Some? ==> ValidRule(Select(a, context).value)
    ensures Select(b, context).Some? ==> ValidRule(Select(b, context).value)
    ensures Price(net, context, Select(a, context), settlement, vat) == Price(net, context, Select(b, context), settlement, vat)
  {
    SelectedIsValid(a, context);
    SelectedIsValid(b, context);
    SelectionIgnoresOrder(a, b, context);
  }
}
