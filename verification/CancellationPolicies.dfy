/**
 Normalized cancellation policies: validity and the penalty in force (packages/domain/src/booking.ts),
 the merge of several rooms' policies (packages/adapters/hotel/tbo/src/adapter.ts) and the display
 timeline (packages/ui/src/widgets/policyTimelineModel.ts).
 */
module CancellationPolicies {
  import opened Money
  import opened Sequences
  import opened Sorting
  import opened Wrappers

  /** A UTC instant as written and the millisecond it denotes; two spellings may denote one instant. */
  datatype Instant = Instant(spelling: string, ms: int)

  datatype Rule = Rule(fromUtc: Instant, penalty: Money)

  datatype Policy = Policy(refundable: bool, rules: seq<Rule>)

  datatype PolicyError = InvalidPolicy | PenaltyError(error: MoneyError)

  predicate ValidRules(rules: seq<Rule>) {
    && (forall i :: 0 <= i < |rules| ==> ValidMoney(rules[i].penalty))
    && (forall i, j :: 0 <= i < j < |rules| ==> rules[i].fromUtc.ms <= rules[j].fromUtc.ms)
  }

  predicate ValidPolicy(policy: Policy) {
    ValidRules(policy.rules)
  }

  // ---------------------------------------------------------------------------
  // The penalty in force

  /** The last rule that has started by `at`. */
  function InForce(rules: seq<Rule>, at: int): Option<Money> {
    if rules == [] then None
    else if rules[|rules| - 1].fromUtc.ms <= at then Some(rules[|rules| - 1].penalty)
    else InForce(rules[..|rules| - 1], at)
  }

  method AssertValidCancellationPolicy(policy: Policy) returns (valid: bool)
    ensures valid <==> ValidPolicy(policy)
  {
    var previous: Option<int> := None;
    for i := 0 to |policy.rules|
      invariant ValidRules(policy.rules[..i])
      invariant previous == if i == 0 then None else Some(policy.rules[i - 1].fromUtc.ms)
    {
      var rule := policy.rules[i];
      assert rule == policy.rules[i];
      if !ValidMoney(rule.penalty) {
        return false;
      }
      var ms := rule.fromUtc.ms;
      if previous.Some? && ms < previous.value {
        return false;
      }
      previous := Some(ms);
    }
    assert policy.rules[..|policy.rules|] == policy.rules;
    valid := true;
  }

  /** The scan of resolvePenaltyAt stops at the first rule still in the future. */
  method ResolvePenaltyAt(policy: Policy, at: int) returns (r: Result<Option<Money>, PolicyError>)
    ensures r.Success? <==> ValidPolicy(policy)
    ensures r.Success? ==> r.value == InForce(policy.rules, at)
  {
    var valid := AssertValidCancellationPolicy(policy);
    if !valid {
      return Failure(InvalidPolicy);
    }
    var inForce: Option<Money> := None;
    for i := 0 to |policy.rules|
      invariant inForce == InForce(policy.rules[..i], at)
    {
      if policy.rules[i].fromUtc.ms <= at {
        inForce := Some(policy.rules[i].penalty);
      } else {
        FutureRulesAreIgnored(policy.rules, at, i, |policy.rules|);
        assert policy.rules[..|policy.rules|] == policy.rules;
        return Success(inForce);
      }
      assert policy.rules[..i + 1][..i] == policy.rules[..i];
    }
    assert policy.rules[..|policy.rules|] == policy.rules;
    r := Success(inForce);
  }

  lemma {:induction false} FutureRulesAreIgnored(rules: seq<Rule>, at: int, i: nat, n: nat)
    requires ValidRules(rules) && i < n <= |rules| && at < rules[i].fromUtc.ms
    ensures InForce(rules[..n], at) == InForce(rules[..i], at)
    decreases n
  {
    assert rules[..n][..n - 1] == rules[..n - 1];
    if i < n - 1 {
      FutureRulesAreIgnored(rules, at, i, n - 1);
    }
  }

  /** The latest rule at or before the instant decides; before every rule there is no penalty. */
  lemma {:induction false} InForceIsTheLatest(rules: seq<Rule>, at: int)
    ensures InForce(rules, at).None? <==> forall i :: 0 <= i < |rules| ==> at < rules[i].fromUtc.ms
    ensures InForce(rules, at).Some? ==> exists i :: 0 <= i < |rules| && LatestStarted(rules, at, i)
                                                     && InForce(rules, at).value == rules[i].penalty
  {
    if rules != [] {
      var n := |rules| - 1;
      if rules[n].fromUtc.ms <= at {
        assert LatestStarted(rules, at, n);
      } else {
        var init := rules[..n];
        InForceIsTheLatest(init, at);
        if InForce(init, at).Some? {
          var i :| 0 <= i < n && LatestStarted(init, at, i) && InForce(init, at).value == init[i].penalty;
          assert init[i] == rules[i];
          assert LatestStarted(rules, at, i);
        }
      }
    }
  }

  predicate LatestStarted(rules: seq<Rule>, at: int, i: nat)
    requires i < |rules|
  {
    rules[i].fromUtc.ms <= at && forall j :: i < j < |rules| ==> at < rules[j].fromUtc.ms
  }

  lemma {:induction false} LatestDecides(rules: seq<Rule>, at: int, i: nat)
    requires i < |rules| && LatestStarted(rules, at, i)
    ensures InForce(rules, at) == Some(rules[i].penalty)
    decreases |rules|
  {
    var n := |rules| - 1;
    if i < n {
      LatestDecides(rules[..n], at, i);
    }
  }

  lemma {:induction false} OnlyStartedRulesMatter(rules: seq<Rule>, a: int, b: int)
    requires forall i :: 0 <= i < |rules| ==> (rules[i].fromUtc.ms <= a <==> rules[i].fromUtc.ms <= b)
    ensures InForce(rules, a) == InForce(rules, b)
  {
    if rules != [] {
      OnlyStartedRulesMatter(rules[..|rules| - 1], a, b);
    }
  }

  // ---------------------------------------------------------------------------
  // Merging the policies of several rooms

  function PenaltyOrZero(rules: seq<Rule>, at: int, currency: string): Money {
    match InForce(rules, at)
    case None => Zero(currency)
    case Some(m) => m
  }

  /** All rule instants, in policy order. */
  function Instants(policies: seq<Policy>): seq<Instant> {
    if policies == [] then [] else RuleInstants(policies[0].rules) + Instants(policies[1..])
  }

  function RuleInstants(rules: seq<Rule>): (s: seq<Instant>)
    ensures |s| == |rules| && forall i :: 0 <= i < |s| ==> s[i] == rules[i].fromUtc
  {
    seq(|rules|, i requires 0 <= i < |rules| => rules[i].fromUtc)
  }

  /** `new Set(...)`: the first occurrence of each spelling. */
  function Distinct(xs: seq<Instant>): seq<Instant> {
    if xs == [] then []
    else
      var init := Distinct(xs[..|xs| - 1]);
      if xs[|xs| - 1] in init then init else init + [xs[|xs| - 1]]
  }

  predicate NoLater(a: Instant, b: Instant) {
    a.ms <= b.ms
  }

  function MergeInstants(policies: seq<Policy>): seq<Instant> {
    Sort(NoLater, Distinct(Instants(policies)))
  }

  /** The first penalty's currency, as the adapter picks it. */
  function MergeCurrency(policies: seq<Policy>): string {
    if policies == [] then "USD"
    else if policies[0].rules != [] then policies[0].rules[0].penalty.currency
    else MergeCurrency(policies[1..])
  }

  /** `reduce(addMoney, ...)` over the rooms' penalties at one instant; resolving an invalid policy throws. */
  function TotalAt(policies: seq<Policy>, at: int, currency: string, sum: Money): Result<Money, PolicyError> {
    if policies == [] then Success(sum)
    else if !ValidPolicy(policies[0]) then Failure(InvalidPolicy)
    else
      match Add(sum, PenaltyOrZero(policies[0].rules, at, currency))
      case Failure(e) => Failure(PenaltyError(e))
      case Success(sum') => TotalAt(policies[1..], at, currency, sum')
  }

  function MergedRules(policies: seq<Policy>, instants: seq<Instant>, currency: string): Result<seq<Rule>, PolicyError> {
    if instants == [] then Success([])
    else
      match TotalAt(policies, instants[0].ms, currency, Zero(currency))
      case Failure(e) => Failure(e)
      case Success(total) =>
        match MergedRules(policies, instants[1..], currency)
        case Failure(e) => Failure(e)
        case Success(rest) => Success([Rule(instants[0], total)] + rest)
  }

  function MergeCancellationPolicies(policies: seq<Policy>): Result<Policy, PolicyError> {
    if |policies| == 1 then Success(policies[0])
    else
      match MergedRules(policies, MergeInstants(policies), MergeCurrency(policies))
      case Failure(e) => Failure(e)
      case Success(rules) =>
        Success(Policy(forall i :: 0 <= i < |policies| ==> policies[i].refundable, rules))
  }

  /** The sum over the rooms of the penalty in force at `at`, no penalty read as zero. */
  function SumAt(policies: seq<Policy>, at: int): int {
    if policies == [] then 0
    else PenaltyOrZero(policies[0].rules, at, "").amount + SumAt(policies[1..], at)
  }

  lemma {:induction false} TotalIsTheSum(policies: seq<Policy>, at: int, currency: string, sum: Money)
    requires TotalAt(policies, at, currency, sum).Success? && ValidMoney(sum) && sum.currency == currency
    ensures var total := TotalAt(policies, at, currency, sum).value;
            total == Money(sum.amount + SumAt(policies, at), currency) && ValidMoney(total)
    ensures forall i :: 0 <= i < |policies| ==>
              ValidPolicy(policies[i]) && PenaltyOrZero(policies[i].rules, at, currency).currency == currency
  {
    if policies != [] {
      var p := PenaltyOrZero(policies[0].rules, at, currency);
      TotalIsTheSum(policies[1..], at, currency, Add(sum, p).value);
    }
  }

  lemma {:induction false} SumDependsOnStartedRules(policies: seq<Policy>, a: int, b: int)
    requires forall p, i :: 0 <= p < |policies| && 0 <= i < |policies[p].rules| ==>
               (policies[p].rules[i].fromUtc.ms <= a <==> policies[p].rules[i].fromUtc.ms <= b)
    ensures SumAt(policies, a) == SumAt(policies, b)
    ensures forall p :: 0 <= p < |policies| ==> InForce(policies[p].rules, a) == InForce(policies[p].rules, b)
  {
    if policies != [] {
      OnlyStartedRulesMatter(policies[0].rules, a, b);
      SumDependsOnStartedRules(policies[1..], a, b);
    }
  }

  lemma {:induction false} NothingStartedSumsToZero(policies: seq<Policy>, at: int)
    requires forall p, i :: 0 <= p < |policies| && 0 <= i < |policies[p].rules| ==> at < policies[p].rules[i].fromUtc.ms
    ensures SumAt(policies, at) == 0
    ensures forall p :: 0 <= p < |policies| ==> InForce(policies[p].rules, at).None?
  {
    if policies != [] {
      InForceIsTheLatest(policies[0].rules, at);
      NothingStartedSumsToZero(policies[1..], at);
    }
  }

  lemma {:induction false} InstantsCoverTheRules(policies: seq<Policy>, p: nat, i: nat)
    requires p < |policies| && i < |policies[p].rules|
    ensures policies[p].rules[i].fromUtc in Instants(policies)
    decreases |policies|
  {
    if p == 0 {
      assert RuleInstants(policies[0].rules)[i] == policies[0].rules[i].fromUtc;
    } else {
      InstantsCoverTheRules(policies[1..], p - 1, i);
    }
  }

  lemma {:induction false} DistinctKeepsElements(xs: seq<Instant>, x: Instant)
    ensures x in Distinct(xs) <==> x in xs
  {
    if xs != [] {
      DistinctKeepsElements(xs[..|xs| - 1], x);
      assert xs == xs[..|xs| - 1] + [xs[|xs| - 1]];
    }
  }

  lemma MergeInstantsSorted(policies: seq<Policy>)
    ensures SortedBy(NoLater, MergeInstants(policies))
    ensures forall p, i :: 0 <= p < |policies| && 0 <= i < |policies[p].rules| ==>
              policies[p].rules[i].fromUtc in MergeInstants(policies)
  {
    var distinct := Distinct(Instants(policies));
    SortIsSorted(NoLater, distinct);
    SortKeepsElements(NoLater, distinct);
    forall p, i | 0 <= p < |policies| && 0 <= i < |policies[p].rules|
      ensures policies[p].rules[i].fromUtc in MergeInstants(policies)
    {
      InstantsCoverTheRules(policies, p, i);
      DistinctKeepsElements(Instants(policies), policies[p].rules[i].fromUtc);
      assert policies[p].rules[i].fromUtc in multiset(distinct);
      assert policies[p].rules[i].fromUtc in multiset(MergeInstants(policies));
    }
  }

  lemma {:induction false} MergedRulesShape(policies: seq<Policy>, instants: seq<Instant>, currency: string)
    requires MergedRules(policies, instants, currency).Success?
    ensures var rules := MergedRules(policies, instants, currency).value;
            && |rules| == |instants|
            && (forall k :: 0 <= k < |rules| ==> rules[k].fromUtc == instants[k])
            && (forall k :: 0 <= k < |rules| ==>
                  TotalAt(policies, instants[k].ms, currency, Zero(currency)) == Success(rules[k].penalty))
  {
    if instants != [] {
      MergedRulesShape(policies, instants[1..], currency);
    }
  }

  lemma {:induction false} MergeCurrencyIsUsed(policies: seq<Policy>)
    ensures MergeCurrency(policies) == "USD"
         || exists p :: 0 <= p < |policies| && policies[p].rules != [] && MergeCurrency(policies) == policies[p].rules[0].penalty.currency
  {
    if policies != [] && policies[0].rules == [] {
      MergeCurrencyIsUsed(policies[1..]);
      if p :| 0 <= p < |policies[1..]| && policies[1..][p].rules != []
              && MergeCurrency(policies[1..]) == policies[1..][p].rules[0].penalty.currency {
        assert policies[p + 1] == policies[1..][p];
      }
    }
  }

  /** A merge that succeeds has resolved every room's policy, so all of them were valid. */
  lemma MergeValidates(policies: seq<Policy>)
    requires |policies| != 1 && MergeCancellationPolicies(policies).Success?
    ensures forall p :: 0 <= p < |policies| ==> ValidPolicy(policies[p])
  {
    var instants, currency := MergeInstants(policies), MergeCurrency(policies);
    MergedRulesShape(policies, instants, currency);
    forall p | 0 <= p < |policies| ensures ValidPolicy(policies[p]) {
      if policies[p].rules != [] {
        var k := InstantOf(policies, p, 0);
        ResolvedPolicyIsValid(policies, instants[k].ms, currency, Zero(currency), p);
      }
    }
  }

  lemma MergeCurrencyIsValid(policies: seq<Policy>)
    requires forall p :: 0 <= p < |policies| ==> ValidPolicy(policies[p])
    ensures ValidCurrency(MergeCurrency(policies))
  {
    MergeCurrencyIsUsed(policies);
    if p :| 0 <= p < |policies| && policies[p].rules != [] && MergeCurrency(policies) == policies[p].rules[0].penalty.currency {
      assert ValidMoney(policies[p].rules[0].penalty);
    }
  }

  lemma InstantOf(policies: seq<Policy>, p: nat, i: nat) returns (k: nat)
    requires p < |policies| && i < |policies[p].rules|
    ensures k < |MergeInstants(policies)| && MergeInstants(policies)[k] == policies[p].rules[i].fromUtc
  {
    MergeInstantsSorted(policies);
    assert policies[p].rules[i].fromUtc in MergeInstants(policies);
    k :| 0 <= k < |MergeInstants(policies)| && MergeInstants(policies)[k] == policies[p].rules[i].fromUtc;
  }

  lemma {:induction false} ResolvedPolicyIsValid(policies: seq<Policy>, at: int, currency: string, sum: Money, p: nat)
    requires p < |policies| && TotalAt(policies, at, currency, sum).Success?
    ensures ValidPolicy(policies[p])
    decreases |policies|
  {
    if p > 0 {
      ResolvedPolicyIsValid(policies[1..], at, currency, Add(sum, PenaltyOrZero(policies[0].rules, at, currency)).value, p - 1);
    }
  }

  lemma SeveralRoomsMergePointwise(policies: seq<Policy>, at: int)
    requires |policies| != 1 && MergeCancellationPolicies(policies).Success?
    ensures var merged := MergeCancellationPolicies(policies).value;
            && ValidPolicy(merged)
            && PenaltyOrZero(merged.rules, at, "").amount == SumAt(policies, at)
            && (InForce(merged.rules, at).None? ==> forall p :: 0 <= p < |policies| ==> InForce(policies[p].rules, at).None?)
            && (InForce(merged.rules, at).Some? ==>
                  forall p :: 0 <= p < |policies| && InForce(policies[p].rules, at).Some? ==>
                    InForce(policies[p].rules, at).value.currency == InForce(merged.rules, at).value.currency)
  {
    var instants, currency := MergeInstants(policies), MergeCurrency(policies);
    var rules := MergeCancellationPolicies(policies).value.rules;
    MergedRulesShape(policies, instants, currency);
    MergeInstantsSorted(policies);
    MergeValidates(policies);
    MergeCurrencyIsValid(policies);
    forall k | 0 <= k < |rules| ensures ValidMoney(rules[k].penalty) {
      TotalIsTheSum(policies, instants[k].ms, currency, Zero(currency));
    }
    assert ValidRules(rules) by {
      forall i, j | 0 <= i < j < |rules| ensures rules[i].fromUtc.ms <= rules[j].fromUtc.ms {
        assert NoLater(instants[i], instants[j]);
      }
    }
    InForceIsTheLatest(rules, at);
    if InForce(rules, at).None? {
      forall p, i | 0 <= p < |policies| && 0 <= i < |policies[p].rules| ensures at < policies[p].rules[i].fromUtc.ms {
        var k := InstantOf(policies, p, i);
        assert at < rules[k].fromUtc.ms;
      }
      NothingStartedSumsToZero(policies, at);
    } else {
      var k :| 0 <= k < |rules| && LatestStarted(rules, at, k) && InForce(rules, at).value == rules[k].penalty;
      SameRulesStarted(policies, rules, at, k);
      SumDependsOnStartedRules(policies, at, instants[k].ms);
      TotalIsTheSum(policies, instants[k].ms, currency, Zero(currency));
    }
  }

  /**
   The merged policy is pointwise the sum of the rooms: at every instant its penalty is the sum of the
   penalties in force, in the one currency of all of them, and it is refundable only if every room is.
   It is validly ordered, except that a single room's policy is handed back as it came.
   */
  lemma MergedPolicyIsThePointwiseSum(policies: seq<Policy>, at: int)
    requires MergeCancellationPolicies(policies).Success?
    ensures var merged := MergeCancellationPolicies(policies).value;
            && (ValidPolicy(merged) <==> |policies| != 1 || ValidPolicy(policies[0]))
            && (merged.refundable <==> forall i :: 0 <= i < |policies| ==> policies[i].refundable)
            && PenaltyOrZero(merged.rules, at, "").amount == SumAt(policies, at)
            && (InForce(merged.rules, at).None? ==> forall p :: 0 <= p < |policies| ==> InForce(policies[p].rules, at).None?)
            && (InForce(merged.rules, at).Some? ==>
                  forall p :: 0 <= p < |policies| && InForce(policies[p].rules, at).Some? ==>
                    InForce(policies[p].rules, at).value.currency == InForce(merged.rules, at).value.currency)
  {
    if |policies| == 1 {
      assert policies[1..] == [];
    } else {
      SeveralRoomsMergePointwise(policies, at);
    }
  }

  lemma SameRulesStarted(policies: seq<Policy>, rules: seq<Rule>, at: int, k: nat)
    requires k < |rules| == |MergeInstants(policies)| && LatestStarted(rules, at, k)
    requires forall j :: 0 <= j < |rules| ==> rules[j].fromUtc == MergeInstants(policies)[j]
    requires ValidRules(rules)
    ensures forall p, i :: 0 <= p < |policies| && 0 <= i < |policies[p].rules| ==>
              (policies[p].rules[i].fromUtc.ms <= at <==> policies[p].rules[i].fromUtc.ms <= rules[k].fromUtc.ms)
  {
    MergeInstantsSorted(policies);
    forall p, i | 0 <= p < |policies| && 0 <= i < |policies[p].rules|
      ensures policies[p].rules[i].fromUtc.ms <= at <==> policies[p].rules[i].fromUtc.ms <= rules[k].fromUtc.ms
    {
      var j := InstantOf(policies, p, i);
      assert rules[j].fromUtc.ms == policies[p].rules[i].fromUtc.ms;
    }
  }

  /** At this instant every room's policy can be priced, and what it charges is in `currency`. */
  ghost predicate ChargedIn(policies: seq<Policy>, at: int, currency: string) {
    forall p :: 0 <= p < |policies| ==> ValidPolicy(policies[p]) && PenaltyOrZero(policies[p].rules, at, currency).currency == currency
  }

  /** Adding up the rooms in order never leaves the safe range. */
  ghost predicate SafeSums(policies: seq<Policy>, at: int, start: int) {
    forall p :: 0 <= p <= |policies| ==> SafeInteger(start + SumAt(policies[..p], at))
  }

  lemma SafeSumsStep(policies: seq<Policy>, at: int, start: int)
    requires policies != [] && SafeInteger(start)
    ensures SafeSums(policies, at, start) <==> SafeSums(policies[1..], at, start + PenaltyOrZero(policies[0].rules, at, "").amount)
  {
    var rest, next := policies[1..], start + PenaltyOrZero(policies[0].rules, at, "").amount;
    forall p | 0 <= p <= |rest| ensures start + SumAt(policies[..p + 1], at) == next + SumAt(rest[..p], at) {
      assert policies[..p + 1][1..] == rest[..p] && policies[..p + 1][0] == policies[0];
    }
    if SafeSums(policies, at, start) {
      forall p | 0 <= p <= |rest| ensures SafeInteger(next + SumAt(rest[..p], at)) {
        assert SafeInteger(start + SumAt(policies[..p + 1], at));
      }
    }
    if SafeSums(rest, at, next) {
      forall p | 0 <= p <= |policies| ensures SafeInteger(start + SumAt(policies[..p], at)) {
        if p > 0 {
          assert SafeInteger(next + SumAt(rest[..p - 1], at));
        } else {
          assert policies[..0] == [];
        }
      }
    }
  }

  lemma {:induction false} TotalSucceedsWithinRange(policies: seq<Policy>, at: int, currency: string, sum: Money)
    requires ValidMoney(sum) && sum.currency == currency
    ensures TotalAt(policies, at, currency, sum).Success? <==> ChargedIn(policies, at, currency) && SafeSums(policies, at, sum.amount)
  {
    if policies != [] {
      var rest, p := policies[1..], PenaltyOrZero(policies[0].rules, at, currency);
      InForceIsTheLatest(policies[0].rules, at);
      SafeSumsStep(policies, at, sum.amount);
      ChargedInStep(policies, at, currency);
      assert PenaltyOrZero(policies[0].rules, at, "").amount == p.amount;
      if Add(sum, p).Success? {
        TotalSucceedsWithinRange(rest, at, currency, Add(sum, p).value);
      } else if p.currency == currency && ValidPolicy(policies[0]) {
        assert rest[..0] == [];
        assert !SafeSums(rest, at, sum.amount + p.amount);
      }
    }
  }

  lemma ChargedInStep(policies: seq<Policy>, at: int, currency: string)
    requires policies != []
    ensures ChargedIn(policies, at, currency)
            <==> ValidPolicy(policies[0]) && PenaltyOrZero(policies[0].rules, at, currency).currency == currency && ChargedIn(policies[1..], at, currency)
  {
    if ChargedIn(policies[1..], at, currency) {
      assert forall p :: 0 < p < |policies| ==> policies[p] == policies[1..][p - 1];
    }
  }

  lemma {:induction false} MergedRulesSucceed(policies: seq<Policy>, instants: seq<Instant>, currency: string)
    ensures MergedRules(policies, instants, currency).Success?
            <==> forall k :: 0 <= k < |instants| ==> TotalAt(policies, instants[k].ms, currency, Zero(currency)).Success?
  {
    if instants != [] {
      MergedRulesSucceed(policies, instants[1..], currency);
      assert forall k :: 0 < k < |instants| ==> instants[k] == instants[1..][k - 1];
    }
  }

  /** The currency the merge picks is a valid one if the policies are valid and some room has a rule. */
  lemma {:induction false} PickedCurrencyIsValid(policies: seq<Policy>)
    requires (forall p :: 0 <= p < |policies| ==> ValidPolicy(policies[p])) && Instants(policies) != []
    ensures ValidCurrency(MergeCurrency(policies))
  {
    if policies[0].rules == [] {
      PickedCurrencyIsValid(policies[1..]);
    } else {
      assert ValidPolicy(policies[0]);
    }
  }

  /**
   Merging several rooms succeeds exactly when at every instant it prices each room's policy is valid,
   every penalty in force is in the currency picked, and no sum on the way leaves the safe range.
   */
  lemma MergeSucceedsIff(policies: seq<Policy>)
    requires |policies| != 1
    ensures var currency := MergeCurrency(policies);
            MergeCancellationPolicies(policies).Success?
            <==> forall k :: 0 <= k < |MergeInstants(policies)| ==>
                   ChargedIn(policies, MergeInstants(policies)[k].ms, currency) && SafeSums(policies, MergeInstants(policies)[k].ms, 0)
  {
    var instants, currency := MergeInstants(policies), MergeCurrency(policies);
    MergedRulesSucceed(policies, instants, currency);
    forall k | 0 <= k < |instants|
      ensures TotalAt(policies, instants[k].ms, currency, Zero(currency)).Success?
              <==> ChargedIn(policies, instants[k].ms, currency) && SafeSums(policies, instants[k].ms, 0)
    {
      if ValidCurrency(currency) {
        TotalSucceedsWithinRange(policies, instants[k].ms, currency, Zero(currency));
      } else {
        NothingAddsToAnInvalidSum(policies, instants[k].ms, currency);
        if ChargedIn(policies, instants[k].ms, currency) {
          assert Instants(policies) != [];
          PickedCurrencyIsValid(policies);
          assert false;
        }
      }
    }
  }

  lemma NothingAddsToAnInvalidSum(policies: seq<Policy>, at: int, currency: string)
    requires !ValidCurrency(currency) && policies != []
    ensures !TotalAt(policies, at, currency, Zero(currency)).Success?
  {
  }

  ghost predicate ChargesIn(policies: seq<Policy>, currency: string) {
    forall p :: 0 <= p < |policies| ==> ValidPolicy(policies[p]) && RulesChargeIn(policies[p].rules, currency)
  }

  ghost predicate RulesChargeIn(rules: seq<Rule>, currency: string) {
    forall i :: 0 <= i < |rules| ==> rules[i].penalty.currency == currency
  }

  /** So for valid rooms charging in one currency only a sum out of the safe range can refuse the merge. */
  lemma MergeFailsOnlyOnOverflow(policies: seq<Policy>, currency: string)
    requires |policies| != 1 && ChargesIn(policies, currency) && MergeCurrency(policies) == currency
    ensures MergeCancellationPolicies(policies).Success?
            <==> forall k :: 0 <= k < |MergeInstants(policies)| ==> SafeSums(policies, MergeInstants(policies)[k].ms, 0)
  {
    MergeSucceedsIff(policies);
    forall k | 0 <= k < |MergeInstants(policies)| ensures ChargedIn(policies, MergeInstants(policies)[k].ms, currency) {
      forall p | 0 <= p < |policies|
        ensures ValidPolicy(policies[p]) && PenaltyOrZero(policies[p].rules, MergeInstants(policies)[k].ms, currency).currency == currency
      {
        assert ValidPolicy(policies[p]) && RulesChargeIn(policies[p].rules, currency);
        InForceIsTheLatest(policies[p].rules, MergeInstants(policies)[k].ms);
      }
    }
  }

  // ---------------------------------------------------------------------------
  // The display timeline

  /** from None: booking time; until None: service time; penalty None: free. */
  datatype Segment = Segment(from: Option<Instant>, until: Option<Instant>, penalty: Option<Money>)

  datatype Timeline = Timeline(refundable: bool, segments: seq<Segment>, activeSegmentIndex: int)

  predicate Contains(s: Segment, at: int) {
    (s.from.None? || s.from.value.ms <= at) && (s.until.None? || at < s.until.value.ms)
  }

  function RuleSegment(rules: seq<Rule>, i: nat): Segment
    requires i < |rules|
  {
    Segment(Some(rules[i].fromUtc), if i + 1 < |rules| then Some(rules[i + 1].fromUtc) else None, Some(rules[i].penalty))
  }

  function RuleSegments(rules: seq<Rule>, n: nat): (s: seq<Segment>)
    requires n <= |rules|
    ensures |s| == n && forall i :: 0 <= i < n ==> s[i] == RuleSegment(rules, i)
  {
    if n == 0 then [] else RuleSegments(rules, n - 1) + [RuleSegment(rules, n - 1)]
  }

  /** An optional free window, then one segment per rule. */
  function Segments(policy: Policy): (s: seq<Segment>)
    ensures s != []
  {
    if policy.rules == [] then [Segment(None, None, None)]
    else FreeWindow(policy) + RuleSegments(policy.rules, |policy.rules|)
  }

  function FreeWindow(policy: Policy): seq<Segment>
    requires policy.rules != []
  {
    if policy.refundable then [Segment(None, Some(policy.rules[0].fromUtc), None)] else []
  }

  /** findIndex: the first segment containing the instant, or -1. */
  predicate IsFirstContaining(segments: seq<Segment>, at: int, index: int) {
    && -1 <= index < |segments|
    && (index >= 0 ==> Contains(segments[index], at))
    && (forall i :: 0 <= i < (if index >= 0 then index else |segments|) ==> !Contains(segments[i], at))
  }

  method ComputePolicyTimeline(policy: Policy, now: Option<int>) returns (r: Result<Timeline, PolicyError>)
    ensures r.Success? <==> ValidPolicy(policy)
    ensures r.Success? ==>
              && r.value.refundable == policy.refundable
              && r.value.segments == Segments(policy)
              && (now.None? ==> r.value.activeSegmentIndex == -1)
              && (now.Some? ==> IsFirstContaining(Segments(policy), now.value, r.value.activeSegmentIndex))
  {
    var valid := AssertValidCancellationPolicy(policy);
    if !valid {
      return Failure(InvalidPolicy);
    }
    var segments := BuildSegments(policy);
    var active := -1;
    if now.Some? {
      active := FindActive(segments, now.value);
    }
    r := Success(Timeline(policy.refundable, segments, active));
  }

  method BuildSegments(policy: Policy) returns (segments: seq<Segment>)
    ensures segments == Segments(policy)
  {
    segments := [];
    if policy.rules == [] {
      segments := segments + [Segment(None, None, None)];
    } else {
      if policy.refundable {
        segments := segments + [Segment(None, Some(policy.rules[0].fromUtc), None)];
      }
      for i := 0 to |policy.rules|
        invariant segments == FreeWindow(policy) + RuleSegments(policy.rules, i)
      {
        segments := segments + [RuleSegment(policy.rules, i)];
      }
    }
  }

  method FindActive(segments: seq<Segment>, at: int) returns (active: int)
    ensures IsFirstContaining(segments, at, active)
  {
    for i := 0 to |segments|
      invariant forall k :: 0 <= k < i ==> !Contains(segments[k], at)
    {
      if Contains(segments[i], at) {
        return i;
      }
    }
    active := -1;
  }

  /** The segments after the free window are those of the rules. */
  lemma SegmentAt(policy: Policy, i: nat) returns (window: nat)
    requires policy.rules != [] && i < |Segments(policy)|
    ensures window == |FreeWindow(policy)| && |Segments(policy)| == window + |policy.rules|
    ensures i >= window ==> Segments(policy)[i] == RuleSegment(policy.rules, i - window)
    ensures i < window ==> Segments(policy)[i] == FreeWindow(policy)[i]
  {
    window := |FreeWindow(policy)|;
    AtOfConcat(FreeWindow(policy), RuleSegments(policy.rules, |policy.rules|), i);
  }

  /** A segment begins at its rule and ends at the next one. */
  lemma SegmentBounds(policy: Policy, i: nat) returns (window: nat)
    requires policy.rules != [] && i < |Segments(policy)|
    ensures window == |FreeWindow(policy)| <= 1 && |Segments(policy)| == window + |policy.rules|
    ensures i >= window ==> Segments(policy)[i].from == Some(policy.rules[i - window].fromUtc)
    ensures i + 1 < |Segments(policy)| ==> Segments(policy)[i].until == Some(policy.rules[i + 1 - window].fromUtc)
  {
    window := SegmentAt(policy, i);
  }

  /** Each segment begins where the previous one ends. */
  lemma SegmentsAreContiguous(policy: Policy, i: nat)
    requires i + 1 < |Segments(policy)|
    ensures Segments(policy)[i].until.Some? && Segments(policy)[i].until == Segments(policy)[i + 1].from
  {
    if policy.rules != [] {
      var a := SegmentBounds(policy, i);
      var b := SegmentBounds(policy, i + 1);
    }
  }

  /** The penalty a segment shows. */
  lemma SegmentPenalty(policy: Policy, i: nat) returns (window: nat)
    requires policy.rules != [] && i < |Segments(policy)|
    ensures window == |FreeWindow(policy)| && |Segments(policy)| == window + |policy.rules|
    ensures Segments(policy)[i].penalty == if i >= window then Some(policy.rules[i - window].penalty) else None
    ensures i < window ==> Segments(policy)[i].until == Some(policy.rules[0].fromUtc)
  {
    window := SegmentAt(policy, i);
  }

  /** A segment that contains the instant shows exactly the penalty in force then. */
  lemma ContainingSegmentAgrees(policy: Policy, at: int, i: nat)
    requires ValidPolicy(policy) && i < |Segments(policy)| && Contains(Segments(policy)[i], at)
    ensures Segments(policy)[i].penalty == InForce(policy.rules, at)
  {
    if policy.rules != [] {
      var window := SegmentPenalty(policy, i);
      window := SegmentBounds(policy, i);
      if i >= window {
        ShownIsInForce(policy.rules, at, i - window, Segments(policy)[i]);
      } else {
        NothingInForceYet(policy.rules, at);
      }
    }
  }

  lemma ShownIsInForce(rules: seq<Rule>, at: int, r: nat, s: Segment)
    requires ValidRules(rules) && r < |rules| && Contains(s, at) && s.penalty == Some(rules[r].penalty)
    requires s.from == Some(rules[r].fromUtc) && (r + 1 < |rules| ==> s.until == Some(rules[r + 1].fromUtc))
    ensures s.penalty == InForce(rules, at)
  {
    InForceBetween(rules, at, r);
  }

  lemma InForceBetween(rules: seq<Rule>, at: int, r: nat)
    requires ValidRules(rules) && r < |rules| && rules[r].fromUtc.ms <= at && (r + 1 < |rules| ==> at < rules[r + 1].fromUtc.ms)
    ensures InForce(rules, at) == Some(rules[r].penalty)
  {
    LatestDecides(rules, at, r);
  }

  lemma NothingInForceYet(rules: seq<Rule>, at: int)
    requires ValidRules(rules) && rules != [] && at < rules[0].fromUtc.ms
    ensures InForce(rules, at) == None
  {
    InForceIsTheLatest(rules, at);
  }

  lemma RulesInOrder(policy: Policy, r: nat, s: nat)
    requires ValidPolicy(policy) && r <= s < |policy.rules|
    ensures policy.rules[r].fromUtc.ms <= policy.rules[s].fromUtc.ms
  {
  }

  lemma ApartInTime(a: Segment, b: Segment, at: int)
    requires a.until.Some? && b.from.Some? && a.until.value.ms <= b.from.value.ms
    ensures !(Contains(a, at) && Contains(b, at))
  {
  }

  /** No instant is in two segments, duplicate deadlines included. */
  lemma SegmentsAreDisjoint(policy: Policy, at: int, i: nat, j: nat)
    requires ValidPolicy(policy) && i < j < |Segments(policy)|
    ensures !(Contains(Segments(policy)[i], at) && Contains(Segments(policy)[j], at))
  {
    var window := SegmentBounds(policy, i);
    window := SegmentBounds(policy, j);
    RulesInOrder(policy, i + 1 - window, j - window);
    ApartInTime(Segments(policy)[i], Segments(policy)[j], at);
  }

  /**
   The timeline refines the reference: the active segment carries the penalty in force, and there is
   none exactly for a non-refundable policy before its first rule.
   */
  lemma TimelineRefinesResolution(policy: Policy, at: int, index: int)
    requires ValidPolicy(policy) && IsFirstContaining(Segments(policy), at, index)
    ensures index >= 0 ==> Segments(policy)[index].penalty == InForce(policy.rules, at)
    ensures index == -1 <==> !policy.refundable && policy.rules != [] && at < policy.rules[0].fromUtc.ms
  {
    if index >= 0 {
      ContainingSegmentAgrees(policy, at, index);
    }
    if policy.refundable || policy.rules == [] || policy.rules[0].fromUtc.ms <= at {
      var i := CoveringSegment(policy, at);
    } else {
      NothingCoversTheStart(policy, at);
    }
  }

  lemma NothingCoversTheStart(policy: Policy, at: int)
    requires ValidPolicy(policy) && policy.rules != [] && !policy.refundable && at < policy.rules[0].fromUtc.ms
    ensures forall i :: 0 <= i < |Segments(policy)| ==> !Contains(Segments(policy)[i], at)
  {
    forall i | 0 <= i < |Segments(policy)| ensures !Contains(Segments(policy)[i], at) {
      var window := SegmentAt(policy, i);
    }
  }

  /** Some segment covers the instant: any instant if the policy is refundable or has no rules, any from the first rule on otherwise. */
  lemma CoveringSegment(policy: Policy, at: int) returns (i: nat)
    requires ValidPolicy(policy) && (policy.refundable || policy.rules == [] || policy.rules[0].fromUtc.ms <= at)
    ensures i < |Segments(policy)| && Contains(Segments(policy)[i], at)
  {
    i := 0;
    if policy.rules != [] {
      InForceIsTheLatest(policy.rules, at);
      var window := SegmentAt(policy, 0);
      if InForce(policy.rules, at).Some? {
        var j :| 0 <= j < |policy.rules| && LatestStarted(policy.rules, at, j) && InForce(policy.rules, at).value == policy.rules[j].penalty;
        i := window + j;
        window := SegmentAt(policy, i);
      }
    }
  }
}
