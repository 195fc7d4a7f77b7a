/**
 Markup rules (apps/api/src/pricing/rules.ts): which rules match a sale, how specific they are, and
 the one that wins.
 */
module PricingRules {
  import opened Money
  import opened Text
  import opened Wrappers

  datatype ValueType = Percent | Fixed | PerNight | PerPax

  datatype Rule = Rule(
    id: string,
    priority: int,
    agencyId: Option<string>,
    channel: Option<string>,
    vertical: Option<string>,
    supplierCode: Option<string>,
    destination: Option<string>,
    travelFrom: Option<string>,
    travelTo: Option<string>,
    valueType: ValueType,
    value: int,
    currency: Option<string>,
    commissionSplitBps: Option<int>,
    active: bool
  )

  datatype Context = Context(
    subTenantId: Option<string>,
    channel: string,
    vertical: string,
    supplierCode: string,
    destination: Option<string>,
    travelDate: Option<string>,
    nights: Option<int>,
    paxCount: Option<int>
  )

  datatype RuleError = InvalidRule

  function CharRank(c: char): int {
    c as int
  }

  predicate Before(a: string, b: string) {
    LexLess(CharRank, a, b)
  }

  predicate IsIsoDate(s: string) {
    |s| == 10 && s[4] == '-' && s[7] == '-' && forall i :: 0 <= i < 10 && i != 4 && i != 7 ==> IsDigit(s[i])
  }

  /** assertValidPricingRule. */
  predicate ValidRule(rule: Rule) {
    && rule.id != "" && SafeInteger(rule.priority)
    && (rule.valueType == Percent <==> rule.currency.None?)
    && (rule.currency.Some? ==> ValidCurrency(rule.currency.value))
    && (rule.travelFrom.Some? ==> IsIsoDate(rule.travelFrom.value))
    && (rule.travelTo.Some? ==> IsIsoDate(rule.travelTo.value))
    && (rule.travelFrom.Some? && rule.travelTo.Some? ==> !Before(rule.travelTo.value, rule.travelFrom.value))
    && (rule.commissionSplitBps.Some? ==> 0 <= rule.commissionSplitBps.value <= 10000)
  }

  predicate Banded(rule: Rule) {
    rule.travelFrom.Some? || rule.travelTo.Some?
  }

  predicate RuleMatchesContext(rule: Rule, context: Context) {
    && rule.active
    && (rule.agencyId.Some? ==> rule.agencyId == context.subTenantId)
    && (rule.channel.Some? ==> rule.channel.value == context.channel)
    && (rule.vertical.Some? ==> rule.vertical.value == context.vertical)
    && (rule.supplierCode.Some? ==> rule.supplierCode.value == context.supplierCode)
    && (rule.destination.Some? ==> rule.destination == context.destination)
    && (Banded(rule) ==>
          && context.travelDate.Some?
          && (rule.travelFrom.Some? ==> !Before(context.travelDate.value, rule.travelFrom.value))
          && (rule.travelTo.Some? ==> !Before(rule.travelTo.value, context.travelDate.value)))
  }

  function Bit(on: bool, weight: nat): nat {
    if on then weight else 0
  }

  /** Distinct bits, so or-ing them in is adding them up. */
  function RuleSpecificity(rule: Rule): nat {
    Bit(rule.agencyId.Some?, 1) + Bit(rule.channel.Some?, 2) + Bit(rule.vertical.Some?, 4)
    + Bit(rule.supplierCode.Some?, 8) + Bit(rule.destination.Some?, 16) + Bit(Banded(rule), 32)
  }

  /** More specific, then lower priority, then smaller id. */
  predicate Beats(a: Rule, b: Rule) {
    || RuleSpecificity(a) > RuleSpecificity(b)
    || (RuleSpecificity(a) == RuleSpecificity(b)
        && (a.priority < b.priority || (a.priority == b.priority && Before(a.id, b.id))))
  }

  function Select(rules: seq<Rule>, context: Context): Option<Rule> {
    if rules == [] then None
    else
      var best := Select(rules[..|rules| - 1], context);
      var rule := rules[|rules| - 1];
      if RuleMatchesContext(rule, context) && (best.None? || Beats(rule, best.value)) then Some(rule) else best
  }

  method SelectRule(rules: seq<Rule>, context: Context) returns (r: Result<Option<Rule>, RuleError>)
    ensures r.Success? <==> forall i :: 0 <= i < |rules| ==> ValidRule(rules[i])
    ensures r.Success? ==> r.value == Select(rules, context)
  {
    var winner: Option<Rule> := None;
    var winnerSpecificity: int := -1;
    for i := 0 to |rules|
      invariant winner == Select(rules[..i], context)
      invariant winner.Some? ==> winnerSpecificity == RuleSpecificity(winner.value)
      invariant forall k :: 0 <= k < i ==> ValidRule(rules[k])
    {
      var rule := rules[i];
      assert rules[..i + 1][..i] == rules[..i];
      if !ValidRule(rule) {
        return Failure(InvalidRule);
      }
      if RuleMatchesContext(rule, context) {
        var specificity := RuleSpecificity(rule);
        if winner.None? || specificity > winnerSpecificity
           || (specificity == winnerSpecificity
               && (rule.priority < winner.value.priority || (rule.priority == winner.value.priority && Before(rule.id, winner.value.id)))) {
          winner, winnerSpecificity := Some(rule), specificity;
        }
      }
    }
    assert rules[..|rules|] == rules;
    r := Success(winner);
  }

  // ---------------------------------------------------------------------------
  // The order behind it

  lemma BeatsIsAStrictOrder(a: Rule, b: Rule, c: Rule)
    ensures !Beats(a, a)
    ensures Beats(a, b) && Beats(b, c) ==> Beats(a, c)
    ensures a.id != b.id ==> Beats(a, b) || Beats(b, a)
    ensures !(Beats(a, b) && Beats(b, a))
  {
    LexIsIrreflexive(CharRank, a.id);
    LexIsTotal(CharRank, a.id, b.id);
    if Before(a.id, b.id) && Before(b.id, c.id) {
      LexIsTransitive(CharRank, a.id, b.id, c.id);
    }
    if Before(a.id, b.id) && Before(b.id, a.id) {
      LexIsTransitive(CharRank, a.id, b.id, a.id);
    }
  }

  /** Equal specificity means the very same dimensions are constrained. */
  lemma EqualSpecificityIsSameShape(a: Rule, b: Rule)
    ensures RuleSpecificity(a) == RuleSpecificity(b)
            <==> && a.agencyId.Some? == b.agencyId.Some? && a.channel.Some? == b.channel.Some?
                 && a.vertical.Some? == b.vertical.Some? && a.supplierCode.Some? == b.supplierCode.Some?
                 && a.destination.Some? == b.destination.Some? && Banded(a) == Banded(b)
  {
    BitsAreRecoverable(a);
    BitsAreRecoverable(b);
  }

  /** Each bit can be read back from the sum. */
  lemma BitsAreRecoverable(rule: Rule)
    ensures var n := RuleSpecificity(rule);
            && rule.agencyId.Some? == (n % 2 == 1)
            && rule.channel.Some? == ((n / 2) % 2 == 1)
            && rule.vertical.Some? == ((n / 4) % 2 == 1)
            && rule.supplierCode.Some? == ((n / 8) % 2 == 1)
            && rule.destination.Some? == ((n / 16) % 2 == 1)
            && Banded(rule) == ((n / 32) % 2 == 1)
  {
  }

  /** A rule bound to travel dates beats every rule that is not, whatever else that one constrains. */
  lemma BandedBeatsUnbanded(a: Rule, b: Rule)
    requires Banded(a) && !Banded(b)
    ensures Beats(a, b) && !Beats(b, a)
  {
  }

  /** Nothing that matches beats the selected rule, and nothing is selected only when nothing matches. */
  lemma {:induction false} SelectedIsUnbeaten(rules: seq<Rule>, context: Context)
    ensures var best := Select(rules, context);
            && (best.None? <==> forall i :: 0 <= i < |rules| ==> !RuleMatchesContext(rules[i], context))
            && (best.Some? ==> best.value in rules && RuleMatchesContext(best.value, context))
            && (best.Some? ==> forall i :: 0 <= i < |rules| && RuleMatchesContext(rules[i], context) ==> !Beats(rules[i], best.value))
  {
    if rules != [] {
      var n := |rules| - 1;
      var init, best := Select(rules[..n], context), Select(rules, context);
      SelectedIsUnbeaten(rules[..n], context);
      assert rules[..n] + [rules[n]] == rules;
      if best.Some? {
        forall i | 0 <= i < |rules| && RuleMatchesContext(rules[i], context) ensures !Beats(rules[i], best.value) {
          if init.Some? {
            BeatsIsAStrictOrder(rules[i], best.value, init.value);
          } else {
            BeatsIsAStrictOrder(rules[i], rules[i], rules[i]);
          }
          if i < n {
            assert rules[..n][i] == rules[i];
          }
        }
      }
    }
  }

  /** What a rule may constrain, narrowest first, with what the sale has there; a date band counts as one dimension. */
  function Dimensions(rule: Rule, context: Context): seq<(Option<string>, Option<string>)> {
    [(rule.destination, context.destination), (rule.supplierCode, Some(context.supplierCode)), (rule.vertical, Some(context.vertical)),
     (rule.channel, Some(context.channel)), (rule.agencyId, context.subTenantId)]
  }

  /** The sale has what the rule constrains, and its travel date is in the rule's band, ends included. */
  predicate Applies(rule: Rule, context: Context) {
    && rule.active
    && (forall k :: 0 <= k < 5 ==> Dimensions(rule, context)[k].0.Some? ==> Dimensions(rule, context)[k].0 == Dimensions(rule, context)[k].1)
    && (rule.travelFrom.Some? ==> context.travelDate.Some? && !Before(context.travelDate.value, rule.travelFrom.value))
    && (rule.travelTo.Some? ==> context.travelDate.Some? && !Before(rule.travelTo.value, context.travelDate.value))
  }

  lemma MatchingIsApplying(rule: Rule, context: Context)
    ensures RuleMatchesContext(rule, context) <==> Applies(rule, context)
  {
    var ds := Dimensions(rule, context);
    assert ds[0].0 == rule.destination && ds[1].0 == rule.supplierCode && ds[2].0 == rule.vertical && ds[3].0 == rule.channel && ds[4].0 == rule.agencyId;
  }

  /** Which dimensions a rule constrains, narrowest first. */
  function Shape(rule: Rule): seq<bool> {
    [Banded(rule), rule.destination.Some?, rule.supplierCode.Some?, rule.vertical.Some?, rule.channel.Some?, rule.agencyId.Some?]
  }

  /** At the narrowest dimension where they differ, the first constrains and the second does not. */
  predicate Narrower(a: seq<bool>, b: seq<bool>) {
    exists k :: 0 <= k < |a| && k < |b| && a[k] && !b[k] && forall j :: 0 <= j < k ==> a[j] == b[j]
  }

  /** The narrower rule, then the lower priority number, then the smaller id. */
  predicate Outranks(a: Rule, b: Rule) {
    || Narrower(Shape(a), Shape(b))
    || (Shape(a) == Shape(b) && (a.priority < b.priority || (a.priority == b.priority && Before(a.id, b.id))))
  }

  /** The number these bits spell, the first being the most significant. */
  function Weight(shape: seq<bool>): nat {
    if shape == [] then 0 else 2 * Weight(shape[..|shape| - 1]) + Bit(shape[|shape| - 1], 1)
  }

  lemma SpecificityIsWeight(rule: Rule)
    ensures RuleSpecificity(rule) == Weight(Shape(rule))
  {
    var s := Shape(rule);
    assert s[..5][..4] == s[..4] && s[..4][..3] == s[..3] && s[..3][..2] == s[..2] && s[..2][..1] == s[..1] && s[..1][..0] == [];
    assert Weight(s[..2]) == 2 * Weight(s[..1]) + Bit(s[1], 1);
    assert Weight(s[..4]) == 2 * Weight(s[..3]) + Bit(s[3], 1);
  }

  /** The last dimension decides only between equal prefixes. */
  lemma NarrowerByPrefix(x: seq<bool>, y: seq<bool>, p: bool, q: bool)
    requires |x| == |y|
    ensures Narrower(x + [p], y + [q]) <==> Narrower(x, y) || (x == y && p && !q)
  {
    var a, b, n := x + [p], y + [q], |x|;
    if k :| 0 <= k < n && x[k] && !y[k] && forall j :: 0 <= j < k ==> x[j] == y[j] {
      assert a[k] && !b[k] && forall j :: 0 <= j < k ==> a[j] == b[j];
    }
    if x == y && p && !q {
      assert a[n] && !b[n] && forall j :: 0 <= j < n ==> a[j] == b[j];
    }
    if k :| 0 <= k <= n && a[k] && !b[k] && forall j :: 0 <= j < k ==> a[j] == b[j] {
      assert forall j :: 0 <= j < k ==> x[j] == a[j] && y[j] == b[j];
      assert k < n || x == y;
    }
  }

  lemma LastBitDecides(w: nat, v: nat, p: bool, q: bool)
    ensures 2 * w + Bit(p, 1) > 2 * v + Bit(q, 1) <==> w > v || (w == v && p && !q)
    ensures 2 * w + Bit(p, 1) == 2 * v + Bit(q, 1) <==> w == v && p == q
  {
  }

  lemma WeightOneMore(x: seq<bool>, p: bool)
    ensures Weight(x + [p]) == 2 * Weight(x) + Bit(p, 1)
  {
    assert (x + [p])[..|x|] == x;
  }

  lemma EqualByPrefix(x: seq<bool>, y: seq<bool>, p: bool, q: bool)
    ensures x + [p] == y + [q] <==> x == y && p == q
  {
    if x + [p] == y + [q] {
      assert x == (x + [p])[..|x|] && y == (y + [q])[..|y|];
      assert p == (x + [p])[|x|] && q == (y + [q])[|y|];
    }
  }

  lemma HeavierOneMore(x: seq<bool>, y: seq<bool>, p: bool, q: bool)
    requires |x| == |y| && (Weight(x) > Weight(y) <==> Narrower(x, y)) && (Weight(x) == Weight(y) <==> x == y)
    ensures Weight(x + [p]) > Weight(y + [q]) <==> Narrower(x + [p], y + [q])
    ensures Weight(x + [p]) == Weight(y + [q]) <==> x + [p] == y + [q]
  {
    WeightOneMore(x, p);
    WeightOneMore(y, q);
    LastBitDecides(Weight(x), Weight(y), p, q);
    NarrowerByPrefix(x, y, p, q);
    EqualByPrefix(x, y, p, q);
  }

  lemma {:induction false} HeavierIsNarrower(a: seq<bool>, b: seq<bool>)
    requires |a| == |b|
    ensures Weight(a) > Weight(b) <==> Narrower(a, b)
    ensures Weight(a) == Weight(b) <==> a == b
  {
    if a != [] {
      var n := |a| - 1;
      var x, y, p, q := a[..n], b[..n], a[n], b[n];
      assert a == x + [p] && b == y + [q];
      HeavierIsNarrower(x, y);
      HeavierOneMore(x, y, p, q);
    }
  }

  lemma NarrowestDimensionDecides(a: Rule, b: Rule)
    ensures RuleSpecificity(a) > RuleSpecificity(b) <==> Narrower(Shape(a), Shape(b))
    ensures RuleSpecificity(a) == RuleSpecificity(b) <==> Shape(a) == Shape(b)
  {
    SpecificityIsWeight(a);
    SpecificityIsWeight(b);
    HeavierIsNarrower(Shape(a), Shape(b));
  }

  /**
   With distinct ids the rule selected is the one that applies to the sale and outranks every other that
   does: the narrowest dimension where two rules differ decides, then priority, then the id.
   */
  lemma SelectionIsByRank(rules: seq<Rule>, context: Context, w: Rule)
    requires DistinctIds(rules)
    ensures Select(rules, context) == Some(w)
            <==> && w in rules && Applies(w, context)
                 && forall x :: x in rules && x != w && Applies(x, context) ==> Outranks(w, x)
  {
    TheWinnerIsUnique(rules, context, w);
    MatchingIsApplying(w, context);
    forall x ensures RuleMatchesContext(x, context) <==> Applies(x, context) {
      MatchingIsApplying(x, context);
    }
    forall x ensures Beats(w, x) <==> Outranks(w, x) {
      NarrowestDimensionDecides(w, x);
    }
  }

  ghost predicate DistinctIds(rules: seq<Rule>) {
    forall i, j :: 0 <= i < j < |rules| ==> rules[i].id != rules[j].id
  }

  /** With distinct ids the winner is the one matching rule that beats all the others. */
  lemma TheWinnerIsUnique(rules: seq<Rule>, context: Context, w: Rule)
    requires DistinctIds(rules)
    ensures Select(rules, context) == Some(w)
            <==> && w in rules && RuleMatchesContext(w, context)
                 && forall x :: x in rules && x != w && RuleMatchesContext(x, context) ==> Beats(w, x)
  {
    SelectedIsUnbeaten(rules, context);
    var best := Select(rules, context);
    if best == Some(w) {
      forall x | x in rules && x != w && RuleMatchesContext(x, context) ensures Beats(w, x) {
        BeatsIsAStrictOrder(w, x, w);
      }
    }
  }

  /** The order of the rule list never matters, as long as ids are distinct. */
  lemma SelectionIgnoresOrder(a: seq<Rule>, b: seq<Rule>, context: Context)
    requires DistinctIds(a) && DistinctIds(b) && multiset(a) == multiset(b)
    ensures Select(a, context) == Select(b, context)
  {
    forall x ensures x in a <==> x in b {
      assert x in a <==> x in multiset(a);
      assert x in b <==> x in multiset(b);
    }
    SelectedIsUnbeaten(a, context);
    SelectedIsUnbeaten(b, context);
    var best := Select(a, context);
    if best.Some? {
      TheWinnerIsUnique(a, context, best.value);
      TheWinnerIsUnique(b, context, best.value);
    }
  }
}
