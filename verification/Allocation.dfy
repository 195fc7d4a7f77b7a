/**
 Largest-remainder allocation (`allocate`, packages/domain/src/money.ts): splitting an amount over
 non-negative weights without losing or inventing a minor unit.
 */
module Allocation {
  import opened Numbers
  import opened Money
  import opened Sorting
  import opened Wrappers

  datatype Ranked = Ranked(index: int, remainder: int)

  /** The comparator of the sort: larger remainder first, ties towards the earlier part. */
  predicate RanksBefore(a: Ranked, b: Ranked) {
    a.remainder > b.remainder || (a.remainder == b.remainder && a.index <= b.index)
  }

  predicate ValidWeights(weights: seq<int>) {
    && (forall i :: 0 <= i < |weights| ==> 0 <= weights[i] <= MAX_SAFE_INTEGER)
    && Sum(weights) > 0
  }

  // ---------------------------------------------------------------------------
  // What the method computes, over the absolute amount

  function Shares(amount: nat, weights: seq<int>, total: int): (s: seq<int>)
    requires total > 0
    ensures |s| == |weights|
  {
    seq(|weights|, i requires 0 <= i < |weights| => (amount * weights[i]) / total)
  }

  function Remainders(amount: nat, weights: seq<int>, total: int): (s: seq<Ranked>)
    requires total > 0
    ensures |s| == |weights|
  {
    seq(|weights|, i requires 0 <= i < |weights| => Ranked(i, (amount * weights[i]) % total))
  }

  function Ranking(amount: nat, weights: seq<int>): (order: seq<Ranked>)
    requires ValidWeights(weights)
  {
    Sort(RanksBefore, Remainders(amount, weights, Sum(weights)))
  }

  function Leftover(amount: nat, weights: seq<int>): int
    requires ValidWeights(weights)
  {
    amount - Sum(Shares(amount, weights, Sum(weights)))
  }

  predicate InRange(order: seq<Ranked>, n: nat) {
    forall k :: 0 <= k < |order| ==> 0 <= order[k].index < n
  }

  /** One more unit for each of the first `count` parts of the ranking. */
  function BumpFirst(shares: seq<int>, order: seq<Ranked>, count: int): (s: seq<int>)
    requires InRange(order, |shares|)
    ensures |s| == |shares|
    decreases |order|
  {
    if order == [] || count == 0 then shares
    else BumpFirst(shares[order[0].index := shares[order[0].index] + 1], order[1..], count - 1)
  }

  function AbsoluteParts(amount: nat, weights: seq<int>): (parts: seq<int>)
    requires ValidWeights(weights)
    ensures |parts| == |weights|
  {
    RankingIsAPermutation(amount, weights);
    BumpFirst(Shares(amount, weights, Sum(weights)), Ranking(amount, weights), Leftover(amount, weights))
  }

  /** The parts of `amount`: those of its absolute value with the sign restored on each. */
  function Parts(amount: int, weights: seq<int>): (parts: seq<int>)
    requires ValidWeights(weights)
    ensures |parts| == |weights|
  {
    var abs := AbsoluteParts(Abs(amount), weights);
    seq(|abs|, i requires 0 <= i < |abs| => if amount < 0 then -abs[i] else abs[i])
  }

  // ---------------------------------------------------------------------------
  // The ranking

  lemma RankingIsTotal()
    ensures TotalOrder(RanksBefore)
  {
  }

  lemma RankingIsAPermutation(amount: nat, weights: seq<int>)
    requires ValidWeights(weights)
    ensures var order := Ranking(amount, weights);
            && |order| == |weights|
            && SortedBy(RanksBefore, order)
            && multiset(order) == multiset(Remainders(amount, weights, Sum(weights)))
            && InRange(order, |weights|)
            && (forall i, j :: 0 <= i < j < |order| ==> order[i].index != order[j].index)
            && (forall k :: 0 <= k < |order| ==>
                  order[k].remainder == (amount * weights[order[k].index]) % Sum(weights))
  {
    var rs := Remainders(amount, weights, Sum(weights));
    var order := Ranking(amount, weights);
    RankingIsTotal();
    SortKeepsElements(RanksBefore, rs);
    SortIsSorted(RanksBefore, rs);
    forall k | 0 <= k < |order|
      ensures 0 <= order[k].index < |rs| && order[k] == rs[order[k].index]
    {
      assert order[k] in multiset(order);
      assert order[k] in rs;
    }
    forall i, j | 0 <= i < j < |order| ensures order[i].index != order[j].index {
      if order[i].index == order[j].index {
        RepeatCounts(order, i, j);
        OnceInRemainders(rs, order[i].index);
      }
    }
  }

  lemma RepeatCounts(order: seq<Ranked>, i: nat, j: nat)
    requires i < j < |order| && order[i] == order[j]
    ensures multiset(order)[order[i]] >= 2
  {
    assert order == order[..i] + [order[i]] + order[i + 1..j] + [order[j]] + order[j + 1..];
  }

  lemma OnceInRemainders(rs: seq<Ranked>, i: nat)
    requires i < |rs| && forall k :: 0 <= k < |rs| ==> rs[k].index == k
    ensures multiset(rs)[rs[i]] == 1
  {
    assert rs == rs[..i] + [rs[i]] + rs[i + 1..];
    assert rs[i] !in rs[..i] && rs[i] !in rs[i + 1..];
  }

  // ---------------------------------------------------------------------------
  // How much is left over

  function RemainderSum(order: seq<Ranked>): int {
    if order == [] then 0 else order[0].remainder + RemainderSum(order[1..])
  }

  lemma {:induction false} InsertKeepsRemainderSum(x: Ranked, xs: seq<Ranked>)
    ensures RemainderSum(Insert(RanksBefore, x, xs)) == x.remainder + RemainderSum(xs)
  {
    if xs == [] || RanksBefore(x, xs[0]) {
      assert ([x] + xs)[1..] == xs;
    } else {
      InsertKeepsRemainderSum(x, xs[1..]);
      assert ([xs[0]] + Insert(RanksBefore, x, xs[1..]))[1..] == Insert(RanksBefore, x, xs[1..]);
    }
  }

  lemma {:induction false} SortKeepsRemainderSum(xs: seq<Ranked>)
    ensures RemainderSum(Sort(RanksBefore, xs)) == RemainderSum(xs)
  {
    if xs != [] {
      SortKeepsRemainderSum(xs[1..]);
      InsertKeepsRemainderSum(xs[0], Sort(RanksBefore, xs[1..]));
    }
  }

  /** amount * total weight, split into what the shares hold and what the remainders hold. */
  lemma {:induction false} SharesAndRemainders(amount: nat, weights: seq<int>, total: int, from: nat)
    requires total > 0 && from <= |weights|
    ensures Sum(weights[from..]) * amount
            == Sum(Shares(amount, weights, total)[from..]) * total + RemainderSum(Remainders(amount, weights, total)[from..])
    decreases |weights| - from
  {
    var ss, rs := Shares(amount, weights, total), Remainders(amount, weights, total);
    if from < |weights| {
      SharesAndRemainders(amount, weights, total, from + 1);
      assert weights[from..][1..] == weights[from + 1..];
      assert ss[from..][1..] == ss[from + 1..] && rs[from..][1..] == rs[from + 1..];
      var w, ws, q, qs := weights[from], Sum(weights[from + 1..]), ss[from], Sum(ss[from + 1..]);
      assert q == (amount * w) / total && rs[from].remainder == (amount * w) % total;
      DivisionExact(amount * w, total);
      Distribute(w, ws, amount);
      Distribute(q, qs, total);
    }
  }

  /** The remainders add up to exactly `Leftover` whole totals. */
  lemma LeftoverIsTheRemainders(amount: nat, weights: seq<int>)
    requires ValidWeights(weights)
    ensures RemainderSum(Ranking(amount, weights)) == Leftover(amount, weights) * Sum(weights)
  {
    var total := Sum(weights);
    var ss, rs := Shares(amount, weights, total), Remainders(amount, weights, total);
    assert total * amount == Sum(ss) * total + RemainderSum(rs) by {
      SharesAndRemainders(amount, weights, total, 0);
      assert weights[0..] == weights && ss[0..] == ss && rs[0..] == rs;
    }
    assert RemainderSum(Ranking(amount, weights)) == RemainderSum(rs) by {
      SortKeepsRemainderSum(rs);
    }
    Distribute(amount, Sum(ss), total);
  }

  /** With sorted remainders below `total`, a zero at position k caps the sum. */
  lemma {:induction false} RemainderSumCap(order: seq<Ranked>, total: int, k: nat)
    requires total > 0 && k <= |order|
    requires forall i :: 0 <= i < |order| ==> 0 <= order[i].remainder < total
    requires forall i :: k <= i < |order| ==> order[i].remainder == 0
    ensures 0 <= RemainderSum(order) <= k * total
    ensures k > 0 ==> RemainderSum(order) < k * total
  {
    if order == [] {
      ProductOrder(0, k, total);
    } else if k == 0 {
      RemainderSumCap(order[1..], total, 0);
    } else {
      RemainderSumCap(order[1..], total, k - 1);
      Distribute(k, 1, total);
    }
  }

  /** There are enough parts with a positive remainder to take every left-over unit. */
  lemma LeftoverBound(amount: nat, weights: seq<int>)
    requires ValidWeights(weights)
    ensures 0 <= Leftover(amount, weights) < |weights|
    ensures forall k :: 0 <= k < Leftover(amount, weights) && k < |Ranking(amount, weights)| ==>
              Ranking(amount, weights)[k].remainder > 0
  {
    var total, order, left := Sum(weights), Ranking(amount, weights), Leftover(amount, weights);
    RankingIsAPermutation(amount, weights);
    LeftoverIsTheRemainders(amount, weights);
    RemainderSumCap(order, total, |order|);
    if left < 0 { ProductStrictOrder(left, 0, total); }
    FactorOrder(left, |order|, total);
    forall k | 0 <= k < left ensures order[k].remainder > 0 {
      if order[k].remainder == 0 {
        forall i | k < i < |order| ensures order[i].remainder == 0 {
          assert RanksBefore(order[k], order[i]);
        }
        RemainderSumCap(order, total, k);
        ProductStrictOrder(k, left, total);
      }
    }
  }

  // ---------------------------------------------------------------------------
  // What bumping does

  lemma {:induction false} BumpAddsUp(shares: seq<int>, order: seq<Ranked>, count: nat)
    requires InRange(order, |shares|) && count <= |order|
    ensures Sum(BumpFirst(shares, order, count)) == Sum(shares) + count
    decreases |order|
  {
    if order != [] && count > 0 {
      var i := order[0].index;
      SumOfUpdate(shares, i, shares[i] + 1);
      BumpAddsUp(shares[i := shares[i] + 1], order[1..], count - 1);
    }
  }

  /** Part i got a unit exactly when it is among the first `count` of the ranking. */
  lemma {:induction false} BumpAt(shares: seq<int>, order: seq<Ranked>, count: nat, i: nat)
    requires InRange(order, |shares|) && count <= |order| && i < |shares|
    requires forall a, b :: 0 <= a < b < |order| ==> order[a].index != order[b].index
    ensures BumpFirst(shares, order, count)[i]
            == shares[i] + (if RankedWithin(order, count, i) then 1 else 0)
    decreases |order|
  {
    if order != [] && count > 0 {
      var first := order[0].index;
      var shares' := shares[first := shares[first] + 1];
      BumpAt(shares', order[1..], count - 1, i);
      if RankedWithin(order[1..], count - 1, i) {
        var k :| 0 <= k < count - 1 && k < |order[1..]| && order[1..][k].index == i;
        assert order[k + 1].index == i;
      } else if first == i {
        assert order[0].index == i;
      } else {
        forall k | 0 <= k < count && k < |order| ensures order[k].index != i {
          assert k > 0 ==> order[1..][k - 1] == order[k];
        }
      }
    }
  }

  lemma BumpStep(shares: seq<int>, order: seq<Ranked>, next: nat, count: int)
    requires InRange(order, |shares|) && next < |order| && count != 0
    ensures var i := order[next].index;
            BumpFirst(shares, order[next..], count) == BumpFirst(shares[i := shares[i] + 1], order[next + 1..], count - 1)
  {
    assert order[next..][1..] == order[next + 1..];
  }

  /** True when part i is among the first of the ranking, as many as there are units left over. */
  predicate RankedWithin(order: seq<Ranked>, count: int, i: int) {
    exists k :: 0 <= k < count && k < |order| && order[k].index == i
  }

  // ---------------------------------------------------------------------------
  // The promises

  /** The parts always sum exactly to the amount. */
  lemma Conserves(amount: int, weights: seq<int>)
    requires ValidWeights(weights)
    ensures Sum(Parts(amount, weights)) == amount
  {
    var abs := Abs(amount);
    RankingIsAPermutation(abs, weights);
    LeftoverBound(abs, weights);
    BumpAddsUp(Shares(abs, weights, Sum(weights)), Ranking(abs, weights), Leftover(abs, weights));
    var parts := AbsoluteParts(abs, weights);
    if amount < 0 {
      SumOfNegated(parts, Parts(amount, weights));
    } else {
      assert Parts(amount, weights) == parts;
    }
  }

  lemma {:induction false} SumOfNegated(xs: seq<int>, ys: seq<int>)
    requires |xs| == |ys| && forall i :: 0 <= i < |xs| ==> ys[i] == -xs[i]
    ensures Sum(ys) == -Sum(xs)
  {
    if xs != [] {
      SumOfNegated(xs[1..], ys[1..]);
    }
  }

  /** True when part i of the absolute amount was rounded up from its exact quota. */
  predicate RoundedUp(amount: nat, weights: seq<int>, i: nat)
    requires ValidWeights(weights) && i < |weights|
  {
    AbsoluteParts(amount, weights)[i] == (amount * weights[i]) / Sum(weights) + 1
  }

  /**
   Each part is the floor of its exact quota amount*weight/total, or the ceiling when the quota is
   not whole; the number rounded up is what the floors leave over, and those are precisely the
   parts ranked first by (remainder descending, index ascending).
   */
  lemma LargestRemainders(amount: nat, weights: seq<int>, i: nat)
    requires ValidWeights(weights) && i < |weights|
    ensures var total := Sum(weights);
            var part := AbsoluteParts(amount, weights)[i];
            && (part == (amount * weights[i]) / total || RoundedUp(amount, weights, i))
            && (RoundedUp(amount, weights, i) ==> (amount * weights[i]) % total > 0)
            && (RoundedUp(amount, weights, i)
                <==> RankedWithin(Ranking(amount, weights), Leftover(amount, weights), i))
    ensures forall j :: 0 <= j < |weights| && RoundedUp(amount, weights, i) && !RoundedUp(amount, weights, j) ==>
              RanksBefore(Ranked(i, (amount * weights[i]) % Sum(weights)), Ranked(j, (amount * weights[j]) % Sum(weights)))
  {
    RankedPart(amount, weights, i);
    var order, left := Ranking(amount, weights), Leftover(amount, weights);
    RankingIsAPermutation(amount, weights);
    LeftoverBound(amount, weights);
    forall j | 0 <= j < |weights| && RoundedUp(amount, weights, i) && !RoundedUp(amount, weights, j)
      ensures RanksBefore(Ranked(i, (amount * weights[i]) % Sum(weights)), Ranked(j, (amount * weights[j]) % Sum(weights)))
    {
      RankedPart(amount, weights, j);
      var a :| 0 <= a < left && order[a].index == i;
      var b := PositionOf(amount, weights, j);
      assert RanksBefore(order[a], order[b]);
    }
  }

  lemma RankedPart(amount: nat, weights: seq<int>, i: nat)
    requires ValidWeights(weights) && i < |weights|
    ensures var q := (amount * weights[i]) / Sum(weights);
            AbsoluteParts(amount, weights)[i] == q || RoundedUp(amount, weights, i)
    ensures RoundedUp(amount, weights, i)
            <==> RankedWithin(Ranking(amount, weights), Leftover(amount, weights), i)
    ensures RoundedUp(amount, weights, i) ==> (amount * weights[i]) % Sum(weights) > 0
  {
    RankingIsAPermutation(amount, weights);
    LeftoverBound(amount, weights);
    BumpAt(Shares(amount, weights, Sum(weights)), Ranking(amount, weights), Leftover(amount, weights), i);
  }

  lemma PositionOf(amount: nat, weights: seq<int>, j: nat) returns (b: nat)
    requires ValidWeights(weights) && j < |weights|
    ensures b < |Ranking(amount, weights)| && Ranking(amount, weights)[b].index == j
  {
    var rs, order := Remainders(amount, weights, Sum(weights)), Ranking(amount, weights);
    RankingIsAPermutation(amount, weights);
    assert rs[j] in multiset(rs);
    assert rs[j] in order;
    b :| 0 <= b < |order| && order[b] == rs[j];
  }

  /** A part with no weight receives nothing, and no part exceeds the amount. */
  lemma PartBounds(amount: int, weights: seq<int>, i: nat)
    requires ValidWeights(weights) && i < |weights|
    ensures Abs(Parts(amount, weights)[i]) <= Abs(amount)
    ensures weights[i] == 0 ==> Parts(amount, weights)[i] == 0
    ensures amount >= 0 ==> Parts(amount, weights)[i] >= 0
    ensures amount <= 0 ==> Parts(amount, weights)[i] <= 0
  {
    var abs, total := Abs(amount), Sum(weights);
    RankedPart(abs, weights, i);
    SumOfNaturals(weights, i);
    var exact := abs * weights[i];
    DivisionExact(exact, total);
    var q, m := exact / total, exact % total;
    assert exact <= abs * total by { ProductOrder(weights[i], total, abs); }
    assert exact >= 0 by { ProductOrder(0, weights[i], abs); }
    if q < 0 { ProductOrder(q, -1, total); }
    if q > abs { ProductOrder(abs + 1, q, total); Distribute(abs, 1, total); }
    if weights[i] == 0 { DivisionIsUnique(0, total, 0, 0); }
  }

  /** Refunds split like charges: the parts of -amount are the negated parts of amount. */
  lemma CommutesWithNegation(amount: int, weights: seq<int>, i: nat)
    requires ValidWeights(weights) && i < |weights|
    ensures Parts(-amount, weights)[i] == -Parts(amount, weights)[i]
  {
    assert Abs(-amount) == Abs(amount);
    PartBounds(amount, weights, i);
  }

  lemma OutrankedByAWinner(amount: nat, weights: seq<int>, a: int, b: int)
    requires ValidWeights(weights) && 0 <= a < |weights| && 0 <= b < |weights| && a != b
    requires RankedWithin(Ranking(amount, weights), Leftover(amount, weights), b)
    requires !RankedWithin(Ranking(amount, weights), Leftover(amount, weights), a)
    ensures !RanksBefore(Ranked(a, (amount * weights[a]) % Sum(weights)), Ranked(b, (amount * weights[b]) % Sum(weights)))
  {
    var left, order := Leftover(amount, weights), Ranking(amount, weights);
    RankingIsAPermutation(amount, weights);
    var k :| 0 <= k < left && k < |order| && order[k].index == b;
    var p := PositionOf(amount, weights, a);
    assert RanksBefore(order[k], order[p]);
  }

  /**
   Largest-remainder allocation is determined by its rule: any other split that gives each part its
   floor or one more, rounds up as many parts, and never prefers a lower-ranked part, is this one.
   */
  lemma RuleDeterminesTheParts(amount: nat, weights: seq<int>, up: set<int>, i: nat)
    requires ValidWeights(weights) && i < |weights|
    requires forall j :: j in up ==> 0 <= j < |weights|
    requires |up| == Leftover(amount, weights)
    requires forall a, b :: a in up && 0 <= b < |weights| && b !in up ==>
               RanksBefore(Ranked(a, (amount * weights[a]) % Sum(weights)), Ranked(b, (amount * weights[b]) % Sum(weights)))
    ensures i in up <==> RoundedUp(amount, weights, i)
  {
    var left, order := Leftover(amount, weights), Ranking(amount, weights);
    RankingIsAPermutation(amount, weights);
    LeftoverBound(amount, weights);
    RankedPart(amount, weights, i);
    FirstIndices(order, left);
    if up != Winners(order, left) {
      SameSizeDiffer(up, Winners(order, left));
      SameSizeDiffer(Winners(order, left), up);
      var a :| a in up && a !in Winners(order, left);
      var b :| b in Winners(order, left) && b !in up;
      OutrankedByAWinner(amount, weights, a, b);
    }
  }

  function Winners(order: seq<Ranked>, count: nat): set<int>
    requires count <= |order|
  {
    set k | 0 <= k < count :: order[k].index
  }

  lemma {:induction false} FirstIndices(order: seq<Ranked>, count: nat)
    requires count <= |order|
    requires forall a, b :: 0 <= a < b < |order| ==> order[a].index != order[b].index
    ensures |Winners(order, count)| == count
  {
    if count > 0 {
      FirstIndices(order, count - 1);
      assert Winners(order, count) == Winners(order, count - 1) + {order[count - 1].index};
    }
  }

  lemma SubsetOfSameSize(a: set<int>, b: set<int>)
    requires a <= b && |a| == |b|
    ensures a == b
  {
    assert b == a + (b - a);
  }

  /** A set as large as another holds nothing beyond it only when the two are equal. */
  lemma SameSizeDiffer(a: set<int>, b: set<int>)
    requires |a| == |b| && a != b
    ensures exists x :: x in a && x !in b
  {
    if !exists x :: x in a && x !in b {
      SubsetOfSameSize(a, b);
    }
  }

  // ---------------------------------------------------------------------------
  // The loops of `allocate`

  method Allocate(m: Money, weights: seq<int>) returns (r: Result<seq<Money>, MoneyError>)
    ensures r.Success? <==> ValidMoney(m) && weights != [] && ValidWeights(weights)
    ensures r.Success? ==> r.value == seq(|weights|, i requires 0 <= i < |weights| => Money(Parts(m.amount, weights)[i], m.currency))
  {
    if !ValidMoney(m) || weights == [] {
      return Failure(InvalidMoney);
    }
    var total := TotalWeight(weights);
    if total.None? || total.value == 0 {
      return Failure(InvalidMoney);
    }

    var absAmount: nat := Abs(m.amount);
    var shares, remainders, leftover := FloorShares(absAmount, weights, total.value);
    remainders := Sort(RanksBefore, remainders);
    RankingIsAPermutation(absAmount, weights);
    LeftoverBound(absAmount, weights);
    shares := GiveLeftover(shares, remainders, leftover);

    var parts: seq<Money> := [];
    for i := 0 to |shares|
      invariant |parts| == i
      invariant forall k :: 0 <= k < i ==> parts[k] == Money(Parts(m.amount, weights)[k], m.currency)
    {
      var signed := if m.amount < 0 then -shares[i] else shares[i];
      PartBounds(m.amount, weights, i);
      assert SafeResult(signed, m.currency).Success?;
      parts := parts + [Money(signed, m.currency)];
    }
    r := Success(parts);
  }

  /** The sum of the weights, unless one of them is negative or not a safe integer. */
  method TotalWeight(weights: seq<int>) returns (total: Option<int>)
    ensures total.Some? <==> forall i :: 0 <= i < |weights| ==> 0 <= weights[i] <= MAX_SAFE_INTEGER
    ensures total.Some? ==> total.value == Sum(weights) >= 0
  {
    var sum := 0;
    for i := 0 to |weights|
      invariant sum == Sum(weights[..i])
      invariant forall k :: 0 <= k < i ==> 0 <= weights[k] <= MAX_SAFE_INTEGER
    {
      if weights[i] < 0 || weights[i] > MAX_SAFE_INTEGER {
        return None;
      }
      SumConcat(weights[..i], [weights[i]]);
      assert weights[..i + 1] == weights[..i] + [weights[i]];
      sum := sum + weights[i];
    }
    assert weights[..|weights|] == weights;
    SumNotNegative(weights);
    total := Some(sum);
  }

  method FloorShares(absAmount: nat, weights: seq<int>, total: int)
    returns (shares: seq<int>, remainders: seq<Ranked>, leftover: int)
    requires total > 0
    ensures shares == Shares(absAmount, weights, total)
    ensures remainders == Remainders(absAmount, weights, total)
    ensures leftover == absAmount - Sum(shares)
  {
    var distributed := 0;
    shares, remainders := [], [];
    for i := 0 to |weights|
      invariant shares == Shares(absAmount, weights, total)[..i]
      invariant remainders == Remainders(absAmount, weights, total)[..i]
      invariant distributed == Sum(shares)
    {
      var exact := absAmount * weights[i];
      var share, remainder := exact / total, exact % total;
      SumConcat(shares, [share]);
      shares := shares + [share];
      distributed := distributed + share;
      remainders := remainders + [Ranked(i, remainder)];
    }
    leftover := absAmount - distributed;
  }

  method GiveLeftover(floors: seq<int>, order: seq<Ranked>, left: nat) returns (shares: seq<int>)
    requires InRange(order, |floors|)
    ensures shares == BumpFirst(floors, order, left)
  {
    var leftover := left;
    shares := floors;
    for next := 0 to |order|
      invariant |shares| == |floors| && 0 <= leftover
      invariant BumpFirst(shares, order[next..], leftover) == BumpFirst(floors, order, left)
    {
      if leftover == 0 {
        break;
      }
      var index := order[next].index;
      BumpStep(shares, order, next, leftover);
      shares := shares[index := shares[index] + 1];
      leftover := leftover - 1;
    }
  }
}
