/**
 Money in integer minor units (packages/domain/src/money.ts): validation, exact addition,
 and the one rounding step of scaling.
 */
module Money {
  import opened Numbers
  import opened Wrappers

  /** Number.MAX_SAFE_INTEGER. */
  const MAX_SAFE_INTEGER: int := 9007199254740991

  datatype Money = Money(amount: int, currency: string)

  datatype MoneyError = InvalidMoney | CurrencyMismatch

  predicate SafeInteger(n: int) {
    -MAX_SAFE_INTEGER <= n <= MAX_SAFE_INTEGER
  }

  predicate ValidCurrency(currency: string) {
    |currency| == 3 && forall i :: 0 <= i < 3 ==> 'A' <= currency[i] <= 'Z'
  }

  predicate ValidMoney(m: Money) {
    SafeInteger(m.amount) && ValidCurrency(m.currency)
  }

  function Zero(currency: string): Money {
    Money(0, currency)
  }

  function SafeResult(amount: int, currency: string): Result<Money, MoneyError> {
    if SafeInteger(amount) then Success(Money(amount, currency)) else Failure(InvalidMoney)
  }

  function Add(a: Money, b: Money): Result<Money, MoneyError> {
    if !ValidMoney(a) || !ValidMoney(b) then Failure(InvalidMoney)
    else if a.currency != b.currency then Failure(CurrencyMismatch)
    else SafeResult(a.amount + b.amount, a.currency)
  }

  function Subtract(a: Money, b: Money): Result<Money, MoneyError> {
    if !ValidMoney(a) || !ValidMoney(b) then Failure(InvalidMoney)
    else if a.currency != b.currency then Failure(CurrencyMismatch)
    else SafeResult(a.amount - b.amount, a.currency)
  }

  // ---------------------------------------------------------------------------
  // Rounding: half away from zero

  function DivideRoundHalfAwayFromZero(numerator: int, denominator: int): int
    requires denominator > 0
  {
    var abs := Abs(numerator);
    var quotient, remainder := abs / denominator, abs % denominator;
    var roundedAbs := if remainder * 2 >= denominator then quotient + 1 else quotient;
    if numerator < 0 then -roundedAbs else roundedAbs
  }

  /**
   `r` is the integer closest to numerator/denominator; when two are equally close it is the one
   further from zero. At most one integer qualifies (NearestIsUnique).
   */
  ghost predicate NearestTiesAway(r: int, numerator: int, denominator: int) {
    var gap := 2 * (r * denominator - numerator);
    if numerator < 0 then -denominator <= gap < denominator
    else -denominator < gap <= denominator
  }

  lemma NearestIsUnique(r: int, s: int, numerator: int, denominator: int)
    requires denominator > 0
    requires NearestTiesAway(r, numerator, denominator) && NearestTiesAway(s, numerator, denominator)
    ensures r == s
  {
    Distribute(r, s, denominator);
    SmallMultipleIsZero(r - s, denominator);
  }

  lemma RoundingIsNearest(numerator: int, denominator: int)
    requires denominator > 0
    ensures NearestTiesAway(DivideRoundHalfAwayFromZero(numerator, denominator), numerator, denominator)
  {
    var abs := Abs(numerator);
    var q, m := abs / denominator, abs % denominator;
    assert abs == q * denominator + m;
    assert (q + 1) * denominator == q * denominator + denominator;
    var r := DivideRoundHalfAwayFromZero(numerator, denominator);
    if numerator < 0 {
      assert r * denominator == -(-r * denominator);
    }
  }

  /** Rounding is exactly the nearest integer, ties away from zero, and nothing else. */
  lemma RoundingCharacterised(r: int, numerator: int, denominator: int)
    requires denominator > 0
    ensures r == DivideRoundHalfAwayFromZero(numerator, denominator) <==> NearestTiesAway(r, numerator, denominator)
  {
    RoundingIsNearest(numerator, denominator);
    if NearestTiesAway(r, numerator, denominator) {
      NearestIsUnique(r, DivideRoundHalfAwayFromZero(numerator, denominator), numerator, denominator);
    }
  }

  lemma RoundingIsMonotone(a: int, b: int, denominator: int)
    requires denominator > 0 && a <= b
    ensures DivideRoundHalfAwayFromZero(a, denominator) <= DivideRoundHalfAwayFromZero(b, denominator)
  {
    var r, s := DivideRoundHalfAwayFromZero(a, denominator), DivideRoundHalfAwayFromZero(b, denominator);
    RoundingIsNearest(a, denominator);
    RoundingIsNearest(b, denominator);
    // r > s would put a at least as far right as b, so both would be the same tie
    Distribute(r, s, denominator);
    if r > s {
      ProductOrder(1, r - s, denominator);
      if a == b {
        NearestIsUnique(r, s, a, denominator);
      }
    }
  }

  lemma SameSign(a: int, b: int, c: int, d: int)
    requires b > 0 && d > 0 && a * d == c * b
    ensures a < 0 <==> c < 0
  {
    if a < 0 <= c {
      ProductStrictOrder(a, 0, d);
      ProductOrder(0, c, b);
    }
    if c < 0 <= a {
      ProductStrictOrder(c, 0, b);
      ProductOrder(0, a, d);
    }
  }

  lemma GapsScale(r: int, a: int, b: int, c: int, d: int)
    requires a * d == c * b
    ensures (2 * (r * b - a)) * d == (2 * (r * d - c)) * b
    ensures (-b) * d == (-d) * b && b * d == d * b
  {
    calc {
      (2 * (r * b - a)) * d;
      2 * ((r * b) * d - a * d);
      2 * ((r * d) * b - c * b);
      (2 * (r * d - c)) * b;
    }
  }

  lemma RoundingIsOdd(n: int, denominator: int)
    requires denominator > 0
    ensures DivideRoundHalfAwayFromZero(-n, denominator) == -DivideRoundHalfAwayFromZero(n, denominator)
  {
    assert n == 0 ==> n / denominator == 0 && n % denominator == 0;
  }

  /** Equal ratios round equally: only the value of the fraction matters, not how it is written. */
  lemma RoundingDependsOnTheRatio(a: int, b: int, c: int, d: int)
    requires b > 0 && d > 0 && a * d == c * b
    ensures DivideRoundHalfAwayFromZero(a, b) == DivideRoundHalfAwayFromZero(c, d)
  {
    var r := DivideRoundHalfAwayFromZero(a, b);
    RoundingIsNearest(a, b);
    SameSign(a, b, c, d);
    GapsScale(r, a, b, c, d);
    var gap, gap' := 2 * (r * b - a), 2 * (r * d - c);
    if a < 0 {
      if gap' < -d { ProductStrictOrder(gap', -d, b); ProductOrder(-b, gap, d); }
      if gap' >= d { ProductOrder(d, gap', b); ProductStrictOrder(gap, b, d); }
    } else {
      if gap' <= -d { ProductOrder(gap', -d, b); ProductStrictOrder(-b, gap, d); }
      if gap' > d { ProductStrictOrder(d, gap', b); ProductOrder(gap, b, d); }
    }
    RoundingCharacterised(r, c, d);
  }

  // ---------------------------------------------------------------------------
  // Scaling by a ratio

  /** multiplyByScalar once the scalar is decomposed into a ratio: one rounding, at the very end. */
  function MultiplyByRatio(m: Money, numerator: int, denominator: int): (r: Result<Money, MoneyError>)
    requires denominator > 0
  {
    if !ValidMoney(m) then Failure(InvalidMoney)
    else SafeResult(DivideRoundHalfAwayFromZero(m.amount * numerator, denominator), m.currency)
  }

  /** Scaling succeeds exactly when the nearest amount is safe, and then it is that amount. */
  lemma ScalingIsNearest(m: Money, numerator: int, denominator: int, amount: int)
    requires denominator > 0
    ensures MultiplyByRatio(m, numerator, denominator) == Success(Money(amount, m.currency))
            <==> ValidMoney(m) && SafeInteger(amount) && NearestTiesAway(amount, m.amount * numerator, denominator)
  {
    RoundingCharacterised(amount, m.amount * numerator, denominator);
  }

  lemma ScalingIsOdd(m: Money, numerator: int, denominator: int)
    requires denominator > 0 && ValidMoney(m)
    ensures var r, s := MultiplyByRatio(m, numerator, denominator), MultiplyByRatio(Money(-m.amount, m.currency), numerator, denominator);
            r.Success? == s.Success? && (r.Success? ==> s.value == Money(-r.value.amount, m.currency))
  {
    var n := m.amount * numerator;
    assert (-m.amount) * numerator == -n;
    RoundingIsOdd(n, denominator);
  }

  /** With a scalar that is not negative, a larger amount never scales to a smaller one. */
  lemma ScalingIsMonotone(a: Money, b: Money, numerator: nat, denominator: int)
    requires denominator > 0 && a.amount <= b.amount
    requires MultiplyByRatio(a, numerator, denominator).Success? && MultiplyByRatio(b, numerator, denominator).Success?
    ensures MultiplyByRatio(a, numerator, denominator).value.amount <= MultiplyByRatio(b, numerator, denominator).value.amount
  {
    ProductOrder(a.amount, b.amount, numerator);
    RoundingIsMonotone(a.amount * numerator, b.amount * numerator, denominator);
  }
}
