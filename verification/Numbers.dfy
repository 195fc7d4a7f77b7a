/** Sums, powers and the few division facts the arithmetic modules share. */
module Numbers {

  function Abs(x: int): nat { if x < 0 then -x else x }

  function Sum(xs: seq<int>): int {
    if xs == [] then 0 else xs[0] + Sum(xs[1..])
  }

  lemma {:induction false} SumConcat(xs: seq<int>, ys: seq<int>)
    ensures Sum(xs + ys) == Sum(xs) + Sum(ys)
  {
    if xs == [] {
      assert xs + ys == ys;
    } else {
      assert (xs + ys)[1..] == xs[1..] + ys;
      SumConcat(xs[1..], ys);
    }
  }

  lemma {:induction false} SumOfUpdate(xs: seq<int>, i: nat, x: int)
    requires i < |xs|
    ensures Sum(xs[i := x]) == Sum(xs) - xs[i] + x
  {
    if i == 0 {
      assert xs[i := x][1..] == xs[1..];
    } else {
      assert xs[i := x][1..] == xs[1..][i - 1 := x];
      SumOfUpdate(xs[1..], i - 1, x);
    }
  }

  lemma {:induction false} SumOfNaturals(xs: seq<int>, i: nat)
    requires i < |xs| && forall k :: 0 <= k < |xs| ==> 0 <= xs[k]
    ensures xs[i] <= Sum(xs)
    decreases |xs|
  {
    SumNotNegative(xs[1..]);
    if i > 0 {
      SumOfNaturals(xs[1..], i - 1);
    }
  }

  lemma {:induction false} SumNotNegative(xs: seq<int>)
    requires forall k :: 0 <= k < |xs| ==> 0 <= xs[k]
    ensures 0 <= Sum(xs)
  {
    if xs != [] {
      SumNotNegative(xs[1..]);
    }
  }

  function Pow10(k: nat): (p: nat)
    ensures p >= 1
  {
    if k == 0 then 1 else 10 * Pow10(k - 1)
  }

  lemma {:induction false} Pow10Adds(a: nat, b: nat)
    ensures Pow10(a + b) == Pow10(a) * Pow10(b)
  {
    if a > 0 {
      Pow10Adds(a - 1, b);
      assert Pow10(a) * Pow10(b) == 10 * (Pow10(a - 1) * Pow10(b));
    }
  }

  /** A multiple of d strictly between -d and d is zero. */
  lemma SmallMultipleIsZero(k: int, d: int)
    requires d > 0 && -d < k * d < d
    ensures k == 0
  {
    if k >= 1 {
      ProductOrder(1, k, d);
    } else if k <= -1 {
      ProductOrder(k, -1, d);
    }
  }

  lemma Distribute(a: int, b: int, d: int)
    ensures (a - b) * d == a * d - b * d
    ensures (a + b) * d == a * d + b * d
  {
  }

  /** The quotient and remainder of a division by a positive number are unique. */
  lemma DivisionIsUnique(n: int, d: int, q: int, r: int)
    requires d > 0 && 0 <= r < d && n == q * d + r
    ensures n / d == q && n % d == r
  {
    DivisionExact(n, d);
    Distribute(q, n / d, d);
    SmallMultipleIsZero(q - n / d, d);
  }

  lemma DivisionExact(n: int, d: int)
    requires d > 0
    ensures n == (n / d) * d + n % d && 0 <= n % d < d
  {
  }

  lemma QuotientIsNatural(n: nat, d: int)
    requires d > 0
    ensures 0 <= n / d && 0 <= n % d < d
  {
    DivisionExact(n, d);
    if n / d < 0 {
      ProductOrder(n / d, -1, d);
    }
  }

  lemma ProductOrder(a: int, b: int, k: int)
    requires a <= b && 0 <= k
    ensures a * k <= b * k
  {
    assert (b - a) * k >= 0;
  }

  lemma ProductStrictOrder(a: int, b: int, k: int)
    requires a < b && 0 < k
    ensures a * k < b * k
  {
    assert (b - a) * k > 0;
  }

  lemma FactorOrder(a: int, b: int, k: int)
    requires 0 < k && a * k < b * k
    ensures a < b
  {
    if b <= a {
      ProductOrder(b, a, k);
    }
  }

  function PowerOfTwo(n: nat): (p: int)
    ensures p >= 1
  {
    if n == 0 then 1 else 2 * PowerOfTwo(n - 1)
  }
}
