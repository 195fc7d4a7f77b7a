/** Characters, and the order JavaScript compares strings by: unit by unit, a proper prefix first. */
module Text {

  predicate IsDigit(c: char) {
    '0' <= c <= '9'
  }

  predicate LexLess<T>(rank: T -> int, a: seq<T>, b: seq<T>) {
    if b == [] then false
    else if a == [] then true
    else rank(a[0]) < rank(b[0]) || (rank(a[0]) == rank(b[0]) && LexLess(rank, a[1..], b[1..]))
  }

  ghost predicate Injective<T(!new)>(rank: T -> int) {
    forall x, y :: rank(x) == rank(y) ==> x == y
  }

  lemma {:induction false} LexIsIrreflexive<T>(rank: T -> int, a: seq<T>)
    ensures !LexLess(rank, a, a)
  {
    if a != [] {
      LexIsIrreflexive(rank, a[1..]);
    }
  }

  lemma {:induction false} LexIsTransitive<T>(rank: T -> int, a: seq<T>, b: seq<T>, c: seq<T>)
    requires LexLess(rank, a, b) && LexLess(rank, b, c)
    ensures LexLess(rank, a, c)
  {
    if a != [] && rank(a[0]) == rank(b[0]) == rank(c[0]) {
      LexIsTransitive(rank, a[1..], b[1..], c[1..]);
    }
  }

  lemma {:induction false} LexIsTotal<T(!new)>(rank: T -> int, a: seq<T>, b: seq<T>)
    requires Injective(rank)
    ensures a == b || LexLess(rank, a, b) || LexLess(rank, b, a)
  {
    if a != [] && b != [] && rank(a[0]) == rank(b[0]) {
      LexIsTotal(rank, a[1..], b[1..]);
      assert a == [a[0]] + a[1..] && b == [b[0]] + b[1..];
    }
  }
}
