/**
 The stable sort every caller of `Array.prototype.sort` relies on, over an arbitrary comparator.
 For a total order the outcome depends only on the multiset of elements, which is what makes a
 sorted list a canonical form.
 */
module Sorting {

  ghost predicate Preorder<T(!new)>(leq: (T, T) -> bool) {
    && (forall a, b :: leq(a, b) || leq(b, a))
    && (forall a, b, c :: leq(a, b) && leq(b, c) ==> leq(a, c))
  }

  ghost predicate TotalOrder<T(!new)>(leq: (T, T) -> bool) {
    && Preorder(leq)
    && (forall a, b :: leq(a, b) && leq(b, a) ==> a == b)
  }

  ghost predicate SortedBy<T>(leq: (T, T) -> bool, xs: seq<T>) {
    forall i, j :: 0 <= i < j < |xs| ==> leq(xs[i], xs[j])
  }

  function Insert<T>(leq: (T, T) -> bool, x: T, xs: seq<T>): seq<T> {
    if xs == [] || leq(x, xs[0]) then [x] + xs else [xs[0]] + Insert(leq, x, xs[1..])
  }

  function Sort<T>(leq: (T, T) -> bool, xs: seq<T>): seq<T> {
    if xs == [] then [] else Insert(leq, xs[0], Sort(leq, xs[1..]))
  }

  lemma {:induction false} InsertKeepsElements<T>(leq: (T, T) -> bool, x: T, xs: seq<T>)
    ensures multiset(Insert(leq, x, xs)) == multiset{x} + multiset(xs)
  {
    if xs == [] || leq(x, xs[0]) {
    } else {
      InsertKeepsElements(leq, x, xs[1..]);
      assert xs == [xs[0]] + xs[1..];
    }
  }

  lemma {:induction false} SortKeepsElements<T>(leq: (T, T) -> bool, xs: seq<T>)
    ensures multiset(Sort(leq, xs)) == multiset(xs)
    ensures |Sort(leq, xs)| == |xs|
  {
    if xs == [] {
    } else {
      SortKeepsElements(leq, xs[1..]);
      InsertKeepsElements(leq, xs[0], Sort(leq, xs[1..]));
      assert xs == [xs[0]] + xs[1..];
    }
    assert |multiset(Sort(leq, xs))| == |Sort(leq, xs)|;
  }

  lemma {:induction false} InsertIsSorted<T(!new)>(leq: (T, T) -> bool, x: T, xs: seq<T>)
    requires Preorder(leq) && SortedBy(leq, xs)
    ensures SortedBy(leq, Insert(leq, x, xs))
  {
    if xs == [] || leq(x, xs[0]) {
    } else {
      var rest := Insert(leq, x, xs[1..]);
      InsertIsSorted(leq, x, xs[1..]);
      InsertKeepsElements(leq, x, xs[1..]);
      forall j | 0 <= j < |rest| ensures leq(xs[0], rest[j]) {
        assert rest[j] in multiset(rest);
        assert rest[j] == x || rest[j] in xs[1..];
      }
    }
  }

  lemma {:induction false} SortIsSorted<T(!new)>(leq: (T, T) -> bool, xs: seq<T>)
    requires Preorder(leq)
    ensures SortedBy(leq, Sort(leq, xs))
  {
    if xs == [] {
    } else {
      SortIsSorted(leq, xs[1..]);
      InsertIsSorted(leq, xs[0], Sort(leq, xs[1..]));
    }
  }

  /** Two sorted lists with the same elements are the same list. */
  lemma {:induction false} SortedListsAgree<T(!new)>(leq: (T, T) -> bool, xs: seq<T>, ys: seq<T>)
    requires TotalOrder(leq) && SortedBy(leq, xs) && SortedBy(leq, ys)
    requires multiset(xs) == multiset(ys)
    ensures xs == ys
  {
    assert |multiset(xs)| == |xs| && |multiset(ys)| == |ys|;
    if xs == [] {
    } else {
      assert xs[0] in multiset(ys) && ys[0] in multiset(xs);
      assert leq(xs[0], ys[0]) && leq(ys[0], xs[0]);
      assert xs == [xs[0]] + xs[1..] && ys == [ys[0]] + ys[1..];
      assert multiset(xs[1..]) == multiset(xs) - multiset{xs[0]} == multiset(ys[1..]);
      SortedListsAgree(leq, xs[1..], ys[1..]);
    }
  }

  /** Sorting by a total order is a canonical form for multisets. */
  lemma SortIsCanonical<T(!new)>(leq: (T, T) -> bool, xs: seq<T>, ys: seq<T>)
    requires TotalOrder(leq)
    ensures Sort(leq, xs) == Sort(leq, ys) <==> multiset(xs) == multiset(ys)
  {
    SortKeepsElements(leq, xs);
    SortKeepsElements(leq, ys);
    SortIsSorted(leq, xs);
    SortIsSorted(leq, ys);
    if multiset(xs) == multiset(ys) {
      SortedListsAgree(leq, Sort(leq, xs), Sort(leq, ys));
    }
  }
}
