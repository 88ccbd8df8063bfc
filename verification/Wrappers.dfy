/** Stock wrappers and the few sequence and set facts the other modules share. */
module Wrappers {
  datatype Option<+T> = None | Some(value: T)

  type byte = x: int | 0 <= x < 256

  function Max(a: int, b: int): int {
    if a < b then b else a
  }

  function Min(a: int, b: int): int {
    if a < b then a else b
  }

  lemma ConcatIsAssociative<T>(a: seq<T>, b: seq<T>, c: seq<T>)
    ensures (a + b) + c == a + (b + c)
  {
  }

  function FoldLeft<A, B>(f: (A, B) -> A, a: A, xs: seq<B>): A
    decreases |xs|
  {
    if xs == [] then a else FoldLeft(f, f(a, xs[0]), xs[1..])
  }

  lemma {:induction false} FoldLeftConcat<A, B>(f: (A, B) -> A, a: A, xs: seq<B>, ys: seq<B>)
    ensures FoldLeft(f, a, xs + ys) == FoldLeft(f, FoldLeft(f, a, xs), ys)
    decreases |xs|
  {
    if xs == [] {
      assert xs + ys == ys;
    } else {
      assert (xs + ys)[1..] == xs[1..] + ys;
      FoldLeftConcat(f, f(a, xs[0]), xs[1..], ys);
    }
  }

  /** What no element changes. */
  lemma {:induction false} FoldLeftStays<A, B>(f: (A, B) -> A, a: A, xs: seq<B>)
    requires forall x :: f(a, x) == a
    ensures FoldLeft(f, a, xs) == a
    decreases |xs|
  {
    if xs != [] {
      FoldLeftStays(f, a, xs[1..]);
    }
  }

  /** g_slist_remove: drops the first occurrence of x, if there is one. */
  function RemoveFirst<T(==)>(xs: seq<T>, x: T): (r: seq<T>)
    ensures x in xs ==> |r| == |xs| - 1
    ensures x !in xs ==> r == xs
    ensures forall y :: y in r ==> y in xs
    ensures forall y :: y in xs && y != x ==> y in r
  {
    if xs == [] then []
    else if xs[0] == x then xs[1..]
    else [xs[0]] + RemoveFirst(xs[1..], x)
  }

  ghost predicate Distinct<T>(xs: seq<T>) {
    forall i, j :: 0 <= i < j < |xs| ==> xs[i] != xs[j]
  }

  ghost function Elements<T>(xs: seq<T>): set<T> {
    set x | x in xs
  }

  lemma {:induction false} DistinctCardinality<T>(xs: seq<T>)
    ensures |Elements(xs)| <= |xs|
    ensures Distinct(xs) ==> |Elements(xs)| == |xs|
  {
    if xs != [] {
      DistinctCardinality(xs[1..]);
      assert Elements(xs) == {xs[0]} + Elements(xs[1..]);
    }
  }

  lemma {:induction false} RemoveFirstDistinct<T>(xs: seq<T>, x: T)
    requires Distinct(xs)
    ensures Distinct(RemoveFirst(xs, x))
    ensures x !in RemoveFirst(xs, x)
  {
    if xs != [] {
      var rest := xs[1..];
      assert xs[0] !in rest;
      if xs[0] != x {
        RemoveFirstDistinct(rest, x);
        var r := RemoveFirst(rest, x);
        forall i, j | 0 <= i < j < |r| + 1
          ensures ([xs[0]] + r)[i] != ([xs[0]] + r)[j]
        {
          assert ([xs[0]] + r)[j] == r[j - 1];
          assert r[j - 1] in rest;
        }
      }
    }
  }

  lemma SubsetCardinality<T>(a: set<T>, b: set<T>)
    requires a <= b
    ensures |a| <= |b|
    ensures a < b ==> |a| < |b|
  {
    assert b == a + (b - a);
  }
}
