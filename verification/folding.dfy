/** A value made of a list by an operation that ignores order. */
module Folding {

  ghost predicate IgnoresOrder<A(!new)>(mul: (A, A) -> A) {
    && (forall x, y :: mul(x, y) == mul(y, x))
    && (forall x, y, z :: mul(mul(x, y), z) == mul(x, mul(y, z)))
  }

  function Fold<A>(mul: (A, A) -> A, unit: A, xs: seq<A>): A {
    if xs == [] then unit else mul(Fold(mul, unit, xs[..|xs| - 1]), xs[|xs| - 1])
  }

  lemma FoldAppend<A>(mul: (A, A) -> A, unit: A, xs: seq<A>, x: A)
    ensures Fold(mul, unit, xs + [x]) == mul(Fold(mul, unit, xs), x)
  {
  }

  function Without<T>(xs: seq<T>, i: nat): (r: seq<T>)
    requires i < |xs|
    ensures |r| == |xs| - 1
    ensures forall k :: 0 <= k < |r| ==> r[k] == if k < i then xs[k] else xs[k + 1]
  {
    xs[..i] + xs[i + 1..]
  }

  lemma WithoutMultiset<T>(xs: seq<T>, i: nat)
    requires i < |xs|
    ensures multiset(xs) == multiset(Without(xs, i)) + multiset{xs[i]}
  {
    assert xs == xs[..i] + [xs[i]] + xs[i + 1..];
  }

  lemma {:induction false} FoldWithout<A(!new)>(mul: (A, A) -> A, unit: A, xs: seq<A>, i: nat)
    requires IgnoresOrder(mul) && i < |xs|
    ensures Fold(mul, unit, xs) == mul(Fold(mul, unit, Without(xs, i)), xs[i])
    decreases |xs|
  {
    var n := |xs| - 1;
    var front, last := xs[..n], xs[n];
    if i == n {
      assert Without(xs, i) == front;
    } else {
      assert Without(xs, i) == Without(front, i) + [last];
      FoldWithout(mul, unit, front, i);
      FoldAppend(mul, unit, Without(front, i), last);
      SwapLast(mul, Fold(mul, unit, Without(front, i)), xs[i], last);
    }
  }

  lemma SwapLast<A(!new)>(mul: (A, A) -> A, x: A, y: A, z: A)
    requires IgnoresOrder(mul)
    ensures mul(mul(x, y), z) == mul(mul(x, z), y)
  {
  }

  /** The fold is of the values and how often each occurs. */
  lemma {:induction false} FoldOfMultiset<A(!new)>(mul: (A, A) -> A, unit: A, xs: seq<A>, ys: seq<A>)
    requires IgnoresOrder(mul) && multiset(xs) == multiset(ys)
    ensures Fold(mul, unit, xs) == Fold(mul, unit, ys)
  {
    assert |multiset(xs)| == |xs| && |multiset(ys)| == |ys|;
    if xs != [] {
      var n := |xs| - 1;
      var front, last := xs[..n], xs[n];
      assert xs == front + [last];
      assert last in multiset(ys);
      var j: nat :| j < |ys| && ys[j] == last;
      WithoutMultiset(ys, j);
      assert multiset(front) == multiset(xs) - multiset{last};
      assert multiset(Without(ys, j)) == multiset(ys) - multiset{last};
      FoldOfMultiset(mul, unit, front, Without(ys, j));
      FoldWithout(mul, unit, ys, j);
    }
  }

  ghost predicate Pairwise<A(!new)>(mul: (A, A) -> A, xs: seq<A>, ys: seq<A>, zs: seq<A>) {
    |xs| == |ys| == |zs| && forall i :: 0 <= i < |xs| ==> xs[i] == mul(ys[i], zs[i])
  }

  /** Values that are each made of two fold into what the two lists fold into. */
  lemma {:induction false} FoldOfPairs<A(!new)>(mul: (A, A) -> A, unit: A, xs: seq<A>, ys: seq<A>, zs: seq<A>)
    requires IgnoresOrder(mul) && mul(unit, unit) == unit
    requires Pairwise(mul, xs, ys, zs)
    ensures Fold(mul, unit, xs) == mul(Fold(mul, unit, ys), Fold(mul, unit, zs))
  {
    if xs != [] {
      var n := |xs| - 1;
      FoldOfPairs(mul, unit, xs[..n], ys[..n], zs[..n]);
      Interleave(mul, Fold(mul, unit, ys[..n]), Fold(mul, unit, zs[..n]), ys[n], zs[n]);
    }
  }

  lemma Interleave<A(!new)>(mul: (A, A) -> A, w: A, x: A, y: A, z: A)
    requires IgnoresOrder(mul)
    ensures mul(mul(w, x), mul(y, z)) == mul(mul(w, y), mul(x, z))
  {
  }

  /** The values added to zero one after another. */
  function Gathered<A, B>(add: (A, B) -> A, zero: A, xs: seq<B>): A {
    if xs == [] then zero else add(Gathered(add, zero, xs[..|xs| - 1]), xs[|xs| - 1])
  }

  ghost function SumBy<B>(number: B -> real, xs: seq<B>): real {
    if xs == [] then 0.0 else SumBy(number, xs[..|xs| - 1]) + number(xs[|xs| - 1])
  }

  lemma SumByAppend<B>(number: B -> real, xs: seq<B>, x: B)
    ensures SumBy(number, xs + [x]) == SumBy(number, xs) + number(x)
  {
  }

  /** Where each addition states the sum so far, what is gathered states the whole sum. */
  lemma {:induction false} GatheredStates<A(!new), B(!new)>(add: (A, B) -> A, zero: A, states: (A, real) -> bool, number: B -> real, xs: seq<B>)
    requires states(zero, 0.0)
    requires forall a, n, x :: states(a, n) && x in xs ==> states(add(a, x), n + number(x))
    ensures states(Gathered(add, zero, xs), SumBy(number, xs))
  {
    if xs != [] {
      var n := |xs| - 1;
      GatheredStates(add, zero, states, number, xs[..n]);
      assert xs[n] in xs;
    }
  }
}
