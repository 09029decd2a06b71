/** What a chain of links connects, however long it is. */
module Chains {

  ghost predicate IsChain<T(!new)>(link: (T, T) -> bool, p: seq<T>) {
    p != [] && forall i, j :: 0 <= i && j == i + 1 < |p| ==> link(p[i], p[j])
  }

  ghost predicate ChainFrom<T(!new)>(link: (T, T) -> bool, p: seq<T>, a: T, b: T) {
    IsChain(link, p) && p[0] == a && p[|p| - 1] == b
  }

  /** A chain of links leads from a to b. */
  ghost predicate Connected<T(!new)>(link: (T, T) -> bool, a: T, b: T) {
    exists p :: ChainFrom(link, p, a, b)
  }

  ghost predicate Symmetric<T(!new)>(link: (T, T) -> bool) {
    forall a, b :: link(a, b) ==> link(b, a)
  }

  lemma ConnectedSelf<T(!new)>(link: (T, T) -> bool, a: T)
    ensures Connected(link, a, a)
  {
    assert ChainFrom(link, [a], a, a);
  }

  lemma ConnectedLink<T(!new)>(link: (T, T) -> bool, a: T, b: T)
    requires link(a, b)
    ensures Connected(link, a, b)
  {
    assert ChainFrom(link, [a, b], a, b);
  }

  lemma ConnectedThrough<T(!new)>(link: (T, T) -> bool, a: T, b: T, c: T)
    requires Connected(link, a, b) && Connected(link, b, c)
    ensures Connected(link, a, c)
  {
    var p :| ChainFrom(link, p, a, b);
    var q :| ChainFrom(link, q, b, c);
    var r := p + q[1..];
    forall i, j | 0 <= i && j == i + 1 < |r|
      ensures link(r[i], r[j])
    {
      if j < |p| {
        assert r[i] == p[i] && r[j] == p[j];
      } else {
        assert r[i] == q[i - |p| + 1] && r[j] == q[j - |p| + 1];
      }
    }
    assert ChainFrom(link, r, a, c);
  }

  lemma ConnectedBack<T(!new)>(link: (T, T) -> bool, a: T, b: T)
    requires Symmetric(link) && Connected(link, a, b)
    ensures Connected(link, b, a)
  {
    var p :| ChainFrom(link, p, a, b);
    var n := |p|;
    var q := seq(n, i requires 0 <= i < n => p[n - 1 - i]);
    forall i, j | 0 <= i && j == i + 1 < n
      ensures link(q[i], q[j])
    {
      assert link(p[n - 1 - j], p[n - 1 - i]);
    }
    assert ChainFrom(link, q, b, a);
  }

  /** What every link keeps, a chain keeps. */
  lemma {:induction false} ConnectedKeeps<T(!new), U>(link: (T, T) -> bool, f: T -> U, p: seq<T>)
    requires IsChain(link, p)
    requires forall a, b :: link(a, b) ==> f(a) == f(b)
    ensures f(p[0]) == f(p[|p| - 1])
  {
    if |p| > 1 {
      var q := p[..|p| - 1];
      forall i, j | 0 <= i && j == i + 1 < |q|
        ensures link(q[i], q[j])
      {
        assert link(p[i], p[j]);
      }
      ConnectedKeeps(link, f, q);
      assert link(p[|p| - 2], p[|p| - 1]);
    }
  }
}
