/** A stable sort, standing for the library sorts the program calls. */
module Sorting {

  /** `le` compares any two values, and compares them consistently. */
  ghost predicate TotalPreorder<T(!new)>(le: (T, T) -> bool) {
    && (forall a, b :: le(a, b) || le(b, a))
    && (forall a, b, c :: le(a, b) && le(b, c) ==> le(a, c))
  }

  ghost predicate SortedBy<T>(le: (T, T) -> bool, s: seq<T>) {
    forall i, j :: 0 <= i < j < |s| ==> le(s[i], s[j])
  }

  /** Puts x before the first element of s that it does not follow. */
  function Insert<T(!new)>(le: (T, T) -> bool, x: T, s: seq<T>): (r: seq<T>)
    requires TotalPreorder(le)
    requires SortedBy(le, s)
    ensures SortedBy(le, r)
    ensures multiset(r) == multiset(s) + multiset{x}
  {
    if s == [] || le(x, s[0]) then
      InsertFront(le, x, s);
      [x] + s
    else
      var r := [s[0]] + Insert(le, x, s[1..]);
      InsertLater(le, x, s, Insert(le, x, s[1..]));
      r
  }

  lemma InsertFront<T(!new)>(le: (T, T) -> bool, x: T, s: seq<T>)
    requires TotalPreorder(le)
    requires SortedBy(le, s)
    requires s == [] || le(x, s[0])
    ensures SortedBy(le, [x] + s)
  {
  }

  lemma InsertLater<T(!new)>(le: (T, T) -> bool, x: T, s: seq<T>, t: seq<T>)
    requires TotalPreorder(le)
    requires SortedBy(le, s)
    requires s != [] && !le(x, s[0])
    requires SortedBy(le, t)
    requires multiset(t) == multiset(s[1..]) + multiset{x}
    ensures SortedBy(le, [s[0]] + t)
    ensures multiset([s[0]] + t) == multiset(s) + multiset{x}
  {
    assert s == [s[0]] + s[1..];
    var r := [s[0]] + t;
    forall i, j | 0 <= i < j < |r|
      ensures le(r[i], r[j])
    {
      if i == 0 {
        assert r[j] in multiset(t);
        if r[j] != x {
          assert r[j] in s[1..];
        }
      }
    }
  }

  function StableSort<T(!new)>(le: (T, T) -> bool, s: seq<T>): (r: seq<T>)
    requires TotalPreorder(le)
    ensures SortedBy(le, r)
    ensures multiset(r) == multiset(s)
  {
    if s == [] then [] else
      assert s == [s[0]] + s[1..];
      Insert(le, s[0], StableSort(le, s[1..]))
  }

  lemma SameElements<T>(s: seq<T>, r: seq<T>)
    requires multiset(r) == multiset(s)
    ensures |r| == |s|
    ensures forall x :: x in r <==> x in s
  {
    assert |multiset(r)| == |r| && |multiset(s)| == |s|;
    forall x
      ensures x in r <==> x in s
    {
      assert x in r <==> x in multiset(r);
      assert x in s <==> x in multiset(s);
    }
  }

  predicate AtMost(a: int, b: int) {
    a <= b
  }

  ghost predicate Increasing(s: seq<int>) {
    forall i, j :: 0 <= i < j < |s| ==> s[i] < s[j]
  }

  lemma IncreasingAppend(s: seq<int>, x: int)
    requires Increasing(s)
    requires forall y :: y in s ==> y < x
    ensures Increasing(s + [x])
  {
    assert forall i :: 0 <= i < |s| ==> s[i] in s;
  }

  ghost predicate SameValues(xs: seq<int>, ys: seq<int>) {
    forall x :: x in xs <==> x in ys
  }

  /** A set of values has one increasing list. */
  lemma {:induction false} IncreasingOnce(xs: seq<int>, ys: seq<int>)
    requires Increasing(xs) && Increasing(ys) && SameValues(xs, ys)
    ensures xs == ys
  {
    Emptied(xs, ys);
    Emptied(ys, xs);
    if xs != [] {
      FrontsAlike(xs, ys);
      IncreasingOnce(xs[..|xs| - 1], ys[..|ys| - 1]);
      IncreasingFront(xs);
      IncreasingFront(ys);
    }
  }

  lemma Emptied(xs: seq<int>, ys: seq<int>)
    requires SameValues(xs, ys)
    ensures xs != [] ==> ys != []
  {
    if xs != [] {
      var x := xs[0];
      assert x in xs && x in ys;
    }
  }

  lemma FrontsAlike(xs: seq<int>, ys: seq<int>)
    requires Increasing(xs) && Increasing(ys) && SameValues(xs, ys) && xs != [] && ys != []
    ensures xs[|xs| - 1] == ys[|ys| - 1] && SameValues(xs[..|xs| - 1], ys[..|ys| - 1])
  {
    IncreasingFront(xs);
    IncreasingFront(ys);
    assert xs[|xs| - 1] in xs && ys[|ys| - 1] in ys;
    var front, other := xs[..|xs| - 1], ys[..|ys| - 1];
    forall x
      ensures x in front <==> x in other
    {
      assert x in xs <==> x in ys;
    }
  }

  /** The last of an increasing list is the greatest, and the front is the rest. */
  lemma IncreasingFront(xs: seq<int>)
    requires Increasing(xs) && xs != []
    ensures xs == xs[..|xs| - 1] + [xs[|xs| - 1]]
    ensures forall x :: x in xs ==> x <= xs[|xs| - 1]
    ensures forall x :: x in xs[..|xs| - 1] <==> x in xs && x != xs[|xs| - 1]
  {
  }

  /** The distinct values of xs in order. */
  method SortedDistinct(xs: seq<int>) returns (out: seq<int>)
    ensures Increasing(out)
    ensures forall x :: x in out <==> x in xs
  {
    var sorted := StableSort(AtMost, xs);
    SameElements(xs, sorted);
    out := [];
    for i := 0 to |sorted|
      invariant Increasing(out)
      invariant out == [] <==> i == 0
      invariant i > 0 ==> out[|out| - 1] == sorted[i - 1]
      invariant forall x :: x in out <==> x in sorted[..i]
    {
      assert sorted[..i + 1] == sorted[..i] + [sorted[i]];
      if out == [] || out[|out| - 1] != sorted[i] {
        assert i > 0 ==> AtMost(sorted[i - 1], sorted[i]);
        out := out + [sorted[i]];
      }
    }
    assert sorted[..|sorted|] == sorted;
  }
}
