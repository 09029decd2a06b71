/** The best of several values under a ranking, ties kept in order, found by a scan and by a stable sort. */
module Ranking {
  import opened Options
  import opened Sorting

  /** a ranks before b. */
  predicate Better<T(!new)>(le: (T, T) -> bool, a: T, b: T) {
    !le(b, a)
  }

  /** The value a scan keeps that changes its mind only for a better one. */
  function BestOf<T(!new)>(le: (T, T) -> bool, xs: seq<T>): Option<T> {
    if xs == [] then None else
      var last := xs[|xs| - 1];
      var best := BestOf(le, xs[..|xs| - 1]);
      if best.None? || Better(le, last, best.value) then Some(last) else best
  }

  /** i is the first of the values that none ranks before. */
  ghost predicate FirstBest<T(!new)>(le: (T, T) -> bool, xs: seq<T>, i: nat) {
    && i < |xs|
    && (forall j :: 0 <= j < i ==> Better(le, xs[i], xs[j]))
    && (forall j :: i < j < |xs| ==> !Better(le, xs[j], xs[i]))
  }

  lemma FirstBestOnce<T(!new)>(le: (T, T) -> bool, xs: seq<T>, i: nat, j: nat)
    requires FirstBest(le, xs, i) && FirstBest(le, xs, j)
    ensures i == j
  {
    assert Better(le, xs[j], xs[i]) || !Better(le, xs[j], xs[i]);
    assert Better(le, xs[i], xs[j]) || !Better(le, xs[i], xs[j]);
  }

  lemma {:induction false} ScanFindsFirstBest<T(!new)>(le: (T, T) -> bool, xs: seq<T>)
    requires TotalPreorder(le)
    ensures BestOf(le, xs).None? <==> xs == []
    ensures xs != [] ==> exists i: nat :: FirstBest(le, xs, i) && BestOf(le, xs) == Some(xs[i])
  {
    if |xs| == 1 {
      assert BestOf(le, xs[..0]) == None;
      assert FirstBest(le, xs, 0);
    } else if xs != [] {
      var n := |xs| - 1;
      var before := xs[..n];
      ScanFindsFirstBest(le, before);
      var i: nat :| FirstBest(le, before, i) && BestOf(le, before) == Some(before[i]);
      FirstBestNext(le, before, xs[n], i);
      assert xs == before + [xs[n]];
    }
  }

  /** One value more is the first best where it ranks before the one until then. */
  lemma FirstBestNext<T(!new)>(le: (T, T) -> bool, xs: seq<T>, x: T, i: nat)
    requires TotalPreorder(le) && FirstBest(le, xs, i)
    ensures FirstBest(le, xs + [x], if Better(le, x, xs[i]) then |xs| else i)
  {
    forall j | 0 <= j < |xs| && Better(le, x, xs[i])
      ensures Better(le, x, xs[j])
    {
      assert j > i ==> !Better(le, xs[j], xs[i]);
    }
  }

  lemma {:induction false} SortPutsFirstBestFirst<T(!new)>(le: (T, T) -> bool, xs: seq<T>)
    requires TotalPreorder(le) && xs != []
    ensures StableSort(le, xs) != [] && exists i: nat :: FirstBest(le, xs, i) && StableSort(le, xs)[0] == xs[i]
  {
    var rest := xs[1..];
    assert xs == [xs[0]] + rest;
    if rest == [] {
      assert FirstBest(le, xs, 0);
    } else {
      SortPutsFirstBestFirst(le, rest);
      var i: nat :| FirstBest(le, rest, i) && StableSort(le, rest)[0] == rest[i];
      FirstBestWith(le, xs, i);
    }
  }

  lemma FirstBestWith<T(!new)>(le: (T, T) -> bool, xs: seq<T>, i: nat)
    requires TotalPreorder(le) && xs != [] && FirstBest(le, xs[1..], i)
    ensures FirstBest(le, xs, if le(xs[0], xs[i + 1]) then 0 else i + 1)
  {
  }

  /** The first value of a stable sort is the one the scan keeps. */
  lemma SortAgreesWithScan<T(!new)>(le: (T, T) -> bool, xs: seq<T>)
    requires TotalPreorder(le) && xs != []
    ensures StableSort(le, xs) != [] && BestOf(le, xs) == Some(StableSort(le, xs)[0])
  {
    ScanFindsFirstBest(le, xs);
    SortPutsFirstBestFirst(le, xs);
    var i: nat :| FirstBest(le, xs, i) && BestOf(le, xs) == Some(xs[i]);
    var j: nat :| FirstBest(le, xs, j) && StableSort(le, xs)[0] == xs[j];
    FirstBestOnce(le, xs, i, j);
  }
}
