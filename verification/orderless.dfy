/** The order in which the facts of a ticker are read never changes what is derived from them. */
module Orderless {
  import opened Options
  import opened Sorting
  import opened Periods
  import opened Facts
  import opened Winners
  import opened Timelines
  import opened Segments
  import opened Changes
  import opened Overruling
  import opened Derive
  import Current

  ghost predicate SameMembers<T(!new)>(xs: seq<T>, ys: seq<T>) {
    forall x :: x in xs <==> x in ys
  }

  // ----- What the later answers leave -----

  lemma OvertakenIgnoresOrder(xs: seq<Assertion>, ys: seq<Assertion>, a: Assertion, d: int)
    requires SameMembers(xs, ys)
    ensures Current.Overtaken(xs, a, d) <==> Current.Overtaken(ys, a, d)
  {
  }

  lemma PiecesIgnoreOrder(xs: seq<Assertion>, ys: seq<Assertion>, a: Assertion)
    requires SameMembers(xs, ys) && a.period.Proper()
    ensures Current.Pieces(xs, a) == Current.Pieces(ys, a)
  {
    var ps := Runs(d => !Current.Overtaken(xs, a, d), a.period.from, a.period.before);
    var qs := Runs(d => !Current.Overtaken(ys, a, d), a.period.from, a.period.before);
    forall d
      ensures AnyContains(ps, d) <==> AnyContains(qs, d)
    {
      OvertakenIgnoresOrder(xs, ys, a, d);
    }
    CanonicalUnique(ps, qs);
  }

  lemma PieceLeft(xs: seq<Assertion>, ys: seq<Assertion>, b: Assertion)
    requires SameMembers(xs, ys) && ProperAssertions(xs) && ProperAssertions(ys)
    requires b in Current.CurrentPieces(xs)
    ensures b in Current.CurrentPieces(ys)
  {
    var a := Current.FromPieces(xs, b);
    assert a in ys;
    PiecesIgnoreOrder(xs, ys, a);
    var k :| 0 <= k < |ys| && ys[k] == a;
    assert b in Current.AllPieces(ys)[k];
  }

  lemma EdgeLeft(xs: seq<Assertion>, ys: seq<Assertion>, e: Edge)
    requires SameMembers(xs, ys) && e in Current.CurrentEdges(xs)
    ensures e in Current.CurrentEdges(ys)
  {
    var a := e.assertion;
    Current.EdgeIsStated(xs, e);
    assert a in ys;
    OvertakenIgnoresOrder(xs, ys, a, e.at - 1);
    OvertakenIgnoresOrder(xs, ys, a, e.at);
    Current.EdgeSurvives(ys, a, e);
  }

  lemma CurrentIgnoresOrder(xs: seq<Assertion>, ys: seq<Assertion>)
    requires SameMembers(xs, ys) && ProperAssertions(xs) && ProperAssertions(ys)
    ensures SameMembers(Current.CurrentPieces(xs), Current.CurrentPieces(ys))
    ensures SameMembers(Current.CurrentEdges(xs), Current.CurrentEdges(ys))
  {
    forall b
      ensures b in Current.CurrentPieces(xs) <==> b in Current.CurrentPieces(ys)
    {
      if b in Current.CurrentPieces(xs) {
        PieceLeft(xs, ys, b);
      }
      if b in Current.CurrentPieces(ys) {
        PieceLeft(ys, xs, b);
      }
    }
    forall e
      ensures e in Current.CurrentEdges(xs) <==> e in Current.CurrentEdges(ys)
    {
      if e in Current.CurrentEdges(xs) {
        EdgeLeft(xs, ys, e);
      }
      if e in Current.CurrentEdges(ys) {
        EdgeLeft(ys, xs, e);
      }
    }
  }

  // ----- The timeline -----

  /** The timelines name, cut and cover the same days. */
  ghost predicate SameTimeline(t: Timeline, u: Timeline) {
    && (forall d :: t.name(d) == u.name(d))
    && t.cuts == u.cuts
    && (forall d :: t.covered(d) <==> u.covered(d))
  }

  lemma EdgeAtIgnoresOrder(xs: seq<Edge>, ys: seq<Edge>, c: int)
    requires SameMembers(xs, ys)
    ensures EdgeAt(xs, c) <==> EdgeAt(ys, c)
  {
    if EdgeAt(xs, c) {
      var i :| 0 <= i < |xs| && xs[i].at == c;
      assert xs[i] in ys;
    }
    if EdgeAt(ys, c) {
      var i :| 0 <= i < |ys| && ys[i].at == c;
      assert ys[i] in xs;
    }
  }

  /** Facts that hold the same assertions and cover the same days have one timeline. */
  lemma TimelineIgnoresOrder(f: TickerFacts, g: TickerFacts)
    requires ProperFacts(f) && ProperFacts(g)
    requires SameMembers(f.assertions, g.assertions) && SameDays(CoverDays(f.coverage), CoverDays(g.coverage))
    ensures SameTimeline(TimelineOf(f), TimelineOf(g))
  {
    var xs, ys := Current.CurrentPieces(f.assertions), Current.CurrentPieces(g.assertions);
    CurrentIgnoresOrder(f.assertions, g.assertions);
    forall d
      ensures TimelineOf(f).name(d) == TimelineOf(g).name(d)
    {
      NameIgnoresOrder(xs, ys, d);
    }
    forall c
      ensures c in CutSet(f) <==> c in CutSet(g)
    {
      OverruledIgnoresOrder(xs, ys, c);
      EdgeAtIgnoresOrder(Current.CurrentEdges(f.assertions), Current.CurrentEdges(g.assertions), c);
    }
    assert CutSet(f) == CutSet(g);
    forall d
      ensures TimelineOf(f).covered(d) <==> TimelineOf(g).covered(d)
    {
      assert AnyContains(CoverDays(f.coverage), d) <==> AnyContains(CoverDays(g.coverage), d);
    }
  }

  lemma SameNeighbours(t: Timeline, u: Timeline, d: int, e: int)
    requires SameTimeline(t, u)
    ensures t.Prev(d, e) <==> u.Prev(d, e)
    ensures t.Next(d, e) <==> u.Next(d, e)
    ensures t.CoveredOn(d, e) <==> u.CoveredOn(d, e)
  {
  }

  lemma SameNext(t: Timeline, u: Timeline, d: int)
    requires SameTimeline(t, u)
    ensures t.NextHolding(d) == u.NextHolding(d)
    ensures t.NextHolding(d).Some? ==> t.NextInstr(d) == u.NextInstr(d)
  {
    forall n
      ensures t.Next(d, n) <==> u.Next(d, n)
      ensures t.CoveredOn(d, n) <==> u.CoveredOn(d, n)
    {
      SameNeighbours(t, u, d, n);
    }
    if n :| t.Next(d, n) {
      t.NextIs(d, n);
      u.NextIs(d, n);
    } else {
      t.NoNext(d);
      u.NoNext(d);
    }
  }

  /** Equal timelines name the same on every day. */
  lemma SameOn(t: Timeline, u: Timeline, d: int)
    requires SameTimeline(t, u)
    ensures t.On(d) == u.On(d)
  {
    SameNext(t, u, d);
    forall e
      ensures t.Prev(d, e) <==> u.Prev(d, e)
      ensures t.Next(d, e) <==> u.Next(d, e)
    {
      SameNeighbours(t, u, d, e);
    }
    if p :| t.Prev(d, p) {
      SameNeighbours(t, u, p + 1, d + 1);
      match t.name(p)
      case Named(x) =>
        t.AfterInstr(d, p, x);
        u.AfterInstr(d, p, x);
      case Nothing =>
        t.AfterNothing(d, p);
        u.AfterNothing(d, p);
    }
  }

  // ----- Changes -----

  /** The changes are of one period, from one instrument to one. */
  predicate SameChange(x: Inferred, y: Inferred) {
    x.period == y.period && x.from == y.from && x.to == y.to
  }

  ghost predicate SameChanges(xs: seq<Inferred>, ys: seq<Inferred>) {
    |xs| == |ys| && forall k :: 0 <= k < |xs| ==> SameChange(xs[k], ys[k])
  }

  /** The days on which the changes have taken effect at the latest. */
  function Ends(xs: seq<Inferred>): (r: seq<int>)
    ensures |r| == |xs| && forall k :: 0 <= k < |xs| ==> r[k] == xs[k].period.before
  {
    seq(|xs|, k requires 0 <= k < |xs| => xs[k].period.before)
  }

  lemma SameChangeAt(t: Timeline, u: Timeline, p: int, n: int)
    requires SameTimeline(t, u) && ChangeAt(t, p, n)
    ensures ChangeAt(u, p, n)
  {
    assert !u.Apart(p, n) && u.SilentOn(p + 1, n);
  }

  lemma ChangeOnce(t: Timeline, p: int, q: int, n: int)
    requires ChangeAt(t, p, n) && ChangeAt(t, q, n)
    ensures p == q
  {
    assert p < q ==> t.SilentOn(p + 1, n);
    assert q < p ==> t.SilentOn(q + 1, n);
  }

  /** A change the one timeline has, the other has too. */
  lemma EndsIn(t: Timeline, u: Timeline, ws: seq<Winner>, vs: seq<Winner>, xs: seq<Inferred>, ys: seq<Inferred>, e: int)
    requires SameTimeline(t, u) && AreChanges(t, ws, xs, None, None) && AreChanges(u, vs, ys, None, None)
    requires e in Ends(xs)
    ensures e in Ends(ys)
  {
    var k :| 0 <= k < |xs| && Ends(xs)[k] == e;
    assert ReportsSome(t, ws, xs[k], None, None);
    var p, n :| Reports(t, ws, xs[k], p, n);
    SameChangeAt(t, u, p, n);
    assert ReportedIn(u, vs, ys, p, n);
    var m :| 0 <= m < |ys| && Reports(u, vs, ys[m], p, n);
    assert Ends(ys)[m] == e;
  }

  lemma OneReport(t: Timeline, u: Timeline, ws: seq<Winner>, vs: seq<Winner>, x: Inferred, y: Inferred, p: int, n: int, q: int, m: int)
    requires SameTimeline(t, u) && Reports(t, ws, x, p, n) && Reports(u, vs, y, q, m) && x.period.before == y.period.before
    ensures p == q && n == m && SameChange(x, y)
  {
    SameChangeAt(t, u, p, n);
    ChangeOnce(u, p, q, n);
    if x.from.Some? {
      KeptDays(t, p, n, x.period.from, y.period.from);
    }
  }

  /** Unbroken coverage after p, cut to n, ends once. */
  lemma KeptDays(t: Timeline, p: int, n: int, i: int, j: int)
    requires p < i <= n && t.CoveredOn(p + 1, i) && (i == n || !t.covered(i))
    requires p < j <= n && t.CoveredOn(p + 1, j) && (j == n || !t.covered(j))
    ensures i == j
  {
  }

  lemma SameMissed(t: Timeline, u: Timeline, ws: seq<Winner>, vs: seq<Winner>, x: Inferred, y: Inferred)
    requires SameTimeline(t, u) && ReportsSome(t, ws, x, None, None) && ReportsSome(u, vs, y, None, None) && x.period.before == y.period.before
    ensures SameChange(x, y)
    ensures IsMissed(t, ws, x) <==> IsMissed(u, vs, y)
  {
    var p, n :| Reports(t, ws, x, p, n);
    var q, m :| Reports(u, vs, y, q, m);
    OneReport(t, u, ws, vs, x, y, p, n, q, m);
    forall i, j
      ensures Reports(t, ws, x, i, j) ==> i == p && j == n
      ensures Reports(u, vs, y, i, j) ==> i == p && j == n
    {
      if Reports(t, ws, x, i, j) {
        OneReport(t, u, ws, vs, x, y, i, j, q, m);
      }
      if Reports(u, vs, y, i, j) {
        OneReport(t, u, ws, vs, x, y, p, n, i, j);
      }
    }
    assert t.CoveredOn(p + 1, n + 1) <==> u.CoveredOn(p + 1, n + 1);
  }

  /** One timeline has one list of changes, and of those it has one list that is missed. */
  lemma ChangesIgnoreOrder(t: Timeline, u: Timeline, ws: seq<Winner>, vs: seq<Winner>, xs: seq<Inferred>, ys: seq<Inferred>)
    requires SameTimeline(t, u) && AreChanges(t, ws, xs, None, None) && AreChanges(u, vs, ys, None, None)
    ensures SameChanges(xs, ys)
    ensures forall k :: 0 <= k < |xs| ==> (IsMissed(t, ws, xs[k]) <==> IsMissed(u, vs, ys[k]))
  {
    forall e
      ensures e in Ends(xs) <==> e in Ends(ys)
    {
      if e in Ends(xs) {
        EndsIn(t, u, ws, vs, xs, ys, e);
      }
      if e in Ends(ys) {
        EndsIn(u, t, vs, ws, ys, xs, e);
      }
    }
    IncreasingOnce(Ends(xs), Ends(ys));
    forall k | 0 <= k < |xs|
      ensures SameChange(xs[k], ys[k])
      ensures IsMissed(t, ws, xs[k]) <==> IsMissed(u, vs, ys[k])
    {
      assert Ends(xs)[k] == Ends(ys)[k];
      SameMissed(t, u, ws, vs, xs[k], ys[k]);
    }
  }

  function InferredOfAll(missed: seq<MissedEvent>): (r: seq<Inferred>)
    ensures |r| == |missed| && forall k :: 0 <= k < |missed| ==> r[k] == missed[k].inferred
  {
    seq(|missed|, k requires 0 <= k < |missed| => missed[k].inferred)
  }

  lemma MissedIgnoresOrder(t: Timeline, u: Timeline, ws: seq<Winner>, vs: seq<Winner>, xs: seq<Inferred>, ys: seq<Inferred>,
      rows: seq<Coverage>, others: seq<Coverage>, missed: seq<MissedEvent>, gone: seq<MissedEvent>)
    requires SameChanges(xs, ys) && AreMissed(t, ws, xs, rows, missed) && AreMissed(u, vs, ys, others, gone)
    requires forall k :: 0 <= k < |xs| ==> (IsMissed(t, ws, xs[k]) <==> IsMissed(u, vs, ys[k]))
    ensures SameChanges(InferredOfAll(missed), InferredOfAll(gone))
  {
    var at :| MissedAt(t, ws, xs, rows, missed, at, |xs|);
    var be :| MissedAt(u, vs, ys, others, gone, be, |ys|);
    forall m
      ensures m in at <==> m in be
    {
      assert 0 <= m < |xs| ==> (m in at <==> IsMissed(t, ws, xs[m])) && (m in be <==> IsMissed(u, vs, ys[m]));
    }
    IncreasingOnce(at, be);
    forall k | 0 <= k < |missed|
      ensures SameChange(missed[k].inferred, gone[k].inferred)
    {
      assert MissedAs(xs[at[k]], rows, missed[k]) && MissedAs(ys[at[k]], others, gone[k]);
    }
  }

  // ----- Broken brackets -----

  lemma {:induction false} BrokenAre(t: Timeline, es: seq<Edge>, b: BrokenBracket)
    ensures b in BrokenOf(t, es) <==> b.edge in es && Breaks(t, b.edge, b)
  {
    if es != [] {
      var n := |es| - 1;
      BrokenAre(t, es[..n], b);
      assert es == es[..n] + [es[n]];
      BreaksOnce(t, es[n], b);
    }
  }

  lemma BreaksOnce(t: Timeline, e: Edge, b: BrokenBracket)
    ensures b in BrokenOne(t, e) <==> Breaks(t, e, b)
  {
    forall c | Breaks(t, e, b) && Breaks(t, e, c)
      ensures b == c
    {
      assert b.first < c.first ==> t.SilentOn(b.first + 1, b.last);
      assert c.first < b.first ==> t.SilentOn(c.first + 1, c.last);
      assert b.last < c.last ==> t.SilentOn(c.first + 1, c.last);
      assert c.last < b.last ==> t.SilentOn(b.first + 1, b.last);
    }
  }

  lemma SameBroken(t: Timeline, u: Timeline, es: seq<Edge>, fs: seq<Edge>)
    requires SameTimeline(t, u) && SameMembers(es, fs)
    ensures SameMembers(BrokenOf(t, es), BrokenOf(u, fs))
  {
    forall b
      ensures b in BrokenOf(t, es) <==> b in BrokenOf(u, fs)
    {
      BrokenAre(t, es, b);
      BrokenAre(u, fs, b);
      assert t.SilentOn(b.first + 1, b.last) <==> u.SilentOn(b.first + 1, b.last);
    }
  }

  lemma CuttingIgnoresOrder(f: TickerFacts, g: TickerFacts)
    requires ProperFacts(f) && ProperFacts(g) && SameMembers(f.assertions, g.assertions)
    ensures SameMembers(CuttingEdges(Current.CurrentEdges(f.assertions), Current.CurrentPieces(f.assertions)),
                        CuttingEdges(Current.CurrentEdges(g.assertions), Current.CurrentPieces(g.assertions)))
  {
    var xs, ys := Current.CurrentPieces(f.assertions), Current.CurrentPieces(g.assertions);
    var es, fs := Current.CurrentEdges(f.assertions), Current.CurrentEdges(g.assertions);
    CurrentIgnoresOrder(f.assertions, g.assertions);
    forall e
      ensures e in CuttingEdges(es, xs) <==> e in CuttingEdges(fs, ys)
    {
      CuttingAre(es, xs, e);
      CuttingAre(fs, ys, e);
      OverruledIgnoresOrder(xs, ys, e.at);
    }
  }

  // ----- All of it -----

  /**
   * Whatever order the facts are read in, and however often one of them: the intervals, the
   * changes and which of them are missed, and the broken brackets are the same.
   */
  lemma DeriveIgnoresOrder(f: TickerFacts, g: TickerFacts, r: Derived, q: Derived)
    requires ProperFacts(f) && ProperFacts(g) && Derives(f, r) && Derives(g, q)
    requires SameMembers(f.assertions, g.assertions) && SameMembers(f.coverage, g.coverage)
    ensures r.intervals == q.intervals
    ensures SameChanges(r.inferred, q.inferred) && SameChanges(InferredOfAll(r.missed), InferredOfAll(q.missed))
    ensures SameMembers(r.broken, q.broken)
  {
    var t, u := TimelineOf(f), TimelineOf(g);
    CoverIgnoresOrder(f.coverage, g.coverage);
    TimelineIgnoresOrder(f, g);
    SameIntervals(t, u, r.intervals, q.intervals);
    ChangesIgnoreOrder(t, u, r.winners, q.winners, r.inferred, q.inferred);
    MissedIgnoresOrder(t, u, r.winners, q.winners, r.inferred, q.inferred, f.coverage, g.coverage, r.missed, q.missed);
    CuttingIgnoresOrder(f, g);
    SameBroken(t, u, CuttingEdges(Current.CurrentEdges(f.assertions), Current.CurrentPieces(f.assertions)),
               CuttingEdges(Current.CurrentEdges(g.assertions), Current.CurrentPieces(g.assertions)));
  }

  lemma SameIntervals(t: Timeline, u: Timeline, xs: seq<Interval>, ys: seq<Interval>)
    requires SameTimeline(t, u)
    requires OrderedIntervals(xs) && Joined(xs) && forall d {:trigger Agrees(t, xs, d)} :: Agrees(t, xs, d)
    requires OrderedIntervals(ys) && Joined(ys) && forall d {:trigger Agrees(u, ys, d)} :: Agrees(u, ys, d)
    ensures xs == ys
  {
    forall d
      ensures IntervalOn(xs, d) == IntervalOn(ys, d)
    {
      SameOn(t, u, d);
      assert Agrees(t, xs, d) && Agrees(u, ys, d);
    }
    IntervalsUnique(xs, ys);
  }

  lemma CoverIgnoresOrder(xs: seq<Coverage>, ys: seq<Coverage>)
    requires SameMembers(xs, ys)
    ensures SameDays(CoverDays(xs), CoverDays(ys))
  {
    forall d
      ensures AnyContains(CoverDays(xs), d) <==> AnyContains(CoverDays(ys), d)
    {
      if AnyContains(CoverDays(xs), d) {
        var i :| 0 <= i < |xs| && CoverDays(xs)[i].Contains(d);
        assert xs[i] in ys;
        var j :| 0 <= j < |ys| && ys[j] == xs[i];
        assert CoverDays(ys)[j].Contains(d);
      }
      if AnyContains(CoverDays(ys), d) {
        var i :| 0 <= i < |ys| && CoverDays(ys)[i].Contains(d);
        assert ys[i] in xs;
        var j :| 0 <= j < |xs| && xs[j] == ys[i];
        assert CoverDays(xs)[j].Contains(d);
      }
    }
  }
}
