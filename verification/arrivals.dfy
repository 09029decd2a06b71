/** What later assertions leave of the days before them (tickervalidity.go, the package's account). */
module Arrivals {
  import opened Options
  import opened Periods
  import opened Facts
  import opened Winners
  import opened Timelines
  import opened Segments
  import opened Changes
  import opened Overruling
  import opened Derive
  import opened Accounts
  import Current

  /** The assertion and the request it answers reach no day before n. */
  ghost predicate ReachesFrom(a: Assertion, n: int) {
    forall d :: Current.Reaches(a, d) ==> n <= d
  }

  /** ys are xs and assertions that reach no day before n. */
  ghost predicate Arrive(xs: seq<Assertion>, ys: seq<Assertion>, n: int) {
    && (forall a :: a in xs ==> a in ys)
    && (forall a :: a in ys && a !in xs ==> ReachesFrom(a, n))
  }

  // ----- What is left of the days before -----

  /** The lists hold the same assertions that start before n, and overtake the same of their days before n. */
  ghost predicate AlikeBefore(xs: seq<Assertion>, ys: seq<Assertion>, n: int) {
    && (forall a: Assertion :: a.period.from < n ==> (a in xs <==> a in ys))
    && (forall a, d :: d < n ==> (Current.Overtaken(xs, a, d) <==> Current.Overtaken(ys, a, d)))
  }

  lemma ArriveAlike(xs: seq<Assertion>, ys: seq<Assertion>, n: int)
    requires ProperAssertions(ys) && Arrive(xs, ys, n)
    ensures AlikeBefore(xs, ys, n) && AlikeBefore(ys, xs, n)
  {
    forall a | a in ys && a !in xs
      ensures n <= a.period.from
    {
      assert Current.Reaches(a, a.period.from);
    }
    forall a, d | d < n && Current.Overtaken(ys, a, d)
      ensures Current.Overtaken(xs, a, d)
    {
      var b :| b in ys && Current.Overtakes(b, a, d);
      assert Current.Reaches(b, d);
      assert b in xs;
    }
  }

  /** b and c are pieces of one answer that start on one day, and have the same days before n. */
  ghost predicate Twins(b: Assertion, c: Assertion, n: int) {
    && b.period.from == c.period.from < n && b.instr == c.instr && b.source == c.source
    && forall d :: d < n ==> (b.period.Contains(d) <==> c.period.Contains(d))
  }

  lemma SameReach(xs: seq<Assertion>, ys: seq<Assertion>, n: int, a: Assertion, b: Assertion, c: Assertion, d: int)
    requires AlikeBefore(xs, ys, n) && Current.IsPiece(xs, a, b)
    requires c.period.Contains(b.period.from) && (c.period.before == a.period.before || Current.Overtaken(ys, a, c.period.before))
    requires d < n && b.period.Contains(d)
    ensures c.period.Contains(d)
  {
    if c.period.before <= d {
      assert b.period.Contains(c.period.before);
    }
  }

  /** Each piece that starts before n has a twin where later assertions arrive. */
  lemma Twin(xs: seq<Assertion>, ys: seq<Assertion>, n: int, b: Assertion) returns (c: Assertion)
    requires ProperAssertions(xs) && ProperAssertions(ys) && AlikeBefore(xs, ys, n)
    requires b in Current.CurrentPieces(xs) && b.period.from < n
    ensures c in Current.CurrentPieces(ys) && Twins(b, c, n)
  {
    var a := Current.FromPieces(xs, b);
    var first := b.period.from;
    assert a in ys && b.period.Contains(first) && !Current.Overtaken(xs, a, first);
    c := Current.PieceOn(ys, a, first);
    var k :| 0 <= k < |ys| && ys[k] == a;
    assert c in Current.AllPieces(ys)[k];
    Current.PieceEnds(xs, a, b);
    Current.PieceEnds(ys, a, c);
    SameStart(xs, ys, n, a, b, c);
    forall d | d < n
      ensures b.period.Contains(d) <==> c.period.Contains(d)
    {
      if b.period.Contains(d) {
        SameReach(xs, ys, n, a, b, c, d);
      }
      if c.period.Contains(d) {
        SameReach(ys, xs, n, a, c, b, d);
      }
    }
  }

  lemma SameStart(xs: seq<Assertion>, ys: seq<Assertion>, n: int, a: Assertion, b: Assertion, c: Assertion)
    requires AlikeBefore(xs, ys, n) && Current.IsPiece(ys, a, c) && c.period.Contains(b.period.from) && b.period.from < n
    requires b.period.from == a.period.from || Current.Overtaken(xs, a, b.period.from - 1)
    ensures c.period.from == b.period.from
  {
    if c.period.from < b.period.from {
      assert c.period.Contains(b.period.from - 1);
    }
  }

  // ----- What the days before name -----

  ghost predicate HaveTwins(ps: seq<Assertion>, qs: seq<Assertion>, n: int) {
    forall b :: b in ps && b.period.from < n ==> HasTwin(qs, b, n)
  }

  ghost predicate HasTwin(qs: seq<Assertion>, b: Assertion, n: int) {
    exists c :: c in qs && Twins(b, c, n)
  }

  lemma TwinCounts(ps: seq<Assertion>, qs: seq<Assertion>, n: int, b: Assertion, c: Assertion)
    requires HaveTwins(ps, qs, n) && Twins(b, c, n) && Counts(ps, b)
    ensures Counts(qs, c)
  {
    if b.instr.None? {
      var k :| k in ps && KnewBefore(k, b) && (b.source.IsAttested() || SameDatasource(k, b));
      assert HasTwin(qs, k, n);
      var l :| l in qs && Twins(k, l, n);
      assert KnewBefore(l, c);
    }
  }

  lemma TwinHolds(ps: seq<Assertion>, qs: seq<Assertion>, n: int, b: Assertion, d: int) returns (c: Assertion)
    requires HaveTwins(ps, qs, n) && Holds(ps, b, d) && d < n
    ensures Holds(qs, c, d) && Twins(b, c, n)
  {
    assert HasTwin(qs, b, n);
    c :| c in qs && Twins(b, c, n);
    TwinCounts(ps, qs, n, b, c);
  }

  lemma TwinTops(ps: seq<Assertion>, qs: seq<Assertion>, n: int, b: Assertion, d: int) returns (c: Assertion)
    requires HaveTwins(ps, qs, n) && HaveTwins(qs, ps, n) && Tops(ps, b, d) && d < n
    ensures Tops(qs, c, d) && c.instr == b.instr
  {
    c := TwinHolds(ps, qs, n, b, d);
    forall e | e in qs && Holds(qs, e, d)
      ensures !Better(e, c)
    {
      var o := TwinHolds(qs, ps, n, e, d);
      assert !Better(o, b);
    }
  }

  lemma SameNameBefore(ps: seq<Assertion>, qs: seq<Assertion>, n: int, d: int)
    requires HaveTwins(ps, qs, n) && HaveTwins(qs, ps, n) && d < n
    ensures NameOn(ps, d) == NameOn(qs, d)
  {
    TopsAgree(ps, d);
    TopsAgree(qs, d);
    if b :| Tops(ps, b, d) {
      var c := TwinTops(ps, qs, n, b, d);
      NameOnTop(ps, b, d);
      NameOnTop(qs, c, d);
    } else if c :| Tops(qs, c, d) {
      var b := TwinTops(qs, ps, n, c, d);
    }
  }

  lemma NamesBefore(xs: seq<Assertion>, ys: seq<Assertion>, n: int, d: int)
    requires ProperAssertions(xs) && ProperAssertions(ys) && Arrive(xs, ys, n) && d < n
    ensures NameOn(Current.CurrentPieces(xs), d) == NameOn(Current.CurrentPieces(ys), d)
  {
    var ps, qs := Current.CurrentPieces(xs), Current.CurrentPieces(ys);
    ArriveAlike(xs, ys, n);
    forall b | b in ps && b.period.from < n
      ensures HasTwin(qs, b, n)
    {
      var c := Twin(xs, ys, n, b);
    }
    forall b | b in qs && b.period.from < n
      ensures HasTwin(ps, b, n)
    {
      var c := Twin(ys, xs, n, b);
    }
    SameNameBefore(ps, qs, n, d);
  }

  // ----- The cuts before -----

  lemma EdgeBefore(xs: seq<Assertion>, ys: seq<Assertion>, n: int, c: int)
    requires ProperAssertions(xs) && AlikeBefore(xs, ys, n) && c < n && EdgeAt(Current.CurrentEdges(xs), c)
    ensures EdgeAt(Current.CurrentEdges(ys), c)
  {
    var es := Current.CurrentEdges(xs);
    var i :| 0 <= i < |es| && es[i].at == c;
    var e, a := es[i], es[i].assertion;
    assert e in es;
    Current.EdgeIsStated(xs, e);
    assert a.period.from < n && a in ys;
    Current.EdgeSurvives(ys, a, e);
    assert e in Current.CurrentEdges(ys);
  }

  ghost predicate NoneAttested(xs: seq<Assertion>, ys: seq<Assertion>) {
    forall a :: a in ys && a !in xs ==> !a.source.IsAttested()
  }

  /** Only attestations change what the attestations name. */
  lemma AttestedAlike(xs: seq<Assertion>, ys: seq<Assertion>, n: int, d: int, x: Option<int>)
    requires ProperAssertions(xs) && ProperAssertions(ys) && Arrive(xs, ys, n) && NoneAttested(xs, ys)
    ensures AttestedOn(Current.CurrentPieces(xs), d, x) <==> AttestedOn(Current.CurrentPieces(ys), d, x)
  {
    AttestedPieces(xs, d, x);
    AttestedPieces(ys, d, x);
    forall a
      ensures Attests(xs, a, d, x) <==> Attests(ys, a, d, x)
    {
      AttestsAlike(xs, ys, n, a, d, x);
    }
  }

  lemma AttestsAlike(xs: seq<Assertion>, ys: seq<Assertion>, n: int, a: Assertion, d: int, x: Option<int>)
    requires Arrive(xs, ys, n) && NoneAttested(xs, ys)
    ensures Attests(xs, a, d, x) <==> Attests(ys, a, d, x)
  {
    if a.source.standing == Attested && Current.Replaced(ys, a, d) {
      var b :| b in ys && Current.LaterAnswer(b.source, a.source) && (b.period.from <= d < b.period.before || b.source.asked.from <= d < b.source.asked.before);
      assert b.source.IsAttested() && b in xs;
    }
    assert Current.Replaced(xs, a, d) ==> Current.Replaced(ys, a, d);
  }

  /** Where no attestation arrives, the same days before n are cut. */
  lemma CutsBefore(f: TickerFacts, g: TickerFacts, n: int, c: int)
    requires ProperFacts(f) && ProperFacts(g) && Arrive(f.assertions, g.assertions, n) && NoneAttested(f.assertions, g.assertions)
    requires c < n
    ensures c in CutSet(f) <==> c in CutSet(g)
  {
    var xs, ys := f.assertions, g.assertions;
    ArriveAlike(xs, ys, n);
    if EdgeAt(Current.CurrentEdges(xs), c) {
      EdgeBefore(xs, ys, n, c);
    }
    if EdgeAt(Current.CurrentEdges(ys), c) {
      EdgeBefore(ys, xs, n, c);
    }
    forall d, x
      ensures AttestedOn(Current.CurrentPieces(xs), d, x) <==> AttestedOn(Current.CurrentPieces(ys), d, x)
    {
      AttestedAlike(xs, ys, n, d, x);
    }
    OverruledAlike(Current.CurrentPieces(xs), Current.CurrentPieces(ys), c);
  }

  // ----- The days before keep their instrument -----

  /** d follows the winning day p of x, with no other winning day and no cut between. */
  ghost predicate Follows(t: Timeline, p: int, d: int, x: int) {
    p <= d && t.name(p) == Named(x) && t.SilentOn(p + 1, d + 1) && !t.Apart(p, d)
  }

  /** The instrument that intervals name on d, whatever its validity. */
  ghost predicate NamesOn(ivs: seq<Interval>, d: int, x: int) {
    IntervalOn(ivs, d).Some? && IntervalOn(ivs, d).value.instr == x
  }

  /** The next winning day from d, with no cut between, names x. */
  ghost predicate NextNames(t: Timeline, d: int, x: int) {
    exists m :: t.Next(d, m) && t.name(m) == Named(x)
  }

  /**
   * Assertions that reach only days from n on change the instrument of no earlier day that follows
   * a winning day, where no attestation is among them.
   */
  lemma LaterAssertionKeepsDays(f: TickerFacts, g: TickerFacts, r: Derived, q: Derived, n: int, p: int, d: int, x: int)
    requires ProperFacts(f) && ProperFacts(g) && Derives(f, r) && Derives(g, q)
    requires Arrive(f.assertions, g.assertions, n) && NoneAttested(f.assertions, g.assertions) && d < n
    requires Follows(TimelineOf(f), p, d, x)
    ensures NamesOn(r.intervals, d, x) && NamesOn(q.intervals, d, x)
  {
    NoCutArrives(f, g, n, p, d);
    KeptIff(f, g, r, q, n, p, d, x);
  }

  /**
   * Whatever arrives, the day keeps its instrument iff no cut comes between it and the winning day
   * it follows, or the next winning day names the instrument too.
   */
  lemma KeptIff(f: TickerFacts, g: TickerFacts, r: Derived, q: Derived, n: int, p: int, d: int, x: int)
    requires ProperFacts(f) && ProperFacts(g) && Derives(f, r) && Derives(g, q)
    requires Arrive(f.assertions, g.assertions, n) && d < n
    requires Follows(TimelineOf(f), p, d, x)
    ensures NamesOn(r.intervals, d, x)
    ensures NamesOn(q.intervals, d, x) <==> !TimelineOf(g).Apart(p, d) || NextNames(TimelineOf(g), d, x)
  {
    var t, u := TimelineOf(f), TimelineOf(g);
    forall e | e < n
      ensures t.name(e) == u.name(e)
    {
      NamesBefore(f.assertions, g.assertions, n, e);
    }
    NamesWhatItFollows(t, r.intervals, p, d, x);
    SilentAlike(t, u, p + 1, d + 1);
    NamedIff(u, q.intervals, p, d, x);
  }

  lemma NamesWhatItFollows(t: Timeline, ivs: seq<Interval>, p: int, d: int, x: int)
    requires Follows(t, p, d, x) && Agrees(t, ivs, d)
    ensures NamesOn(ivs, d, x)
  {
    t.KeepsDaysAfter(p, d, x);
  }

  lemma SilentAlike(t: Timeline, u: Timeline, lo: int, hi: int)
    requires forall e :: lo <= e < hi ==> t.name(e) == u.name(e)
    ensures t.SilentOn(lo, hi) <==> u.SilentOn(lo, hi)
  {
  }

  lemma NamedIff(u: Timeline, ivs: seq<Interval>, p: int, d: int, x: int)
    requires p <= d && u.name(p) == Named(x) && u.SilentOn(p + 1, d + 1) && Agrees(u, ivs, d)
    ensures NamesOn(ivs, d, x) <==> !u.Apart(p, d) || NextNames(u, d, x)
  {
    if !u.Apart(p, d) {
      NamesWhatItFollows(u, ivs, p, d, x);
    } else {
      NamedAfterCut(u, ivs, p, d, x);
    }
  }

  /** A day that a cut parts from the winning day before it names what the next one does. */
  lemma NamedAfterCut(u: Timeline, ivs: seq<Interval>, p: int, d: int, x: int)
    requires p <= d && u.SilentOn(p + 1, d + 1) && u.Apart(p, d) && Agrees(u, ivs, d)
    ensures NamesOn(ivs, d, x) <==> NextNames(u, d, x)
  {
    forall e
      ensures !u.Prev(d, e)
    {
      assert p < e <= d ==> u.name(e) == Silent;
      assert e <= p && u.Apart(p, d) ==> u.Apart(e, d);
    }
    u.AfterCut(d);
    NamedByNext(u, d, x);
  }

  lemma NamedByNext(u: Timeline, d: int, x: int)
    ensures u.NextHolding(d).Some? && u.NextInstr(d) == x <==> NextNames(u, d, x)
  {
    if m :| u.Next(d, m) {
      u.NextIs(d, m);
      forall k | u.Next(d, k)
        ensures k == m
      {
        u.NextOnce(d, k, m);
      }
    } else {
      u.NoNext(d);
    }
  }

  lemma NoCutArrives(f: TickerFacts, g: TickerFacts, n: int, p: int, d: int)
    requires ProperFacts(f) && ProperFacts(g) && Arrive(f.assertions, g.assertions, n) && d < n
    requires NoneAttested(f.assertions, g.assertions) && !TimelineOf(f).Apart(p, d)
    ensures !TimelineOf(g).Apart(p, d)
  {
    forall c | c in CutSet(g) && p < c <= d
      ensures c in CutSet(f)
    {
      CutsBefore(f, g, n, c);
    }
  }

  // ----- An attestation that lets an edge cut again -----

  /** The answer k of an attest run asserts the ticker on one day. */
  function Attestation(k: int, day: int, x: int): Assertion {
    Assertion(Period(day, day + 1), Some(x), false, false, Source("", 0, k, k, Period(day, day + 1), Attested))
  }

  /** The event source asserts instrument 1 through day 9, with a change at the start of day 10. */
  const EVENT: Assertion := Assertion(Period(5, 10), Some(1), false, true, Source("events", 0, 0, 0, Period(5, 10), EventSource))

  /** The event, and attestations of instrument 1 on days 0 and 100 that overrule its edge. */
  const BEFORE: TickerFacts := TickerFacts([EVENT, Attestation(1, 0, 1), Attestation(2, 100, 1)], [])

  /** The same, and an attestation of instrument 2 on day 50. */
  const AFTER: TickerFacts := TickerFacts([EVENT, Attestation(1, 0, 1), Attestation(2, 100, 1), Attestation(3, 50, 2)], [])

  /** No assertion reaches a day of another. */
  ghost predicate Separate(held: seq<Assertion>) {
    forall a, b, d :: a in held && b in held && a != b && a.period.Contains(d) ==> !Current.Reaches(b, d)
  }

  lemma SeparateStay(held: seq<Assertion>)
    requires ProperAssertions(held) && Separate(held)
    ensures Current.CurrentPieces(held) == held
  {
    Current.AllStay(held);
  }

  /** A day that one of separate assertions holds names what that does. */
  lemma SeparateName(held: seq<Assertion>, a: Assertion, d: int)
    requires Separate(held) && a in held && a.instr.Some? && a.period.Contains(d)
    ensures NameOn(held, d) == NameOf(a.instr)
  {
    forall b | b in held && Holds(held, b, d)
      ensures !Better(b, a)
    {
      assert Current.Reaches(b, d);
      assert a == b;
    }
    NameOnTop(held, a, d);
  }

  lemma NothingHolds(held: seq<Assertion>, d: int)
    requires forall a :: a in held ==> !a.period.Contains(d)
    ensures NameOn(held, d) == Silent
  {
    assert forall a :: !Tops(held, a, d);
  }

  lemma AfterSeparate()
    ensures ProperAssertions(AFTER.assertions) && Separate(AFTER.assertions)
  {
  }

  lemma AfterOnce()
    ensures AttestedOnce(AFTER.assertions)
  {
  }

  lemma ExampleHeld(held: seq<Assertion>)
    requires held == BEFORE.assertions || held == AFTER.assertions
    ensures ProperAssertions(held) && AttestedOnce(held) && Separate(held)
  {
    AfterSeparate();
    AfterOnce();
    assert forall a :: a in held ==> a in AFTER.assertions;
  }

  lemma ExampleNames(held: seq<Assertion>)
    requires held == BEFORE.assertions || held == AFTER.assertions
    ensures NameOn(held, 9) == Named(1) && forall d :: 10 <= d < 50 ==> NameOn(held, d) == Silent
    ensures held == AFTER.assertions ==> NameOn(held, 50) == Named(2)
  {
    ExampleHeld(held);
    assert EVENT in held;
    SeparateName(held, EVENT, 9);
    forall d | 10 <= d < 50
      ensures NameOn(held, d) == Silent
    {
      NothingHolds(held, d);
    }
    if held == AFTER.assertions {
      assert Attestation(3, 50, 2) in held;
      SeparateName(held, Attestation(3, 50, 2), 50);
    }
  }

  lemma ExampleEdges(held: seq<Assertion>)
    requires EVENT in held && forall a :: a in held && a != EVENT ==> !a.edgeFrom && !a.edgeBefore
    requires Separate(held)
    ensures forall c :: EdgeAt(Current.CurrentEdges(held), c) <==> c == 10
  {
    var es := Current.CurrentEdges(held);
    forall i | 0 <= i < |es|
      ensures es[i].at == 10
    {
      var e := es[i];
      assert e in es;
      Current.EdgeIsStated(held, e);
    }
    assert EVENT.period.Contains(9);
    var e := Edge(10, EVENT);
    Current.EdgeSurvives(held, EVENT, e);
    var i :| 0 <= i < |es| && es[i] == e;
  }

  /** The edge is overruled until the attestation of day 50 is the nearest after it. */
  lemma ExampleOverruled()
    ensures OverruledAt(BEFORE.assertions, 10) && !OverruledAt(AFTER.assertions, 10)
  {
    var xs, ys := BEFORE.assertions, AFTER.assertions;
    assert Attestation(1, 0, 1) in xs && Attestation(2, 100, 1) in xs;
    assert AttestedOn(xs, 0, Some(1)) && AttestedOn(xs, 100, Some(1));
    assert DaysName(xs, 10, 0, 100, 1);
    assert Attestation(3, 50, 2) in ys;
    assert AnyAttestedOn(ys, 50);
    forall p, n, x
      ensures !DaysName(ys, 10, p, n, x)
    {
      assert 10 <= n && AttestedOn(ys, n, Some(x)) ==> n == 100 || (n == 50 && x == 2);
      assert p < 10 && AttestedOn(ys, p, Some(x)) ==> x == 1;
    }
  }

  lemma SeparateTimeline(f: TickerFacts)
    requires ProperFacts(f) && Separate(f.assertions)
    requires EVENT in f.assertions && forall a :: a in f.assertions && a != EVENT ==> !a.edgeFrom && !a.edgeBefore
    ensures forall d :: TimelineOf(f).name(d) == NameOn(f.assertions, d)
    ensures TimelineOf(f).cuts == if OverruledAt(f.assertions, 10) then {} else {10}
  {
    SeparateStay(f.assertions);
    SeparateCuts(f);
  }

  lemma SeparateCuts(f: TickerFacts)
    requires ProperFacts(f) && Separate(f.assertions)
    requires EVENT in f.assertions && forall a :: a in f.assertions && a != EVENT ==> !a.edgeFrom && !a.edgeBefore
    ensures CutSet(f) == if OverruledAt(f.assertions, 10) then {} else {10}
  {
    SeparateStay(f.assertions);
    ExampleEdges(f.assertions);
    OneCut(f);
  }

  lemma OneCut(f: TickerFacts)
    requires ProperFacts(f) && Current.CurrentPieces(f.assertions) == f.assertions
    requires forall c :: EdgeAt(Current.CurrentEdges(f.assertions), c) <==> c == 10
    ensures CutSet(f) == if OverruledAt(f.assertions, 10) then {} else {10}
  {
    forall c
      ensures c in CutSet(f) <==> c == 10 && !OverruledAt(f.assertions, 10)
    {
      assert c in CutSet(f) <==> CutsAt(f, c);
    }
  }

  /** Separate assertions, of which the event alone states a change, and none holds a day after it up to day 50. */
  ghost predicate AfterEvent(held: seq<Assertion>) {
    && ProperAssertions(held) && AttestedOnce(held) && Separate(held)
    && EVENT in held && (forall a :: a in held && a != EVENT ==> !a.edgeFrom && !a.edgeBefore)
    && NameOn(held, 9) == Named(1) && (forall d :: 10 <= d < 50 ==> NameOn(held, d) == Silent)
  }

  lemma ExampleIs(held: seq<Assertion>)
    requires held == BEFORE.assertions || held == AFTER.assertions
    ensures AfterEvent(held)
  {
    ExampleHeld(held);
    ExampleNames(held);
  }

  lemma ExampleArrives()
    ensures Arrive(BEFORE.assertions, AFTER.assertions, 50)
  {
  }

  /** Day 20 follows the event, until the attestation of day 50 lets the edge cut: then it names what that does. */
  lemma AttestationMovesDays(r: Derived, q: Derived)
    requires ProperFacts(BEFORE) && Derives(BEFORE, r) && ProperFacts(AFTER) && Derives(AFTER, q)
    ensures Arrive(BEFORE.assertions, AFTER.assertions, 50)
    ensures NamesOn(r.intervals, 20, 1) && NamesOn(q.intervals, 20, 2)
  {
    var f, g := BEFORE, AFTER;
    ExampleArrives();
    ExampleIs(f.assertions);
    ExampleIs(g.assertions);
    ExampleNames(g.assertions);
    ExampleOverruled();
    TwentyNames(f, r);
    TwentyNames(g, q);
  }

  lemma TwentyNames(f: TickerFacts, r: Derived)
    requires ProperFacts(f) && AfterEvent(f.assertions) && Derives(f, r)
    ensures OverruledAt(f.assertions, 10) ==> NamesOn(r.intervals, 20, 1)
    ensures !OverruledAt(f.assertions, 10) && NameOn(f.assertions, 50) == Named(2) ==> NamesOn(r.intervals, 20, 2)
  {
    var t := TimelineOf(f);
    SeparateTimeline(f);
    assert Agrees(t, r.intervals, 20);
    if OverruledAt(f.assertions, 10) {
      AfterNineNamesOne(t, r.intervals);
    } else if NameOn(f.assertions, 50) == Named(2) {
      AfterTenNamesTwo(t, r.intervals);
    }
  }

  lemma AfterNineNamesOne(u: Timeline, ivs: seq<Interval>)
    requires u.name(9) == Named(1) && (forall d :: 10 <= d < 50 ==> u.name(d) == Silent) && u.cuts == {} && Agrees(u, ivs, 20)
    ensures NamesOn(ivs, 20, 1)
  {
    assert u.SilentOn(10, 21);
    NamesWhatItFollows(u, ivs, 9, 20, 1);
  }

  lemma AfterTenNamesTwo(u: Timeline, ivs: seq<Interval>)
    requires u.name(50) == Named(2) && (forall d :: 10 <= d < 50 ==> u.name(d) == Silent) && u.cuts == {10} && Agrees(u, ivs, 20)
    ensures NamesOn(ivs, 20, 2)
  {
    assert u.Apart(9, 20);
    assert u.Next(20, 50);
    NamedAfterCut(u, ivs, 9, 20, 2);
  }
}
