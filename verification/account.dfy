/** What is derived of a ticker, told from the fields of its facts (tickervalidity.go, the package's account). */
module Accounts {
  import opened Options
  import opened Periods
  import opened Facts
  import opened Winners
  import opened Timelines
  import opened Segments
  import opened Overruling
  import opened Derive
  import Current

  // ----- Cuts -----

  /** An attestation that is left on d names x. */
  ghost predicate Attests(held: seq<Assertion>, a: Assertion, d: int, x: Option<int>) {
    Current.LeftOn(held, a, d) && a.source.standing == Attested && a.instr == x
  }

  ghost predicate AttestedAs(held: seq<Assertion>, d: int, x: Option<int>) {
    exists a :: Attests(held, a, d, x)
  }

  lemma AttestedPieces(held: seq<Assertion>, d: int, x: Option<int>)
    requires ProperAssertions(held)
    ensures AttestedOn(Current.CurrentPieces(held), d, x) <==> AttestedAs(held, d, x)
  {
    var ps := Current.CurrentPieces(held);
    if b :| b in ps && b.source.IsAttested() && b.period.Contains(d) && b.instr == x {
      Current.DaysLeft(held, d, x, b.source);
      var a :| Current.LeftOn(held, a, d) && a.instr == x && a.source == b.source;
      assert Attests(held, a, d, x);
    }
    if a :| Attests(held, a, d, x) {
      Current.DaysLeft(held, d, x, a.source);
    }
  }

  lemma OverruledAlike(ps: seq<Assertion>, qs: seq<Assertion>, c: int)
    requires forall d, x :: AttestedOn(ps, d, x) <==> AttestedOn(qs, d, x)
    ensures OverruledAt(ps, c) <==> OverruledAt(qs, c)
  {
    forall d
      ensures AnyAttestedOn(ps, d) <==> AnyAttestedOn(qs, d)
    {
      if a :| a in ps && a.source.IsAttested() && a.period.Contains(d) {
        assert AttestedOn(ps, d, a.instr) && AttestedOn(qs, d, a.instr);
      }
      if a :| a in qs && a.source.IsAttested() && a.period.Contains(d) {
        assert AttestedOn(qs, d, a.instr) && AttestedOn(ps, d, a.instr);
      }
    }
    assert forall p, n, x :: DaysName(ps, c, p, n, x) <==> DaysName(qs, c, p, n, x);
  }

  ghost predicate AnyAttested(held: seq<Assertion>, d: int) {
    exists y :: AttestedAs(held, d, y)
  }

  /** The days p and n are the nearest attested ones before c and from c on, and both are attested as x. */
  ghost predicate NearestAttest(held: seq<Assertion>, c: int, p: int, n: int, x: int) {
    && p < c <= n && AttestedAs(held, p, Some(x)) && AttestedAs(held, n, Some(x))
    && forall d :: p < d < n ==> !AnyAttested(held, d)
  }

  /** a states a change on day c that later answers of its source leave. */
  ghost predicate StatesChange(held: seq<Assertion>, a: Assertion, c: int) {
    && a in held && ((a.edgeFrom && a.period.from == c) || (a.edgeBefore && a.period.before == c))
    && !(Current.Replaced(held, a, c - 1) && Current.Replaced(held, a, c))
  }

  lemma StatedIsEdge(held: seq<Assertion>, c: int)
    ensures EdgeAt(Current.CurrentEdges(held), c) <==> exists a :: StatesChange(held, a, c)
  {
    var es := Current.CurrentEdges(held);
    if i :| 0 <= i < |es| && es[i].at == c {
      var e := es[i];
      assert e in es;
      Current.EdgesLeft(held, e);
      assert StatesChange(held, e.assertion, c);
    }
    if a :| StatesChange(held, a, c) {
      var e := Edge(c, a);
      Current.EdgesLeft(held, e);
      assert e in es;
    }
  }

  /**
   * The timeline is cut on exactly the days of the changes that assertions state and later answers
   * leave, but for those that the nearest attestations on either side, naming one instrument, overrule.
   */
  lemma CutsAre(f: TickerFacts, c: int)
    requires ProperFacts(f)
    ensures c in TimelineOf(f).cuts
       <==> (exists a :: StatesChange(f.assertions, a, c)) && !exists p, n, x :: NearestAttest(f.assertions, c, p, n, x)
  {
    StatedIsEdge(f.assertions, c);
    OverruledIs(f.assertions, c);
    assert c in CutSet(f) <==> CutsAt(f, c);
  }

  lemma OverruledIs(held: seq<Assertion>, c: int)
    requires ProperAssertions(held)
    ensures OverruledAt(Current.CurrentPieces(held), c) <==> exists p, n, x :: NearestAttest(held, c, p, n, x)
  {
    var ps := Current.CurrentPieces(held);
    forall d, y
      ensures AttestedOn(ps, d, y) <==> AttestedAs(held, d, y)
    {
      AttestedPieces(held, d, y);
    }
    forall p, n, x
      ensures DaysName(ps, c, p, n, x) <==> NearestAttest(held, c, p, n, x)
    {
      NearestAlike(ps, held, c, p, n, x);
    }
  }

  lemma NearestAlike(ps: seq<Assertion>, held: seq<Assertion>, c: int, p: int, n: int, x: int)
    requires forall d, y :: AttestedOn(ps, d, y) <==> AttestedAs(held, d, y)
    ensures DaysName(ps, c, p, n, x) <==> NearestAttest(held, c, p, n, x)
  {
    forall d
      ensures AnyAttestedOn(ps, d) <==> AnyAttested(held, d)
    {
      AnyIsSome(ps, d);
    }
    assert AttestedOn(ps, p, Some(x)) ==> AnyAttestedOn(ps, p);
    assert AttestedOn(ps, n, Some(x)) ==> AnyAttestedOn(ps, n);
  }

  lemma AnyIsSome(ps: seq<Assertion>, d: int)
    ensures AnyAttestedOn(ps, d) <==> exists y :: AttestedOn(ps, d, y)
  {
    if a :| a in ps && a.source.IsAttested() && a.period.Contains(d) {
      assert AttestedOn(ps, d, a.instr);
    }
  }

  // ----- Days -----

  /** A day is confirmed for the instrument that the best of the assertions left names, and has no interval where that names nothing. */
  lemma BestIsConfirmed(f: TickerFacts, r: Derived, w: Assertion, d: int)
    requires ProperFacts(f) && Derives(f, r) && BestOfDay(Current.CurrentPieces(f.assertions), w, d)
    ensures IntervalOn(r.intervals, d) == match w.instr case Some(x) => Some(Holding(x, Confirmed)) case None => None
  {
    NameIsBest(Current.CurrentPieces(f.assertions), w, d);
    TimelineOf(f).WonDay(d);
    assert Agrees(TimelineOf(f), r.intervals, d);
  }

  /** An attestation of an instrument decides each day on which no later one replaces it, whatever any datasource asserts. */
  lemma AttestationDecides(f: TickerFacts, r: Derived, a: Assertion, d: int, x: int)
    requires ProperFacts(f) && Derives(f, r)
    requires Attests(f.assertions, a, d, Some(x))
    ensures IntervalOn(r.intervals, d) == Some(Holding(x, Confirmed))
  {
    CurrentAttestsOneThing(f.assertions);
    AttestedPieces(f.assertions, d, Some(x));
    var w := AttestedWins(Current.CurrentPieces(f.assertions), Current.CurrentEdges(f.assertions), r.winners, d, x);
    BestIsConfirmed(f, r, w, d);
  }

  lemma AttestedWins(ps: seq<Assertion>, es: seq<Edge>, ws: seq<Winner>, d: int, x: int) returns (w: Assertion)
    requires AreWinners(ps, es, ws) && AttestsOneThing(ps) && AttestedOn(ps, d, Some(x))
    ensures BestOfDay(ps, w, d) && w.instr == Some(x)
  {
    var b :| b in ps && b.source.IsAttested() && b.period.Contains(d) && b.instr == Some(x);
    assert StandsOn(ps, b, d) && AnyStands(ps, d, Attested);
    WinnerIsBest(ps, es, ws, d);
    var i :| 0 <= i < |ws| && ws[i].Contains(d);
    w := ws[i].assertion;
    assert AttestedOn(ps, d, w.instr);
  }
}
