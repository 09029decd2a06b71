/** The calendar of an instrument, gathered from the answers of the tickers that named it (corpact/calendar.go). */
module Calendars {
  import opened Sorting
  import opened Periods
  import opened Ratios
  import opened Folding
  import opened CorpActs
  import opened Segments

  datatype Calendar = Calendar(acts: seq<Act>, coverage: seq<Period>)

  /** One interval of a ticker that has an answer, in whatever order the program's maps give them. */
  datatype Visit = Visit(market: string, interval: Interval, answer: Answer)

  // ----- The factor over a span -----

  function Term(e: Act, p: Period): real {
    if e.Restates() && p.Contains(e.exDate) && e.ratio.Positive() then e.ratio.Factor() else 1.0
  }

  function Times(x: real, y: real): real {
    x * y
  }

  function Terms(acts: seq<Act>, p: Period): (r: seq<real>)
    ensures |r| == |acts| && forall i :: 0 <= i < |acts| ==> r[i] == Term(acts[i], p)
  {
    seq(|acts|, i requires 0 <= i < |acts| => Term(acts[i], p))
  }

  /** The product of the factors of the actions that restate within p. */
  function Product(acts: seq<Act>, p: Period): real {
    Fold(Times, 1.0, Terms(acts, p))
  }

  lemma ProductNext(acts: seq<Act>, p: Period, i: nat)
    requires i < |acts|
    ensures Product(acts[..i + 1], p) == Product(acts[..i], p) * Term(acts[i], p)
  {
    assert Terms(acts[..i + 1], p) == Terms(acts[..i], p) + [Term(acts[i], p)];
    FoldAppend(Times, 1.0, Terms(acts[..i], p), Term(acts[i], p));
  }

  lemma TimesIgnoresOrder()
    ensures IgnoresOrder(Times)
  {
    forall x, y, z
      ensures Times(Times(x, y), z) == Times(x, Times(y, z))
    {
    }
  }

  /** The days after asAt, up to and including today. */
  function Span(asAt: int, today: int): Period {
    Period(asAt + 1, today + 1)
  }

  ghost predicate Covers(c: Calendar, p: Period) {
    forall d :: p.Contains(d) ==> AnyContains(c.coverage, d)
  }

  lemma {:induction false} EmptySpan(acts: seq<Act>, p: Period)
    requires !p.Proper()
    ensures Product(acts, p) == 1.0
  {
    if acts != [] {
      var n := |acts| - 1;
      EmptySpan(acts[..n], p);
      ProductNext(acts, p, n);
      assert acts[..n + 1] == acts;
    }
  }

  /** The factor that restates a quantity as at asAt to today, and whether the calendar covers every day between. */
  method Factor(c: Calendar, asAt: int, today: int) returns (f: real, covered: bool)
    requires AllPositive(c.acts) && AllProper(c.coverage)
    ensures f == Product(c.acts, Span(asAt, today))
    ensures covered <==> Covers(c, Span(asAt, today))
  {
    var need := Period(asAt + 1, today + 1);
    f := 1.0;
    if need.from >= need.before {
      EmptySpan(c.acts, need);
      return 1.0, true;
    }
    for i := 0 to |c.acts|
      invariant f == Product(c.acts[..i], need)
    {
      ProductNext(c.acts, need, i);
      var e := c.acts[i];
      assert e in c.acts;
      if e.Restates() && need.Contains(e.exDate) {
        f := f * (e.ratio.to / e.ratio.from);
      }
    }
    assert c.acts[..|c.acts|] == c.acts;
    var gaps := Gaps(c.coverage, need);
    covered := |gaps| == 0;
    if covered {
      assert forall d :: !AnyContains(gaps, d);
    } else {
      assert gaps[0].Contains(gaps[0].from);
      assert AnyContains(gaps, gaps[0].from);
    }
  }

  /** The system judged that the action restates, or a decision says so. */
  predicate CountsNow(e: Act) {
    e.decision in {Split, ReverseSplit, StockDividend} || (e.decision == Undecided && e.handled)
  }

  /** What one unit as at asAt becomes by one action: to for from, where it counts after asAt and up to today. */
  function RestatesBy(e: Act, asAt: int, today: int): real {
    if CountsNow(e) && asAt < e.exDate <= today && e.ratio.from != 0.0 then e.ratio.to / e.ratio.from else 1.0
  }

  lemma TermIs(e: Act, asAt: int, today: int)
    requires e.ratio.Positive()
    ensures Term(e, Span(asAt, today)) == RestatesBy(e, asAt, today)
  {
    EffectsAre(e);
  }

  /** What one unit as at asAt becomes, action by action. */
  ghost function Restated(acts: seq<Act>, asAt: int, today: int): real {
    if acts == [] then 1.0 else Times(Restated(acts[..|acts| - 1], asAt, today), RestatesBy(acts[|acts| - 1], asAt, today))
  }

  /**
   * The factor restates by to for from at each action that counts, with an ex-date after asAt and
   * on or before today, and by nothing else.
   */
  lemma {:induction false} FactorRestates(acts: seq<Act>, asAt: int, today: int)
    requires AllPositive(acts)
    ensures Product(acts, Span(asAt, today)) == Restated(acts, asAt, today)
  {
    if acts != [] {
      var front, last := acts[..|acts| - 1], acts[|acts| - 1];
      assert acts == front + [last] && last in acts;
      FactorRestates(front, asAt, today);
      FactorNext(front, last, asAt, today);
    }
  }

  lemma FactorNext(acts: seq<Act>, e: Act, asAt: int, today: int)
    requires e.ratio.Positive() && Product(acts, Span(asAt, today)) == Restated(acts, asAt, today)
    ensures Product(acts + [e], Span(asAt, today)) == Restated(acts + [e], asAt, today)
  {
    var all := acts + [e];
    assert all[..|acts|] == acts && all[..|acts| + 1] == all;
    ProductNext(all, Span(asAt, today), |acts|);
    TermIs(e, asAt, today);
  }

  /** Restating to a day between and then on restates as restating at once, and is covered where both parts are. */
  lemma FactorComposes(c: Calendar, a: int, b: int, t: int)
    requires a <= b <= t
    ensures Product(c.acts, Span(a, t)) == Product(c.acts, Span(a, b)) * Product(c.acts, Span(b, t))
    ensures Covers(c, Span(a, t)) <==> Covers(c, Span(a, b)) && Covers(c, Span(b, t))
  {
    ProductComposes(c.acts, Span(a, b), Span(b, t), Span(a, t));
    assert forall d :: Span(a, t).Contains(d) <==> Span(a, b).Contains(d) || Span(b, t).Contains(d);
  }

  /** r holds the days that p and q hold, which share none. */
  ghost predicate Splits(r: Period, p: Period, q: Period) {
    forall d :: (r.Contains(d) <==> p.Contains(d) || q.Contains(d)) && !(p.Contains(d) && q.Contains(d))
  }

  lemma TermSplits(e: Act, p: Period, q: Period, r: Period)
    requires Splits(r, p, q)
    ensures Term(e, r) == Times(Term(e, p), Term(e, q))
  {
    assert r.Contains(e.exDate) <==> p.Contains(e.exDate) || q.Contains(e.exDate);
  }

  lemma TermsSplit(acts: seq<Act>, p: Period, q: Period, r: Period)
    requires Splits(r, p, q)
    ensures Pairwise(Times, Terms(acts, r), Terms(acts, p), Terms(acts, q))
  {
    forall i | 0 <= i < |acts|
      ensures Terms(acts, r)[i] == Times(Terms(acts, p)[i], Terms(acts, q)[i])
    {
      TermSplits(acts[i], p, q, r);
    }
  }

  lemma ProductComposes(acts: seq<Act>, p: Period, q: Period, r: Period)
    requires Splits(r, p, q)
    ensures Product(acts, r) == Times(Product(acts, p), Product(acts, q))
  {
    TimesIgnoresOrder();
    TermsSplit(acts, p, q, r);
    FoldOfPairs(Times, 1.0, Terms(acts, r), Terms(acts, p), Terms(acts, q));
  }

  // ----- One action of each kind -----

  ghost predicate Distinct(acts: seq<Act>) {
    forall i, j :: 0 <= i < j < |acts| ==> !acts[i].Same(acts[j])
  }

  ghost predicate HasSame(acts: seq<Act>, e: Act) {
    exists i :: 0 <= i < |acts| && e.Same(acts[i])
  }

  /** Each action of acts is the same as one of others. */
  ghost predicate AllAmong(acts: seq<Act>, others: seq<Act>) {
    forall e :: e in acts ==> HasSame(others, e)
  }

  lemma SameTerm(e: Act, o: Act, p: Period)
    requires e.ratio.Positive() && o.ratio.Positive() && e.Same(o)
    ensures Term(e, p) == Term(o, p)
  {
    EqualIsSameFactor(e.ratio, o.ratio);
  }

  /** Lists that hold one action of each of the same kinds have one factor over every span. */
  lemma SameActsSameProduct(xs: seq<Act>, ys: seq<Act>, p: Period)
    requires AllPositive(xs) && AllPositive(ys) && Distinct(xs) && Distinct(ys)
    requires AllAmong(xs, ys) && AllAmong(ys, xs)
    ensures Product(xs, p) == Product(ys, p)
  {
    SameActsSameTerms(xs, ys, p);
    TimesIgnoresOrder();
    FoldOfMultiset(Times, 1.0, Terms(xs, p), Terms(ys, p));
  }

  lemma {:induction false} SameActsSameTerms(xs: seq<Act>, ys: seq<Act>, p: Period)
    requires AllPositive(xs) && AllPositive(ys) && Distinct(xs) && Distinct(ys)
    requires AllAmong(xs, ys) && AllAmong(ys, xs)
    ensures multiset(Terms(xs, p)) == multiset(Terms(ys, p))
    decreases |xs|
  {
    if xs == [] {
      if ys != [] {
        SomeSame(ys, xs);
      }
    } else {
      var n := |xs| - 1;
      var front, last := xs[..n], xs[n];
      assert HasSame(ys, last);
      var j: nat :| j < |ys| && last.Same(ys[j]);
      PairedOff(xs, ys, j);
      SameActsSameTerms(front, Without(ys, j), p);
      SameTerm(last, ys[j], p);
      assert Terms(xs, p) == Terms(front, p) + [Term(last, p)];
      assert Terms(Without(ys, j), p) == Without(Terms(ys, p), j);
      WithoutMultiset(Terms(ys, p), j);
    }
  }

  lemma SomeSame(acts: seq<Act>, others: seq<Act>)
    requires acts != [] && AllAmong(acts, others)
    ensures others != []
  {
    assert HasSame(others, acts[0]);
  }

  lemma PairedOff(xs: seq<Act>, ys: seq<Act>, j: nat)
    requires AllPositive(xs) && AllPositive(ys) && Distinct(xs) && Distinct(ys)
    requires AllAmong(xs, ys) && AllAmong(ys, xs)
    requires xs != [] && j < |ys| && xs[|xs| - 1].Same(ys[j])
    ensures var front, rest := xs[..|xs| - 1], Without(ys, j);
      AllPositive(front) && AllPositive(rest) && Distinct(front) && Distinct(rest) && AllAmong(front, rest) && AllAmong(rest, front)
  {
    var n := |xs| - 1;
    var front, rest := xs[..n], Without(ys, j);
    assert forall i :: 0 <= i < |rest| ==> rest[i] == if i < j then ys[i] else ys[i + 1];
    forall e | e in front
      ensures HasSame(rest, e)
    {
      FrontAmong(xs, ys, j, e);
    }
    forall e | e in rest
      ensures HasSame(front, e)
    {
      RestAmong(xs, ys, j, e);
    }
  }

  lemma FrontAmong(xs: seq<Act>, ys: seq<Act>, j: nat, e: Act)
    requires AllPositive(xs) && AllPositive(ys) && Distinct(xs) && AllAmong(xs, ys)
    requires xs != [] && j < |ys| && xs[|xs| - 1].Same(ys[j]) && e in xs[..|xs| - 1]
    ensures HasSame(Without(ys, j), e)
  {
    var n := |xs| - 1;
    var i :| 0 <= i < n && xs[i] == e;
    assert !xs[i].Same(xs[n]);
    assert HasSame(ys, xs[i]);
    var k :| 0 <= k < |ys| && xs[i].Same(ys[k]);
    SameIsEquivalence(xs[n], ys[j], ys[j]);
    SameIsEquivalence(xs[i], ys[j], xs[n]);
    assert k != j;
    assert Without(ys, j)[if k < j then k else k - 1] == ys[k];
  }

  lemma RestAmong(xs: seq<Act>, ys: seq<Act>, j: nat, e: Act)
    requires AllPositive(xs) && AllPositive(ys) && Distinct(ys) && AllAmong(ys, xs)
    requires xs != [] && j < |ys| && xs[|xs| - 1].Same(ys[j]) && e in Without(ys, j)
    ensures HasSame(xs[..|xs| - 1], e)
  {
    var n := |xs| - 1;
    var m :| 0 <= m < |Without(ys, j)| && Without(ys, j)[m] == e;
    var i := if m < j then m else m + 1;
    assert ys[i] == e && i != j;
    assert !ys[i].Same(ys[j]) by {
      SameIsEquivalence(ys[i], ys[j], ys[j]);
    }
    assert HasSame(xs, ys[i]);
    var k :| 0 <= k < |xs| && ys[i].Same(xs[k]);
    SameIsEquivalence(ys[i], xs[n], ys[j]);
    assert k != n;
    assert xs[..n][k] == xs[k];
  }

  // ----- What the visits say of an instrument -----

  /** The days of the interval that p holds, and whether there are any. */
  function ClipTo(iv: Interval, p: Period): (r: (Period, bool))
    ensures forall d :: r.0.Contains(d) <==> iv.Contains(d) && p.Contains(d)
    ensures r.1 <==> r.0.Proper()
  {
    p.Clip(Period(if iv.from.Some? then iv.from.value else p.from, if iv.before.Some? then iv.before.value else p.before))
  }

  /** The visit is of a ticker of the instrument's market, on an interval that names it. */
  predicate Names(v: Visit, markets: map<int, string>, id: int) {
    v.interval.instr == id && id in markets && markets[id] == v.market
  }

  predicate Reports(v: Visit, markets: map<int, string>, id: int, e: Act) {
    Names(v, markets, id) && e in v.answer.acts && v.interval.Contains(e.exDate)
  }

  predicate CoversDay(v: Visit, markets: map<int, string>, id: int, d: int) {
    Names(v, markets, id) && v.interval.Contains(d) && AnyContains(v.answer.coverage, d)
  }

  /** Some ticker that named the instrument on its ex-date reports the action. */
  ghost predicate Reported(visits: seq<Visit>, markets: map<int, string>, id: int, e: Act) {
    exists v :: v in visits && Reports(v, markets, id, e)
  }

  ghost predicate UnknownOn(visits: seq<Visit>, markets: map<int, string>, id: int, d: int) {
    exists e :: Reported(visits, markets, id, e) && e.Unknown() && e.exDate == d
  }

  ghost predicate CoveredOn(visits: seq<Visit>, markets: map<int, string>, id: int, d: int) {
    exists v :: v in visits && CoversDay(v, markets, id, d)
  }

  /** One action of each kind that is reported. */
  ghost predicate OneOfEach(visits: seq<Visit>, markets: map<int, string>, id: int, acts: seq<Act>) {
    && Distinct(acts)
    && (forall e :: e in acts ==> Reported(visits, markets, id, e))
    && forall e :: Reported(visits, markets, id, e) ==> HasSame(acts, e)
  }

  /** The calendar holds what the visits say, whatever their order. */
  ghost predicate IsCalendar(visits: seq<Visit>, markets: map<int, string>, id: int, c: Calendar) {
    && Canonical(c.coverage)
    && (forall d :: AnyContains(c.coverage, d) <==> CoveredOn(visits, markets, id, d) && !UnknownOn(visits, markets, id, d))
    && OneOfEach(visits, markets, id, c.acts)
  }

  // ----- What a calendar holds, from the fields of the visits -----

  /** A ticker of the instrument's market named the instrument on d. */
  predicate NamedOn(v: Visit, markets: map<int, string>, id: int, d: int) {
    && v.interval.instr == id && id in markets && markets[id] == v.market
    && (v.interval.from.Some? ==> v.interval.from.value <= d) && (v.interval.before.Some? ==> d < v.interval.before.value)
  }

  /** A ticker that named the instrument on the ex-date of e reports e. */
  ghost predicate SeesAct(visits: seq<Visit>, markets: map<int, string>, id: int, e: Act) {
    exists v :: v in visits && NamedOn(v, markets, id, e.exDate) && e in v.answer.acts
  }

  ghost predicate SeesCover(visits: seq<Visit>, markets: map<int, string>, id: int, d: int) {
    exists v, p :: v in visits && NamedOn(v, markets, id, d) && p in v.answer.coverage && p.from <= d < p.before
  }

  ghost predicate SeesUnknown(visits: seq<Visit>, markets: map<int, string>, id: int, d: int) {
    exists e :: SeesAct(visits, markets, id, e) && e.exDate == d && (e.decision == OtherType || (e.decision == Undecided && !e.handled))
  }

  lemma SeesIs(visits: seq<Visit>, markets: map<int, string>, id: int, d: int)
    ensures forall e :: Reported(visits, markets, id, e) <==> SeesAct(visits, markets, id, e)
    ensures CoveredOn(visits, markets, id, d) <==> SeesCover(visits, markets, id, d)
    ensures UnknownOn(visits, markets, id, d) <==> SeesUnknown(visits, markets, id, d)
  {
    forall e
      ensures Reported(visits, markets, id, e) <==> SeesAct(visits, markets, id, e)
    {
      EffectsAre(e);
    }
    if v :| v in visits && CoversDay(v, markets, id, d) {
      var i :| 0 <= i < |v.answer.coverage| && v.answer.coverage[i].Contains(d);
      assert v.answer.coverage[i] in v.answer.coverage && NamedOn(v, markets, id, d);
    }
    if v, p :| v in visits && NamedOn(v, markets, id, d) && p in v.answer.coverage && p.from <= d < p.before {
      var i :| 0 <= i < |v.answer.coverage| && v.answer.coverage[i] == p;
      assert v.answer.coverage[i].Contains(d) && CoversDay(v, markets, id, d);
    }
    if e :| Reported(visits, markets, id, e) && e.Unknown() && e.exDate == d {
      EffectsAre(e);
    }
    if e :| SeesAct(visits, markets, id, e) && e.exDate == d && (e.decision == OtherType || (e.decision == Undecided && !e.handled)) {
      EffectsAre(e);
      assert Reported(visits, markets, id, e);
    }
  }

  /** o has e's day, ratio and effect. */
  predicate StandsFor(o: Act, e: Act) {
    o.exDate == e.exDate && e.ratio.from * o.ratio.to == e.ratio.to * o.ratio.from && CountsNow(e) == CountsNow(o)
  }

  /**
   * A calendar covers a day iff a ticker that named the instrument on it covers it, and none
   * reports an action of unknown effect on it; its actions are reported so, and each that is
   * reported has one of its day, ratio and effect there.
   */
  lemma CalendarTells(visits: seq<Visit>, markets: map<int, string>, id: int, c: Calendar, d: int, e: Act)
    requires IsCalendar(visits, markets, id, c)
    ensures (exists p :: p in c.coverage && p.from <= d < p.before) <==> SeesCover(visits, markets, id, d) && !SeesUnknown(visits, markets, id, d)
    ensures e in c.acts ==> SeesAct(visits, markets, id, e)
    ensures SeesAct(visits, markets, id, e) ==> exists o :: o in c.acts && StandsFor(o, e)
  {
    SeesIs(visits, markets, id, d);
    assert AnyContains(c.coverage, d) <==> exists p :: p in c.coverage && p.from <= d < p.before by {
      if i :| 0 <= i < |c.coverage| && c.coverage[i].Contains(d) {
        assert c.coverage[i] in c.coverage;
      }
      if p :| p in c.coverage && p.from <= d < p.before {
        var i :| 0 <= i < |c.coverage| && c.coverage[i] == p;
        assert c.coverage[i].Contains(d);
      }
    }
    if SeesAct(visits, markets, id, e) {
      assert Reported(visits, markets, id, e) && HasSame(c.acts, e);
      var i :| 0 <= i < |c.acts| && e.Same(c.acts[i]);
      EffectsAre(e);
      EffectsAre(c.acts[i]);
      assert c.acts[i] in c.acts && StandsFor(c.acts[i], e);
    }
  }

  ghost predicate PositiveReports(visits: seq<Visit>) {
    forall v :: v in visits ==> AllPositive(v.answer.acts)
  }

  lemma ReportsPositive(visits: seq<Visit>, markets: map<int, string>, id: int, acts: seq<Act>)
    requires PositiveReports(visits) && OneOfEach(visits, markets, id, acts)
    ensures AllPositive(acts)
  {
    forall e | e in acts
      ensures e.ratio.Positive()
    {
      assert Reported(visits, markets, id, e);
    }
  }

  /** Whatever order the answers are visited in, the coverage of an instrument and its factor over every span are the same. */
  lemma CalendarsIgnoreOrder(xs: seq<Visit>, ys: seq<Visit>, markets: map<int, string>, id: int, c: Calendar, o: Calendar, p: Period)
    requires PositiveReports(xs) && forall v :: v in xs <==> v in ys
    requires IsCalendar(xs, markets, id, c) && IsCalendar(ys, markets, id, o)
    ensures c.coverage == o.coverage
    ensures Product(c.acts, p) == Product(o.acts, p)
  {
    assert forall e :: Reported(xs, markets, id, e) <==> Reported(ys, markets, id, e);
    forall d
      ensures CoveredOn(xs, markets, id, d) <==> CoveredOn(ys, markets, id, d)
      ensures UnknownOn(xs, markets, id, d) <==> UnknownOn(ys, markets, id, d)
    {
    }
    assert SameDays(c.coverage, o.coverage);
    CanonicalUnique(c.coverage, o.coverage);
    ReportsPositive(xs, markets, id, c.acts);
    ReportsPositive(ys, markets, id, o.acts);
    SameActsSameProduct(c.acts, o.acts, p);
  }

  /**
   * Over a covered span the calendar knows every action that a ticker of the instrument reports:
   * each restates as the calendar says or was decided to have no effect.
   */
  lemma CoveredSpanKnown(visits: seq<Visit>, markets: map<int, string>, id: int, c: Calendar, p: Period, e: Act)
    requires IsCalendar(visits, markets, id, c) && Covers(c, p)
    requires Reported(visits, markets, id, e) && p.Contains(e.exDate)
    ensures !e.Unknown() && HasSame(c.acts, e)
  {
    assert AnyContains(c.coverage, e.exDate);
  }

  // ----- Gathering the calendars -----

  /** What is gathered of one instrument so far. */
  datatype Draft = Draft(coverage: seq<Period>, acts: seq<Act>, unknown: seq<int>)

  ghost predicate IsDraft(visits: seq<Visit>, markets: map<int, string>, id: int, f: Draft) {
    && AllProper(f.coverage)
    && (forall d :: AnyContains(f.coverage, d) <==> CoveredOn(visits, markets, id, d))
    && (forall d :: d in f.unknown <==> UnknownOn(visits, markets, id, d))
    && OneOfEach(visits, markets, id, f.acts)
  }

  ghost predicate NeverNamed(visits: seq<Visit>, markets: map<int, string>, id: int) {
    forall v :: v in visits ==> !Names(v, markets, id)
  }

  method AddCoverage(coverage: seq<Period>, iv: Interval, more: seq<Period>) returns (out: seq<Period>)
    requires AllProper(coverage)
    ensures AllProper(out)
    ensures forall d :: AnyContains(out, d) <==> AnyContains(coverage, d) || (iv.Contains(d) && AnyContains(more, d))
  {
    out := coverage;
    for i := 0 to |more|
      invariant AllProper(out)
      invariant forall d :: AnyContains(out, d) <==> AnyContains(coverage, d) || (iv.Contains(d) && AnyContains(more[..i], d))
    {
      var (p, ok) := ClipTo(iv, more[i]);
      ghost var was := out;
      if ok {
        out := out + [p];
      }
      assert more[..i + 1] == more[..i] + [more[i]];
      forall d
        ensures AnyContains(out, d) <==> AnyContains(coverage, d) || (iv.Contains(d) && AnyContains(more[..i + 1], d))
      {
        AnySplit(more[..i], [more[i]], d);
        AnyOne(more[i], d);
        AnySplit(was, [p], d);
        AnyOne(p, d);
      }
    }
    assert more[..|more|] == more;
  }

  /** Actions of an answer that the interval holds. */
  ghost predicate Held(iv: Interval, acts: seq<Act>, e: Act) {
    e in acts && iv.Contains(e.exDate)
  }

  /** acts and one action of each new kind of more that the interval holds. */
  ghost predicate ActsGrown(acts: seq<Act>, iv: Interval, more: seq<Act>, out: seq<Act>) {
    && (Distinct(acts) ==> Distinct(out))
    && acts <= out
    && (forall e :: e in out ==> e in acts || Held(iv, more, e))
    && forall e :: Held(iv, more, e) ==> HasSame(out, e)
  }

  method AddActs(f: Draft, iv: Interval, more: seq<Act>) returns (out: Draft)
    ensures out.coverage == f.coverage
    ensures forall d :: d in out.unknown <==> d in f.unknown || exists e :: Held(iv, more, e) && e.Unknown() && e.exDate == d
    ensures ActsGrown(f.acts, iv, more, out.acts)
  {
    out := f;
    for i := 0 to |more|
      invariant out.coverage == f.coverage
      invariant forall d :: d in out.unknown <==> d in f.unknown || exists e :: Held(iv, more[..i], e) && e.Unknown() && e.exDate == d
      invariant ActsGrown(f.acts, iv, more[..i], out.acts)
    {
      assert more[..i + 1] == more[..i] + [more[i]];
      var e := more[i];
      if iv.Contains(e.exDate) {
        assert Held(iv, more[..i + 1], e);
        if e.Unknown() {
          out := out.(unknown := out.unknown + [e.exDate]);
        }
        var known := exists a :: a in out.acts && e.Same(a);
        GrowsBy(f.acts, iv, more[..i], out.acts, e, known);
        if !known {
          out := out.(acts := out.acts + [e]);
        }
      }
    }
    assert more[..|more|] == more;
  }

  lemma GrowsBy(acts: seq<Act>, iv: Interval, more: seq<Act>, out: seq<Act>, e: Act, known: bool)
    requires ActsGrown(acts, iv, more, out) && iv.Contains(e.exDate)
    requires known <==> exists a :: a in out && e.Same(a)
    ensures ActsGrown(acts, iv, more + [e], if known then out else out + [e])
  {
    var next := if known then out else out + [e];
    SameIsEquivalence(e, e, e);
    assert HasSame(next, e) by {
      assert !known ==> next[|out|] == e;
    }
    forall x | Held(iv, more, x)
      ensures HasSame(next, x)
    {
      var i :| 0 <= i < |out| && x.Same(out[i]);
      assert next[i] == out[i];
    }
    forall x | x in out && !known
      ensures !x.Same(e)
    {
      SameIsEquivalence(x, e, e);
    }
  }

  lemma OneMoreVisit(visits: seq<Visit>, v: Visit, markets: map<int, string>, id: int)
    ensures forall e :: Reported(visits + [v], markets, id, e) <==> Reported(visits, markets, id, e) || Reports(v, markets, id, e)
    ensures forall d :: CoveredOn(visits + [v], markets, id, d) <==> CoveredOn(visits, markets, id, d) || CoversDay(v, markets, id, d)
  {
    forall e
      ensures Reported(visits, markets, id, e) || Reports(v, markets, id, e) ==> Reported(visits + [v], markets, id, e)
    {
      assert Reports(v, markets, id, e) ==> v in visits + [v];
    }
    forall d
      ensures CoveredOn(visits, markets, id, d) || CoversDay(v, markets, id, d) ==> CoveredOn(visits + [v], markets, id, d)
    {
      assert CoversDay(v, markets, id, d) ==> v in visits + [v];
    }
  }

  /** A visit that is not the instrument's changes nothing of it. */
  lemma DraftKept(visits: seq<Visit>, v: Visit, markets: map<int, string>, id: int, f: Draft)
    requires IsDraft(visits, markets, id, f) && !Names(v, markets, id)
    ensures IsDraft(visits + [v], markets, id, f)
  {
    OneMoreVisit(visits, v, markets, id);
    assert forall d :: UnknownOn(visits + [v], markets, id, d) <==> UnknownOn(visits, markets, id, d);
  }

  lemma NothingDrafted(visits: seq<Visit>, markets: map<int, string>, id: int)
    requires NeverNamed(visits, markets, id)
    ensures IsDraft(visits, markets, id, Draft([], [], []))
  {
  }

  lemma DraftNext(visits: seq<Visit>, v: Visit, markets: map<int, string>, id: int, f: Draft, out: Draft)
    requires IsDraft(visits, markets, id, f) && Names(v, markets, id)
    requires AllProper(out.coverage)
    requires forall d :: AnyContains(out.coverage, d) <==> AnyContains(f.coverage, d) || (v.interval.Contains(d) && AnyContains(v.answer.coverage, d))
    requires forall d :: d in out.unknown <==> d in f.unknown || exists e :: Held(v.interval, v.answer.acts, e) && e.Unknown() && e.exDate == d
    requires ActsGrown(f.acts, v.interval, v.answer.acts, out.acts)
    ensures IsDraft(visits + [v], markets, id, out)
  {
    OneMoreVisit(visits, v, markets, id);
    assert forall e :: Held(v.interval, v.answer.acts, e) <==> Reports(v, markets, id, e);
    UnknownNext(visits, v, markets, id);
    forall e | Reported(visits + [v], markets, id, e)
      ensures HasSame(out.acts, e)
    {
      if Reported(visits, markets, id, e) {
        var i :| 0 <= i < |f.acts| && e.Same(f.acts[i]);
        assert out.acts[i] == f.acts[i];
      }
    }
  }

  lemma UnknownNext(visits: seq<Visit>, v: Visit, markets: map<int, string>, id: int)
    requires Names(v, markets, id)
    ensures forall d ::
      (UnknownOn(visits + [v], markets, id, d)
       <==> UnknownOn(visits, markets, id, d) || exists e :: Held(v.interval, v.answer.acts, e) && e.Unknown() && e.exDate == d)
  {
    OneMoreVisit(visits, v, markets, id);
    assert forall e :: Held(v.interval, v.answer.acts, e) <==> Reports(v, markets, id, e);
  }

  // ----- Putting the actions in order -----

  predicate ByExDate(e: Act, o: Act) {
    e.exDate <= o.exDate
  }

  ghost predicate InDayOrder(acts: seq<Act>) {
    forall i, j :: 0 <= i < j < |acts| ==> acts[i].exDate <= acts[j].exDate
  }

  lemma {:induction false} InsertDistinct(x: Act, acts: seq<Act>)
    requires TotalPreorder(ByExDate) && SortedBy(ByExDate, acts)
    requires Distinct(acts) && forall e :: e in acts ==> !x.Same(e)
    ensures Distinct(Insert(ByExDate, x, acts))
  {
    if acts != [] && !ByExDate(x, acts[0]) {
      InsertDistinct(x, acts[1..]);
      var rest := Insert(ByExDate, x, acts[1..]);
      forall e | e in rest
        ensures !acts[0].Same(e)
      {
        assert e in multiset(rest);
        SameIsEquivalence(x, acts[0], acts[0]);
      }
    }
  }

  lemma {:induction false} SortDistinct(acts: seq<Act>)
    requires TotalPreorder(ByExDate) && Distinct(acts)
    ensures Distinct(StableSort(ByExDate, acts))
  {
    if acts != [] {
      var rest := StableSort(ByExDate, acts[1..]);
      SortDistinct(acts[1..]);
      SameElements(acts[1..], rest);
      InsertDistinct(acts[0], rest);
    }
  }

  lemma SortOneOfEach(visits: seq<Visit>, markets: map<int, string>, id: int, acts: seq<Act>)
    requires OneOfEach(visits, markets, id, acts)
    ensures TotalPreorder(ByExDate) && OneOfEach(visits, markets, id, StableSort(ByExDate, acts))
  {
    var sorted := StableSort(ByExDate, acts);
    SortDistinct(acts);
    SameElements(acts, sorted);
    forall e | Reported(visits, markets, id, e)
      ensures HasSame(sorted, e)
    {
      var i :| 0 <= i < |acts| && e.Same(acts[i]);
      assert acts[i] in sorted;
    }
  }

  method Finish(ghost visits: seq<Visit>, ghost markets: map<int, string>, ghost id: int, f: Draft) returns (c: Calendar)
    requires IsDraft(visits, markets, id, f)
    ensures IsCalendar(visits, markets, id, c)
    ensures InDayOrder(c.acts)
  {
    var left := Remove(f.coverage, f.unknown);
    var coverage := Union(left);
    SortOneOfEach(visits, markets, id, f.acts);
    c := Calendar(StableSort(ByExDate, f.acts), coverage);
  }

  /** Some ticker covers a day for the instrument that no unknown action takes out, or reports an action. */
  ghost predicate SaysAnything(visits: seq<Visit>, markets: map<int, string>, id: int) {
    || (exists d :: CoveredOn(visits, markets, id, d) && !UnknownOn(visits, markets, id, d))
    || (exists e :: Reported(visits, markets, id, e))
  }

  /** The calendar of each instrument that the visits say anything of, and of no other. */
  method Gather(visits: seq<Visit>, markets: map<int, string>) returns (out: map<int, Calendar>)
    ensures forall id :: id in out <==> SaysAnything(visits, markets, id)
    ensures forall id :: id in out ==> IsCalendar(visits, markets, id, out[id]) && InDayOrder(out[id].acts)
  {
    var built := Draw(visits, markets);
    out := map[];
    var ids := built.Keys;
    while ids != {}
      invariant ids <= built.Keys
      invariant forall id :: id in out ==> id in built && id !in ids && IsCalendar(visits, markets, id, out[id]) && InDayOrder(out[id].acts)
      invariant forall id :: id in built && id !in ids ==> (id in out <==> SaysAnything(visits, markets, id))
    {
      var id :| id in ids;
      var c := Finish(visits, markets, id, built[id]);
      EmptyCalendar(visits, markets, id, c);
      if |c.coverage| > 0 || |c.acts| > 0 {
        out := out[id := c];
      }
      ids := ids - {id};
    }
    forall id | id !in built
      ensures !SaysAnything(visits, markets, id)
    {
      assert NeverNamed(visits, markets, id);
    }
  }

  lemma EmptyCalendar(visits: seq<Visit>, markets: map<int, string>, id: int, c: Calendar)
    requires IsCalendar(visits, markets, id, c)
    ensures c.coverage == [] && c.acts == [] <==> !SaysAnything(visits, markets, id)
  {
    if c.coverage != [] {
      assert c.coverage[0].Contains(c.coverage[0].from);
      assert AnyContains(c.coverage, c.coverage[0].from);
    }
    if c.acts != [] {
      assert c.acts[0] in c.acts;
    }
  }

  /** What is gathered of each instrument that a visit names. */
  method Draw(visits: seq<Visit>, markets: map<int, string>) returns (built: map<int, Draft>)
    ensures forall id :: id in built ==> IsDraft(visits, markets, id, built[id])
    ensures forall id :: id !in built ==> NeverNamed(visits, markets, id)
  {
    built := map[];
    for n := 0 to |visits|
      invariant forall id :: id in built ==> IsDraft(visits[..n], markets, id, built[id])
      invariant forall id :: id !in built ==> NeverNamed(visits[..n], markets, id)
    {
      var v := visits[n];
      var id := v.interval.instr;
      assert visits[..n + 1] == visits[..n] + [v];
      forall other | other in built && !Names(v, markets, other)
        ensures IsDraft(visits[..n + 1], markets, other, built[other])
      {
        DraftKept(visits[..n], v, markets, other, built[other]);
      }
      if id in markets && markets[id] == v.market {
        var f := Draft([], [], []);
        if id in built {
          f := built[id];
        } else {
          NothingDrafted(visits[..n], markets, id);
        }
        var coverage := AddCoverage(f.coverage, v.interval, v.answer.coverage);
        var drawn := AddActs(f.(coverage := coverage), v.interval, v.answer.acts);
        DraftNext(visits[..n], v, markets, id, f, drawn);
        built := built[id := drawn];
      }
    }
    assert visits[..|visits|] == visits;
  }
}
