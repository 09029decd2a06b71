/** The spans of one part of the timeline and the intervals they derive (derive.go, spans to back). */
module Segments {
  import opened Options
  import opened Periods
  import opened Facts
  import opened Winners
  import opened Timelines

  /** Consecutive winners that name one thing. */
  datatype Span = Span(instr: Option<int>, from: int, before: int, head: Assertion, tail: Assertion) {
    predicate Contains(d: int) {
      from <= d < before
    }
  }

  /** A range of days over which a ticker names one instrument; an absent bound is open. */
  datatype Interval = Interval(from: Option<int>, before: Option<int>, instr: int, validity: Validity) {
    predicate Contains(d: int) {
      (from.None? || from.value <= d) && (before.None? || d < before.value)
    }

    predicate Proper() {
      from.None? || before.None? || from.value < before.value
    }
  }

  /** A change that two winning assertions imply, at the start of a day of the period. */
  datatype Inferred = Inferred(period: Period, from: Option<int>, to: Option<int>, earlier: Assertion, later: Assertion)

  // ----- Intervals -----

  /** What the first interval that holds d says. */
  function IntervalOn(ivs: seq<Interval>, d: int): Option<Holding> {
    if ivs == [] then None
    else if ivs[0].Contains(d) then Some(Holding(ivs[0].instr, ivs[0].validity))
    else IntervalOn(ivs[1..], d)
  }

  predicate Below(d: int, bound: Option<int>) {
    bound.None? || d < bound.value
  }

  predicate AtOrAfter(d: int, bound: Option<int>) {
    bound.None? || bound.value <= d
  }

  /** Bound a, as an end, is no later than bound b, as a start or a later end. */
  predicate EndsBy(a: Option<int>, b: Option<int>) {
    b.None? || (a.Some? && a.value <= b.value)
  }

  predicate Precedes(a: Interval, b: Interval) {
    a.before.Some? && b.from.Some? && a.before.value <= b.from.value
  }

  /** Non-empty intervals in the order of their days, no two of them sharing one. */
  ghost predicate OrderedIntervals(ivs: seq<Interval>) {
    && (forall i :: 0 <= i < |ivs| ==> ivs[i].Proper())
    && (forall i, j :: 0 <= i < j < |ivs| ==> Precedes(ivs[i], ivs[j]))
  }

  ghost predicate WithinBounds(ivs: seq<Interval>, start: Option<int>, end: Option<int>) {
    && (start.Some? ==> forall i :: 0 <= i < |ivs| ==> ivs[i].from.Some? && start.value <= ivs[i].from.value)
    && (end.Some? ==> forall i :: 0 <= i < |ivs| ==> ivs[i].before.Some? && ivs[i].before.value <= end.value)
  }

  lemma {:induction false} IntervalConcat(a: seq<Interval>, b: seq<Interval>, d: int)
    ensures IntervalOn(a + b, d) == if IntervalOn(a, d).Some? then IntervalOn(a, d) else IntervalOn(b, d)
  {
    if a == [] {
      assert a + b == b;
    } else {
      IntervalConcat(a[1..], b, d);
      assert (a + b)[1..] == a[1..] + b;
    }
  }

  lemma OrderedTail(ivs: seq<Interval>)
    requires OrderedIntervals(ivs) && ivs != []
    ensures OrderedIntervals(ivs[1..])
  {
  }

  lemma {:induction false} IntervalIn(ivs: seq<Interval>, i: nat, d: int)
    requires OrderedIntervals(ivs) && i < |ivs| && ivs[i].Contains(d)
    ensures IntervalOn(ivs, d) == Some(Holding(ivs[i].instr, ivs[i].validity))
  {
    if i > 0 {
      OrderedTail(ivs);
      assert Precedes(ivs[0], ivs[i]);
      IntervalIn(ivs[1..], i - 1, d);
    }
  }

  lemma {:induction false} IntervalOut(ivs: seq<Interval>, d: int)
    requires forall i :: 0 <= i < |ivs| ==> !ivs[i].Contains(d)
    ensures IntervalOn(ivs, d) == None
  {
    if ivs != [] {
      IntervalOut(ivs[1..], d);
    }
  }

  lemma IntervalOutside(ivs: seq<Interval>, start: Option<int>, end: Option<int>, d: int)
    requires WithinBounds(ivs, start, end)
    requires !AtOrAfter(d, start) || !Below(d, end)
    ensures IntervalOn(ivs, d) == None
  {
  }

  // ----- Spans -----

  /** x is the winners [i, j) of ws, which name one thing. */
  ghost predicate SpanOf(ws: seq<Winner>, part: (nat, nat), x: Span) {
    && part.0 < part.1 <= |ws|
    && x.from == ws[part.0].from && x.head == ws[part.0].assertion
    && x.before == ws[part.1 - 1].before && x.tail == ws[part.1 - 1].assertion
    && (forall i :: part.0 <= i < part.1 ==> ws[i].instr == x.instr)
  }

  ghost predicate Differ(ss: seq<Span>) {
    forall k, m :: 0 <= k && m == k + 1 < |ss| ==> ss[k].instr != ss[m].instr
  }

  /** ss are the spans of the first n winners: span k is the winners parts[k], and neighbours differ. */
  ghost predicate SpansBy(ws: seq<Winner>, n: nat, ss: seq<Span>, parts: seq<(nat, nat)>) {
    && |parts| == |ss|
    && n <= |ws|
    && (ss == [] <==> n == 0)
    && (ss != [] ==> parts[0].0 == 0 && parts[|ss| - 1].1 == n)
    && (forall k, m :: 0 <= k && m == k + 1 < |parts| ==> parts[k].1 == parts[m].0)
    && (forall k :: 0 <= k < |ss| ==> SpanOf(ws, parts[k], ss[k]))
    && Differ(ss)
  }

  ghost predicate AreSpans(ws: seq<Winner>, ss: seq<Span>) {
    exists parts :: SpansBy(ws, |ws|, ss, parts)
  }

  method Spans(ws: seq<Winner>) returns (ss: seq<Span>)
    ensures AreSpans(ws, ss)
  {
    ss := [];
    ghost var parts: seq<(nat, nat)> := [];
    for i := 0 to |ws|
      invariant SpansBy(ws, i, ss, parts)
    {
      var w := ws[i];
      var n := |ss|;
      if n > 0 && ss[n - 1].instr == w.instr {
        SpanGrows(ws, i, ss, parts);
        ss := ss[n - 1 := ss[n - 1].(before := w.before, tail := w.assertion)];
        parts := parts[n - 1 := (parts[n - 1].0, i + 1)];
      } else {
        SpanBegins(ws, i, ss, parts);
        ss := ss + [Span(w.instr, w.from, w.before, w.assertion, w.assertion)];
        parts := parts + [(i, i + 1)];
      }
    }
  }

  lemma SpanGrows(ws: seq<Winner>, i: nat, ss: seq<Span>, parts: seq<(nat, nat)>)
    requires i < |ws| && SpansBy(ws, i, ss, parts) && ss != [] && ss[|ss| - 1].instr == ws[i].instr
    ensures var n := |ss| - 1;
      SpansBy(ws, i + 1, ss[n := ss[n].(before := ws[i].before, tail := ws[i].assertion)], parts[n := (parts[n].0, i + 1)])
  {
    var n := |ss| - 1;
    var part, x := (parts[n].0, i + 1), ss[n].(before := ws[i].before, tail := ws[i].assertion);
    assert SpanOf(ws, parts[n], ss[n]);
    assert SpanOf(ws, part, x);
  }

  lemma SpanBegins(ws: seq<Winner>, i: nat, ss: seq<Span>, parts: seq<(nat, nat)>)
    requires i < |ws| && SpansBy(ws, i, ss, parts) && (ss != [] ==> ss[|ss| - 1].instr != ws[i].instr)
    ensures SpansBy(ws, i + 1, ss + [Span(ws[i].instr, ws[i].from, ws[i].before, ws[i].assertion, ws[i].assertion)], parts + [(i, i + 1)])
  {
    assert SpanOf(ws, (i, i + 1), Span(ws[i].instr, ws[i].from, ws[i].before, ws[i].assertion, ws[i].assertion));
  }

  /** The spans are in order and neighbours differ. */
  ghost predicate OrderedSpans(ss: seq<Span>) {
    && (forall k :: 0 <= k < |ss| ==> ss[k].from < ss[k].before)
    && (forall k, m :: 0 <= k < m < |ss| ==> ss[k].before <= ss[m].from)
    && Differ(ss)
  }

  lemma {:induction false} PartsGrow(ws: seq<Winner>, ss: seq<Span>, parts: seq<(nat, nat)>, k: nat, m: nat)
    requires SpansBy(ws, |ws|, ss, parts) && k < m < |ss|
    ensures parts[k].1 <= parts[m].0
    decreases m - k
  {
    if k < m - 1 {
      PartsGrow(ws, ss, parts, k, m - 1);
      assert SpanOf(ws, parts[m - 1], ss[m - 1]);
    }
  }

  lemma SpansOrdered(ws: seq<Winner>, ss: seq<Span>)
    requires OrderedWinners(ws) && AreSpans(ws, ss)
    ensures OrderedSpans(ss)
  {
    var parts: seq<(nat, nat)> :| SpansBy(ws, |ws|, ss, parts);
    forall k | 0 <= k < |ss|
      ensures ss[k].from < ss[k].before
    {
      assert SpanOf(ws, parts[k], ss[k]);
    }
    forall k, m | 0 <= k < m < |ss|
      ensures ss[k].before <= ss[m].from
    {
      PartsGrow(ws, ss, parts, k, m);
      SpanPrecedes(ws, parts[k], parts[m], ss[k], ss[m]);
    }
  }

  lemma SpanPrecedes(ws: seq<Winner>, p: (nat, nat), q: (nat, nat), x: Span, y: Span)
    requires OrderedWinners(ws) && SpanOf(ws, p, x) && SpanOf(ws, q, y) && p.1 <= q.0
    ensures x.before <= y.from
  {
  }

  lemma {:induction false} PartHolding(ws: seq<Winner>, ss: seq<Span>, parts: seq<(nat, nat)>, n: nat, i: nat) returns (k: nat)
    requires SpansBy(ws, |ws|, ss, parts) && 0 < n <= |ss| && i < parts[n - 1].1
    ensures k < n && parts[k].0 <= i < parts[k].1
  {
    if parts[n - 1].0 <= i {
      k := n - 1;
    } else {
      assert n > 1;
      k := PartHolding(ws, ss, parts, n - 1, i);
    }
  }

  /** Winner i lies within a span that names the same. */
  lemma WinnerInSpan(ws: seq<Winner>, ss: seq<Span>, i: nat) returns (k: nat)
    requires OrderedWinners(ws) && AreSpans(ws, ss) && i < |ws|
    ensures k < |ss| && ss[k].instr == ws[i].instr
    ensures ss[k].from <= ws[i].from && ws[i].before <= ss[k].before
  {
    var parts: seq<(nat, nat)> :| SpansBy(ws, |ws|, ss, parts);
    k := PartHolding(ws, ss, parts, |ss|, i);
    assert SpanOf(ws, parts[k], ss[k]);
  }

  /** A span starts with a winner and ends with one. */
  lemma SpanEnds(ws: seq<Winner>, ss: seq<Span>, k: nat) returns (i: nat, j: nat)
    requires OrderedWinners(ws) && AreSpans(ws, ss) && k < |ss|
    ensures i < |ws| && ws[i].from == ss[k].from && ws[i].instr == ss[k].instr
    ensures j < |ws| && ws[j].before == ss[k].before && ws[j].instr == ss[k].instr
  {
    var parts: seq<(nat, nat)> :| SpansBy(ws, |ws|, ss, parts);
    assert SpanOf(ws, parts[k], ss[k]);
    i, j := parts[k].0, parts[k].1 - 1;
  }

  // ----- Reaching through coverage -----

  /** to is the end of the unbroken coverage from d, cut to the limit. */
  ghost predicate ReachesTo(cover: seq<Period>, d: int, limit: Option<int>, to: int) {
    && d <= to && (limit.Some? ==> to <= limit.value)
    && (forall e :: d <= e < to ==> AnyContains(cover, e))
    && (limit == Some(to) || !AnyContains(cover, to))
  }

  /** from is the start of the unbroken coverage up to d, cut to the limit. */
  ghost predicate ReachesBack(cover: seq<Period>, d: int, limit: Option<int>, from: int) {
    && from <= d && (limit.Some? ==> limit.value <= from)
    && (forall e :: from <= e < d ==> AnyContains(cover, e))
    && (limit == Some(from) || !AnyContains(cover, from - 1))
  }

  lemma CanonicalHolds(cover: seq<Period>, i: nat, e: int)
    requires Canonical(cover) && i < |cover|
    requires cover[i].from <= e < cover[i].before
    ensures AnyContains(cover, e)
  {
  }

  /** The end of a confirmed range, extended through covered days no further than limit. */
  method Forward(d: int, limit: Option<int>, cover: seq<Period>) returns (to: int)
    requires Canonical(cover)
    ensures limit.Some? && limit.value < d ==> to == limit.value
    ensures limit.None? || d <= limit.value ==> ReachesTo(cover, d, limit, to)
  {
    to := d;
    for i := 0 to |cover|
      invariant d <= to
      invariant forall e :: d <= e < to ==> AnyContains(cover, e)
      invariant forall k :: 0 <= k < i ==> !cover[k].Contains(to)
      invariant to == d || exists k :: 0 <= k < i && cover[k].before == to
    {
      if cover[i].Contains(to) {
        forall e | to <= e < cover[i].before
          ensures AnyContains(cover, e)
        {
          CanonicalHolds(cover, i, e);
        }
        to := cover[i].before;
      }
    }
    if limit.Some? && limit.value < to {
      to := limit.value;
    }
  }

  /** The start of a confirmed range, extended through covered days no further than limit. */
  method Back(d: int, limit: Option<int>, cover: seq<Period>) returns (from: int)
    requires Canonical(cover)
    ensures limit.Some? && d < limit.value ==> from == limit.value
    ensures limit.None? || limit.value <= d ==> ReachesBack(cover, d, limit, from)
  {
    from := d;
    for i := |cover| downto 0
      invariant from <= d
      invariant forall e :: from <= e < d ==> AnyContains(cover, e)
      invariant forall k :: i <= k < |cover| ==> !cover[k].Contains(from - 1)
    {
      if cover[i].Contains(from - 1) {
        forall e | cover[i].from <= e < from
          ensures AnyContains(cover, e)
        {
          CanonicalHolds(cover, i, e);
        }
        from := cover[i].from;
      }
    }
    if limit.Some? && from < limit.value {
      from := limit.value;
    }
  }

  // ----- One part of the timeline -----

  /** Where the days after span k end: at the next span, or at the end of the part. */
  function CeilOf(ss: seq<Span>, k: nat, end: Option<int>): Option<int> {
    if k + 1 < |ss| then Some(ss[k + 1].from) else end
  }

  /** How far back the span after k may extend. */
  function FloorAfter(ss: seq<Span>, k: nat, end: Option<int>): Option<int>
    requires k < |ss|
  {
    if ss[k].instr.None? then Some(ss[k].before) else CeilOf(ss, k, end)
  }

  predicate InPart(d: int, start: Option<int>, end: Option<int>) {
    AtOrAfter(d, start) && Below(d, end)
  }

  predicate StrictlyInside(c: int, start: Option<int>, end: Option<int>) {
    (start.None? || start.value < c) && Below(c, end)
  }

  /** If an assertion wins e, a span that names the same holds it. */
  ghost predicate InItsSpan(t: Timeline, ss: seq<Span>, e: int) {
    t.name(e) == Silent || exists k :: 0 <= k < |ss| && ss[k].Contains(e) && t.name(e) == NameOf(ss[k].instr)
  }

  /** ss are the spans of the days from start to end, which are neighbouring cuts of the timeline. */
  ghost predicate Fits(t: Timeline, ss: seq<Span>, start: Option<int>, end: Option<int>) {
    && OrderedSpans(ss)
    && (start.Some? ==> start.value in t.cuts)
    && (end.Some? ==> end.value in t.cuts)
    && (forall c :: c in t.cuts ==> !StrictlyInside(c, start, end))
    && (forall k :: 0 <= k < |ss| ==> InPart(ss[k].from, start, end) && InPart(ss[k].before - 1, start, end))
    && (forall k :: 0 <= k < |ss| ==> t.name(ss[k].from) == NameOf(ss[k].instr) == t.name(ss[k].before - 1))
    && (forall e {:trigger InItsSpan(t, ss, e)} :: InPart(e, start, end) ==> InItsSpan(t, ss, e))
  }

  ghost predicate CoverIs(t: Timeline, cover: seq<Period>) {
    Canonical(cover) && forall d :: t.covered(d) <==> AnyContains(cover, d)
  }

  lemma NotApart(t: Timeline, ss: seq<Span>, start: Option<int>, end: Option<int>, lo: int, hi: int)
    requires Fits(t, ss, start, end) && InPart(lo, start, end) && InPart(hi, start, end)
    ensures !t.Apart(lo, hi)
  {
  }

  /** The named days nearest to a day of the part are in the part too, or there are none. */
  lemma NearestInPart(t: Timeline, ss: seq<Span>, start: Option<int>, end: Option<int>, d: int)
    requires Fits(t, ss, start, end) && InPart(d, start, end)
    ensures forall p :: t.Prev(d, p) ==> InPart(p, start, end)
    ensures forall n :: t.Next(d, n) ==> InPart(n, start, end)
  {
  }

  lemma SpanOnce(ss: seq<Span>, j: nat, k: nat, e: int)
    requires OrderedSpans(ss) && j < |ss| && k < |ss|
    requires ss[j].Contains(e) && ss[k].Contains(e)
    ensures j == k
  {
  }

  /** A named day inside the days of span k is named as span k is. */
  lemma NamedAs(t: Timeline, ss: seq<Span>, start: Option<int>, end: Option<int>, k: nat, e: int)
    requires Fits(t, ss, start, end) && k < |ss| && ss[k].Contains(e)
    ensures t.name(e) != Silent ==> t.name(e) == NameOf(ss[k].instr)
  {
    assert InItsSpan(t, ss, e);
    if t.name(e) != Silent {
      var j :| 0 <= j < |ss| && ss[j].Contains(e) && t.name(e) == NameOf(ss[j].instr);
      SpanOnce(ss, j, k, e);
    }
  }

  lemma DayInSpan(t: Timeline, ss: seq<Span>, start: Option<int>, end: Option<int>, k: nat, d: int)
    requires Fits(t, ss, start, end) && k < |ss| && ss[k].Contains(d)
    ensures t.On(d) == if ss[k].instr.Some? then Some(Holding(ss[k].instr.value, Confirmed)) else None
  {
    var r := ss[k];
    assert InPart(d, start, end);
    NotApart(t, ss, start, end, r.from, d);
    NotApart(t, ss, start, end, d, r.before - 1);
    var p := t.PrevFrom(r.from, d);
    var n := t.NextUpTo(d, r.before - 1);
    NamedAs(t, ss, start, end, k, p);
    NamedAs(t, ss, start, end, k, n);
    if r.instr.Some? {
      t.AfterInstr(d, p, r.instr.value);
    } else {
      t.AfterNothing(d, p);
      t.NextIs(d, n);
    }
  }

  /** No assertion wins a day between spans, before the first one or after the last. */
  lemma SilentBetween(t: Timeline, ss: seq<Span>, start: Option<int>, end: Option<int>, k: int, e: int)
    requires Fits(t, ss, start, end) && InPart(e, start, end) && -1 <= k < |ss|
    requires k >= 0 ==> ss[k].before <= e
    requires k + 1 < |ss| ==> e < ss[k + 1].from
    ensures t.name(e) == Silent
  {
    assert InItsSpan(t, ss, e);
    forall j | 0 <= j < |ss|
      ensures !ss[j].Contains(e)
    {
      assert j < k ==> ss[j].before <= ss[k].from;
      assert k + 1 < j ==> ss[k + 1].before <= ss[j].from;
    }
  }

  lemma SpanFollows(t: Timeline, ss: seq<Span>, start: Option<int>, end: Option<int>, k: int, d: int)
    requires Fits(t, ss, start, end) && InPart(d, start, end) && -1 <= k && k + 1 < |ss|
    requires k >= 0 ==> ss[k].before <= d
    requires d < ss[k + 1].from
    ensures t.Next(d, ss[k + 1].from)
  {
    forall e | d <= e < ss[k + 1].from
      ensures t.name(e) == Silent
    {
      SilentBetween(t, ss, start, end, k, e);
    }
    NotApart(t, ss, start, end, d, ss[k + 1].from);
  }

  lemma NothingFollows(t: Timeline, ss: seq<Span>, start: Option<int>, end: Option<int>, d: int)
    requires Fits(t, ss, start, end) && InPart(d, start, end)
    requires ss != [] ==> ss[|ss| - 1].before <= d
    ensures forall n :: !t.Next(d, n)
  {
    NearestInPart(t, ss, start, end, d);
    forall n | InPart(n, start, end) && d <= n
      ensures t.name(n) == Silent
    {
      SilentBetween(t, ss, start, end, |ss| - 1, n);
    }
  }

  lemma DayAfterSpan(t: Timeline, ss: seq<Span>, start: Option<int>, end: Option<int>, k: nat, d: int)
    requires Fits(t, ss, start, end) && k < |ss| && InPart(d, start, end)
    requires ss[k].before <= d && Below(d, CeilOf(ss, k, end))
    ensures ss[k].instr.Some? ==>
              t.On(d) == Some(Holding(ss[k].instr.value, if t.CoveredOn(ss[k].before, d + 1) then Confirmed else Provisional))
    ensures ss[k].instr.None? && k + 1 == |ss| ==> t.On(d) == None
    ensures ss[k].instr.None? && k + 1 < |ss| ==> ss[k + 1].instr.Some?
    ensures ss[k].instr.None? && k + 1 < |ss| ==>
              t.On(d) == if t.CoveredOn(d, ss[k + 1].from) then Some(Holding(ss[k + 1].instr.value, Confirmed)) else None
  {
    var p := ss[k].before - 1;
    forall e | p < e <= d
      ensures t.name(e) == Silent
    {
      SilentBetween(t, ss, start, end, k, e);
    }
    NotApart(t, ss, start, end, p, d);
    assert t.Prev(d, p);
    if k + 1 < |ss| {
      var n := ss[k + 1].from;
      SpanFollows(t, ss, start, end, k, d);
      t.NextIs(d, n);
      forall m | t.Next(d, m)
        ensures m == n
      {
        t.NextOnce(d, n, m);
      }
      assert ss[k].instr != ss[k + 1].instr;
    } else {
      NothingFollows(t, ss, start, end, d);
      t.NoNext(d);
    }
    if ss[k].instr.Some? {
      t.AfterInstr(d, p, ss[k].instr.value);
    } else {
      t.AfterNothing(d, p);
    }
  }

  lemma DayBeforeSpans(t: Timeline, ss: seq<Span>, start: Option<int>, end: Option<int>, d: int)
    requires Fits(t, ss, start, end) && InPart(d, start, end)
    requires ss != [] ==> d < ss[0].from
    ensures ss == [] || ss[0].instr.None? ==> t.On(d) == None
    ensures ss != [] && ss[0].instr.Some? ==>
              t.On(d) == Some(Holding(ss[0].instr.value, if t.CoveredOn(d, ss[0].from) then Confirmed else Provisional))
  {
    NearestInPart(t, ss, start, end, d);
    forall e | InPart(e, start, end) && e <= d
      ensures t.name(e) == Silent
    {
      SilentBetween(t, ss, start, end, -1, e);
    }
    assert forall p :: !t.Prev(d, p);
    if ss == [] {
      NothingFollows(t, ss, start, end, d);
      t.NoNext(d);
    } else {
      SpanFollows(t, ss, start, end, -1, d);
      t.NextIs(d, ss[0].from);
    }
  }

  // ----- The segment loop -----

  /** The intervals span k adds, whose confirmed days are [from, to). */
  function NewIntervals(first: bool, floor: Option<int>, from: int, to: int, ceil: Option<int>, x: int): seq<Interval> {
    (if first && (floor.None? || floor.value < from) then [Interval(floor, Some(from), x, Provisional)] else [])
    + [Interval(Some(from), Some(to), x, Confirmed)]
    + (if ceil.None? || to < ceil.value then [Interval(Some(to), ceil, x, Provisional)] else [])
  }

  /** What a day from the floor of a span of x to its ceiling names. */
  function SpanDay(first: bool, from: int, to: int, x: int, d: int): Option<Holding> {
    if d < from then (if first then Some(Holding(x, Provisional)) else None)
    else Some(Holding(x, if d < to then Confirmed else Provisional))
  }

  lemma NewIntervalsShow(first: bool, floor: Option<int>, from: int, to: int, ceil: Option<int>, x: int)
    requires from < to && (floor.None? || floor.value <= from) && (ceil.None? || to <= ceil.value)
    ensures var ivs := NewIntervals(first, floor, from, to, ceil, x);
      && OrderedIntervals(ivs)
      && WithinBounds(ivs, floor, ceil)
      && (forall d :: InPart(d, floor, ceil) ==> IntervalOn(ivs, d) == SpanDay(first, from, to, x, d))
  {
    var a := if first && (floor.None? || floor.value < from) then [Interval(floor, Some(from), x, Provisional)] else [];
    var b := [Interval(Some(from), Some(to), x, Confirmed)];
    var c := if ceil.None? || to < ceil.value then [Interval(Some(to), ceil, x, Provisional)] else [];
    assert OrderedIntervals(a + b + c) && WithinBounds(a + b + c, floor, ceil);
    forall d | InPart(d, floor, ceil)
      ensures IntervalOn(a + b + c, d) == SpanDay(first, from, to, x, d)
    {
      IntervalConcat(a + b, c, d);
      IntervalConcat(a, b, d);
      AtMostOne(a, d);
      AtMostOne(b, d);
      AtMostOne(c, d);
    }
  }

  lemma AtMostOne(ivs: seq<Interval>, d: int)
    requires |ivs| <= 1
    ensures IntervalOn(ivs, d) == if ivs != [] && ivs[0].Contains(d) then Some(Holding(ivs[0].instr, ivs[0].validity)) else None
  {
    assert ivs != [] ==> ivs[1..] == [];
  }

  /** What each day from the floor of span k to its ceiling names, by what the two extensions reach. */
  lemma SpanDays(t: Timeline, ss: seq<Span>, start: Option<int>, end: Option<int>, cover: seq<Period>,
      k: nat, floor: Option<int>, from: int, to: int, d: int)
    requires Fits(t, ss, start, end) && CoverIs(t, cover) && k < |ss| && ss[k].instr.Some?
    requires floor == if k == 0 then start else FloorAfter(ss, k - 1, end)
    requires ReachesBack(cover, ss[k].from, floor, from)
    requires ReachesTo(cover, ss[k].before, CeilOf(ss, k, end), to)
    requires InPart(d, start, end) && InPart(d, floor, CeilOf(ss, k, end))
    ensures t.On(d) == SpanDay(k == 0, from, to, ss[k].instr.value, d)
  {
    if d < ss[k].from {
      assert k > 0 ==> ss[k - 1].instr.None?;
      if k == 0 {
        DayBeforeSpans(t, ss, start, end, d);
      } else {
        DayAfterSpan(t, ss, start, end, k - 1, d);
      }
      assert d < from ==> !t.covered(from - 1);
    } else if d < ss[k].before {
      DayInSpan(t, ss, start, end, k, d);
    } else {
      DayAfterSpan(t, ss, start, end, k, d);
      assert to <= d ==> !t.covered(to);
    }
  }

  /** On d the intervals say what the timeline names. */
  ghost predicate Agrees(t: Timeline, ivs: seq<Interval>, d: int) {
    IntervalOn(ivs, d) == t.On(d)
  }

  /** What the loop has derived when it has looked at the first k spans. */
  ghost predicate SegmentSoFar(t: Timeline, ss: seq<Span>, start: Option<int>, end: Option<int>, k: nat,
      floor: Option<int>, ivs: seq<Interval>) {
    && k <= |ss|
    && floor == (if k == 0 then start else FloorAfter(ss, k - 1, end))
    && (k == 0 ==> ivs == [])
    && OrderedIntervals(ivs)
    && WithinBounds(ivs, start, floor)
    && (forall d {:trigger Agrees(t, ivs, d)} :: k > 0 && InPart(d, start, end) && Below(d, floor) ==> Agrees(t, ivs, d))
  }

  lemma SegmentNothing(t: Timeline, ss: seq<Span>, start: Option<int>, end: Option<int>, k: nat,
      floor: Option<int>, ivs: seq<Interval>)
    requires Fits(t, ss, start, end) && k < |ss| && ss[k].instr.None?
    requires SegmentSoFar(t, ss, start, end, k, floor, ivs)
    ensures SegmentSoFar(t, ss, start, end, k + 1, Some(ss[k].before), ivs)
  {
    assert k > 0 ==> floor == Some(ss[k].from);
    forall d | InPart(d, start, end) && d < ss[k].before
      ensures Agrees(t, ivs, d)
    {
      if ss[k].from <= d {
        DayInSpan(t, ss, start, end, k, d);
        if k > 0 {
          IntervalOutside(ivs, start, floor, d);
        }
      } else if k == 0 {
        DayBeforeSpans(t, ss, start, end, d);
      }
    }
  }

  /** Bounds of the part, of the span and of its neighbours are in order. */
  lemma FloorBeforeSpan(t: Timeline, ss: seq<Span>, start: Option<int>, end: Option<int>, k: nat, floor: Option<int>)
    requires Fits(t, ss, start, end) && k < |ss|
    requires floor == if k == 0 then start else FloorAfter(ss, k - 1, end)
    ensures floor.None? || floor.value <= ss[k].from
    ensures CeilOf(ss, k, end).None? || ss[k].before <= CeilOf(ss, k, end).value
    ensures k > 0 ==> floor.Some? && AtOrAfter(floor.value, start)
    ensures k > 0 ==> EndsBy(floor, end)
    ensures EndsBy(CeilOf(ss, k, end), end)
  {
  }

  lemma SegmentInstr(t: Timeline, ss: seq<Span>, start: Option<int>, end: Option<int>, cover: seq<Period>, k: nat,
      floor: Option<int>, from: int, to: int, ivs: seq<Interval>)
    requires Fits(t, ss, start, end) && CoverIs(t, cover) && k < |ss| && ss[k].instr.Some?
    requires SegmentSoFar(t, ss, start, end, k, floor, ivs)
    requires ReachesBack(cover, ss[k].from, floor, from)
    requires ReachesTo(cover, ss[k].before, CeilOf(ss, k, end), to)
    ensures SegmentSoFar(t, ss, start, end, k + 1, CeilOf(ss, k, end),
              ivs + NewIntervals(k == 0, floor, from, to, CeilOf(ss, k, end), ss[k].instr.value))
  {
    var x, ceil := ss[k].instr.value, CeilOf(ss, k, end);
    var new' := NewIntervals(k == 0, floor, from, to, ceil, x);
    FloorBeforeSpan(t, ss, start, end, k, floor);
    NewIntervalsShow(k == 0, floor, from, to, ceil, x);
    forall d | InPart(d, start, end) && Below(d, ceil)
      ensures Agrees(t, ivs + new', d)
    {
      SegmentDay(t, ss, start, end, cover, k, floor, from, to, ivs, d);
    }
    OrderedConcat(ivs, new', start, floor, ceil, k == 0);
  }

  lemma SegmentDay(t: Timeline, ss: seq<Span>, start: Option<int>, end: Option<int>, cover: seq<Period>, k: nat,
      floor: Option<int>, from: int, to: int, ivs: seq<Interval>, d: int)
    requires Fits(t, ss, start, end) && CoverIs(t, cover) && k < |ss| && ss[k].instr.Some?
    requires SegmentSoFar(t, ss, start, end, k, floor, ivs)
    requires ReachesBack(cover, ss[k].from, floor, from)
    requires ReachesTo(cover, ss[k].before, CeilOf(ss, k, end), to)
    requires InPart(d, start, end) && Below(d, CeilOf(ss, k, end))
    ensures Agrees(t, ivs + NewIntervals(k == 0, floor, from, to, CeilOf(ss, k, end), ss[k].instr.value), d)
  {
    var x, ceil := ss[k].instr.value, CeilOf(ss, k, end);
    var new' := NewIntervals(k == 0, floor, from, to, ceil, x);
    FloorBeforeSpan(t, ss, start, end, k, floor);
    NewIntervalsShow(k == 0, floor, from, to, ceil, x);
    IntervalConcat(ivs, new', d);
    if k > 0 && Below(d, floor) {
      IntervalOutside(new', floor, ceil, d);
      assert Agrees(t, ivs, d);
    } else {
      if k > 0 {
        IntervalOutside(ivs, start, floor, d);
      }
      SpanDays(t, ss, start, end, cover, k, floor, from, to, d);
    }
  }

  lemma OrderedConcat(a: seq<Interval>, b: seq<Interval>, start: Option<int>, mid: Option<int>, end: Option<int>, first: bool)
    requires OrderedIntervals(a) && OrderedIntervals(b)
    requires WithinBounds(a, start, mid) && WithinBounds(b, mid, end)
    requires first ==> a == [] && mid == start
    requires !first ==> mid.Some? && AtOrAfter(mid.value, start) && (end.None? || mid.value <= end.value)
    ensures OrderedIntervals(a + b) && WithinBounds(a + b, start, end)
  {
  }

  /** inferred are the changes between neighbouring spans, each over the days it may have taken effect. */
  ghost predicate AreInferred(ss: seq<Span>, n: nat, cover: seq<Period>, inferred: seq<Inferred>) {
    && |inferred| == n <= |ss|
    && forall k, m :: 0 <= k < n && m == k + 1 < |ss| ==> InferredOf(ss[k], ss[m], cover, inferred[k])
  }

  ghost predicate InferredOf(a: Span, b: Span, cover: seq<Period>, x: Inferred) {
    && x.from == a.instr && x.to == b.instr && x.earlier == a.tail && x.later == b.head
    && x.period.before == b.from + 1
    && if a.instr.None? then x.period.from == a.before else ReachesTo(cover, a.before, Some(b.from), x.period.from)
  }

  lemma InferredGrows(ss: seq<Span>, k: nat, cover: seq<Period>, inferred: seq<Inferred>, x: Inferred)
    requires k + 1 < |ss| && AreInferred(ss, k, cover, inferred)
    requires InferredOf(ss[k], ss[k + 1], cover, x)
    ensures AreInferred(ss, k + 1, cover, inferred + [x])
  {
  }

  /** The number of changes found when the loop has looked at k of n spans. */
  function Changes(k: nat, n: nat): nat {
    if 0 < k == n then k - 1 else k
  }

  /** The intervals with those of span k, and how far back the next span may extend. */
  method AddSpan(ghost t: Timeline, ghost ss: seq<Span>, ghost start: Option<int>, ghost end: Option<int>, cover: seq<Period>,
      k: nat, r: Span, floor: Option<int>, ceil: Option<int>, ivs: seq<Interval>)
      returns (out: seq<Interval>, next: Option<int>)
    requires Fits(t, ss, start, end) && CoverIs(t, cover) && k < |ss| && r == ss[k] && ceil == CeilOf(ss, k, end)
    requires SegmentSoFar(t, ss, start, end, k, floor, ivs)
    ensures SegmentSoFar(t, ss, start, end, k + 1, next, out)
  {
    FloorBeforeSpan(t, ss, start, end, k, floor);
    if r.instr.None? {
      SegmentNothing(t, ss, start, end, k, floor, ivs);
      out, next := ivs, Some(r.before);
    } else {
      var from := Back(r.from, floor, cover);
      var to := Forward(r.before, ceil, cover);
      SegmentInstr(t, ss, start, end, cover, k, floor, from, to, ivs);
      out, next := ivs + NewIntervals(k == 0, floor, from, to, ceil, r.instr.value), ceil;
    }
  }

  /** The change that two neighbouring spans infer. */
  method Infer(a: Span, b: Span, cover: seq<Period>) returns (x: Inferred)
    requires Canonical(cover) && a.before <= b.from
    ensures InferredOf(a, b, cover, x)
  {
    var took := a.before;
    if a.instr.Some? {
      took := Forward(took, Some(b.from), cover);
    }
    x := Inferred(Period(took, b.from + 1), a.instr, b.instr, a.tail, b.head);
  }

  /** The intervals of the spans between two cuts; an absent cut is an open end of the ticker. */
  method Segment(ghost t: Timeline, ss: seq<Span>, start: Option<int>, end: Option<int>, cover: seq<Period>)
      returns (ivs: seq<Interval>, inferred: seq<Inferred>)
    requires Fits(t, ss, start, end) && CoverIs(t, cover)
    ensures forall d {:trigger Agrees(t, ivs, d)} :: InPart(d, start, end) ==> Agrees(t, ivs, d)
    ensures OrderedIntervals(ivs) && WithinBounds(ivs, start, end)
    ensures AreInferred(ss, if ss == [] then 0 else |ss| - 1, cover, inferred)
  {
    ivs, inferred := [], [];
    var floor := start;
    for k := 0 to |ss|
      invariant SegmentSoFar(t, ss, start, end, k, floor, ivs)
      invariant AreInferred(ss, Changes(k, |ss|), cover, inferred)
    {
      var ceil := if k + 1 < |ss| then Some(ss[k + 1].from) else end;
      ivs, floor := AddSpan(t, ss, start, end, cover, k, ss[k], floor, ceil, ivs);
      if k + 1 < |ss| {
        var x := Infer(ss[k], ss[k + 1], cover);
        InferredGrows(ss, k, cover, inferred, x);
        inferred := inferred + [x];
      }
    }
    SegmentEnd(t, ss, start, end, floor, ivs);
  }

  lemma SegmentEnd(t: Timeline, ss: seq<Span>, start: Option<int>, end: Option<int>, floor: Option<int>, ivs: seq<Interval>)
    requires Fits(t, ss, start, end)
    requires SegmentSoFar(t, ss, start, end, |ss|, floor, ivs)
    ensures forall d {:trigger Agrees(t, ivs, d)} :: InPart(d, start, end) ==> Agrees(t, ivs, d)
    ensures WithinBounds(ivs, start, end)
  {
    forall d | InPart(d, start, end)
      ensures Agrees(t, ivs, d)
    {
      EndDay(t, ss, start, end, floor, ivs, d);
    }
    EndBounds(t, ss, start, end, floor, ivs);
  }

  lemma EndBounds(t: Timeline, ss: seq<Span>, start: Option<int>, end: Option<int>, floor: Option<int>, ivs: seq<Interval>)
    requires Fits(t, ss, start, end)
    requires floor == if ss == [] then start else FloorAfter(ss, |ss| - 1, end)
    requires WithinBounds(ivs, start, floor) && (ss == [] ==> ivs == [])
    ensures WithinBounds(ivs, start, end)
  {
  }

  lemma EndDay(t: Timeline, ss: seq<Span>, start: Option<int>, end: Option<int>, floor: Option<int>, ivs: seq<Interval>, d: int)
    requires Fits(t, ss, start, end) && InPart(d, start, end)
    requires SegmentSoFar(t, ss, start, end, |ss|, floor, ivs)
    ensures Agrees(t, ivs, d)
  {
    if ss == [] {
      DayBeforeSpans(t, ss, start, end, d);
    } else if !Below(d, floor) {
      DayAtEnd(t, ss, start, end, floor, ivs, d);
    }
  }

  lemma DayAtEnd(t: Timeline, ss: seq<Span>, start: Option<int>, end: Option<int>, floor: Option<int>, ivs: seq<Interval>, d: int)
    requires Fits(t, ss, start, end) && ss != [] && InPart(d, start, end) && !Below(d, floor)
    requires floor == FloorAfter(ss, |ss| - 1, end)
    requires WithinBounds(ivs, start, floor)
    ensures Agrees(t, ivs, d)
  {
    IntervalOutside(ivs, start, floor, d);
    DayAfterSpan(t, ss, start, end, |ss| - 1, d);
  }
}
