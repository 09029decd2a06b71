/** The timeline of one ticker, from its facts (derive.go, derive and join). */
module Derive {
  import opened Options
  import opened Sorting
  import opened Periods
  import opened Facts
  import opened Timelines
  import opened Segments
  import opened Changes
  import opened Overruling
  import opened Winners
  import Current

  /** What the facts of one ticker imply. */
  datatype Derived = Derived(intervals: seq<Interval>, inferred: seq<Inferred>, winners: seq<Winner>,
                             disagreements: seq<Disagreement>, broken: seq<BrokenBracket>, missed: seq<MissedEvent>)

  // ----- Join -----

  predicate Mergeable(a: Interval, b: Interval) {
    a.instr == b.instr && a.validity == b.validity && a.before.Some? && a.before == b.from
  }

  /** No interval goes on in the next. */
  ghost predicate Joined(ivs: seq<Interval>) {
    forall i, j :: 0 <= i && j == i + 1 < |ivs| ==> !Mergeable(ivs[i], ivs[j])
  }

  /** out are the joined intervals of the first i of ivs. */
  ghost predicate JoinSoFar(ivs: seq<Interval>, i: nat, out: seq<Interval>) {
    && i <= |ivs|
    && OrderedIntervals(out) && Joined(out)
    && (out == [] <==> i == 0)
    && (i > 0 ==> out[|out| - 1].before == ivs[i - 1].before)
    && (forall d :: IntervalOn(out, d) == IntervalOn(ivs[..i], d))
  }

  lemma OneInterval(iv: Interval, d: int)
    ensures IntervalOn([iv], d) == if iv.Contains(d) then Some(Holding(iv.instr, iv.validity)) else None
  {
  }

  lemma OrderedAppend(ivs: seq<Interval>, i: nat, out: seq<Interval>)
    requires OrderedIntervals(ivs) && i < |ivs| && JoinSoFar(ivs, i, out)
    ensures OrderedIntervals(out + [ivs[i]])
  {
  }

  lemma JoinAppend(ivs: seq<Interval>, i: nat, out: seq<Interval>)
    requires OrderedIntervals(ivs) && i < |ivs| && JoinSoFar(ivs, i, out)
    requires out != [] ==> !Mergeable(out[|out| - 1], ivs[i])
    ensures JoinSoFar(ivs, i + 1, out + [ivs[i]])
  {
    OrderedAppend(ivs, i, out);
    assert ivs[..i + 1] == ivs[..i] + [ivs[i]];
    forall d
      ensures IntervalOn(out + [ivs[i]], d) == IntervalOn(ivs[..i + 1], d)
    {
      IntervalConcat(out, [ivs[i]], d);
      IntervalConcat(ivs[..i], [ivs[i]], d);
    }
  }

  lemma JoinMerge(ivs: seq<Interval>, i: nat, out: seq<Interval>)
    requires OrderedIntervals(ivs) && i < |ivs| && JoinSoFar(ivs, i, out)
    requires out != [] && Mergeable(out[|out| - 1], ivs[i])
    ensures JoinSoFar(ivs, i + 1, out[|out| - 1 := out[|out| - 1].(before := ivs[i].before)])
  {
    var n := |out| - 1;
    var next := out[n := out[n].(before := ivs[i].before)];
    assert out == out[..n] + [out[n]];
    forall d
      ensures IntervalOn(next, d) == IntervalOn(ivs[..i + 1], d)
    {
      MergedOn(out[..n], out[n], ivs[..i], ivs[i], d);
      assert next == out[..n] + [next[n]] && ivs[..i + 1] == ivs[..i] + [ivs[i]];
    }
    MergedInOrder(out, ivs[i]);
  }

  /** The interval that a and b make says what they say. */
  lemma MergedOn(front: seq<Interval>, a: Interval, done: seq<Interval>, b: Interval, d: int)
    requires Mergeable(a, b) && a.Proper() && b.Proper() && IntervalOn(front + [a], d) == IntervalOn(done, d)
    ensures IntervalOn(front + [a.(before := b.before)], d) == IntervalOn(done + [b], d)
  {
    var both := a.(before := b.before);
    IntervalConcat(done, [b], d);
    IntervalConcat(front, [a], d);
    IntervalConcat(front, [both], d);
    OneInterval(a, d);
    OneInterval(b, d);
    OneInterval(both, d);
  }

  lemma MergedInOrder(out: seq<Interval>, b: Interval)
    requires OrderedIntervals(out) && Joined(out) && out != [] && Mergeable(out[|out| - 1], b) && b.Proper()
    ensures var next := out[|out| - 1 := out[|out| - 1].(before := b.before)]; OrderedIntervals(next) && Joined(next)
  {
    var n := |out| - 1;
    var next := out[n := out[n].(before := b.before)];
    forall j, k | 0 <= j < k < |next|
      ensures Precedes(next[j], next[k])
    {
      assert Precedes(out[j], out[k]);
    }
    forall j, k | 0 <= j && k == j + 1 < |next|
      ensures !Mergeable(next[j], next[k])
    {
      assert !Mergeable(out[j], out[k]);
    }
  }

  /** Merges intervals that meet and agree on instrument and validity. */
  method Join(ivs: seq<Interval>) returns (out: seq<Interval>)
    requires OrderedIntervals(ivs)
    ensures OrderedIntervals(out) && Joined(out)
    ensures forall d :: IntervalOn(out, d) == IntervalOn(ivs, d)
  {
    out := [];
    for i := 0 to |ivs|
      invariant JoinSoFar(ivs, i, out)
    {
      var n := |out|;
      if n > 0 && out[n - 1].instr == ivs[i].instr && out[n - 1].validity == ivs[i].validity
         && out[n - 1].before.Some? && ivs[i].from.Some? && out[n - 1].before.value == ivs[i].from.value {
        JoinMerge(ivs, i, out);
        out := out[n - 1 := out[n - 1].(before := ivs[i].before)];
      } else {
        JoinAppend(ivs, i, out);
        out := out + [ivs[i]];
      }
    }
    assert ivs[..|ivs|] == ivs;
  }

  function HoldingOf(iv: Interval): Option<Holding> {
    Some(Holding(iv.instr, iv.validity))
  }

  /** A joined interval ends where its days do: the next day says something else. */
  lemma JoinedEnds(ivs: seq<Interval>, i: nat)
    requires OrderedIntervals(ivs) && Joined(ivs) && i < |ivs|
    ensures ivs[i].before.Some? ==> IntervalOn(ivs, ivs[i].before.value) != HoldingOf(ivs[i])
    ensures ivs[i].from.Some? ==> IntervalOn(ivs, ivs[i].from.value - 1) != HoldingOf(ivs[i])
  {
    if ivs[i].before.Some? {
      EdgeDay(ivs, i, ivs[i].before.value);
    }
    if ivs[i].from.Some? {
      EdgeDay(ivs, i, ivs[i].from.value - 1);
    }
  }

  /** A day just outside interval i is in a neighbour that does not go on with it, or in none. */
  lemma EdgeDay(ivs: seq<Interval>, i: nat, d: int)
    requires OrderedIntervals(ivs) && Joined(ivs) && i < |ivs|
    requires ivs[i].before == Some(d) || ivs[i].from == Some(d + 1)
    ensures IntervalOn(ivs, d) != HoldingOf(ivs[i])
  {
    if exists k :: 0 <= k < |ivs| && ivs[k].Contains(d) {
      var k :| 0 <= k < |ivs| && ivs[k].Contains(d);
      IntervalIn(ivs, k, d);
      NeighbourOf(ivs, i, k, d);
    } else {
      IntervalOut(ivs, d);
    }
  }

  lemma NeighbourOf(ivs: seq<Interval>, i: nat, k: nat, d: int)
    requires OrderedIntervals(ivs) && Joined(ivs) && i < |ivs| && k < |ivs|
    requires ivs[i].before == Some(d) || ivs[i].from == Some(d + 1)
    requires ivs[k].Contains(d)
    ensures HoldingOf(ivs[k]) != HoldingOf(ivs[i])
  {
    NotNext(ivs);
    assert forall a, c :: 0 <= a && c == a + 1 < |ivs| ==> Precedes(ivs[a], ivs[c]) && !Mergeable(ivs[a], ivs[c]);
  }

  predicate EndsWellBefore(a: Interval, c: Interval) {
    a.before.Some? && c.from.Some? && a.before.value < c.from.value
  }

  lemma NotNext(ivs: seq<Interval>)
    requires OrderedIntervals(ivs)
    ensures forall a, c :: 0 <= a && a + 1 < c < |ivs| ==> EndsWellBefore(ivs[a], ivs[c])
  {
    forall a, c | 0 <= a && a + 1 < c < |ivs|
      ensures EndsWellBefore(ivs[a], ivs[c])
    {
      assert Precedes(ivs[a], ivs[a + 1]) && Precedes(ivs[a + 1], ivs[c]);
    }
  }

  /** Intervals of two joined lists that share a day are one interval, when the lists say the same. */
  lemma SharedDay(xs: seq<Interval>, ys: seq<Interval>, i: nat, j: nat, d: int)
    requires OrderedIntervals(xs) && Joined(xs) && OrderedIntervals(ys) && Joined(ys)
    requires forall e :: IntervalOn(xs, e) == IntervalOn(ys, e)
    requires i < |xs| && j < |ys| && xs[i].Contains(d) && ys[j].Contains(d)
    ensures xs[i] == ys[j]
  {
    IntervalIn(xs, i, d);
    IntervalIn(ys, j, d);
    Covers(xs, ys, i, j, d);
    Covers(ys, xs, j, i, d);
  }

  /** The interval j of ys goes no further than the interval i of xs. */
  lemma Covers(xs: seq<Interval>, ys: seq<Interval>, i: nat, j: nat, d: int)
    requires OrderedIntervals(xs) && Joined(xs) && OrderedIntervals(ys)
    requires forall e :: IntervalOn(xs, e) == IntervalOn(ys, e)
    requires i < |xs| && j < |ys| && xs[i].Contains(d) && ys[j].Contains(d)
    requires HoldingOf(xs[i]) == HoldingOf(ys[j])
    ensures xs[i].before.Some? ==> ys[j].before.Some? && ys[j].before.value <= xs[i].before.value
    ensures xs[i].from.Some? ==> ys[j].from.Some? && xs[i].from.value <= ys[j].from.value
  {
    JoinedEnds(xs, i);
    if xs[i].before.Some? && ys[j].Contains(xs[i].before.value) {
      IntervalIn(ys, j, xs[i].before.value);
    }
    if xs[i].from.Some? && ys[j].Contains(xs[i].from.value - 1) {
      IntervalIn(ys, j, xs[i].from.value - 1);
    }
  }

  function DayOf(iv: Interval): int {
    if iv.from.Some? then iv.from.value else if iv.before.Some? then iv.before.value - 1 else 0
  }

  lemma InOther(xs: seq<Interval>, ys: seq<Interval>, i: nat) returns (j: nat)
    requires OrderedIntervals(xs) && Joined(xs) && OrderedIntervals(ys) && Joined(ys)
    requires forall e :: IntervalOn(xs, e) == IntervalOn(ys, e)
    requires i < |xs|
    ensures j < |ys| && ys[j] == xs[i]
  {
    var d := DayOf(xs[i]);
    IntervalIn(xs, i, d);
    if forall k :: 0 <= k < |ys| ==> !ys[k].Contains(d) {
      IntervalOut(ys, d);
    }
    j :| 0 <= j < |ys| && ys[j].Contains(d);
    SharedDay(xs, ys, i, j, d);
  }

  /** The days determine the intervals: only one ordered and joined list says what each day names. */
  lemma {:induction false} IntervalsUnique(xs: seq<Interval>, ys: seq<Interval>)
    requires OrderedIntervals(xs) && Joined(xs) && OrderedIntervals(ys) && Joined(ys)
    requires forall d :: IntervalOn(xs, d) == IntervalOn(ys, d)
    ensures xs == ys
  {
    if xs == [] {
      if ys != [] {
        var j := InOther(ys, xs, 0);
      }
    } else {
      var j := InOther(xs, ys, 0);
      var i := InOther(ys, xs, 0);
      assert i > 0 ==> Precedes(xs[0], xs[i]);
      assert j > 0 ==> Precedes(ys[0], ys[j]);
      assert xs[0] == ys[0];
      forall d
        ensures IntervalOn(xs[1..], d) == IntervalOn(ys[1..], d)
      {
        TailOn(xs, d);
        TailOn(ys, d);
      }
      OrderedTail(xs);
      OrderedTail(ys);
      JoinedTail(xs);
      JoinedTail(ys);
      IntervalsUnique(xs[1..], ys[1..]);
      assert xs == [xs[0]] + xs[1..] && ys == [ys[0]] + ys[1..];
    }
  }

  lemma JoinedTail(ivs: seq<Interval>)
    requires Joined(ivs) && ivs != []
    ensures Joined(ivs[1..])
  {
  }

  lemma TailOn(ivs: seq<Interval>, d: int)
    requires OrderedIntervals(ivs) && ivs != []
    ensures IntervalOn(ivs[1..], d) == if ivs[0].Contains(d) then None else IntervalOn(ivs, d)
  {
    if ivs[0].Contains(d) {
      forall i | 0 <= i < |ivs[1..]|
        ensures !ivs[1..][i].Contains(d)
      {
        assert Precedes(ivs[0], ivs[i + 1]);
      }
      IntervalOut(ivs[1..], d);
    }
  }

  // ----- The timeline of the facts -----

  /** Facts as they are stored: no empty period, and one attestation of the ticker in each attest run. */
  ghost predicate ProperFacts(f: TickerFacts) {
    ProperAssertions(f.assertions) && AttestedOnce(f.assertions) && AllProper(CoverDays(f.coverage))
  }

  /** The edges that cut: those later answers leave and the nearest attested days do not overrule. */
  ghost function CuttingEdges(es: seq<Edge>, held: seq<Assertion>): seq<Edge> {
    if es == [] then [] else
      CuttingEdges(es[..|es| - 1], held) + (if OverruledAt(held, es[|es| - 1].at) then [] else [es[|es| - 1]])
  }

  lemma {:induction false} CuttingAre(es: seq<Edge>, held: seq<Assertion>, e: Edge)
    ensures e in CuttingEdges(es, held) <==> e in es && !OverruledAt(held, e.at)
  {
    if es != [] {
      CuttingAre(es[..|es| - 1], held, e);
      assert es == es[..|es| - 1] + [es[|es| - 1]];
    }
  }

  method Cutting(es: seq<Edge>, held: seq<Assertion>) returns (out: seq<Edge>)
    requires ProperAssertions(held) && AttestsOneThing(held)
    ensures out == CuttingEdges(es, held)
  {
    out := [];
    for i := 0 to |es|
      invariant out == CuttingEdges(es[..i], held)
    {
      assert es[..i + 1][..i] == es[..i];
      OverruledByDays(es[i], held);
      var overruled := Overruled(es[i], held);
      if !overruled {
        out := out + [es[i]];
      }
    }
    assert es[..|es|] == es;
  }

  /** An edge is stated at c that later answers leave and the nearest attested days on either side do not overrule. */
  ghost predicate CutsAt(f: TickerFacts, c: int)
    requires ProperAssertions(f.assertions)
  {
    EdgeAt(Current.CurrentEdges(f.assertions), c) && !OverruledAt(Current.CurrentPieces(f.assertions), c)
  }

  /** The days on which the timeline is cut. */
  ghost function CutSet(f: TickerFacts): (r: set<int>)
    requires ProperAssertions(f.assertions)
    ensures forall c :: c in r <==> CutsAt(f, c)
  {
    var es := Current.CurrentEdges(f.assertions);
    var r := set e | e in es && !OverruledAt(Current.CurrentPieces(f.assertions), e.at) :: e.at;
    r
  }

  /** The facts day by day: who wins the day, where edges cut and what coverage holds. */
  ghost function TimelineOf(f: TickerFacts): Timeline
    requires ProperAssertions(f.assertions)
  {
    var held := Current.CurrentPieces(f.assertions);
    Timeline(d => NameOn(held, d), CutSet(f), d => AnyContains(CoverDays(f.coverage), d))
  }

  // ----- The parts between the cuts -----

  /** Start and end are neighbouring cuts of the timeline, or open ends of it. */
  ghost predicate Neighbours(t: Timeline, start: Option<int>, end: Option<int>) {
    && (start.Some? ==> start.value in t.cuts)
    && (end.Some? ==> end.value in t.cuts)
    && (forall c :: c in t.cuts ==> !StrictlyInside(c, start, end))
  }

  /** The winners name what the timeline names, and none of them spans a cut. */
  ghost predicate WinnersFit(t: Timeline, ws: seq<Winner>) {
    && OrderedWinners(ws)
    && (forall d {:trigger NameBy(ws, d)} :: t.name(d) == NameBy(ws, d))
    && (forall c, m :: c in t.cuts && 0 <= m < |ws| ==> !(ws[m].from < c < ws[m].before))
  }

  /** The winners [i, j) are those that start in the part. */
  ghost predicate WinnersOf(ws: seq<Winner>, i: nat, j: nat, start: Option<int>, end: Option<int>) {
    && i <= j <= |ws|
    && forall m :: 0 <= m < |ws| ==> (i <= m < j <==> InPart(ws[m].from, start, end))
  }

  /** A winner that holds a day of the part starts in it and ends in it: it never spans a cut. */
  lemma WinnerInPart(t: Timeline, ws: seq<Winner>, start: Option<int>, end: Option<int>, m: nat, e: int)
    requires WinnersFit(t, ws) && Neighbours(t, start, end) && m < |ws|
    requires ws[m].Contains(e) && InPart(e, start, end)
    ensures InPart(ws[m].from, start, end) && InPart(ws[m].before - 1, start, end)
  {
  }

  lemma SliceOrdered(ws: seq<Winner>, i: nat, j: nat)
    requires OrderedWinners(ws) && i <= j <= |ws|
    ensures OrderedWinners(ws[i..j])
    ensures forall w :: w in ws[i..j] ==> w in ws
  {
  }

  lemma PartFits(t: Timeline, ws: seq<Winner>, i: nat, j: nat, ss: seq<Span>, start: Option<int>, end: Option<int>)
    requires WinnersFit(t, ws) && Neighbours(t, start, end) && WinnersOf(ws, i, j, start, end)
    requires AreSpans(ws[i..j], ss)
    ensures OrderedWinners(ws[i..j])
    ensures Fits(t, ss, start, end)
  {
    var seg := ws[i..j];
    SliceOrdered(ws, i, j);
    SpansOrdered(seg, ss);
    forall k | 0 <= k < |ss|
      ensures InPart(ss[k].from, start, end) && InPart(ss[k].before - 1, start, end)
      ensures t.name(ss[k].from) == NameOf(ss[k].instr) == t.name(ss[k].before - 1)
    {
      var a, b := SliceSpanEnds(ws, i, j, ss, k);
      WinnerNames(t, ws, i, j, start, end, a);
      WinnerNames(t, ws, i, j, start, end, b);
    }
    forall e | InPart(e, start, end)
      ensures InItsSpan(t, ss, e)
    {
      DayInItsSpan(t, ws, i, j, ss, start, end, e);
    }
  }

  lemma SliceSpanEnds(ws: seq<Winner>, i: nat, j: nat, ss: seq<Span>, k: nat) returns (a: nat, b: nat)
    requires i <= j <= |ws| && OrderedWinners(ws[i..j]) && AreSpans(ws[i..j], ss) && k < |ss|
    ensures i <= a < j && ws[a].from == ss[k].from && ws[a].instr == ss[k].instr
    ensures i <= b < j && ws[b].before == ss[k].before && ws[b].instr == ss[k].instr
  {
    a, b := SpanEnds(ws[i..j], ss, k);
    a, b := i + a, i + b;
  }

  lemma SliceInSpan(ws: seq<Winner>, i: nat, j: nat, ss: seq<Span>, m: nat) returns (k: nat)
    requires i <= m < j <= |ws| && OrderedWinners(ws[i..j]) && AreSpans(ws[i..j], ss)
    ensures k < |ss| && ss[k].instr == ws[m].instr
    ensures ss[k].from <= ws[m].from && ws[m].before <= ss[k].before
  {
    assert ws[i..j][m - i] == ws[m];
    k := WinnerInSpan(ws[i..j], ss, m - i);
  }

  /** The first and last days of a winner that starts in the part. */
  lemma WinnerNames(t: Timeline, ws: seq<Winner>, i: nat, j: nat, start: Option<int>, end: Option<int>, m: nat)
    requires WinnersFit(t, ws) && Neighbours(t, start, end) && WinnersOf(ws, i, j, start, end) && i <= m < j
    ensures InPart(ws[m].from, start, end) && InPart(ws[m].before - 1, start, end)
    ensures t.name(ws[m].from) == NameOf(ws[m].instr) == t.name(ws[m].before - 1)
  {
    WinnerInPart(t, ws, start, end, m, ws[m].from);
    NameByRun(ws, m, ws[m].from);
    NameByRun(ws, m, ws[m].before - 1);
  }

  lemma DayInItsSpan(t: Timeline, ws: seq<Winner>, i: nat, j: nat, ss: seq<Span>, start: Option<int>, end: Option<int>, e: int)
    requires WinnersFit(t, ws) && Neighbours(t, start, end) && WinnersOf(ws, i, j, start, end)
    requires OrderedWinners(ws[i..j]) && AreSpans(ws[i..j], ss) && InPart(e, start, end)
    ensures InItsSpan(t, ss, e)
  {
    assert t.name(e) == NameBy(ws, e);
    if WonOn(ws, e) {
      var m :| 0 <= m < |ws| && ws[m].Contains(e);
      NameByRun(ws, m, e);
      WinnerInPart(t, ws, start, end, m, e);
      var k := SliceInSpan(ws, i, j, ss, m);
      HoldsDay(ss, k, ws[m], e);
    }
  }

  lemma HoldsDay(ss: seq<Span>, k: nat, w: Winner, e: int)
    requires k < |ss| && ss[k].from <= w.from && w.before <= ss[k].before && w.Contains(e)
    ensures ss[k].Contains(e)
  {
  }

  /** What the loop over the cuts has derived for the days before start. */
  ghost predicate DeriveSoFar(t: Timeline, ws: seq<Winner>, i: nat, start: Option<int>, out: seq<Interval>, inferred: seq<Inferred>) {
    && i <= |ws|
    && (start.None? ==> i == 0 && out == [] && inferred == [])
    && (start.Some? ==> forall m :: 0 <= m < |ws| ==> (m < i <==> ws[m].from < start.value))
    && OrderedIntervals(out)
    && (start.Some? ==> WithinBounds(out, None, start) && AreChanges(t, ws, inferred, None, start))
    && (start.Some? ==> forall d {:trigger Agrees(t, out, d)} :: d < start.value ==> Agrees(t, out, d))
  }

  /** The days of the part are those before it and those in it. */
  lemma PartJoins(t: Timeline, ws: seq<Winner>, i: nat, j: nat, start: Option<int>, end: Option<int>,
      out: seq<Interval>, inferred: seq<Inferred>, ivs: seq<Interval>, xs: seq<Inferred>)
    requires DeriveSoFar(t, ws, i, start, out, inferred) && WinnersOf(ws, i, j, start, end)
    requires start.Some? && end.Some? ==> start.value < end.value
    requires OrderedIntervals(ivs) && WithinBounds(ivs, start, end)
    requires forall d {:trigger Agrees(t, ivs, d)} :: InPart(d, start, end) ==> Agrees(t, ivs, d)
    requires AreChanges(t, ws, xs, start, end)
    ensures OrderedIntervals(out + ivs) && WithinBounds(out + ivs, None, end)
    ensures forall d {:trigger Agrees(t, out + ivs, d)} :: Below(d, end) ==> Agrees(t, out + ivs, d)
    ensures AreChanges(t, ws, inferred + xs, None, end)
  {
    OrderedConcat(out, ivs, None, start, end, start.None?);
    if start.None? {
      assert out + ivs == ivs && inferred + xs == xs;
    } else {
      ChangesJoin(t, ws, inferred, xs, None, start.value, end);
      forall d | Below(d, end)
        ensures Agrees(t, out + ivs, d)
      {
        IntervalConcat(out, ivs, d);
        if d < start.value {
          IntervalOutside(ivs, start, end, d);
          assert Agrees(t, out, d);
        } else {
          IntervalOutside(out, None, start, d);
          assert Agrees(t, ivs, d);
        }
      }
    }
  }

  /** The intervals and changes of the part from start to end, whose winners begin at first. */
  method Part(ghost t: Timeline, ws: seq<Winner>, first: nat, start: Option<int>, end: Option<int>, cover: seq<Period>)
      returns (i: nat, ivs: seq<Interval>, xs: seq<Inferred>)
    requires WinnersFit(t, ws) && CoverIs(t, cover) && Neighbours(t, start, end)
    requires first <= |ws| && forall m :: 0 <= m < |ws| ==> (first <= m <==> AtOrAfter(ws[m].from, start))
    ensures WinnersOf(ws, first, i, start, end)
    ensures OrderedIntervals(ivs) && WithinBounds(ivs, start, end)
    ensures forall d {:trigger Agrees(t, ivs, d)} :: InPart(d, start, end) ==> Agrees(t, ivs, d)
    ensures AreChanges(t, ws, xs, start, end)
  {
    i := first;
    var seg: seq<Winner> := [];
    while i < |ws| && (end.None? || ws[i].from < end.value)
      invariant first <= i <= |ws| && seg == ws[first..i]
      invariant forall m :: first <= m < i ==> Below(ws[m].from, end)
    {
      seg := seg + [ws[i]];
      i := i + 1;
    }
    StartsInOrder(ws, i);
    var ss := Spans(seg);
    SliceOrdered(ws, first, i);
    PartFits(t, ws, first, i, ss, start, end);
    ivs, xs := Segment(t, ss, start, end, cover);
    SegmentChanges(t, ws, seg, ss, start, end, cover, xs);
  }

  lemma StartsInOrder(ws: seq<Winner>, i: nat)
    requires OrderedWinners(ws)
    ensures forall m :: i <= m < |ws| ==> ws[i].from <= ws[m].from
  {
  }

  /** The intervals and changes of the timeline, part by part. */
  method Parts(ghost t: Timeline, ws: seq<Winner>, bounds: seq<int>, cover: seq<Period>)
      returns (out: seq<Interval>, inferred: seq<Inferred>)
    requires WinnersFit(t, ws) && CoverIs(t, cover)
    requires Increasing(bounds) && forall c :: c in bounds <==> c in t.cuts
    ensures OrderedIntervals(out)
    ensures forall d {:trigger Agrees(t, out, d)} :: Agrees(t, out, d)
    ensures AreChanges(t, ws, inferred, None, None)
  {
    out, inferred := [], [];
    var start: Option<int> := None;
    var i := 0;
    for s := 0 to |bounds|
      invariant start == if s == 0 then None else Some(bounds[s - 1])
      invariant DeriveSoFar(t, ws, i, start, out, inferred)
    {
      var end := Some(bounds[s]);
      CutsNeighbour(t, bounds, s);
      ghost var first := i;
      var ivs, xs;
      i, ivs, xs := Part(t, ws, i, start, end, cover);
      PartJoins(t, ws, first, i, start, end, out, inferred, ivs, xs);
      PartNext(t, ws, first, i, start, bounds[s], out + ivs, inferred + xs);
      out, inferred := out + ivs, inferred + xs;
      start := end;
    }
    CutsNeighbour(t, bounds, |bounds|);
    var j, ivs, xs := Part(t, ws, i, start, None, cover);
    PartJoins(t, ws, i, j, start, None, out, inferred, ivs, xs);
    out, inferred := out + ivs, inferred + xs;
  }

  lemma PartNext(t: Timeline, ws: seq<Winner>, first: nat, i: nat, start: Option<int>, end: int, out: seq<Interval>, inferred: seq<Inferred>)
    requires OrderedWinners(ws) && WinnersOf(ws, first, i, start, Some(end))
    requires start.Some? ==> start.value < end
    requires forall m :: 0 <= m < |ws| ==> (first <= m <==> AtOrAfter(ws[m].from, start))
    requires OrderedIntervals(out) && WithinBounds(out, None, Some(end))
    requires forall d {:trigger Agrees(t, out, d)} :: Below(d, Some(end)) ==> Agrees(t, out, d)
    requires AreChanges(t, ws, inferred, None, Some(end))
    ensures DeriveSoFar(t, ws, i, Some(end), out, inferred)
  {
  }

  lemma CutsNeighbour(t: Timeline, bounds: seq<int>, s: nat)
    requires Increasing(bounds) && (forall c :: c in bounds <==> c in t.cuts) && s <= |bounds|
    ensures Neighbours(t, if s == 0 then None else Some(bounds[s - 1]), if s < |bounds| then Some(bounds[s]) else None)
  {
  }

  // ----- Derive -----

  /** r is what the facts imply, each part of it by its day rule. */
  ghost predicate Derives(f: TickerFacts, r: Derived)
    requires ProperFacts(f)
  {
    && OrderedIntervals(r.intervals) && Joined(r.intervals)
    && (forall d {:trigger Agrees(TimelineOf(f), r.intervals, d)} :: Agrees(TimelineOf(f), r.intervals, d))
    && AreWinners(Current.CurrentPieces(f.assertions), Current.CurrentEdges(f.assertions), r.winners)
    && AreDisagreements(Current.CurrentPieces(f.assertions), r.disagreements)
    && AreChanges(TimelineOf(f), r.winners, r.inferred, None, None)
    && AreMissed(TimelineOf(f), r.winners, r.inferred, f.coverage, r.missed)
    && r.broken == BrokenOf(TimelineOf(f), CuttingEdges(Current.CurrentEdges(f.assertions), Current.CurrentPieces(f.assertions)))
  }

  /**
   * What the facts of one ticker imply. On every day the intervals say what the timeline
   * of the facts names, and they are the only ordered and joined intervals that do.
   */
  method DeriveTicker(f: TickerFacts) returns (r: Derived)
    requires ProperFacts(f)
    ensures Derives(f, r)
  {
    ghost var t := TimelineOf(f);
    var held, es := Current.Sweep(f.assertions);
    var ws, disagreements := Winners.Sweep(held, es);
    var cover := Union(CoverDays(f.coverage));
    assert CoverIs(t, cover);
    CurrentAttestsOneThing(f.assertions);
    var cutting := Cutting(es, held);
    var cut, days := CutDays(cutting);
    var bounds := SortedDistinct(days);
    CutsAreEdges(f, es, held, cutting, bounds);
    FactsFit(f, held, es, ws);
    var out, inferred := Parts(t, ws, bounds, cover);
    var broken := Broken(t, ws, cutting);
    var missed := Missed(t, ws, inferred, f.coverage, cover);
    var joined := Join(out);
    forall d
      ensures Agrees(t, joined, d)
    {
      assert Agrees(t, out, d);
    }
    r := Derived(joined, inferred, ws, disagreements, broken, missed);
  }

  lemma CutsAreEdges(f: TickerFacts, es: seq<Edge>, held: seq<Assertion>, cutting: seq<Edge>, bounds: seq<int>)
    requires ProperFacts(f) && held == Current.CurrentPieces(f.assertions) && es == Current.CurrentEdges(f.assertions)
    requires cutting == CuttingEdges(es, held)
    requires forall c :: c in bounds <==> EdgeAt(cutting, c)
    ensures forall c :: c in bounds <==> c in CutSet(f)
    ensures forall c :: c in CutSet(f) ==> EdgeAt(es, c)
    ensures forall e :: e in cutting ==> e.at in CutSet(f)
  {
    forall e
      ensures e in cutting <==> e in es && e.at in CutSet(f)
    {
      CuttingAre(es, held, e);
      assert e in es ==> EdgeAt(es, e.at);
    }
    forall c | c in CutSet(f)
      ensures EdgeAt(cutting, c)
    {
      var e :| e in es && e.at == c;
      assert e in cutting;
    }
  }

  lemma FactsFit(f: TickerFacts, held: seq<Assertion>, es: seq<Edge>, ws: seq<Winner>)
    requires ProperFacts(f) && held == Current.CurrentPieces(f.assertions) && es == Current.CurrentEdges(f.assertions)
    requires forall c :: c in CutSet(f) ==> EdgeAt(es, c)
    requires AreWinners(held, es, ws)
    ensures WinnersFit(TimelineOf(f), ws)
  {
    forall d
      ensures TimelineOf(f).name(d) == NameBy(ws, d)
    {
      WinnersName(held, es, ws, d);
    }
    var pos, won :| WinnersBy(ByStart(held), es, pos, ws, won);
    forall c, m | c in CutSet(f) && 0 <= m < |ws|
      ensures !(ws[m].from < c < ws[m].before)
    {
      assert WinnerRun(ByStart(held), es, pos, ws[m], won[m]);
    }
  }
}
