/** The changes the spans infer, and the ones coverage should have reported (derive.go, missed and broken). */
module Changes {
  import opened Options
  import opened Sorting
  import opened Periods
  import opened Facts
  import opened Winners
  import opened Timelines
  import opened Segments

  datatype MissedEvent = MissedEvent(inferred: Inferred, row: Coverage)

  /** An edge that cuts between two winning days of one instrument. */
  datatype BrokenBracket = BrokenBracket(edge: Edge, instr: int, first: int, last: int)

  // ----- Inferred changes, day by day -----

  /** p and n are neighbouring named days, with no cut between, that name different things. */
  ghost predicate ChangeAt(t: Timeline, p: int, n: int) {
    && p < n && t.name(p) != Silent && t.name(n) != Silent && t.name(p) != t.name(n)
    && t.SilentOn(p + 1, n) && !t.Apart(p, n)
  }

  predicate WonWith(ws: seq<Winner>, d: int, a: Assertion) {
    exists i :: 0 <= i < |ws| && ws[i].Contains(d) && ws[i].assertion == a
  }

  /**
   * x states the change between p and n: it took effect after the days that coverage keeps
   * for the earlier instrument, and at the start of n at the latest.
   */
  ghost predicate Reports(t: Timeline, ws: seq<Winner>, x: Inferred, p: int, n: int) {
    && ChangeAt(t, p, n)
    && NameOf(x.from) == t.name(p) && NameOf(x.to) == t.name(n)
    && WonWith(ws, p, x.earlier) && WonWith(ws, n, x.later)
    && x.period.before == n + 1
    && p + 1 <= x.period.from <= n
    && if x.from.None? then x.period.from == p + 1
       else t.CoveredOn(p + 1, x.period.from) && (x.period.from == n || !t.covered(x.period.from))
  }

  ghost predicate ReportsSome(t: Timeline, ws: seq<Winner>, x: Inferred, start: Option<int>, end: Option<int>) {
    exists p, n :: Reports(t, ws, x, p, n) && InPart(p, start, end) && InPart(n, start, end)
  }

  ghost predicate ReportedIn(t: Timeline, ws: seq<Winner>, xs: seq<Inferred>, p: int, n: int) {
    exists k :: 0 <= k < |xs| && Reports(t, ws, xs[k], p, n)
  }

  /** xs state every change of the days of the part, once each, in order. */
  ghost predicate AreChanges(t: Timeline, ws: seq<Winner>, xs: seq<Inferred>, start: Option<int>, end: Option<int>) {
    && AllReport(t, ws, xs, start, end)
    && ReportAll(t, ws, xs, start, end)
    && InChangeOrder(xs)
  }

  lemma SpanChange(t: Timeline, ws: seq<Winner>, seg: seq<Winner>, ss: seq<Span>, start: Option<int>, end: Option<int>,
      cover: seq<Period>, k: nat, x: Inferred)
    requires Fits(t, ss, start, end) && CoverIs(t, cover) && k + 1 < |ss|
    requires OrderedWinners(seg) && AreSpans(seg, ss) && forall w :: w in seg ==> w in ws
    requires InferredOf(ss[k], ss[k + 1], cover, x)
    ensures Reports(t, ws, x, ss[k].before - 1, ss[k + 1].from)
  {
    var p, n := ss[k].before - 1, ss[k + 1].from;
    assert ss[k].before <= ss[k + 1].from;
    forall e | p < e < n
      ensures t.name(e) == Silent
    {
      assert InPart(p, start, end) && InPart(n, start, end);
      SilentBetween(t, ss, start, end, k, e);
    }
    NotApart(t, ss, start, end, p, n);
    assert ss[k].instr != ss[k + 1].instr;
    SpanWonWith(ws, seg, ss, k);
    SpanWonWith(ws, seg, ss, k + 1);
    if x.from.Some? {
      forall e | p + 1 <= e < x.period.from
        ensures t.covered(e)
      {
        assert AnyContains(cover, e);
      }
    }
  }

  lemma SpanWonWith(ws: seq<Winner>, seg: seq<Winner>, ss: seq<Span>, k: nat)
    requires OrderedWinners(seg) && AreSpans(seg, ss) && k < |ss| && forall w :: w in seg ==> w in ws
    ensures WonWith(ws, ss[k].from, ss[k].head)
    ensures WonWith(ws, ss[k].before - 1, ss[k].tail)
  {
    var parts: seq<(nat, nat)> :| SpansBy(seg, |seg|, ss, parts);
    assert SpanOf(seg, parts[k], ss[k]);
    assert seg[parts[k].0] in ws && seg[parts[k].1 - 1] in ws;
  }

  /** A change of the part lies between two neighbouring spans. */
  lemma ChangeBetweenSpans(t: Timeline, ss: seq<Span>, start: Option<int>, end: Option<int>, p: int, n: int) returns (k: nat)
    requires Fits(t, ss, start, end) && ChangeAt(t, p, n) && InPart(p, start, end)
    ensures k + 1 < |ss| && p == ss[k].before - 1 && n == ss[k + 1].from
  {
    assert t.Next(p + 1, n) by {
      assert t.Apart(p + 1, n) ==> t.Apart(p, n);
    }
    assert InPart(n, start, end) by {
      assert end.Some? && end.value <= n ==> t.Apart(p, n);
    }
    assert InItsSpan(t, ss, p);
    k :| 0 <= k < |ss| && ss[k].Contains(p) && t.name(p) == NameOf(ss[k].instr);
    assert InItsSpan(t, ss, n);
    var m :| 0 <= m < |ss| && ss[m].Contains(n) && t.name(n) == NameOf(ss[m].instr);
    ChangeEnds(t, ss, start, end, p, n, k, m);
  }

  lemma ChangeEnds(t: Timeline, ss: seq<Span>, start: Option<int>, end: Option<int>, p: int, n: int, k: nat, m: nat)
    requires Fits(t, ss, start, end) && ChangeAt(t, p, n)
    requires k < |ss| && m < |ss| && ss[k].Contains(p) && ss[m].Contains(n)
    requires t.name(p) == NameOf(ss[k].instr) && t.name(n) == NameOf(ss[m].instr)
    ensures m == k + 1 && p == ss[k].before - 1 && n == ss[k + 1].from
  {
  }

  lemma SegmentChanges(t: Timeline, ws: seq<Winner>, seg: seq<Winner>, ss: seq<Span>, start: Option<int>, end: Option<int>,
      cover: seq<Period>, xs: seq<Inferred>)
    requires Fits(t, ss, start, end) && CoverIs(t, cover)
    requires OrderedWinners(seg) && AreSpans(seg, ss) && forall w :: w in seg ==> w in ws
    requires AreInferred(ss, if ss == [] then 0 else |ss| - 1, cover, xs)
    ensures AreChanges(t, ws, xs, start, end)
  {
    forall k | 0 <= k < |xs|
      ensures Reports(t, ws, xs[k], ss[k].before - 1, ss[k + 1].from) && ReportsSome(t, ws, xs[k], start, end)
    {
      assert InferredOf(ss[k], ss[k + 1], cover, xs[k]);
      SpanChange(t, ws, seg, ss, start, end, cover, k, xs[k]);
    }
    forall p, n | ChangeAt(t, p, n) && InPart(p, start, end)
      ensures ReportedIn(t, ws, xs, p, n)
    {
      var k := ChangeBetweenSpans(t, ss, start, end, p, n);
      assert Reports(t, ws, xs[k], p, n);
    }
    forall k, m | 0 <= k < m < |xs|
      ensures xs[k].period.before < xs[m].period.before
    {
      assert InferredOf(ss[k], ss[k + 1], cover, xs[k]) && InferredOf(ss[m], ss[m + 1], cover, xs[m]);
      assert ss[k + 1].before <= ss[m + 1].from;
    }
  }

  lemma ReportedConcat(t: Timeline, ws: seq<Winner>, xs: seq<Inferred>, ys: seq<Inferred>, p: int, n: int)
    requires ReportedIn(t, ws, xs, p, n) || ReportedIn(t, ws, ys, p, n)
    ensures ReportedIn(t, ws, xs + ys, p, n)
  {
    var zs := xs + ys;
    if ReportedIn(t, ws, xs, p, n) {
      var k :| 0 <= k < |xs| && Reports(t, ws, xs[k], p, n);
      assert zs[k] == xs[k];
    } else {
      var k :| 0 <= k < |ys| && Reports(t, ws, ys[k], p, n);
      assert zs[|xs| + k] == ys[k];
    }
  }

  /** Each of xs states a change of the part. */
  ghost predicate AllReport(t: Timeline, ws: seq<Winner>, xs: seq<Inferred>, start: Option<int>, end: Option<int>) {
    forall k :: 0 <= k < |xs| ==> ReportsSome(t, ws, xs[k], start, end)
  }

  lemma AllReportConcat(t: Timeline, ws: seq<Winner>, xs: seq<Inferred>, ys: seq<Inferred>, start: Option<int>, mid: int, end: Option<int>)
    requires AllReport(t, ws, xs, start, Some(mid)) && AllReport(t, ws, ys, Some(mid), end)
    requires AtOrAfter(mid, start) && Below(mid, end)
    ensures AllReport(t, ws, xs + ys, start, end)
    ensures forall k :: 0 <= k < |xs| ==> xs[k].period.before <= mid
    ensures forall k :: 0 <= k < |ys| ==> mid < ys[k].period.before
  {
  }

  ghost predicate InChangeOrder(xs: seq<Inferred>) {
    forall k, m :: 0 <= k < m < |xs| ==> xs[k].period.before < xs[m].period.before
  }

  lemma OrderConcat(xs: seq<Inferred>, ys: seq<Inferred>, mid: int)
    requires InChangeOrder(xs) && InChangeOrder(ys)
    requires forall k :: 0 <= k < |xs| ==> xs[k].period.before <= mid
    requires forall k :: 0 <= k < |ys| ==> mid < ys[k].period.before
    ensures InChangeOrder(xs + ys)
  {
  }

  /** xs state every change of the part. */
  ghost predicate ReportAll(t: Timeline, ws: seq<Winner>, xs: seq<Inferred>, start: Option<int>, end: Option<int>) {
    forall p, n {:trigger ReportedIn(t, ws, xs, p, n)} :: ChangeAt(t, p, n) && InPart(p, start, end) ==> ReportedIn(t, ws, xs, p, n)
  }

  lemma ReportAllConcat(t: Timeline, ws: seq<Winner>, xs: seq<Inferred>, ys: seq<Inferred>, start: Option<int>, mid: int, end: Option<int>)
    requires ReportAll(t, ws, xs, start, Some(mid)) && ReportAll(t, ws, ys, Some(mid), end)
    ensures ReportAll(t, ws, xs + ys, start, end)
  {
    forall p, n | ChangeAt(t, p, n) && InPart(p, start, end)
      ensures ReportedIn(t, ws, xs + ys, p, n)
    {
      assert if p < mid then ReportedIn(t, ws, xs, p, n) else ReportedIn(t, ws, ys, p, n);
      ReportedConcat(t, ws, xs, ys, p, n);
    }
  }

  /** The changes of two neighbouring parts are those of both. */
  lemma ChangesJoin(t: Timeline, ws: seq<Winner>, xs: seq<Inferred>, ys: seq<Inferred>, start: Option<int>, mid: int, end: Option<int>)
    requires AreChanges(t, ws, xs, start, Some(mid)) && AreChanges(t, ws, ys, Some(mid), end)
    requires AtOrAfter(mid, start) && Below(mid, end)
    ensures AreChanges(t, ws, xs + ys, start, end)
  {
    AllReportConcat(t, ws, xs, ys, start, mid, end);
    ReportAllConcat(t, ws, xs, ys, start, mid, end);
    OrderConcat(xs, ys, mid);
  }

  // ----- Missed events -----

  /** One period of the cover holds all of q. */
  predicate HeldBy(cover: seq<Period>, q: Period) {
    exists i :: 0 <= i < |cover| && cover[i].from <= q.from && q.before <= cover[i].before
  }

  /** Union joins the periods that meet, so unbroken covered days are in one of them. */
  lemma HeldByDays(cover: seq<Period>, q: Period)
    requires Canonical(cover) && q.Proper()
    ensures HeldBy(cover, q) <==> forall d :: q.Contains(d) ==> AnyContains(cover, d)
  {
    if HeldBy(cover, q) {
      var i :| 0 <= i < |cover| && cover[i].from <= q.from && q.before <= cover[i].before;
      assert forall d :: q.Contains(d) ==> cover[i].Contains(d);
    }
    if forall d :: q.Contains(d) ==> AnyContains(cover, d) {
      assert q.Contains(q.from);
      var i :| 0 <= i < |cover| && cover[i].Contains(q.from);
      if cover[i].before < q.before {
        AfterRun(cover, i);
        assert q.Contains(cover[i].before);
      }
    }
  }

  lemma AfterRun(cover: seq<Period>, i: nat)
    requires Canonical(cover) && i < |cover|
    ensures !AnyContains(cover, cover[i].before)
  {
  }

  /** Row i holds d, and none before it does. */
  ghost predicate FirstHolds(rows: seq<Coverage>, i: nat, d: int)
    requires i < |rows|
  {
    && rows[i].period.from <= d < rows[i].period.before
    && forall j :: 0 <= j < i ==> !(rows[j].period.from <= d < rows[j].period.before)
  }

  /** The first row of coverage that holds d. */
  function FirstRow(rows: seq<Coverage>, d: int): (r: Option<Coverage>)
    ensures r.Some? ==> exists i :: 0 <= i < |rows| && rows[i] == r.value && FirstHolds(rows, i, d)
  {
    if rows == [] then None
    else if rows[0].period.Contains(d) then Some(rows[0])
    else FirstRow(rows[1..], d)
  }

  function CoverDays(rows: seq<Coverage>): (r: seq<Period>)
    ensures |r| == |rows|
    ensures forall i :: 0 <= i < |rows| ==> r[i] == rows[i].period
  {
    seq(|rows|, i requires 0 <= i < |rows| => rows[i].period)
  }

  lemma {:induction false} FirstRowFound(rows: seq<Coverage>, d: int)
    ensures FirstRow(rows, d).Some? <==> AnyContains(CoverDays(rows), d)
  {
    if rows != [] {
      FirstRowFound(rows[1..], d);
      if AnyContains(CoverDays(rows[1..]), d) {
        var i :| 0 <= i < |rows[1..]| && CoverDays(rows[1..])[i].Contains(d);
        assert CoverDays(rows)[i + 1].Contains(d);
      }
      if AnyContains(CoverDays(rows), d) {
        var i :| 0 <= i < |rows| && CoverDays(rows)[i].Contains(d);
        assert i > 0 ==> CoverDays(rows[1..])[i - 1].Contains(d);
      }
    }
  }

  /** Coverage holds every day from the end of the earlier span through the first day of the later one. */
  ghost predicate IsMissed(t: Timeline, ws: seq<Winner>, x: Inferred) {
    exists p, n :: Reports(t, ws, x, p, n) && t.CoveredOn(p + 1, n + 1)
  }

  /**
   * A change is missed iff one period of coverage holds all of its days, though those are only
   * the days that the extension of the earlier span leaves. Then a row of coverage is found.
   */
  lemma MissedIffCovered(t: Timeline, ws: seq<Winner>, x: Inferred, p: int, n: int, rows: seq<Coverage>, cover: seq<Period>)
    requires CoverIs(t, cover) && SameDays(cover, CoverDays(rows))
    requires Reports(t, ws, x, p, n)
    ensures HeldBy(cover, x.period) <==> t.CoveredOn(p + 1, n + 1)
    ensures HeldBy(cover, x.period) ==> FirstRow(rows, x.period.from).Some?
  {
    HeldByDays(cover, x.period);
    FirstRowFound(rows, x.period.from);
    assert x.period.Contains(x.period.from);
    assert AnyContains(cover, x.period.from) <==> AnyContains(CoverDays(rows), x.period.from);
    assert forall d :: x.period.Contains(d) <==> x.period.from <= d < n + 1;
    if HeldBy(cover, x.period) {
      assert AnyContains(cover, x.period.from);
      assert t.covered(x.period.from);
    }
  }

  lemma MissedIffHeld(t: Timeline, ws: seq<Winner>, x: Inferred, rows: seq<Coverage>, cover: seq<Period>)
    requires CoverIs(t, cover) && SameDays(cover, CoverDays(rows))
    requires ReportsSome(t, ws, x, None, None)
    ensures IsMissed(t, ws, x) <==> HeldBy(cover, x.period)
    ensures IsMissed(t, ws, x) ==> FirstRow(rows, x.period.from).Some?
  {
    forall p, n | Reports(t, ws, x, p, n)
      ensures HeldBy(cover, x.period) <==> t.CoveredOn(p + 1, n + 1)
      ensures HeldBy(cover, x.period) ==> FirstRow(rows, x.period.from).Some?
    {
      MissedIffCovered(t, ws, x, p, n, rows, cover);
    }
  }

  /** missed are the changes of xs at the places at, each with the first row that holds its first day. */
  ghost predicate MissedAt(t: Timeline, ws: seq<Winner>, xs: seq<Inferred>, rows: seq<Coverage>, missed: seq<MissedEvent>, at: seq<int>, upTo: nat) {
    && upTo <= |xs| && |at| == |missed| && Increasing(at)
    && (forall k :: 0 <= k < |at| ==> 0 <= at[k] < upTo && MissedAs(xs[at[k]], rows, missed[k]))
    && (forall m: nat :: m < upTo ==> (m in at <==> IsMissed(t, ws, xs[m])))
  }

  predicate MissedAs(x: Inferred, rows: seq<Coverage>, e: MissedEvent) {
    e.inferred == x && FirstRow(rows, x.period.from) == Some(e.row)
  }

  /** missed are exactly the changes of xs that are missed, in their order. */
  ghost predicate AreMissed(t: Timeline, ws: seq<Winner>, xs: seq<Inferred>, rows: seq<Coverage>, missed: seq<MissedEvent>) {
    exists at :: MissedAt(t, ws, xs, rows, missed, at, |xs|)
  }

  lemma MissedNext(t: Timeline, ws: seq<Winner>, xs: seq<Inferred>, rows: seq<Coverage>, missed: seq<MissedEvent>, at: seq<int>, i: nat, e: MissedEvent)
    requires i < |xs| && MissedAt(t, ws, xs, rows, missed, at, i)
    requires IsMissed(t, ws, xs[i]) && MissedAs(xs[i], rows, e)
    ensures MissedAt(t, ws, xs, rows, missed + [e], at + [i], i + 1)
  {
    forall x | x in at
      ensures x < i
    {
      var k :| 0 <= k < |at| && at[k] == x;
    }
    IncreasingAppend(at, i);
  }

  lemma MissedNotNext(t: Timeline, ws: seq<Winner>, xs: seq<Inferred>, rows: seq<Coverage>, missed: seq<MissedEvent>, at: seq<int>, i: nat)
    requires i < |xs| && MissedAt(t, ws, xs, rows, missed, at, i)
    requires !IsMissed(t, ws, xs[i])
    ensures MissedAt(t, ws, xs, rows, missed, at, i + 1)
  {
    assert i !in at;
  }

  method Missed(ghost t: Timeline, ghost ws: seq<Winner>, xs: seq<Inferred>, rows: seq<Coverage>, cover: seq<Period>) returns (out: seq<MissedEvent>)
    requires CoverIs(t, cover) && SameDays(cover, CoverDays(rows))
    requires AllReport(t, ws, xs, None, None)
    ensures AreMissed(t, ws, xs, rows, out)
  {
    out := [];
    ghost var at: seq<int> := [];
    for i := 0 to |xs|
      invariant MissedAt(t, ws, xs, rows, out, at, i)
    {
      var held := HeldBy(cover, xs[i].period);
      var row := FirstRow(rows, xs[i].period.from);
      MissedIffHeld(t, ws, xs[i], rows, cover);
      if held && row.Some? {
        MissedNext(t, ws, xs, rows, out, at, i, MissedEvent(xs[i], row.value));
        out, at := out + [MissedEvent(xs[i], row.value)], at + [i];
      } else {
        MissedNotNext(t, ws, xs, rows, out, at, i);
      }
    }
  }

  // ----- Broken brackets -----

  /** The edge e falls between the neighbouring named days p and n, which name x. */
  ghost predicate Breaks(t: Timeline, e: Edge, b: BrokenBracket) {
    && b.edge == e
    && b.first < e.at <= b.last
    && t.name(b.first) == Named(b.instr) == t.name(b.last)
    && t.SilentOn(b.first + 1, b.last)
  }

  ghost function BrokenOne(t: Timeline, e: Edge): seq<BrokenBracket> {
    if exists b :: Breaks(t, e, b) then
      var b :| Breaks(t, e, b);
      [b]
    else
      []
  }

  ghost function BrokenOf(t: Timeline, es: seq<Edge>): seq<BrokenBracket> {
    if es == [] then [] else BrokenOf(t, es[..|es| - 1]) + BrokenOne(t, es[|es| - 1])
  }

  /** The brackets an edge breaks, judged by the winners on either side of it. */
  lemma BreaksBetween(t: Timeline, ws: seq<Winner>, e: Edge, i: nat)
    requires OrderedWinners(ws) && (forall d {:trigger NameBy(ws, d)} :: t.name(d) == NameBy(ws, d))
    requires forall j :: 0 <= j < |ws| ==> !(ws[j].from < e.at < ws[j].before)
    requires i <= |ws|
    requires forall j :: 0 <= j < i ==> ws[j].from < e.at
    requires i < |ws| ==> e.at <= ws[i].from
    ensures i == 0 || i == |ws| || ws[i - 1].instr.None? || ws[i - 1].instr != ws[i].instr ==> BrokenOne(t, e) == []
    ensures 0 < i < |ws| && ws[i - 1].instr.Some? && ws[i - 1].instr == ws[i].instr ==>
              BrokenOne(t, e) == [BrokenBracket(e, ws[i].instr.value, ws[i - 1].before - 1, ws[i].from)]
  {
    forall b | Breaks(t, e, b)
      ensures 0 < i < |ws| && b.first == ws[i - 1].before - 1 && b.last == ws[i].from
      ensures ws[i - 1].instr == Some(b.instr) == ws[i].instr
    {
      BreakSides(t, ws, e, i, b);
    }
    if 0 < i < |ws| && ws[i - 1].instr.Some? && ws[i - 1].instr == ws[i].instr {
      var b := BrokenBracket(e, ws[i].instr.value, ws[i - 1].before - 1, ws[i].from);
      NameByRun(ws, i - 1, b.first);
      NameByRun(ws, i, b.last);
      forall d | b.first < d < b.last
        ensures t.name(d) == Silent
      {
        assert t.name(d) == NameBy(ws, d);
        forall j | 0 <= j < |ws|
          ensures !ws[j].Contains(d)
        {
          assert j < i - 1 ==> ws[j].before <= ws[i - 1].from;
          assert i < j ==> ws[i].before <= ws[j].from;
        }
      }
      assert Breaks(t, e, b);
    }
  }

  lemma BreakSides(t: Timeline, ws: seq<Winner>, e: Edge, i: nat, b: BrokenBracket)
    requires OrderedWinners(ws) && (forall d {:trigger NameBy(ws, d)} :: t.name(d) == NameBy(ws, d))
    requires forall j :: 0 <= j < |ws| ==> !(ws[j].from < e.at < ws[j].before)
    requires i <= |ws|
    requires forall j :: 0 <= j < i ==> ws[j].from < e.at
    requires i < |ws| ==> e.at <= ws[i].from
    requires Breaks(t, e, b)
    ensures 0 < i < |ws| && b.first == ws[i - 1].before - 1 && b.last == ws[i].from
    ensures ws[i - 1].instr == Some(b.instr) == ws[i].instr
  {
    SideBefore(t, ws, e, i, b);
    SideAfter(t, ws, e, i, b);
  }

  lemma SideBefore(t: Timeline, ws: seq<Winner>, e: Edge, i: nat, b: BrokenBracket)
    requires OrderedWinners(ws) && (forall d {:trigger NameBy(ws, d)} :: t.name(d) == NameBy(ws, d))
    requires i <= |ws| && (forall j :: 0 <= j < i ==> ws[j].from < e.at && ws[j].before <= e.at)
    requires i < |ws| ==> e.at <= ws[i].from
    requires Breaks(t, e, b)
    ensures 0 < i && b.first == ws[i - 1].before - 1 && ws[i - 1].instr == Some(b.instr)
  {
    assert t.name(b.first) == NameBy(ws, b.first);
    var j :| 0 <= j < |ws| && ws[j].Contains(b.first);
    NameByRun(ws, j, b.first);
    assert i < |ws| ==> ws[i].from < ws[i].before;
    assert j < i;
    NameByRun(ws, i - 1, ws[i - 1].before - 1);
    assert t.name(ws[i - 1].before - 1) != Silent;
  }

  lemma SideAfter(t: Timeline, ws: seq<Winner>, e: Edge, i: nat, b: BrokenBracket)
    requires OrderedWinners(ws) && (forall d {:trigger NameBy(ws, d)} :: t.name(d) == NameBy(ws, d))
    requires i <= |ws| && (forall j :: 0 <= j < i ==> ws[j].from < e.at && ws[j].before <= e.at)
    requires i < |ws| ==> e.at <= ws[i].from
    requires Breaks(t, e, b)
    ensures i < |ws| && b.last == ws[i].from && ws[i].instr == Some(b.instr)
  {
    assert t.name(b.last) == NameBy(ws, b.last);
    var k :| 0 <= k < |ws| && ws[k].Contains(b.last);
    NameByRun(ws, k, b.last);
    assert i <= k;
    assert ws[i].from < ws[i].before;
    NameByRun(ws, i, ws[i].from);
    assert t.name(ws[i].from) != Silent;
  }

  /** Each edge that cuts between two consecutive winners of one instrument. */
  method Broken(ghost t: Timeline, ws: seq<Winner>, es: seq<Edge>) returns (out: seq<BrokenBracket>)
    requires OrderedWinners(ws) && (forall d {:trigger NameBy(ws, d)} :: t.name(d) == NameBy(ws, d))
    requires forall e, j :: e in es && 0 <= j < |ws| ==> !(ws[j].from < e.at < ws[j].before)
    ensures out == BrokenOf(t, es)
  {
    out := [];
    for k := 0 to |es|
      invariant out == BrokenOf(t, es[..k])
    {
      var e := es[k];
      assert e in es;
      assert es[..k + 1][..k] == es[..k];
      var i := 0;
      while i < |ws| && ws[i].from < e.at
        invariant 0 <= i <= |ws|
        invariant forall j :: 0 <= j < i ==> ws[j].from < e.at
      {
        i := i + 1;
      }
      BreaksBetween(t, ws, e, i);
      if 0 < i < |ws| && ws[i - 1].instr.Some? && ws[i - 1].instr == ws[i].instr {
        out := out + [BrokenBracket(e, ws[i - 1].instr.value, ws[i - 1].before - 1, ws[i].from)];
      }
    }
    assert es[..|es|] == es;
  }
}
