/** What the later answers of each source leave of the assertions (derive.go, current and clip). */
module Current {
  import opened Options
  import opened Sorting
  import opened Periods
  import opened Facts

  // ----- The rule, day by day -----

  /** The reach of an answer: the days of its assertion and of its request. */
  predicate Reaches(b: Assertion, d: int) {
    b.period.Contains(d) || b.source.asked.Contains(d)
  }

  predicate Overtakes(b: Assertion, a: Assertion, d: int) {
    b.source.Newer(a.source) && b.source.Group() == a.source.Group() && Reaches(b, d)
  }

  /** A strictly newer answer of the same source reaches day d. */
  predicate Overtaken(held: seq<Assertion>, a: Assertion, d: int) {
    exists b :: b in held && Overtakes(b, a, d)
  }

  /** a over part of its days, with an edge only on a bound of the original. */
  function Piece(a: Assertion, p: Period): Assertion {
    Assertion(p, a.instr, a.edgeFrom && p.from == a.period.from, a.edgeBefore && p.before == a.period.before, a.source)
  }

  function PiecesOver(a: Assertion, ps: seq<Period>): (r: seq<Assertion>)
    ensures |r| == |ps|
    ensures forall i :: 0 <= i < |ps| ==> r[i] == Piece(a, ps[i])
  {
    seq(|ps|, i requires 0 <= i < |ps| => Piece(a, ps[i]))
  }

  /** The maximal runs of the days of a that no later answer overtakes. */
  ghost function Pieces(held: seq<Assertion>, a: Assertion): seq<Assertion>
    requires a.period.Proper()
  {
    PiecesOver(a, Runs(d => !Overtaken(held, a, d), a.period.from, a.period.before))
  }

  function EdgesOf(a: Assertion): seq<Edge> {
    (if a.edgeFrom then [Edge(a.period.from, a)] else []) + (if a.edgeBefore then [Edge(a.period.before, a)] else [])
  }

  /** An edge goes only where later answers overtake the days on both sides of it. */
  predicate EdgeStays(held: seq<Assertion>, e: Edge) {
    !Overtaken(held, e.assertion, e.at - 1) || !Overtaken(held, e.assertion, e.at)
  }

  function Kept(held: seq<Assertion>, es: seq<Edge>): seq<Edge> {
    if es == [] then [] else (if EdgeStays(held, es[0]) then [es[0]] else []) + Kept(held, es[1..])
  }

  ghost function AllPieces(held: seq<Assertion>): (r: seq<seq<Assertion>>)
    requires ProperAssertions(held)
    ensures |r| == |held|
    ensures forall i :: 0 <= i < |held| ==> r[i] == Pieces(held, held[i])
  {
    seq(|held|, i requires 0 <= i < |held| => Pieces(held, held[i]))
  }

  function AllKept(held: seq<Assertion>): (r: seq<seq<Edge>>)
    ensures |r| == |held|
    ensures forall i :: 0 <= i < |held| ==> r[i] == Kept(held, EdgesOf(held[i]))
  {
    seq(|held|, i requires 0 <= i < |held| => Kept(held, EdgesOf(held[i])))
  }

  function Concat<T(!new)>(ss: seq<seq<T>>): (r: seq<T>)
    ensures forall x :: x in r <==> exists i :: 0 <= i < |ss| && x in ss[i]
  {
    if ss == [] then [] else
      var r := Concat(ss[..|ss| - 1]) + ss[|ss| - 1];
      assert forall i :: 0 <= i < |ss| - 1 ==> ss[i] == ss[..|ss| - 1][i];
      r
  }

  /** The pieces and edges current leaves, in the order of the assertions. */
  ghost function CurrentPieces(held: seq<Assertion>): seq<Assertion>
    requires ProperAssertions(held)
  {
    Concat(AllPieces(held))
  }

  function CurrentEdges(held: seq<Assertion>): seq<Edge> {
    Concat(AllKept(held))
  }

  // ----- Theorems about the rule -----

  /** b is the part of some assertion of `held` over a maximal run of its days that none overtakes. */
  ghost predicate IsPiece(held: seq<Assertion>, a: Assertion, b: Assertion) {
    && a in held
    && b == Piece(a, b.period)
    && b.period.Proper()
    && a.period.from <= b.period.from && b.period.before <= a.period.before
    && (forall d :: b.period.Contains(d) ==> !Overtaken(held, a, d))
  }

  lemma PiecesAre(held: seq<Assertion>, a: Assertion, b: Assertion)
    requires a in held && a.period.Proper()
    requires b in Pieces(held, a)
    ensures IsPiece(held, a, b)
  {
    var rs := Runs(d => !Overtaken(held, a, d), a.period.from, a.period.before);
    var i :| 0 <= i < |rs| && Pieces(held, a)[i] == b;
    assert b == Piece(a, rs[i]);
    forall d | b.period.Contains(d)
      ensures !Overtaken(held, a, d)
    {
      assert rs[i].Contains(d);
      assert AnyContains(rs, d);
    }
  }

  lemma PieceOn(held: seq<Assertion>, a: Assertion, d: int) returns (b: Assertion)
    requires a in held && a.period.Contains(d)
    requires !Overtaken(held, a, d)
    ensures b in Pieces(held, a) && IsPiece(held, a, b) && b.period.Contains(d)
  {
    var rs := Runs(e => !Overtaken(held, a, e), a.period.from, a.period.before);
    assert AnyContains(rs, d);
    var i :| 0 <= i < |rs| && rs[i].Contains(d);
    b := Pieces(held, a)[i];
    PiecesAre(held, a, b);
  }

  lemma FromPieces(held: seq<Assertion>, b: Assertion) returns (a: Assertion)
    requires ProperAssertions(held)
    requires b in CurrentPieces(held)
    ensures a in held && b in Pieces(held, a) && IsPiece(held, a, b)
  {
    var i :| 0 <= i < |held| && b in AllPieces(held)[i];
    a := held[i];
    PiecesAre(held, a, b);
  }

  /**
   * The day rule of current: some piece of a holds d iff a holds d and no strictly
   * newer answer of its source reaches d.
   */
  lemma DaySurvives(held: seq<Assertion>, a: Assertion, d: int)
    requires ProperAssertions(held) && a in held
    ensures (exists b :: b in CurrentPieces(held) && b in Pieces(held, a) && b.period.Contains(d))
       <==> a.period.Contains(d) && !Overtaken(held, a, d)
  {
    if exists b :: b in CurrentPieces(held) && b in Pieces(held, a) && b.period.Contains(d) {
      var b :| b in CurrentPieces(held) && b in Pieces(held, a) && b.period.Contains(d);
      PiecesAre(held, a, b);
    }
    if a.period.Contains(d) && !Overtaken(held, a, d) {
      var b := PieceOn(held, a, d);
      var k :| 0 <= k < |held| && held[k] == a;
      assert b in AllPieces(held)[k];
    }
  }

  lemma {:induction false} KeptAre(held: seq<Assertion>, es: seq<Edge>, e: Edge)
    ensures e in Kept(held, es) <==> e in es && EdgeStays(held, e)
  {
    if es != [] {
      KeptAre(held, es[1..], e);
    }
  }

  lemma KeptOfAny(held: seq<Assertion>, e: Edge)
    ensures e in CurrentEdges(held) ==> EdgeStays(held, e)
  {
    var ss := AllKept(held);
    if e in Concat(ss) {
      var j :| 0 <= j < |ss| && e in ss[j];
      KeptAre(held, EdgesOf(held[j]), e);
    }
  }

  /** An edge of a goes iff later answers overtake the days on both sides of it. */
  lemma EdgeSurvives(held: seq<Assertion>, a: Assertion, e: Edge)
    requires a in held && e in EdgesOf(a)
    ensures e in CurrentEdges(held) <==> !(Overtaken(held, a, e.at - 1) && Overtaken(held, a, e.at))
  {
    KeptOfAny(held, e);
    assert e.assertion == a;
    if EdgeStays(held, e) {
      var i :| 0 <= i < |held| && held[i] == a;
      KeptAre(held, EdgesOf(a), e);
      assert e in AllKept(held)[i];
    }
  }

  // ----- What is left, from the fields of the assertions -----

  /** b is the later of two answers of one source: by moment, then by id; all attestations are one source. */
  predicate LaterAnswer(b: Source, a: Source) {
    && (b.answered > a.answered || (b.answered == a.answered && b.answer > a.answer))
    && b.standing == a.standing
    && (a.standing != Attested ==> b.datasource == a.datasource && b.precedence == a.precedence)
  }

  /** A later answer of a's source asserts day d or was asked for it. */
  ghost predicate Replaced(held: seq<Assertion>, a: Assertion, d: int) {
    exists b :: b in held && LaterAnswer(b.source, a.source)
      && (b.period.from <= d < b.period.before || b.source.asked.from <= d < b.source.asked.before)
  }

  lemma OvertakenIsReplaced(held: seq<Assertion>, a: Assertion, d: int)
    ensures Overtaken(held, a, d) <==> Replaced(held, a, d)
  {
    forall b
      ensures Overtakes(b, a, d) <==>
        LaterAnswer(b.source, a.source) && (b.period.from <= d < b.period.before || b.source.asked.from <= d < b.source.asked.before)
    {
    }
  }

  /** a asserts d and no later answer of its source replaces it. */
  ghost predicate LeftOn(held: seq<Assertion>, a: Assertion, d: int) {
    a in held && a.period.from <= d < a.period.before && !Replaced(held, a, d)
  }

  /**
   * Some assertion left says x of day d on behalf of a source exactly where an assertion given
   * does and is not replaced there.
   */
  lemma DaysLeft(held: seq<Assertion>, d: int, x: Option<int>, source: Source)
    requires ProperAssertions(held)
    ensures (exists b :: b in CurrentPieces(held) && b.period.from <= d < b.period.before && b.instr == x && b.source == source)
       <==> exists a :: LeftOn(held, a, d) && a.instr == x && a.source == source
  {
    if b :| b in CurrentPieces(held) && b.period.from <= d < b.period.before && b.instr == x && b.source == source {
      var a := PieceOfOne(held, b);
      assert LeftOn(held, a, d);
    }
    if a :| LeftOn(held, a, d) && a.instr == x && a.source == source {
      var b := PieceThere(held, a, d);
    }
  }

  lemma PieceThere(held: seq<Assertion>, a: Assertion, d: int) returns (b: Assertion)
    requires ProperAssertions(held) && LeftOn(held, a, d)
    ensures b in CurrentPieces(held) && b.period.from <= d < b.period.before && b.instr == a.instr && b.source == a.source
  {
    OvertakenIsReplaced(held, a, d);
    DaySurvives(held, a, d);
    b :| b in CurrentPieces(held) && b in Pieces(held, a) && b.period.Contains(d);
    PiecesAre(held, a, b);
  }

  /** A piece is its assertion over a part of its days that ends where the assertion or what is left of it does. */
  lemma PieceOfOne(held: seq<Assertion>, b: Assertion) returns (a: Assertion)
    requires ProperAssertions(held) && b in CurrentPieces(held)
    ensures a in held && b.instr == a.instr && b.source == a.source
    ensures a.period.from <= b.period.from < b.period.before <= a.period.before
    ensures forall d :: b.period.from <= d < b.period.before ==> !Replaced(held, a, d)
    ensures b.period.from == a.period.from || Replaced(held, a, b.period.from - 1)
    ensures b.period.before == a.period.before || Replaced(held, a, b.period.before)
    ensures b.edgeFrom <==> a.edgeFrom && b.period.from == a.period.from
    ensures b.edgeBefore <==> a.edgeBefore && b.period.before == a.period.before
  {
    a := FromPieces(held, b);
    forall d
      ensures Overtaken(held, a, d) <==> Replaced(held, a, d)
    {
      OvertakenIsReplaced(held, a, d);
    }
    PieceEnds(held, a, b);
  }

  /** A piece ends where its assertion does, or a later answer overtakes the next day. */
  lemma PieceEnds(held: seq<Assertion>, a: Assertion, b: Assertion)
    requires a.period.Proper() && b in Pieces(held, a)
    ensures b.period.from == a.period.from || Overtaken(held, a, b.period.from - 1)
    ensures b.period.before == a.period.before || Overtaken(held, a, b.period.before)
  {
    var rs := Runs(d => !Overtaken(held, a, d), a.period.from, a.period.before);
    var i :| 0 <= i < |rs| && Pieces(held, a)[i] == b;
    RunApart(rs, i);
    OutsideRuns(held, a, rs[i].from - 1);
    OutsideRuns(held, a, rs[i].before);
  }

  lemma RunApart(rs: seq<Period>, i: nat)
    requires Canonical(rs) && i < |rs|
    ensures !AnyContains(rs, rs[i].from - 1) && !AnyContains(rs, rs[i].before)
  {
  }

  lemma OutsideRuns(held: seq<Assertion>, a: Assertion, d: int)
    requires a.period.Proper() && !AnyContains(Runs(e => !Overtaken(held, a, e), a.period.from, a.period.before), d)
    ensures !a.period.Contains(d) || Overtaken(held, a, d)
  {
  }

  /** e is stated by its assertion: a change at the start of its period, or at its end. */
  predicate StatesEdge(e: Edge) {
    var a := e.assertion;
    (a.edgeFrom && e.at == a.period.from) || (a.edgeBefore && e.at == a.period.before)
  }

  /** The edges left are those that an assertion states and that later answers do not replace on both sides. */
  lemma EdgesLeft(held: seq<Assertion>, e: Edge)
    ensures e in CurrentEdges(held)
       <==> e.assertion in held && StatesEdge(e) && !(Replaced(held, e.assertion, e.at - 1) && Replaced(held, e.assertion, e.at))
  {
    var a := e.assertion;
    OvertakenIsReplaced(held, a, e.at - 1);
    OvertakenIsReplaced(held, a, e.at);
    assert e in EdgesOf(a) <==> StatesEdge(e);
    if e in CurrentEdges(held) {
      EdgeIsStated(held, e);
    }
    if a in held && StatesEdge(e) {
      EdgeSurvives(held, a, e);
    }
  }

  lemma EdgeIsStated(held: seq<Assertion>, e: Edge)
    requires e in CurrentEdges(held)
    ensures e.assertion in held && e in EdgesOf(e.assertion) && EdgeStays(held, e)
  {
    KeptOfAny(held, e);
    var kept := AllKept(held);
    var i :| 0 <= i < |held| && e in kept[i];
    KeptAre(held, EdgesOf(held[i]), e);
  }

  lemma PiecesProper(held: seq<Assertion>)
    requires ProperAssertions(held)
    ensures ProperAssertions(CurrentPieces(held))
  {
  }

  /** No piece overtakes a day of another piece. */
  lemma PiecesNotOvertaken(held: seq<Assertion>, b: Assertion, d: int)
    requires ProperAssertions(held)
    requires b in CurrentPieces(held) && b.period.Contains(d)
    ensures !Overtaken(CurrentPieces(held), b, d)
  {
    var a := FromPieces(held, b);
    forall c | c in CurrentPieces(held)
      ensures !Overtakes(c, b, d)
    {
      var o := FromPieces(held, c);
      assert o in held && !Overtakes(o, a, d);
    }
  }

  lemma {:induction false} WholeRun(holds: int -> bool, from: int, before: int)
    requires from < before
    requires forall d :: from <= d < before ==> holds(d)
    ensures Runs(holds, from, before) == [Period(from, before)]
  {
    var r := Runs(holds, from, before);
    forall d
      ensures AnyContains(r, d) <==> AnyContains([Period(from, before)], d)
    {
      AnyOne(Period(from, before), d);
    }
    CanonicalUnique(r, [Period(from, before)]);
  }

  lemma {:induction false} ConcatSingles<T(!new)>(ss: seq<seq<T>>, xs: seq<T>)
    requires |ss| == |xs|
    requires forall i :: 0 <= i < |ss| ==> ss[i] == [xs[i]]
    ensures Concat(ss) == xs
  {
    if ss != [] {
      var n := |ss| - 1;
      ConcatSingles(ss[..n], xs[..n]);
      assert xs == xs[..n] + [xs[n]];
    }
  }

  /** Assertions none of whose days is overtaken stay as they are. */
  lemma AllStay(held: seq<Assertion>)
    requires ProperAssertions(held)
    requires forall a, d :: a in held && a.period.Contains(d) ==> !Overtaken(held, a, d)
    ensures CurrentPieces(held) == held
  {
    forall i | 0 <= i < |held|
      ensures Pieces(held, held[i]) == [held[i]]
    {
      var a := held[i];
      assert a in held;
      WholeRun(d => !Overtaken(held, a, d), a.period.from, a.period.before);
    }
    ConcatSingles(AllPieces(held), held);
  }

  /** Applying current to the pieces it leaves changes none of them. */
  lemma CurrentIdempotent(held: seq<Assertion>)
    requires ProperAssertions(held)
    ensures ProperAssertions(CurrentPieces(held))
    ensures CurrentPieces(CurrentPieces(held)) == CurrentPieces(held)
  {
    var bs := CurrentPieces(held);
    PiecesProper(held);
    forall b, d | b in bs && b.period.Contains(d)
      ensures !Overtaken(bs, b, d)
    {
      PiecesNotOvertaken(held, b, d);
    }
    AllStay(bs);
  }

  // ----- The sweep -----

  predicate NewestFirst(a: Assertion, b: Assertion) {
    !b.source.Newer(a.source)
  }

  /** The pieces of a outside the canonical periods taken. */
  method Clip(a: Assertion, taken: seq<Period>) returns (out: seq<Assertion>)
    requires a.period.Proper() && Canonical(taken)
    ensures Canonical(PeriodsOf(out))
    ensures forall d :: AnyContains(PeriodsOf(out), d) <==> a.period.Contains(d) && !AnyContains(taken, d)
    ensures out == PiecesOver(a, PeriodsOf(out))
  {
    out := [];
    var from := a.period.from;
    var i := 0;
    while i < |taken|
      invariant 0 <= i <= |taken|
      invariant ClipSoFar(a, taken, i, from, out)
    {
      var t := taken[i];
      if t.before <= from {
        i := i + 1;
        continue;
      }
      if a.period.before <= t.from {
        break;
      }
      ghost var was := out;
      if from < t.from {
        out := out + [Piece(a, Period(from, t.from))];
      }
      ClipStep(a, taken, i, from, was, out);
      from := t.before;
      i := i + 1;
    }
    ghost var was := out;
    if from < a.period.before {
      out := out + [Piece(a, Period(from, a.period.before))];
    }
    ClipEnd(a, taken, i, from, was, out);
  }

  /** What Clip has written when it has looked at the first i taken periods. */
  ghost predicate ClipSoFar(a: Assertion, taken: seq<Period>, i: nat, from: int, out: seq<Assertion>) {
    && a.period.from <= from
    && Canonical(PeriodsOf(out))
    && out == PiecesOver(a, PeriodsOf(out))
    && (forall k :: 0 <= k < |out| ==> out[k].period.before < from)
    && (forall d :: AnyContains(PeriodsOf(out), d) <==> a.period.Contains(d) && d < from && !AnyContains(taken, d))
    && (forall k, d :: 0 <= k < i && k < |taken| && taken[k].Contains(d) ==> d < from)
    && (forall k :: i <= k < |taken| ==> from < taken[k].from || from == a.period.from)
  }

  lemma ClipAppend(a: Assertion, out: seq<Assertion>, p: Period)
    ensures PeriodsOf(out + [Piece(a, p)]) == PeriodsOf(out) + [p]
    ensures out == PiecesOver(a, PeriodsOf(out)) ==> out + [Piece(a, p)] == PiecesOver(a, PeriodsOf(out) + [p])
  {
  }

  lemma ClipStep(a: Assertion, taken: seq<Period>, i: nat, from: int, out: seq<Assertion>, next: seq<Assertion>)
    requires a.period.Proper() && Canonical(taken) && i < |taken|
    requires ClipSoFar(a, taken, i, from, out)
    requires from < taken[i].before && taken[i].from < a.period.before
    requires next == if from < taken[i].from then out + [Piece(a, Period(from, taken[i].from))] else out
    ensures ClipSoFar(a, taken, i + 1, taken[i].before, next)
  {
    var t := taken[i];
    ClipAppend(a, out, Period(from, t.from));
    forall d
      ensures AnyContains(PeriodsOf(next), d) <==> a.period.Contains(d) && d < t.before && !AnyContains(taken, d)
    {
      if from < t.from {
        AnySplit(PeriodsOf(out), [Period(from, t.from)], d);
        AnyOne(Period(from, t.from), d);
      }
      assert t.Contains(d) ==> AnyContains(taken, d);
    }
  }

  lemma ClipEnd(a: Assertion, taken: seq<Period>, i: nat, from: int, out: seq<Assertion>, next: seq<Assertion>)
    requires a.period.Proper() && Canonical(taken) && i <= |taken|
    requires ClipSoFar(a, taken, i, from, out)
    requires i < |taken| ==> a.period.before <= taken[i].from
    requires next == if from < a.period.before then out + [Piece(a, Period(from, a.period.before))] else out
    ensures Canonical(PeriodsOf(next))
    ensures forall d :: AnyContains(PeriodsOf(next), d) <==> a.period.Contains(d) && !AnyContains(taken, d)
    ensures next == PiecesOver(a, PeriodsOf(next))
  {
    var rest := Period(from, a.period.before);
    ClipAppend(a, out, rest);
    forall d
      ensures AnyContains(PeriodsOf(next), d) <==> a.period.Contains(d) && !AnyContains(taken, d)
    {
      if from < a.period.before {
        AnySplit(PeriodsOf(out), [rest], d);
        AnyOne(rest, d);
      }
    }
  }

  /** An assertion with its place in the input, as the sort by newness moves it. */
  datatype Ranked = Ranked(index: nat, a: Assertion)

  predicate RankedNewestFirst(r: Ranked, s: Ranked) {
    NewestFirst(r.a, s.a)
  }

  function Rank(held: seq<Assertion>): (r: seq<Ranked>)
    ensures |r| == |held|
    ensures forall i :: 0 <= i < |held| ==> r[i] == Ranked(i, held[i])
  {
    seq(|held|, i requires 0 <= i < |held| => Ranked(i, held[i]))
  }

  function TakenBy(taken: map<Source, seq<Period>>, g: Source): seq<Period> {
    if g in taken then taken[g] else []
  }

  predicate Took(taken: map<Source, seq<Period>>, g: Source, d: int) {
    AnyContains(TakenBy(taken, g), d)
  }

  /** taken holds, per source, the days the first k ranked assertions reach. */
  ghost predicate TakenSoFar(idx: seq<Ranked>, k: nat, taken: map<Source, seq<Period>>)
    requires k <= |idx|
  {
    && (forall g :: AllProper(TakenBy(taken, g)))
    && (forall g, d :: Took(taken, g, d) <==> ReachedBy(idx[..k], g, d))
  }

  predicate ReachedBy(rs: seq<Ranked>, g: Source, d: int) {
    exists r :: r in rs && r.a.source.Group() == g && Reaches(r.a, d)
  }

  /** idx is the ranking of held, newest first, and k is the start of a run of equal newness. */
  ghost predicate RunStart(held: seq<Assertion>, idx: seq<Ranked>, k: nat) {
    && multiset(idx) == multiset(Rank(held))
    && SortedBy(RankedNewestFirst, idx)
    && (forall m, n :: 0 <= m < k <= n < |idx| ==> idx[m].a.source.Newer(idx[n].a.source))
  }

  /** What the earlier runs reach is what overtakes a member of this run. */
  lemma RunOvertaken(held: seq<Assertion>, idx: seq<Ranked>, k: nat, q: nat, d: int)
    requires RunStart(held, idx, k) && k <= q < |idx|
    requires !idx[k].a.source.Newer(idx[q].a.source)
    ensures ReachedBy(idx[..k], idx[q].a.source.Group(), d) <==> Overtaken(held, idx[q].a, d)
  {
    SameElements(Rank(held), idx);
    var a := idx[q].a;
    forall r | r in idx[..k] && r.a.source.Group() == a.source.Group() && Reaches(r.a, d)
      ensures r.a in held && Overtakes(r.a, a, d)
    {
      assert r in idx;
      assert Rank(held)[r.index] == r;
    }
    forall b | b in held && Overtakes(b, a, d)
      ensures ReachedBy(idx[..k], a.source.Group(), d)
    {
      NewerIsEarlier(held, idx, k, q, b);
    }
  }

  /** An assertion newer than one of the run that starts at k is ranked before k. */
  lemma NewerIsEarlier(held: seq<Assertion>, idx: seq<Ranked>, k: nat, q: nat, b: Assertion)
    requires RunStart(held, idx, k) && k <= q < |idx|
    requires !idx[k].a.source.Newer(idx[q].a.source)
    requires b in held && b.source.Newer(idx[q].a.source)
    ensures exists r :: r in idx[..k] && r.a == b
  {
    SameElements(Rank(held), idx);
    var i :| 0 <= i < |held| && held[i] == b;
    assert Rank(held)[i] in idx;
    var m :| 0 <= m < |idx| && idx[m] == Rank(held)[i];
    assert m > k ==> RankedNewestFirst(idx[k], idx[m]);
    assert idx[..k][m] == idx[m];
  }

  lemma RankedOnce(held: seq<Assertion>, idx: seq<Ranked>)
    requires multiset(idx) == multiset(Rank(held))
    ensures |idx| == |held|
    ensures forall m :: 0 <= m < |idx| ==> idx[m].index < |held| && idx[m].a == held[idx[m].index]
    ensures forall i :: 0 <= i < |held| ==> Ranked(i, held[i]) in idx
  {
    SameElements(Rank(held), idx);
    forall m | 0 <= m < |idx|
      ensures idx[m].index < |held| && idx[m].a == held[idx[m].index]
    {
      assert idx[m] in Rank(held);
    }
    forall i | 0 <= i < |held|
      ensures Ranked(i, held[i]) in idx
    {
      assert Rank(held)[i] in idx;
    }
  }

  /** The edges of e's assertion that the days later answers reach do not drop. */
  method Keep(a: Assertion, later: seq<Period>, ghost held: seq<Assertion>) returns (kept: seq<Edge>)
    requires forall d :: AnyContains(later, d) <==> Overtaken(held, a, d)
    ensures kept == Kept(held, EdgesOf(a))
  {
    kept := [];
    var es := EdgesOf(a);
    for i := 0 to |es|
      invariant kept + Kept(held, es[i..]) == Kept(held, es)
    {
      var e := es[i];
      assert e.assertion == a;
      if !AnyContains(later, e.at - 1) || !AnyContains(later, e.at) {
        kept := kept + [e];
      }
    }
  }

  /** The days of a's own assertion and request, added to what its source has taken. */
  method Take(taken: map<Source, seq<Period>>, a: Assertion) returns (r: map<Source, seq<Period>>)
    requires a.period.Proper()
    requires forall g :: AllProper(TakenBy(taken, g))
    ensures forall g :: AllProper(TakenBy(r, g))
    ensures forall g, d :: Took(r, g, d) <==> Took(taken, g, d) || (g == a.source.Group() && Reaches(a, d))
  {
    var g := a.source.Group();
    var ps := [a.period];
    if a.source.asked.Proper() {
      ps := ps + [a.source.asked];
    }
    r := taken[g := TakenBy(taken, g) + ps];
    assert TakenBy(r, g) == TakenBy(taken, g) + ps;
    assert forall h :: h != g ==> TakenBy(r, h) == TakenBy(taken, h);
    forall h, d
      ensures Took(r, h, d) <==> Took(taken, h, d) || (h == g && Reaches(a, d))
    {
      if h == g {
        AnySplit(TakenBy(taken, g), ps, d);
        AnyOne(a.period, d);
        if a.source.asked.Proper() {
          AnySplit([a.period], [a.source.asked], d);
          AnyOne(a.source.asked, d);
        }
      }
    }
  }

  /** got has the wanted value at the place of each of the first n ranked assertions. */
  ghost predicate Settled<T>(idx: seq<Ranked>, n: nat, got: seq<T>, want: seq<T>) {
    && |got| == |want|
    && forall m :: 0 <= m < n <= |idx| ==> idx[m].index < |got| && got[idx[m].index] == want[idx[m].index]
  }

  lemma SettledGrows<T>(idx: seq<Ranked>, q: nat, got: seq<T>, want: seq<T>, v: T)
    requires Settled(idx, q, got, want) && q < |idx|
    requires idx[q].index < |want| && v == want[idx[q].index]
    ensures Settled(idx, q + 1, got[idx[q].index := v], want)
  {
  }

  lemma ClipIsPieces(held: seq<Assertion>, a: Assertion, later: seq<Period>, out: seq<Assertion>)
    requires a.period.Proper()
    requires forall d :: AnyContains(later, d) <==> Overtaken(held, a, d)
    requires Canonical(PeriodsOf(out))
    requires forall d :: AnyContains(PeriodsOf(out), d) <==> a.period.Contains(d) && !AnyContains(later, d)
    requires out == PiecesOver(a, PeriodsOf(out))
    ensures out == Pieces(held, a)
  {
    var rs := Runs(d => !Overtaken(held, a, d), a.period.from, a.period.before);
    CanonicalUnique(PeriodsOf(out), rs);
  }

  /**
   * What the later answers of each source leave of the assertions, in one sweep from
   * the newest answer to the oldest. It is the day by day rule.
   */
  method Sweep(held: seq<Assertion>) returns (out: seq<Assertion>, es: seq<Edge>)
    requires ProperAssertions(held)
    ensures out == CurrentPieces(held)
    ensures es == CurrentEdges(held)
  {
    var idx := StableSort(RankedNewestFirst, Rank(held));
    RankedOnce(held, idx);
    var taken: map<Source, seq<Period>> := map[];
    var pieces: seq<seq<Assertion>> := seq(|held|, _ => []);
    var kept: seq<seq<Edge>> := seq(|held|, _ => []);
    var k := 0;
    while k < |idx|
      invariant 0 <= k <= |idx|
      invariant RunStart(held, idx, k)
      invariant TakenSoFar(idx, k, taken)
      invariant Settled(idx, k, pieces, AllPieces(held))
      invariant Settled(idx, k, kept, AllKept(held))
    {
      var j := RunEnd(held, idx, k);
      pieces, kept := SettleRun(held, idx, k, j, taken, pieces, kept, AllPieces(held), AllKept(held));
      taken := TakeRun(held, idx, k, j, taken);
      k := j;
    }
    AllSettled(held, idx, pieces, AllPieces(held));
    AllSettled(held, idx, kept, AllKept(held));
    out := Flatten(pieces);
    es := Flatten(kept);
  }

  lemma AllSettled<T>(held: seq<Assertion>, idx: seq<Ranked>, got: seq<T>, want: seq<T>)
    requires multiset(idx) == multiset(Rank(held)) && |want| == |held|
    requires Settled(idx, |idx|, got, want)
    ensures got == want
  {
    RankedOnce(held, idx);
    forall i | 0 <= i < |held|
      ensures got[i] == want[i]
    {
      assert Ranked(i, held[i]) in idx;
    }
  }

  /** Clips each assertion of the run [k, j) by what the newer runs have taken. */
  method SettleRun(ghost held: seq<Assertion>, idx: seq<Ranked>, k: nat, j: nat, taken: map<Source, seq<Period>>,
      was: seq<seq<Assertion>>, wasKept: seq<seq<Edge>>, ghost wanted: seq<seq<Assertion>>, ghost wantedKept: seq<seq<Edge>>)
      returns (pieces: seq<seq<Assertion>>, kept: seq<seq<Edge>>)
    requires ProperAssertions(held) && RunStart(held, idx, k) && k <= j <= |idx|
    requires forall q :: k <= q < j ==> !idx[k].a.source.Newer(idx[q].a.source)
    requires TakenSoFar(idx, k, taken)
    requires |wanted| == |wantedKept| == |held|
    requires forall i :: 0 <= i < |held| ==> wanted[i] == Pieces(held, held[i]) && wantedKept[i] == Kept(held, EdgesOf(held[i]))
    requires Settled(idx, k, was, wanted) && Settled(idx, k, wasKept, wantedKept)
    ensures Settled(idx, j, pieces, wanted)
    ensures Settled(idx, j, kept, wantedKept)
  {
    pieces, kept := was, wasKept;
    RankedOnce(held, idx);
    for q := k to j
      invariant Settled(idx, q, pieces, wanted) && Settled(idx, q, kept, wantedKept)
    {
      assert idx[q].a == held[idx[q].index];
      var left, edges := Leaves(held, idx, k, q, taken);
      SettledGrows(idx, q, pieces, wanted, left);
      SettledGrows(idx, q, kept, wantedKept, edges);
      pieces, kept := pieces[idx[q].index := left], kept[idx[q].index := edges];
    }
  }

  /** Adds what the run [k, j) reaches to the periods taken. */
  method TakeRun(ghost held: seq<Assertion>, idx: seq<Ranked>, k: nat, j: nat, was: map<Source, seq<Period>>)
      returns (taken: map<Source, seq<Period>>)
    requires ProperAssertions(held) && multiset(idx) == multiset(Rank(held)) && k <= j <= |idx|
    requires TakenSoFar(idx, k, was)
    ensures TakenSoFar(idx, j, taken)
  {
    taken := was;
    RankedOnce(held, idx);
    for q := k to j
      invariant TakenSoFar(idx, q, taken)
    {
      assert idx[q].a == held[idx[q].index];
      ghost var before := taken;
      taken := Take(taken, idx[q].a);
      TakenGrows(idx, q, before, taken);
    }
  }

  /** What the periods taken by the newer runs leave of the assertion ranked q. */
  method Leaves(ghost held: seq<Assertion>, idx: seq<Ranked>, ghost k: nat, q: nat, taken: map<Source, seq<Period>>)
      returns (left: seq<Assertion>, edges: seq<Edge>)
    requires ProperAssertions(held) && RunStart(held, idx, k) && k <= q < |idx|
    requires !idx[k].a.source.Newer(idx[q].a.source)
    requires TakenSoFar(idx, k, taken)
    requires idx[q].a in held
    ensures left == Pieces(held, idx[q].a)
    ensures edges == Kept(held, EdgesOf(idx[q].a))
  {
    var a := idx[q].a;
    var later := Union(TakenBy(taken, a.source.Group()));
    forall d
      ensures AnyContains(later, d) <==> Overtaken(held, a, d)
    {
      RunOvertaken(held, idx, k, q, d);
      assert Took(taken, a.source.Group(), d) <==> ReachedBy(idx[..k], a.source.Group(), d);
    }
    left := Clip(a, later);
    ClipIsPieces(held, a, later, left);
    edges := Keep(a, later, held);
  }

  method Flatten<T(!new)>(ss: seq<seq<T>>) returns (out: seq<T>)
    ensures out == Concat(ss)
  {
    out := [];
    for i := 0 to |ss|
      invariant out == Concat(ss[..i])
    {
      assert ss[..i + 1][..i] == ss[..i];
      out := out + ss[i];
    }
    assert ss[..|ss|] == ss;
  }

  lemma TakenGrows(idx: seq<Ranked>, q: nat, was: map<Source, seq<Period>>, taken: map<Source, seq<Period>>)
    requires q < |idx| && TakenSoFar(idx, q, was)
    requires forall g :: AllProper(TakenBy(taken, g))
    requires forall g, d :: Took(taken, g, d) <==> Took(was, g, d) || (g == idx[q].a.source.Group() && Reaches(idx[q].a, d))
    ensures TakenSoFar(idx, q + 1, taken)
  {
  }

  /** The end of the run of equally new answers that starts at k. */
  method RunEnd(ghost held: seq<Assertion>, idx: seq<Ranked>, k: nat) returns (j: nat)
    requires RunStart(held, idx, k) && k < |idx|
    ensures k < j <= |idx|
    ensures forall q :: k <= q < j ==> !idx[k].a.source.Newer(idx[q].a.source)
    ensures RunStart(held, idx, j)
  {
    j := k;
    while j < |idx| && !idx[k].a.source.Newer(idx[j].a.source)
      invariant k <= j <= |idx|
      invariant forall q :: k <= q < j ==> !idx[k].a.source.Newer(idx[q].a.source)
    {
      j := j + 1;
    }
    forall m, n | 0 <= m < j <= n < |idx|
      ensures idx[m].a.source.Newer(idx[n].a.source)
    {
      if k <= m {
        assert idx[k].a.source.Newer(idx[j].a.source);
        assert n == j || RankedNewestFirst(idx[j], idx[n]);
        assert m == k || RankedNewestFirst(idx[k], idx[m]);
      }
    }
  }
}
