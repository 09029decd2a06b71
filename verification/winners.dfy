/** Which assertion wins each day (derive.go, winners and better). */
module Winners {
  import opened Options
  import opened Sorting
  import opened Periods
  import opened Facts

  /** What a ticker names over a run of days, by the assertion that won them. */
  datatype Winner = Winner(from: int, before: int, instr: Option<int>, assertion: Assertion) {
    predicate Contains(d: int) {
      from <= d < before
    }
  }

  datatype Disagreement = Disagreement(period: Period, winner: Assertion, loser: Assertion)

  /** What a ticker names on a day: no assertion says, or nothing, or an instrument. */
  datatype Name = Silent | Nothing | Named(instr: int)

  function NameOf(instr: Option<int>): Name {
    if instr.Some? then Named(instr.value) else Nothing
  }

  // ----- The rule, day by day -----

  /** The higher standing, then the lower precedence, then a positive assertion, then the lower id. */
  predicate Better(a: Assertion, b: Assertion) {
    if a.source.Outranks(b.source) then true
    else if b.source.Outranks(a.source) then false
    else if a.instr.None? != b.instr.None? then a.instr.Some?
    else if a.instr.None? then false
    else a.instr.value < b.instr.value
  }

  /** b names an instrument from a day before a starts. */
  predicate KnewBefore(b: Assertion, a: Assertion) {
    b.instr.Some? && b.period.from < a.period.from
  }

  predicate SameDatasource(b: Assertion, a: Assertion) {
    !b.source.IsAttested() && b.source.datasource == a.source.datasource
  }

  /**
   * A datasource's negative assertion counts only after the same datasource asserted the
   * ticker, and an administrator's after any positive assertion.
   */
  predicate Counts(held: seq<Assertion>, a: Assertion) {
    || a.instr.Some?
    || exists b :: b in held && KnewBefore(b, a) && (a.source.IsAttested() || SameDatasource(b, a))
  }

  predicate Holds(held: seq<Assertion>, a: Assertion, d: int) {
    a in held && Counts(held, a) && a.period.Contains(d)
  }

  /** a holds d and nothing that holds d is better. */
  predicate Tops(held: seq<Assertion>, a: Assertion, d: int) {
    Holds(held, a, d) && forall b :: b in held && Holds(held, b, d) ==> !Better(b, a)
  }

  /** What the ticker names on d by the assertions alone. */
  ghost function NameOn(held: seq<Assertion>, d: int): Name {
    if exists a :: Tops(held, a, d) then
      var a :| Tops(held, a, d);
      NameOf(a.instr)
    else
      Silent
  }

  // ----- Theorems about the rule -----

  /** Better is a strict order up to ties, and a tie names one thing. */
  lemma BetterOrders(a: Assertion, b: Assertion, c: Assertion)
    ensures Better(a, b) ==> !Better(b, a)
    ensures !Better(a, b) && !Better(b, c) ==> !Better(a, c)
    ensures !Better(a, b) && !Better(b, a) ==> a.instr == b.instr
  {
  }

  lemma TopsAgree(held: seq<Assertion>, d: int)
    ensures forall a, b :: Tops(held, a, d) && Tops(held, b, d) ==> a.instr == b.instr
  {
  }

  lemma NameOnTop(held: seq<Assertion>, a: Assertion, d: int)
    requires Tops(held, a, d)
    ensures NameOn(held, d) == NameOf(a.instr)
  {
  }

  lemma SameHolds(xs: seq<Assertion>, ys: seq<Assertion>)
    requires forall a :: a in xs <==> a in ys
    ensures forall a, d :: Holds(xs, a, d) <==> Holds(ys, a, d)
    ensures forall a, d :: Tops(xs, a, d) <==> Tops(ys, a, d)
  {
  }

  /** The order of the assertions, and repeating one, never changes what a day names. */
  lemma NameIgnoresOrder(xs: seq<Assertion>, ys: seq<Assertion>, d: int)
    requires forall a :: a in xs <==> a in ys
    ensures NameOn(xs, d) == NameOn(ys, d)
  {
    SameHolds(xs, ys);
    TopsAgree(xs, d);
    if a :| Tops(xs, a, d) {
      NameOnTop(xs, a, d);
      NameOnTop(ys, a, d);
    }
  }

  // ----- What the sweep returns -----

  /** The assertion at place i of s wins day d: it tops it, and no earlier one does. */
  predicate WinsAt(s: seq<Assertion>, i: nat, d: int) {
    i < |s| && Tops(s, s[i], d) && forall j :: 0 <= j < i ==> !Tops(s, s[j], d)
  }

  ghost predicate OrderedWinners(ws: seq<Winner>) {
    && (forall i :: 0 <= i < |ws| ==> ws[i].from < ws[i].before)
    && (forall i, j :: 0 <= i < j < |ws| ==> ws[i].before <= ws[j].from)
  }

  predicate WonOn(ws: seq<Winner>, d: int) {
    exists i :: 0 <= i < |ws| && ws[i].Contains(d)
  }

  predicate EdgeAt(es: seq<Edge>, c: int) {
    exists i :: 0 <= i < |es| && es[i].at == c
  }

  /** Winner i is a run of days before pos that place won[i] wins, and it crosses no edge. */
  ghost predicate WinnerRun(s: seq<Assertion>, es: seq<Edge>, pos: int, w: Winner, place: nat) {
    && place < |s|
    && w.before <= pos
    && w.assertion == s[place] && w.instr == s[place].instr
    && (forall d :: w.Contains(d) ==> WinsAt(s, place, d))
    && (forall c :: w.from < c < w.before ==> !EdgeAt(es, c))
  }

  /** ws are the winners of the days before pos, each run as long as it can be. */
  ghost predicate WinnersBy(s: seq<Assertion>, es: seq<Edge>, pos: int, ws: seq<Winner>, won: seq<nat>) {
    && |won| == |ws|
    && OrderedWinners(ws)
    && (forall i :: 0 <= i < |ws| ==> WinnerRun(s, es, pos, ws[i], won[i]))
    && (forall a, d :: Holds(s, a, d) && d < pos ==> WonOn(ws, d))
    && (forall i, j :: 0 <= i && j == i + 1 < |ws| && ws[i].before == ws[j].from && won[i] == won[j] ==> EdgeAt(es, ws[j].from))
  }

  /** Places b and l of s are datasources' assertions that name different things on d, and b wins it. */
  ghost predicate Disagrees(s: seq<Assertion>, b: nat, l: nat, d: int) {
    && WinsAt(s, b, d) && l < |s| && Holds(s, s[l], d)
    && !s[b].source.IsAttested() && !s[l].source.IsAttested()
    && s[b].instr != s[l].instr
  }

  /** ds are the disagreements of the days before pos, each pair at most once a day. */
  ghost predicate DisagreementsBy(s: seq<Assertion>, pos: int, ds: seq<Disagreement>, lost: seq<(nat, nat)>) {
    && |lost| == |ds|
    && (forall k :: 0 <= k < |ds| ==> DisagreementRun(s, pos, ds[k], lost[k]))
    && (forall b, l, d :: Disagrees(s, b, l, d) && d < pos ==> Reported(ds, lost, b, l, d))
    && (forall k, m :: 0 <= k < m < |ds| && lost[k] == lost[m] ==> ds[k].period.before <= ds[m].period.from)
  }

  ghost predicate DisagreementRun(s: seq<Assertion>, pos: int, x: Disagreement, pair: (nat, nat)) {
    && x.period.Proper() && x.period.before <= pos
    && pair.0 < |s| && pair.1 < |s| && x.winner == s[pair.0] && x.loser == s[pair.1]
    && (forall d :: x.period.Contains(d) ==> Disagrees(s, pair.0, pair.1, d))
  }

  ghost predicate Reported(ds: seq<Disagreement>, lost: seq<(nat, nat)>, b: nat, l: nat, d: int)
  {
    exists k :: 0 <= k < |ds| && k < |lost| && lost[k] == (b, l) && ds[k].period.Contains(d)
  }

  predicate StartsFirst(a: Assertion, b: Assertion) {
    a.period.from <= b.period.from
  }

  /** The assertions in the order the sweep ranks ties by. */
  function ByStart(held: seq<Assertion>): (s: seq<Assertion>)
    ensures SortedBy(StartsFirst, s)
    ensures forall a :: a in s <==> a in held
  {
    SameElements(held, StableSort(StartsFirst, held));
    StableSort(StartsFirst, held)
  }

  ghost predicate AreWinners(held: seq<Assertion>, es: seq<Edge>, ws: seq<Winner>) {
    exists pos, won :: WinnersBy(ByStart(held), es, pos, ws, won) && forall a, d :: Holds(ByStart(held), a, d) ==> d < pos
  }

  ghost predicate AreDisagreements(held: seq<Assertion>, ds: seq<Disagreement>) {
    exists pos, lost :: DisagreementsBy(ByStart(held), pos, ds, lost) && forall a, d :: Holds(ByStart(held), a, d) ==> d < pos
  }

  /** What the winners name on d. */
  ghost function NameBy(ws: seq<Winner>, d: int): Name {
    if WonOn(ws, d) then
      var i :| 0 <= i < |ws| && ws[i].Contains(d);
      NameOf(ws[i].instr)
    else
      Silent
  }

  lemma NameByRun(ws: seq<Winner>, i: nat, d: int)
    requires OrderedWinners(ws) && i < |ws| && ws[i].Contains(d)
    ensures NameBy(ws, d) == NameOf(ws[i].instr)
  {
  }

  /** The winners name on each day exactly what the day rule names. */
  lemma WinnersName(held: seq<Assertion>, es: seq<Edge>, ws: seq<Winner>, d: int)
    requires AreWinners(held, es, ws)
    ensures NameBy(ws, d) == NameOn(held, d)
  {
    var s := ByStart(held);
    var pos, won :| WinnersBy(s, es, pos, ws, won) && forall a, d :: Holds(s, a, d) ==> d < pos;
    SameHolds(s, held);
    if WonOn(ws, d) {
      var i :| 0 <= i < |ws| && ws[i].Contains(d);
      NameByRun(ws, i, d);
      assert WinsAt(s, won[i], d);
      NameOnTop(held, s[won[i]], d);
    } else {
      assert forall a :: !Holds(s, a, d);
      assert forall a :: !Tops(held, a, d);
    }
  }

  /** Two orders of one set of assertions win every day for the same name. */
  lemma WinnersIgnoreOrder(xs: seq<Assertion>, ys: seq<Assertion>, es: seq<Edge>, fs: seq<Edge>, vs: seq<Winner>, ws: seq<Winner>, d: int)
    requires forall a :: a in xs <==> a in ys
    requires AreWinners(xs, es, vs) && AreWinners(ys, fs, ws)
    ensures NameBy(vs, d) == NameBy(ws, d)
  {
    WinnersName(xs, es, vs, d);
    WinnersName(ys, fs, ws, d);
    NameIgnoresOrder(xs, ys, d);
  }

  // ----- Who wins a day, from the fields of the assertions -----

  /**
   * a holds day d, and counts: it names an instrument, or it comes after one that does, of its own
   * datasource, or of any where an administrator attests it.
   */
  ghost predicate StandsOn(held: seq<Assertion>, a: Assertion, d: int) {
    && a in held && a.period.from <= d < a.period.before
    && (a.instr == None ==> exists b :: b in held && MattersTo(b, a))
  }

  predicate MattersTo(b: Assertion, a: Assertion) {
    && b.instr != None && b.period.from < a.period.from
    && (a.source.standing == Attested || (b.source.standing != Attested && b.source.datasource == a.source.datasource))
  }

  ghost predicate AnyStands(held: seq<Assertion>, d: int, standing: Standing) {
    exists a :: StandsOn(held, a, d) && a.source.standing == standing
  }

  /**
   * w is one of the best assertions of day d: an attestation where any holds it, else the market's
   * event source where it does; of those the lowest precedence number; of those an instrument
   * rather than nothing, and the lowest id.
   */
  ghost predicate BestOfDay(held: seq<Assertion>, w: Assertion, d: int) {
    && StandsOn(held, w, d)
    && (AnyStands(held, d, Attested) ==> w.source.standing == Attested)
    && (!AnyStands(held, d, Attested) && AnyStands(held, d, EventSource) ==> w.source.standing == EventSource)
    && (forall b :: StandsOn(held, b, d) && b.source.standing == w.source.standing ==> w.source.precedence <= b.source.precedence)
    && (forall b :: StandsOn(held, b, d) && b.source.standing == w.source.standing && b.source.precedence == w.source.precedence ==>
          AsLow(w.instr, b.instr))
  }

  /** An instrument comes before nothing, and a lower id before a higher. */
  predicate AsLow(x: Option<int>, y: Option<int>) {
    y.Some? ==> x.Some? && x.value <= y.value
  }

  lemma StandsHolds(held: seq<Assertion>, a: Assertion, d: int)
    ensures StandsOn(held, a, d) <==> Holds(held, a, d)
  {
  }

  /** The day rule, from the fields: whatever tops a day is one of its best assertions, and the other way round. */
  lemma TopsIsBest(held: seq<Assertion>, w: Assertion, d: int)
    ensures Tops(held, w, d) <==> BestOfDay(held, w, d)
  {
    forall a
      ensures StandsOn(held, a, d) <==> Holds(held, a, d)
    {
      StandsHolds(held, a, d);
    }
  }

  /**
   * Each day that some assertion holds and counts on has a winner, which is one of the best of the
   * day; a day that none does has none.
   */
  lemma WinnerIsBest(held: seq<Assertion>, es: seq<Edge>, ws: seq<Winner>, d: int)
    requires AreWinners(held, es, ws)
    ensures WonOn(ws, d) <==> exists a :: StandsOn(held, a, d)
    ensures forall i :: 0 <= i < |ws| && ws[i].from <= d < ws[i].before ==>
      ws[i].instr == ws[i].assertion.instr && BestOfDay(held, ws[i].assertion, d)
  {
    var s := ByStart(held);
    var pos, won :| WinnersBy(s, es, pos, ws, won) && forall a, d :: Holds(s, a, d) ==> d < pos;
    SameHolds(s, held);
    forall a
      ensures StandsOn(held, a, d) <==> Holds(s, a, d)
    {
      StandsHolds(held, a, d);
    }
    forall i | 0 <= i < |ws| && ws[i].from <= d < ws[i].before
      ensures ws[i].instr == ws[i].assertion.instr && BestOfDay(held, ws[i].assertion, d)
    {
      assert WinnerRun(s, es, pos, ws[i], won[i]) && WinsAt(s, won[i], d);
      TopsIsBest(held, ws[i].assertion, d);
    }
  }

  /** A day names what its best assertions name, and they all name one thing. */
  lemma NameIsBest(held: seq<Assertion>, w: Assertion, d: int)
    requires BestOfDay(held, w, d)
    ensures NameOn(held, d) == match w.instr case Some(x) => Named(x) case None => Nothing
  {
    TopsIsBest(held, w, d);
    TopsAgree(held, d);
    NameOnTop(held, w, d);
  }

  /** w is one of the best of the day, and l names something else on it; both are datasources'. */
  ghost predicate DisagreeOn(held: seq<Assertion>, w: Assertion, l: Assertion, d: int) {
    && BestOfDay(held, w, d) && StandsOn(held, l, d) && w.instr != l.instr
    && w.source.standing != Attested && l.source.standing != Attested
  }

  /** One entry holds the day, with l as the loser. */
  ghost predicate Recorded(ds: seq<Disagreement>, l: Assertion, d: int) {
    exists x :: x in ds && x.loser == l && x.period.from <= d < x.period.before
  }

  /**
   * The disagreements: on each of its days an entry's winner is one of the best, a datasource's, and
   * its loser another datasource's assertion that names something else; and where a datasource's
   * wins, each other datasource's that names something else is a loser of the day.
   */
  lemma DisagreementsAre(held: seq<Assertion>, ds: seq<Disagreement>, d: int)
    requires AreDisagreements(held, ds)
    ensures forall x :: x in ds && x.period.from <= d < x.period.before ==> DisagreeOn(held, x.winner, x.loser, d)
    ensures forall w, l :: DisagreeOn(held, w, l, d) ==> Recorded(ds, l, d)
  {
    var s := ByStart(held);
    var pos, lost: seq<(nat, nat)> :| DisagreementsBy(s, pos, ds, lost) && forall a, d :: Holds(s, a, d) ==> d < pos;
    SameHolds(s, held);
    forall x | x in ds && x.period.from <= d < x.period.before
      ensures DisagreeOn(held, x.winner, x.loser, d)
    {
      var k :| 0 <= k < |ds| && ds[k] == x;
      assert DisagreementRun(s, pos, ds[k], lost[k]) && Disagrees(s, lost[k].0, lost[k].1, d);
      TopsIsBest(held, x.winner, d);
      StandsHolds(held, x.loser, d);
    }
    forall w, l | DisagreeOn(held, w, l, d)
      ensures Recorded(ds, l, d)
    {
      IsRecorded(held, s, pos, ds, lost, w, l, d);
    }
  }

  lemma IsRecorded(held: seq<Assertion>, s: seq<Assertion>, pos: int, ds: seq<Disagreement>, lost: seq<(nat, nat)>, w: Assertion, l: Assertion, d: int)
    requires s == ByStart(held) && DisagreementsBy(s, pos, ds, lost) && forall a, d :: Holds(s, a, d) ==> d < pos
    requires DisagreeOn(held, w, l, d)
    ensures Recorded(ds, l, d)
  {
    SameHolds(s, held);
    TopsIsBest(held, w, d);
    StandsHolds(held, l, d);
    var j :| 0 <= j < |s| && s[j] == w;
    var b := FirstTop(s, j, d);
    TopsAgree(s, d);
    TopsIsBest(held, s[b], d);
    var m: nat :| m < |s| && s[m] == l;
    assert AnyStands(held, d, w.source.standing);
    assert Disagrees(s, b, m, d);
    var k :| 0 <= k < |ds| && k < |lost| && lost[k] == (b, m) && ds[k].period.Contains(d);
    assert DisagreementRun(s, pos, ds[k], lost[k]) && ds[k] in ds;
  }

  lemma {:induction false} FirstTop(s: seq<Assertion>, j: nat, d: int) returns (b: nat)
    requires j < |s| && Tops(s, s[j], d)
    ensures WinsAt(s, b, d)
  {
    if i: nat :| i < j && Tops(s, s[i], d) {
      b := FirstTop(s, i, d);
    } else {
      b := j;
    }
  }

  // ----- The sweep -----

  /** e is the first day an assertion of s that satisfies p starts, or absent where none does. */
  ghost predicate FirstOf(s: seq<Assertion>, p: Assertion -> bool, e: Option<int>) {
    && (e.Some? ==> exists b :: b in s && p(b) && b.period.from == e.value)
    && (forall b :: b in s && p(b) ==> e.Some? && e.value <= b.period.from)
  }

  ghost function Names(): Assertion -> bool {
    (b: Assertion) => b.instr.Some?
  }

  ghost function NamesAt(datasource: string): Assertion -> bool {
    (b: Assertion) => b.instr.Some? && !b.source.IsAttested() && b.source.datasource == datasource
  }

  function FirstDay(first: map<string, int>, k: string): Option<int> {
    if k in first then Some(first[k]) else None
  }

  function AddFirst(first: map<string, int>, a: Assertion): map<string, int> {
    if a.instr.Some? && !a.source.IsAttested() && a.source.datasource !in first then
      first[a.source.datasource := a.period.from]
    else
      first
  }

  function AddEarliest(earliest: Option<int>, a: Assertion): Option<int> {
    if a.instr.Some? && earliest.None? then Some(a.period.from) else earliest
  }

  /** The first days of the assertions of s: of any, and of each datasource. */
  ghost predicate FirstsOf(s: seq<Assertion>, earliest: Option<int>, first: map<string, int>) {
    && FirstOf(s, Names(), earliest)
    && forall k :: FirstOf(s, NamesAt(k), FirstDay(first, k))
  }

  lemma FirstsGrow(s: seq<Assertion>, i: nat, earliest: Option<int>, first: map<string, int>)
    requires SortedBy(StartsFirst, s) && i < |s|
    requires FirstsOf(s[..i], earliest, first)
    ensures FirstsOf(s[..i + 1], AddEarliest(earliest, s[i]), AddFirst(first, s[i]))
  {
  }

  /** The first day an assertion names an instrument, and the first per datasource. */
  method FirstPositives(s: seq<Assertion>) returns (earliest: Option<int>, first: map<string, int>)
    requires SortedBy(StartsFirst, s)
    ensures FirstsOf(s, earliest, first)
  {
    earliest, first := None, map[];
    for i := 0 to |s|
      invariant FirstsOf(s[..i], earliest, first)
    {
      FirstsGrow(s, i, earliest, first);
      var a := s[i];
      if a.instr.Some? {
        if earliest.None? {
          earliest := Some(a.period.from);
        }
        if !a.source.IsAttested() && a.source.datasource !in first {
          first := first[a.source.datasource := a.period.from];
        }
      }
    }
    assert s[..|s|] == s;
  }

  /** The places of the assertions that count, and the bounds of their periods. */
  method Count(s: seq<Assertion>) returns (counted: seq<int>, bounds: seq<int>)
    requires SortedBy(StartsFirst, s)
    ensures Increasing(counted)
    ensures forall i :: i in counted <==> 0 <= i < |s| && Counts(s, s[i])
    ensures forall i :: i in counted ==> 0 <= i < |s| && s[i].period.from in bounds && s[i].period.before in bounds
  {
    var earliest, first := FirstPositives(s);
    counted, bounds := [], [];
    for i := 0 to |s|
      invariant Increasing(counted)
      invariant forall j :: j in counted <==> 0 <= j < i && Counts(s, s[j])
      invariant forall j :: j in counted ==> s[j].period.from in bounds && s[j].period.before in bounds
    {
      var a := s[i];
      var counts := a.instr.Some?;
      if !counts {
        var on := if a.source.IsAttested() then earliest else FirstDay(first, a.source.datasource);
        counts := on.Some? && on.value < a.period.from;
        CountsBy(s, a, on);
      }
      if counts {
        IncreasingAppend(counted, i);
        counted, bounds := counted + [i], bounds + [a.period.from, a.period.before];
      }
    }
  }

  /** A negative assertion counts iff the first day that matters to it is before it starts. */
  lemma CountsBy(s: seq<Assertion>, a: Assertion, on: Option<int>)
    requires a.instr.None?
    requires FirstOf(s, if a.source.IsAttested() then Names() else NamesAt(a.source.datasource), on)
    ensures Counts(s, a) <==> on.Some? && on.value < a.period.from
  {
  }

  /** The bounds hold every day on which an assertion that counts starts or ends, and every edge. */
  ghost predicate Bounding(s: seq<Assertion>, es: seq<Edge>, bounds: seq<int>) {
    && Increasing(bounds)
    && (forall a :: a in s && Counts(s, a) ==> a.period.from in bounds && a.period.before in bounds)
    && (forall c :: EdgeAt(es, c) ==> c in bounds)
  }

  /** Between two neighbouring bounds every day has the same assertions, winner and disagreements. */
  lemma SameBetween(s: seq<Assertion>, es: seq<Edge>, bounds: seq<int>, k: nat, d: int)
    requires Bounding(s, es, bounds) && k + 1 < |bounds|
    requires bounds[k] <= d < bounds[k + 1]
    ensures forall a :: Holds(s, a, d) <==> Holds(s, a, bounds[k])
    ensures forall i :: WinsAt(s, i, d) <==> WinsAt(s, i, bounds[k])
    ensures forall b, l :: Disagrees(s, b, l, d) <==> Disagrees(s, b, l, bounds[k])
    ensures d > bounds[k] ==> !EdgeAt(es, d)
  {
  }

  /** The best of the assertions that hold d, the first of equals, and all that hold it. */
  method BestOn(s: seq<Assertion>, counted: seq<int>, d: int) returns (best: int, day: seq<int>)
    requires Increasing(counted)
    requires forall i :: i in counted <==> 0 <= i < |s| && Counts(s, s[i])
    ensures best < 0 ==> forall a :: !Holds(s, a, d)
    ensures best >= 0 ==> WinsAt(s, best, d)
    ensures Increasing(day)
    ensures forall i :: i in day <==> 0 <= i < |s| && Holds(s, s[i], d)
  {
    best, day := -1, [];
    for n := 0 to |counted|
      invariant Increasing(day)
      invariant forall i :: i in day <==> i in counted[..n] && 0 <= i < |s| && s[i].period.Contains(d)
      invariant best < 0 <==> day == []
      invariant best >= 0 ==> best in day
      invariant forall i :: i in day ==> !Better(s[i], s[best])
      invariant forall i :: i in day && i < best ==> Better(s[best], s[i])
    {
      var i := counted[n];
      assert i in counted;
      assert counted[..n + 1] == counted[..n] + [i];
      assert forall j :: j in counted[..n] ==> j < i;
      if s[i].period.Contains(d) {
        forall j | j in day
          ensures Better(s[i], s[best]) ==> Better(s[i], s[j]) && !Better(s[j], s[i])
        {
          BetterOrders(s[j], s[best], s[i]);
          BetterOrders(s[best], s[j], s[i]);
          BetterOrders(s[i], s[best], s[j]);
          BetterOrders(s[i], s[j], s[best]);
          BetterOrders(s[j], s[i], s[best]);
        }
        IncreasingAppend(day, i);
        day := day + [i];
        if best < 0 || Better(s[i], s[best]) {
          best := i;
        }
      }
    }
    assert counted[..|counted|] == counted;
    BestWins(s, best, day, d);
  }

  lemma BestWins(s: seq<Assertion>, best: int, day: seq<int>, d: int)
    requires forall i :: i in day <==> 0 <= i < |s| && Holds(s, s[i], d)
    requires best < 0 <==> day == []
    requires best >= 0 ==> best in day
    requires forall i :: i in day ==> !Better(s[i], s[best])
    requires forall i :: i in day && i < best ==> Better(s[best], s[i])
    ensures best < 0 ==> forall a :: !Holds(s, a, d)
    ensures best >= 0 ==> WinsAt(s, best, d)
  {
  }

  lemma WinnersSkip(s: seq<Assertion>, es: seq<Edge>, bounds: seq<int>, k: nat, ws: seq<Winner>, won: seq<nat>)
    requires Bounding(s, es, bounds) && k + 1 < |bounds|
    requires WinnersBy(s, es, bounds[k], ws, won)
    requires forall a :: !Holds(s, a, bounds[k])
    ensures WinnersBy(s, es, bounds[k + 1], ws, won)
  {
    forall a, d | Holds(s, a, d) && d < bounds[k + 1]
      ensures WonOn(ws, d)
    {
      if bounds[k] <= d {
        SameBetween(s, es, bounds, k, d);
      }
    }
  }

  /** A run over the days between two neighbouring bounds that place best wins. */
  lemma FreshRun(s: seq<Assertion>, es: seq<Edge>, bounds: seq<int>, k: nat, best: nat)
    requires Bounding(s, es, bounds) && k + 1 < |bounds|
    requires WinsAt(s, best, bounds[k])
    ensures WinnerRun(s, es, bounds[k + 1], Winner(bounds[k], bounds[k + 1], s[best].instr, s[best]), best)
  {
    forall d | bounds[k] <= d < bounds[k + 1]
      ensures WinsAt(s, best, d) && (d > bounds[k] ==> !EdgeAt(es, d))
    {
      SameBetween(s, es, bounds, k, d);
    }
  }

  lemma WinnersAppend(s: seq<Assertion>, es: seq<Edge>, bounds: seq<int>, k: nat, ws: seq<Winner>, won: seq<nat>, best: nat)
    requires Bounding(s, es, bounds) && k + 1 < |bounds|
    requires WinnersBy(s, es, bounds[k], ws, won)
    requires WinsAt(s, best, bounds[k])
    requires ws != [] && won[|ws| - 1] == best && ws[|ws| - 1].before == bounds[k] ==> EdgeAt(es, bounds[k])
    ensures WinnersBy(s, es, bounds[k + 1], ws + [Winner(bounds[k], bounds[k + 1], s[best].instr, s[best])], won + [best])
  {
    FreshRun(s, es, bounds, k, best);
    var w := Winner(bounds[k], bounds[k + 1], s[best].instr, s[best]);
    var vs := ws + [w];
    forall a, d | Holds(s, a, d) && d < bounds[k + 1]
      ensures WonOn(vs, d)
    {
      if d < bounds[k] {
        var i :| 0 <= i < |ws| && ws[i].Contains(d);
        assert vs[i].Contains(d);
      } else {
        assert vs[|ws|].Contains(d);
      }
    }
  }

  lemma WinnersExtend(s: seq<Assertion>, es: seq<Edge>, bounds: seq<int>, k: nat, ws: seq<Winner>, won: seq<nat>, best: nat)
    requires Bounding(s, es, bounds) && k + 1 < |bounds|
    requires WinnersBy(s, es, bounds[k], ws, won)
    requires WinsAt(s, best, bounds[k])
    requires ws != [] && won[|ws| - 1] == best && ws[|ws| - 1].before == bounds[k] && !EdgeAt(es, bounds[k])
    ensures WinnersBy(s, es, bounds[k + 1], ws[|ws| - 1 := ws[|ws| - 1].(before := bounds[k + 1])], won)
  {
    FreshRun(s, es, bounds, k, best);
    var n := |ws| - 1;
    var next := Winner(bounds[k], bounds[k + 1], s[best].instr, s[best]);
    var vs := ws[n := ws[n].(before := bounds[k + 1])];
    RunsJoin(s, es, bounds[k], bounds[k + 1], ws[n], next, best);
    forall a, d | Holds(s, a, d) && d < bounds[k + 1]
      ensures WonOn(vs, d)
    {
      WonExtends(ws, bounds[k + 1], d);
    }
    forall i | 0 <= i < |vs|
      ensures WinnerRun(s, es, bounds[k + 1], vs[i], won[i])
    {
      if i < n {
        assert WinnerRun(s, es, bounds[k], ws[i], won[i]);
      }
    }
  }

  lemma WonExtends(ws: seq<Winner>, before: int, d: int)
    requires ws != [] && OrderedWinners(ws) && ws[|ws| - 1].before <= before
    ensures WonOn(ws, d) || ws[|ws| - 1].before <= d < before ==> WonOn(ws[|ws| - 1 := ws[|ws| - 1].(before := before)], d)
  {
    var n := |ws| - 1;
    var vs := ws[n := ws[n].(before := before)];
    if WonOn(ws, d) {
      var i :| 0 <= i < |ws| && ws[i].Contains(d);
      assert vs[i].Contains(d);
    } else if ws[n].before <= d < before {
      assert vs[n].Contains(d);
    }
  }

  lemma RunsJoin(s: seq<Assertion>, es: seq<Edge>, from: int, before: int, w: Winner, next: Winner, best: nat)
    requires WinnerRun(s, es, from, w, best) && w.before == from && from < before
    requires WinnerRun(s, es, before, next, best) && next.from == from && next.before == before
    requires !EdgeAt(es, from)
    ensures WinnerRun(s, es, before, w.(before := before), best)
  {
  }

  /** The winners with the days between two neighbouring bounds, which place best wins. */
  method AddWinner(ghost s: seq<Assertion>, ghost es: seq<Edge>, ghost bounds: seq<int>, ghost k: nat,
      from: int, before: int, cut: set<int>, a: Assertion, best: nat, ws: seq<Winner>, won: seq<nat>)
      returns (vs: seq<Winner>, won': seq<nat>)
    requires Bounding(s, es, bounds) && k + 1 < |bounds| && from == bounds[k] && before == bounds[k + 1]
    requires forall c :: c in cut <==> EdgeAt(es, c)
    requires WinnersBy(s, es, from, ws, won)
    requires WinsAt(s, best, from) && a == s[best]
    ensures WinnersBy(s, es, before, vs, won')
  {
    var n := |ws|;
    if n > 0 && won[n - 1] == best && ws[n - 1].before == from && from !in cut {
      WinnersExtend(s, es, bounds, k, ws, won, best);
      vs, won' := ws[n - 1 := ws[n - 1].(before := before)], won;
    } else {
      WinnersAppend(s, es, bounds, k, ws, won, best);
      vs, won' := ws + [Winner(from, before, a.instr, a)], won + [best];
    }
  }

  /**
   * The disagreements while the sweep takes in the days [from, before), which place best
   * wins, and has looked at the places done of those that hold them.
   */
  ghost predicate DisagreementsMid(s: seq<Assertion>, from: int, before: int, best: nat, done: seq<int>,
      ds: seq<Disagreement>, lost: seq<(nat, nat)>) {
    && |lost| == |ds|
    && (forall k :: 0 <= k < |ds| ==> DisagreementRun(s, before, ds[k], lost[k]))
    && (forall b, l, d :: Disagrees(s, b, l, d) && d < from ==> Reported(ds, lost, b, l, d))
    && (forall l, d :: Disagrees(s, best, l, d) && from <= d < before && l in done ==> Reported(ds, lost, best, l, d))
    && (forall k, m :: 0 <= k < m < |ds| && lost[k] == lost[m] ==> ds[k].period.before <= ds[m].period.from)
    && (forall k :: 0 <= k < |ds| && lost[k].1 !in done ==> ds[k].period.before <= from)
  }

  lemma DisagreementsStart(s: seq<Assertion>, from: int, before: int, best: nat, ds: seq<Disagreement>, lost: seq<(nat, nat)>)
    requires from < before && DisagreementsBy(s, from, ds, lost)
    ensures DisagreementsMid(s, from, before, best, [], ds, lost)
  {
  }

  lemma WinsOnce(s: seq<Assertion>, i: nat, j: nat, d: int)
    requires WinsAt(s, i, d) && WinsAt(s, j, d)
    ensures i == j
  {
  }

  lemma DisagreementsEnd(s: seq<Assertion>, from: int, before: int, best: nat, done: seq<int>, ds: seq<Disagreement>, lost: seq<(nat, nat)>)
    requires DisagreementsMid(s, from, before, best, done, ds, lost)
    requires forall d :: from <= d < before ==> WinsAt(s, best, d)
    requires forall l, d :: Disagrees(s, best, l, d) && from <= d < before ==> l in done
    ensures DisagreementsBy(s, before, ds, lost)
  {
    forall b, l, d | Disagrees(s, b, l, d) && d < before
      ensures Reported(ds, lost, b, l, d)
    {
      if from <= d {
        WinsOnce(s, b, best, d);
      }
    }
  }

  lemma DisagreementsNone(s: seq<Assertion>, es: seq<Edge>, bounds: seq<int>, k: nat, ds: seq<Disagreement>, lost: seq<(nat, nat)>)
    requires Bounding(s, es, bounds) && k + 1 < |bounds|
    requires DisagreementsBy(s, bounds[k], ds, lost)
    requires forall a :: !Holds(s, a, bounds[k])
    ensures DisagreementsBy(s, bounds[k + 1], ds, lost)
  {
    forall i | 0 <= i < |ds|
      ensures DisagreementRun(s, bounds[k + 1], ds[i], lost[i])
    {
      assert DisagreementRun(s, bounds[k], ds[i], lost[i]);
    }
    forall b, l, d | Disagrees(s, b, l, d) && d < bounds[k + 1]
      ensures Reported(ds, lost, b, l, d)
    {
      if bounds[k] <= d {
        SameBetween(s, es, bounds, k, d);
      }
    }
  }

  lemma DisagreementsSkip(s: seq<Assertion>, from: int, before: int, best: nat, done: seq<int>, i: nat,
      ds: seq<Disagreement>, lost: seq<(nat, nat)>)
    requires DisagreementsMid(s, from, before, best, done, ds, lost)
    requires forall d :: !Disagrees(s, best, i, d)
    ensures DisagreementsMid(s, from, before, best, done + [i], ds, lost)
  {
  }

  /** A new entry for the pair (best, i). */
  lemma DisagreementsNew(s: seq<Assertion>, from: int, before: int, best: nat, done: seq<int>, i: nat,
      ds: seq<Disagreement>, lost: seq<(nat, nat)>)
    requires from < before && best < |s| && i < |s| && i !in done
    requires DisagreementsMid(s, from, before, best, done, ds, lost)
    requires forall d :: from <= d < before ==> Disagrees(s, best, i, d)
    ensures DisagreementsMid(s, from, before, best, done + [i], ds + [Disagreement(Period(from, before), s[best], s[i])], lost + [(best, i)])
  {
    var x := Disagreement(Period(from, before), s[best], s[i]);
    forall b: nat, l: nat, d | Reported(ds, lost, b, l, d)
      ensures Reported(ds + [x], lost + [(best, i)], b, l, d)
    {
      var k :| 0 <= k < |ds| && k < |lost| && lost[k] == (b, l) && ds[k].period.Contains(d);
      assert (ds + [x])[k] == ds[k] && (lost + [(best, i)])[k] == lost[k];
    }
    forall d | from <= d < before
      ensures Reported(ds + [x], lost + [(best, i)], best, i, d)
    {
      assert (ds + [x])[|ds|] == x && (lost + [(best, i)])[|ds|] == (best, i);
    }
  }

  /** The entry j of the pair (best, i), which ends at from, goes on to before. */
  lemma DisagreementsGoOn(s: seq<Assertion>, from: int, before: int, best: nat, done: seq<int>, i: nat, j: nat,
      ds: seq<Disagreement>, lost: seq<(nat, nat)>)
    requires from < before && i < |s| && i !in done
    requires DisagreementsMid(s, from, before, best, done, ds, lost)
    requires forall d :: from <= d < before ==> Disagrees(s, best, i, d)
    requires j < |ds| && lost[j] == (best, i) && ds[j].period.before == from
    ensures DisagreementsMid(s, from, before, best, done + [i],
              ds[j := ds[j].(period := Period(ds[j].period.from, before))], lost)
  {
  }

  /** The place of the first pair equal to x, or -1. */
  method IndexOf(lost: seq<(nat, nat)>, x: (nat, nat)) returns (j: int)
    ensures -1 <= j < |lost|
    ensures j >= 0 ==> lost[j] == x
    ensures j < 0 ==> x !in lost
  {
    for k := 0 to |lost|
      invariant x !in lost[..k]
    {
      if lost[k] == x {
        return k;
      }
    }
    assert lost[..|lost|] == lost;
    j := -1;
  }

  /** What holds at a bound holds on every day up to the next. */
  /** On each day of [from, before) place best wins, and the places of day hold it, with all that disagree. */
  ghost predicate SameDay(s: seq<Assertion>, best: nat, day: seq<int>, from: int, before: int) {
    && best < |s| && Increasing(day)
    && (forall d :: from <= d < before ==> WinsAt(s, best, d))
    && (forall i :: i in day ==> 0 <= i < |s|)
    && (forall i, d :: i in day && from <= d < before ==> Holds(s, s[i], d))
    && (forall l, d :: from <= d < before && Disagrees(s, best, l, d) ==> l in day)
  }

  lemma Across(s: seq<Assertion>, es: seq<Edge>, bounds: seq<int>, k: nat, best: nat, day: seq<int>)
    requires Bounding(s, es, bounds) && k + 1 < |bounds|
    requires WinsAt(s, best, bounds[k]) && Increasing(day)
    requires forall i :: i in day <==> 0 <= i < |s| && Holds(s, s[i], bounds[k])
    ensures SameDay(s, best, day, bounds[k], bounds[k + 1])
  {
    forall d | bounds[k] <= d < bounds[k + 1]
      ensures WinsAt(s, best, d)
      ensures forall i :: i in day ==> 0 <= i < |s| && Holds(s, s[i], d)
      ensures forall l :: Disagrees(s, best, l, d) ==> l in day
    {
      SameBetween(s, es, bounds, k, d);
    }
  }

  /** The disagreements with those of the days [from, before), which place best wins. */
  method Disagree(s: seq<Assertion>, from: int, before: int, best: nat, day: seq<int>, ds: seq<Disagreement>, lost: seq<(nat, nat)>)
      returns (out: seq<Disagreement>, pairs: seq<(nat, nat)>)
    requires from < before && SameDay(s, best, day, from, before)
    requires DisagreementsBy(s, from, ds, lost)
    ensures DisagreementsBy(s, before, out, pairs)
  {
    out, pairs := ds, lost;
    DisagreementsStart(s, from, before, best, ds, lost);
    if s[best].source.IsAttested() {
      DisagreementsEnd(s, from, before, best, [], out, pairs);
      return;
    }
    for n := 0 to |day|
      invariant DisagreementsMid(s, from, before, best, day[..n], out, pairs)
    {
      assert day[n] in day && day[..n + 1] == day[..n] + [day[n]];
      out, pairs := DisagreeWith(s, from, before, best, day[..n], day[n], out, pairs);
    }
    assert day[..|day|] == day;
    DisagreementsEnd(s, from, before, best, day, out, pairs);
  }

  /** The disagreements with the one of place i, if it names something else than place best, over the days [from, before). */
  method DisagreeWith(s: seq<Assertion>, from: int, before: int, best: nat, ghost done: seq<int>, i: nat, ds: seq<Disagreement>, lost: seq<(nat, nat)>)
      returns (out: seq<Disagreement>, pairs: seq<(nat, nat)>)
    requires from < before && best < |s| && i < |s| && i !in done && !s[best].source.IsAttested()
    requires forall d :: from <= d < before ==> WinsAt(s, best, d) && Holds(s, s[i], d)
    requires DisagreementsMid(s, from, before, best, done, ds, lost)
    ensures DisagreementsMid(s, from, before, best, done + [i], out, pairs)
  {
    out, pairs := ds, lost;
    if s[i].source.IsAttested() || s[i].instr == s[best].instr {
      DisagreementsSkip(s, from, before, best, done, i, out, pairs);
      return;
    }
    var j := IndexOf(pairs, (best, i));
    if j >= 0 && out[j].period.before == from {
      DisagreementsGoOn(s, from, before, best, done, i, j, out, pairs);
      out := out[j := out[j].(period := Period(out[j].period.from, before))];
      return;
    }
    DisagreementsNew(s, from, before, best, done, i, out, pairs);
    out, pairs := out + [Disagreement(Period(from, before), s[best], s[i])], pairs + [(best, i)];
  }

  /** The days on which an edge falls. */
  method CutDays(es: seq<Edge>) returns (cut: set<int>, days: seq<int>)
    ensures forall c :: c in cut <==> EdgeAt(es, c)
    ensures forall c :: c in days <==> EdgeAt(es, c)
  {
    cut, days := {}, [];
    for i := 0 to |es|
      invariant forall c :: c in cut <==> EdgeAt(es[..i], c)
      invariant forall c :: c in days <==> c in cut
    {
      cut, days := cut + {es[i].at}, days + [es[i].at];
      forall c
        ensures EdgeAt(es[..i + 1], c) <==> EdgeAt(es[..i], c) || c == es[i].at
      {
        EdgeAtNext(es, i, c);
      }
    }
    assert es[..|es|] == es;
  }

  lemma EdgeAtNext(es: seq<Edge>, i: nat, c: int)
    requires i < |es|
    ensures EdgeAt(es[..i + 1], c) <==> EdgeAt(es[..i], c) || c == es[i].at
  {
  }

  /** The winner of each run of days and the disagreements, in one sweep over the bounds. */
  method Sweep(held: seq<Assertion>, es: seq<Edge>) returns (ws: seq<Winner>, ds: seq<Disagreement>)
    ensures AreWinners(held, es, ws)
    ensures AreDisagreements(held, ds)
  {
    var s := ByStart(held);
    var counted, starts := Count(s);
    var cut, days := CutDays(es);
    var bounds := SortedDistinct(starts + days);
    Bounds(s, es, counted, starts, days, bounds);
    var won: seq<nat>, lost: seq<(nat, nat)> := [], [];
    ws, ds := [], [];
    SweepStarts(s, es, bounds);
    var k := 0;
    while k + 1 < |bounds|
      invariant 0 <= k && (bounds != [] ==> k < |bounds|)
      invariant WinnersBy(s, es, Pos(bounds, k), ws, won)
      invariant DisagreementsBy(s, Pos(bounds, k), ds, lost)
    {
      var from, before := bounds[k], bounds[k + 1];
      var best, day := BestOn(s, counted, from);
      if best < 0 {
        WinnersSkip(s, es, bounds, k, ws, won);
        DisagreementsNone(s, es, bounds, k, ds, lost);
      } else {
        ws, won := AddWinner(s, es, bounds, k, from, before, cut, s[best], best, ws, won);
        Across(s, es, bounds, k, best, day);
        ds, lost := Disagree(s, from, before, best, day, ds, lost);
      }
      k := k + 1;
    }
    Conclude(held, es, bounds, ws, won, ds, lost);
  }

  lemma Conclude(held: seq<Assertion>, es: seq<Edge>, bounds: seq<int>, ws: seq<Winner>, won: seq<nat>, ds: seq<Disagreement>, lost: seq<(nat, nat)>)
    requires WinnersBy(ByStart(held), es, Pos(bounds, |bounds| - 1), ws, won)
    requires DisagreementsBy(ByStart(held), Pos(bounds, |bounds| - 1), ds, lost)
    requires bounds == [] ==> forall a, d :: !Holds(ByStart(held), a, d)
    requires bounds != [] ==> forall a, d :: Holds(ByStart(held), a, d) ==> bounds[0] <= d < bounds[|bounds| - 1]
    ensures AreWinners(held, es, ws)
    ensures AreDisagreements(held, ds)
  {
  }

  /** The day up to which the sweep has looked when it is at bound k. */
  function Pos(bounds: seq<int>, k: int): int {
    if 0 <= k < |bounds| then bounds[k] else 0
  }

  lemma SweepStarts(s: seq<Assertion>, es: seq<Edge>, bounds: seq<int>)
    requires bounds == [] ==> forall a, d :: !Holds(s, a, d)
    requires bounds != [] ==> forall a, d :: Holds(s, a, d) ==> bounds[0] <= d < bounds[|bounds| - 1]
    ensures WinnersBy(s, es, Pos(bounds, 0), [], [])
    ensures DisagreementsBy(s, Pos(bounds, 0), [], [])
  {
  }

  lemma Bounds(s: seq<Assertion>, es: seq<Edge>, counted: seq<int>, starts: seq<int>, days: seq<int>, bounds: seq<int>)
    requires forall i :: i in counted <==> 0 <= i < |s| && Counts(s, s[i])
    requires forall i :: i in counted ==> 0 <= i < |s| && s[i].period.from in starts && s[i].period.before in starts
    requires forall c :: c in days <==> EdgeAt(es, c)
    requires Increasing(bounds) && forall x :: x in bounds <==> x in starts + days
    ensures Bounding(s, es, bounds)
    ensures bounds == [] ==> forall a, d :: !Holds(s, a, d)
    ensures bounds != [] ==> forall a, d :: Holds(s, a, d) ==> bounds[0] <= d < bounds[|bounds| - 1]
  {
  }
}
