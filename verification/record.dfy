/** Recording the answers of a datasource for a ticker, the latest winning (corpact/record.go). */
module Records {
  import opened Options
  import opened Periods
  import opened Ratios
  import opened Folding
  import opened CorpActs

  /** An action as a datasource reports it. */
  datatype Reported = Reported(exDate: int, ratio: Ratio, kind: string, handled: bool) {
    /** The action is the one o reports. */
    predicate Matches(o: Reported) {
      exDate == o.exDate && ratio.Equal(o.ratio) && kind == o.kind && handled == o.handled
    }

    /** The actions are of one kind. A ratio of nothing for nothing is a kind of its own, though it matches every other. */
    predicate Alike(o: Reported) {
      Matches(o) && (ratio.Stated() <==> o.ratio.Stated())
    }
  }

  /** A served answer: when, over which days, and what. */
  datatype Served = Served(answered: int, coverage: Option<Period>, acts: seq<Reported>)

  function ReportOf(a: Act): Reported {
    Reported(a.exDate, a.ratio, a.kind, a.handled)
  }

  function ReportsOf(acts: seq<Act>): (r: seq<Reported>)
    ensures |r| == |acts| && forall i :: 0 <= i < |acts| ==> r[i] == ReportOf(acts[i])
  {
    seq(|acts|, i requires 0 <= i < |acts| => ReportOf(acts[i]))
  }

  ghost predicate AllStated(es: seq<Reported>) {
    forall e :: e in es ==> e.ratio.Stated()
  }

  lemma AlikeIsEquivalence(a: Reported, b: Reported, c: Reported)
    ensures a.Alike(a)
    ensures a.Alike(b) <==> b.Alike(a)
    ensures a.Alike(b) ==> (a.Alike(c) <==> b.Alike(c))
  {
    if a.ratio.Stated() && b.ratio.Stated() {
      if a.Alike(b) && a.Alike(c) {
        EqualThrough(b.ratio, a.ratio, c.ratio);
      }
      if a.Alike(b) && b.Alike(c) {
        EqualThrough(a.ratio, b.ratio, c.ratio);
      }
    }
  }

  // ----- Counting the actions of a kind -----

  function One(e: Reported, k: Reported): nat {
    if e.Alike(k) then 1 else 0
  }

  /** How many of the actions are of k's kind. */
  function Count(es: seq<Reported>, k: Reported): nat {
    if es == [] then 0 else Count(es[..|es| - 1], k) + One(es[|es| - 1], k)
  }

  lemma CountAppend(es: seq<Reported>, e: Reported, k: Reported)
    ensures Count(es + [e], k) == Count(es, k) + One(e, k)
  {
  }

  lemma {:induction false} CountConcat(xs: seq<Reported>, ys: seq<Reported>, k: Reported)
    ensures Count(xs + ys, k) == Count(xs, k) + Count(ys, k)
  {
    if ys == [] {
      assert xs + ys == xs;
    } else {
      var n := |ys| - 1;
      assert xs + ys == (xs + ys[..n]) + [ys[n]];
      CountAppend(xs + ys[..n], ys[n], k);
      CountConcat(xs, ys[..n], k);
    }
  }

  lemma {:induction false} CountNone(es: seq<Reported>, k: Reported)
    ensures Count(es, k) == 0 <==> forall e :: e in es ==> !e.Alike(k)
  {
    if es != [] {
      var n := |es| - 1;
      assert es == es[..n] + [es[n]];
      CountNone(es[..n], k);
    }
  }

  /** The values whose flag is the one wanted, in their order. */
  function Select<T>(xs: seq<T>, flags: seq<bool>, want: bool): (r: seq<T>)
    requires |xs| == |flags|
    ensures forall x :: x in r ==> x in xs
  {
    if xs == [] then [] else
      var n := |xs| - 1;
      Select(xs[..n], flags[..n], want) + if flags[n] == want then [xs[n]] else []
  }

  lemma SelectAppend<T>(xs: seq<T>, flags: seq<bool>, x: T, flag: bool, want: bool)
    requires |xs| == |flags|
    ensures Select(xs + [x], flags + [flag], want) == if flag == want then Select(xs, flags, want) + [x] else Select(xs, flags, want)
  {
  }

  /** Each action is selected one way or the other. */
  lemma {:induction false} CountSelect(es: seq<Reported>, flags: seq<bool>, k: Reported)
    requires |es| == |flags|
    ensures Count(Select(es, flags, true), k) + Count(Select(es, flags, false), k) == Count(es, k)
  {
    if es != [] {
      var n := |es| - 1;
      assert es == es[..n] + [es[n]] && flags == flags[..n] + [flags[n]];
      CountSelect(es[..n], flags[..n], k);
      SelectAppend(es[..n], flags[..n], es[n], flags[n], true);
      SelectAppend(es[..n], flags[..n], es[n], flags[n], false);
      CountAppend(Select(es[..n], flags[..n], flags[n]), es[n], k);
    }
  }

  lemma CountLast(es: seq<Reported>, flags: seq<bool>, want: bool, k: Reported)
    requires |es| == |flags| && es != []
    ensures var n := |es| - 1;
      Count(Select(es, flags, want), k) == Count(Select(es[..n], flags[..n], want), k) + if flags[n] == want then One(es[n], k) else 0
  {
    var n := |es| - 1;
    assert es == es[..n] + [es[n]] && flags == flags[..n] + [flags[n]];
    SelectAppend(es[..n], flags[..n], es[n], flags[n], want);
    CountAppend(Select(es[..n], flags[..n], want), es[n], k);
  }

  /** Pairing one more action leaves one fewer of its kind unpaired. */
  lemma {:induction false} CountPair(es: seq<Reported>, flags: seq<bool>, i: nat, k: Reported)
    requires |es| == |flags| && i < |es| && !flags[i]
    ensures Count(Select(es, flags, false), k) == Count(Select(es, flags[i := true], false), k) + One(es[i], k)
  {
    var n := |es| - 1;
    var next := flags[i := true];
    CountLast(es, flags, false, k);
    CountLast(es, next, false, k);
    if i == n {
      assert next[..n] == flags[..n];
    } else {
      assert next[..n] == flags[..n][i := true];
      CountPair(es[..n], flags[..n], i, k);
    }
  }

  // ----- Merging -----

  /** Of each kind, kept and left make up what is reported, and none is gone while one is left. */
  ghost predicate Balanced(kept: seq<Reported>, gone: seq<Reported>, left: seq<Reported>, reported: seq<Reported>) {
    forall k: Reported :: KindBalanced(kept, gone, left, reported, k)
  }

  ghost predicate KindBalanced(kept: seq<Reported>, gone: seq<Reported>, left: seq<Reported>, reported: seq<Reported>, k: Reported) {
    && Count(kept, k) + Count(left, k) == Count(reported, k)
    && (Count(gone, k) == 0 || Count(left, k) == 0)
  }

  lemma PairBalances(kept: seq<Reported>, gone: seq<Reported>, es: seq<Reported>, flags: seq<bool>, s: Reported, i: nat)
    requires |es| == |flags| && i < |es| && !flags[i] && AllStated(es) && s.ratio.Stated()
    requires es[i].Matches(s)
    requires Balanced(kept, gone, Select(es, flags, false), es)
    ensures Balanced(kept + [s], gone, Select(es, flags[i := true], false), es)
  {
    var left := Select(es, flags[i := true], false);
    forall k: Reported
      ensures KindBalanced(kept + [s], gone, left, es, k)
    {
      assert KindBalanced(kept, gone, Select(es, flags, false), es, k);
      CountAppend(kept, s, k);
      CountPair(es, flags, i, k);
      assert es[i] in es;
      AlikeIsEquivalence(es[i], s, k);
    }
  }

  lemma DropBalances(kept: seq<Reported>, gone: seq<Reported>, left: seq<Reported>, es: seq<Reported>, s: Reported)
    requires AllStated(left) && s.ratio.Stated() && Balanced(kept, gone, left, es)
    requires forall e :: e in left ==> !e.Matches(s)
    ensures Balanced(kept, gone + [s], left, es)
  {
    forall k: Reported
      ensures KindBalanced(kept, gone + [s], left, es, k)
    {
      assert KindBalanced(kept, gone, left, es, k);
      CountAppend(gone, s, k);
      CountNone(left, k);
      forall e | e in left && s.Alike(k)
        ensures !e.Alike(k)
      {
        AlikeIsEquivalence(s, k, e);
        AlikeIsEquivalence(e, k, s);
        AlikeIsEquivalence(e, s, k);
      }
    }
  }

  /** found is the place of the first unpaired action that is the one s reports, or none is. */
  ghost predicate IsFirst(es: seq<Reported>, flags: seq<bool>, s: Reported, found: Option<nat>)
    requires |es| == |flags|
  {
    match found
    case Some(i) => i < |es| && !flags[i] && es[i].Matches(s) && forall j :: 0 <= j < i ==> flags[j] || !es[j].Matches(s)
    case None => forall j :: 0 <= j < |es| ==> flags[j] || !es[j].Matches(s)
  }

  method FirstUnpaired(es: seq<Reported>, paired: array<bool>, s: Reported) returns (found: Option<nat>)
    requires paired.Length == |es|
    ensures IsFirst(es, paired[..], s, found)
  {
    for i := 0 to |es|
      invariant forall j :: 0 <= j < i ==> paired[j] || !es[j].Matches(s)
    {
      if !paired[i] && es[i].Matches(s) {
        return Some(i);
      }
    }
    found := None;
  }

  function FirstMatch(es: seq<Reported>, flags: seq<bool>, s: Reported): (found: Option<nat>)
    requires |es| == |flags|
    ensures IsFirst(es, flags, s, found)
  {
    if es == [] then None else
      var n := |es| - 1;
      var found := FirstMatch(es[..n], flags[..n], s);
      if found.None? && !flags[n] && es[n].Matches(s) then Some(n) else found
  }

  lemma FirstOnce(es: seq<Reported>, flags: seq<bool>, s: Reported, i: Option<nat>, j: Option<nat>)
    requires |es| == |flags| && IsFirst(es, flags, s, i) && IsFirst(es, flags, s, j)
    ensures i == j
  {
  }

  lemma {:induction false} SelectFlagged<T>(xs: seq<T>, flags: seq<bool>, want: bool, x: T)
    requires |xs| == |flags|
    ensures x in Select(xs, flags, want) <==> exists i :: 0 <= i < |xs| && flags[i] == want && xs[i] == x
  {
    if xs != [] {
      var n := |xs| - 1;
      SelectFlagged(xs[..n], flags[..n], want, x);
      if x in Select(xs[..n], flags[..n], want) {
        var i :| 0 <= i < n && flags[..n][i] == want && xs[..n][i] == x;
        assert flags[i] == want && xs[i] == x;
      }
      if i :| 0 <= i < |xs| && flags[i] == want && xs[i] == x {
        assert i < n ==> flags[..n][i] == want && xs[..n][i] == x;
      }
    }
  }

  /** Which reported actions are paired, and which stored ones stay. */
  datatype Pairing = Pairing(flags: seq<bool>, stays: seq<bool>)

  /** The pairing once each of the first n stored actions took the first unpaired one that it is. */
  function PairedUpTo(stored: seq<Act>, es: seq<Reported>, n: nat): (p: Pairing)
    requires n <= |stored|
    ensures |p.flags| == |es| && |p.stays| == n
  {
    if n == 0 then Pairing(seq(|es|, _ => false), []) else
      var p := PairedUpTo(stored, es, n - 1);
      var found := FirstMatch(es, p.flags, ReportOf(stored[n - 1]));
      Pairing(if found.Some? then p.flags[found.value := true] else p.flags, p.stays + [found.Some?])
  }

  function StaysOf(stored: seq<Act>, reported: seq<Reported>): (stays: seq<bool>)
    ensures |stays| == |stored|
  {
    PairedUpTo(stored, reported, |stored|).stays
  }

  function AddedOf(stored: seq<Act>, reported: seq<Reported>): seq<Reported> {
    Select(reported, PairedUpTo(stored, reported, |stored|).flags, false)
  }

  /**
   * What a merge should do: stays says which stored actions are reported still, added are the
   * reported ones that are new, and of each kind these make up what is reported.
   */
  ghost predicate IsMerge(stored: seq<Act>, reported: seq<Reported>, stays: seq<bool>, added: seq<Reported>) {
    && |stays| == |stored|
    && Balanced(ReportsOf(Select(stored, stays, true)), ReportsOf(Select(stored, stays, false)), added, reported)
  }

  /**
   * Pairs each stored action with a reported one that it is, each at most once. gone are the
   * stored actions left unpaired, added the reported ones.
   */
  method Merge(stored: seq<Act>, reported: seq<Reported>) returns (gone: seq<nat>, added: seq<Reported>)
    ensures gone == IdsOf(Select(stored, StaysOf(stored, reported), false))
    ensures added == AddedOf(stored, reported)
    ensures AllPositive(stored) && AllStated(reported) ==> IsMerge(stored, reported, StaysOf(stored, reported), added)
  {
    var paired := new bool[|reported|](_ => false);
    assert paired[..] == PairedUpTo(stored, reported, 0).flags;
    gone := Pair(stored, reported, paired);
    added := Unpaired(reported, paired);
    if AllPositive(stored) && AllStated(reported) {
      MergeIsRight(stored, reported);
    }
  }

  /** flags and gone are what pairing the first n stored actions leaves. */
  ghost predicate PairedSoFar(stored: seq<Act>, reported: seq<Reported>, n: nat, flags: seq<bool>, gone: seq<nat>) {
    && n <= |stored| && flags == PairedUpTo(stored, reported, n).flags
    && gone == IdsOf(Select(stored[..n], PairedUpTo(stored, reported, n).stays, false))
  }

  lemma PairedNext(stored: seq<Act>, reported: seq<Reported>, n: nat, flags: seq<bool>, gone: seq<nat>, found: Option<nat>)
    requires n < |stored| && PairedSoFar(stored, reported, n, flags, gone)
    requires IsFirst(reported, flags, ReportOf(stored[n]), found)
    ensures PairedSoFar(stored, reported, n + 1, if found.Some? then flags[found.value := true] else flags,
                        if found.Some? then gone else gone + [stored[n].id])
  {
    assert stored[..n + 1] == stored[..n] + [stored[n]];
    FirstOnce(reported, flags, ReportOf(stored[n]), found, FirstMatch(reported, flags, ReportOf(stored[n])));
    GoneStep(stored[..n], PairedUpTo(stored, reported, n).stays, stored[n], found.Some?);
  }

  method Pair(stored: seq<Act>, reported: seq<Reported>, paired: array<bool>) returns (gone: seq<nat>)
    requires paired.Length == |reported| && paired[..] == PairedUpTo(stored, reported, 0).flags
    modifies paired
    ensures paired[..] == PairedUpTo(stored, reported, |stored|).flags
    ensures gone == IdsOf(Select(stored, StaysOf(stored, reported), false))
  {
    gone := [];
    for n := 0 to |stored|
      invariant PairedSoFar(stored, reported, n, paired[..], gone)
    {
      var s := stored[n];
      ghost var before := paired[..];
      var found := FirstUnpaired(reported, paired, ReportOf(s));
      PairedNext(stored, reported, n, before, gone, found);
      if found.Some? {
        paired[found.value] := true;
        assert paired[..] == before[found.value := true];
      } else {
        gone := gone + [s.id];
      }
    }
    assert stored[..|stored|] == stored;
  }

  /** Between ratios that are stated, the pairing balances every kind. */
  lemma MergeIsRight(stored: seq<Act>, reported: seq<Reported>)
    requires AllPositive(stored) && AllStated(reported)
    ensures IsMerge(stored, reported, StaysOf(stored, reported), AddedOf(stored, reported))
  {
    PairingBalances(stored, reported, |stored|);
    assert stored[..|stored|] == stored;
  }

  lemma {:induction false} PairingBalances(stored: seq<Act>, reported: seq<Reported>, n: nat)
    requires AllPositive(stored) && AllStated(reported) && n <= |stored|
    ensures var p := PairedUpTo(stored, reported, n);
      Balanced(ReportsOf(Select(stored[..n], p.stays, true)), ReportsOf(Select(stored[..n], p.stays, false)), Select(reported, p.flags, false), reported)
  {
    if n == 0 {
      SelectNone(reported, PairedUpTo(stored, reported, 0).flags);
    } else {
      PairingBalances(stored, reported, n - 1);
      var p, s := PairedUpTo(stored, reported, n - 1), stored[n - 1];
      assert s in stored && stored[..n] == stored[..n - 1] + [s];
      MergeStep(stored[..n - 1], p.stays, s, reported, p.flags, FirstMatch(reported, p.flags, ReportOf(s)));
    }
  }

  // ----- What is paired, from the fields -----

  /** The reported action is the stored one: of its day, type and handling, and of an equal ratio. */
  predicate IsReported(s: Act, e: Reported) {
    && e.exDate == s.exDate && e.kind == s.kind && e.handled == s.handled
    && e.ratio.from * s.ratio.to == e.ratio.to * s.ratio.from
  }

  /** at[i] is the place of the reported action that stored action i was paired with, no two with one. */
  ghost predicate PairedAt(stored: seq<Act>, es: seq<Reported>, n: nat, at: seq<int>) {
    && n <= |stored| && |at| == n
    && (forall i :: 0 <= i < n && at[i] >= 0 ==> at[i] < |es| && IsReported(stored[i], es[at[i]]))
    && (forall i, j :: 0 <= i < j < n && at[i] >= 0 ==> at[i] != at[j])
    && forall i, j :: 0 <= i < n && at[i] < 0 && 0 <= j < |es| && IsReported(stored[i], es[j]) ==> TakenBefore(at, i, j)
  }

  /** One before i was paired with place j. */
  ghost predicate TakenBefore(at: seq<int>, i: int, j: int) {
    exists h :: 0 <= h < i && h < |at| && at[h] == j
  }

  /** at gives the pairs of the pairing: who stays has a place, and what is flagged is the place of one. */
  ghost predicate PairsOf(p: Pairing, at: seq<int>) {
    && |p.stays| == |at|
    && (forall i :: 0 <= i < |at| ==> (p.stays[i] <==> at[i] >= 0))
    && (forall j :: 0 <= j < |p.flags| ==> (p.flags[j] <==> j in at))
  }

  /**
   * The pairing, action by action: each stored action that stays has its own reported one, and
   * one goes only where every reported one that it is was taken before its turn. What is added is what none took.
   */
  lemma {:induction false} PairsAre(stored: seq<Act>, es: seq<Reported>, n: nat) returns (at: seq<int>)
    requires n <= |stored|
    ensures PairedAt(stored, es, n, at) && PairsOf(PairedUpTo(stored, es, n), at)
  {
    if n == 0 {
      at := [];
    } else {
      var before := PairsAre(stored, es, n - 1);
      var p := PairedUpTo(stored, es, n - 1);
      var found := FirstMatch(es, p.flags, ReportOf(stored[n - 1]));
      at := before + [PlaceOf(found)];
      PairsNext(stored, es, n - 1, before, p, found);
      PairNext(p, before, found);
    }
  }

  function PlaceOf(found: Option<nat>): int {
    if found.Some? then found.value else -1
  }

  lemma PairNext(p: Pairing, at: seq<int>, found: Option<nat>)
    requires PairsOf(p, at) && (found.Some? ==> found.value < |p.flags|)
    ensures PairsOf(Pairing(if found.Some? then p.flags[found.value := true] else p.flags, p.stays + [found.Some?]), at + [PlaceOf(found)])
  {
  }

  lemma PairsNext(stored: seq<Act>, es: seq<Reported>, n: nat, at: seq<int>, p: Pairing, found: Option<nat>)
    requires n < |stored| && PairedAt(stored, es, n, at) && PairsOf(p, at) && |p.flags| == |es|
    requires IsFirst(es, p.flags, ReportOf(stored[n]), found)
    ensures PairedAt(stored, es, n + 1, at + [PlaceOf(found)])
  {
    var next := at + [PlaceOf(found)];
    forall i, j | 0 <= i < n + 1 && next[i] < 0 && 0 <= j < |es| && IsReported(stored[i], es[j])
      ensures TakenBefore(next, i, j)
    {
      if i < n {
        assert TakenBefore(at, i, j);
        TakenStill(at, PlaceOf(found), i, j);
      } else {
        assert es[j].Matches(ReportOf(stored[n]));
        var h :| 0 <= h < |at| && at[h] == j;
        assert next[h] == j;
      }
    }
  }

  lemma TakenStill(at: seq<int>, place: int, i: int, j: int)
    requires TakenBefore(at, i, j) && i <= |at|
    ensures TakenBefore(at + [place], i, j)
  {
    var h :| 0 <= h < i && h < |at| && at[h] == j;
    assert (at + [place])[h] == j;
  }

  // ----- Which answers merge rightly -----

  /** Whatever is stored, merging the answer leaves of each kind what it reports. */
  ghost predicate MergesRightly(reported: seq<Reported>) {
    forall stored :: AllPositive(stored) ==> IsMerge(stored, reported, StaysOf(stored, reported), AddedOf(stored, reported))
  }

  /** An answer merges rightly with everything that can be stored exactly where none of its ratios is nothing for nothing. */
  lemma MergesRightlyIffStated(reported: seq<Reported>)
    ensures MergesRightly(reported) <==> AllStated(reported)
  {
    if AllStated(reported) {
      forall stored | AllPositive(stored)
        ensures IsMerge(stored, reported, StaysOf(stored, reported), AddedOf(stored, reported))
      {
        MergeIsRight(stored, reported);
      }
    } else {
      var e :| e in reported && !e.ratio.Stated();
      var stored := WronglyKept(reported, e);
    }
  }

  /** No ratio but nothing for nothing equals u for 1. */
  ghost predicate Misses(es: seq<Reported>, u: real) {
    forall e :: e in es && e.ratio.Equal(Ratio(1.0, u)) ==> !e.ratio.Stated()
  }

  lemma {:induction false} MissedAbove(es: seq<Reported>) returns (t: real)
    ensures t > 0.0 && forall u :: u >= t ==> Misses(es, u)
  {
    if es == [] {
      t := 1.0;
    } else {
      var n := |es| - 1;
      assert es == es[..n] + [es[n]];
      t := MissedAbove(es[..n]);
      var r := es[n].ratio;
      if r.from != 0.0 && r.to / r.from >= t {
        t := r.to / r.from + 1.0;
      }
      forall u | u >= t
        ensures Misses(es, u)
      {
        MissesLast(es, u);
      }
    }
  }

  lemma MissesLast(es: seq<Reported>, u: real)
    requires es != [] && Misses(es[..|es| - 1], u)
    requires es[|es| - 1].ratio.from != 0.0 ==> u > es[|es| - 1].ratio.to / es[|es| - 1].ratio.from
    ensures Misses(es, u)
  {
    var n := |es| - 1;
    var r := es[n].ratio;
    assert es == es[..n] + [es[n]];
    if r.from != 0.0 {
      var q := r.to / r.from;
      assert r.to == q * r.from;
      if r.Equal(Ratio(1.0, u)) {
        Cancel(u, q, r.from);
      }
    }
  }

  /** An action of a factor the answer does not report is kept all the same, paired with nothing for nothing. */
  lemma WronglyKept(reported: seq<Reported>, e: Reported) returns (stored: seq<Act>)
    requires e in reported && !e.ratio.Stated()
    ensures AllPositive(stored) && !IsMerge(stored, reported, StaysOf(stored, reported), AddedOf(stored, reported))
  {
    var u := MissedAbove(reported);
    var s := Act(0, e.exDate, Ratio(1.0, u), e.kind, e.handled, Undecided);
    stored := [s];
    var k := ReportOf(s);
    NotReported(reported, u, k);
    StaysWithZero(reported, e, s);
    KeptOne(s);
    if IsMerge(stored, reported, StaysOf(stored, reported), AddedOf(stored, reported)) {
      KeepsNoMore(stored, reported, StaysOf(stored, reported), AddedOf(stored, reported), k);
    }
  }

  /** A merge keeps no more of a kind than is reported. */
  lemma KeepsNoMore(stored: seq<Act>, reported: seq<Reported>, stays: seq<bool>, added: seq<Reported>, k: Reported)
    requires IsMerge(stored, reported, stays, added)
    ensures Count(ReportsOf(Select(stored, stays, true)), k) <= Count(reported, k)
  {
    var kept, gone := ReportsOf(Select(stored, stays, true)), ReportsOf(Select(stored, stays, false));
    assert KindBalanced(kept, gone, added, reported, k);
  }

  lemma NotReported(reported: seq<Reported>, u: real, k: Reported)
    requires Misses(reported, u) && k.ratio == Ratio(1.0, u)
    ensures Count(reported, k) == 0
  {
    CountNone(reported, k);
  }

  lemma StaysWithZero(reported: seq<Reported>, e: Reported, s: Act)
    requires e in reported && e.Matches(ReportOf(s))
    ensures StaysOf([s], reported) == [true]
  {
    var flags := PairedUpTo([s], reported, 0).flags;
    var found := FirstMatch(reported, flags, ReportOf(s));
    var i :| 0 <= i < |reported| && reported[i] == e;
    assert !flags[i];
    assert found.Some?;
    assert PairedUpTo([s], reported, 1).stays == [] + [true];
  }

  lemma KeptOne(s: Act)
    ensures Select([s], [true], true) == [s]
    ensures Count(ReportsOf([s]), ReportOf(s)) == 1
  {
    SelectAppend([], [], s, true, true);
    assert [] + [s] == [s] && [] + [true] == [true];
    AlikeIsEquivalence(ReportOf(s), ReportOf(s), ReportOf(s));
    CountAppend([], ReportOf(s), ReportOf(s));
    assert ReportsOf([s]) == [] + [ReportOf(s)];
  }

  /** 2 for 1 stored, and reported after nothing for nothing: the row stays, and a second is added. */
  lemma ZeroRatioDuplicates()
    ensures var s := Act(0, 0, Ratio(1.0, 2.0), "", false, Undecided);
      var zero := Reported(0, Ratio(0.0, 0.0), "", false);
      StaysOf([s], [zero, ReportOf(s)]) == [true] && AddedOf([s], [zero, ReportOf(s)]) == [ReportOf(s)]
  {
    var s := Act(0, 0, Ratio(1.0, 2.0), "", false, Undecided);
    var zero := Reported(0, Ratio(0.0, 0.0), "", false);
    PairsWithZero(s, zero);
    SelectSecond(zero, ReportOf(s));
  }

  lemma PairsWithZero(s: Act, zero: Reported)
    requires zero.Matches(ReportOf(s))
    ensures PairedUpTo([s], [zero, ReportOf(s)], 1) == Pairing([true, false], [true])
  {
    var es, flags := [zero, ReportOf(s)], [false, false];
    assert PairedUpTo([s], es, 0) == Pairing(flags, []);
    assert IsFirst(es, flags, ReportOf(s), Some(0));
    FirstOnce(es, flags, ReportOf(s), Some(0), FirstMatch(es, flags, ReportOf(s)));
  }

  lemma SelectSecond<T>(a: T, b: T)
    ensures Select([a, b], [true, false], false) == [b]
  {
    SelectAppend([], [], a, true, false);
    SelectAppend([a], [true], b, false, false);
    assert [] + [a] == [a] && [] + [true] == [true] && [a] + [b] == [a, b] && [true] + [false] == [true, false];
  }

  lemma GoneStep(stored: seq<Act>, stays: seq<bool>, s: Act, kept: bool)
    requires |stays| == |stored|
    ensures IdsOf(Select(stored + [s], stays + [kept], false)) == IdsOf(Select(stored, stays, false)) + if kept then [] else [s.id]
  {
  }

  method Unpaired(reported: seq<Reported>, paired: array<bool>) returns (added: seq<Reported>)
    requires paired.Length == |reported|
    ensures added == Select(reported, paired[..], false)
  {
    added := [];
    for i := 0 to |reported|
      invariant added == Select(reported[..i], paired[..i], false)
    {
      assert reported[..i + 1] == reported[..i] + [reported[i]];
      assert paired[..i + 1] == paired[..i] + [paired[i]];
      SelectAppend(reported[..i], paired[..i], reported[i], paired[i], false);
      if !paired[i] {
        added := added + [reported[i]];
      }
    }
    assert reported[..|reported|] == reported && paired[..|reported|] == paired[..];
  }

  function IdsOf(acts: seq<Act>): seq<nat> {
    seq(|acts|, i requires 0 <= i < |acts| => acts[i].id)
  }

  lemma ReportsAppend(acts: seq<Act>, a: Act)
    ensures ReportsOf(acts + [a]) == ReportsOf(acts) + [ReportOf(a)]
  {
  }

  lemma {:induction false} SelectNone(es: seq<Reported>, flags: seq<bool>)
    requires |es| == |flags| && forall i :: 0 <= i < |flags| ==> !flags[i]
    ensures Select(es, flags, false) == es
  {
    if es != [] {
      var n := |es| - 1;
      assert es == es[..n] + [es[n]];
      SelectNone(es[..n], flags[..n]);
    }
  }

  lemma MergeStep(stored: seq<Act>, stays: seq<bool>, s: Act, reported: seq<Reported>, flags: seq<bool>, found: Option<nat>)
    requires |stays| == |stored| && |flags| == |reported| && s.ratio.Stated() && AllStated(reported)
    requires Balanced(ReportsOf(Select(stored, stays, true)), ReportsOf(Select(stored, stays, false)), Select(reported, flags, false), reported)
    requires IsFirst(reported, flags, ReportOf(s), found)
    ensures var stays' := stays + [found.Some?];
      Balanced(ReportsOf(Select(stored + [s], stays', true)), ReportsOf(Select(stored + [s], stays', false)),
               Select(reported, if found.Some? then flags[found.value := true] else flags, false), reported)
  {
    SelectAppend(stored, stays, s, found.Some?, true);
    SelectAppend(stored, stays, s, found.Some?, false);
    var kept, gone := ReportsOf(Select(stored, stays, true)), ReportsOf(Select(stored, stays, false));
    if found.Some? {
      ReportsAppend(Select(stored, stays, true), s);
      PairBalances(kept, gone, reported, flags, ReportOf(s), found.value);
    } else {
      ReportsAppend(Select(stored, stays, false), s);
      var left := Select(reported, flags, false);
      forall e | e in left
        ensures !e.Matches(ReportOf(s))
      {
        SelectFlagged(reported, flags, false, e);
      }
      DropBalances(kept, gone, left, reported, ReportOf(s));
    }
  }

  /** A merge pairs exactly the fewer of what is stored and what is reported of each kind. */
  lemma MergePairsTheFewer(stored: seq<Act>, reported: seq<Reported>, stays: seq<bool>, added: seq<Reported>, k: Reported)
    requires IsMerge(stored, reported, stays, added)
    ensures var old', new' := Count(ReportsOf(stored), k), Count(reported, k);
      && Count(ReportsOf(Select(stored, stays, true)), k) == (if old' <= new' then old' else new')
      && Count(ReportsOf(Select(stored, stays, false)), k) == (if old' <= new' then 0 else old' - new')
      && Count(added, k) == (if old' <= new' then new' - old' else 0)
  {
    var kept, gone := ReportsOf(Select(stored, stays, true)), ReportsOf(Select(stored, stays, false));
    assert KindBalanced(kept, gone, added, reported, k);
    SelectReports(stored, stays, true);
    SelectReports(stored, stays, false);
    CountSelect(ReportsOf(stored), stays, k);
  }

  lemma {:induction false} SelectReports(acts: seq<Act>, flags: seq<bool>, want: bool)
    requires |acts| == |flags|
    ensures ReportsOf(Select(acts, flags, want)) == Select(ReportsOf(acts), flags, want)
  {
    if acts != [] {
      var n := |acts| - 1;
      assert ReportsOf(acts)[..n] == ReportsOf(acts[..n]);
      SelectReports(acts[..n], flags[..n], want);
      ReportsAppend(Select(acts[..n], flags[..n], want), acts[n]);
    }
  }

  /** The stored actions are those the answer reports, kind by kind. */
  ghost predicate SameKinds(acts: seq<Act>, es: seq<Reported>) {
    forall k: Reported :: Count(ReportsOf(acts), k) == Count(es, k)
  }

  lemma NothingCounted(es: seq<Reported>)
    requires forall k: Reported :: Count(es, k) == 0
    ensures es == []
  {
    if es != [] {
      CountNone(es, es[0]);
      AlikeIsEquivalence(es[0], es[0], es[0]);
    }
  }

  /** An answer that reports what is stored deletes no row and adds none. */
  lemma RepeatChangesNothing(stored: seq<Act>, reported: seq<Reported>, stays: seq<bool>, added: seq<Reported>)
    requires IsMerge(stored, reported, stays, added) && SameKinds(stored, reported)
    ensures added == [] && Select(stored, stays, false) == []
    ensures Select(stored, stays, true) == stored
  {
    var gone := ReportsOf(Select(stored, stays, false));
    forall k: Reported
      ensures Count(gone, k) == 0 && Count(added, k) == 0
    {
      MergePairsTheFewer(stored, reported, stays, added, k);
    }
    NothingCounted(gone);
    NothingCounted(added);
    SelectAll(stored, stays);
  }

  lemma {:induction false} SelectAll<T>(xs: seq<T>, flags: seq<bool>)
    requires |xs| == |flags| && Select(xs, flags, false) == []
    ensures Select(xs, flags, true) == xs
  {
    if xs != [] {
      var n := |xs| - 1;
      assert xs == xs[..n] + [xs[n]];
      SelectAll(xs[..n], flags[..n]);
    }
  }

  // ----- Writing an answer -----

  /** The days of the coverage up to the day of the answer. */
  function Covered(c: Option<Period>, at: int): (r: Option<Period>)
    ensures r.Some? ==> c.Some? && r.value.Proper() && forall d :: r.value.Contains(d) <==> c.value.Contains(d) && d <= at
    ensures r.None? <==> c.None? || forall d :: !(c.value.Contains(d) && d <= at)
  {
    if c.None? then None else
      var before := if at + 1 < c.value.before then at + 1 else c.value.before;
      assert c.value.from < before ==> c.value.Contains(c.value.from);
      if c.value.from < before then Some(Period(c.value.from, before)) else None
  }

  function Judge(e: Reported): Reported {
    e.(handled := e.handled && RestatesShares(e.ratio))
  }

  /** The actions with handled cleared where the ratio is a price factor. */
  function Judged(es: seq<Reported>): (r: seq<Reported>)
    ensures |r| == |es| && forall i :: 0 <= i < |es| ==> r[i] == Judge(es[i])
    ensures AllStated(es) ==> AllStated(r)
  {
    seq(|es|, i requires 0 <= i < |es| => Judge(es[i]))
  }

  /**
   * What is stored of a reported action: itself, handled iff it was reported so and its ratio is of
   * whole numbers, and can be written with a smaller one of at most a hundred.
   */
  lemma JudgedAre(es: seq<Reported>, i: nat)
    requires i < |es|
    ensures |Judged(es)| == |es|
    ensures var e, o := es[i], Judged(es)[i];
      && o.exDate == e.exDate && o.ratio == e.ratio && o.kind == e.kind
      && (o.handled <==> e.handled && CountsShares(e.ratio))
  {
    SharesAre(es[i].ratio);
  }

  /** A new row of each action, none decided. */
  function Rows(es: seq<Reported>, id: nat): (r: seq<Act>)
    ensures |r| == |es| && ReportsOf(r) == es
    ensures forall i :: 0 <= i < |r| ==> r[i].id == id + i && r[i].decision == Undecided
  {
    seq(|es|, i requires 0 <= i < |es| => Act(id + i, es[i].exDate, es[i].ratio, es[i].kind, es[i].handled, Undecided))
  }

  ghost predicate DistinctIds(acts: seq<Act>) {
    forall i, j :: 0 <= i < j < |acts| ==> acts[i].id != acts[j].id
  }

  function Deleted(acts: seq<Act>, gone: seq<nat>): seq<Act> {
    if acts == [] then [] else
      var n := |acts| - 1;
      Deleted(acts[..n], gone) + if acts[n].id in gone then [] else [acts[n]]
  }

  /** Deleting the rows by their ids leaves the ones that stay. */
  lemma {:induction false} DeletedKeeps(acts: seq<Act>, stays: seq<bool>, gone: seq<nat>)
    requires |stays| == |acts|
    requires forall i :: 0 <= i < |acts| ==> (acts[i].id in gone <==> !stays[i])
    ensures Deleted(acts, gone) == Select(acts, stays, true)
  {
    if acts != [] {
      var n := |acts| - 1;
      DeletedKeeps(acts[..n], stays[..n], gone);
    }
  }

  lemma GoneIds(acts: seq<Act>, stays: seq<bool>)
    requires |stays| == |acts| && DistinctIds(acts)
    ensures forall i :: 0 <= i < |acts| ==> (acts[i].id in IdsOf(Select(acts, stays, false)) <==> !stays[i])
  {
    var gone := Select(acts, stays, false);
    forall i | 0 <= i < |acts|
      ensures acts[i].id in IdsOf(gone) <==> !stays[i]
    {
      SelectFlagged(acts, stays, false, acts[i]);
      if !stays[i] {
        var m :| 0 <= m < |gone| && gone[m] == acts[i];
        assert IdsOf(gone)[m] == acts[i].id;
      }
      if acts[i].id in IdsOf(gone) {
        var m :| 0 <= m < |IdsOf(gone)| && IdsOf(gone)[m] == acts[i].id;
        SelectFlagged(acts, stays, false, gone[m]);
        var j :| 0 <= j < |acts| && !stays[j] && acts[j] == gone[m];
        assert i == j;
      }
    }
  }

  /** The stored answer of a datasource for a ticker. */
  datatype Stored = Stored(answered: Option<int>, covered: Option<Period>, acts: seq<Act>)

  predicate Later(s: Stored, k: Served) {
    s.answered.Some? && s.answered.value > k.answered
  }

  /** What is stored once k is written: k's answer, unless the stored one is later. */
  ghost predicate Settles(s: Stored, k: Served, t: Stored) {
    if Later(s, k) then t == s else
      t.answered == Some(k.answered) && t.covered == Covered(k.coverage, k.answered) && SameKinds(t.acts, Judged(k.acts))
  }

  lemma MergeSettles(old': seq<Act>, reported: seq<Reported>, stays: seq<bool>, added: seq<Reported>, id: nat)
    requires IsMerge(old', reported, stays, added)
    ensures SameKinds(Select(old', stays, true) + Rows(added, id), reported)
  {
    var kept := Select(old', stays, true);
    forall k: Reported
      ensures Count(ReportsOf(kept + Rows(added, id)), k) == Count(reported, k)
    {
      assert KindBalanced(ReportsOf(kept), ReportsOf(Select(old', stays, false)), added, reported, k);
      assert ReportsOf(kept + Rows(added, id)) == ReportsOf(kept) + added;
      CountConcat(ReportsOf(kept), added, k);
    }
  }

  /** The rows once an answer is merged: those that stay, as they were, and a new one of each action added. */
  function RowsAfter(acts: seq<Act>, reported: seq<Reported>, id: nat): seq<Act> {
    Select(acts, StaysOf(acts, reported), true) + Rows(AddedOf(acts, reported), id)
  }

  ghost predicate ValidRows(acts: seq<Act>, bound: nat) {
    AllPositive(acts) && DistinctIds(acts) && forall e :: e in acts ==> e.id < bound
  }

  lemma RowsWritten(acts: seq<Act>, reported: seq<Reported>, id: nat)
    requires ValidRows(acts, id)
    requires Accepted(AddedOf(acts, reported))
    ensures Deleted(acts, IdsOf(Select(acts, StaysOf(acts, reported), false))) + Rows(AddedOf(acts, reported), id) == RowsAfter(acts, reported, id)
    ensures ValidRows(RowsAfter(acts, reported, id), id + |AddedOf(acts, reported)|)
    ensures AllStated(reported) ==> SameKinds(RowsAfter(acts, reported, id), reported)
  {
    var stays, added := StaysOf(acts, reported), AddedOf(acts, reported);
    GoneIds(acts, stays);
    DeletedKeeps(acts, stays, IdsOf(Select(acts, stays, false)));
    KeptRows(acts, stays, id);
    NewRows(Select(acts, stays, true), added, id);
    if AllStated(reported) {
      MergeIsRight(acts, reported);
      MergeSettles(acts, reported, stays, added, id);
    }
  }

  class Record {
    var answered: Option<int>
    var covered: Option<Period>
    var acts: seq<Act>
    var nextId: nat

    ghost predicate Valid()
      reads this
    {
      ValidRows(acts, nextId) && (answered.None? ==> acts == [])
    }

    ghost function Value(): Stored
      reads this
    {
      Stored(answered, covered, acts)
    }

    constructor ()
      ensures Valid() && Value() == Stored(None, None, [])
    {
      answered, covered, acts, nextId := None, None, [], 0;
    }

    /**
     * Replaces the stored answer with k's, unless the stored one is later. A row the answer
     * repeats stays as it is, its id and decision with it. A row the table refuses fails the whole write.
     */
    method Write(k: Served) returns (ok: bool)
      requires Valid()
      modifies this
      ensures Valid()
      ensures !ok || old(Later(Value(), k)) ==> Value() == old(Value())
      ensures ok <==> old(Later(Value(), k)) || Accepted(AddedOf(old(acts), Judged(k.acts)))
      ensures ok && !old(Later(Value(), k)) ==>
        && answered == Some(k.answered) && covered == Covered(k.coverage, k.answered)
        && acts == RowsAfter(old(acts), Judged(k.acts), old(nextId))
      ensures ok && AllStated(k.acts) ==> Settles(old(Value()), k, Value())
    {
      if answered.Some? && answered.value > k.answered {
        return true;
      }
      var reported := Judged(k.acts);
      var gone, added := Merge(acts, reported);
      ok := Accepted(added);
      if ok {
        RowsWritten(acts, reported, nextId);
        answered, covered := Some(k.answered), Covered(k.coverage, k.answered);
        acts := Deleted(acts, gone) + Rows(added, nextId);
        nextId := nextId + |added|;
      }
    }
  }

  /** The table takes a row of each action: it checks that both sides of a ratio are positive. */
  predicate Accepted(es: seq<Reported>) {
    forall e :: e in es ==> e.ratio.from > 0.0 && e.ratio.to > 0.0
  }

  lemma {:induction false} KeptRows(acts: seq<Act>, stays: seq<bool>, bound: nat)
    requires |stays| == |acts| && AllPositive(acts) && DistinctIds(acts) && forall e :: e in acts ==> e.id < bound
    ensures var kept := Select(acts, stays, true);
      AllPositive(kept) && DistinctIds(kept) && forall e :: e in kept ==> e.id < bound
  {
    if acts != [] {
      var n := |acts| - 1;
      KeptRows(acts[..n], stays[..n], bound);
      forall e | e in Select(acts[..n], stays[..n], true)
        ensures e.id != acts[n].id
      {
        assert e in acts[..n];
      }
    }
  }

  lemma NewRows(kept: seq<Act>, added: seq<Reported>, id: nat)
    requires AllPositive(kept) && DistinctIds(kept) && forall e :: e in kept ==> e.id < id
    requires forall e :: e in added ==> e.ratio.Positive()
    ensures var acts := kept + Rows(added, id);
      AllPositive(acts) && DistinctIds(acts) && forall e :: e in acts ==> e.id < id + |added|
  {
  }

  // ----- Whatever order the answers arrive in -----

  /** What is stored as each answer is written. */
  ghost predicate History(states: seq<Stored>, served: seq<Served>) {
    && |states| == |served| + 1 && states[0] == Stored(None, None, [])
    && forall i, j :: 0 <= i && j == i + 1 < |states| ==> Settles(states[i], served[i], states[j])
  }

  /** m is the answer of the latest moment, and the last to arrive of that moment. */
  ghost predicate IsLatest(served: seq<Served>, m: nat) {
    && m < |served|
    && (forall i :: 0 <= i < m ==> served[i].answered <= served[m].answered)
    && (forall i :: m < i < |served| ==> served[i].answered < served[m].answered)
  }

  /** m is the one answer of the latest moment. */
  ghost predicate IsLatestAlone(served: seq<Served>, m: nat) {
    m < |served| && forall i :: 0 <= i < |served| && i != m ==> served[i].answered < served[m].answered
  }

  lemma {:induction false} LatestUpTo(states: seq<Stored>, served: seq<Served>, m: nat, n: nat)
    requires History(states, served) && IsLatest(served, m) && n <= |served|
    ensures n <= m ==> states[n].answered.None? || states[n].answered.value <= served[m].answered
    ensures n > m ==> Settles(Stored(None, None, []), served[m], states[n])
  {
    if n > 0 {
      LatestUpTo(states, served, m, n - 1);
      assert Settles(states[n - 1], served[n - 1], states[n]);
    }
  }

  /** What is stored is the answer of the latest moment, and the last to arrive of that moment. */
  lemma LatestWins(states: seq<Stored>, served: seq<Served>, m: nat)
    requires History(states, served) && IsLatest(served, m)
    ensures var last := states[|served|];
      && last.answered == Some(served[m].answered)
      && last.covered == Covered(served[m].coverage, served[m].answered)
      && SameKinds(last.acts, Judged(served[m].acts))
  {
    LatestUpTo(states, served, m, |served|);
  }

  /** Two arrival orders of the same answers store the same answer, kind by kind. */
  lemma ArrivalOrderIrrelevant(xs: seq<Stored>, ys: seq<Stored>, served: seq<Served>, permuted: seq<Served>, m: nat, k: Reported)
    requires History(xs, served) && History(ys, permuted) && IsLatestAlone(served, m)
    requires |permuted| == |served| && multiset(permuted) == multiset(served)
    ensures xs[|served|].covered == ys[|served|].covered
    ensures Count(ReportsOf(xs[|served|].acts), k) == Count(ReportsOf(ys[|served|].acts), k)
  {
    assert served[m] in multiset(permuted);
    var j: nat :| j < |permuted| && permuted[j] == served[m];
    OnlyLatest(served, permuted, m, j);
    LatestWins(xs, served, m);
    LatestWins(ys, permuted, j);
  }

  lemma OnlyLatest(served: seq<Served>, permuted: seq<Served>, m: nat, j: nat)
    requires multiset(permuted) == multiset(served) && IsLatestAlone(served, m)
    requires j < |permuted| && permuted[j] == served[m]
    ensures IsLatestAlone(permuted, j)
  {
    var rest, others := Without(served, m), Without(permuted, j);
    WithoutMultiset(served, m);
    WithoutMultiset(permuted, j);
    SameRest(multiset(rest), multiset(others), served[m]);
    forall i | 0 <= i < |permuted| && i != j
      ensures permuted[i].answered < served[m].answered
    {
      assert permuted[i] == others[if i < j then i else i - 1];
      assert permuted[i] in multiset(rest);
      var h :| 0 <= h < |rest| && rest[h] == permuted[i];
      assert rest[h] == served[if h < m then h else h + 1];
    }
  }

  lemma SameRest<T>(a: multiset<T>, b: multiset<T>, x: T)
    requires a + multiset{x} == b + multiset{x}
    ensures a == b
  {
    assert a == (a + multiset{x}) - multiset{x} && b == (b + multiset{x}) - multiset{x};
  }
}
