/** Half open ranges of days, and the interval algebra over them (period.go). */
module Periods {
  import opened Sorting

  /** It holds `from` and the days after it, up to and not including `before`. */
  datatype Period = Period(from: int, before: int) {
    predicate Contains(d: int) {
      from <= d < before
    }

    predicate Proper() {
      from < before
    }

    /** The days that both periods hold, and whether there are any. */
    function Clip(q: Period): (r: (Period, bool))
      ensures forall d :: r.0.Contains(d) <==> Contains(d) && q.Contains(d)
      ensures r.1 <==> exists d :: Contains(d) && q.Contains(d)
    {
      var p := Period(if q.from > from then q.from else from, if q.before < before then q.before else before);
      assert p.Proper() ==> p.Contains(p.from);
      (p, p.Proper())
    }
  }

  predicate AnyContains(ps: seq<Period>, d: int) {
    exists i :: 0 <= i < |ps| && ps[i].Contains(d)
  }

  ghost predicate AllProper(ps: seq<Period>) {
    forall i :: 0 <= i < |ps| ==> ps[i].Proper()
  }

  /** Non-empty periods in order, with at least one day between neighbours. */
  ghost predicate Canonical(ps: seq<Period>) {
    && AllProper(ps)
    && forall i, j :: 0 <= i < j < |ps| ==> ps[i].before < ps[j].from
  }

  ghost predicate SameDays(ps: seq<Period>, qs: seq<Period>) {
    forall d :: AnyContains(ps, d) <==> AnyContains(qs, d)
  }

  predicate FromFirst(p: Period, q: Period) {
    p.from <= q.from
  }

  /** A set of days has one canonical form, so equal days mean equal periods. */
  lemma {:induction false} CanonicalUnique(ps: seq<Period>, qs: seq<Period>)
    requires Canonical(ps) && Canonical(qs)
    requires SameDays(ps, qs)
    ensures ps == qs
  {
    if ps == [] {
      if qs != [] {
        assert qs[0].Contains(qs[0].from);
        assert AnyContains(qs, qs[0].from);
        assert false;
      }
    } else if qs == [] {
      assert ps[0].Contains(ps[0].from);
      assert AnyContains(ps, ps[0].from);
      assert false;
    } else {
      FirstFrom(ps, qs);
      FirstFrom(qs, ps);
      FirstBefore(ps, qs);
      FirstBefore(qs, ps);
      assert ps[0] == qs[0];
      forall d
        ensures AnyContains(ps[1..], d) <==> AnyContains(qs[1..], d)
      {
        AnyTail(ps, d);
        AnyTail(qs, d);
        assert AnyContains(ps, d) <==> AnyContains(qs, d);
      }
      CanonicalUnique(ps[1..], qs[1..]);
      assert ps == [ps[0]] + ps[1..] && qs == [qs[0]] + qs[1..];
    }
  }

  lemma AnyTail(ps: seq<Period>, d: int)
    requires Canonical(ps) && ps != []
    ensures AnyContains(ps[1..], d) <==> AnyContains(ps, d) && !ps[0].Contains(d)
  {
  }

  lemma FirstFrom(ps: seq<Period>, qs: seq<Period>)
    requires Canonical(ps) && Canonical(qs) && SameDays(ps, qs)
    requires ps != [] && qs != []
    ensures qs[0].from <= ps[0].from
  {
    assert ps[0].Contains(ps[0].from);
    assert AnyContains(ps, ps[0].from);
    assert AnyContains(qs, ps[0].from);
  }

  lemma FirstBefore(ps: seq<Period>, qs: seq<Period>)
    requires Canonical(ps) && Canonical(qs) && SameDays(ps, qs)
    requires ps != [] && qs != [] && ps[0].from == qs[0].from
    ensures qs[0].before <= ps[0].before
  {
    if ps[0].before < qs[0].before {
      assert qs[0].Contains(ps[0].before);
      assert AnyContains(qs, ps[0].before);
      assert false;
    }
  }

  lemma AnySplit(ps: seq<Period>, qs: seq<Period>, d: int)
    ensures AnyContains(ps + qs, d) <==> AnyContains(ps, d) || AnyContains(qs, d)
  {
    if AnyContains(ps, d) {
      var i :| 0 <= i < |ps| && ps[i].Contains(d);
      assert (ps + qs)[i].Contains(d);
    }
    if AnyContains(qs, d) {
      var i :| 0 <= i < |qs| && qs[i].Contains(d);
      assert (ps + qs)[|ps| + i].Contains(d);
    }
  }

  lemma AnyOne(p: Period, d: int)
    ensures AnyContains([p], d) <==> p.Contains(d)
  {
    assert [p][0] == p;
  }

  lemma AnyPermuted(ps: seq<Period>, qs: seq<Period>)
    requires multiset(ps) == multiset(qs)
    ensures SameDays(ps, qs)
  {
    SameElements(ps, qs);
    forall d
      ensures AnyContains(ps, d) <==> AnyContains(qs, d)
    {
      if AnyContains(ps, d) {
        var i :| 0 <= i < |ps| && ps[i].Contains(d);
        assert ps[i] in qs;
      }
      if AnyContains(qs, d) {
        var i :| 0 <= i < |qs| && qs[i].Contains(d);
        assert qs[i] in ps;
      }
    }
  }

  /** The maximal runs of the days of [from, before) that satisfy holds, found day by day. */
  ghost function Runs(holds: int -> bool, from: int, before: int): (r: seq<Period>)
    requires from <= before
    ensures Canonical(r)
    ensures forall i :: 0 <= i < |r| ==> from <= r[i].from && r[i].before <= before
    ensures forall d :: AnyContains(r, d) <==> from <= d < before && holds(d)
    decreases before - from
  {
    if from == before then [] else
      var rest := Runs(holds, from + 1, before);
      if !holds(from) then
        rest
      else if rest != [] && rest[0].from == from + 1 then
        RunGrows(rest, from);
        rest[0 := Period(from, rest[0].before)]
      else
        RunStarts(rest, from);
        [Period(from, from + 1)] + rest
  }

  lemma RunGrows(rest: seq<Period>, from: int)
    requires Canonical(rest) && rest != [] && rest[0].from == from + 1
    ensures Canonical(rest[0 := Period(from, rest[0].before)])
    ensures forall d :: AnyContains(rest[0 := Period(from, rest[0].before)], d) <==> AnyContains(rest, d) || d == from
  {
    var r := rest[0 := Period(from, rest[0].before)];
    assert r[1..] == rest[1..];
    forall d
      ensures AnyContains(r, d) <==> AnyContains(rest, d) || d == from
    {
      AnyTail(rest, d);
      AnyTail(r, d);
      assert rest[0].Contains(d) ==> AnyContains(rest, d);
      assert r[0].Contains(d) ==> AnyContains(r, d);
    }
  }

  lemma RunStarts(rest: seq<Period>, from: int)
    requires Canonical(rest)
    requires rest != [] ==> from + 1 < rest[0].from
    ensures Canonical([Period(from, from + 1)] + rest)
    ensures forall d :: AnyContains([Period(from, from + 1)] + rest, d) <==> AnyContains(rest, d) || d == from
  {
    forall d
      ensures AnyContains([Period(from, from + 1)] + rest, d) <==> AnyContains(rest, d) || d == from
    {
      AnySplit([Period(from, from + 1)], rest, d);
      AnyOne(Period(from, from + 1), d);
    }
  }

  /**
   * The days of ps as periods in order, joining those that overlap or meet.
   * The days and the form leave one possible answer; see CanonicalUnique.
   */
  method Union(ps: seq<Period>) returns (out: seq<Period>)
    ensures SameDays(out, ps)
    ensures AllProper(ps) ==> Canonical(out)
  {
    var sorted := StableSort(FromFirst, ps);
    AnyPermuted(sorted, ps);
    SameElements(ps, sorted);
    out := [];
    for i := 0 to |sorted|
      invariant out == [] <==> i == 0
      invariant forall d :: AnyContains(out, d) <==> AnyContains(sorted[..i], d)
      invariant i > 0 ==> out[|out| - 1].from <= sorted[i - 1].from
      invariant AllProper(ps) ==> Canonical(out)
    {
      var p := sorted[i];
      var n := |out|;
      ghost var was := out;
      assert AllProper(ps) ==> p.Proper() by {
        assert p in ps;
      }
      assert sorted[..i + 1] == sorted[..i] + [p];
      if n > 0 && p.from <= out[n - 1].before {
        if p.before > out[n - 1].before {
          out := out[n - 1 := out[n - 1].(before := p.before)];
        }
        assert out[..n - 1] == was[..n - 1];
        forall d
          ensures AnyContains(out, d) <==> AnyContains(sorted[..i + 1], d)
        {
          UnionJoin(was, out, p, d);
          AnySplit(sorted[..i], [p], d);
          AnyOne(p, d);
        }
      } else {
        out := out + [p];
        forall d
          ensures AnyContains(out, d) <==> AnyContains(sorted[..i + 1], d)
        {
          AnySplit(was, [p], d);
          AnySplit(sorted[..i], [p], d);
        }
      }
    }
    assert sorted[..|sorted|] == sorted;
  }

  lemma UnionJoin(was: seq<Period>, out: seq<Period>, p: Period, d: int)
    requires was != [] && |out| == |was|
    requires was[|was| - 1].from <= p.from <= was[|was| - 1].before
    requires out[..|was| - 1] == was[..|was| - 1]
    requires out[|was| - 1] == was[|was| - 1].(before := if p.before > was[|was| - 1].before then p.before else was[|was| - 1].before)
    ensures AnyContains(out, d) <==> AnyContains(was, d) || p.Contains(d)
  {
  }

  /** What Gaps has written after looking at the first i periods of the cover cs. */
  ghost predicate GapsSoFar(cs: seq<Period>, p: Period, i: nat, d: int, out: seq<Period>) {
    && p.from <= d
    && Canonical(out)
    && (forall k :: 0 <= k < |out| ==> out[k].before < d)
    && (forall e :: AnyContains(out, e) <==> p.Contains(e) && e < d && !AnyContains(cs, e))
    && (forall k, e :: 0 <= k < i && k < |cs| && cs[k].Contains(e) && p.Contains(e) ==> e < d)
    && (forall k :: i <= k < |cs| ==> d <= cs[k].from || d == p.from)
  }

  lemma GapsStep(cs: seq<Period>, p: Period, i: nat, d: int, out: seq<Period>, next: seq<Period>)
    requires Canonical(cs) && i < |cs|
    requires GapsSoFar(cs, p, i, d, out)
    requires cs[i].Clip(p).1
    requires next == if d < cs[i].Clip(p).0.from then out + [Period(d, cs[i].Clip(p).0.from)] else out
    ensures GapsSoFar(cs, p, i + 1, cs[i].Clip(p).0.before, next)
  {
    var c := cs[i].Clip(p).0;
    forall e
      ensures AnyContains(next, e) <==> p.Contains(e) && e < c.before && !AnyContains(cs, e)
    {
      if d < c.from {
        AnySplit(out, [Period(d, c.from)], e);
        AnyOne(Period(d, c.from), e);
      }
      assert c.Contains(e) ==> cs[i].Contains(e);
    }
  }

  /** The parts of p that none of covered holds, in order. */
  method Gaps(covered: seq<Period>, p: Period) returns (out: seq<Period>)
    requires AllProper(covered)
    ensures Canonical(out)
    ensures forall d :: AnyContains(out, d) <==> p.Contains(d) && !AnyContains(covered, d)
  {
    var cs := Union(covered);
    out := [];
    var d := p.from;
    for i := 0 to |cs|
      invariant GapsSoFar(cs, p, i, d, out)
    {
      var (c, ok) := cs[i].Clip(p);
      if ok {
        ghost var was := out;
        if d < c.from {
          out := out + [Period(d, c.from)];
        }
        GapsStep(cs, p, i, d, was, out);
        d := c.before;
      }
    }
    ghost var was := out;
    if d < p.before {
      out := out + [Period(d, p.before)];
    }
    forall e
      ensures AnyContains(out, e) <==> p.Contains(e) && !AnyContains(cs, e)
    {
      if d < p.before {
        AnySplit(was, [Period(d, p.before)], e);
        AnyOne(Period(d, p.before), e);
      }
    }
  }
}
