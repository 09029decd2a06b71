/** Which edges identifier attestations overrule (derive.go, overruled). */
module Overruling {
  import opened Options
  import opened Periods
  import opened Facts
  import Current

  // ----- Overruled edges -----

  function EndBefore(a: Assertion, c: int): int {
    if a.period.before < c then a.period.before else c
  }

  function StartAfter(a: Assertion, c: int): int {
    if a.period.from > c then a.period.from else c
  }

  predicate AttestsBefore(a: Assertion, c: int) {
    a.source.IsAttested() && a.period.from < c
  }

  predicate AttestsAfter(a: Assertion, c: int) {
    a.source.IsAttested() && a.period.before > c
  }

  /** Of the first n, place i holds the attestation nearest before c, the last of equals. */
  ghost predicate NearestBefore(held: seq<Assertion>, n: nat, c: int, i: nat)
    requires n <= |held|
  {
    && i < n && AttestsBefore(held[i], c)
    && (forall k :: 0 <= k < n && AttestsBefore(held[k], c) ==> EndBefore(held[k], c) <= EndBefore(held[i], c))
    && (forall k :: i < k < n && AttestsBefore(held[k], c) ==> EndBefore(held[k], c) < EndBefore(held[i], c))
  }

  /** Of the first n, place i holds the attestation nearest after c, the first of equals. */
  ghost predicate NearestAfter(held: seq<Assertion>, n: nat, c: int, i: nat)
    requires n <= |held|
  {
    && i < n && AttestsAfter(held[i], c)
    && (forall k :: 0 <= k < n && AttestsAfter(held[k], c) ==> StartAfter(held[i], c) <= StartAfter(held[k], c))
    && (forall k :: 0 <= k < i && AttestsAfter(held[k], c) ==> StartAfter(held[i], c) < StartAfter(held[k], c))
  }

  /** The attestations at places i and j are the nearest on either side of c and name one instrument. */
  ghost predicate Brackets(held: seq<Assertion>, c: int, i: nat, j: nat) {
    && NearestBefore(held, |held|, c, i) && NearestAfter(held, |held|, c, j)
    && held[i].instr.Some? && held[i].instr == held[j].instr
  }

  /** The attestations nearest the edge on either side name one instrument. */
  ghost predicate IsOverruled(e: Edge, held: seq<Assertion>) {
    exists i, j :: Brackets(held, e.at, i, j)
  }

  method Overruled(e: Edge, held: seq<Assertion>) returns (r: bool)
    ensures r <==> IsOverruled(e, held)
  {
    var c := e.at;
    var before: Option<nat>, after: Option<nat> := None, None;
    for k := 0 to |held|
      invariant before.None? ==> forall m :: 0 <= m < k ==> !AttestsBefore(held[m], c)
      invariant before.Some? ==> NearestBefore(held, k, c, before.value)
      invariant after.None? ==> forall m :: 0 <= m < k ==> !AttestsAfter(held[m], c)
      invariant after.Some? ==> NearestAfter(held, k, c, after.value)
    {
      var x := held[k];
      if !x.source.IsAttested() {
        continue;
      }
      if x.period.from < c && (before.None? || EndBefore(x, c) >= EndBefore(held[before.value], c)) {
        before := Some(k);
      }
      if x.period.before > c && (after.None? || StartAfter(x, c) < StartAfter(held[after.value], c)) {
        after := Some(k);
      }
    }
    r := before.Some? && after.Some? && held[before.value].instr.Some? && held[before.value].instr == held[after.value].instr;
    OverruledBy(e, held, before, after);
  }

  lemma NearestOnce(held: seq<Assertion>, c: int, i: nat, j: nat)
    ensures NearestBefore(held, |held|, c, i) && NearestBefore(held, |held|, c, j) ==> i == j
    ensures NearestAfter(held, |held|, c, i) && NearestAfter(held, |held|, c, j) ==> i == j
  {
  }

  lemma OverruledBy(e: Edge, held: seq<Assertion>, before: Option<nat>, after: Option<nat>)
    requires before.None? ==> forall m :: 0 <= m < |held| ==> !AttestsBefore(held[m], e.at)
    requires before.Some? ==> NearestBefore(held, |held|, e.at, before.value)
    requires after.None? ==> forall m :: 0 <= m < |held| ==> !AttestsAfter(held[m], e.at)
    requires after.Some? ==> NearestAfter(held, |held|, e.at, after.value)
    ensures IsOverruled(e, held) <==>
              before.Some? && after.Some? && held[before.value].instr.Some? && held[before.value].instr == held[after.value].instr
  {
    if before.Some? && after.Some? {
      forall i, j | Brackets(held, e.at, i, j)
        ensures i == before.value && j == after.value
      {
        NearestOnce(held, e.at, i, before.value);
        NearestOnce(held, e.at, j, after.value);
      }
      assert Brackets(held, e.at, before.value, after.value) || held[before.value].instr.None? || held[before.value].instr != held[after.value].instr;
    }
  }

  predicate AttestedOn(held: seq<Assertion>, d: int, instr: Option<int>) {
    exists a :: a in held && a.source.IsAttested() && a.period.Contains(d) && a.instr == instr
  }

  predicate AnyAttestedOn(held: seq<Assertion>, d: int) {
    exists a :: a in held && a.source.IsAttested() && a.period.Contains(d)
  }

  /** The attestations that hold a day name one thing. */
  ghost predicate AttestsOneThing(held: seq<Assertion>) {
    forall d, x, y :: AttestedOn(held, d, x) && AttestedOn(held, d, y) ==> x == y
  }

  /** p is the nearest attested day before c, and n the nearest on or after it. */
  ghost predicate NearestDays(held: seq<Assertion>, c: int, p: int, n: int) {
    && p < c <= n && AnyAttestedOn(held, p) && AnyAttestedOn(held, n)
    && forall d :: p < d < n ==> !AnyAttestedOn(held, d)
  }

  ghost predicate DaysName(held: seq<Assertion>, c: int, p: int, n: int, x: int) {
    NearestDays(held, c, p, n) && AttestedOn(held, p, Some(x)) && AttestedOn(held, n, Some(x))
  }

  /** The nearest attested days on either side of c, where there are two, name one instrument. */
  ghost predicate OverruledAt(held: seq<Assertion>, c: int) {
    exists p, n, x :: DaysName(held, c, p, n, x)
  }

  /** The order of the assertions never decides what is overruled. */
  lemma OverruledIgnoresOrder(xs: seq<Assertion>, ys: seq<Assertion>, c: int)
    requires forall a :: a in xs <==> a in ys
    ensures OverruledAt(xs, c) <==> OverruledAt(ys, c)
  {
    forall d
      ensures AnyAttestedOn(xs, d) <==> AnyAttestedOn(ys, d)
    {
    }
    forall d, x
      ensures AttestedOn(xs, d, x) <==> AttestedOn(ys, d, x)
    {
    }
    assert forall p, n, x :: DaysName(xs, c, p, n, x) <==> DaysName(ys, c, p, n, x);
  }

  /**
   * The loop's rule is the day rule: an edge is overruled iff there are attested days on both
   * sides of it and the nearest of each side name one instrument.
   */
  lemma OverruledByDays(e: Edge, held: seq<Assertion>)
    requires ProperAssertions(held) && AttestsOneThing(held)
    ensures IsOverruled(e, held) <==> OverruledAt(held, e.at)
  {
    if i, j :| Brackets(held, e.at, i, j) {
      BracketDays(held, e.at, i, j);
    }
    if p, n, x :| DaysName(held, e.at, p, n, x) {
      var i := LastNearest(held, e.at, p, n);
      var j := FirstNearest(held, e.at, p, n);
      assert AttestedOn(held, p, held[i].instr) && AttestedOn(held, n, held[j].instr);
      assert Brackets(held, e.at, i, j);
    }
  }

  /** The nearest attestations hold the nearest attested days. */
  lemma BracketDays(held: seq<Assertion>, c: int, i: nat, j: nat)
    requires ProperAssertions(held) && Brackets(held, c, i, j)
    ensures OverruledAt(held, c)
  {
    var p, n := EndBefore(held[i], c) - 1, StartAfter(held[j], c);
    var x := held[i].instr.value;
    assert held[i] in held && held[j] in held;
    forall d | p < d < n
      ensures !AnyAttestedOn(held, d)
    {
      forall a | a in held && a.source.IsAttested()
        ensures !a.period.Contains(d)
      {
        var k :| 0 <= k < |held| && held[k] == a;
        assert AttestsBefore(held[k], c) ==> EndBefore(held[k], c) <= EndBefore(held[i], c);
        assert AttestsAfter(held[k], c) ==> StartAfter(held[j], c) <= StartAfter(held[k], c);
      }
    }
    assert AttestedOn(held, p, Some(x)) && AttestedOn(held, n, Some(x));
    assert DaysName(held, c, p, n, x);
  }

  /** What current leaves attests one thing on a day: the latest attestation of the day replaces the others. */
  lemma CurrentAttestsOneThing(held: seq<Assertion>)
    requires ProperAssertions(held) && AttestedOnce(held)
    ensures AttestsOneThing(Current.CurrentPieces(held))
  {
    var ps := Current.CurrentPieces(held);
    forall a, b, d | a in ps && b in ps && a.source.IsAttested() && b.source.IsAttested() && a.period.Contains(d) && b.period.Contains(d)
      ensures a.instr == b.instr
    {
      OneAttestation(held, a, b, d);
    }
  }

  lemma OneAttestation(held: seq<Assertion>, a: Assertion, b: Assertion, d: int)
    requires ProperAssertions(held) && AttestedOnce(held)
    requires a in Current.CurrentPieces(held) && b in Current.CurrentPieces(held)
    requires a.source.IsAttested() && b.source.IsAttested() && a.period.Contains(d) && b.period.Contains(d)
    ensures a.instr == b.instr
  {
    var x := Current.FromPieces(held, a);
    var y := Current.FromPieces(held, b);
    assert !Current.Overtaken(held, x, d) && !Current.Overtaken(held, y, d);
    assert !Current.Overtakes(x, y, d) && !Current.Overtakes(y, x, d);
    assert OneAnswer(x, y);
  }

  lemma {:induction false} LastSuch(n: nat, p: int -> bool, i: nat) returns (last: nat)
    requires i < n && p(i)
    ensures last < n && p(last) && forall k :: last < k < n ==> !p(k)
  {
    if p(n - 1) {
      last := n - 1;
    } else {
      last := LastSuch(n - 1, p, i);
    }
  }

  lemma {:induction false} FirstSuch(p: int -> bool, i: nat) returns (first: nat)
    requires p(i)
    ensures first <= i && p(first) && forall k :: 0 <= k < first ==> !p(k)
  {
    if k :| 0 <= k < i && p(k) {
      first := FirstSuch(p, k);
    } else {
      first := i;
    }
  }

  lemma LastNearest(held: seq<Assertion>, c: int, p: int, n: int) returns (i: nat)
    requires ProperAssertions(held) && NearestDays(held, c, p, n)
    ensures NearestBefore(held, |held|, c, i) && held[i].period.Contains(p)
  {
    forall k | 0 <= k < |held| && AttestsBefore(held[k], c)
      ensures EndBefore(held[k], c) <= p + 1
      ensures EndBefore(held[k], c) == p + 1 <==> held[k].period.Contains(p)
    {
      var last := EndBefore(held[k], c) - 1;
      assert held[k] in held && held[k].period.Contains(last);
      assert AnyAttestedOn(held, last);
    }
    var a :| a in held && a.source.IsAttested() && a.period.Contains(p);
    var m :| 0 <= m < |held| && held[m] == a;
    var f := (k: int) => 0 <= k < |held| && AttestsBefore(held[k], c) && held[k].period.Contains(p);
    i := LastSuch(|held|, f, m);
    forall k | i < k < |held| && AttestsBefore(held[k], c)
      ensures !held[k].period.Contains(p)
    {
      assert !f(k);
    }
  }

  lemma FirstNearest(held: seq<Assertion>, c: int, p: int, n: int) returns (i: nat)
    requires ProperAssertions(held) && NearestDays(held, c, p, n)
    ensures NearestAfter(held, |held|, c, i) && held[i].period.Contains(n)
  {
    forall k | 0 <= k < |held| && AttestsAfter(held[k], c)
      ensures StartAfter(held[k], c) >= n
      ensures StartAfter(held[k], c) == n <==> held[k].period.Contains(n)
    {
      var first := StartAfter(held[k], c);
      assert held[k] in held && held[k].period.Contains(first);
      assert AnyAttestedOn(held, first);
    }
    var a :| a in held && a.source.IsAttested() && a.period.Contains(n);
    var m :| 0 <= m < |held| && held[m] == a;
    var f := (k: int) => 0 <= k < |held| && AttestsAfter(held[k], c) && held[k].period.Contains(n);
    i := FirstSuch(f, m);
    forall k | 0 <= k < i && AttestsAfter(held[k], c)
      ensures !held[k].period.Contains(n)
    {
      assert !f(k);
    }
  }
}
