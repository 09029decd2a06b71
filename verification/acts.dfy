/** Corporate actions, what they do to a quantity, and the stored answers that hold them (corpact/decision.go and read.go). */
module CorpActs {
  import opened Options
  import opened Sorting
  import opened Periods
  import opened Ratios

  datatype Decision = Undecided | Split | ReverseSplit | StockDividend | SpinOffPriceFactor | RightsIssue | OtherType

  /** handled is whether the system judged that the action restates the quantity held. */
  datatype Act = Act(id: nat, exDate: int, ratio: Ratio, kind: string, handled: bool, decision: Decision) {

    /** The action restates the quantity held. A decision overrules the system's judgment. */
    predicate Restates() {
      match decision
      case Split | ReverseSplit | StockDividend => true
      case Undecided => handled
      case _ => false
    }

    /** The effect of the action is unknown. */
    predicate Unknown() {
      (decision == Undecided && !handled) || decision == OtherType
    }

    /** The actions have the same effect on the same day. */
    predicate Same(o: Act) {
      exDate == o.exDate && ratio.Equal(o.ratio) && Restates() == o.Restates() && Unknown() == o.Unknown()
    }
  }

  /** A decision agrees with the direction of the ratio. */
  predicate Fits(d: Decision, r: Ratio) {
    match d
    case Split | StockDividend => r.to > r.from
    case ReverseSplit => r.to < r.from
    case _ => true
  }

  /** What the system judged counts until a decision says more: a split of any kind restates, and an other type is unknown. */
  lemma EffectsAre(e: Act)
    ensures e.Restates() <==>
      e.decision == Split || e.decision == ReverseSplit || e.decision == StockDividend || (e.decision == Undecided && e.handled)
    ensures e.Unknown() <==> e.decision == OtherType || (e.decision == Undecided && !e.handled)
  {
  }

  /** An action restates, or has an unknown effect, or was decided to have none: never two of these. */
  lemma OneEffect(e: Act)
    ensures !(e.Restates() && e.Unknown())
    ensures !e.Restates() && !e.Unknown() <==> e.decision.SpinOffPriceFactor? || e.decision.RightsIssue?
    ensures e.decision != Undecided && Fits(e.decision, e.ratio) && e.ratio.Positive() && e.Restates() ==>
      (e.decision.ReverseSplit? <==> e.ratio.Factor() < 1.0) && e.ratio.Factor() != 1.0
  {
    if e.ratio.Positive() {
      FactorDirection(e.ratio);
    }
  }

  ghost predicate AllPositive(acts: seq<Act>) {
    forall e :: e in acts ==> e.ratio.Positive()
  }

  /** Between positive ratios, being the same action is an equivalence. */
  lemma SameIsEquivalence(a: Act, b: Act, c: Act)
    ensures a.Same(a)
    ensures a.Same(b) <==> b.Same(a)
    ensures a.ratio.Positive() && b.ratio.Positive() && c.ratio.Positive() && a.Same(b) && b.Same(c) ==> a.Same(c)
  {
    if a.ratio.Positive() && b.ratio.Positive() && c.ratio.Positive() {
      EqualIsSameFactor(a.ratio, b.ratio);
      EqualIsSameFactor(b.ratio, c.ratio);
      EqualIsSameFactor(a.ratio, c.ratio);
    }
  }

  // ----- Days taken out of coverage -----

  /** ps less each of days, splitting a period around a day it holds. */
  method Remove(ps: seq<Period>, days: seq<int>) returns (out: seq<Period>)
    ensures AllProper(out)
    ensures forall d :: AnyContains(out, d) <==> AnyContains(ps, d) && d !in days
  {
    var sorted := StableSort(AtMost, days);
    SameElements(days, sorted);
    out := [];
    for i := 0 to |ps|
      invariant AllProper(out)
      invariant forall d :: AnyContains(out, d) <==> AnyContains(ps[..i], d) && d !in days
    {
      var parts := RemoveFrom(ps[i], sorted);
      assert ps[..i + 1] == ps[..i] + [ps[i]];
      forall d
        ensures AnyContains(out + parts, d) <==> AnyContains(ps[..i + 1], d) && d !in days
      {
        AnySplit(out, parts, d);
        AnySplit(ps[..i], [ps[i]], d);
        AnyOne(ps[i], d);
      }
      out := out + parts;
    }
    assert ps[..|ps|] == ps;
  }

  /** What is left of p after the first i of the days moved its start to from. */
  ghost predicate RemovedSoFar(p: Period, days: seq<int>, i: nat, out: seq<Period>, from: int) {
    && i <= |days| && AllProper(out) && p.from <= from
    && (forall d :: AnyContains(out, d) <==> p.Contains(d) && d < from && d !in days)
    && (forall k :: 0 <= k < i ==> days[k] < from || !p.Contains(days[k]))
  }

  lemma RemoveStep(p: Period, days: seq<int>, i: nat, out: seq<Period>, from: int)
    requires SortedBy(AtMost, days) && i < |days| && RemovedSoFar(p, days, i, out, from)
    requires Period(from, p.before).Contains(days[i])
    ensures RemovedSoFar(p, days, i + 1, if from < days[i] then out + [Period(from, days[i])] else out, days[i] + 1)
  {
    var x := days[i];
    var next := if from < x then out + [Period(from, x)] else out;
    forall k, d | 0 <= k < |days| && d == days[k] && from <= d < x
      ensures !p.Contains(d)
    {
      assert k >= i ==> AtMost(days[i], days[k]);
    }
    forall d
      ensures AnyContains(next, d) <==> p.Contains(d) && d < x + 1 && d !in days
    {
      if from < x {
        AnySplit(out, [Period(from, x)], d);
        AnyOne(Period(from, x), d);
      }
    }
  }

  method RemoveFrom(p: Period, days: seq<int>) returns (out: seq<Period>)
    requires SortedBy(AtMost, days)
    ensures AllProper(out)
    ensures forall d :: AnyContains(out, d) <==> p.Contains(d) && d !in days
  {
    out := [];
    var from := p.from;
    for i := 0 to |days|
      invariant RemovedSoFar(p, days, i, out, from)
    {
      if Period(from, p.before).Contains(days[i]) {
        RemoveStep(p, days, i, out, from);
        if from < days[i] {
          out := out + [Period(from, days[i])];
        }
        from := days[i] + 1;
      }
    }
    ghost var was := out;
    if from < p.before {
      out := out + [Period(from, p.before)];
    }
    forall d
      ensures AnyContains(out, d) <==> p.Contains(d) && d !in days
    {
      if from < p.before {
        AnySplit(was, [Period(from, p.before)], d);
        AnyOne(Period(from, p.before), d);
      }
    }
  }

  // ----- A stored answer -----

  datatype Answer = Answer(acts: seq<Act>, coverage: seq<Period>)

  ghost predicate UnknownAmong(acts: seq<Act>, d: int) {
    exists e :: e in acts && e.Unknown() && e.exDate == d
  }

  /**
   * What a stored answer holds within p: its actions there, and the days of its coverage there
   * less those of an unknown action. An answer that holds neither is left out.
   */
  method Read(covered: Option<Period>, acts: seq<Act>, p: Period) returns (a: Option<Answer>)
    ensures a.None? <==> acts == [] && forall d :: !(covered.Some? && covered.value.Contains(d) && p.Contains(d))
    ensures a.Some? ==> a.value.acts == acts && AllProper(a.value.coverage)
    ensures a.Some? ==> forall d ::
      (AnyContains(a.value.coverage, d) <==> covered.Some? && covered.value.Contains(d) && p.Contains(d) && !UnknownAmong(acts, d))
  {
    var unknown: seq<int> := [];
    for i := 0 to |acts|
      invariant forall d :: d in unknown <==> UnknownAmong(acts[..i], d)
    {
      assert acts[..i + 1] == acts[..i] + [acts[i]];
      if acts[i].Unknown() {
        unknown := unknown + [acts[i].exDate];
      }
    }
    assert acts[..|acts|] == acts;
    var stored := if covered.Some? then [covered.value] else [];
    forall d
      ensures AnyContains(stored, d) <==> covered.Some? && covered.value.Contains(d)
    {
      if covered.Some? {
        AnyOne(covered.value, d);
      }
    }
    var left := Remove(stored, unknown);
    var coverage := ClipAll(left, p);
    if coverage == [] && acts == [] {
      forall d
        ensures !(covered.Some? && covered.value.Contains(d) && p.Contains(d))
      {
        assert !AnyContains(coverage, d);
      }
      return None;
    }
    assert coverage != [] ==> AnyContains(coverage, coverage[0].from) by {
      assert coverage != [] ==> coverage[0].Contains(coverage[0].from);
    }
    a := Some(Answer(acts, coverage));
  }

  method ClipAll(ps: seq<Period>, p: Period) returns (out: seq<Period>)
    ensures AllProper(out)
    ensures forall d :: AnyContains(out, d) <==> AnyContains(ps, d) && p.Contains(d)
  {
    out := [];
    for i := 0 to |ps|
      invariant AllProper(out)
      invariant forall d :: AnyContains(out, d) <==> AnyContains(ps[..i], d) && p.Contains(d)
    {
      var (c, ok) := ps[i].Clip(p);
      ghost var was := out;
      if ok {
        out := out + [c];
      }
      assert ps[..i + 1] == ps[..i] + [ps[i]];
      forall d
        ensures AnyContains(out, d) <==> AnyContains(ps[..i + 1], d) && p.Contains(d)
      {
        AnySplit(ps[..i], [ps[i]], d);
        AnyOne(ps[i], d);
        AnySplit(was, [c], d);
        AnyOne(c, d);
      }
    }
    assert ps[..|ps|] == ps;
  }
}
