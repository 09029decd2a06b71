/** What a ticker names on one day, stated day by day (tickervalidity.go, the package's account). */
module Timelines {
  import opened Options
  import opened Winners

  datatype Validity = Confirmed | Provisional

  datatype Holding = Holding(instr: int, validity: Validity)

  /**
   * What the assertions name on each day, the days at whose start an edge cuts, and the
   * days of assertion coverage.
   */
  datatype Timeline = Timeline(name: int -> Name, cuts: set<int>, covered: int -> bool) {

    /** A cut falls after day lo and at the start of day hi at the latest. */
    ghost predicate Apart(lo: int, hi: int) {
      exists c :: c in cuts && lo < c <= hi
    }

    ghost predicate SilentOn(lo: int, hi: int) {
      forall e :: lo <= e < hi ==> name(e) == Silent
    }

    ghost predicate CoveredOn(lo: int, hi: int) {
      forall e :: lo <= e < hi ==> covered(e)
    }

    /** p is the last day up to d that an assertion wins, with no cut between. */
    ghost predicate Prev(d: int, p: int) {
      p <= d && name(p) != Silent && SilentOn(p + 1, d + 1) && !Apart(p, d)
    }

    /** n is the first day from d that an assertion wins, with no cut between. */
    ghost predicate Next(d: int, n: int) {
      d <= n && name(n) != Silent && SilentOn(d, n) && !Apart(d, n)
    }

    /**
     * The instrument the ticker names on d and how firmly.
     *
     * After a day that names an instrument it is that instrument: confirmed where the next
     * day that names anything names it too, or where coverage holds every day since, and
     * provisional elsewhere. After a day that names nothing it is the next instrument,
     * where coverage holds every day until then. Before the first named day after a cut it
     * is that day's instrument, confirmed where coverage holds every day until then.
     */
    ghost function On(d: int): Option<Holding> {
      if exists p :: Prev(d, p) then
        var p :| Prev(d, p);
        match name(p)
        case Named(x) =>
          if CoveredOn(p + 1, d + 1) || exists n :: Next(d, n) && name(n) == Named(x) then
            Some(Holding(x, Confirmed))
          else
            Some(Holding(x, Provisional))
        case _ => if NextHolding(d) == Some(Confirmed) then Some(Holding(NextInstr(d), Confirmed)) else None
      else if NextHolding(d).Some? then
        Some(Holding(NextInstr(d), NextHolding(d).value))
      else
        None
    }

    /** How firmly the next named day's instrument reaches back to d, absent where it is nothing. */
    ghost function NextHolding(d: int): Option<Validity> {
      if exists n :: Next(d, n) && name(n).Named? then
        var n :| Next(d, n) && name(n).Named?;
        Some(if CoveredOn(d, n) then Confirmed else Provisional)
      else
        None
    }

    ghost function NextInstr(d: int): int {
      if exists n :: Next(d, n) && name(n).Named? then
        var n :| Next(d, n) && name(n).Named?;
        name(n).instr
      else
        0
    }

    lemma NextOnce(d: int, n: int, m: int)
      requires Next(d, n) && Next(d, m)
      ensures n == m
    {
    }

    lemma NextIs(d: int, n: int)
      requires Next(d, n)
      ensures name(n).Named? ==> NextInstr(d) == name(n).instr
      ensures name(n).Named? ==> NextHolding(d) == Some(if CoveredOn(d, n) then Confirmed else Provisional)
      ensures !name(n).Named? ==> NextHolding(d) == None
    {
    }

    lemma NoNext(d: int)
      requires forall n :: !Next(d, n)
      ensures NextHolding(d) == None
    {
    }

    /** After a day that names x. */
    lemma AfterInstr(d: int, p: int, x: int)
      requires Prev(d, p) && name(p) == Named(x)
      ensures On(d) == Some(Holding(x, if CoveredOn(p + 1, d + 1) || exists n :: Next(d, n) && name(n) == Named(x) then Confirmed else Provisional))
    {
    }

    lemma AfterNothing(d: int, p: int)
      requires Prev(d, p) && name(p) == Nothing
      ensures On(d) == if NextHolding(d) == Some(Confirmed) then Some(Holding(NextInstr(d), Confirmed)) else None
    {
    }

    lemma {:induction false} PrevFrom(lo: int, d: int) returns (p: int)
      requires lo <= d && name(lo) != Silent && !Apart(lo, d)
      ensures lo <= p && Prev(d, p)
      decreases d - lo
    {
      if name(d) != Silent {
        p := d;
      } else {
        p := PrevFrom(lo, d - 1);
      }
    }

    lemma {:induction false} NextUpTo(d: int, hi: int) returns (n: int)
      requires d <= hi && name(hi) != Silent && !Apart(d, hi)
      ensures n <= hi && Next(d, n)
      decreases hi - d
    {
      if name(d) != Silent {
        n := d;
      } else {
        n := NextUpTo(d + 1, hi);
      }
    }

    // ----- What the package's account promises -----

    /** A day an assertion wins for an instrument is confirmed for it; one that names nothing has no interval. */
    lemma WonDay(d: int)
      ensures name(d).Named? ==> On(d) == Some(Holding(name(d).instr, Confirmed))
      ensures name(d) == Nothing ==> On(d) == None
    {
    }

    /** Two winning days of one instrument with nothing else and no cut between confirm every day between them. */
    lemma Bracket(p: int, n: int, d: int, x: int)
      requires p <= d <= n && name(p) == Named(x) == name(n)
      requires forall e :: p < e < n ==> name(e) == Silent || name(e) == Named(x)
      requires !Apart(p, n)
      ensures On(d) == Some(Holding(x, Confirmed))
    {
      assert !Apart(p, d) && !Apart(d, n);
      var q := PrevFrom(p, d);
      var m := NextUpTo(d, n);
      assert name(q) == Named(x) && name(m) == Named(x);
      AfterInstr(d, q, x);
    }

    /** Before the first named day after a cut. */
    lemma AfterCut(d: int)
      requires forall p :: !Prev(d, p)
      ensures On(d) == if NextHolding(d).Some? then Some(Holding(NextInstr(d), NextHolding(d).value)) else None
    {
    }

    /** No winning day and no cut lies after day lo and up to day hi. */
    ghost predicate Quiet(lo: int, hi: int) {
      (forall e :: lo < e <= hi ==> name(e) == Silent) && forall c :: c in cuts ==> !(lo < c <= hi)
    }

    /**
     * Beyond a winning day the instrument is confirmed through covered days and provisional from
     * then on, unless the next winning day before a cut names it too.
     */
    lemma Forward(p: int, d: int, x: int)
      requires p <= d && name(p) == Named(x) && Quiet(p, d)
      requires forall n :: d < n && name(n) == Named(x) ==> !Quiet(d, n - 1) || n in cuts
      ensures On(d) == Some(Holding(x, if d == p || forall e :: p < e <= d ==> covered(e) then Confirmed else Provisional))
    {
      assert Prev(d, p);
      AfterInstr(d, p, x);
      if d == p {
        WonDay(d);
      } else {
        assert forall n :: Next(d, n) && name(n) == Named(x) ==> Quiet(d, n - 1) && n !in cuts && d < n;
      }
    }

    /**
     * Before the first winning day after a cut, or of all, its instrument is confirmed through
     * covered days and provisional before them; after a winning day that names nothing it is
     * confirmed through covered days and absent before them.
     */
    lemma Back(d: int, n: int, x: int)
      requires d < n && name(n) == Named(x) && name(d) == Silent && Quiet(d, n - 1) && n !in cuts
      ensures (forall p :: p < d && name(p) != Silent ==> !Quiet(p, d)) ==>
        On(d) == Some(Holding(x, if forall e :: d <= e < n ==> covered(e) then Confirmed else Provisional))
      ensures (exists p :: p < d && name(p) == Nothing && Quiet(p, d)) ==>
        On(d) == if forall e :: d <= e < n ==> covered(e) then Some(Holding(x, Confirmed)) else None
    {
      assert Next(d, n);
      NextIs(d, n);
      if forall p :: p < d && name(p) != Silent ==> !Quiet(p, d) {
        forall p
          ensures !Prev(d, p)
        {
          assert Prev(d, p) ==> p < d && Quiet(p, d);
        }
        AfterCut(d);
      }
      if p :| p < d && name(p) == Nothing && Quiet(p, d) {
        assert Prev(d, p);
        AfterNothing(d, p);
      }
    }

    /** The instrument of a day goes on up to the next cut or the next assertion, whatever it names. */
    lemma KeepsDaysAfter(p: int, d: int, x: int)
      requires p <= d && name(p) == Named(x) && SilentOn(p + 1, d + 1) && !Apart(p, d)
      ensures On(d).Some? && On(d).value.instr == x
    {
      AfterInstr(d, p, x);
    }
  }
}
