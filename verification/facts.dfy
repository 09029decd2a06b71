/** The facts of one ticker, and how their sources rank (tickervalidity.go). */
module Facts {
  import opened Options
  import opened Periods

  /** An identifier attestation ranks first, then the market's event source, then the rest. */
  datatype Standing = Other | EventSource | Attested {
    function Rank(): int {
      match this
      case Other => 0
      case EventSource => 1
      case Attested => 2
    }
  }

  /** An id or a moment is its place in the total order the program compares it by. */
  datatype Source = Source(datasource: string, precedence: int, answer: int, answered: int, asked: Period, standing: Standing) {
    predicate IsAttested() {
      standing == Attested
    }

    /** The source this one is ranked as: its datasource, or all attestations as one. */
    function Group(): Source {
      if IsAttested() then Source("", 0, 0, 0, Period(0, 0), Attested)
      else Source(datasource, precedence, 0, 0, Period(0, 0), standing)
    }

    predicate Newer(o: Source) {
      if answered != o.answered then answered > o.answered else answer > o.answer
    }

    predicate Outranks(o: Source) {
      if standing != o.standing then standing.Rank() > o.standing.Rank() else precedence < o.precedence
    }
  }

  /** What a ticker names on every day of a period; an absent instrument is nothing. */
  datatype Assertion = Assertion(period: Period, instr: Option<int>, edgeFrom: bool, edgeBefore: bool, source: Source)

  /** A stated change at the start of the day `at`. */
  datatype Edge = Edge(at: int, assertion: Assertion)

  datatype Coverage = Coverage(period: Period, source: Source)

  datatype TickerFacts = TickerFacts(assertions: seq<Assertion>, coverage: seq<Coverage>)

  ghost predicate ProperAssertions(held: seq<Assertion>) {
    forall a :: a in held ==> a.period.Proper()
  }

  /** An attest run asserts a ticker once, so that attestations of one answer are one. */
  ghost predicate AttestedOnce(held: seq<Assertion>) {
    forall a, b :: a in held && b in held && OneAnswer(a, b) ==> a == b
  }

  predicate OneAnswer(a: Assertion, b: Assertion) {
    a.source.IsAttested() && b.source.IsAttested() && a.source.answered == b.source.answered && a.source.answer == b.source.answer
  }

  function PeriodsOf(held: seq<Assertion>): (r: seq<Period>)
    ensures |r| == |held|
    ensures forall i :: 0 <= i < |held| ==> r[i] == held[i].period
  {
    seq(|held|, i requires 0 <= i < |held| => held[i].period)
  }
}
