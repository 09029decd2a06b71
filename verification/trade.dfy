/** The legs of a trade (client/lib/marshal/build.ts). */
module Trades {
  import opened Options
  import opened Decimals
  import opened Sums
  import opened Folding

  /** A broker's line, known by its stated key, or money in one currency. */
  datatype Key = Security(id: nat) | Cash(currency: string)

  datatype Row = Row(key: Key, orderDate: string, settlementDate: string, asAt: string, quantity: string)

  /** One export line carrying a trade; an absent asAt is the order date. */
  datatype Line = Line(
    key: Key, orderDate: string, settlementDate: string, units: string, net: string, fee: string, tax: string,
    currency: string, asAt: Option<string>)

  /** One row, its quantity in canonical form; none where the quantity is not a number. */
  function Leg(t: Line, key: Key, quantity: string): Option<Row> {
    if Normalise(quantity).None? then None
    else Some(Row(key, t.orderDate, t.settlementDate, if t.asAt.Some? then t.asAt.value else t.orderDate, Normalise(quantity).value))
  }

  // ----- Totals -----

  function AddTo(sum: Option<string>, q: string): Option<string> {
    if sum.None? then None else Add(sum.value, q)
  }

  /** The strings added up, from nothing. */
  function Total(qs: seq<string>): Option<string> {
    Gathered(AddTo, Some("0"), qs)
  }

  ghost function Number(q: string): real {
    if NumberOf(q).Some? then NumberOf(q).value else 0.0
  }

  ghost function SumOf(qs: seq<string>): real {
    SumBy(Number, qs)
  }

  ghost predicate AllNumbers(qs: seq<string>) {
    forall i :: 0 <= i < |qs| ==> NumberOf(qs[i]).Some?
  }

  /** A string of a number in canonical form. */
  ghost predicate States(s: Option<string>, n: real) {
    s.Some? && NumberOf(s.value) == Some(n) && Normalise(s.value) == s
  }

  lemma RenderedStates(x: Scaled)
    ensures States(Some(Render(x)), Value(x))
  {
    RenderedNumber(x);
    TextIsValue(Parse(Render(x)).value, x);
  }

  lemma ZeroRenders()
    ensures Render(Scaled(0, 0)) == "0"
  {
    var x := Scaled(0, 0);
    assert Padded(x) == "0";
    assert Frac(x) == "" && Whole(x) == "0";
  }

  lemma ZeroStates()
    ensures States(Some("0"), 0.0)
  {
    ZeroRenders();
    RenderedStates(Scaled(0, 0));
  }

  lemma AddStates(sum: Option<string>, q: string, s: real, n: real)
    requires States(sum, s) && NumberOf(q) == Some(n)
    ensures States(AddTo(sum, q), s + n)
  {
    var x, y := Parse(sum.value).value, Parse(q).value;
    RenderedStates(Plus(x, y));
    PlusValue(x, y);
  }

  lemma AddNumber(sum: Option<string>, q: string, s: real)
    requires States(sum, s) && NumberOf(q).Some?
    ensures States(AddTo(sum, q), s + Number(q))
  {
    AddStates(sum, q, s, Number(q));
  }

  /** Strings that state numbers add up to the canonical string of their sum. */
  lemma TotalIsSum(qs: seq<string>)
    requires AllNumbers(qs)
    ensures States(Total(qs), SumOf(qs))
  {
    ZeroStates();
    forall s, n, q | States(s, n) && q in qs
      ensures States(AddTo(s, q), n + Number(q))
    {
      AddNumber(s, q, n);
    }
    GatheredStates(AddTo, Some("0"), States, Number, qs);
  }

  /** The total of strings that sum to a number is its canonical string. */
  lemma TotalIsNormal(qs: seq<string>, net: string)
    requires AllNumbers(qs) && NumberOf(net) == Some(SumOf(qs))
    ensures Total(qs) == Normalise(net)
  {
    TotalIsSum(qs);
    SameStates(Total(qs), net);
  }

  lemma SameStates(s: Option<string>, net: string)
    requires NumberOf(net).Some? && States(s, NumberOf(net).value)
    ensures s == Normalise(net)
  {
    NormaliseIsNumber(s.value, net);
  }

  function Quantities(rows: seq<Row>): (r: seq<string>)
    ensures |r| == |rows| && forall i :: 0 <= i < |rows| ==> r[i] == rows[i].quantity
  {
    seq(|rows|, i requires 0 <= i < |rows| => rows[i].quantity)
  }

  // ----- The trade -----

  /** The row is the line's leg on key, and states n. */
  ghost predicate IsLeg(t: Line, row: Row, key: Key, n: real) {
    && row == Row(key, t.orderDate, t.settlementDate, if t.asAt.Some? then t.asAt.value else t.orderDate, row.quantity)
    && States(Some(row.quantity), n)
  }

  /** The rows are the line's legs on cash of its currency, each stating its number. */
  ghost predicate CashLegs(t: Line, rows: seq<Row>, ns: seq<real>) {
    |rows| == |ns| && forall i :: 0 <= i < |rows| ==> IsLeg(t, rows[i], Cash(t.currency), ns[i])
  }

  lemma LegStates(t: Line, key: Key, quantity: string)
    requires NumberOf(quantity).Some?
    ensures Leg(t, key, quantity).Some? && IsLeg(t, Leg(t, key, quantity).value, key, Number(quantity))
  {
    RenderedStates(Parse(quantity).value);
  }

  lemma CashAppend(t: Line, rows: seq<Row>, ns: seq<real>, quantity: string)
    requires CashLegs(t, rows, ns) && NumberOf(quantity).Some?
    ensures var leg := Leg(t, Cash(t.currency), quantity);
      && leg.Some? && CashLegs(t, rows + [leg.value], ns + [Number(quantity)])
      && SumOf(Quantities(rows + [leg.value])) == SumOf(Quantities(rows)) + Number(quantity)
  {
    LegStates(t, Cash(t.currency), quantity);
    var leg := Leg(t, Cash(t.currency), quantity).value;
    assert Quantities(rows + [leg]) == Quantities(rows) + [leg.quantity];
    SumByAppend(Number, Quantities(rows), leg.quantity);
  }

  /** The gross consideration: the net and both charges. */
  method Gross(t: Line) returns (gross: string)
    requires NumberOf(t.net).Some? && NumberOf(t.fee).Some? && NumberOf(t.tax).Some?
    ensures NumberOf(gross) == Some(Number(t.net) + Number(t.fee) + Number(t.tax))
  {
    gross := AddNumbers(t.net, t.fee);
    gross := AddNumbers(gross, t.tax);
  }

  method AddNumbers(a: string, b: string) returns (sum: string)
    requires NumberOf(a).Some? && NumberOf(b).Some?
    ensures NumberOf(sum) == Some(Number(a) + Number(b))
  {
    AddIsExact(a, b);
    sum := Add(a, b).value;
  }

  /** What the leg of a charge states: its opposite, and no leg where it is zero. */
  ghost function Opposite(charge: string): seq<real> {
    if Number(charge) == 0.0 then [] else [-Number(charge)]
  }

  lemma ChargeAppend(t: Line, cash: seq<Row>, ns: seq<real>, charge: string)
    requires CashLegs(t, cash, ns) && NumberOf(charge).Some? && Number(charge) != 0.0
    ensures Negate(charge).Some?
    ensures var leg := Leg(t, Cash(t.currency), Negate(charge).value);
      && leg.Some? && CashLegs(t, cash + [leg.value], ns + Opposite(charge))
      && SumOf(Quantities(cash + [leg.value])) == SumOf(Quantities(cash)) - Number(charge)
  {
    NegateIsOpposite(charge);
    var q := Negate(charge).value;
    CashAppend(t, cash, ns, q);
    assert Opposite(charge) == [Number(q)];
  }

  /** The leg that a charge adds, only where it is not zero, states its opposite. */
  method AddCharge(t: Line, cash: seq<Row>, ghost ns: seq<real>, charge: string) returns (out: seq<Row>)
    requires CashLegs(t, cash, ns) && NumberOf(charge).Some?
    ensures CashLegs(t, out, ns + Opposite(charge)) && cash <= out
    ensures SumOf(Quantities(out)) == SumOf(Quantities(cash)) - Number(charge)
  {
    ZeroIsNumber(charge);
    out := cash;
    if !IsZero(charge).value {
      ChargeAppend(t, cash, ns, charge);
      out := cash + [Leg(t, Cash(t.currency), Negate(charge).value).value];
    } else {
      assert ns + Opposite(charge) == ns;
    }
  }

  /** What the cash legs state: the gross consideration, then the opposite of each charge that is not zero. */
  ghost function CashOfLine(t: Line): seq<real> {
    [Number(t.net) + Number(t.fee) + Number(t.tax)] + Opposite(t.fee) + Opposite(t.tax)
  }

  method CashOf(t: Line) returns (cash: seq<Row>)
    requires NumberOf(t.net).Some? && NumberOf(t.fee).Some? && NumberOf(t.tax).Some?
    ensures CashLegs(t, cash, CashOfLine(t)) && SumOf(Quantities(cash)) == Number(t.net)
  {
    var gross := Gross(t);
    ghost var ns := [Number(gross)];
    cash := CashLeg(t, gross);
    cash := AddCharge(t, cash, ns, t.fee);
    ns := ns + Opposite(t.fee);
    cash := AddCharge(t, cash, ns, t.tax);
  }

  method CashLeg(t: Line, quantity: string) returns (cash: seq<Row>)
    requires NumberOf(quantity).Some?
    ensures CashLegs(t, cash, [Number(quantity)]) && SumOf(Quantities(cash)) == Number(quantity)
  {
    CashAppend(t, [], [], quantity);
    var leg := Leg(t, Cash(t.currency), quantity).value;
    assert [] + [leg] == [leg] && [] + [Number(quantity)] == [Number(quantity)];
    cash := [leg];
  }

  lemma CashNumbers(t: Line, rows: seq<Row>, ns: seq<real>)
    requires CashLegs(t, rows, ns)
    ensures AllNumbers(Quantities(rows))
  {
    forall i | 0 <= i < |rows|
      ensures NumberOf(Quantities(rows)[i]).Some?
    {
      assert IsLeg(t, rows[i], Cash(t.currency), ns[i]);
    }
  }

  /**
   * The legs of the line: the security of its units, the gross consideration, and the opposite of
   * each charge that is not zero. The cash legs add up to the net the export states. None where
   * an amount is not a number.
   */
  method Build(t: Line) returns (rows: Option<seq<Row>>)
    ensures rows.None? <==>
      NumberOf(t.units).None? || NumberOf(t.net).None? || NumberOf(t.fee).None? || NumberOf(t.tax).None?
    ensures rows.Some? ==>
      && rows.value != [] && IsLeg(t, rows.value[0], t.key, Number(t.units))
      && CashLegs(t, rows.value[1..], CashOfLine(t))
      && Total(Quantities(rows.value[1..])) == Normalise(t.net)
  {
    var security := Leg(t, t.key, t.units);
    if security.None? || Parse(t.net).None? || Parse(t.fee).None? || Parse(t.tax).None? {
      return None;
    }
    LegStates(t, t.key, t.units);
    var cash := CashOf(t);
    CashNumbers(t, cash, CashOfLine(t));
    TotalIsNormal(Quantities(cash), t.net);
    assert ([security.value] + cash)[1..] == cash;
    rows := Some([security.value] + cash);
  }
}
