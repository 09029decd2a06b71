/** Sums, signs and rounding of decimal strings (client/lib/marshal/decimal.ts). */
module Sums {
  import opened Options
  import opened Decimals

  /** The number that a string states, where it states one. */
  ghost function NumberOf(s: string): Option<real> {
    if Parse(s).None? then None else Some(Value(Parse(s).value))
  }

  function Normalise(s: string): Option<string> {
    if Parse(s).None? then None else Some(Render(Parse(s).value))
  }

  function Rescale(a: Scaled, scale: nat): int
    requires scale >= a.scale
  {
    a.units * Pow(scale - a.scale)
  }

  function Plus(x: Scaled, y: Scaled): Scaled {
    var scale := if x.scale >= y.scale then x.scale else y.scale;
    Scaled(Rescale(x, scale) + Rescale(y, scale), scale)
  }

  function Add(a: string, b: string): Option<string> {
    if Parse(a).None? || Parse(b).None? then None else Some(Render(Plus(Parse(a).value, Parse(b).value)))
  }

  function Negate(a: string): Option<string> {
    if Parse(a).None? then None else Some(Render(Scaled(-Parse(a).value.units, Parse(a).value.scale)))
  }

  function IsZero(a: string): Option<bool> {
    if Parse(a).None? then None else Some(Parse(a).value.units == 0)
  }

  // ----- Sums are exact -----

  lemma RescaleValue(x: Scaled, scale: nat)
    requires scale >= x.scale
    ensures Value(Scaled(Rescale(x, scale), scale)) == Value(x)
  {
    UpUnits(x, scale - x.scale);
    UpKeepsValue(x, scale - x.scale);
  }

  lemma PlusValue(x: Scaled, y: Scaled)
    ensures Value(Plus(x, y)) == Value(x) + Value(y)
  {
    var scale := if x.scale >= y.scale then x.scale else y.scale;
    RescaleValue(x, scale);
    RescaleValue(y, scale);
    OneScale(Rescale(x, scale), Rescale(y, scale), scale);
  }

  /** Strings rendered of equal values, and of no others, are equal. */
  lemma TextIsValue(x: Scaled, y: Scaled)
    ensures Render(x) == Render(y) <==> Value(x) == Value(y)
  {
    RenderIsValue(x, y);
    SameIsValue(x, y);
  }

  lemma RenderedNumber(x: Scaled)
    ensures NumberOf(Render(x)) == Some(Value(x))
  {
    ParseRender(x);
    SameIsValue(Parse(Render(x)).value, x);
  }

  /** Adding states the sum of what the strings state, and fails only where one of them states nothing. */
  lemma AddIsExact(a: string, b: string)
    ensures Add(a, b).None? <==> NumberOf(a).None? || NumberOf(b).None?
    ensures Add(a, b).Some? ==> NumberOf(Add(a, b).value) == Some(NumberOf(a).value + NumberOf(b).value)
  {
    if Add(a, b).Some? {
      PlusValue(Parse(a).value, Parse(b).value);
      RenderedNumber(Plus(Parse(a).value, Parse(b).value));
    }
  }

  /** Two strings that state numbers have one canonical form exactly where they state the same number. */
  lemma NormaliseIsNumber(a: string, b: string)
    ensures Normalise(a).Some? && Normalise(b).Some? ==> (Normalise(a) == Normalise(b) <==> NumberOf(a) == NumberOf(b))
    ensures Normalise(a).Some? ==> NumberOf(Normalise(a).value) == NumberOf(a)
  {
    if Parse(a).Some? {
      RenderedNumber(Parse(a).value);
      if Parse(b).Some? {
        TextIsValue(Parse(a).value, Parse(b).value);
      }
    }
  }

  /** A canonical form is its own. */
  lemma NormaliseTwice(a: string)
    requires Normalise(a).Some?
    ensures Normalise(Normalise(a).value) == Normalise(a)
  {
    NormaliseIsNumber(a, a);
    NormaliseIsNumber(Normalise(a).value, a);
  }

  /** What is added is canonical, and is decided by the numbers. */
  lemma AddIsNumber(a: string, b: string, c: string, d: string)
    requires Add(a, b).Some? && Add(c, d).Some?
    ensures Add(a, b) == Add(c, d) <==> NumberOf(a).value + NumberOf(b).value == NumberOf(c).value + NumberOf(d).value
  {
    PlusValue(Parse(a).value, Parse(b).value);
    PlusValue(Parse(c).value, Parse(d).value);
    TextIsValue(Plus(Parse(a).value, Parse(b).value), Plus(Parse(c).value, Parse(d).value));
  }

  lemma AddCommutes(a: string, b: string)
    ensures Add(a, b) == Add(b, a)
  {
  }

  /** Strings added in either order of grouping give one string. */
  lemma AddAssociates(a: string, b: string, c: string)
    requires NumberOf(a).Some? && NumberOf(b).Some? && NumberOf(c).Some?
    ensures Add(a, b).Some? && Add(b, c).Some?
    ensures Add(Add(a, b).value, c).Some? && Add(Add(a, b).value, c) == Add(a, Add(b, c).value)
  {
    AddIsExact(a, b);
    AddIsExact(b, c);
    AddIsExact(Add(a, b).value, c);
    AddIsExact(a, Add(b, c).value);
    AddIsNumber(Add(a, b).value, c, a, Add(b, c).value);
  }

  /** Negating states the opposite. */
  lemma NegateIsOpposite(a: string)
    requires NumberOf(a).Some?
    ensures Negate(a).Some? && NumberOf(Negate(a).value) == Some(-NumberOf(a).value)
  {
    NegatedNumber(Parse(a).value);
  }

  /** Negating twice is no change but of form. */
  lemma NegateTwice(a: string)
    requires NumberOf(a).Some?
    ensures Negate(a).Some? && Negate(Negate(a).value) == Normalise(a)
  {
    NegateIsOpposite(a);
    OppositeRenders(Parse(Negate(a).value).value, Parse(a).value);
  }

  lemma OppositeRenders(z: Scaled, x: Scaled)
    requires Value(z) == -Value(x)
    ensures Render(Scaled(-z.units, z.scale)) == Render(x)
  {
    NegatedNumber(z);
    TextIsValue(Scaled(-z.units, z.scale), x);
  }

  lemma NegatedNumber(x: Scaled)
    ensures Value(Scaled(-x.units, x.scale)) == -Value(x)
    ensures NumberOf(Render(Scaled(-x.units, x.scale))) == Some(-Value(x))
  {
    OneScale(x.units, x.units, x.scale);
    RenderedNumber(Scaled(-x.units, x.scale));
  }

  lemma ZeroIsNumber(a: string)
    requires NumberOf(a).Some?
    ensures IsZero(a) == Some(NumberOf(a).value == 0.0)
  {
  }

  // ----- Rounding -----

  /** Division as the language does it, truncating toward zero. */
  function Truncated(n: int, d: int): int
    requires d > 0
  {
    if n < 0 then -((-n) / d) else n / d
  }

  /** units divided by div, half away from zero. */
  function Rounded(units: int, div: int): int
    requires div > 0
  {
    var q := Truncated(units, div);
    var r := units - q * div;
    if Abs(r) * 2 >= div then q + (if units < 0 then -1 else 1) else q
  }

  function FixedUnits(x: Scaled, places: nat): int {
    if x.scale > places then Rounded(x.units, Pow(x.scale - places)) else Rescale(x, places)
  }

  /** The decimal that a states at so many places, with the zeros at the end. */
  function ToFixed(a: string, places: nat): Option<string> {
    if Parse(a).None? then None else
      var y := Scaled(FixedUnits(Parse(a).value, places), places);
      Some(Written(Form(y.units < 0, Whole(y), Frac(y))))
  }

  /** v is within half of div of n, and beyond n where it is half of div away. */
  predicate NearestAt(n: int, v: int, div: int) {
    && 2 * Abs(n - v) <= div
    && (2 * Abs(n - v) == div ==> Abs(v) > Abs(n))
  }

  /** q is a nearest multiple of div to n, and of two the one further from zero. */
  predicate Nearest(n: int, q: int, div: int) {
    NearestAt(n, q * div, div)
  }

  lemma RoundedNearest(n: int, div: int)
    requires div > 0
    ensures Nearest(n, Rounded(n, div), div)
  {
    var q := (if n < 0 then -n else n) / div;
    Multiples(if n < 0 then -n else n, div);
    MulNegates(q, div);
    MulNegates(q + 1, div);
    NearestBelow(if n < 0 then -n else n, q * div, div);
  }

  lemma MulNegates(q: int, div: int)
    ensures (-q) * div == -(q * div)
  {
  }

  lemma NearestBelow(n: int, v: int, div: int)
    requires 0 <= v <= n < v + div
    ensures if 2 * (n - v) >= div then NearestAt(n, v + div, div) else NearestAt(n, v, div)
    ensures if 2 * (n - v) >= div then NearestAt(-n, -(v + div), div) else NearestAt(-n, -v, div)
  {
  }

  lemma Multiples(n: nat, div: int)
    requires div > 0
    ensures 0 <= n / div * div <= n < n / div * div + div
    ensures (n / div + 1) * div == n / div * div + div
  {
  }

  /** Rounding gives exactly so many places, and reads back as the rounded decimal. */
  lemma ToFixedReads(a: string, places: nat)
    requires NumberOf(a).Some?
    ensures ToFixed(a, places).Some?
    ensures Parse(ToFixed(a, places).value) == Some(Scaled(FixedUnits(Parse(a).value, places), places))
  {
    FixedReads(Scaled(FixedUnits(Parse(a).value, places), places));
  }

  /**
   * The rounded decimal is within half a unit of the last place, a tie going away from zero,
   * and is the decimal itself where it had no more places.
   */
  lemma RoundedWithinHalf(x: Scaled, places: nat)
    ensures x.scale > places ==> Nearest(x.units, FixedUnits(x, places), Pow(x.scale - places))
    ensures x.scale <= places ==> Value(Scaled(FixedUnits(x, places), places)) == Value(x)
  {
    if x.scale > places {
      RoundedNearest(x.units, Pow(x.scale - places));
    } else {
      RescaleValue(x, places);
    }
  }

  ghost function Size(x: real): (r: real)
    ensures r >= 0.0 && (r == x || r == -x)
  {
    if x < 0.0 then -x else x
  }

  /** y is within half of the unit of x, and further from zero than x where it is half of it away. */
  ghost predicate WithinHalf(x: real, y: real, unit: real) {
    && 2.0 * Size(y - x) <= unit
    && (2.0 * Size(y - x) == unit ==> Size(y) > Size(x))
  }

  /** What ToFixed states is within half a unit of the last place of what a states, a tie going away from zero. */
  lemma ToFixedWithinHalf(a: string, places: nat)
    requires NumberOf(a).Some?
    ensures ToFixed(a, places).Some? && NumberOf(ToFixed(a, places).value).Some?
    ensures WithinHalf(NumberOf(a).value, NumberOf(ToFixed(a, places).value).value, 1.0 / Pow(places) as real)
  {
    ToFixedReads(a, places);
    FixedWithinHalf(Parse(a).value, places);
  }

  lemma FixedWithinHalf(x: Scaled, places: nat)
    ensures WithinHalf(Value(x), Value(Scaled(FixedUnits(x, places), places)), Value(Scaled(1, places)))
  {
    RoundedWithinHalf(x, places);
    ValuesOrder(0, 1, places);
    if x.scale > places {
      UnitsWithinHalf(x, Scaled(FixedUnits(x, places), places), x.scale - places);
    }
  }

  lemma UnitsWithinHalf(x: Scaled, y: Scaled, d: nat)
    requires x.scale == y.scale + d && Nearest(x.units, y.units, Pow(d))
    ensures WithinHalf(Value(x), Value(y), Value(Scaled(1, y.scale)))
  {
    var one := Scaled(1, y.scale);
    UpUnits(y, d);
    UpKeepsValue(y, d);
    UpUnits(one, d);
    UpKeepsValue(one, d);
    NearInUnits(x.units, Up(y, d).units, Up(one, d).units, x.scale);
  }

  /** What is nearest in units is nearest in value. */
  lemma NearInUnits(u: int, v: int, div: int, scale: nat)
    requires NearestAt(u, v, div)
    ensures WithinHalf(Value(Scaled(u, scale)), Value(Scaled(v, scale)), Value(Scaled(div, scale)))
  {
    var n := Abs(u - v);
    OneScale(u, v - u, scale);
    OneScale(n, n, scale);
    SizeInUnits(v - u, scale);
    SizeInUnits(u, scale);
    SizeInUnits(v, scale);
    ValuesOrder(2 * n, div, scale);
    ValuesOrder(Abs(u), Abs(v), scale);
  }

  lemma SizeInUnits(n: int, scale: nat)
    ensures Size(Value(Scaled(n, scale))) == Value(Scaled(Abs(n), scale))
  {
    OneScale(n, n, scale);
    ValuesOrder(n, 0, scale);
  }

  lemma ValuesOrder(m: int, n: int, scale: nat)
    ensures Value(Scaled(m, scale)) < Value(Scaled(n, scale)) <==> m < n
    ensures Value(Scaled(m, scale)) == Value(Scaled(n, scale)) <==> m == n
    ensures Value(Scaled(0, scale)) == 0.0
  {
    OneScale(m, n - m, scale);
    ValueSign(n - m, scale);
    ValueSign(0, scale);
  }

  lemma ValueSign(n: int, scale: nat)
    ensures Value(Scaled(n, scale)) > 0.0 <==> n > 0
    ensures Value(Scaled(n, scale)) == 0.0 <==> n == 0
  {
  }

  lemma FixedReads(y: Scaled)
    ensures Parse(Written(Form(y.units < 0, Whole(y), Frac(y)))) == Some(y)
  {
    FormIsForm(y);
    ParseWritten(Form(y.units < 0, Whole(y), Frac(y)));
    FixedForm(y);
  }

  lemma FixedForm(y: Scaled)
    ensures ReadBack(Form(y.units < 0, Whole(y), Frac(y))) == y
  {
    PaddedDigits(y);
    assert Whole(y) + Frac(y) == Padded(y);
  }
}
