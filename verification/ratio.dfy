/** How a corporate action restates a quantity (types/ratio.go), and which ratios count shares (corpact/record.go). */
module Ratios {

  /** From units before the action become to units after it. */
  datatype Ratio = Ratio(from: real, to: real) {
    predicate Positive() {
      from > 0.0 && to > 0.0
    }

    /** Not nothing for nothing, which restates like any ratio; see NothingEqualsAll. */
    predicate Stated() {
      from != 0.0 || to != 0.0
    }

    /** The ratios restate a quantity alike. */
    predicate Equal(o: Ratio) {
      from * o.to == to * o.from
    }

    /** What a quantity is multiplied by. */
    function Factor(): real
      requires Positive()
    {
      to / from
    }
  }

  /** On positive ratios, equal ratios are those of one factor, so that equality is an equivalence. */
  lemma EqualIsSameFactor(r: Ratio, o: Ratio)
    requires r.Positive() && o.Positive()
    ensures r.Equal(o) <==> r.Factor() == o.Factor()
  {
    var f, g := r.Factor(), o.Factor();
    assert r.to == f * r.from && o.to == g * o.from;
    assert r.from * o.to == g * (r.from * o.from) && r.to * o.from == f * (r.from * o.from);
    assert r.from * o.from > 0.0;
    if r.Equal(o) {
      CancelReal(f, g, r.from * o.from);
    }
  }

  /** A ratio of nothing for nothing passes for any other. */
  lemma NothingEqualsAll(r: Ratio)
    ensures Ratio(0.0, 0.0).Equal(r) && r.Equal(Ratio(0.0, 0.0))
  {
  }

  /** A ratio passes on what it equals exactly where it is stated. */
  lemma PassesOnIffStated(b: Ratio)
    ensures (forall a: Ratio, c: Ratio :: a.Equal(b) && b.Equal(c) ==> a.Equal(c)) <==> b.Stated()
  {
    if b.Stated() {
      forall a: Ratio, c: Ratio | a.Equal(b) && b.Equal(c)
        ensures a.Equal(c)
      {
        EqualThrough(a, b, c);
      }
    } else {
      assert Ratio(1.0, 1.0).Equal(b) && b.Equal(Ratio(1.0, 2.0)) && !Ratio(1.0, 1.0).Equal(Ratio(1.0, 2.0));
    }
  }

  lemma EqualThrough(a: Ratio, b: Ratio, c: Ratio)
    requires b.Stated() && a.Equal(b) && b.Equal(c)
    ensures a.Equal(c)
  {
    if b.from != 0.0 {
      assert b.from * (a.from * c.to) == a.from * (b.from * c.to) == a.from * (b.to * c.from);
      assert b.from * (a.to * c.from) == (a.to * b.from) * c.from == (a.from * b.to) * c.from;
      Cancel(a.from * c.to, a.to * c.from, b.from);
    } else {
      assert b.to * (a.from * c.to) == (a.from * b.to) * c.to == (a.to * b.from) * c.to;
      assert b.to * (a.to * c.from) == a.to * (b.to * c.from) == a.to * (b.from * c.to);
      Cancel(a.from * c.to, a.to * c.from, b.to);
    }
  }

  lemma Cancel(x: real, y: real, k: real)
    requires k != 0.0 && k * x == k * y
    ensures x == y
  {
    assert x == (k * x) / k && y == (k * y) / k;
  }

  lemma CancelReal(f: real, g: real, k: real)
    requires k > 0.0 && f * k == g * k
    ensures f == g
  {
    assert f == (f * k) / k && g == (g * k) / k;
  }

  lemma FactorDirection(r: Ratio)
    requires r.Positive()
    ensures r.Factor() < 1.0 <==> r.to < r.from
    ensures r.Factor() > 1.0 <==> r.to > r.from
  {
    var f := r.Factor();
    assert r.to == f * r.from;
    assert r.to - r.from == (f - 1.0) * r.from;
    SignKept(f - 1.0, r.from);
  }

  lemma SignKept(x: real, k: real)
    requires k > 0.0
    ensures x < 0.0 <==> x * k < 0.0
    ensures x > 0.0 <==> x * k > 0.0
  {
    if x < 0.0 {
      assert (-x) * k > 0.0;
    }
  }

  // ----- Greatest common divisors -----

  function Gcd(a: nat, b: nat): (g: nat)
    ensures a > 0 || b > 0 ==> g > 0
    decreases b
  {
    if b == 0 then a else Gcd(b, a % b)
  }

  function Quotient(a: nat, g: nat): (q: nat)
    requires g > 0
    ensures q * g <= a && a - q * g < g
  {
    var q := a / g;
    assert a == q * g + a % g;
    assert q >= 0 by {
      if q < 0 {
        MulAtMost(q, -1, g);
      }
    }
    q
  }

  predicate Divides(g: nat, a: nat) {
    g > 0 && a % g == 0
  }

  lemma ModScales(k: nat, a: nat, b: nat)
    requires k > 0 && b > 0
    ensures k * b > 0 && (k * a) % (k * b) == k * (a % b)
  {
    var q, m := a / b, a % b;
    assert a == q * b + m;
    assert k * a == q * (k * b) + k * m by {
      assert k * (q * b + m) == q * (k * b) + k * m;
    }
    assert 0 <= k * m < k * b by {
      assert k * (b - m) > 0;
    }
    Remainder(k * a, k * b, q, k * m);
  }

  lemma MulAtMost(a: int, b: int, k: nat)
    requires a <= b
    ensures a * k <= b * k
  {
    assert (b - a) * k >= 0;
  }

  lemma MulLess(a: int, b: int, k: nat)
    requires a < b && k > 0
    ensures a * k < b * k
  {
    MulAtMost(a + 1, b, k);
    assert (a + 1) * k == a * k + k;
  }

  /** A quotient and a remainder below the divisor are the only ones. */
  lemma Remainder(n: nat, d: nat, q: nat, m: nat)
    requires d > 0 && n == q * d + m && m < d
    ensures n % d == m && n / d == q
  {
    var q', m' := n / d, n % d;
    assert n == q' * d + m';
    QuotientOnce(d, q, m, q', m');
  }

  lemma QuotientOnce(d: nat, q: nat, m: nat, q': nat, m': nat)
    requires d > 0 && m < d && m' < d && q * d + m == q' * d + m'
    ensures q == q' && m == m'
  {
    if q < q' {
      assert (q + 1) * d == q * d + d;
      MulAtMost(q + 1, q', d);
    }
    if q' < q {
      assert (q' + 1) * d == q' * d + d;
      MulAtMost(q' + 1, q, d);
    }
  }

  /** Scaling both numbers scales their greatest common divisor. */
  lemma {:induction false} GcdScales(k: nat, a: nat, b: nat)
    requires k > 0
    ensures Gcd(k * a, k * b) == k * Gcd(a, b)
    decreases b
  {
    if b > 0 {
      ModScales(k, a, b);
      GcdScales(k, b, a % b);
    }
  }

  lemma {:induction false} GcdDivides(a: nat, b: nat)
    requires a > 0 || b > 0
    ensures Divides(Gcd(a, b), a) && Divides(Gcd(a, b), b)
    decreases b
  {
    if b > 0 {
      GcdDivides(b, a % b);
      var g := Gcd(a, b);
      var q := a / b;
      assert a == q * b + a % b;
      SumDivides(g, q, b, a % b);
    }
  }

  lemma SumDivides(g: nat, q: nat, b: nat, m: nat)
    requires Divides(g, b) && Divides(g, m)
    ensures Divides(g, q * b + m)
  {
    var x, y := b / g, m / g;
    assert b == x * g && m == y * g;
    assert q * b + m == (q * x + y) * g by {
      assert q * (x * g) == (q * x) * g;
    }
    Remainder(q * b + m, g, q * x + y, 0);
  }

  lemma GcdSymmetric(a: nat, b: nat)
    ensures Gcd(a, b) == Gcd(b, a)
  {
    if a < b {
      Remainder(a, b, 0, a);
    } else if b < a {
      Remainder(b, a, 0, b);
    }
  }

  // ----- Share counts -----

  /** The largest that the smaller side of a share count ratio can be in lowest terms. */
  const MAX_SHARE_TERM: nat := 100

  predicate Whole(x: real) {
    x.Floor as real == x
  }

  predicate WholeRatio(r: Ratio) {
    Whole(r.from) && Whole(r.to)
  }

  /** The smaller side of from and to, in lowest terms. */
  function SmallerTerm(from: nat, to: nat): nat
    requires from > 0 && to > 0
  {
    Quotient(if to < from then to else from, Gcd(from, to))
  }

  /** The ratio states a change in share count rather than a price factor. */
  predicate RestatesShares(r: Ratio) {
    WholeRatio(r) && r.Positive() && SmallerTerm(r.from.Floor, r.to.Floor) <= MAX_SHARE_TERM
  }

  lemma LowestTermsAlike(a: nat, b: nat, c: nat, d: nat)
    requires a > 0 && b > 0 && c > 0 && d > 0 && a * d == b * c
    ensures Quotient(a, Gcd(a, b)) == Quotient(c, Gcd(c, d))
  {
    CrossGcd(a, b, c, d);
    GcdDivides(a, b);
    GcdDivides(c, d);
    ExactQuotient(a, Gcd(a, b));
    ExactQuotient(c, Gcd(c, d));
    TermsAlike(Quotient(a, Gcd(a, b)), Gcd(a, b), Quotient(c, Gcd(c, d)), Gcd(c, d));
  }

  lemma ExactQuotient(a: nat, g: nat)
    requires Divides(g, a)
    ensures Quotient(a, g) * g == a
  {
    assert a == (a / g) * g + a % g;
  }

  lemma TermsAlike(x: nat, g: nat, y: nat, h: nat)
    requires g > 0 && h > 0 && (x * g) * h == (y * h) * g
    ensures x == y
  {
    assert (x * g) * h == x * (g * h) && (y * h) * g == y * (g * h);
    CancelNat(x, y, g * h);
  }

  lemma CrossGcd(a: nat, b: nat, c: nat, d: nat)
    requires a > 0 && b > 0 && c > 0 && d > 0 && a * d == b * c
    ensures a * Gcd(c, d) == c * Gcd(a, b)
  {
    GcdScales(a, c, d);
    GcdScales(c, a, b);
    assert a * c == c * a && a * d == c * b;
  }

  lemma CancelNat(x: nat, y: nat, k: nat)
    requires k > 0 && x * k == y * k
    ensures x == y
  {
    assert (x - y) * k == 0;
  }

  /** Equal ratios of whole numbers have one verdict, however they are scaled. */
  lemma EqualRatiosOneVerdict(r: Ratio, o: Ratio)
    requires r.Positive() && o.Positive() && WholeRatio(r) && WholeRatio(o) && r.Equal(o)
    ensures RestatesShares(r) <==> RestatesShares(o)
  {
    var a: nat, b: nat, c: nat, d: nat := r.from.Floor, r.to.Floor, o.from.Floor, o.to.Floor;
    WholeProducts(a, b, c, d);
    assert a * d == b * c;
    LowestTermsAlike(a, b, c, d);
    GcdSymmetric(a, b);
    GcdSymmetric(c, d);
    LowestTermsAlike(b, a, d, c);
    SidesAlike(a, b, c, d);
  }

  lemma WholeProducts(a: nat, b: nat, c: nat, d: nat)
    ensures (a as real) * (d as real) == (a * d) as real && (b as real) * (c as real) == (b * c) as real
  {
  }

  lemma SidesAlike(a: nat, b: nat, c: nat, d: nat)
    requires a > 0 && b > 0 && c > 0 && d > 0 && a * d == b * c
    ensures b < a <==> d < c
  {
    if b < a {
      MulLess(b, a, c);
    } else {
      MulAtMost(a, b, c);
    }
    if d < c {
      MulLess(d, c, a);
    } else {
      MulAtMost(c, d, a);
    }
    assert b * c == a * d && c * a == a * c && d * a == a * d;
  }

  /** r is x to y, natural numbers of which the smaller is at most a hundred. */
  ghost predicate CountsAs(r: Ratio, x: nat, y: nat) {
    x > 0 && y > 0 && (x <= 100 || y <= 100) && r.from * y as real == r.to * x as real
  }

  /**
   * Both sides are whole and positive, and the ratio can be written with natural numbers of which
   * the smaller is at most a hundred, in lowest terms or not.
   */
  ghost predicate CountsShares(r: Ratio) {
    && r.from > 0.0 && r.to > 0.0 && r.from.Floor as real == r.from && r.to.Floor as real == r.to
    && exists x: nat, y: nat :: CountsAs(r, x, y)
  }

  lemma SharesAre(r: Ratio)
    ensures RestatesShares(r) <==> CountsShares(r)
  {
    if r.from > 0.0 && r.to > 0.0 && r.from.Floor as real == r.from && r.to.Floor as real == r.to {
      var a: nat, b: nat := r.from.Floor, r.to.Floor;
      if RestatesShares(r) {
        var x, y := InLowestTerms(r, a, b);
      }
      if x: nat, y: nat :| CountsAs(r, x, y) {
        WholeProducts(a, b, x, y);
        assert a * y == b * x;
        SmallAnyhow(a, b, x, y);
      }
    }
  }

  lemma InLowestTerms(r: Ratio, a: nat, b: nat) returns (x: nat, y: nat)
    requires a > 0 && b > 0 && r.from == a as real && r.to == b as real && SmallerTerm(a, b) <= 100
    ensures CountsAs(r, x, y)
  {
    var g := Gcd(a, b);
    GcdDivides(a, b);
    ExactQuotient(a, g);
    ExactQuotient(b, g);
    x, y := Quotient(a, g), Quotient(b, g);
    assert (x * g) * y == (y * g) * x;
    WholeProducts(a, b, x, y);
  }

  lemma SmallAnyhow(a: nat, b: nat, x: nat, y: nat)
    requires a > 0 && b > 0 && x > 0 && y > 0 && a * y == b * x && (x <= 100 || y <= 100)
    ensures SmallerTerm(a, b) <= 100
  {
    LowestTermsAlike(a, b, x, y);
    LowestTermsAlike(b, a, y, x);
    GcdSymmetric(a, b);
    GcdSymmetric(x, y);
    SidesAlike(a, b, x, y);
    GcdDivides(x, y);
    AtMostWhole(x, Gcd(x, y));
    AtMostWhole(y, Gcd(x, y));
  }

  lemma AtMostWhole(a: nat, g: nat)
    requires g > 0
    ensures Quotient(a, g) <= a
  {
    MulAtMost(1, g, Quotient(a, g));
  }

  /** 101 for 100 counts shares, and 102 for 101 does not. */
  lemma AtTheBound()
    ensures RestatesShares(Ratio(100.0, 101.0)) && !RestatesShares(Ratio(101.0, 102.0))
  {
    assert (100.0).Floor == 100 && (101.0).Floor == 101 && (102.0).Floor == 102;
    assert Gcd(100, 101) == Gcd(101, 100) == Gcd(100, 1) == Gcd(1, 0) == 1;
    assert Gcd(101, 102) == Gcd(102, 101) == Gcd(101, 1) == Gcd(1, 0) == 1;
  }

  /** The ratio counts shares by its terms alone: its smaller side, in lowest terms, is small enough. */
  predicate SmallTerms(r: Ratio)
    requires WholeRatio(r) && r.Positive()
  {
    SmallerTerm(r.from.Floor, r.to.Floor) <= MAX_SHARE_TERM
  }

  /**
   * Two equal ratios have one verdict exactly where both are whole or both are not, or the whole
   * one's terms are too large to count shares.
   */
  lemma VerdictsAgreeIff(r: Ratio, o: Ratio)
    requires r.Positive() && o.Positive() && r.Equal(o)
    ensures (RestatesShares(r) <==> RestatesShares(o))
       <==> (WholeRatio(r) <==> WholeRatio(o)) || !(if WholeRatio(r) then SmallTerms(r) else SmallTerms(o))
  {
    if WholeRatio(r) && WholeRatio(o) {
      EqualRatiosOneVerdict(r, o);
    }
  }

  /** The verdict is of the numbers stated: 2 for 1 counts shares, and 1 for a half, which restates alike, does not. */
  lemma FractionsDiffer()
    ensures Ratio(1.0, 2.0).Equal(Ratio(0.5, 1.0))
    ensures RestatesShares(Ratio(1.0, 2.0)) && !RestatesShares(Ratio(0.5, 1.0))
  {
    assert (0.5).Floor == 0;
    assert (1.0).Floor == 1 && (2.0).Floor == 2;
    assert Gcd(1, 2) == Gcd(2, 1) == Gcd(1, 0) == 1;
  }
}
