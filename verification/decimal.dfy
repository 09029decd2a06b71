/** Exact arithmetic on decimal strings (client/lib/marshal/decimal.ts). */
module Decimals {
  import opened Options

  /** units at scale decimal places. */
  datatype Scaled = Scaled(units: int, scale: nat)

  // ----- Powers of ten and the value of a decimal -----

  function Pow(n: nat): (r: nat)
    ensures r >= 1
  {
    if n == 0 then 1 else 10 * Pow(n - 1)
  }

  function Value(x: Scaled): real {
    x.units as real / Pow(x.scale) as real
  }

  /** The same decimal at one more place. */
  function Shift(x: Scaled): Scaled {
    Scaled(10 * x.units, x.scale + 1)
  }

  /** The same decimal at d more places. */
  function Up(x: Scaled, d: nat): (r: Scaled)
    ensures r.scale == x.scale + d
  {
    if d == 0 then x else Shift(Up(x, d - 1))
  }

  lemma ShiftKeepsValue(x: Scaled)
    ensures Value(Shift(x)) == Value(x)
  {
  }

  lemma {:induction false} UpKeepsValue(x: Scaled, d: nat)
    ensures Value(Up(x, d)) == Value(x)
  {
    if d > 0 {
      UpKeepsValue(x, d - 1);
      ShiftKeepsValue(Up(x, d - 1));
    }
  }

  lemma {:induction false} UpUnits(x: Scaled, d: nat)
    ensures Up(x, d).units == x.units * Pow(d)
  {
    if d > 0 {
      UpUnits(x, d - 1);
      TimesTen(x.units, Pow(d - 1));
    }
  }

  lemma TimesTen(u: int, p: int)
    ensures 10 * (u * p) == u * (10 * p)
  {
  }

  lemma {:induction false} UpNegates(x: Scaled, d: nat)
    ensures Up(Scaled(-x.units, x.scale), d).units == -Up(x, d).units
  {
    if d > 0 {
      UpNegates(x, d - 1);
    }
  }

  lemma {:induction false} UpUp(x: Scaled, m: nat, n: nat)
    ensures Up(Up(x, m), n) == Up(x, m + n)
  {
    if n > 0 {
      UpUp(x, m, n - 1);
    }
  }

  /** The decimals have one value: at as many places they have the same units. */
  predicate Same(x: Scaled, y: Scaled) {
    Up(x, y.scale) == Up(y, x.scale)
  }

  lemma SameFrom(t: Scaled, x: Scaled, y: Scaled, m: nat, n: nat)
    requires x == Up(t, m) && y == Up(t, n)
    ensures Same(x, y)
  {
    UpUp(t, m, y.scale);
    UpUp(t, n, x.scale);
  }

  lemma SameUp(t: Scaled, x: Scaled, k: nat)
    requires x == Up(t, k)
    ensures Same(t, x)
  {
    SameFrom(t, t, x, 0, k);
  }

  lemma SameIsValue(x: Scaled, y: Scaled)
    ensures Same(x, y) <==> Value(x) == Value(y)
  {
    UpKeepsValue(x, y.scale);
    UpKeepsValue(y, x.scale);
    OneScale(Up(x, y.scale).units, Up(y, x.scale).units, x.scale + y.scale);
  }

  /** Decimals of one scale have one value only where they have the same units. */
  lemma OneScale(u: int, v: int, s: nat)
    ensures Value(Scaled(u, s)) == Value(Scaled(v, s)) <==> u == v
    ensures Value(Scaled(u + v, s)) == Value(Scaled(u, s)) + Value(Scaled(v, s))
    ensures Value(Scaled(-u, s)) == -Value(Scaled(u, s))
  {
  }

  // ----- Digits -----

  predicate IsDigit(c: char) {
    '0' <= c <= '9'
  }

  function DigitOf(c: char): nat {
    if IsDigit(c) then c as int - '0' as int else 0
  }

  function CharOf(d: nat): (c: char)
    requires d < 10
    ensures IsDigit(c) && DigitOf(c) == d
  {
    (d + '0' as int) as char
  }

  predicate AllDigits(s: string) {
    forall i :: 0 <= i < |s| ==> IsDigit(s[i])
  }

  /** The number that digits write. */
  function NatOf(s: string): nat {
    if s == "" then 0 else 10 * NatOf(s[..|s| - 1]) + DigitOf(s[|s| - 1])
  }

  /** The digits of a number, without leading zeros. */
  function Digits(n: nat): string {
    if n < 10 then [CharOf(n)] else Digits(n / 10) + [CharOf(n % 10)]
  }

  function Zeros(n: nat): (s: string)
    ensures |s| == n
  {
    seq(n, _ => '0')
  }

  function PadStart(s: string, width: nat): (r: string)
    ensures |r| >= width && |r| >= |s|
  {
    if |s| < width then Zeros(width - |s|) + s else s
  }

  lemma {:induction false} NatOfAppend(s: string, c: char)
    requires AllDigits(s) && IsDigit(c)
    ensures AllDigits(s + [c])
    ensures NatOf(s + [c]) == 10 * NatOf(s) + DigitOf(c)
  {
  }

  lemma {:induction false} NatOfDigits(n: nat)
    ensures NatOf(Digits(n)) == n && AllDigits(Digits(n)) && Digits(n) != ""
  {
    if n >= 10 {
      NatOfDigits(n / 10);
      NatOfAppend(Digits(n / 10), CharOf(n % 10));
    }
  }

  lemma {:induction false} NatOfLeadingZeros(n: nat, s: string)
    requires AllDigits(s)
    ensures AllDigits(Zeros(n) + s) && NatOf(Zeros(n) + s) == NatOf(s)
  {
    if s == "" {
      assert Zeros(n) + s == Zeros(n);
      NatOfZeros(n);
    } else {
      var m := |s| - 1;
      assert Zeros(n) + s == (Zeros(n) + s[..m]) + [s[m]];
      NatOfLeadingZeros(n, s[..m]);
      NatOfAppend(Zeros(n) + s[..m], s[m]);
    }
  }

  lemma {:induction false} NatOfZeros(n: nat)
    ensures AllDigits(Zeros(n)) && NatOf(Zeros(n)) == 0
  {
    if n > 0 {
      assert Zeros(n)[..n - 1] == Zeros(n - 1);
      NatOfZeros(n - 1);
    }
  }

  /** Zeros at the end are places more of the same decimal. */
  lemma {:induction false} NatOfTrailingZeros(s: string, scale: nat, k: nat)
    requires AllDigits(s)
    ensures AllDigits(s + Zeros(k)) && Scaled(NatOf(s + Zeros(k)), scale + k) == Up(Scaled(NatOf(s), scale), k)
  {
    if k == 0 {
      assert s + Zeros(k) == s;
    } else {
      NatOfTrailingZeros(s, scale, k - 1);
      assert s + Zeros(k) == (s + Zeros(k - 1)) + ['0'];
      NatOfAppend(s + Zeros(k - 1), '0');
    }
  }

  lemma NatOfPadded(s: string, width: nat)
    requires AllDigits(s)
    ensures AllDigits(PadStart(s, width)) && NatOf(PadStart(s, width)) == NatOf(s)
  {
    if |s| < width {
      NatOfLeadingZeros(width - |s|, s);
    }
  }

  // ----- Parsing -----

  /** White space, as a pattern of the language matches it. */
  predicate Space(c: char) {
    var n := c as int;
    9 <= n <= 13 || n == 32 || n == 0xA0 || n == 0x1680 || 0x2000 <= n <= 0x200A
    || n == 0x2028 || n == 0x2029 || n == 0x202F || n == 0x205F || n == 0x3000 || n == 0xFEFF
  }

  /** A currency sign, a thousands separator or white space. */
  predicate Dropped(c: char) {
    c == '$' || c == ',' || Space(c)
  }

  /** A currency sign, a comma, a tab, a break of lines or pages, or a space of any width is dropped. */
  lemma DroppedAre(c: char)
    ensures c in {'$', ',', ' ', '\t', '\n', '\r', '\U{000B}', '\U{000C}', '\U{00A0}', '\U{FEFF}'} ==> Dropped(c)
    ensures Dropped(c) && c < '\U{0080}' ==> c in {'$', ',', ' ', '\t', '\n', '\r', '\U{000B}', '\U{000C}'}
    ensures IsDigit(c) || c == '.' || c == '-' || c == '+' ==> !Dropped(c)
  {
  }

  function Strip(s: string): string {
    if s == "" then "" else (if Dropped(s[0]) then "" else [s[0]]) + Strip(s[1..])
  }

  /** What is not dropped stays, in its order. */
  lemma {:induction false} StripKeeps(s: string, t: string)
    ensures Strip(s + t) == Strip(s) + Strip(t)
    ensures |s| == 1 ==> Strip(s) == if Dropped(s[0]) then "" else s
  {
    if s == "" {
      assert s + t == t;
    } else {
      assert (s + t)[1..] == s[1..] + t;
      StripKeeps(s[1..], t);
    }
  }

  lemma {:induction false} StripClean(s: string)
    requires forall i :: 0 <= i < |s| ==> !Dropped(s[i])
    ensures Strip(s) == s
  {
    if s != "" {
      StripClean(s[1..]);
      assert s == [s[0]] + s[1..];
    }
  }

  /** How many digits s begins with. */
  function Leading(s: string): (n: nat)
    ensures n <= |s|
  {
    if s == "" || !IsDigit(s[0]) then 0 else 1 + Leading(s[1..])
  }

  lemma {:induction false} LeadingOnce(s: string, n: nat)
    requires n <= |s| && AllDigits(s[..n]) && (n < |s| ==> !IsDigit(s[n]))
    ensures Leading(s) == n
  {
    if n > 0 {
      assert s[..n][0] == s[0];
      assert s[1..][..n - 1] == s[..n][1..];
      LeadingOnce(s[1..], n - 1);
    }
  }

  /** A decimal without a sign: digits, and a point with digits after it, one of the two not empty. */
  function ParseUnsigned(t: string): Option<Scaled> {
    var n := Leading(t);
    var whole, rest := t[..n], t[n..];
    if rest == "" then
      if whole == "" then None else Some(Scaled(NatOf(whole), 0))
    else
      var frac := rest[1..];
      if rest[0] != '.' || !AllDigits(frac) || (whole == "" && frac == "") then None
      else Some(Scaled(NatOf(whole + frac), |frac|))
  }

  function Signed(neg: bool, x: Scaled): Scaled {
    if neg then Scaled(-x.units, x.scale) else x
  }

  function ParseSigned(t: string): Option<Scaled> {
    var neg := t != "" && t[0] == '-';
    var x := ParseUnsigned(if t != "" && (t[0] == '-' || t[0] == '+') then t[1..] else t);
    if x.None? then None else Some(Signed(neg, x.value))
  }

  /** The decimal that s states, allowing a currency sign, separators and a leading point; none where it states none. */
  function Parse(s: string): Option<Scaled> {
    ParseSigned(Strip(s))
  }

  /** t is a sign or none, digits, and a point with digits after it or none; there is a digit. */
  ghost predicate Reads(t: string, sign: string, whole: string, point: string, frac: string) {
    && sign in {"", "+", "-"} && point in {"", "."} && AllDigits(whole) && AllDigits(frac)
    && (point == "" ==> frac == "") && |whole| + |frac| > 0
    && t == sign + (whole + (point + frac))
  }

  /** What the digits state after the sign. */
  function StatedBy(sign: string, digits: string): int {
    if sign == "-" then 0 - NatOf(digits) else NatOf(digits)
  }

  /** s reads so once its currency signs, separators and white space are dropped. */
  ghost predicate ReadsAs(s: string, sign: string, whole: string, point: string, frac: string) {
    Reads(Strip(s), sign, whole, point, frac)
  }

  /** A string states a decimal iff it reads as one, and then the one that its sign and digits state. */
  lemma ParseReads(s: string)
    ensures Parse(s).Some? <==> exists sign, whole, point, frac :: ReadsAs(s, sign, whole, point, frac)
    ensures forall sign, whole, point, frac :: ReadsAs(s, sign, whole, point, frac) ==>
      Parse(s) == Some(Scaled(StatedBy(sign, whole + frac), |frac|))
  {
    forall sign, whole, point, frac | ReadsAs(s, sign, whole, point, frac)
      ensures Parse(s) == Some(Scaled(StatedBy(sign, whole + frac), |frac|))
    {
      SignedReads(Strip(s), sign, whole, point, frac);
    }
    if Parse(s).Some? {
      var sign, whole, point, frac := ReadingOf(Strip(s));
      assert ReadsAs(s, sign, whole, point, frac);
    }
  }

  lemma ReadingOf(t: string) returns (sign: string, whole: string, point: string, frac: string)
    requires ParseSigned(t).Some?
    ensures Reads(t, sign, whole, point, frac)
  {
    sign := if t != "" && t[0] == '-' then "-" else if t != "" && t[0] == '+' then "+" else "";
    var u := t[|sign|..];
    assert t == sign + u;
    whole, point, frac := UnsignedReading(u);
  }

  lemma UnsignedReading(u: string) returns (whole: string, point: string, frac: string)
    requires ParseUnsigned(u).Some?
    ensures point in {"", "."} && AllDigits(whole) && AllDigits(frac) && (point == "" ==> frac == "") && |whole| + |frac| > 0
    ensures u == whole + (point + frac)
  {
    var n := Leading(u);
    whole := u[..n];
    var rest := u[n..];
    LeadingDigits(u);
    point, frac := "", "";
    assert u == whole + rest;
    if rest != "" {
      point, frac := ".", rest[1..];
      assert rest == point + frac;
    }
  }

  lemma UnsignedReads(whole: string, point: string, frac: string)
    requires point in {"", "."} && AllDigits(whole) && AllDigits(frac) && (point == "" ==> frac == "") && |whole| + |frac| > 0
    ensures ParseUnsigned(whole + (point + frac)) == Some(Scaled(NatOf(whole + frac), |frac|))
  {
    var u := whole + (point + frac);
    assert u[..|whole|] == whole && u[|whole|..] == point + frac;
    LeadingOnce(u, |whole|);
    if point == "" {
      assert whole + frac == whole && point + frac == "";
    } else {
      assert (point + frac)[1..] == frac;
    }
  }

  lemma SignedReads(t: string, sign: string, whole: string, point: string, frac: string)
    requires Reads(t, sign, whole, point, frac)
    ensures ParseSigned(t) == Some(Scaled(StatedBy(sign, whole + frac), |frac|))
  {
    UnsignedReads(whole, point, frac);
    StartsPlain(whole, point, frac);
    AfterSign(t, sign, whole + (point + frac));
  }

  lemma StartsPlain(whole: string, point: string, frac: string)
    requires point in {"", "."} && AllDigits(whole) && AllDigits(frac) && |whole| + |frac| > 0 && (point == "" ==> frac == "")
    ensures var u := whole + (point + frac); u != "" && u[0] != '-' && u[0] != '+'
  {
  }

  lemma AfterSign(t: string, sign: string, u: string)
    requires sign in {"", "+", "-"} && t == sign + u && u != "" && u[0] != '-' && u[0] != '+'
    ensures ParseSigned(t) == if ParseUnsigned(u).None? then None else Some(Signed(sign == "-", ParseUnsigned(u).value))
  {
    if sign == "" {
      assert t == u;
    } else {
      assert t[1..] == u && t[0] == sign[0];
    }
  }

  lemma {:induction false} LeadingDigits(s: string)
    ensures AllDigits(s[..Leading(s)])
  {
    if s != "" && IsDigit(s[0]) {
      LeadingDigits(s[1..]);
      assert s[..Leading(s)] == [s[0]] + s[1..][..Leading(s[1..])];
    }
  }

  // ----- Rendering -----

  function Abs(n: int): nat {
    if n < 0 then -n else n
  }

  /** At least one digit before the places, and the places. */
  function Padded(x: Scaled): (s: string)
    ensures |s| > x.scale
  {
    PadStart(Digits(Abs(x.units)), x.scale + 1)
  }

  lemma PaddedDigits(x: Scaled)
    ensures AllDigits(Padded(x)) && NatOf(Padded(x)) == Abs(x.units)
  {
    NatOfDigits(Abs(x.units));
    NatOfPadded(Digits(Abs(x.units)), x.scale + 1);
  }

  function TrimZeros(s: string): (r: string)
    ensures |r| <= |s|
  {
    if s == "" || s[|s| - 1] != '0' then s else TrimZeros(s[..|s| - 1])
  }

  /** Only zeros are trimmed, and all of them. */
  lemma {:induction false} TrimsZeros(s: string)
    ensures s == TrimZeros(s) + Zeros(|s| - |TrimZeros(s)|)
    ensures TrimZeros(s) == "" || TrimZeros(s)[|TrimZeros(s)| - 1] != '0'
  {
    if s != "" && s[|s| - 1] == '0' {
      var front := s[..|s| - 1];
      assert s == front + ['0'];
      TrimsZeros(front);
      assert Zeros(|front| - |TrimZeros(front)|) + ['0'] == Zeros(|s| - |TrimZeros(front)|);
    }
  }

  function Pointed(frac: string): string {
    if frac == "" then "" else "." + frac
  }

  /** What is written of a decimal: a sign, at least one digit, and the places. */
  datatype Form = Form(neg: bool, whole: string, frac: string)

  ghost predicate IsForm(f: Form) {
    AllDigits(f.whole) && AllDigits(f.frac) && f.whole != ""
  }

  function Written(f: Form): string {
    if f.neg then "-" + (f.whole + Pointed(f.frac)) else f.whole + Pointed(f.frac)
  }

  function Whole(x: Scaled): string {
    Padded(x)[..|Padded(x)| - x.scale]
  }

  function Frac(x: Scaled): (s: string)
    ensures |s| == x.scale
  {
    Padded(x)[|Padded(x)| - x.scale..]
  }

  /** The places that are written. */
  function Places(x: Scaled): (s: string)
    ensures |s| <= x.scale
  {
    TrimZeros(Frac(x))
  }

  function FormOf(x: Scaled): Form {
    Form(x.units < 0, Whole(x), Places(x))
  }

  function Render(x: Scaled): string {
    Written(FormOf(x))
  }

  lemma FormIsForm(x: Scaled)
    ensures IsForm(FormOf(x)) && IsForm(Form(x.units < 0, Whole(x), Frac(x)))
  {
    PaddedDigits(x);
    TrimsZeros(Frac(x));
    TrimDigits(Frac(x));
  }

  lemma TrimDigits(s: string)
    requires AllDigits(s)
    ensures AllDigits(TrimZeros(s))
  {
  }

  lemma {:induction false} DigitsLead(n: nat)
    ensures Digits(n) != "" && AllDigits(Digits(n)) && (n > 0 ==> Digits(n)[0] != '0') && (n == 0 ==> |Digits(n)| == 1)
  {
    if n >= 10 {
      DigitsLead(n / 10);
    }
  }

  /** Digits of which no zero leads but one alone. */
  ghost predicate LeadsWell(whole: string) {
    whole != "" && AllDigits(whole) && (whole[0] != '0' || |whole| == 1)
  }

  /** Digits of which no zero is last. */
  ghost predicate EndsWell(frac: string) {
    AllDigits(frac) && (frac == "" || frac[|frac| - 1] != '0')
  }

  /** x is rendered as a sign where it is below zero, the whole, and a point and the places where there are any. */
  ghost predicate HasShape(x: Scaled, whole: string, frac: string) {
    Render(x) == (if x.units < 0 then "-" else "") + (whole + (if frac == "" then "" else "." + frac))
  }

  lemma WholeLeads(x: Scaled)
    ensures LeadsWell(Whole(x))
  {
    DigitsLead(Abs(x.units));
    PaddedDigits(x);
    if |Whole(x)| > 1 {
      assert Padded(x) == Digits(Abs(x.units));
      assert Abs(x.units) > 0;
      assert Whole(x)[0] == Padded(x)[0];
    }
  }

  /** The canonical shape: no zero leads but one alone, none ends the places, and there is no point without places. */
  lemma RenderShape(x: Scaled)
    ensures exists whole, frac :: HasShape(x, whole, frac) && LeadsWell(whole) && EndsWell(frac)
  {
    FormIsForm(x);
    WholeLeads(x);
    TrimsZeros(Frac(x));
    assert "" + (Whole(x) + Pointed(Places(x))) == Whole(x) + Pointed(Places(x));
    assert HasShape(x, Whole(x), Places(x));
  }

  ghost predicate IsClean(s: string) {
    forall i :: 0 <= i < |s| ==> !Dropped(s[i])
  }

  lemma WrittenClean(f: Form)
    requires IsForm(f)
    ensures IsClean(Written(f))
  {
  }

  lemma ParseWrittenUnsigned(whole: string, frac: string)
    requires AllDigits(whole) && AllDigits(frac) && whole != ""
    ensures ParseUnsigned(whole + Pointed(frac)) == Some(Scaled(NatOf(whole + frac), |frac|))
  {
    var t := whole + Pointed(frac);
    assert t[..|whole|] == whole && t[|whole|..] == Pointed(frac);
    LeadingOnce(t, |whole|);
    if frac == "" {
      assert whole + frac == whole;
    } else {
      assert Pointed(frac)[1..] == frac;
    }
  }

  lemma ParseSignedWritten(neg: bool, t: string)
    requires t != "" && IsDigit(t[0]) && ParseUnsigned(t).Some?
    ensures ParseSigned(if neg then "-" + t else t) == Some(Signed(neg, ParseUnsigned(t).value))
  {
  }

  /** The decimal that a form writes. */
  function ReadBack(f: Form): Scaled {
    Signed(f.neg, Scaled(NatOf(f.whole + f.frac), |f.frac|))
  }

  /** A sign, digits and places are read back as written. */
  lemma ParseWritten(f: Form)
    requires IsForm(f)
    ensures Parse(Written(f)) == Some(ReadBack(f))
  {
    WrittenClean(f);
    StripClean(Written(f));
    ParseWrittenUnsigned(f.whole, f.frac);
    assert (f.whole + Pointed(f.frac))[0] == f.whole[0];
    ParseSignedWritten(f.neg, f.whole + Pointed(f.frac));
  }

  /** The digits that are rendered write the value, at fewer places by the zeros left out. */
  lemma RenderedDigits(x: Scaled)
    ensures Up(Scaled(NatOf(Whole(x) + Places(x)), |Places(x)|), x.scale - |Places(x)|) == Scaled(Abs(x.units), x.scale)
  {
    PaddedParts(x);
    PaddedDigits(x);
    FormIsForm(x);
    NatOfTrailingZeros(Whole(x) + Places(x), |Places(x)|, x.scale - |Places(x)|);
  }

  lemma PaddedParts(x: Scaled)
    ensures Padded(x) == (Whole(x) + Places(x)) + Zeros(x.scale - |Places(x)|)
  {
    assert Padded(x) == Whole(x) + Frac(x);
    TrimsZeros(Frac(x));
    Regroup(Whole(x), Places(x), Zeros(x.scale - |Places(x)|));
  }

  lemma Regroup(s: string, t: string, u: string)
    ensures s + (t + u) == (s + t) + u
  {
  }

  lemma FormUp(x: Scaled)
    ensures ReadBack(FormOf(x)).scale <= x.scale
    ensures Up(ReadBack(FormOf(x)), x.scale - ReadBack(FormOf(x)).scale) == x
  {
    RenderedDigits(x);
    SignedUp(x, Scaled(NatOf(Whole(x) + Places(x)), |Places(x)|), x.scale - |Places(x)|);
  }

  lemma SignedUp(x: Scaled, y: Scaled, k: nat)
    requires Up(y, k) == Scaled(Abs(x.units), x.scale)
    ensures Up(Signed(x.units < 0, y), k) == x
  {
    UpNegates(y, k);
  }

  lemma FormKeepsValue(x: Scaled)
    ensures Same(ReadBack(FormOf(x)), x)
  {
    FormUp(x);
    SameUp(ReadBack(FormOf(x)), x, x.scale - ReadBack(FormOf(x)).scale);
  }

  /** What is rendered parses to the value rendered. */
  lemma ParseRender(x: Scaled)
    ensures Parse(Render(x)).Some? && Same(Parse(Render(x)).value, x)
  {
    FormIsForm(x);
    ParseWritten(FormOf(x));
    FormKeepsValue(x);
  }

  // ----- Equal values render alike -----

  /** One more place of zero adds a zero to the digits. */
  lemma PaddedShift(x: Scaled)
    ensures Padded(Shift(x)) == Padded(x) + ['0']
  {
    var n := Abs(x.units);
    assert Abs(Shift(x).units) == 10 * n;
    if n == 0 {
      PadZero(x.scale + 1);
    } else {
      DigitsShift(n);
      PadShift(Digits(n), x.scale + 1);
    }
  }

  lemma DigitsShift(n: nat)
    requires n > 0
    ensures Digits(10 * n) == Digits(n) + ['0']
  {
    assert (10 * n) / 10 == n && (10 * n) % 10 == 0;
    assert CharOf(0) == '0';
  }

  lemma PadShift(s: string, width: nat)
    ensures PadStart(s + ['0'], width + 1) == PadStart(s, width) + ['0']
  {
  }

  lemma PadZero(width: nat)
    requires width > 0
    ensures PadStart(Digits(0), width + 1) == PadStart(Digits(0), width) + ['0']
  {
    assert Digits(0) == ['0'];
  }

  lemma TrimShift(s: string)
    ensures TrimZeros(s + ['0']) == TrimZeros(s)
  {
  }

  lemma SliceShift(s: string, n: nat)
    requires n <= |s|
    ensures (s + ['0'])[..|s| + 1 - (n + 1)] == s[..|s| - n]
    ensures (s + ['0'])[|s| + 1 - (n + 1)..] == s[|s| - n..] + ['0']
  {
  }

  lemma FormShift(x: Scaled)
    ensures FormOf(Shift(x)) == FormOf(x)
  {
    PartsShift(x);
    TrimShift(Frac(x));
  }

  lemma PartsShift(x: Scaled)
    ensures Whole(Shift(x)) == Whole(x) && Frac(Shift(x)) == Frac(x) + ['0']
  {
    PaddedShift(x);
    SliceShift(Padded(x), x.scale);
  }

  /** What one more place keeps, any number of them does. */
  lemma {:induction false} UpKeeps<T>(f: Scaled -> T, x: Scaled, d: nat)
    requires forall y :: f(Shift(y)) == f(y)
    ensures f(Up(x, d)) == f(x)
  {
    if d > 0 {
      UpKeeps(f, x, d - 1);
    }
  }

  lemma FormKept(x: Scaled, d: nat)
    ensures FormOf(Up(x, d)) == FormOf(x)
  {
    forall y
      ensures FormOf(Shift(y)) == FormOf(y)
    {
      FormShift(y);
    }
    UpKeeps(FormOf, x, d);
  }

  lemma SameGivesForm(x: Scaled, y: Scaled)
    requires Same(x, y)
    ensures FormOf(x) == FormOf(y)
  {
    FormKept(x, y.scale);
    FormKept(y, x.scale);
  }

  lemma ReadBackGivesSame(x: Scaled, y: Scaled)
    requires ReadBack(FormOf(x)) == ReadBack(FormOf(y))
    ensures Same(x, y)
  {
    FormUp(x);
    FormUp(y);
    BothFrom(ReadBack(FormOf(x)), x, y);
  }

  lemma BothFrom(t: Scaled, x: Scaled, y: Scaled)
    requires t.scale <= x.scale && t.scale <= y.scale
    requires Up(t, x.scale - t.scale) == x && Up(t, y.scale - t.scale) == y
    ensures Same(x, y)
  {
    SameFrom(t, x, y, x.scale - t.scale, y.scale - t.scale);
  }

  lemma RenderGivesReadBack(x: Scaled, y: Scaled)
    requires Render(x) == Render(y)
    ensures ReadBack(FormOf(x)) == ReadBack(FormOf(y))
  {
    FormIsForm(x);
    ParseWritten(FormOf(x));
    FormIsForm(y);
    ParseWritten(FormOf(y));
  }

  /** Two decimals render alike exactly where they have one value. */
  lemma RenderIsValue(x: Scaled, y: Scaled)
    ensures Render(x) == Render(y) <==> Same(x, y)
  {
    if Render(x) == Render(y) {
      RenderGivesReadBack(x, y);
      ReadBackGivesSame(x, y);
    }
    if Same(x, y) {
      SameGivesForm(x, y);
    }
  }
}
