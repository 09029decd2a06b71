/** Matching an address against glob patterns (auth/allowlist/allowlist.go). */
module Glob {

  /** What a glob means: * stands for any run of characters, ? for any one, and the rest for itself. */
  predicate Matches(p: string, s: string)
    decreases |p| + |s|
  {
    if p == "" then s == ""
    else if p[0] == '*' then Matches(p[1..], s) || (s != "" && Matches(p, s[1..]))
    else s != "" && (p[0] == '?' || p[0] == s[0]) && Matches(p[1..], s[1..])
  }

  /** The pattern stands for the text character by character. */
  predicate Fits(p: string, s: string) {
    |p| == |s| && forall i :: 0 <= i < |p| ==> p[i] != '*' && (p[i] == '?' || p[i] == s[i])
  }

  predicate AllStars(p: string) {
    forall i :: 0 <= i < |p| ==> p[i] == '*'
  }

  // ----- The walk with one remembered star -----

  /** The place of the last star taken, and how far into the text it had reached. */
  datatype Star = NoStar | Star(at: nat, mark: nat)

  function MarkOf(star: Star): nat {
    if star.NoStar? then 0 else star.mark
  }

  /** The star is behind the cursors and is a star of the pattern. */
  predicate StarPlaced(p: string, s: string, i: nat, j: nat, star: Star) {
    && i <= |s| && j <= |p|
    && (star.Star? ==> star.at < j && p[star.at] == '*' && star.mark <= i)
  }

  /**
   * What the loop answers from the cursors i and j. A character of the text is tried
   * before a star of the pattern, as the program tries it.
   */
  predicate Walk(p: string, s: string, i: nat, j: nat, star: Star)
    requires StarPlaced(p, s, i, j, star)
    decreases |s| - MarkOf(star), |p| - j
  {
    if i == |s| then AllStars(p[j..])
    else if j < |p| && (p[j] == '?' || p[j] == s[i]) then Walk(p, s, i + 1, j + 1, star)
    else if j < |p| && p[j] == '*' then Walk(p, s, i, j + 1, Star(j, i))
    else if star.NoStar? then false
    else Walk(p, s, star.mark + 1, star.at + 1, Star(star.at, star.mark + 1))
  }

  // ----- What a glob means -----

  /** A character stands for itself, a question mark for any one, and an asterisk for any run. */
  lemma OneMatches(c: char, s: string)
    ensures c != '*' && c != '?' ==> (Matches([c], s) <==> s == [c])
    ensures Matches("?", s) <==> |s| == 1
    ensures Matches("*", s)
    ensures Matches("", s) <==> s == ""
    decreases |s|
  {
    assert [c][1..] == "" && "?"[1..] == "" && "*"[1..] == "";
    if s != "" {
      OneMatches(c, s[1..]);
      assert s == [s[0]] + s[1..];
    }
  }

  ghost predicate SplitAt(p: string, q: string, s: string, i: nat) {
    i <= |s| && Matches(p, s[..i]) && Matches(q, s[i..])
  }

  /** Two patterns one after the other match what splits into a text of each. */
  lemma {:induction false} BothMatch(p: string, q: string, s: string)
    ensures Matches(p + q, s) <==> exists i: nat :: SplitAt(p, q, s, i)
    decreases |p| + |s|
  {
    if p == "" {
      assert p + q == q && s[..0] == "" && s[0..] == s;
      assert Matches(q, s) ==> SplitAt(p, q, s, 0);
      assert forall i: nat :: SplitAt(p, q, s, i) ==> s[..i] == "" && i == 0;
    } else {
      assert (p + q)[1..] == p[1..] + q && (p + q)[0] == p[0];
      BothMatch(p[1..], q, s);
      if s != "" {
        BothMatch(p, q, s[1..]);
        BothMatch(p[1..], q, s[1..]);
      }
      SplitsNext(p, q, s);
    }
  }

  ghost predicate Splits(p: string, q: string, s: string) {
    exists i: nat :: SplitAt(p, q, s, i)
  }

  lemma SplitsNext(p: string, q: string, s: string)
    requires p != ""
    ensures Splits(p, q, s)
       <==> if p[0] == '*' then Splits(p[1..], q, s) || (s != "" && Splits(p, q, s[1..]))
            else s != "" && (p[0] == '?' || p[0] == s[0]) && Splits(p[1..], q, s[1..])
  {
    if i: nat :| SplitAt(p, q, s, i) {
      if i > 0 {
        assert s[..i][1..] == s[1..][..i - 1] && s[1..][i - 1..] == s[i..];
      }
      if p[0] == '*' && Matches(p[1..], s[..i]) {
        assert SplitAt(p[1..], q, s, i);
      } else {
        assert SplitAt(if p[0] == '*' then p else p[1..], q, s[1..], i - 1);
      }
    }
    if p[0] == '*' {
      if i: nat :| SplitAt(p[1..], q, s, i) {
        assert SplitAt(p, q, s, i);
      }
    }
    if s != "" && (p[0] == '*' || p[0] == '?' || p[0] == s[0]) {
      var r := if p[0] == '*' then p else p[1..];
      if i: nat :| SplitAt(r, q, s[1..], i) {
        assert s[..i + 1][1..] == s[1..][..i] && s[1..][i..] == s[i + 1..] && s[..i + 1][0] == s[0];
        assert SplitAt(p, q, s, i + 1);
      }
    }
  }

  // ----- Facts about globs -----

  lemma {:induction false} StarsMatchNothing(p: string)
    ensures Matches(p, "") <==> AllStars(p)
  {
    if p != "" {
      StarsMatchNothing(p[1..]);
      assert AllStars(p) <==> p[0] == '*' && AllStars(p[1..]);
    }
  }

  /** A star takes any run of characters. */
  lemma {:induction false} StarTakes(p: string, s: string, k: nat)
    requires p != "" && p[0] == '*' && k <= |s|
    ensures Matches(p, s[k..]) ==> Matches(p, s)
  {
    if k > 0 {
      assert s[1..][k - 1..] == s[k..];
      StarTakes(p, s[1..], k - 1);
    } else {
      assert s[0..] == s;
    }
  }

  /** Where a star matches, what follows it matches after some run of characters. */
  lemma {:induction false} StarTook(p: string, s: string) returns (k: nat)
    requires p != "" && p[0] == '*' && Matches(p, s)
    ensures k <= |s| && Matches(p[1..], s[k..])
    decreases |s|
  {
    if Matches(p[1..], s) {
      k := 0;
      assert s[0..] == s;
    } else {
      k := StarTook(p, s[1..]);
      k := k + 1;
      assert s[1..][k - 1..] == s[k..];
    }
  }

  /** Characters that fit one another can be taken off both. */
  lemma {:induction false} FitsOff(p: string, s: string, q: string, t: string)
    requires Fits(p, s)
    ensures Matches(p + q, s + t) <==> Matches(q, t)
  {
    if p == "" {
      assert p + q == q && s + t == t;
    } else {
      assert (p + q)[1..] == p[1..] + q && (s + t)[1..] == s[1..] + t;
      FitsOff(p[1..], s[1..], q, t);
    }
  }

  /** A pattern that starts with no star matches only what starts with characters it fits. */
  lemma {:induction false} FitsOn(p: string, q: string, u: string)
    requires forall i :: 0 <= i < |p| ==> p[i] != '*'
    requires Matches(p + q, u)
    ensures |p| <= |u| && Fits(p, u[..|p|]) && Matches(q, u[|p|..])
  {
    if p == "" {
      assert p + q == q;
      assert u[0..] == u;
    } else {
      assert (p + q)[1..] == p[1..] + q;
      FitsOn(p[1..], q, u[1..]);
      assert u[1..][|p| - 1..] == u[|p|..];
      assert forall i :: 0 < i < |p| ==> p[i] == p[1..][i - 1] && u[i] == u[1..][i - 1];
    }
  }

  // ----- The walk is the glob, where the text holds no star -----

  /** The walk has taken the pattern after the last star, or from its start, character by character. */
  predicate Literal(p: string, s: string, i: nat, j: nat, star: Star)
    requires StarPlaced(p, s, i, j, star)
  {
    match star
    case NoStar => i == j && Fits(p[..j], s[..i])
    case Star(at, mark) => Fits(p[at + 1..j], s[mark..i])
  }

  /** What is left to match: from the last star at its mark, or everything. */
  predicate Left(p: string, s: string, i: nat, j: nat, star: Star)
    requires StarPlaced(p, s, i, j, star)
  {
    match star
    case NoStar => Matches(p, s)
    case Star(at, mark) => Matches(p[at..], s[mark..])
  }

  lemma LeftFromCursors(p: string, s: string, i: nat, j: nat, star: Star)
    requires StarPlaced(p, s, i, j, star) && Literal(p, s, i, j, star)
    ensures Matches(p[j..], s[i..]) ==> Left(p, s, i, j, star)
    ensures star.NoStar? && Left(p, s, i, j, star) ==> Matches(p[j..], s[i..])
  {
    match star
    case NoStar =>
      assert p == p[..j] + p[j..] && s == s[..i] + s[i..];
      FitsOff(p[..j], s[..i], p[j..], s[i..]);
    case Star(at, mark) =>
      assert p[at..][1..] == p[at + 1..j] + p[j..];
      assert s[mark..] == s[mark..i] + s[i..];
      FitsOff(p[at + 1..j], s[mark..i], p[j..], s[i..]);
  }

  /** Where the star takes k more characters, the rest of the pattern matches that much further on. */
  lemma LeftFurther(p: string, s: string, i: nat, j: nat, star: Star) returns (k: nat)
    requires StarPlaced(p, s, i, j, star) && Literal(p, s, i, j, star) && star.Star?
    requires Left(p, s, i, j, star)
    ensures i + k <= |s| && Matches(p[j..], s[i + k..])
    ensures Fits(p[star.at + 1..j], s[star.mark + k..i + k])
  {
    var at, mark := star.at, star.mark;
    k := StarTook(p[at..], s[mark..]);
    var u := s[mark..][k..];
    assert p[at..][1..] == p[at + 1..j] + p[j..];
    FitsOn(p[at + 1..j], p[j..], u);
    assert u == s[mark + k..];
    assert u[j - at - 1..] == s[i + k..];
    assert u[..j - at - 1] == s[mark + k..i + k];
  }

  /** The star takes one character more when its present reach fails. */
  lemma LeftAfterMismatch(p: string, s: string, i: nat, j: nat, star: Star)
    requires StarPlaced(p, s, i, j, star) && Literal(p, s, i, j, star) && star.Star? && i < |s|
    requires j == |p| || (p[j] != '*' && p[j] != '?' && p[j] != s[i])
    ensures Left(p, s, i, j, star) <==> Left(p, s, star.mark + 1, star.at + 1, Star(star.at, star.mark + 1))
  {
    var at, mark := star.at, star.mark;
    assert s[mark..][1..] == s[mark + 1..];
    assert p[at..][1..] == p[at + 1..j] + p[j..];
    assert s[mark..] == s[mark..i] + s[i..];
    FitsOff(p[at + 1..j], s[mark..i], p[j..], s[i..]);
  }

  /** A new star makes the earlier one needless. */
  lemma LeftAtStar(p: string, s: string, i: nat, j: nat, star: Star)
    requires StarPlaced(p, s, i, j, star) && Literal(p, s, i, j, star) && j < |p| && p[j] == '*'
    ensures Left(p, s, i, j, star) <==> Matches(p[j..], s[i..])
  {
    LeftFromCursors(p, s, i, j, star);
    if star.Star? && Left(p, s, i, j, star) {
      var k := LeftFurther(p, s, i, j, star);
      assert s[i..][k..] == s[i + k..];
      StarTakes(p[j..], s[i..], k);
    }
  }

  lemma LeftAtEnd(p: string, s: string, j: nat, star: Star)
    requires StarPlaced(p, s, |s|, j, star) && Literal(p, s, |s|, j, star)
    ensures Left(p, s, |s|, j, star) <==> AllStars(p[j..])
  {
    assert s[|s|..] == "";
    StarsMatchNothing(p[j..]);
    LeftFromCursors(p, s, |s|, j, star);
    if star.Star? && Left(p, s, |s|, j, star) {
      var k := LeftFurther(p, s, |s|, j, star);
    }
  }

  /** The walk answers what is left to match. */
  lemma {:induction false} WalkIsLeft(p: string, s: string, i: nat, j: nat, star: Star)
    requires StarPlaced(p, s, i, j, star) && Literal(p, s, i, j, star)
    requires '*' !in s
    ensures Walk(p, s, i, j, star) <==> Left(p, s, i, j, star)
    decreases |s| - MarkOf(star), |p| - j
  {
    if i == |s| {
      LeftAtEnd(p, s, j, star);
    } else if j < |p| && (p[j] == '?' || p[j] == s[i]) {
      LiteralGrows(p, s, i, j, star);
      WalkIsLeft(p, s, i + 1, j + 1, star);
    } else if j < |p| && p[j] == '*' {
      LeftAtStar(p, s, i, j, star);
      WalkIsLeft(p, s, i, j + 1, Star(j, i));
    } else if star.NoStar? {
      LeftFromCursors(p, s, i, j, star);
    } else {
      LeftAfterMismatch(p, s, i, j, star);
      WalkIsLeft(p, s, star.mark + 1, star.at + 1, Star(star.at, star.mark + 1));
    }
  }

  lemma LiteralGrows(p: string, s: string, i: nat, j: nat, star: Star)
    requires StarPlaced(p, s, i, j, star) && Literal(p, s, i, j, star)
    requires i < |s| && j < |p| && p[j] != '*' && (p[j] == '?' || p[j] == s[i])
    ensures Literal(p, s, i + 1, j + 1, star)
  {
    match star
    case NoStar =>
      assert p[..j + 1] == p[..j] + [p[j]] && s[..i + 1] == s[..i] + [s[i]];
    case Star(at, mark) =>
      assert p[at + 1..j + 1] == p[at + 1..j] + [p[j]] && s[mark..i + 1] == s[mark..i] + [s[i]];
  }

  /** For a text without a star the walk answers what the glob means, whatever the pattern. */
  lemma WalkIsGlob(p: string, s: string)
    requires '*' !in s
    ensures Walk(p, s, 0, 0, NoStar) <==> Matches(p, s)
  {
    WalkIsLeft(p, s, 0, 0, NoStar);
  }

  // ----- Where the text holds a star -----

  function Any(n: nat): (r: string)
    ensures |r| == n && forall i :: 0 <= i < n ==> r[i] == '?'
  {
    seq(n, _ => '?')
  }

  /** A pattern that matches s as a glob and that the walk refuses, where k is the first star of s. */
  function Refused(s: string, k: nat): string
    requires k < |s|
  {
    if k + 1 < |s| then Any(k) + "*" else Any(k) + "*?"
  }

  /** The walk takes one character of the text for each ? of the pattern. */
  lemma {:induction false} WalkAny(p: string, s: string, k: nat, i: nat)
    requires i <= k <= |s| && k <= |p| && forall m :: 0 <= m < k ==> p[m] == '?'
    ensures Walk(p, s, i, i, NoStar) <==> Walk(p, s, k, k, NoStar)
    decreases k - i
  {
    if i < k {
      WalkAny(p, s, k, i + 1);
    }
  }

  lemma RefusedMatches(s: string, k: nat)
    requires k < |s| && s[k] == '*'
    ensures Matches(Refused(s, k), s)
  {
    var q := Refused(s, k)[k..];
    assert Refused(s, k) == Any(k) + q && s == s[..k] + s[k..];
    FitsOff(Any(k), s[..k], q, s[k..]);
    var u := s[k..];
    if k + 1 < |s| {
      assert q == "*" && q[1..] == "" && u[|u|..] == "";
      assert Matches(q, "");
      StarTakes(q, u, |u|);
    } else {
      assert q == "*?" && q[1..] == "?" && q[1..][1..] == "" && u[1..] == "";
      assert Matches(q[1..], u);
    }
  }

  lemma RefusedWalk(s: string, k: nat)
    requires k < |s| && s[k] == '*'
    ensures !Walk(Refused(s, k), s, 0, 0, NoStar)
  {
    var p := Refused(s, k);
    WalkAny(p, s, k, 0);
    assert p[k] == '*' == s[k];
    assert Walk(p, s, k, k, NoStar) <==> Walk(p, s, k + 1, k + 1, NoStar);
    if k + 1 == |s| {
      assert p[k + 1..][0] == '?';
    }
  }

  /**
   * The program's answer is the glob's for every pattern iff the text holds no star. A
   * star of the text is taken for the star of the pattern it meets, which then stands for
   * itself.
   */
  lemma WalkIsGlobIff(s: string)
    ensures (forall p :: Walk(p, s, 0, 0, NoStar) <==> Matches(p, s)) <==> '*' !in s
  {
    if '*' in s {
      var k :| 0 <= k < |s| && s[k] == '*';
      RefusedMatches(s, k);
      RefusedWalk(s, k);
    } else {
      forall p
        ensures Walk(p, s, 0, 0, NoStar) <==> Matches(p, s)
      {
        WalkIsGlob(p, s);
      }
    }
  }

  // ----- The program -----

  /** Whether s matches the glob p, giving the last star one more character on each mismatch. */
  method Match(p: string, s: string) returns (r: bool)
    ensures r <==> Walk(p, s, 0, 0, NoStar)
    ensures '*' !in s ==> (r <==> Matches(p, s))
  {
    if '*' !in s {
      WalkIsGlob(p, s);
    }
    var star, mark := -1, 0;
    var i, j := 0, 0;
    while i < |s|
      invariant 0 <= i <= |s| && 0 <= j <= |p|
      invariant star < 0 ==> mark == 0
      invariant star >= 0 ==> star < j && p[star] == '*' && 0 <= mark <= i
      invariant Walk(p, s, i, j, if star < 0 then NoStar else Star(star, mark)) <==> Walk(p, s, 0, 0, NoStar)
      decreases |s| - mark, |p| - j
    {
      if j < |p| && (p[j] == '?' || p[j] == s[i]) {
        i, j := i + 1, j + 1;
      } else if j < |p| && p[j] == '*' {
        star, mark := j, i;
        j := j + 1;
      } else if star < 0 {
        return false;
      } else {
        mark := mark + 1;
        i, j := mark, star + 1;
      }
    }
    ghost var from := j;
    while j < |p| && p[j] == '*'
      invariant from <= j <= |p|
      invariant forall k :: from <= k < j ==> p[k] == '*'
    {
      j := j + 1;
    }
    r := j == |p|;
    assert AllStars(p[from..]) <==> forall k :: from <= k < |p| ==> p[k] == '*' by {
      assert forall k :: from <= k < |p| ==> p[k] == p[from..][k - from];
    }
  }

  /** Whether an address, in lower case, matches any pattern of the list. */
  method MatchAny(l: seq<string>, email: string) returns (r: bool)
    ensures '*' !in email ==> (r <==> exists k :: 0 <= k < |l| && Matches(l[k], email))
  {
    for k := 0 to |l|
      invariant '*' !in email ==> forall m :: 0 <= m < k ==> !Matches(l[m], email)
    {
      var m := Match(l[k], email);
      if m {
        return true;
      }
    }
    r := false;
  }
}
