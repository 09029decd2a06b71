/**
 * Which claims survive, are dropped and are picked, told from the identifiers they carry and what
 * is stated (identity/resolve/choose.go and claim.go).
 */
module Picking {
  import opened Options
  import opened Sorting
  import opened Ranking
  import opened Greedy
  import opened Identifiers
  import opened AssetClasses
  import opened Claims
  import opened Choosing
  import opened Verdicts

  // ----- What a claim carries -----

  /** The claim carries the identifier, of its instrument or of a listing. */
  ghost predicate Carries(c: Claim, id: Identifier) {
    id in c.identifiers || exists f :: f in c.listings && id in c.listings[f].identifiers
  }

  lemma IdsAre(c: Claim, id: Identifier)
    ensures id in Ids(c) <==> Carries(c, id)
  {
  }

  /** h is one of c's identifiers that may name what id names, in the currency family fam where that is one. */
  ghost predicate MayName(c: Claim, id: Identifier, fam: string, h: Identifier) {
    if id.kind in OF_LISTINGS then exists f :: f in c.listings && h in c.listings[f].identifiers && (fam == "" || f == fam || f == "")
    else h in c.identifiers
  }

  /** c has another value of id's type in its domain where id could be, and not id. */
  ghost predicate AtOdds(c: Claim, id: Identifier, fam: string) {
    && id.kind in EXCLUSIVE && !MayName(c, id, fam, id)
    && exists h :: MayName(c, id, fam, h) && h.kind == id.kind && h.domain == id.domain && h.value != id.value
  }

  lemma ContradictsIs(c: Claim, id: Identifier, fam: string)
    ensures Contradicts(c, id, fam) <==> AtOdds(c, id, fam)
  {
    TypesAre(id);
    forall h
      ensures h in Pool(c, id, fam) <==> MayName(c, id, fam, h)
    {
    }
  }

  /** The claims cannot be of one instrument: their classes are disjoint, or c is at odds with an identifier of a. */
  ghost predicate Conflict(c: Claim, a: Claim) {
    || Disjoint(c.assetClass, a.assetClass)
    || (exists id :: id in a.identifiers && AtOdds(c, id, ""))
    || exists f, id :: f in a.listings && id in a.listings[f].identifiers && AtOdds(c, id, f)
  }

  lemma InconsistentIs(c: Claim, a: Claim)
    ensures Inconsistent(c, a) <==> Conflict(c, a)
  {
    AnyContradicts(c, a.identifiers, "");
    forall f | f in a.listings
      ensures (exists id :: id in a.listings[f].identifiers && Contradicts(c, id, f))
         <==> exists id :: id in a.listings[f].identifiers && AtOdds(c, id, f)
    {
      AnyContradicts(c, a.listings[f].identifiers, f);
    }
  }

  lemma AnyContradicts(c: Claim, ids: seq<Identifier>, fam: string)
    ensures (exists id :: id in ids && Contradicts(c, id, fam)) <==> exists id :: id in ids && AtOdds(c, id, fam)
  {
    forall id | id in ids
      ensures Contradicts(c, id, fam) <==> AtOdds(c, id, fam)
    {
      ContradictsIs(c, id, fam);
    }
  }

  ghost predicate AnsweredOn(res: Resolution, c: Claim, day: int) {
    c.origin.Some? && c.origin.value < |res.responses| && res.responses[c.origin.value].day == day
  }

  /** i and j are one ticker at venues of one market. */
  predicate OneTicker(res: Resolution, i: Identifier, j: Identifier) {
    && i.kind == "mic_ticker" == j.kind && i.value == j.value != ""
    && i.domain in res.markets && j.domain in res.markets && res.markets[i.domain] == res.markets[j.domain]
  }

  /** The claims share a stable identifier, or were answered on one day and carry one ticker in one market. */
  ghost predicate Backs(res: Resolution, c: Claim, a: Claim) {
    || (exists id :: Carries(c, id) && Carries(a, id) && id.kind in STABLE)
    || ((exists day :: AnsweredOn(res, c, day) && AnsweredOn(res, a, day)) &&
        exists i, j :: Carries(c, i) && Carries(a, j) && OneTicker(res, i, j))
  }

  lemma CorroboratesIs(res: Resolution, c: Claim, a: Claim)
    ensures Corroborates(res, c, a) <==> Backs(res, c, a)
  {
    forall id
      ensures id in Ids(c) <==> Carries(c, id)
      ensures id in Ids(a) <==> Carries(a, id)
      ensures IsStable(id) <==> id.kind in STABLE
    {
      IdsAre(c, id);
      IdsAre(a, id);
      TypesAre(id);
    }
    TickersAre(res, c, a);
    assert ServedOnOneDay(res, c, a) <==> exists day :: AnsweredOn(res, c, day) && AnsweredOn(res, a, day) by {
      if ServedOnOneDay(res, c, a) {
        var day := res.responses[c.origin.value].day;
        assert AnsweredOn(res, c, day) && AnsweredOn(res, a, day);
      }
    }
  }

  lemma TickersAre(res: Resolution, c: Claim, a: Claim)
    ensures (exists t :: t in MarketTickers(res, c) && t.Some? && t in MarketTickers(res, a))
       <==> exists i, j :: Carries(c, i) && Carries(a, j) && OneTicker(res, i, j)
  {
    if t :| t in MarketTickers(res, c) && t.Some? && t in MarketTickers(res, a) {
      var i :| i in Ids(c) && MarketTicker(res, i) == t;
      var j :| j in Ids(a) && MarketTicker(res, j) == t;
      IdsAre(c, i);
      IdsAre(a, j);
      assert OneTicker(res, i, j);
    }
    if i, j :| Carries(c, i) && Carries(a, j) && OneTicker(res, i, j) {
      IdsAre(c, i);
      IdsAre(a, j);
      assert MarketTicker(res, i) == MarketTicker(res, j);
      assert MarketTicker(res, i) in MarketTickers(res, c) && MarketTicker(res, j) in MarketTickers(res, a);
    }
  }

  // ----- Which claims stay -----

  /** c is dropped below those chosen: it conflicts with one of them, or does not back the first. */
  ghost predicate Dropped(res: Resolution, c: Claim, chosen: seq<Claim>) {
    || (exists o :: o in chosen && Conflict(c, o))
    || (chosen != [] && !Backs(res, c, chosen[0]))
  }

  lemma RejectsIs(res: Resolution, c: Claim, chosen: seq<Claim>)
    ensures Rejects(res, c, chosen) <==> Dropped(res, c, chosen)
  {
    forall o | o in chosen
      ensures Inconsistent(c, o) <==> Conflict(c, o)
    {
      InconsistentIs(c, o);
    }
    if chosen != [] {
      CorroboratesIs(res, c, chosen[0]);
    }
  }

  /** A complete answer has listings, and neither one of the stated currency family nor one of none. */
  ghost predicate LacksFamily(res: Resolution, c: Claim) {
    && res.stated.family != "" && (exists f :: f in c.listings) && res.stated.family !in c.listings && "" !in c.listings
    && !(c.origin.Some? && c.origin.value < |res.responses| && res.responses[c.origin.value].limited)
  }

  /** What is stated rules c out. */
  ghost predicate RuledOut(res: Resolution, c: Claim) {
    || LacksFamily(res, c)
    || (res.stated.assetClass.Some? && Disjoint(c.assetClass, res.stated.assetClass.value))
    || exists id :: id in res.stated.identifiers && AtOdds(c, id, res.stated.family)
  }

  lemma AgainstIs(res: Resolution, c: Claim)
    ensures Against(res, c) <==> RuledOut(res, c)
  {
    AnyContradicts(c, res.stated.identifiers, res.stated.family);
    HasListing(c);
  }

  lemma HasListing(c: Claim)
    ensures c.listings.Keys != {} <==> exists f :: f in c.listings
  {
  }

  /** c carries what its response was asked for. */
  ghost predicate CarriesSent(res: Resolution, c: Claim) {
    && c.origin.Some? && c.origin.value < |res.responses|
    && res.responses[c.origin.value].sent.Some? && Carries(c, res.responses[c.origin.value].sent.value)
  }

  /** Response k was asked for a ticker at a venue, was filtered on the ticker alone, and no claim carries the venue's. */
  ghost predicate FilteredBare(res: Resolution, k: nat)
    requires k < |res.responses| && res.responses[k].sent.Some?
  {
    var r := res.responses[k];
    && r.sent.value.kind == "mic_ticker" && r.sent.value.domain != ""
    && Identifier("mic_ticker", "", r.sent.value.value) in r.filtered
    && forall c :: c in r.claims ==> !CarriesSent(res, c)
  }

  /**
   * c passes: the statement does not rule it out, and it carries the identifier sent, unless that
   * is bare, where the user confirms instead, or was filtered bare.
   */
  ghost predicate Passes(res: Resolution, k: nat, confirmed: bool, c: Claim)
    requires k < |res.responses| && res.responses[k].sent.Some?
  {
    var sent := res.responses[k].sent.value;
    && !RuledOut(res, c)
    && (if sent.kind in WORLDWIDE || (sent.kind == "mic_ticker" && sent.domain != "") then CarriesSent(res, c) || FilteredBare(res, k)
        else confirmed)
  }

  lemma NamedIs(res: Resolution, c: Claim)
    ensures Named(res, c) <==> CarriesSent(res, c)
  {
    if c.origin.Some? && c.origin.value < |res.responses| && res.responses[c.origin.value].sent.Some? {
      IdsAre(c, res.responses[c.origin.value].sent.value);
    }
  }

  lemma FallbackIs(res: Resolution, k: nat)
    requires k < |res.responses| && res.responses[k].sent.Some?
    ensures Fallback(res, k) <==> FilteredBare(res, k)
  {
    TypesAre(res.responses[k].sent.value);
    forall c
      ensures Named(res, c) <==> CarriesSent(res, c)
    {
      NamedIs(res, c);
    }
  }

  lemma SurvivesIs(res: Resolution, k: nat, confirmed: bool, c: Claim)
    requires k < |res.responses| && res.responses[k].sent.Some?
    ensures Survives(res, k, confirmed, c) <==> Passes(res, k, confirmed, c)
  {
    TypesAre(res.responses[k].sent.value);
    NamedIs(res, c);
    FallbackIs(res, k);
    AgainstIs(res, c);
  }

  /** The claim at place p of response k passes, and is not dropped below those chosen. */
  ghost predicate Stays(res: Resolution, k: nat, confirmed: bool, chosen: seq<Claim>, p: nat) {
    && k < |res.responses| && p < |res.responses[k].claims| && res.responses[k].sent.Some?
    && Passes(res, k, confirmed, res.responses[k].claims[p]) && !Dropped(res, res.responses[k].claims[p], chosen)
  }

  // ----- Which claim is picked -----

  /** The places of the stated identifiers that c carries. */
  ghost function Agreed(ids: seq<Identifier>, c: Claim): set<int> {
    set i | 0 <= i < |ids| && Carries(c, ids[i])
  }

  /** How much of what is stated c has: the identifiers, and a listing of the family. */
  ghost function Agreement(res: Resolution, c: Claim): nat {
    |Agreed(res.stated.identifiers, c)| + if res.stated.family != "" && res.stated.family in c.listings then 1 else 0
  }

  lemma {:induction false} StatedIs(ids: seq<Identifier>, c: Claim)
    ensures StatedOf(ids, c) == |Agreed(ids, c)|
  {
    if ids != [] {
      var n := |ids| - 1;
      StatedIs(ids[..n], c);
      IdsAre(c, ids[n]);
      var last: set<int> := if Carries(c, ids[n]) then {n} else {};
      assert Agreed(ids, c) == Agreed(ids[..n], c) + last;
    }
  }

  lemma ConfirmsIs(res: Resolution, c: Claim)
    ensures Confirms(res, c) == Agreement(res, c)
  {
    StatedIs(res.stated.identifiers, c);
  }

  /** The claim at p comes before the one at q: it carries the identifier sent and the other does not, or they agree on that and it has more of what is stated. */
  ghost predicate Ahead(res: Resolution, c: Claim, d: Claim) {
    if CarriesSent(res, c) != CarriesSent(res, d) then CarriesSent(res, c) else Agreement(res, c) > Agreement(res, d)
  }

  lemma RankIs(res: Resolution, c: Claim, d: Claim)
    ensures Better(Rank(res), c, d) <==> Ahead(res, c, d)
  {
    NamedIs(res, c);
    NamedIs(res, d);
    ConfirmsIs(res, c);
    ConfirmsIs(res, d);
  }

  /** Of the claims that stay, p's is ahead of all before it, and none after is ahead of it. */
  ghost predicate IsPick(res: Resolution, k: nat, confirmed: bool, chosen: seq<Claim>, p: nat) {
    && Stays(res, k, confirmed, chosen, p)
    && (forall q: nat :: q < p && Stays(res, k, confirmed, chosen, q) ==> Ahead(res, res.responses[k].claims[p], res.responses[k].claims[q]))
    && (forall q: nat :: p < q && Stays(res, k, confirmed, chosen, q) ==> !Ahead(res, res.responses[k].claims[q], res.responses[k].claims[p]))
  }

  /** Several claims of a response that was filtered bare stay, with nothing chosen: the user is asked. */
  ghost predicate AsksUser(res: Resolution, k: nat, confirmed: bool, chosen: seq<Claim>) {
    && chosen == [] && k < |res.responses| && res.responses[k].sent.Some? && FilteredBare(res, k)
    && exists p, q :: p < q && Stays(res, k, confirmed, chosen, p) && Stays(res, k, confirmed, chosen, q)
  }

  // ----- The first best of the values that pass -----

  /** p is the first best of the places of xs that pass f. */
  ghost predicate FirstBestOf<T(!new)>(le: (T, T) -> bool, f: T -> bool, xs: seq<T>, p: nat) {
    && p < |xs| && f(xs[p])
    && (forall q :: 0 <= q < p && f(xs[q]) ==> Better(le, xs[p], xs[q]))
    && (forall q :: p < q < |xs| && f(xs[q]) ==> !Better(le, xs[q], xs[p]))
  }

  lemma {:induction false} BestOfKept<T(!new)>(le: (T, T) -> bool, f: T -> bool, xs: seq<T>)
    requires TotalPreorder(le)
    ensures KeptBest(le, f, xs)
  {
    if xs != [] {
      var n := |xs| - 1;
      assert xs == xs[..n] + [xs[n]];
      BestOfKept(le, f, xs[..n]);
      KeptBestNext(le, f, xs[..n], xs[n]);
    }
  }

  /** The best of the values kept is the first best of those that pass, and there is one where any passes. */
  ghost predicate KeptBest<T(!new)>(le: (T, T) -> bool, f: T -> bool, xs: seq<T>) {
    match BestOf(le, Kept(f, xs))
    case None => forall q :: 0 <= q < |xs| ==> !f(xs[q])
    case Some(x) => exists p: nat :: FirstBestOf(le, f, xs, p) && xs[p] == x
  }

  lemma KeptBestNext<T(!new)>(le: (T, T) -> bool, f: T -> bool, xs: seq<T>, x: T)
    requires TotalPreorder(le) && KeptBest(le, f, xs)
    ensures KeptBest(le, f, xs + [x])
  {
    var best := BestOf(le, Kept(f, xs));
    KeptAppend(f, xs, x);
    BestOfAppend(le, Kept(f, xs), x);
    if best.Some? {
      var p: nat :| FirstBestOf(le, f, xs, p) && xs[p] == best.value;
      FirstBestGrows(le, f, xs, x, p);
    } else if f(x) {
      assert FirstBestOf(le, f, xs + [x], |xs|);
    }
  }

  lemma FirstBestGrows<T(!new)>(le: (T, T) -> bool, f: T -> bool, xs: seq<T>, x: T, p: nat)
    requires TotalPreorder(le) && FirstBestOf(le, f, xs, p)
    ensures FirstBestOf(le, f, xs + [x], if f(x) && Better(le, x, xs[p]) then |xs| else p)
  {
    forall q | 0 <= q < |xs| && f(xs[q]) && Better(le, x, xs[p])
      ensures Better(le, x, xs[q])
    {
      assert q > p ==> !Better(le, xs[q], xs[p]);
    }
  }

  lemma {:induction false} KeptTwice<T(!new)>(f: T -> bool, g: T -> bool, h: T -> bool, xs: seq<T>)
    requires forall x :: x in xs ==> (h(x) <==> f(x) && g(x))
    ensures Kept(g, Kept(f, xs)) == Kept(h, xs)
  {
    if xs != [] {
      var n := |xs| - 1;
      assert xs == xs[..n] + [xs[n]];
      KeptTwice(f, g, h, xs[..n]);
      KeptAppend(f, xs[..n], xs[n]);
      KeptAppend(h, xs[..n], xs[n]);
      if f(xs[n]) {
        KeptAppend(g, Kept(f, xs[..n]), xs[n]);
      }
    }
  }

  lemma KeptAppend<T(!new)>(f: T -> bool, xs: seq<T>, x: T)
    ensures Kept(f, xs + [x]) == if f(x) then Kept(f, xs) + [x] else Kept(f, xs)
  {
    assert (xs + [x])[..|xs|] == xs;
  }

  lemma {:induction false} KeptSome<T(!new)>(f: T -> bool, xs: seq<T>)
    ensures Kept(f, xs) != [] <==> exists p :: 0 <= p < |xs| && f(xs[p])
  {
    if xs != [] {
      var n := |xs| - 1;
      KeptSome(f, xs[..n]);
      assert forall p :: 0 <= p < n ==> xs[..n][p] == xs[p];
    }
  }

  /** Two places of xs pass f. */
  ghost predicate TwoPass<T(!new)>(f: T -> bool, xs: seq<T>) {
    exists p, q :: 0 <= p < q < |xs| && f(xs[p]) && f(xs[q])
  }

  lemma {:induction false} KeptSeveral<T(!new)>(f: T -> bool, xs: seq<T>)
    ensures |Kept(f, xs)| > 1 <==> TwoPass(f, xs)
  {
    if xs != [] {
      var n := |xs| - 1;
      assert xs == xs[..n] + [xs[n]];
      KeptSeveral(f, xs[..n]);
      KeptSome(f, xs[..n]);
      KeptAppend(f, xs[..n], xs[n]);
      TwoPassNext(f, xs[..n], xs[n]);
    }
  }

  lemma TwoPassNext<T(!new)>(f: T -> bool, xs: seq<T>, x: T)
    ensures TwoPass(f, xs + [x]) <==> TwoPass(f, xs) || (f(x) && exists p :: 0 <= p < |xs| && f(xs[p]))
  {
    var ys := xs + [x];
    if p, q :| 0 <= p < q < |xs| && f(xs[p]) && f(xs[q]) {
      assert f(ys[p]) && f(ys[q]);
    }
    if p :| 0 <= p < |xs| && f(xs[p]) && f(x) {
      assert f(ys[p]) && f(ys[|xs|]);
    }
    if p, q :| 0 <= p < q < |ys| && f(ys[p]) && f(ys[q]) {
      assert f(xs[p]);
    }
  }

  // ----- The pick of a response -----

  ghost function StaysOf(res: Resolution, k: nat, confirmed: bool, chosen: seq<Claim>): Claim -> bool {
    c => k < |res.responses| && res.responses[k].sent.Some? && Survives(res, k, confirmed, c) && !Rejects(res, c, chosen)
  }

  lemma StaysIs(res: Resolution, k: nat, confirmed: bool, chosen: seq<Claim>, p: nat)
    requires k < |res.responses| && p < |res.responses[k].claims|
    ensures StaysOf(res, k, confirmed, chosen)(res.responses[k].claims[p]) <==> Stays(res, k, confirmed, chosen, p)
  {
    if res.responses[k].sent.Some? {
      SurvivesIs(res, k, confirmed, res.responses[k].claims[p]);
      RejectsIs(res, res.responses[k].claims[p], chosen);
    }
  }

  lemma AcceptedAre(res: Resolution, k: nat, confirmed: bool, chosen: seq<Claim>)
    requires k < |res.responses| && res.responses[k].sent.Some?
    ensures Accepted(Rejecting(res), chosen, Survivors(res, k, confirmed)) == Kept(StaysOf(res, k, confirmed, chosen), res.responses[k].claims)
  {
    KeptTwice(c => Survives(res, k, confirmed, c), Accepting(Rejecting(res), chosen), StaysOf(res, k, confirmed, chosen), res.responses[k].claims);
  }

  lemma HoldsBackIs(res: Resolution, k: nat, confirmed: bool, chosen: seq<Claim>)
    requires k < |res.responses|
    ensures HoldsBack(res, k, confirmed, chosen) <==> AsksUser(res, k, confirmed, chosen)
  {
    if res.responses[k].sent.Some? {
      var f, claims := StaysOf(res, k, confirmed, chosen), res.responses[k].claims;
      FallbackIs(res, k);
      AcceptedAre(res, k, confirmed, chosen);
      KeptSeveral(f, claims);
      forall p: nat | p < |claims|
        ensures f(claims[p]) <==> Stays(res, k, confirmed, chosen, p)
      {
        StaysIs(res, k, confirmed, chosen, p);
      }
    }
  }

  /**
   * The best claim of a response is the first best of its claims that stay, none where none stays
   * or the user is asked.
   */
  lemma BestIsPick(res: Resolution, k: nat, confirmed: bool, chosen: seq<Claim>)
    requires k < |res.responses|
    ensures BestClaim(res, k, confirmed, chosen).None?
       <==> AsksUser(res, k, confirmed, chosen) || forall p: nat :: !Stays(res, k, confirmed, chosen, p)
    ensures BestClaim(res, k, confirmed, chosen).Some? ==>
      exists p: nat :: IsPick(res, k, confirmed, chosen, p) && BestClaim(res, k, confirmed, chosen).value == res.responses[k].claims[p]
  {
    var f, claims := StaysOf(res, k, confirmed, chosen), res.responses[k].claims;
    HoldsBackIs(res, k, confirmed, chosen);
    forall p: nat | p < |claims|
      ensures f(claims[p]) <==> Stays(res, k, confirmed, chosen, p)
    {
      StaysIs(res, k, confirmed, chosen, p);
    }
    if res.responses[k].sent.Some? && !HoldsBack(res, k, confirmed, chosen) {
      AcceptedAre(res, k, confirmed, chosen);
      RankOrders(res);
      BestOfKept(Rank(res), f, claims);
      if BestOf(Rank(res), Kept(f, claims)).Some? {
        var p: nat :| FirstBestOf(Rank(res), f, claims, p) && claims[p] == BestOf(Rank(res), Kept(f, claims)).value;
        PickIs(res, k, confirmed, chosen, p);
      }
    }
  }

  lemma PickIs(res: Resolution, k: nat, confirmed: bool, chosen: seq<Claim>, p: nat)
    requires k < |res.responses| && FirstBestOf(Rank(res), StaysOf(res, k, confirmed, chosen), res.responses[k].claims, p)
    ensures IsPick(res, k, confirmed, chosen, p)
  {
    var claims := res.responses[k].claims;
    forall q: nat | q < |claims|
      ensures StaysOf(res, k, confirmed, chosen)(claims[q]) <==> Stays(res, k, confirmed, chosen, q)
      ensures Better(Rank(res), claims[p], claims[q]) <==> Ahead(res, claims[p], claims[q])
      ensures Better(Rank(res), claims[q], claims[p]) <==> Ahead(res, claims[q], claims[p])
    {
      StaysIs(res, k, confirmed, chosen, q);
      RankIs(res, claims[p], claims[q]);
      RankIs(res, claims[q], claims[p]);
    }
  }

  /** Without a user's choice, each response attaches its pick below those chosen, or nothing. */
  lemma AttachesPick(res: Resolution, start: seq<Claim>, k: nat)
    requires k < |res.responses|
    ensures var chosen, next := ChosenAfter(res, start, [], k), ChosenAfter(res, start, [], k + 1);
      || (next == chosen && (AsksUser(res, k, false, chosen) || forall p: nat :: !Stays(res, k, false, chosen, p)))
      || (!AsksUser(res, k, false, chosen) && exists p: nat :: IsPick(res, k, false, chosen, p) && next == chosen + [res.responses[k].claims[p]])
  {
    BestIsPick(res, k, false, ChosenAfter(res, start, [], k));
  }

  // ----- What the user is offered, and may choose -----

  /** A response to a bare identifier offers the claims that the statement does not rule out, until the user confirms. */
  lemma OfferedAre(res: Resolution, k: nat, confirmed: bool, c: Claim)
    requires k < |res.responses|
    ensures c in Offered(res, k, confirmed)
       <==> c in res.responses[k].claims && res.responses[k].sent.Some? && !confirmed && !RuledOut(res, c) && SentBare(res, k)
  {
    if res.responses[k].sent.Some? {
      TypesAre(res.responses[k].sent.value);
      AgainstIs(res, c);
    }
  }

  predicate SentBare(res: Resolution, k: nat)
    requires k < |res.responses| && res.responses[k].sent.Some?
  {
    var sent := res.responses[k].sent.value;
    sent.kind !in WORLDWIDE && !(sent.kind == "mic_ticker" && sent.domain != "")
  }

  /** What a response puts to the user: what it offers, and where the user is asked every claim that stays. */
  lemma PutAre(res: Resolution, k: nat, confirmed: bool, chosen: seq<Claim>, c: Claim)
    requires k < |res.responses|
    ensures c in Put(res, k, confirmed, chosen)
       <==> c in Offered(res, k, confirmed)
            || (AsksUser(res, k, confirmed, chosen) && exists p: nat :: Stays(res, k, confirmed, chosen, p) && res.responses[k].claims[p] == c)
  {
    HoldsBackIs(res, k, confirmed, chosen);
    if HoldsBack(res, k, confirmed, chosen) {
      var f, claims := StaysOf(res, k, confirmed, chosen), res.responses[k].claims;
      AcceptedAre(res, k, confirmed, chosen);
      forall p: nat | p < |claims|
        ensures f(claims[p]) <==> Stays(res, k, confirmed, chosen, p)
      {
        StaysIs(res, k, confirmed, chosen, p);
      }
      if c in claims && f(c) {
        var p: nat :| p < |claims| && claims[p] == c;
        assert Stays(res, k, confirmed, chosen, p);
      }
    }
  }

  /** A set may be put to the user iff its head carries a stable identifier. */
  lemma ConfirmableAre(sets: seq<seq<Claim>>, a: seq<Claim>)
    ensures a in ConfirmableSets(sets) <==> a in sets && a != [] && exists id :: Carries(a[0], id) && id.kind in STABLE
  {
    if a != [] {
      forall id
        ensures id in Ids(a[0]) && IsStable(id) <==> Carries(a[0], id) && id.kind in STABLE
      {
        IdsAre(a[0], id);
        TypesAre(id);
      }
    }
  }

  /** The user's choice is refused iff the statement rules its head out, or it conflicts with the instrument known. */
  lemma RefusedIs(res: Resolution, known: Option<Claim>, pick: seq<Claim>)
    ensures Refused(res, known, pick)
       <==> pick != [] && (RuledOut(res, pick[0]) || (known.Some? && Conflict(pick[0], known.value)))
  {
    if pick != [] {
      AgainstIs(res, pick[0]);
      if known.Some? {
        InconsistentIs(pick[0], known.value);
      }
    }
  }

  /** A pick names a set by its datasource and an identifier that its head carries. */
  lemma PickNames(res: Resolution, a: seq<Claim>, source: string, id: Identifier)
    requires a != []
    ensures Names(res, a, source, id)
       <==> Carries(a[0], id) && exists k: nat :: k < |res.responses| && a[0].origin == Some(k) && res.responses[k].source == source
  {
    IdsAre(a[0], id);
  }

  /** Response k puts c to the user below those chosen before it. */
  ghost predicate PutAt(res: Resolution, start: seq<Claim>, k: nat, c: Claim) {
    k < |res.responses| && c in Put(res, k, false, ChosenAfter(res, start, [], k))
  }

  /** Without a choice, each response adds to what is put to the user what it puts below those chosen before it. */
  lemma PutNextIs(res: Resolution, start: seq<Claim>, n: nat, c: Claim)
    requires 0 < n <= |res.responses|
    ensures c in PutAfter(res, start, [], n) <==> c in PutAfter(res, start, [], n - 1) || PutAt(res, start, n - 1, c)
  {
    var chosen := ChosenAfter(res, start, [], n - 1);
    assert PutNext(res, chosen, [], n - 1) == Put(res, n - 1, false, chosen);
    PutSplits(res, start, [], n);
  }

  lemma PutSplits(res: Resolution, start: seq<Claim>, pick: seq<Claim>, n: nat)
    requires 0 < n <= |res.responses|
    ensures PutAfter(res, start, pick, n)
         == PutAfter(res, start, pick, n - 1) + PutNext(res, ChosenAfter(res, start, pick, n - 1), pick, n - 1)
  {
  }

  lemma {:induction false} HoldsOn(p: nat -> bool, n: nat)
    requires p(0) && forall k: nat :: k < n && p(k) ==> p(k + 1)
    ensures p(n)
  {
    if n > 0 {
      HoldsOn(p, n - 1);
    }
  }

  ghost predicate AskedNothing(res: Resolution, start: seq<Claim>, pick: seq<Claim>, n: nat) {
    n <= |res.responses| ==> PutAfter(res, start, pick, n) == [] && ChosenAfter(res, start, pick, n) != []
  }

  lemma AskedNext(res: Resolution, start: seq<Claim>, pick: seq<Claim>, n: nat)
    requires pick != [] && AskedNothing(res, start, pick, n)
    ensures AskedNothing(res, start, pick, n + 1)
  {
    if n < |res.responses| {
      PutsNothing(res, ChosenAfter(res, start, pick, n), pick, n);
      PutSplits(res, start, pick, n + 1);
      ChosenSplits(res, start, pick, n + 1);
    }
  }

  /** Once the user chose, nothing more is put to them. */
  lemma ChoiceAsksNothing(res: Resolution, start: seq<Claim>, pick: seq<Claim>, n: nat)
    requires pick != [] && start != [] && n <= |res.responses|
    ensures PutAfter(res, start, pick, n) == [] && ChosenAfter(res, start, pick, n) != []
  {
    forall k: nat | AskedNothing(res, start, pick, k)
      ensures AskedNothing(res, start, pick, k + 1)
    {
      AskedNext(res, start, pick, k);
    }
    HoldsOn((k: nat) => AskedNothing(res, start, pick, k), n);
  }

  lemma ChosenSplits(res: Resolution, start: seq<Claim>, pick: seq<Claim>, n: nat)
    requires 0 < n <= |res.responses|
    ensures ChosenAfter(res, start, pick, n) == ChosenNext(res, ChosenAfter(res, start, pick, n - 1), pick, n - 1)
  {
  }

  lemma PutsNothing(res: Resolution, chosen: seq<Claim>, pick: seq<Claim>, k: nat)
    requires pick != [] && chosen != [] && k < |res.responses|
    ensures PutNext(res, chosen, pick, k) == [] && ChosenNext(res, chosen, pick, k) != []
  {
    if res.responses[k].sent.Some? {
      NothingKept((c: Claim) => IsOffered(res, k, true, c), res.responses[k].claims);
    }
    assert Offered(res, k, true) == [];
  }

  lemma {:induction false} NothingKept<T(!new)>(f: T -> bool, xs: seq<T>)
    requires forall x :: x in xs ==> !f(x)
    ensures Kept(f, xs) == []
  {
    if xs != [] {
      NothingKept(f, xs[..|xs| - 1]);
    }
  }
}
