/** The claims a resolution attaches (identity/resolve/choose.go and the comparisons of claim.go). */
module Choosing {
  import opened Options
  import opened Sorting
  import opened Identifiers
  import opened AssetClasses
  import opened Claims

  /** What the stated key states. */
  datatype Stated = Stated(identifiers: seq<Identifier>, assetClass: Option<string>, family: string)

  /** A fetch key: the datasource, the identifier sent, and of what it served, its claims in their order and its UTC day. */
  datatype Response = Response(
    source: string, sent: Option<Identifier>, served: bool, limited: bool, filtered: seq<Identifier>, day: int, claims: seq<Claim>)

  /** Responses are in precedence order; markets gives the market of each venue. */
  datatype Resolution = Resolution(stated: Stated, markets: map<string, string>, responses: seq<Response>)

  /** Claims know the response and the place they come from, and what was not served has none. */
  ghost predicate WellFormed(res: Resolution) {
    forall k: nat :: k < |res.responses| ==> OfResponse(res.responses[k], k)
  }

  ghost predicate OfResponse(r: Response, k: nat) {
    && (forall p: nat :: p < |r.claims| ==> r.claims[p].origin == Some(k) && r.claims[p].place == p)
    && (if r.served then r.sent.Some? else r.claims == [])
  }

  /** The response's claims are those built of the listings it served. */
  ghost predicate BuiltOf(r: Response, k: nat) {
    if r.served then r.sent.Some? && exists ls, answer: Answer, at :: answer.origin == k && AreClaims(ls, answer, at, r.claims)
    else r.claims == []
  }

  /** Building the claims of every response leaves them well formed. */
  lemma BuiltWellFormed(res: Resolution)
    requires forall k: nat :: k < |res.responses| ==> BuiltOf(res.responses[k], k)
    ensures WellFormed(res)
  {
    forall k: nat | k < |res.responses|
      ensures OfResponse(res.responses[k], k)
    {
      var r := res.responses[k];
      assert BuiltOf(r, k);
      if r.served {
        var ls, answer: Answer, at :| answer.origin == k && AreClaims(ls, answer, at, r.claims);
        forall p: nat | p < |r.claims|
          ensures r.claims[p].origin == Some(k) && r.claims[p].place == p
        {
          ClaimPlaced(ls, at, answer, p, |ls|);
        }
      }
    }
  }

  // ----- Comparing claims -----

  function ListingIds(c: Claim): set<Identifier> {
    set f, id | f in c.listings && id in c.listings[f].identifiers :: id
  }

  /** Every identifier of the claim, of the instrument and of each listing. */
  function Ids(c: Claim): set<Identifier> {
    (set id | id in c.identifiers) + ListingIds(c)
  }

  /** The identifiers of c that may name what id names. */
  function Pool(c: Claim, id: Identifier, fam: string): set<Identifier> {
    if NamesListing(id) then
      set f, h | f in c.listings && (fam == NO_FAMILY || f == fam || f == NO_FAMILY) && h in c.listings[f].identifiers :: h
    else set h | h in c.identifiers
  }

  /** c identifies what id identifies, only under other values of id's type. */
  predicate Contradicts(c: Claim, id: Identifier, fam: string) {
    && Exclusive(id) && id !in Pool(c, id, fam)
    && exists h :: h in Pool(c, id, fam) && h.kind == id.kind && h.domain == id.domain
  }

  predicate Inconsistent(c: Claim, a: Claim) {
    || Disjoint(c.assetClass, a.assetClass)
    || (exists id :: id in a.identifiers && Contradicts(c, id, NO_FAMILY))
    || exists f :: f in a.listings && exists id :: id in a.listings[f].identifiers && Contradicts(c, id, f)
  }

  predicate SharesStable(c: Claim, a: Claim) {
    exists id :: id in Ids(c) && IsStable(id) && id in Ids(a)
  }

  /** The market and the value of a ticker with a value at a venue of a market. */
  function MarketTicker(res: Resolution, id: Identifier): Option<(string, string)> {
    if id.kind == "mic_ticker" && id.value != "" && id.domain in res.markets then Some((res.markets[id.domain], id.value)) else None
  }

  predicate ServedOnOneDay(res: Resolution, c: Claim, a: Claim) {
    && c.origin.Some? && c.origin.value < |res.responses|
    && a.origin.Some? && a.origin.value < |res.responses|
    && res.responses[c.origin.value].day == res.responses[a.origin.value].day
  }

  function MarketTickers(res: Resolution, c: Claim): set<Option<(string, string)>> {
    set id | id in Ids(c) :: MarketTicker(res, id)
  }

  predicate SameDayTicker(res: Resolution, c: Claim, a: Claim) {
    ServedOnOneDay(res, c, a) && exists t :: t in MarketTickers(res, c) && t.Some? && t in MarketTickers(res, a)
  }

  predicate Corroborates(res: Resolution, c: Claim, a: Claim) {
    SharesStable(c, a) || SameDayTicker(res, c, a)
  }

  /** What is stated contradicts c. A limited answer is silent about the families it lacks. */
  predicate Against(res: Resolution, c: Claim) {
    var fam := res.stated.family;
    var limited := c.origin.Some? && c.origin.value < |res.responses| && res.responses[c.origin.value].limited;
    || (!limited && fam != NO_FAMILY && c.listings.Keys != {} && fam !in c.listings && NO_FAMILY !in c.listings)
    || (res.stated.assetClass.Some? && Disjoint(c.assetClass, res.stated.assetClass.value))
    || exists id :: id in res.stated.identifiers && Contradicts(c, id, fam)
  }

  /** c is dropped below the claims chosen so far, the winner first. */
  predicate Rejects(res: Resolution, c: Claim, chosen: seq<Claim>) {
    (exists o :: o in chosen && Inconsistent(c, o)) || (chosen != [] && !Corroborates(res, c, chosen[0]))
  }

  /** The identifier sent identifies c. */
  predicate Named(res: Resolution, c: Claim) {
    && c.origin.Some? && c.origin.value < |res.responses|
    && res.responses[c.origin.value].sent.Some? && res.responses[c.origin.value].sent.value in Ids(c)
  }

  function StatedOf(ids: seq<Identifier>, c: Claim): nat {
    if ids == [] then 0 else StatedOf(ids[..|ids| - 1], c) + if ids[|ids| - 1] in Ids(c) then 1 else 0
  }

  /** How much of what is stated c confirms. */
  function Confirms(res: Resolution, c: Claim): nat {
    StatedOf(res.stated.identifiers, c) + if res.stated.family in c.listings && res.stated.family != NO_FAMILY then 1 else 0
  }

  /** c ranks no later than d: it names the identifier sent and d does not, or they agree and it confirms no less. */
  function Rank(res: Resolution): (Claim, Claim) -> bool {
    (c, d) => if Named(res, c) != Named(res, d) then Named(res, c) else Confirms(res, c) >= Confirms(res, d)
  }

  lemma RankOrders(res: Resolution)
    ensures TotalPreorder(Rank(res))
  {
  }
}
