/**
 * The two selections among the claims of the responses: what a resolution attaches, and the
 * sets of consistent claims put to the user (identity/resolve/choose.go and candidate.go).
 */
module Verdicts {
  import opened Options
  import opened Sorting
  import opened Ranking
  import opened Greedy
  import opened Identifiers
  import opened Claims
  import opened Choosing

  /** refused says that a check fails the user's choice. */
  datatype Verdict = Verdict(winner: Option<Claim>, refused: bool, attached: seq<Claim>, offered: seq<seq<Claim>>)

  function Rejecting(res: Resolution): (Claim, seq<Claim>) -> bool {
    (c, chosen) => Rejects(res, c, chosen)
  }

  function Origin(c: Claim): int {
    if c.origin.Some? then c.origin.value else -1
  }

  // ----- What one response offers -----

  /** A venue ticker that was filtered bare, at a venue that no claim names. */
  predicate Fallback(res: Resolution, k: nat)
    requires k < |res.responses| && res.responses[k].sent.Some?
  {
    var r := res.responses[k];
    && IsGlobal(r.sent.value) && r.sent.value.kind == "mic_ticker"
    && Identifier("mic_ticker", "", r.sent.value.value) in r.filtered
    && forall c :: c in r.claims ==> !Named(res, c)
  }

  /** c passes the naming check, which a confirmation replaces for a bare ticker, and agrees with the statement. */
  predicate Survives(res: Resolution, k: nat, confirmed: bool, c: Claim)
    requires k < |res.responses| && res.responses[k].sent.Some?
  {
    && (if IsGlobal(res.responses[k].sent.value) then Named(res, c) || Fallback(res, k) else confirmed)
    && !Against(res, c)
  }

  /** c agrees with the statement, and only a bare ticker keeps it from surviving. */
  predicate IsOffered(res: Resolution, k: nat, confirmed: bool, c: Claim)
    requires k < |res.responses| && res.responses[k].sent.Some?
  {
    !IsGlobal(res.responses[k].sent.value) && !confirmed && !Against(res, c)
  }

  function Survivors(res: Resolution, k: nat, confirmed: bool): (r: seq<Claim>)
    requires k < |res.responses|
    ensures forall c :: c in r ==> c in res.responses[k].claims && !Against(res, c)
  {
    if res.responses[k].sent.None? then [] else Kept(c => Survives(res, k, confirmed, c), res.responses[k].claims)
  }

  function Offered(res: Resolution, k: nat, confirmed: bool): (r: seq<Claim>)
    requires k < |res.responses|
    ensures forall c :: c in r ==> c in res.responses[k].claims && !Against(res, c)
  {
    if res.responses[k].sent.None? then [] else Kept(c => IsOffered(res, k, confirmed, c), res.responses[k].claims)
  }

  /** Sorts the claims of a response into survivors, offered claims and those dropped. */
  method FilterAlternatives(res: Resolution, k: nat, confirmed: bool) returns (survivors: seq<Claim>, offered: seq<Claim>, fallback: bool)
    requires k < |res.responses| && res.responses[k].sent.Some?
    ensures survivors == Survivors(res, k, confirmed) && offered == Offered(res, k, confirmed)
    ensures fallback == Fallback(res, k)
  {
    var r := res.responses[k];
    var global := IsGlobal(r.sent.value);
    var named := exists c :: c in r.claims && Named(res, c);
    fallback := global && !named && r.sent.value.kind == "mic_ticker"
      && Identifier("mic_ticker", "", r.sent.value.value) in r.filtered;
    survivors, offered := [], [];
    ghost var f, g := c => Survives(res, k, confirmed, c), c => IsOffered(res, k, confirmed, c);
    for i := 0 to |r.claims|
      invariant survivors == Kept(f, r.claims[..i]) && offered == Kept(g, r.claims[..i])
    {
      KeptNext(f, r.claims, i);
      KeptNext(g, r.claims, i);
      var c := r.claims[i];
      if !global && !confirmed {
        if !Against(res, c) {
          offered := offered + [c];
        }
      } else if global && !Named(res, c) && !fallback {
      } else if !Against(res, c) {
        survivors := survivors + [c];
      }
    }
    assert r.claims[..|r.claims|] == r.claims;
  }

  /** Under fallback with nothing chosen, several survivors are put to the user rather than chosen among. */
  predicate HoldsBack(res: Resolution, k: nat, confirmed: bool, chosen: seq<Claim>)
    requires k < |res.responses|
  {
    && res.responses[k].sent.Some? && Fallback(res, k) && chosen == []
    && |Accepted(Rejecting(res), chosen, Survivors(res, k, confirmed))| > 1
  }

  function BestClaim(res: Resolution, k: nat, confirmed: bool, chosen: seq<Claim>): Option<Claim>
    requires k < |res.responses|
  {
    if HoldsBack(res, k, confirmed, chosen) then None
    else Taken(Rejecting(res), Rank(res), chosen, Survivors(res, k, confirmed))
  }

  function Put(res: Resolution, k: nat, confirmed: bool, chosen: seq<Claim>): seq<Claim>
    requires k < |res.responses|
  {
    Offered(res, k, confirmed)
    + if HoldsBack(res, k, confirmed, chosen) then Accepted(Rejecting(res), chosen, Survivors(res, k, confirmed)) else []
  }

  /** The best surviving claim of a response below those chosen, by a stable sort, and the claims it puts to the user. */
  method FindBestClaim(res: Resolution, k: nat, confirmed: bool, chosen: seq<Claim>) returns (best: Option<Claim>, put: seq<Claim>)
    requires k < |res.responses|
    ensures best == BestClaim(res, k, confirmed, chosen) && put == Put(res, k, confirmed, chosen)
  {
    if res.responses[k].sent.None? {
      return None, [];
    }
    var survivors, offered, fallback := FilterAlternatives(res, k, confirmed);
    survivors := Kept(Accepting(Rejecting(res), chosen), survivors);
    assert survivors == Accepted(Rejecting(res), chosen, Survivors(res, k, confirmed));
    if |survivors| == 0 {
      return None, offered;
    }
    if fallback && |chosen| == 0 && |survivors| > 1 {
      return None, offered + survivors;
    }
    RankOrders(res);
    SortAgreesWithScan(Rank(res), survivors);
    best, put := Some(StableSort(Rank(res), survivors)[0]), offered;
  }

  // ----- What a resolution attaches -----

  /** The claim of the set that response k made. */
  function Member(a: seq<Claim>, k: nat): (r: Option<Claim>)
    ensures r.None? <==> forall c :: c in a ==> c.origin != Some(k)
    ensures r.Some? ==> r.value in a && r.value.origin == Some(k)
  {
    if a == [] then None
    else if a[0].origin == Some(k) then Some(a[0])
    else Member(a[1..], k)
  }

  /** What is chosen after the first n responses: pick is the user's choice, empty where there is none. */
  function ChosenAfter(res: Resolution, start: seq<Claim>, pick: seq<Claim>, n: nat): seq<Claim>
    requires n <= |res.responses|
  {
    if n == 0 then start else
      var chosen := ChosenAfter(res, start, pick, n - 1);
      ChosenNext(res, chosen, pick, n - 1)
  }

  function ChosenNext(res: Resolution, chosen: seq<Claim>, pick: seq<Claim>, k: nat): seq<Claim>
    requires k < |res.responses|
  {
    match Member(pick, k)
    case Some(m) => if m == pick[0] || Rejects(res, m, chosen) then chosen else chosen + [m]
    case None => if pick != [] then chosen else chosen + Listed(BestClaim(res, k, false, chosen))
  }

  /** What the first n responses put to the user. */
  function PutAfter(res: Resolution, start: seq<Claim>, pick: seq<Claim>, n: nat): seq<Claim>
    requires n <= |res.responses|
  {
    if n == 0 then [] else
      PutAfter(res, start, pick, n - 1) + PutNext(res, ChosenAfter(res, start, pick, n - 1), pick, n - 1)
  }

  function PutNext(res: Resolution, chosen: seq<Claim>, pick: seq<Claim>, k: nat): seq<Claim>
    requires k < |res.responses|
  {
    if Member(pick, k).Some? then [] else Put(res, k, pick != [], chosen)
  }

  function Listed(c: Option<Claim>): seq<Claim> {
    if c.Some? then [c.value] else []
  }

  predicate Refused(res: Resolution, known: Option<Claim>, pick: seq<Claim>) {
    pick != [] && (Against(res, pick[0]) || (known.Some? && Inconsistent(pick[0], known.value)))
  }

  /** The claims known to win or picked to lead, which what is chosen begins with. */
  function Leading(known: Option<Claim>, pick: seq<Claim>): seq<Claim> {
    Listed(known) + if pick == [] then [] else [pick[0]]
  }

  predicate Confirmable(a: seq<Claim>)
    requires a != []
  {
    exists id :: id in Ids(a[0]) && IsStable(id)
  }

  function Gathered(res: Resolution, cs: seq<Claim>): seq<seq<Claim>> {
    Sets(Rejecting(res), Rank(res), GroupsOf(Origin, cs))
  }

  function ConfirmableSets(sets: seq<seq<Claim>>): seq<seq<Claim>> {
    Kept((a: seq<Claim>) => a != [] && Confirmable(a), sets)
  }

  /** The claim of response k that joins those chosen: the user's where it picked one, else the best. */
  method ChooseNext(res: Resolution, chosen: seq<Claim>, pick: seq<Claim>, k: nat) returns (next: Option<Claim>, put: seq<Claim>)
    requires k < |res.responses|
    ensures ChosenNext(res, chosen, pick, k) == chosen + Listed(next)
    ensures put == PutNext(res, chosen, pick, k)
  {
    var member := Member(pick, k);
    if member.Some? {
      if member.value == pick[0] || Rejects(res, member.value, chosen) {
        return None, [];
      }
      return member, [];
    }
    next, put := FindBestClaim(res, k, pick != [], chosen);
    if pick != [] {
      next := None;
    }
  }

  /**
   * Picks the winner and what attaches to it: known wins where the database named an instrument,
   * else the head of the user's choice, else the best claim of the first response with one.
   */
  method Choose(res: Resolution, known: Option<Claim>, pick: seq<Claim>) returns (v: Verdict)
    ensures v.refused == Refused(res, known, pick)
    ensures v.refused ==> v.winner == known && v.attached == [] && v.offered == []
    ensures !v.refused ==>
      var chosen := ChosenAfter(res, Leading(known, pick), pick, |res.responses|);
      && chosen == Listed(known) + v.attached
      && v.winner == (if chosen == [] then None else Some(chosen[0]))
      && v.offered == ConfirmableSets(Gathered(res, PutAfter(res, Leading(known, pick), pick, |res.responses|)))
  {
    if Refused(res, known, pick) {
      return Verdict(known, true, [], []);
    }
    var head: seq<Claim> := if pick == [] then [] else [pick[0]];
    var start := Listed(known) + head;
    var added, put := ChooseBelow(res, start, pick);
    Regroup(Listed(known), head, added);
    var winner := if |start + added| == 0 then None else Some((start + added)[0]);
    var sets := GatherConsistentClaims(res, put);
    v := Verdict(winner, false, head + added, ConfirmableSets(sets));
  }

  lemma Regroup<T>(xs: seq<T>, ys: seq<T>, zs: seq<T>)
    ensures xs + ys + zs == xs + (ys + zs)
  {
  }

  /** What each response in turn adds to the claims chosen, and puts to the user. */
  method ChooseBelow(res: Resolution, start: seq<Claim>, pick: seq<Claim>) returns (added: seq<Claim>, put: seq<Claim>)
    ensures ChosenAfter(res, start, pick, |res.responses|) == start + added
    ensures put == PutAfter(res, start, pick, |res.responses|)
  {
    added, put := [], [];
    for k := 0 to |res.responses|
      invariant ChosenAfter(res, start, pick, k) == start + added
      invariant put == PutAfter(res, start, pick, k)
    {
      var next, more := ChooseNext(res, start + added, pick, k);
      put := put + more;
      if next.Some? {
        Regroup(start, added, [next.value]);
        added := added + [next.value];
      }
    }
  }

  // ----- The sets of consistent claims -----

  /** The sets of consistent claims among cs, which arrive in precedence order. */
  method GatherConsistentClaims(res: Resolution, cs: seq<Claim>) returns (out: seq<seq<Claim>>)
    ensures out == Gathered(res, cs)
  {
    out := Gather(Rejecting(res), Rank(res), Origin, cs);
  }

  // ----- The two selections agree -----

  /** The survivors of each response, without a user's choice. */
  function SurvivorsOf(res: Resolution): (r: seq<seq<Claim>>)
    ensures |r| == |res.responses| && forall k :: 0 <= k < |r| ==> r[k] == Survivors(res, k, false)
  {
    seq(|res.responses|, k requires 0 <= k < |res.responses| => Survivors(res, k, false))
  }

  /** The claims each response offers the user. */
  function CandidatesOf(res: Resolution): (r: seq<seq<Claim>>)
    ensures |r| == |res.responses|
    ensures forall k :: 0 <= k < |r| ==> r[k] == Offered(res, k, false) + Survivors(res, k, false)
  {
    seq(|res.responses|, k requires 0 <= k < |res.responses| => Offered(res, k, false) + Survivors(res, k, false))
  }

  /** No response holds its survivors back for the user. */
  ghost predicate NoneHeldBack(res: Resolution) {
    forall k: nat :: k < |res.responses| ==> !HoldsBack(res, k, false, ChosenAfter(res, [], [], k))
  }

  lemma {:induction false} ChosenIsChain(res: Resolution, n: nat)
    requires NoneHeldBack(res) && n <= |res.responses|
    ensures ChosenAfter(res, [], [], n) == Chain(Rejecting(res), Rank(res), [], SurvivorsOf(res)[..n])
  {
    if n > 0 {
      ChosenIsChain(res, n - 1);
      assert !HoldsBack(res, n - 1, false, ChosenAfter(res, [], [], n - 1));
      ChosenNextInChain(res, n);
    }
  }

  lemma ChosenNextInChain(res: Resolution, n: nat)
    requires 0 < n <= |res.responses| && !HoldsBack(res, n - 1, false, ChosenAfter(res, [], [], n - 1))
    requires ChosenAfter(res, [], [], n - 1) == Chain(Rejecting(res), Rank(res), [], SurvivorsOf(res)[..n - 1])
    ensures ChosenAfter(res, [], [], n) == Chain(Rejecting(res), Rank(res), [], SurvivorsOf(res)[..n])
  {
    var groups, chosen := SurvivorsOf(res), ChosenAfter(res, [], [], n - 1);
    ChainNext(Rejecting(res), Rank(res), [], groups, n);
    assert groups[n - 1] == Survivors(res, n - 1, false);
    ChosenExtends(res, chosen, n - 1);
  }

  lemma ChosenExtends(res: Resolution, chosen: seq<Claim>, k: nat)
    requires k < |res.responses| && !HoldsBack(res, k, false, chosen)
    ensures ChosenNext(res, chosen, [], k) == Extended(Rejecting(res), Rank(res), chosen, Survivors(res, k, false))
  {
  }

  ghost predicate FromResponses(res: Resolution, groups: seq<seq<Claim>>) {
    |groups| == |res.responses| && forall k, c :: 0 <= k < |groups| && c in groups[k] ==> c in res.responses[k].claims
  }

  lemma ResponsesAreSources(res: Resolution, groups: seq<seq<Claim>>)
    requires WellFormed(res) && FromResponses(res, groups)
    ensures FromSources(Origin, groups)
    ensures forall k, c :: 0 <= k < |groups| && c in groups[k] ==> Origin(c) == k
  {
    forall k, c | 0 <= k < |groups| && c in groups[k]
      ensures Origin(c) == k
    {
      var p: nat :| p < |res.responses[k].claims| && res.responses[k].claims[p] == c;
      assert OfResponse(res.responses[k], k);
    }
  }

  /** What several responses offer in turn is gathered response by response. */
  lemma GatheredInTurn(res: Resolution, groups: seq<seq<Claim>>)
    requires WellFormed(res) && FromResponses(res, groups)
    ensures Gathered(res, Concat(groups)) == Sets(Rejecting(res), Rank(res), groups)
  {
    ResponsesAreSources(res, groups);
    GroupsOfConcat(Origin, groups);
    SetsSkipEmpty(Rejecting(res), Rank(res), groups);
  }

  /** What survives of one response is all different, and so is what it offers. */
  lemma ResponsesDistinct(res: Resolution, k: nat)
    requires WellFormed(res) && k < |res.responses|
    ensures Unrepeated(Survivors(res, k, false)) && Unrepeated(Offered(res, k, false) + Survivors(res, k, false))
  {
    assert OfResponse(res.responses[k], k);
    var claims := res.responses[k].claims;
    forall i, j | 0 <= i < j < |claims|
      ensures claims[i] != claims[j]
    {
      assert claims[i].place == i && claims[j].place == j;
    }
    if res.responses[k].sent.Some? {
      KeptDistinct(c => Survives(res, k, false, c), claims);
      KeptDistinct(c => IsOffered(res, k, false, c), claims);
    }
    UnrepeatedConcat(Offered(res, k, false), Survivors(res, k, false));
  }

  /** No two sets gathered from the survivors have one head, nor two sets put to the user. */
  lemma GatheredHeadsDistinct(res: Resolution)
    requires WellFormed(res)
    ensures DistinctHeads(Gathered(res, Concat(SurvivorsOf(res))))
    ensures DistinctHeads(Gathered(res, Concat(CandidatesOf(res))))
  {
    RankOrders(res);
    forall k | 0 <= k < |res.responses|
      ensures Unrepeated(SurvivorsOf(res)[k]) && Unrepeated(CandidatesOf(res)[k])
    {
      ResponsesDistinct(res, k);
    }
    GatheredInTurn(res, SurvivorsOf(res));
    ResponsesAreSources(res, SurvivorsOf(res));
    HeadsDistinct(Rejecting(res), Rank(res), Origin, SurvivorsOf(res));
    GatheredInTurn(res, CandidatesOf(res));
    ResponsesAreSources(res, CandidatesOf(res));
    HeadsDistinct(Rejecting(res), Rank(res), Origin, CandidatesOf(res));
  }

  /**
   * Without an instrument of the database, a user's choice or survivors held back, what a
   * resolution attaches is the one set gathered on the same head from the survivors.
   */
  lemma ChosenIsGathered(res: Resolution)
    requires WellFormed(res) && NoneHeldBack(res)
    ensures IsOnlySet(ChosenAfter(res, [], [], |res.responses|), Gathered(res, Concat(SurvivorsOf(res))))
  {
    var groups := SurvivorsOf(res);
    ChosenIsChain(res, |res.responses|);
    assert groups[..|res.responses|] == groups;
    GatheredInTurn(res, groups);
    RankOrders(res);
    ChainIsSet(Rejecting(res), Rank(res), groups);
    GatheredHeadsDistinct(res);
    OnlySet(ChosenAfter(res, [], [], |res.responses|), Gathered(res, Concat(groups)));
  }

  /** Every set put to the user agrees with the statement, has one claim at most from each datasource, and none that those above it reject. */
  lemma CandidateSets(res: Resolution, a: seq<Claim>)
    requires WellFormed(res) && a in Gathered(res, Concat(CandidatesOf(res)))
    ensures Consistent(Rejecting(res), Origin, a)
    ensures forall c :: c in a ==> !Against(res, c) && c.origin.Some? && c.origin.value < |res.responses|
  {
    var groups := CandidatesOf(res);
    GatheredInTurn(res, groups);
    RankOrders(res);
    ResponsesAreSources(res, groups);
    SetsConsistent(Rejecting(res), Rank(res), Origin, groups);
    forall c | c in a
      ensures !Against(res, c) && c.origin.Some? && c.origin.value < |res.responses|
    {
      var k :| 0 <= k < |groups| && c in groups[k];
      assert Origin(c) == k;
    }
  }

  /** Every claim that a response offers or that survives is in some set put to the user. */
  lemma EveryCandidateInSomeSet(res: Resolution, k: nat, c: Claim)
    requires WellFormed(res) && k < |res.responses|
    requires c in Offered(res, k, false) || c in Survivors(res, k, false)
    ensures exists i: nat :: SetHolds(Gathered(res, Concat(CandidatesOf(res))), i, c)
  {
    var groups := CandidatesOf(res);
    assert c in groups[k];
    GatheredInTurn(res, groups);
    EveryoneInSomeSet(Rejecting(res), Rank(res), groups, k, c);
  }

  // ----- A choice the user picked is attached in full -----

  lemma {:induction false} MemberOf(a: seq<Claim>, k: nat, i: nat)
    requires i < |a| && a[i].origin == Some(k)
    requires forall i, j :: 0 <= i < j < |a| ==> Origin(a[i]) < Origin(a[j])
    ensures Member(a, k) == Some(a[i])
  {
    if i > 0 {
      assert Origin(a[0]) < Origin(a[i]);
      MemberOf(a[1..], k, i - 1);
    }
  }

  /** How many of the set's members come from the first n responses, its head always among them. */
  ghost predicate TakenSoFar(a: seq<Claim>, n: nat, j: nat) {
    1 <= j <= |a| && forall i :: 0 <= i < |a| ==> (i < j <==> i == 0 || Origin(a[i]) < n)
  }

  lemma PickNext(res: Resolution, a: seq<Claim>, k: nat, j: nat) returns (next: nat)
    requires k < |res.responses| && Consistent(Rejecting(res), Origin, a) && TakenSoFar(a, k, j)
    requires forall c :: c in a ==> c.origin.Some?
    ensures TakenSoFar(a, k + 1, next) && ChosenNext(res, a[..j], a, k) == a[..next]
  {
    var m := Member(a, k);
    next := j;
    if m.Some? {
      var i: nat :| i < |a| && a[i] == m.value;
      MemberOf(a, k, i);
      PickMember(res, a, k, j, i);
      next := if i == 0 then j else j + 1;
    } else {
      assert forall i :: 0 <= i < |a| ==> a[i] in a;
      assert TakenSoFar(a, k + 1, j);
    }
  }

  lemma PickMember(res: Resolution, a: seq<Claim>, k: nat, j: nat, i: nat)
    requires k < |res.responses| && Consistent(Rejecting(res), Origin, a) && TakenSoFar(a, k, j)
    requires i < |a| && Origin(a[i]) == k && Member(a, k) == Some(a[i])
    ensures i == 0 ==> ChosenNext(res, a[..j], a, k) == a[..j] && TakenSoFar(a, k + 1, j)
    ensures i > 0 ==> i == j && ChosenNext(res, a[..j], a, k) == a[..j + 1] && TakenSoFar(a, k + 1, j + 1)
  {
    TakenNext(a, k, j, i);
    if i > 0 {
      assert !Rejecting(res)(a[j], a[..j]);
      OneMore(a, j);
    }
  }

  lemma OneMore<T>(xs: seq<T>, n: nat)
    requires n < |xs|
    ensures xs[..n + 1] == xs[..n] + [xs[n]]
  {
  }

  lemma TakenNext(a: seq<Claim>, k: nat, j: nat, i: nat)
    requires forall i, j :: 0 <= i < j < |a| ==> Origin(a[i]) < Origin(a[j])
    requires TakenSoFar(a, k, j) && i < |a| && Origin(a[i]) == k
    ensures i == 0 ==> TakenSoFar(a, k + 1, j)
    ensures i > 0 ==> i == j && a[0] != a[i] && TakenSoFar(a, k + 1, j + 1)
  {
    if i > 0 {
      assert j <= i;
      assert Origin(a[j]) >= k;
      assert Origin(a[0]) < Origin(a[i]);
    }
  }

  /** Response k takes the choice from the first j of the set to the first `next`. */
  ghost predicate StepsTo(res: Resolution, a: seq<Claim>, k: nat, j: nat, next: nat)
    requires k < |res.responses|
  {
    j <= |a| && TakenSoFar(a, k + 1, next) && ChosenNext(res, a[..j], a, k) == a[..next]
  }

  ghost predicate Steps(res: Resolution, a: seq<Claim>, k: nat, j: nat) {
    k < |res.responses| && TakenSoFar(a, k, j) ==> exists next: nat :: StepsTo(res, a, k, j, next)
  }

  lemma EachSteps(res: Resolution, a: seq<Claim>, k: nat, j: nat)
    requires Consistent(Rejecting(res), Origin, a) && forall c :: c in a ==> c.origin.Some?
    ensures Steps(res, a, k, j)
  {
    if k < |res.responses| && TakenSoFar(a, k, j) {
      var next := PickNext(res, a, k, j);
      assert StepsTo(res, a, k, j, next);
    }
  }

  lemma {:induction false} PickUpTo(res: Resolution, a: seq<Claim>, n: nat) returns (j: nat)
    requires n <= |res.responses| && a != [] && TakenSoFar(a, 0, 1)
    requires forall k: nat, j: nat :: Steps(res, a, k, j)
    ensures TakenSoFar(a, n, j) && ChosenAfter(res, a[..1], a, n) == a[..j]
  {
    if n == 0 {
      j := 1;
    } else {
      var i := PickUpTo(res, a, n - 1);
      assert Steps(res, a, n - 1, i);
      j :| StepsTo(res, a, n - 1, i, j);
    }
  }

  lemma TakenFirst(a: seq<Claim>)
    requires a != [] && forall c :: c in a ==> c.origin.Some?
    ensures a[..1] == [a[0]] && TakenSoFar(a, 0, 1)
  {
    assert forall i :: 0 <= i < |a| ==> a[i] in a;
  }

  /** A set put to the user, once picked, is not refused and attaches in full, in its order. */
  lemma PickAttaches(res: Resolution, a: seq<Claim>)
    requires WellFormed(res) && a in Gathered(res, Concat(CandidatesOf(res)))
    ensures a != [] && !Refused(res, None, a)
    ensures ChosenAfter(res, Leading(None, a), a, |res.responses|) == a
  {
    CandidateSets(res, a);
    NotRefused(res, a);
    PickTakesAll(res, a);
    LeadsAlone(a);
  }

  lemma NotRefused(res: Resolution, a: seq<Claim>)
    requires a != [] && forall c :: c in a ==> !Against(res, c)
    ensures !Refused(res, None, a)
  {
    assert a[0] in a;
  }

  lemma LeadsAlone(a: seq<Claim>)
    requires a != []
    ensures Leading(None, a) == a[..1]
  {
  }

  lemma PickTakesAll(res: Resolution, a: seq<Claim>)
    requires Consistent(Rejecting(res), Origin, a)
    requires forall c :: c in a ==> c.origin.Some? && c.origin.value < |res.responses|
    ensures ChosenAfter(res, a[..1], a, |res.responses|) == a
  {
    TakenFirst(a);
    forall k: nat, j: nat
      ensures Steps(res, a, k, j)
    {
      EachSteps(res, a, k, j);
    }
    var j := PickUpTo(res, a, |res.responses|);
    assert a[|a| - 1] in a;
    assert j == |a| && a[..|a|] == a;
  }

  /** No claim from place m on is rejected by those above it. */
  ghost predicate AcceptedFrom(res: Resolution, chosen: seq<Claim>, m: nat) {
    m <= |chosen| && forall i :: m <= i < |chosen| ==> !Rejects(res, chosen[i], chosen[..i])
  }

  /**
   * Whatever is known or picked, no claim attached below the head, which is what the choice
   * starts with, is rejected by those above it.
   */
  lemma {:induction false} AttachedAccepted(res: Resolution, start: seq<Claim>, pick: seq<Claim>, n: nat)
    requires n <= |res.responses|
    ensures AcceptedFrom(res, ChosenAfter(res, start, pick, n), |start|)
  {
    if n > 0 {
      AttachedAccepted(res, start, pick, n - 1);
      AcceptedNext(res, ChosenAfter(res, start, pick, n - 1), pick, n - 1, |start|);
    }
  }

  lemma AcceptedNext(res: Resolution, chosen: seq<Claim>, pick: seq<Claim>, k: nat, m: nat)
    requires k < |res.responses| && AcceptedFrom(res, chosen, m)
    ensures AcceptedFrom(res, ChosenNext(res, chosen, pick, k), m)
  {
    var member := Member(pick, k);
    if member.Some? {
      if !Rejects(res, member.value, chosen) {
        AcceptedAppend(res, chosen, member.value, m);
      }
    } else {
      var best := BestClaim(res, k, false, chosen);
      RankOrders(res);
      TakenAccepted(Rejecting(res), Rank(res), chosen, Survivors(res, k, false));
      if best.Some? {
        AcceptedAppend(res, chosen, best.value, m);
      } else {
        assert chosen + [] == chosen;
      }
    }
  }

  lemma AcceptedAppend(res: Resolution, chosen: seq<Claim>, c: Claim, m: nat)
    requires AcceptedFrom(res, chosen, m) && !Rejects(res, c, chosen)
    ensures AcceptedFrom(res, chosen + [c], m)
  {
    var next := chosen + [c];
    assert next[..|chosen|] == chosen;
    assert forall i :: 0 <= i < |chosen| ==> next[..i] == chosen[..i];
  }

  // ----- The choice a pick names -----

  /** The set's head came from the datasource and carries the identifier. */
  predicate Names(res: Resolution, a: seq<Claim>, source: string, id: Identifier)
    requires a != []
  {
    && a[0].origin.Some? && a[0].origin.value < |res.responses|
    && res.responses[a[0].origin.value].source == source && id in Ids(a[0])
  }

  predicate NamesAt(res: Resolution, sets: seq<seq<Claim>>, i: nat, source: string, id: Identifier) {
    i < |sets| && sets[i] != [] && Names(res, sets[i], source, id)
  }

  /** i is the first set a pick names. */
  ghost predicate FirstNamed(res: Resolution, sets: seq<seq<Claim>>, i: nat, source: string, id: Identifier) {
    NamesAt(res, sets, i, source, id) && forall h: nat :: h < i ==> !NamesAt(res, sets, h, source, id)
  }

  /** The first response of the datasource was served. */
  ghost predicate Asked(res: Resolution, source: string) {
    exists k: nat :: FirstAsked(res, source, k) && res.responses[k].served
  }

  ghost predicate FirstAsked(res: Resolution, source: string, k: nat) {
    && k < |res.responses| && res.responses[k].source == source
    && forall j :: 0 <= j < k ==> res.responses[j].source != source
  }

  /** a is the first set a pick names, and its head carries a stable identifier to fix the key by. */
  ghost predicate IsChoice(res: Resolution, sets: seq<seq<Claim>>, source: string, id: Identifier, a: seq<Claim>) {
    exists i: nat :: FirstNamed(res, sets, i, source, id) && sets[i] == a && Confirmable(a)
  }

  method WasAsked(res: Resolution, source: string) returns (asked: bool)
    ensures asked == Asked(res, source)
  {
    var k: nat := 0;
    while k < |res.responses| && res.responses[k].source != source
      invariant k <= |res.responses|
      invariant forall j :: 0 <= j < k ==> res.responses[j].source != source
    {
      k := k + 1;
    }
    if k == |res.responses| {
      return false;
    }
    assert FirstAsked(res, source, k);
    asked := res.responses[k].served;
  }

  /** The choice a pick names, where its datasource was served. */
  method FindUserChoice(res: Resolution, source: string, id: Identifier) returns (choice: Option<seq<Claim>>)
    requires WellFormed(res)
    ensures choice.Some? ==> Asked(res, source) && IsChoice(res, Gathered(res, Concat(CandidatesOf(res))), source, id, choice.value)
    ensures choice.None? && Asked(res, source) ==> forall a :: !IsChoice(res, Gathered(res, Concat(CandidatesOf(res))), source, id, a)
  {
    var asked := WasAsked(res, source);
    if !asked {
      return None;
    }
    var sets := GatherConsistentClaims(res, Concat(CandidatesOf(res)));
    forall i | 0 <= i < |sets|
      ensures sets[i] != []
    {
      CandidateSets(res, sets[i]);
    }
    choice := ChoiceAmong(res, sets, source, id);
  }

  method ChoiceAmong(res: Resolution, sets: seq<seq<Claim>>, source: string, id: Identifier) returns (choice: Option<seq<Claim>>)
    requires forall i :: 0 <= i < |sets| ==> sets[i] != []
    ensures choice.Some? ==> IsChoice(res, sets, source, id, choice.value)
    ensures choice.None? ==> forall a :: !IsChoice(res, sets, source, id, a)
  {
    var found := FindNamed(res, sets, source, id);
    if found.None? {
      return None;
    }
    var a := sets[found.value];
    choice := if IsStable(id) || Confirmable(a) then Some(a) else None;
  }

  method FindNamed(res: Resolution, sets: seq<seq<Claim>>, source: string, id: Identifier) returns (found: Option<nat>)
    requires forall i :: 0 <= i < |sets| ==> sets[i] != []
    ensures found.Some? ==> FirstNamed(res, sets, found.value, source, id)
    ensures found.None? ==> forall i: nat :: !NamesAt(res, sets, i, source, id)
  {
    for i := 0 to |sets|
      invariant forall h: nat :: h < i ==> !NamesAt(res, sets, h, source, id)
    {
      if Names(res, sets[i], source, id) {
        return Some(i);
      }
    }
    found := None;
  }
}
