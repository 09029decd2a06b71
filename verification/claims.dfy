/** The claims of a response: its listings partitioned by the identifiers they share (identity/resolve/claim.go). */
module Claims {
  import opened Options
  import opened Chains
  import opened Identifiers

  /** A listing of an answer (market/identity.go). */
  datatype Returned = Returned(identifiers: seq<Identifier>, assetClass: string, currency: string, primary: string)

  /** A claim's listing of one currency family. */
  datatype Listing = Listing(identifiers: seq<Identifier>, primary: string)

  /**
   * A claim. origin is the place of the answer that made it, none for the database's, and
   * place its place among that answer's claims, so that two claims are one only where both agree.
   */
  datatype Claim = Claim(
    origin: Option<nat>, place: nat, assetClass: string, identifiers: seq<Identifier>, listings: map<string, Listing>)

  const NO_FAMILY := ""

  // ----- The listings that one claim gathers -----

  predicate Carries(ls: seq<Returned>, i: nat, id: Identifier) {
    i < |ls| && id in ls[i].identifiers && NamesInstr(id)
  }

  ghost predicate ShareInstr(ls: seq<Returned>, i: nat, j: nat) {
    exists id :: Carries(ls, i, id) && Carries(ls, j, id)
  }

  /** Two listings share iff both state one identifier of a type that names instruments. */
  lemma ShareIs(ls: seq<Returned>, i: nat, j: nat)
    ensures ShareInstr(ls, i, j)
       <==> i < |ls| && j < |ls| && exists id: Identifier :: id in ls[i].identifiers && id in ls[j].identifiers && id.kind in OF_INSTRUMENTS
  {
    forall id
      ensures NamesInstr(id) <==> id.kind in OF_INSTRUMENTS
    {
      TypesAre(id);
    }
    if id :| Carries(ls, i, id) && Carries(ls, j, id) {
      assert id in ls[i].identifiers && id.kind in OF_INSTRUMENTS;
    }
    if i < |ls| && j < |ls| {
      if id: Identifier :| id in ls[i].identifiers && id in ls[j].identifiers && id.kind in OF_INSTRUMENTS {
        assert Carries(ls, i, id) && Carries(ls, j, id);
      }
    }
  }

  /** Two listings of one claim: the call was strict, or they share an identifier of the instrument. */
  ghost function OneClaim(ls: seq<Returned>, strict: bool): (nat, nat) -> bool {
    (i: nat, j: nat) => i < |ls| && j < |ls| && (strict || ShareInstr(ls, i, j))
  }

  lemma OneClaimSymmetric(ls: seq<Returned>, strict: bool)
    ensures Symmetric(OneClaim(ls, strict))
  {
  }

  // ----- The forest of parents -----

  /** Of the first n, k's parent leads to the root of its component, by ever smaller ranks. */
  ghost predicate Placed(parent: seq<nat>, roots: seq<nat>, rank: seq<nat>, k: nat) {
    && k < |roots| == |rank| <= |parent|
    && parent[k] < |roots| && roots[k] < |roots|
    && roots[parent[k]] == roots[k]
    && roots[roots[k]] == roots[k]
    && (parent[k] == k <==> roots[k] == k)
    && (parent[k] != k ==> rank[parent[k]] < rank[k])
  }

  /** roots gives the root of each component of the parents, which have no cycle. */
  ghost predicate IsForest(parent: seq<nat>, roots: seq<nat>, rank: seq<nat>) {
    |roots| == |rank| <= |parent| && forall k: nat {:trigger Placed(parent, roots, rank, k)} :: k < |roots| ==> Placed(parent, roots, rank, k)
  }

  /** The roots after b's component joined a's. */
  ghost function Merged(roots: seq<nat>, a: nat, b: nat): (r: seq<nat>)
    requires a < |roots| && b < |roots|
    ensures |r| == |roots|
  {
    seq(|roots|, k requires 0 <= k < |roots| => if roots[k] == roots[b] then roots[a] else roots[k])
  }

  /** Ranks under which the root of b's component may point at the root of a's. */
  ghost function Raised(roots: seq<nat>, rank: seq<nat>, a: nat, b: nat): (r: seq<nat>)
    requires a < |roots| && b < |roots| == |rank| && roots[a] < |roots|
    ensures |r| == |rank|
  {
    seq(|rank|, k requires 0 <= k < |rank| => if roots[k] == roots[b] then rank[k] + rank[roots[a]] + 1 else rank[k])
  }

  lemma Halved(parent: seq<nat>, roots: seq<nat>, rank: seq<nat>, x: nat)
    requires IsForest(parent, roots, rank) && x < |roots|
    ensures Placed(parent, roots, rank, x) && Placed(parent, roots, rank, parent[x])
    ensures IsForest(parent[x := parent[parent[x]]], roots, rank)
  {
    assert Placed(parent, roots, rank, x) && Placed(parent, roots, rank, parent[x]);
    assert Placed(parent, roots, rank, parent[parent[x]]);
    var next := parent[x := parent[parent[x]]];
    forall k: nat | k < |roots|
      ensures Placed(next, roots, rank, k)
    {
      assert Placed(parent, roots, rank, k);
    }
  }

  lemma Linked(parent: seq<nat>, roots: seq<nat>, rank: seq<nat>, a: nat, b: nat)
    requires IsForest(parent, roots, rank) && a < |roots| && b < |roots|
    ensures roots[a] < |roots| && roots[b] < |roots|
    ensures roots[a] != roots[b] ==> IsForest(parent[roots[b] := roots[a]], Merged(roots, a, b), Raised(roots, rank, a, b))
  {
    assert Placed(parent, roots, rank, a) && Placed(parent, roots, rank, b);
    if roots[a] != roots[b] {
      var next, merged, raised := parent[roots[b] := roots[a]], Merged(roots, a, b), Raised(roots, rank, a, b);
      forall k: nat | k < |roots|
        ensures Placed(next, merged, raised, k)
      {
        LinkedAt(parent, roots, rank, a, b, k);
      }
    }
  }

  lemma LinkedAt(parent: seq<nat>, roots: seq<nat>, rank: seq<nat>, a: nat, b: nat, k: nat)
    requires IsForest(parent, roots, rank) && a < |roots| && b < |roots| && k < |roots|
    requires roots[a] < |roots| && roots[b] < |roots| && roots[a] != roots[b]
    ensures Placed(parent[roots[b] := roots[a]], Merged(roots, a, b), Raised(roots, rank, a, b), k)
  {
    assert Placed(parent, roots, rank, a) && Placed(parent, roots, rank, b) && Placed(parent, roots, rank, k);
    assert Placed(parent, roots, rank, roots[a]) && Placed(parent, roots, rank, roots[b]);
  }

  /** The root of i's component, halving the path it walks, which changes no component. */
  method Root(parent: array<nat>, ghost roots: seq<nat>, ghost rank: seq<nat>, i: nat) returns (root: nat)
    requires IsForest(parent[..], roots, rank) && i < |roots|
    modifies parent
    ensures IsForest(parent[..], roots, rank)
    ensures root == roots[i] && root < |roots|
    ensures forall k :: |roots| <= k < parent.Length ==> parent[k] == old(parent[k])
  {
    var x: nat := i;
    assert Placed(parent[..], roots, rank, x);
    while parent[x] != x
      invariant IsForest(parent[..], roots, rank)
      invariant x < |roots| <= parent.Length && |rank| == |roots| && roots[x] == roots[i] && Placed(parent[..], roots, rank, x)
      invariant forall k :: |roots| <= k < parent.Length ==> parent[k] == old(parent[k])
      decreases rank[x]
    {
      Halved(parent[..], roots, rank, x);
      ghost var next := parent[..][x := parent[parent[x]]];
      parent[x] := parent[parent[x]];
      assert parent[..] == next;
      assert Placed(parent[..], roots, rank, x);
      x := parent[x];
      assert Placed(parent[..], roots, rank, x);
    }
    root := x;
  }

  /** Points the root of b's component at the root of a's, whichever is the smaller index. */
  method Union(parent: array<nat>, ghost roots: seq<nat>, ghost rank: seq<nat>, a: nat, b: nat) returns (ghost raised: seq<nat>)
    requires IsForest(parent[..], roots, rank) && a < |roots| && b < |roots|
    modifies parent
    ensures IsForest(parent[..], Merged(roots, a, b), raised)
    ensures forall k :: |roots| <= k < parent.Length ==> parent[k] == old(parent[k])
  {
    var ra := Root(parent, roots, rank, a);
    var rb := Root(parent, roots, rank, b);
    Linked(parent[..], roots, rank, a, b);
    if ra != rb {
      ghost var next := parent[..][rb := ra];
      parent[rb] := ra;
      assert parent[..] == next;
      raised := Raised(roots, rank, a, b);
    } else {
      assert Merged(roots, a, b) == roots;
      raised := rank;
    }
  }

  // ----- The loop over the listings -----

  /** k is connected with its root. */
  ghost predicate Reached(ls: seq<Returned>, strict: bool, roots: seq<nat>, k: nat) {
    k < |roots| && roots[k] < |ls| && Connected(OneClaim(ls, strict), k, roots[k])
  }

  /** Listing i is in the component of the listing that owns id, which carries id too. */
  ghost predicate PairJoined(ls: seq<Returned>, owner: map<Identifier, nat>, roots: seq<nat>, i: nat, id: Identifier) {
    && Carries(ls, i, id)
    && id in owner && owner[id] < |roots| && i < |roots| && roots[i] == roots[owner[id]]
  }

  /** What holds once the pairs in done are joined. */
  ghost predicate Gathered(ls: seq<Returned>, strict: bool, owner: map<Identifier, nat>, roots: seq<nat>, done: set<(nat, Identifier)>) {
    && |roots| <= |ls|
    && (forall k: nat {:trigger Reached(ls, strict, roots, k)} :: k < |roots| ==> Reached(ls, strict, roots, k))
    && (forall id :: id in owner ==> owner[id] < |roots| && Carries(ls, owner[id], id))
    && (forall i, id {:trigger PairJoined(ls, owner, roots, i, id)} :: (i, id) in done ==> PairJoined(ls, owner, roots, i, id))
  }

  /** Joining two listings of one claim keeps each root connected with the listings below it. */
  lemma MergedReached(ls: seq<Returned>, strict: bool, roots: seq<nat>, a: nat, b: nat, k: nat)
    requires a < |roots| && b < |roots| && k < |roots| <= |ls| && OneClaim(ls, strict)(a, b)
    requires forall x: nat {:trigger Reached(ls, strict, roots, x)} :: x < |roots| ==> Reached(ls, strict, roots, x)
    ensures Reached(ls, strict, Merged(roots, a, b), k)
  {
    assert Reached(ls, strict, roots, a) && Reached(ls, strict, roots, b) && Reached(ls, strict, roots, k);
    var link := OneClaim(ls, strict);
    OneClaimSymmetric(ls, strict);
    if roots[k] == roots[b] {
      ConnectedLink(link, a, b);
      ConnectedBack(link, a, b);
      ConnectedBack(link, b, roots[b]);
      ConnectedThrough(link, k, roots[b], b);
      ConnectedThrough(link, k, b, a);
      ConnectedThrough(link, k, a, roots[a]);
    }
  }

  lemma GatheredMerge(ls: seq<Returned>, strict: bool, owner: map<Identifier, nat>, roots: seq<nat>, done: set<(nat, Identifier)>, a: nat, b: nat)
    requires Gathered(ls, strict, owner, roots, done) && a < |roots| && b < |roots| && OneClaim(ls, strict)(a, b)
    ensures Gathered(ls, strict, owner, Merged(roots, a, b), done)
  {
    var next := Merged(roots, a, b);
    forall k: nat | k < |next|
      ensures Reached(ls, strict, next, k)
    {
      MergedReached(ls, strict, roots, a, b, k);
    }
    forall i, id | (i, id) in done
      ensures PairJoined(ls, owner, next, i, id)
    {
      assert PairJoined(ls, owner, roots, i, id);
    }
  }

  /** Listing n joins the forest as a root of its own. */
  lemma GatheredNew(ls: seq<Returned>, strict: bool, owner: map<Identifier, nat>, roots: seq<nat>, done: set<(nat, Identifier)>)
    requires Gathered(ls, strict, owner, roots, done) && |roots| < |ls|
    ensures Gathered(ls, strict, owner, roots + [|roots|], done)
  {
    var next := roots + [|roots|];
    forall k: nat | k < |next|
      ensures Reached(ls, strict, next, k)
    {
      ConnectedSelf(OneClaim(ls, strict), k);
      assert k < |roots| ==> Reached(ls, strict, roots, k);
    }
    forall i, id | (i, id) in done
      ensures PairJoined(ls, owner, next, i, id)
    {
      assert PairJoined(ls, owner, roots, i, id);
    }
  }

  /** Listing i, carrying id, is joined to the listing that owns it, or owns it. */
  lemma GatheredPair(ls: seq<Returned>, strict: bool, owner: map<Identifier, nat>, roots: seq<nat>, done: set<(nat, Identifier)>, i: nat, id: Identifier)
    requires Gathered(ls, strict, owner, roots, done) && i < |roots| && Carries(ls, i, id)
    ensures id in owner ==> owner[id] < |roots| && Gathered(ls, strict, owner, Merged(roots, owner[id], i), done + {(i, id)})
    ensures id !in owner ==> Gathered(ls, strict, owner[id := i], roots, done + {(i, id)})
  {
    if id in owner {
      GatheredMerge(ls, strict, owner, roots, done, owner[id], i);
      assert PairJoined(ls, owner, Merged(roots, owner[id], i), i, id);
    } else {
      forall j, x | (j, x) in done + {(i, id)}
        ensures PairJoined(ls, owner[id := i], roots, j, x)
      {
        assert (j, x) in done ==> PairJoined(ls, owner, roots, j, x);
      }
    }
  }

  ghost predicate OneRoot(roots: seq<nat>) {
    forall k :: 0 <= k < |roots| ==> roots[k] == roots[0]
  }

  /** Every identifier of the instrument that the first n listings carry is joined. */
  ghost predicate AllJoined(ls: seq<Returned>, n: nat, done: set<(nat, Identifier)>) {
    forall i: nat, id :: i < n && Carries(ls, i, id) ==> (i, id) in done
  }

  /** With every pair joined, two listings have one root exactly where a chain of shared identifiers connects them. */
  lemma RootsConnect(ls: seq<Returned>, strict: bool, owner: map<Identifier, nat>, roots: seq<nat>, done: set<(nat, Identifier)>, i: nat, j: nat)
    requires Gathered(ls, strict, owner, roots, done) && AllJoined(ls, |ls|, done) && |roots| == |ls|
    requires strict ==> OneRoot(roots)
    requires i < |ls| && j < |ls|
    ensures roots[i] == roots[j] <==> Connected(OneClaim(ls, strict), i, j)
  {
    var link := OneClaim(ls, strict);
    assert Reached(ls, strict, roots, i) && Reached(ls, strict, roots, j);
    if roots[i] == roots[j] {
      OneClaimSymmetric(ls, strict);
      ConnectedBack(link, j, roots[j]);
      ConnectedThrough(link, i, roots[i], j);
    }
    if Connected(link, i, j) {
      var f := (x: nat) => if x < |roots| then roots[x] else x;
      forall x, y | link(x, y)
        ensures f(x) == f(y)
      {
        if !strict {
          var id :| Carries(ls, x, id) && Carries(ls, y, id);
          assert PairJoined(ls, owner, roots, x, id) && PairJoined(ls, owner, roots, y, id);
        }
      }
      var p :| ChainFrom(link, p, i, j);
      ConnectedKeeps(link, f, p);
    }
  }

  /** Joins listing i with the owner of id, or makes it the owner. */
  method JoinOne(parent: array<nat>, owner: map<Identifier, nat>, ghost ls: seq<Returned>, ghost strict: bool, i: nat, id: Identifier,
                 ghost roots: seq<nat>, ghost rank: seq<nat>, ghost done: set<(nat, Identifier)>)
      returns (owners: map<Identifier, nat>, ghost roots': seq<nat>, ghost rank': seq<nat>)
    requires IsForest(parent[..], roots, rank) && i < |roots| && Carries(ls, i, id)
    requires Gathered(ls, strict, owner, roots, done)
    requires strict ==> OneRoot(roots)
    modifies parent
    ensures IsForest(parent[..], roots', rank') && |roots'| == |roots|
    ensures Gathered(ls, strict, owners, roots', done + {(i, id)})
    ensures strict ==> OneRoot(roots')
  {
    owners, roots', rank' := owner, roots, rank;
    GatheredPair(ls, strict, owner, roots, done, i, id);
    if id in owner {
      rank' := Union(parent, roots, rank, owner[id], i);
      roots' := Merged(roots, owner[id], i);
    } else {
      owners := owner[id := i];
    }
  }

  /** Joins listing i with the owner of each identifier of the instrument it carries. */
  method JoinListing(parent: array<nat>, owner: map<Identifier, nat>, ls: seq<Returned>, ghost strict: bool, i: nat,
                     ghost roots: seq<nat>, ghost rank: seq<nat>, ghost done: set<(nat, Identifier)>)
      returns (owners: map<Identifier, nat>, ghost roots': seq<nat>, ghost rank': seq<nat>, ghost done': set<(nat, Identifier)>)
    requires IsForest(parent[..], roots, rank) && i + 1 == |roots| <= |ls|
    requires Gathered(ls, strict, owner, roots, done) && AllJoined(ls, i, done)
    requires strict ==> OneRoot(roots)
    modifies parent
    ensures IsForest(parent[..], roots', rank') && |roots'| == |roots|
    ensures Gathered(ls, strict, owners, roots', done') && AllJoined(ls, i + 1, done')
    ensures strict ==> OneRoot(roots')
  {
    owners, roots', rank', done' := owner, roots, rank, done;
    var ids := ls[i].identifiers;
    for m := 0 to |ids|
      invariant IsForest(parent[..], roots', rank') && |roots'| == |roots|
      invariant Gathered(ls, strict, owners, roots', done') && done <= done'
      invariant forall k :: 0 <= k < m && NamesInstr(ids[k]) ==> (i, ids[k]) in done'
      invariant strict ==> OneRoot(roots')
    {
      if NamesInstr(ids[m]) {
        owners, roots', rank' := JoinOne(parent, owners, ls, strict, i, ids[m], roots', rank', done');
        done' := done' + {(i, ids[m])};
      }
    }
  }

  /**
   * The listing that represents each listing's claim: two listings have one exactly where the
   * call was strict or a chain of shared identifiers of the instrument connects them.
   */
  method Partition(ls: seq<Returned>, strict: bool) returns (roots: seq<nat>)
    ensures |roots| == |ls|
    ensures forall i: nat, j: nat :: i < |ls| && j < |ls| ==> (roots[i] == roots[j] <==> Connected(OneClaim(ls, strict), i, j))
    ensures forall i :: 0 <= i < |ls| ==> roots[i] < |ls| && roots[roots[i]] == roots[i]
  {
    var parent := new nat[|ls|](_ => 0);
    var owner: map<Identifier, nat> := map[];
    ghost var g: seq<nat>, rank: seq<nat>, done: set<(nat, Identifier)> := [], [], {};
    for i := 0 to |ls|
      invariant |g| == i && IsForest(parent[..], g, rank)
      invariant Gathered(ls, strict, owner, g, done) && AllJoined(ls, i, done)
      invariant strict ==> OneRoot(g)
    {
      g, rank := StartListing(parent, owner, ls, strict, i, g, rank, done);
      owner, g, rank, done := JoinListing(parent, owner, ls, strict, i, g, rank, done);
    }
    forall i: nat, j: nat | i < |ls| && j < |ls|
      ensures g[i] == g[j] <==> Connected(OneClaim(ls, strict), i, j)
    {
      RootsConnect(ls, strict, owner, g, done, i, j);
    }
    roots := [];
    for i := 0 to |ls|
      invariant IsForest(parent[..], g, rank) && |roots| == i && roots == g[..i]
    {
      var root := Root(parent, g, rank, i);
      roots := roots + [root];
    }
    assert roots == g;
    forall i | 0 <= i < |ls|
      ensures g[i] < |ls| && g[g[i]] == g[i]
    {
      assert Placed(parent[..], g, rank, i);
    }
  }

  /** Makes listing i its own root, and joins it with the first listing of a strict call. */
  method StartListing(parent: array<nat>, ghost owner: map<Identifier, nat>, ls: seq<Returned>, strict: bool, i: nat,
                      ghost roots: seq<nat>, ghost rank: seq<nat>, ghost done: set<(nat, Identifier)>)
      returns (ghost roots': seq<nat>, ghost rank': seq<nat>)
    requires IsForest(parent[..], roots, rank) && i == |roots| < |ls| == parent.Length
    requires Gathered(ls, strict, owner, roots, done) && AllJoined(ls, i, done)
    requires strict ==> OneRoot(roots)
    modifies parent
    ensures IsForest(parent[..], roots', rank') && |roots'| == |roots| + 1
    ensures Gathered(ls, strict, owner, roots', done)
    ensures strict ==> OneRoot(roots')
  {
    GatheredNew(ls, strict, owner, roots, done);
    ghost var before := parent[..];
    parent[i] := i;
    assert parent[..] == before[i := i];
    roots', rank' := roots + [i], rank + [0];
    NewRoot(before, roots, rank, i);
    if strict {
      GatheredMerge(ls, strict, owner, roots', done, 0, i);
      rank' := Union(parent, roots', rank', 0, i);
      roots' := Merged(roots', 0, i);
    }
  }

  lemma NewRoot(parent: seq<nat>, roots: seq<nat>, rank: seq<nat>, i: nat)
    requires IsForest(parent, roots, rank) && i == |roots| < |parent|
    ensures IsForest(parent[i := i], roots + [i], rank + [0])
  {
    var next, g, r := parent[i := i], roots + [i], rank + [0];
    forall k: nat | k < |g|
      ensures Placed(next, g, r, k)
    {
      assert k < i ==> Placed(parent, roots, rank, k);
    }
  }

  // ----- A claim of its listings -----

  function AppendUnique(ids: seq<Identifier>, id: Identifier): seq<Identifier> {
    if id in ids then ids else ids + [id]
  }

  /** ids and then those of more that name the instrument, or that name a listing, each once. */
  function Append(ids: seq<Identifier>, more: seq<Identifier>, instr: bool): seq<Identifier> {
    if more == [] then ids else
      var rest := Append(ids, more[..|more| - 1], instr);
      var id := more[|more| - 1];
      if NamesInstr(id) == instr then AppendUnique(rest, id) else rest
  }

  function FamilyOf(families: map<string, string>, code: string): string {
    if code in families then families[code] else NO_FAMILY
  }

  function ListingOf(c: Claim, fam: string): Listing {
    if fam in c.listings then c.listings[fam] else Listing([], "")
  }

  predicate Known(assetClass: string) {
    assetClass != "" && assetClass != "unknown"
  }

  /** c with one more listing of family fam. */
  function Added(c: Claim, l: Returned, fam: string): Claim {
    var held := ListingOf(c, fam);
    c.(assetClass := if Known(c.assetClass) then c.assetClass else l.assetClass,
       identifiers := Append(c.identifiers, l.identifiers, true),
       listings := c.listings[fam := Listing(
         Append(held.identifiers, l.identifiers, false),
         if held.primary == "" then l.primary else held.primary)])
  }

  method Add(c: Claim, l: Returned, fam: string) returns (out: Claim)
    ensures out == Added(c, l, fam)
  {
    var assetClass := c.assetClass;
    if assetClass == "" || assetClass == "unknown" {
      assetClass := l.assetClass;
    }
    var held := ListingOf(c, fam);
    var instr, listing := c.identifiers, held.identifiers;
    var ids := l.identifiers;
    for k := 0 to |ids|
      invariant instr == Append(c.identifiers, ids[..k], true)
      invariant listing == Append(held.identifiers, ids[..k], false)
    {
      assert ids[..k + 1][..k] == ids[..k];
      if NamesInstr(ids[k]) {
        instr := AppendUnique(instr, ids[k]);
      } else {
        listing := AppendUnique(listing, ids[k]);
      }
    }
    assert ids[..|ids|] == ids;
    var primary := if held.primary == "" then l.primary else held.primary;
    out := c.(assetClass := assetClass, identifiers := instr, listings := c.listings[fam := Listing(listing, primary)]);
  }

  /** What an answer made of its first n listings for claim c, where at gives the claim of each listing. */
  function ClaimUpTo(ls: seq<Returned>, at: seq<nat>, answer: Answer, c: nat, n: nat): Claim
    requires n <= |ls| && n <= |at|
  {
    if n == 0 then Claim(Some(answer.origin), c, "", answer.strict, map[]) else
      var before := ClaimUpTo(ls, at, answer, c, n - 1);
      if at[n - 1] == c then Added(before, ls[n - 1], FamilyOf(answer.families, ls[n - 1].currency)) else before
  }

  /** What all claims of one answer share: its place, the identifiers of the instrument it was filtered on, the families. */
  datatype Answer = Answer(origin: nat, strict: seq<Identifier>, families: map<string, string>)

  lemma {:induction false} ClaimUpToPrefix(ls: seq<Returned>, at: seq<nat>, more: nat, answer: Answer, c: nat, n: nat)
    requires n <= |ls| && n <= |at|
    ensures ClaimUpTo(ls, at + [more], answer, c, n) == ClaimUpTo(ls, at, answer, c, n)
  {
    if n > 0 {
      ClaimUpToPrefix(ls, at, more, answer, c, n - 1);
    }
  }

  lemma {:induction false} NoListingYet(ls: seq<Returned>, at: seq<nat>, answer: Answer, c: nat, n: nat)
    requires n <= |ls| && n <= |at|
    requires forall i :: 0 <= i < n ==> at[i] != c
    ensures ClaimUpTo(ls, at, answer, c, n) == Claim(Some(answer.origin), c, "", answer.strict, map[])
  {
    if n > 0 {
      NoListingYet(ls, at, answer, c, n - 1);
    }
  }

  /** A claim knows the answer that made it and its place among the answer's claims. */
  lemma {:induction false} ClaimPlaced(ls: seq<Returned>, at: seq<nat>, answer: Answer, c: nat, n: nat)
    requires n <= |ls| && n <= |at|
    ensures ClaimUpTo(ls, at, answer, c, n).origin == Some(answer.origin) && ClaimUpTo(ls, at, answer, c, n).place == c
  {
    if n > 0 {
      ClaimPlaced(ls, at, answer, c, n - 1);
    }
  }

  /** The claims are numbered in the order of their first listings. */
  ghost predicate InFirstOrder(at: seq<nat>) {
    forall i, c: nat :: 0 <= i < |at| && c < at[i] ==> c in at[..i]
  }

  lemma FirstOrderAppend(at: seq<nat>, more: nat, count: nat)
    requires InFirstOrder(at)
    requires forall c: nat :: c < count ==> c in at
    requires more <= count
    ensures InFirstOrder(at + [more])
  {
    var next := at + [more];
    forall i, c: nat | 0 <= i < |next| && c < next[i]
      ensures c in next[..i]
    {
      if i < |at| {
        assert next[..i] == at[..i];
      } else {
        assert next[..i] == at;
      }
    }
  }

  /** out holds what the first n listings made of each claim. */
  ghost predicate Folded(ls: seq<Returned>, at: seq<nat>, answer: Answer, out: seq<Claim>, n: nat)
    requires n <= |ls| && n <= |at|
  {
    forall c: nat :: c < |out| ==> out[c] == ClaimUpTo(ls, at, answer, c, n)
  }

  function NewClaim(answer: Answer, c: nat): Claim {
    Claim(Some(answer.origin), c, "", answer.strict, map[])
  }

  lemma FoldedNew(ls: seq<Returned>, at: seq<nat>, answer: Answer, out: seq<Claim>, n: nat)
    requires n <= |ls| && n == |at| && Folded(ls, at, answer, out, n)
    requires forall c :: c in at ==> c < |out|
    ensures Folded(ls, at, answer, out + [NewClaim(answer, |out|)], n)
  {
    assert forall i :: 0 <= i < n ==> at[i] in at;
    NoListingYet(ls, at, answer, |out|, n);
  }

  lemma FoldedNext(ls: seq<Returned>, at: seq<nat>, answer: Answer, out: seq<Claim>, n: nat, c: nat, added: Claim)
    requires n < |ls| && n == |at| && Folded(ls, at, answer, out, n) && c < |out|
    requires added == Added(out[c], ls[n], FamilyOf(answer.families, ls[n].currency))
    ensures Folded(ls, at + [c], answer, out[c := added], n + 1)
  {
    var next := out[c := added];
    forall d: nat | d < |next|
      ensures next[d] == ClaimUpTo(ls, at + [c], answer, d, n + 1)
    {
      ClaimUpToPrefix(ls, at, c, answer, d, n);
    }
  }

  /**
   * out are the claims of the listings, at giving the claim of each: two listings fall in one
   * claim exactly where the call was strict or a chain connects them, the claims are in the
   * order of their first listings, and each is what its own listings fold into.
   */
  ghost predicate AreClaims(ls: seq<Returned>, answer: Answer, at: seq<nat>, out: seq<Claim>) {
    && |at| == |ls| && InFirstOrder(at)
    && (forall i: nat, j: nat :: i < |ls| && j < |ls| ==> (at[i] == at[j] <==> Connected(OneClaim(ls, answer.strict != []), i, j)))
    && (forall c: nat :: c < |out| <==> c in at)
    && Folded(ls, at, answer, out, |ls|)
  }

  /** The claims of an answer, each of its listings folded into its claim. */
  method Build(ls: seq<Returned>, answer: Answer) returns (out: seq<Claim>)
    ensures exists at :: AreClaims(ls, answer, at, out)
  {
    ghost var at: seq<nat>;
    var roots := Partition(ls, answer.strict != []);
    var byRoot: map<nat, nat> := map[];
    out, at := [], [];
    for i := 0 to |ls|
      invariant |at| == i && InFirstOrder(at)
      invariant forall r, q :: r in byRoot && q in byRoot && byRoot[r] == byRoot[q] ==> r == q
      invariant forall r :: r in byRoot ==> byRoot[r] < |out|
      invariant forall j :: 0 <= j < i ==> roots[j] in byRoot && at[j] == byRoot[roots[j]]
      invariant forall c: nat :: c < |out| <==> c in at
      invariant Folded(ls, at, answer, out, i)
    {
      if roots[i] !in byRoot {
        FoldedNew(ls, at, answer, out, i);
        FirstOrderAppend(at, |out|, |out|);
        byRoot := byRoot[roots[i] := |out|];
        out := out + [NewClaim(answer, |out|)];
      } else {
        FirstOrderAppend(at, byRoot[roots[i]], |out|);
      }
      var c := byRoot[roots[i]];
      var added := Add(out[c], ls[i], FamilyOf(answer.families, ls[i].currency));
      FoldedNext(ls, at, answer, out, i, c, added);
      out, at := out[c := added], at + [c];
    }
    assert AreClaims(ls, answer, at, out);
  }

  // ----- No identifier is lost -----

  predicate InClaim(ls: seq<Returned>, at: seq<nat>, c: nat, n: nat, i: nat) {
    i < n && i < |ls| && i < |at| && at[i] == c
  }

  predicate InListing(ls: seq<Returned>, at: seq<nat>, answer: Answer, c: nat, n: nat, fam: string, i: nat) {
    InClaim(ls, at, c, n, i) && FamilyOf(answer.families, ls[i].currency) == fam
  }

  ghost predicate HasFamily(ls: seq<Returned>, at: seq<nat>, answer: Answer, c: nat, n: nat, fam: string) {
    exists i: nat :: InListing(ls, at, answer, c, n, fam, i)
  }

  predicate HasListingId(l: Returned, id: Identifier) {
    id in l.identifiers && !NamesInstr(id)
  }

  lemma {:induction false} AppendHolds(ids: seq<Identifier>, more: seq<Identifier>, instr: bool)
    ensures forall id :: id in Append(ids, more, instr) <==> id in ids || (id in more && NamesInstr(id) == instr)
    ensures Distinct(ids) ==> Distinct(Append(ids, more, instr))
  {
    if more != [] {
      AppendHolds(ids, more[..|more| - 1], instr);
      assert more == more[..|more| - 1] + [more[|more| - 1]];
    }
  }

  predicate Distinct(ids: seq<Identifier>) {
    forall i, j :: 0 <= i < j < |ids| ==> ids[i] != ids[j]
  }

  /** A claim names the instrument by what its listings state and the call was filtered on, and by nothing else. */
  lemma {:induction false} ClaimIdentifiers(ls: seq<Returned>, at: seq<nat>, answer: Answer, c: nat, n: nat, id: Identifier)
    requires n <= |ls| && n <= |at|
    ensures id in ClaimUpTo(ls, at, answer, c, n).identifiers
            <==> id in answer.strict || exists i :: InClaim(ls, at, c, n, i) && Carries(ls, i, id)
  {
    if n > 0 {
      ClaimIdentifiers(ls, at, answer, c, n - 1, id);
      var before := ClaimUpTo(ls, at, answer, c, n - 1);
      AppendHolds(before.identifiers, ls[n - 1].identifiers, true);
      assert forall i :: InClaim(ls, at, c, n - 1, i) ==> InClaim(ls, at, c, n, i);
      assert forall i :: InClaim(ls, at, c, n, i) && !InClaim(ls, at, c, n - 1, i) ==> i == n - 1;
      assert at[n - 1] == c ==> InClaim(ls, at, c, n, n - 1);
    }
  }

  lemma LastFamily(ls: seq<Returned>, at: seq<nat>, answer: Answer, c: nat, n: nat, fam: string)
    requires 0 < n <= |ls| && n <= |at|
    ensures HasFamily(ls, at, answer, c, n, fam)
            <==> HasFamily(ls, at, answer, c, n - 1, fam) || InListing(ls, at, answer, c, n, fam, n - 1)
  {
    LastListing(ls, at, answer, c, n, fam);
    if HasFamily(ls, at, answer, c, n - 1, fam) {
      var i: nat :| InListing(ls, at, answer, c, n - 1, fam, i);
      assert InListing(ls, at, answer, c, n, fam, i);
    }
    if HasFamily(ls, at, answer, c, n, fam) {
      var i: nat :| InListing(ls, at, answer, c, n, fam, i);
      assert i == n - 1 || InListing(ls, at, answer, c, n - 1, fam, i);
    }
  }

  /** A claim has a listing of exactly the families its listings are of. */
  lemma {:induction false} ClaimFamilies(ls: seq<Returned>, at: seq<nat>, answer: Answer, c: nat, n: nat, fam: string)
    requires n <= |ls| && n <= |at|
    ensures fam in ClaimUpTo(ls, at, answer, c, n).listings <==> HasFamily(ls, at, answer, c, n, fam)
  {
    if n > 0 {
      ClaimFamilies(ls, at, answer, c, n - 1, fam);
      LastListing(ls, at, answer, c, n, fam);
      LastFamily(ls, at, answer, c, n, fam);
    }
  }

  lemma LastListing(ls: seq<Returned>, at: seq<nat>, answer: Answer, c: nat, n: nat, fam: string)
    requires 0 < n <= |ls| && n <= |at|
    ensures forall i: nat ::
              (InListing(ls, at, answer, c, n, fam, i)
               <==> InListing(ls, at, answer, c, n - 1, fam, i) || (i == n - 1 && InListing(ls, at, answer, c, n, fam, n - 1)))
    ensures InListing(ls, at, answer, c, n, fam, n - 1) <==> at[n - 1] == c && FamilyOf(answer.families, ls[n - 1].currency) == fam
  {
  }

  /** A claim's listing of a family has exactly the identifiers that the listings of that family state. */
  lemma {:induction false} ClaimListings(ls: seq<Returned>, at: seq<nat>, answer: Answer, c: nat, n: nat, fam: string, id: Identifier)
    requires n <= |ls| && n <= |at|
    ensures id in ListingOf(ClaimUpTo(ls, at, answer, c, n), fam).identifiers
            <==> exists i: nat :: InListing(ls, at, answer, c, n, fam, i) && HasListingId(ls[i], id)
  {
    if n > 0 {
      ClaimListings(ls, at, answer, c, n - 1, fam, id);
      LastListing(ls, at, answer, c, n, fam);
      AppendHolds(ListingOf(ClaimUpTo(ls, at, answer, c, n - 1), fam).identifiers, ls[n - 1].identifiers, false);
    }
  }

  /** No identifier is in a claim twice, unless the call was filtered on it twice. */
  lemma {:induction false} ClaimDistinct(ls: seq<Returned>, at: seq<nat>, answer: Answer, c: nat, n: nat, fam: string)
    requires n <= |ls| && n <= |at|
    ensures Distinct(ListingOf(ClaimUpTo(ls, at, answer, c, n), fam).identifiers)
    ensures Distinct(answer.strict) ==> Distinct(ClaimUpTo(ls, at, answer, c, n).identifiers)
  {
    if n > 0 {
      ClaimDistinct(ls, at, answer, c, n - 1, fam);
      var before := ClaimUpTo(ls, at, answer, c, n - 1);
      AppendHolds(before.identifiers, ls[n - 1].identifiers, true);
      AppendHolds(ListingOf(before, fam).identifiers, ls[n - 1].identifiers, false);
    }
  }

  /** i is the first listing of the claim that states a class. */
  ghost predicate FirstToStateClass(ls: seq<Returned>, at: seq<nat>, c: nat, n: nat, i: nat) {
    InClaim(ls, at, c, n, i) && Known(ls[i].assetClass) && forall j: nat :: j < i && InClaim(ls, at, c, n, j) ==> !Known(ls[j].assetClass)
  }

  /** i is the first listing of the claim's family that states a primary venue. */
  ghost predicate FirstToStatePrimary(ls: seq<Returned>, at: seq<nat>, answer: Answer, c: nat, n: nat, fam: string, i: nat) {
    && InListing(ls, at, answer, c, n, fam, i) && ls[i].primary != ""
    && forall j: nat :: j < i && InListing(ls, at, answer, c, n, fam, j) ==> ls[j].primary == ""
  }

  /** The first listing to state a class sets the claim's, which is unknown where none does. */
  lemma {:induction false} FirstClass(ls: seq<Returned>, at: seq<nat>, answer: Answer, c: nat, n: nat, i: nat)
    requires n <= |ls| && n <= |at|
    ensures var assetClass := ClaimUpTo(ls, at, answer, c, n).assetClass;
      && (FirstToStateClass(ls, at, c, n, i) ==> assetClass == ls[i].assetClass)
      && ((forall j: nat :: InClaim(ls, at, c, n, j) ==> ls[j].assetClass in {"", "unknown"}) ==> assetClass in {"", "unknown"})
  {
    if n > 0 {
      FirstClass(ls, at, answer, c, n - 1, i);
      assert forall j: nat :: InClaim(ls, at, c, n - 1, j) ==> InClaim(ls, at, c, n, j);
      assert at[n - 1] == c ==> InClaim(ls, at, c, n, n - 1);
    }
  }

  /** A claim has a listing of a family iff one of its listings is in a currency of it, and one of none iff one is in a currency of none. */
  lemma FamiliesAre(ls: seq<Returned>, at: seq<nat>, answer: Answer, c: nat, n: nat, fam: string)
    requires n <= |ls| && n <= |at|
    ensures fam in ClaimUpTo(ls, at, answer, c, n).listings
       <==> exists i: nat :: i < n && at[i] == c && OfFamily(answer.families, ls[i].currency, fam)
  {
    ClaimFamilies(ls, at, answer, c, n, fam);
    forall i: nat
      ensures InListing(ls, at, answer, c, n, fam, i) <==> i < n && at[i] == c && OfFamily(answer.families, ls[i].currency, fam)
    {
    }
  }

  predicate OfFamily(families: map<string, string>, code: string, fam: string) {
    (code in families && families[code] == fam) || (code !in families && fam == "")
  }

  /** The first listing of a family to state a primary venue sets the claim's listing's, which is empty where none does. */
  lemma {:induction false} FirstPrimary(ls: seq<Returned>, at: seq<nat>, answer: Answer, c: nat, n: nat, fam: string, i: nat)
    requires n <= |ls| && n <= |at|
    ensures var primary := ListingOf(ClaimUpTo(ls, at, answer, c, n), fam).primary;
      && (FirstToStatePrimary(ls, at, answer, c, n, fam, i) ==> primary == ls[i].primary)
      && ((forall j: nat :: InListing(ls, at, answer, c, n, fam, j) ==> ls[j].primary == "") ==> primary == "")
  {
    if n > 0 {
      FirstPrimary(ls, at, answer, c, n - 1, fam, i);
      assert forall j: nat :: InListing(ls, at, answer, c, n - 1, fam, j) ==> InListing(ls, at, answer, c, n, fam, j);
      assert at[n - 1] == c && FamilyOf(answer.families, ls[n - 1].currency) == fam ==> InListing(ls, at, answer, c, n, fam, n - 1);
    }
  }

  /** Two claims of one call that was not strict share no identifier of the instrument. */
  lemma ClaimsShareNothing(ls: seq<Returned>, answer: Answer, at: seq<nat>, out: seq<Claim>, c: nat, d: nat, id: Identifier)
    requires AreClaims(ls, answer, at, out) && answer.strict == []
    requires c < |out| && d < |out| && c != d
    ensures !(id in out[c].identifiers && id in out[d].identifiers)
  {
    ClaimIdentifiers(ls, at, answer, c, |ls|, id);
    ClaimIdentifiers(ls, at, answer, d, |ls|, id);
    forall i: nat, j: nat | InClaim(ls, at, c, |ls|, i) && InClaim(ls, at, d, |ls|, j)
      ensures !(Carries(ls, i, id) && Carries(ls, j, id))
    {
      if Carries(ls, i, id) && Carries(ls, j, id) {
        ConnectedLink(OneClaim(ls, false), i, j);
      }
    }
  }
}
