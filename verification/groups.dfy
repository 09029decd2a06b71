/** A user's keys gathered into the holdings that sum them (identity/group/group.go). */
module Groups {
  import opened Chains
  import opened Identifiers

  /** An id is its place in the order of minting. */
  datatype StatedKey = StatedKey(id: nat, identifiers: seq<Identifier>)

  // ----- What groups are -----

  /** Two keys state one joining identifier. */
  ghost predicate Share(keys: seq<StatedKey>, a: nat, b: nat) {
    exists k, l, i :: StatesBoth(keys, k, l, i) && k.id == a && l.id == b
  }

  predicate States(keys: seq<StatedKey>, k: StatedKey, i: Identifier) {
    k in keys && i in k.identifiers && Joining(i)
  }

  predicate StatesBoth(keys: seq<StatedKey>, k: StatedKey, l: StatedKey, i: Identifier) {
    States(keys, k, i) && States(keys, l, i)
  }

  /** Both keys state the identifier, which is of a worldwide type or has its domain. */
  predicate BothState(keys: seq<StatedKey>, k: StatedKey, l: StatedKey, i: Identifier) {
    k in keys && l in keys && i in k.identifiers && i in l.identifiers && (i.kind in WORLDWIDE || i.domain != "")
  }

  lemma ShareIs(keys: seq<StatedKey>, a: nat, b: nat)
    ensures Share(keys, a, b) <==> exists k, l, i :: BothState(keys, k, l, i) && k.id == a && l.id == b
  {
    forall k, l, i
      ensures StatesBoth(keys, k, l, i) <==> BothState(keys, k, l, i)
    {
      TypesAre(i);
    }
  }

  ghost function Sharing(keys: seq<StatedKey>): (nat, nat) -> bool {
    (a: nat, b: nat) => Share(keys, a, b)
  }

  lemma SharingSymmetric(keys: seq<StatedKey>)
    ensures Symmetric(Sharing(keys))
  {
    forall a, b | Share(keys, a, b)
      ensures Share(keys, b, a)
    {
      var k, l, i :| StatesBoth(keys, k, l, i) && k.id == a && l.id == b;
      assert StatesBoth(keys, l, k, i);
    }
  }

  /** m is the least id that a chain of shared identifiers connects with a. */
  ghost predicate LeastConnected(keys: seq<StatedKey>, a: nat, m: nat) {
    && Connected(Sharing(keys), a, m)
    && forall b :: Connected(Sharing(keys), a, b) ==> m <= b
  }

  /** The order of the keys never changes a group. */
  lemma GroupsIgnoreOrder(xs: seq<StatedKey>, ys: seq<StatedKey>, a: nat, m: nat)
    requires forall k :: k in xs <==> k in ys
    ensures LeastConnected(xs, a, m) <==> LeastConnected(ys, a, m)
  {
    forall b, c
      ensures Sharing(xs)(b, c) <==> Sharing(ys)(b, c)
    {
      assert forall k, l, i :: StatesBoth(xs, k, l, i) <==> StatesBoth(ys, k, l, i);
    }
    forall b
      ensures Connected(Sharing(xs), a, b) <==> Connected(Sharing(ys), a, b)
    {
      assert forall p :: ChainFrom(Sharing(xs), p, a, b) <==> ChainFrom(Sharing(ys), p, a, b);
    }
  }

  // ----- The forest of parents -----

  /** k's parent is no greater than k, and leads to the root of k's component. */
  ghost predicate Placed(parent: map<nat, nat>, roots: map<nat, nat>, k: nat) {
    && k in parent && k in roots
    && parent[k] in parent && parent[k] <= k
    && roots[k] in parent && roots[k] <= k
    && parent[k] in roots && roots[parent[k]] == roots[k]
    && (parent[k] == k <==> roots[k] == k)
  }

  /** roots gives the root of each key's component: the parents are a forest. */
  ghost predicate IsForest(parent: map<nat, nat>, roots: map<nat, nat>) {
    && roots.Keys == parent.Keys
    && forall k {:trigger Placed(parent, roots, k)} :: k in parent ==> Placed(parent, roots, k)
  }

  /** Pointing a key at its grandparent changes no component. */
  lemma Halved(parent: map<nat, nat>, roots: map<nat, nat>, x: nat)
    requires IsForest(parent, roots) && x in parent
    ensures Placed(parent, roots, x) && Placed(parent, roots, parent[x])
    ensures IsForest(parent[x := parent[parent[x]]], roots)
  {
    assert Placed(parent, roots, x) && Placed(parent, roots, parent[x]);
    assert Placed(parent, roots, parent[parent[x]]);
    var next := parent[x := parent[parent[x]]];
    forall k | k in next
      ensures Placed(next, roots, k)
    {
      assert Placed(parent, roots, k);
    }
  }

  /** Pointing the greater of two roots at the smaller merges their components. */
  lemma Linked(parent: map<nat, nat>, roots: map<nat, nat>, a: nat, b: nat, lo: nat, hi: nat)
    requires IsForest(parent, roots) && a in parent && b in parent
    requires roots[a] != roots[b] && (if roots[a] < roots[b] then lo == roots[a] && hi == roots[b] else lo == roots[b] && hi == roots[a])
    ensures IsForest(parent[hi := lo], Merged(roots, a, b))
  {
    assert Placed(parent, roots, a) && Placed(parent, roots, b);
    RootOf(parent, roots, a);
    RootOf(parent, roots, b);
    var next, merged := parent[hi := lo], Merged(roots, a, b);
    forall k | k in next
      ensures Placed(next, merged, k)
    {
      LinkedAt(parent, roots, a, b, lo, hi, k);
    }
  }

  lemma LinkedAt(parent: map<nat, nat>, roots: map<nat, nat>, a: nat, b: nat, lo: nat, hi: nat, k: nat)
    requires IsForest(parent, roots) && a in parent && b in parent && k in parent
    requires roots[a] != roots[b] && (if roots[a] < roots[b] then lo == roots[a] && hi == roots[b] else lo == roots[b] && hi == roots[a])
    requires lo in parent && hi in parent && roots[lo] == lo && roots[hi] == hi
    ensures Placed(parent[hi := lo], Merged(roots, a, b), k)
  {
    assert Placed(parent, roots, k);
    assert Placed(parent, roots, hi);
    assert Placed(parent, roots, lo);
    var merged := Merged(roots, a, b);
    assert merged.Keys == parent.Keys;
    assert merged[k] == if roots[k] == hi then lo else roots[k];
    assert merged[parent[k]] == if roots[k] == hi then lo else roots[k];
    assert merged[lo] == lo;
  }

  lemma {:induction false} RootOf(parent: map<nat, nat>, roots: map<nat, nat>, k: nat)
    requires IsForest(parent, roots) && k in parent
    ensures roots[k] in parent && roots[roots[k]] == roots[k]
    decreases k
  {
    assert Placed(parent, roots, k);
    if parent[k] != k {
      RootOf(parent, roots, parent[k]);
    }
  }

  /**
   * The two maps of the program: each key's parent, and the first key that states each
   * identifier. `roots` gives the root of each key's component.
   */
  class Forest {
    var parent: map<nat, nat>
    var first: map<Identifier, nat>
    ghost var roots: map<nat, nat>

    ghost predicate Valid()
      reads this
    {
      IsForest(parent, roots) && forall i :: i in first ==> first[i] in parent
    }

    /** A forest in which every key is its own root. */
    constructor (keys: seq<StatedKey>)
      ensures Valid()
      ensures parent.Keys == Ids(keys) && first == map[]
      ensures forall k :: k in roots ==> roots[k] == k
    {
      var ids := Ids(keys);
      parent := map id | id in ids :: id;
      first := map[];
      roots := map id | id in ids :: id;
    }

    /** The root of k's component, halving the path it walks, which changes no component. */
    method Find(k: nat) returns (root: nat)
      requires Valid() && k in parent
      modifies this`parent
      ensures Valid() && parent.Keys == old(parent.Keys)
      ensures root == roots[k] && root in parent
    {
      var x := k;
      assert Placed(parent, roots, x);
      while parent[x] != x
        invariant Valid() && parent.Keys == old(parent.Keys)
        invariant x in parent && roots[x] == roots[k] && Placed(parent, roots, x)
        decreases x
      {
        Halved(parent, roots, x);
        parent := parent[x := parent[parent[x]]];
        assert Placed(parent, roots, x);
        x := parent[x];
        assert Placed(parent, roots, x);
      }
      root := x;
    }

    /** Joins the components of a and b under the smaller of their roots. */
    method Union(a: nat, b: nat)
      requires Valid() && a in parent && b in parent
      modifies this`parent, this`roots
      ensures Valid() && parent.Keys == old(parent.Keys)
      ensures roots == Merged(old(roots), a, b)
    {
      var ra := Find(a);
      var rb := Find(b);
      if ra == rb {
        return;
      }
      if ra > rb {
        ra, rb := rb, ra;
      }
      Linked(parent, roots, a, b, ra, rb);
      parent, roots := parent[rb := ra], Merged(roots, a, b);
    }

    /** Unions id with the first key that states i. */
    method Join(i: Identifier, id: nat)
      requires Valid() && id in parent
      modifies this
      ensures Valid() && parent.Keys == old(parent.Keys)
      ensures i in old(first) ==> first == old(first) && roots == Merged(old(roots), old(first[i]), id)
      ensures i !in old(first) ==> first == old(first)[i := id] && roots == old(roots)
    {
      if i in first {
        Union(first[i], id);
      } else {
        first := first[i := id];
      }
    }
  }

  /** The roots after the components of a and b become one, named by the smaller. */
  ghost function Merged(roots: map<nat, nat>, a: nat, b: nat): map<nat, nat>
    requires a in roots && b in roots
  {
    var least := if roots[a] <= roots[b] then roots[a] else roots[b];
    map x | x in roots :: if roots[x] == roots[a] || roots[x] == roots[b] then least else roots[x]
  }

  // ----- The loop over the keys -----

  ghost predicate RootReached(keys: seq<StatedKey>, roots: map<nat, nat>, x: nat) {
    x in roots && roots[x] <= x && Connected(Sharing(keys), x, roots[x])
  }

  /** The key id is in the component of the first key that states i, which it states too. */
  ghost predicate PairJoined(keys: seq<StatedKey>, first: map<Identifier, nat>, roots: map<nat, nat>, id: nat, i: Identifier) {
    && id in roots && i in first && first[i] in roots && roots[id] == roots[first[i]]
    && exists k :: States(keys, k, i) && k.id == id
  }

  /** Each root is connected with the keys below it, and every pair seen so far is joined. */
  ghost predicate Grouped(keys: seq<StatedKey>, done: set<(nat, Identifier)>, first: map<Identifier, nat>, roots: map<nat, nat>) {
    && (forall x {:trigger RootReached(keys, roots, x)} :: x in roots ==> RootReached(keys, roots, x))
    && (forall i :: i in first ==> (first[i], i) in done)
    && (forall id, i {:trigger PairJoined(keys, first, roots, id, i)} :: (id, i) in done ==> PairJoined(keys, first, roots, id, i))
  }

  lemma GroupedJoin(keys: seq<StatedKey>, done: set<(nat, Identifier)>, first: map<Identifier, nat>, roots: map<nat, nat>, k: StatedKey, i: Identifier)
    requires Grouped(keys, done, first, roots) && States(keys, k, i) && k.id in roots
    ensures i in first ==> first[i] in roots && Grouped(keys, done + {(k.id, i)}, first, Merged(roots, first[i], k.id))
    ensures i !in first ==> Grouped(keys, done + {(k.id, i)}, first[i := k.id], roots)
  {
    if i in first {
      var a, b := first[i], k.id;
      assert PairJoined(keys, first, roots, a, i);
      var l :| States(keys, l, i) && l.id == a;
      assert StatesBoth(keys, l, k, i);
      var next := Merged(roots, a, b);
      forall x | x in next
        ensures RootReached(keys, next, x)
      {
        MergedConnected(keys, roots, a, b, x);
      }
      forall id, j | (id, j) in done + {(k.id, i)}
        ensures PairJoined(keys, first, next, id, j)
      {
        assert (id, j) in done ==> PairJoined(keys, first, roots, id, j);
      }
    } else {
      forall id, j | (id, j) in done + {(k.id, i)}
        ensures PairJoined(keys, first[i := k.id], roots, id, j)
      {
        assert (id, j) in done ==> PairJoined(keys, first, roots, id, j);
      }
    }
  }

  /** A merged root is connected with the key it is the root of. */
  lemma MergedConnected(keys: seq<StatedKey>, roots: map<nat, nat>, a: nat, b: nat, x: nat)
    requires a in roots && b in roots && x in roots && Share(keys, a, b)
    requires forall y {:trigger RootReached(keys, roots, y)} :: y in roots ==> RootReached(keys, roots, y)
    ensures RootReached(keys, Merged(roots, a, b), x)
  {
    assert RootReached(keys, roots, a) && RootReached(keys, roots, b) && RootReached(keys, roots, x);
    var link := Sharing(keys);
    SharingSymmetric(keys);
    ConnectedLink(link, a, b);
    ConnectedBack(link, a, b);
    ConnectedBack(link, a, roots[a]);
    ConnectedBack(link, b, roots[b]);
    ConnectedThrough(link, roots[a], a, b);
    ConnectedThrough(link, roots[a], b, roots[b]);
    ConnectedThrough(link, roots[b], b, a);
    ConnectedThrough(link, roots[b], a, roots[a]);
    if roots[x] == roots[a] {
      ConnectedThrough(link, x, roots[a], roots[b]);
    }
    if roots[x] == roots[b] {
      ConnectedThrough(link, x, roots[b], roots[a]);
    }
  }

  /** Once every pair is joined, a root is the least id connected with the keys below it. */
  lemma GroupedLeast(keys: seq<StatedKey>, done: set<(nat, Identifier)>, first: map<Identifier, nat>, roots: map<nat, nat>, a: nat)
    requires Grouped(keys, done, first, roots) && a in roots
    requires AllSeen(keys, |keys|, done)
    requires forall k :: k in keys ==> k.id in roots
    ensures LeastConnected(keys, a, roots[a])
  {
    assert RootReached(keys, roots, a);
    var f := (x: nat) => if x in roots then roots[x] else x;
    forall x, y | Sharing(keys)(x, y)
      ensures f(x) == f(y) && x in roots && y in roots
    {
      var k, l, i :| StatesBoth(keys, k, l, i) && k.id == x && l.id == y;
      assert (x, i) in done && (y, i) in done;
      assert PairJoined(keys, first, roots, x, i) && PairJoined(keys, first, roots, y, i);
    }
    forall b | Connected(Sharing(keys), a, b)
      ensures roots[a] <= b
    {
      var p :| ChainFrom(Sharing(keys), p, a, b);
      ConnectedKeeps(Sharing(keys), f, p);
      assert b in roots ==> RootReached(keys, roots, b);
    }
  }

  lemma AllSeparate(keys: seq<StatedKey>, roots: map<nat, nat>)
    requires forall k :: k in roots ==> roots[k] == k
    ensures Grouped(keys, {}, map[], roots)
  {
    forall x | x in roots
      ensures RootReached(keys, roots, x)
    {
      ConnectedSelf(Sharing(keys), x);
    }
  }

  /** Every joining identifier of the first n keys is seen. */
  ghost predicate AllSeen(keys: seq<StatedKey>, n: nat, done: set<(nat, Identifier)>) {
    forall k, i :: 0 <= k < n && k < |keys| && i in keys[k].identifiers && Joining(i) ==> (keys[k].id, i) in done
  }

  /** Joins key k with the first key that states each of its joining identifiers. */
  method JoinKey(forest: Forest, ghost keys: seq<StatedKey>, k: StatedKey, ghost done: set<(nat, Identifier)>)
      returns (ghost next: set<(nat, Identifier)>)
    requires forest.Valid() && k in keys && k.id in forest.parent
    requires Grouped(keys, done, forest.first, forest.roots)
    modifies forest
    ensures forest.Valid() && forest.parent.Keys == old(forest.parent.Keys)
    ensures Grouped(keys, next, forest.first, forest.roots)
    ensures done <= next && forall i :: i in k.identifiers && Joining(i) ==> (k.id, i) in next
  {
    next := done;
    for m := 0 to |k.identifiers|
      invariant forest.Valid() && forest.parent.Keys == old(forest.parent.Keys)
      invariant Grouped(keys, next, forest.first, forest.roots)
      invariant done <= next && forall j :: 0 <= j < m && Joining(k.identifiers[j]) ==> (k.id, k.identifiers[j]) in next
    {
      var i := k.identifiers[m];
      if Joining(i) {
        GroupedJoin(keys, next, forest.first, forest.roots, k, i);
        forest.Join(i, k.id);
        next := next + {(k.id, i)};
      }
    }
  }

  function Ids(keys: seq<StatedKey>): (r: set<nat>)
    ensures forall k :: k in keys ==> k.id in r
  {
    set k | k in keys :: k.id
  }

  /** The root of each key. */
  method RootsOf(forest: Forest, keys: seq<StatedKey>) returns (out: map<nat, nat>)
    requires forest.Valid() && forest.parent.Keys == Ids(keys)
    modifies forest`parent
    ensures out == forest.roots
  {
    out := map[];
    for n := 0 to |keys|
      invariant forest.Valid() && forest.parent.Keys == Ids(keys)
      invariant forall k :: 0 <= k < n ==> keys[k].id in out
      invariant forall a :: a in out ==> a in forest.roots && out[a] == forest.roots[a]
    {
      var root := forest.Find(keys[n].id);
      out := out[keys[n].id := root];
    }
    assert out.Keys == forest.roots.Keys;
  }

  /**
   * The group of each key: the id of the earliest key that shares a joining identifier
   * with it, however long the chain.
   */
  method Of(keys: seq<StatedKey>) returns (out: map<nat, nat>)
    ensures out.Keys == Ids(keys)
    ensures forall a :: a in out ==> LeastConnected(keys, a, out[a])
  {
    var forest := new Forest(keys);
    ghost var done: set<(nat, Identifier)> := {};
    AllSeparate(keys, forest.roots);
    for n := 0 to |keys|
      invariant fresh(forest) && forest.Valid() && forest.parent.Keys == Ids(keys)
      invariant Grouped(keys, done, forest.first, forest.roots)
      invariant AllSeen(keys, n, done)
    {
      done := JoinKey(forest, keys, keys[n], done);
    }
    ghost var first := forest.first;
    out := RootsOf(forest, keys);
    forall a | a in out
      ensures LeastConnected(keys, a, out[a])
    {
      GroupedLeast(keys, done, first, out, a);
    }
  }
}
