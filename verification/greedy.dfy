/**
 * Greedy selection below a head: one member at most from each group in turn, the best of those
 * that the members above it do not reject. One chain alone, and every set at once.
 */
module Greedy {
  import opened Options
  import opened Sorting
  import opened Ranking

  /** The values that pass f, in their order. */
  function Kept<T(!new)>(f: T -> bool, xs: seq<T>): (r: seq<T>)
    ensures forall x :: x in r <==> x in xs && f(x)
  {
    if xs == [] then [] else
      var n := |xs| - 1;
      assert xs == xs[..n] + [xs[n]];
      Kept(f, xs[..n]) + if f(xs[n]) then [xs[n]] else []
  }

  lemma {:induction false} KeptAll<T(!new)>(f: T -> bool, xs: seq<T>)
    requires forall x :: x in xs ==> f(x)
    ensures Kept(f, xs) == xs
  {
    if xs != [] {
      var n := |xs| - 1;
      assert xs == xs[..n] + [xs[n]];
      KeptAll(f, xs[..n]);
    }
  }

  lemma KeptNext<T(!new)>(f: T -> bool, xs: seq<T>, n: nat)
    requires n < |xs|
    ensures Kept(f, xs[..n + 1]) == if f(xs[n]) then Kept(f, xs[..n]) + [xs[n]] else Kept(f, xs[..n])
  {
    assert xs[..n + 1][..n] == xs[..n];
  }

  function Accepting<T(!new)>(rejects: (T, seq<T>) -> bool, a: seq<T>): T -> bool {
    x => !rejects(x, a)
  }

  function Accepted<T(!new)>(rejects: (T, seq<T>) -> bool, a: seq<T>, group: seq<T>): seq<T> {
    Kept(Accepting(rejects, a), group)
  }

  /** What a takes from a group: the best of those it does not reject, if there is one. */
  function Taken<T(!new)>(rejects: (T, seq<T>) -> bool, le: (T, T) -> bool, a: seq<T>, group: seq<T>): Option<T> {
    BestOf(le, Accepted(rejects, a, group))
  }

  function Extended<T(!new)>(rejects: (T, seq<T>) -> bool, le: (T, T) -> bool, a: seq<T>, group: seq<T>): seq<T> {
    match Taken(rejects, le, a, group)
    case None => a
    case Some(x) => a + [x]
  }

  /** The chain that start grows into through the groups. */
  function Chain<T(!new)>(rejects: (T, seq<T>) -> bool, le: (T, T) -> bool, start: seq<T>, groups: seq<seq<T>>): seq<T> {
    if groups == [] then start else
      var n := |groups| - 1;
      Extended(rejects, le, Chain(rejects, le, start, groups[..n]), groups[n])
  }

  /** Some set takes x from the group. */
  predicate Joins<T(!new,==)>(rejects: (T, seq<T>) -> bool, le: (T, T) -> bool, sets: seq<seq<T>>, group: seq<T>, x: T) {
    exists i :: 0 <= i < |sets| && Taken(rejects, le, sets[i], group) == Some(x)
  }

  function JoinsNone<T(!new,==)>(rejects: (T, seq<T>) -> bool, le: (T, T) -> bool, sets: seq<seq<T>>, group: seq<T>): T -> bool {
    x => !Joins(rejects, le, sets, group, x)
  }

  function Heads<T(!new)>(xs: seq<T>): (r: seq<seq<T>>)
    ensures |r| == |xs| && forall i :: 0 <= i < |xs| ==> r[i] == [xs[i]]
  {
    seq(|xs|, i requires 0 <= i < |xs| => [xs[i]])
  }

  function AllExtended<T(!new)>(rejects: (T, seq<T>) -> bool, le: (T, T) -> bool, sets: seq<seq<T>>, group: seq<T>): (r: seq<seq<T>>)
    ensures |r| == |sets| && forall i :: 0 <= i < |sets| ==> r[i] == Extended(rejects, le, sets[i], group)
  {
    seq(|sets|, i requires 0 <= i < |sets| => Extended(rejects, le, sets[i], group))
  }

  function Joined<T(!new,==)>(rejects: (T, seq<T>) -> bool, le: (T, T) -> bool, sets: seq<seq<T>>, group: seq<T>): seq<seq<T>> {
    AllExtended(rejects, le, sets, group) + Heads(Kept(JoinsNone(rejects, le, sets, group), group))
  }

  /** The sets the groups form: each set takes its member, and what joins none heads a new set. */
  function Sets<T(!new,==)>(rejects: (T, seq<T>) -> bool, le: (T, T) -> bool, groups: seq<seq<T>>): seq<seq<T>> {
    if groups == [] then [] else
      var n := |groups| - 1;
      Joined(rejects, le, Sets(rejects, le, groups[..n]), groups[n])
  }

  lemma ChainNext<T(!new)>(rejects: (T, seq<T>) -> bool, le: (T, T) -> bool, start: seq<T>, groups: seq<seq<T>>, n: nat)
    requires 0 < n <= |groups|
    ensures Chain(rejects, le, start, groups[..n]) == Extended(rejects, le, Chain(rejects, le, start, groups[..n - 1]), groups[n - 1])
  {
    assert groups[..n][..n - 1] == groups[..n - 1];
  }

  // ----- The chain is one of the sets -----

  /** i is the place of the set that is the chain; both are empty together. */
  ghost predicate IsSet<T(!new)>(chain: seq<T>, sets: seq<seq<T>>) {
    if chain == [] then sets == [] else chain in sets
  }

  /** The chain grown from nothing is the set gathered on the same head. */
  lemma {:induction false} ChainIsSet<T(!new)>(rejects: (T, seq<T>) -> bool, le: (T, T) -> bool, groups: seq<seq<T>>)
    requires TotalPreorder(le)
    requires forall x :: !rejects(x, [])
    ensures IsSet(Chain(rejects, le, [], groups), Sets(rejects, le, groups))
  {
    if groups != [] {
      var n := |groups| - 1;
      ChainIsSet(rejects, le, groups[..n]);
      StepIsSet(rejects, le, Chain(rejects, le, [], groups[..n]), Sets(rejects, le, groups[..n]), groups[n]);
    }
  }

  lemma {:induction false} BestIsOne<T(!new)>(le: (T, T) -> bool, xs: seq<T>)
    requires xs != []
    ensures BestOf(le, xs).Some? && BestOf(le, xs).value in xs
  {
    if |xs| > 1 {
      BestIsOne(le, xs[..|xs| - 1]);
    }
  }

  lemma AcceptsAll<T(!new)>(rejects: (T, seq<T>) -> bool, group: seq<T>)
    requires forall x :: !rejects(x, [])
    ensures Accepted(rejects, [], group) == group
  {
    KeptAll(Accepting(rejects, []), group);
  }

  lemma AllHead<T(!new)>(rejects: (T, seq<T>) -> bool, le: (T, T) -> bool, group: seq<T>)
    ensures Joined(rejects, le, [], group) == Heads(group)
  {
    KeptAll(JoinsNone(rejects, le, [], group), group);
  }

  /** The first group that holds anything: each of its values heads a set, the best of them the chain. */
  lemma FirstStep<T(!new)>(rejects: (T, seq<T>) -> bool, le: (T, T) -> bool, group: seq<T>)
    requires forall x :: !rejects(x, [])
    ensures IsSet(Extended(rejects, le, [], group), Joined(rejects, le, [], group))
  {
    AcceptsAll(rejects, group);
    AllHead(rejects, le, group);
    if group != [] {
      BestIsOne(le, group);
      var i :| 0 <= i < |group| && group[i] == BestOf(le, group).value;
      var heads := Heads(group);
      assert Taken(rejects, le, [], group) == Some(group[i]);
      assert heads[i] == [group[i]] == Extended(rejects, le, [], group);
      assert heads[i] in heads;
    }
  }

  lemma StepIsSet<T(!new)>(rejects: (T, seq<T>) -> bool, le: (T, T) -> bool, chain: seq<T>, sets: seq<seq<T>>, group: seq<T>)
    requires TotalPreorder(le)
    requires forall x :: !rejects(x, [])
    requires IsSet(chain, sets)
    ensures IsSet(Extended(rejects, le, chain, group), Joined(rejects, le, sets, group))
  {
    if chain == [] {
      FirstStep(rejects, le, group);
    } else {
      var i :| 0 <= i < |sets| && sets[i] == chain;
      var next := Joined(rejects, le, sets, group);
      assert next[i] == Extended(rejects, le, chain, group);
      assert next[i] in next;
    }
  }

  // ----- What every set is -----

  /** The groups come from ever later sources, each from one. */
  ghost predicate FromSources<T(!new)>(source: T -> int, groups: seq<seq<T>>) {
    && (forall k, x, y :: 0 <= k < |groups| && x in groups[k] && y in groups[k] ==> source(x) == source(y))
    && (forall j, k, x, y :: 0 <= j < k < |groups| && x in groups[j] && y in groups[k] ==> source(x) < source(y))
  }

  /** Each member comes from a later source than those above it, which do not reject it. */
  ghost predicate Consistent<T(!new)>(rejects: (T, seq<T>) -> bool, source: T -> int, a: seq<T>) {
    && a != []
    && (forall i, j :: 0 <= i < j < |a| ==> source(a[i]) < source(a[j]))
    && (forall i :: 0 < i < |a| ==> !rejects(a[i], a[..i]))
  }

  ghost predicate Within<T(!new)>(groups: seq<seq<T>>, a: seq<T>) {
    forall x :: x in a ==> exists k :: 0 <= k < |groups| && x in groups[k]
  }

  lemma {:induction false} SetsConsistent<T(!new)>(rejects: (T, seq<T>) -> bool, le: (T, T) -> bool, source: T -> int, groups: seq<seq<T>>)
    requires TotalPreorder(le) && FromSources(source, groups)
    ensures forall a :: a in Sets(rejects, le, groups) ==> Consistent(rejects, source, a) && Within(groups, a)
  {
    if groups != [] {
      var n := |groups| - 1;
      SetsConsistent(rejects, le, source, groups[..n]);
      var sets, group := Sets(rejects, le, groups[..n]), groups[n];
      forall a | a in Joined(rejects, le, sets, group)
        ensures Consistent(rejects, source, a) && Within(groups, a)
      {
        if i :| 0 <= i < |sets| && a == Extended(rejects, le, sets[i], group) {
          ExtendedConsistent(rejects, le, source, groups, sets[i]);
        } else {
          assert a in Heads(Kept(JoinsNone(rejects, le, sets, group), group));
        }
      }
    }
  }

  lemma TakenAccepted<T(!new)>(rejects: (T, seq<T>) -> bool, le: (T, T) -> bool, a: seq<T>, group: seq<T>)
    requires TotalPreorder(le)
    ensures var taken := Taken(rejects, le, a, group);
      taken.Some? ==> taken.value in group && !rejects(taken.value, a)
  {
    ScanFindsFirstBest(le, Accepted(rejects, a, group));
  }

  lemma ConsistentAppend<T(!new)>(rejects: (T, seq<T>) -> bool, source: T -> int, a: seq<T>, x: T)
    requires Consistent(rejects, source, a) && !rejects(x, a)
    requires forall y :: y in a ==> source(y) < source(x)
    ensures Consistent(rejects, source, a + [x])
  {
    var b := a + [x];
    assert b[..|a|] == a;
    assert forall i :: 0 <= i < |a| ==> b[..i] == a[..i];
  }

  lemma ExtendedConsistent<T(!new)>(rejects: (T, seq<T>) -> bool, le: (T, T) -> bool, source: T -> int, groups: seq<seq<T>>, a: seq<T>)
    requires TotalPreorder(le) && FromSources(source, groups) && groups != []
    requires Consistent(rejects, source, a) && Within(groups[..|groups| - 1], a)
    ensures Consistent(rejects, source, Extended(rejects, le, a, groups[|groups| - 1]))
    ensures Within(groups, Extended(rejects, le, a, groups[|groups| - 1]))
  {
    var n := |groups| - 1;
    TakenAccepted(rejects, le, a, groups[n]);
    forall x | x in a
      ensures exists k :: 0 <= k < |groups| && x in groups[k]
      ensures forall y :: y in groups[n] ==> source(x) < source(y)
    {
      var k :| 0 <= k < n && x in groups[..n][k];
      assert x in groups[k];
    }
    var taken := Taken(rejects, le, a, groups[n]);
    if taken.Some? {
      ConsistentAppend(rejects, source, a, taken.value);
    }
  }

  /** x is in the i-th set. */
  ghost predicate SetHolds<T(!new)>(sets: seq<seq<T>>, i: nat, x: T) {
    i < |sets| && x in sets[i]
  }

  lemma ExtendedHolds<T(!new)>(rejects: (T, seq<T>) -> bool, le: (T, T) -> bool, sets: seq<seq<T>>, group: seq<T>, i: nat, x: T)
    requires SetHolds(sets, i, x) || (i < |sets| && Taken(rejects, le, sets[i], group) == Some(x))
    ensures SetHolds(Joined(rejects, le, sets, group), i, x)
  {
    var next := Joined(rejects, le, sets, group);
    assert next[i] == Extended(rejects, le, sets[i], group);
  }

  /** A value joins a set or heads one. */
  lemma EveryoneJoins<T(!new)>(rejects: (T, seq<T>) -> bool, le: (T, T) -> bool, sets: seq<seq<T>>, group: seq<T>, x: T)
    requires x in group
    ensures exists i: nat :: SetHolds(Joined(rejects, le, sets, group), i, x)
  {
    if Joins(rejects, le, sets, group, x) {
      var i: nat :| 0 <= i < |sets| && Taken(rejects, le, sets[i], group) == Some(x);
      ExtendedHolds(rejects, le, sets, group, i, x);
    } else {
      var heads := Kept(JoinsNone(rejects, le, sets, group), group);
      var i: nat :| 0 <= i < |heads| && heads[i] == x;
      assert Joined(rejects, le, sets, group)[|sets| + i] == [x];
      assert SetHolds(Joined(rejects, le, sets, group), |sets| + i, x);
    }
  }

  /** Everything the groups hold is in some set. */
  lemma {:induction false} EveryoneInSomeSet<T(!new)>(rejects: (T, seq<T>) -> bool, le: (T, T) -> bool, groups: seq<seq<T>>, k: nat, x: T)
    requires k < |groups| && x in groups[k]
    ensures exists i: nat :: SetHolds(Sets(rejects, le, groups), i, x)
  {
    var n := |groups| - 1;
    var before, group := groups[..n], groups[n];
    var sets := Sets(rejects, le, before);
    if k < n {
      assert before[k] == groups[k];
      EveryoneInSomeSet(rejects, le, before, k, x);
      var i: nat :| SetHolds(sets, i, x);
      ExtendedHolds(rejects, le, sets, group, i, x);
    } else {
      EveryoneJoins(rejects, le, sets, group, x);
    }
    assert Sets(rejects, le, groups) == Joined(rejects, le, sets, group);
  }

  // ----- No two sets have one head -----

  ghost predicate Unrepeated<T(!new)>(xs: seq<T>) {
    forall i, j :: 0 <= i < j < |xs| ==> xs[i] != xs[j]
  }

  /** Every set has a head, and no two of them the same. */
  ghost predicate DistinctHeads<T(!new)>(sets: seq<seq<T>>) {
    && (forall i :: 0 <= i < |sets| ==> sets[i] != [])
    && (forall i, j :: 0 <= i < j < |sets| ==> sets[i][0] != sets[j][0])
  }

  /** The chain is a set, and the only one with its head; both are empty together. */
  ghost predicate IsOnlySet<T(!new)>(chain: seq<T>, sets: seq<seq<T>>) {
    && IsSet(chain, sets)
    && (forall a :: a in sets ==> a != [] && (chain != [] && a[0] == chain[0] ==> a == chain))
  }

  lemma OnlySet<T(!new)>(chain: seq<T>, sets: seq<seq<T>>)
    requires IsSet(chain, sets) && DistinctHeads(sets)
    ensures IsOnlySet(chain, sets)
  {
    if chain != [] {
      var i :| 0 <= i < |sets| && sets[i] == chain;
      forall a | a in sets && a[0] == chain[0]
        ensures a == chain
      {
        var j :| 0 <= j < |sets| && sets[j] == a;
        assert i == j;
      }
    }
  }

  lemma {:induction false} KeptDistinct<T(!new)>(f: T -> bool, xs: seq<T>)
    requires Unrepeated(xs)
    ensures Unrepeated(Kept(f, xs))
  {
    if xs != [] {
      var n := |xs| - 1;
      KeptDistinct(f, xs[..n]);
      assert xs[n] !in xs[..n];
    }
  }

  /** A set is headed by the one value that began it. */
  lemma {:induction false} HeadsDistinct<T(!new)>(rejects: (T, seq<T>) -> bool, le: (T, T) -> bool, source: T -> int, groups: seq<seq<T>>)
    requires TotalPreorder(le) && FromSources(source, groups)
    requires forall k :: 0 <= k < |groups| ==> Unrepeated(groups[k])
    ensures DistinctHeads(Sets(rejects, le, groups))
  {
    if groups != [] {
      var n := |groups| - 1;
      var sets := Sets(rejects, le, groups[..n]);
      HeadsDistinct(rejects, le, source, groups[..n]);
      SetsConsistent(rejects, le, source, groups[..n]);
      EarlierHeads(source, groups, sets);
      JoinedDistinct(rejects, le, sets, groups[n]);
    }
  }

  lemma EarlierHeads<T(!new)>(source: T -> int, groups: seq<seq<T>>, sets: seq<seq<T>>)
    requires FromSources(source, groups) && groups != []
    requires forall a :: a in sets ==> a != [] && Within(groups[..|groups| - 1], a)
    ensures forall a :: a in sets ==> a[0] !in groups[|groups| - 1]
  {
    var n := |groups| - 1;
    forall a | a in sets
      ensures a[0] !in groups[n]
    {
      var x := a[0];
      assert x in a;
      var k :| 0 <= k < n && x in groups[..n][k];
      assert x in groups[k];
      assert forall y :: y in groups[n] ==> source(x) < source(y);
    }
  }

  lemma UnrepeatedConcat<T(!new)>(xs: seq<T>, ys: seq<T>)
    requires Unrepeated(xs) && Unrepeated(ys)
    requires forall x :: x in xs ==> x !in ys
    ensures Unrepeated(xs + ys)
  {
    var zs := xs + ys;
    forall i, j | 0 <= i < j < |zs|
      ensures zs[i] != zs[j]
    {
      assert i < |xs| ==> zs[i] in xs;
      assert j >= |xs| ==> zs[j] in ys;
    }
  }

  lemma JoinedDistinct<T(!new)>(rejects: (T, seq<T>) -> bool, le: (T, T) -> bool, sets: seq<seq<T>>, group: seq<T>)
    requires DistinctHeads(sets) && Unrepeated(group)
    requires forall a :: a in sets ==> a[0] !in group
    ensures DistinctHeads(Joined(rejects, le, sets, group))
  {
    var extended, heads := AllExtended(rejects, le, sets, group), Kept(JoinsNone(rejects, le, sets, group), group);
    KeptDistinct(JoinsNone(rejects, le, sets, group), group);
    forall i | 0 <= i < |sets|
      ensures extended[i] != [] && extended[i][0] == sets[i][0] && extended[i][0] !in heads
    {
      assert sets[i] in sets;
    }
  }

  // ----- Groups of a list -----

  function Concat<T>(xs: seq<seq<T>>): seq<T> {
    if xs == [] then [] else Concat(xs[..|xs| - 1]) + xs[|xs| - 1]
  }

  /** x joins the last group where it comes from the same source, or begins one. */
  function Grown<T(!new)>(source: T -> int, groups: seq<seq<T>>, x: T): seq<seq<T>> {
    var n := |groups|;
    if n > 0 && groups[n - 1] != [] && source(groups[n - 1][0]) == source(x) then groups[..n - 1] + [groups[n - 1] + [x]]
    else groups + [[x]]
  }

  /** The groups of a list: its runs of one source. */
  function GroupsOf<T(!new)>(source: T -> int, xs: seq<T>): seq<seq<T>> {
    if xs == [] then [] else Grown(source, GroupsOf(source, xs[..|xs| - 1]), xs[|xs| - 1])
  }

  lemma GroupsOfAppend<T(!new)>(source: T -> int, xs: seq<T>, x: T)
    ensures GroupsOf(source, xs + [x]) == Grown(source, GroupsOf(source, xs), x)
  {
    assert (xs + [x])[..|xs|] == xs;
  }

  lemma ConcatAppend<T>(groups: seq<seq<T>>, group: seq<T>)
    ensures Concat(groups + [group]) == Concat(groups) + group
  {
    assert (groups + [group])[..|groups|] == groups;
  }

  lemma SetsAppend<T(!new)>(rejects: (T, seq<T>) -> bool, le: (T, T) -> bool, groups: seq<seq<T>>, group: seq<T>)
    ensures Sets(rejects, le, groups + [group]) == Joined(rejects, le, Sets(rejects, le, groups), group)
  {
    assert (groups + [group])[..|groups|] == groups;
  }

  /** The groups that hold anything. */
  function NonEmpty<T>(groups: seq<seq<T>>): seq<seq<T>> {
    if groups == [] then [] else
      var n := |groups| - 1;
      NonEmpty(groups[..n]) + if |groups[n]| == 0 then [] else [groups[n]]
  }

  lemma JoinedNothing<T(!new)>(rejects: (T, seq<T>) -> bool, le: (T, T) -> bool, sets: seq<seq<T>>)
    ensures Joined(rejects, le, sets, []) == sets
  {
    assert AllExtended(rejects, le, sets, []) == sets;
  }

  lemma NonEmptyAppend<T>(groups: seq<seq<T>>, group: seq<T>)
    ensures NonEmpty(groups + [group]) == if |group| == 0 then NonEmpty(groups) else NonEmpty(groups) + [group]
  {
    assert (groups + [group])[..|groups|] == groups;
  }

  /** A group that holds nothing changes no set. */
  lemma {:induction false} SetsSkipEmpty<T(!new)>(rejects: (T, seq<T>) -> bool, le: (T, T) -> bool, groups: seq<seq<T>>)
    ensures Sets(rejects, le, NonEmpty(groups)) == Sets(rejects, le, groups)
  {
    if groups != [] {
      var n := |groups| - 1;
      var before, group := groups[..n], groups[n];
      assert groups == before + [group];
      SetsSkipEmpty(rejects, le, before);
      SetsSkipOne(rejects, le, before, group);
    }
  }

  lemma SetsSkipOne<T(!new)>(rejects: (T, seq<T>) -> bool, le: (T, T) -> bool, groups: seq<seq<T>>, group: seq<T>)
    requires Sets(rejects, le, NonEmpty(groups)) == Sets(rejects, le, groups)
    ensures Sets(rejects, le, NonEmpty(groups + [group])) == Sets(rejects, le, groups + [group])
  {
    SetsAppend(rejects, le, groups, group);
    NonEmptyAppend(groups, group);
    if |group| == 0 {
      JoinedNothing(rejects, le, Sets(rejects, le, groups));
      assert group == [];
    } else {
      SetsAppend(rejects, le, NonEmpty(groups), group);
    }
  }

  /** The last group of a list comes from the source of its last value, and no group is empty. */
  lemma {:induction false} LastGroup<T(!new)>(source: T -> int, xs: seq<T>)
    requires xs != []
    ensures var groups := GroupsOf(source, xs);
      groups != [] && groups[|groups| - 1] != [] && source(groups[|groups| - 1][0]) == source(xs[|xs| - 1])
  {
    GroupsOfAppend(source, xs[..|xs| - 1], xs[|xs| - 1]);
  }

  /** What one source gives after another is one more group. */
  lemma {:induction false} GroupsOfUniform<T(!new)>(source: T -> int, xs: seq<T>, ys: seq<T>)
    requires ys != []
    requires forall y :: y in ys ==> source(y) == source(ys[0])
    requires xs != [] ==> source(xs[|xs| - 1]) != source(ys[0])
    ensures GroupsOf(source, xs + ys) == GroupsOf(source, xs) + [ys]
  {
    var n := |ys| - 1;
    var front, last := ys[..n], ys[n];
    assert ys == front + [last];
    assert xs + ys == (xs + front) + [last];
    GroupsOfAppend(source, xs + front, last);
    if n == 0 {
      assert xs + front == xs;
      if xs != [] {
        LastGroup(source, xs);
      }
    } else {
      GroupsOfUniform(source, xs, front);
      GrownLast(source, GroupsOf(source, xs), front, last);
    }
  }

  lemma GrownLast<T(!new)>(source: T -> int, groups: seq<seq<T>>, group: seq<T>, x: T)
    requires group != [] && source(group[0]) == source(x)
    ensures Grown(source, groups + [group], x) == groups + [group + [x]]
  {
    assert (groups + [group])[..|groups|] == groups;
  }

  lemma {:induction false} ConcatWithin<T>(groups: seq<seq<T>>, x: T)
    requires x in Concat(groups)
    ensures exists k :: 0 <= k < |groups| && x in groups[k]
  {
    var n := |groups| - 1;
    if x !in groups[n] {
      ConcatWithin(groups[..n], x);
      var k :| 0 <= k < n && x in groups[..n][k];
      assert x in groups[k];
    }
  }

  /** A list of what several sources gave in turn falls into what each gave. */
  lemma {:induction false} GroupsOfConcat<T(!new)>(source: T -> int, groups: seq<seq<T>>)
    requires FromSources(source, groups)
    ensures GroupsOf(source, Concat(groups)) == NonEmpty(groups)
  {
    if groups != [] {
      var n := |groups| - 1;
      var before, group := groups[..n], groups[n];
      assert groups == before + [group];
      GroupsOfConcat(source, before);
      ConcatAppend(before, group);
      if |group| == 0 {
        assert Concat(before) + group == Concat(before);
      } else {
        ConcatEarlier(source, groups);
        GroupsOfUniform(source, Concat(before), group);
      }
    }
  }

  lemma ConcatEarlier<T(!new)>(source: T -> int, groups: seq<seq<T>>)
    requires groups != [] && FromSources(source, groups)
    ensures forall x, y :: x in Concat(groups[..|groups| - 1]) && y in groups[|groups| - 1] ==> source(x) < source(y)
  {
    var n := |groups| - 1;
    forall x, y | x in Concat(groups[..n]) && y in groups[n]
      ensures source(x) < source(y)
    {
      ConcatWithin(groups[..n], x);
      var k :| 0 <= k < n && x in groups[..n][k];
      assert x in groups[k];
    }
  }

  // ----- The sets, step by step -----

  /** The best value of the group that the set does not reject, the earlier of two that tie. */
  method BestMember<T(!new)>(rejects: (T, seq<T>) -> bool, le: (T, T) -> bool, a: seq<T>, group: seq<T>) returns (best: Option<T>)
    ensures best == Taken(rejects, le, a, group)
  {
    best := None;
    ghost var accepts := Accepting(rejects, a);
    for i := 0 to |group|
      invariant best == BestOf(le, Kept(accepts, group[..i]))
    {
      KeptNext(accepts, group, i);
      BestOfAppend(le, Kept(accepts, group[..i]), group[i]);
      if !rejects(group[i], a) && (best.None? || Better(le, group[i], best.value)) {
        best := Some(group[i]);
      }
    }
    assert group[..|group|] == group;
  }

  lemma BestOfAppend<T(!new)>(le: (T, T) -> bool, xs: seq<T>, x: T)
    ensures var best := BestOf(le, xs);
      BestOf(le, xs + [x]) == if best.None? || Better(le, x, best.value) then Some(x) else best
  {
    assert (xs + [x])[..|xs|] == xs;
  }

  /** Extends each set by its member of the group; what joins none heads a set of its own. */
  method JoinGroup<T(!new,==)>(rejects: (T, seq<T>) -> bool, le: (T, T) -> bool, sets: seq<seq<T>>, group: seq<T>) returns (out: seq<seq<T>>)
    ensures out == Joined(rejects, le, sets, group)
  {
    var extended, joined := ExtendAll(rejects, le, sets, group);
    var heads := HeadsOf(rejects, le, sets, group, joined);
    out := extended + heads;
  }

  method ExtendAll<T(!new,==)>(rejects: (T, seq<T>) -> bool, le: (T, T) -> bool, sets: seq<seq<T>>, group: seq<T>)
      returns (out: seq<seq<T>>, joined: set<T>)
    ensures out == AllExtended(rejects, le, sets, group)
    ensures forall x :: x in joined <==> Joins(rejects, le, sets, group, x)
  {
    out, joined := [], {};
    for i := 0 to |sets|
      invariant out == AllExtended(rejects, le, sets[..i], group)
      invariant forall x :: x in joined <==> Joins(rejects, le, sets[..i], group, x)
    {
      ExtendedNext(rejects, le, sets, group, i);
      var best := BestMember(rejects, le, sets[i], group);
      if best.Some? {
        out := out + [sets[i] + [best.value]];
        joined := joined + {best.value};
      } else {
        out := out + [sets[i]];
      }
    }
    assert sets[..|sets|] == sets;
  }

  lemma ExtendedNext<T(!new)>(rejects: (T, seq<T>) -> bool, le: (T, T) -> bool, sets: seq<seq<T>>, group: seq<T>, i: nat)
    requires i < |sets|
    ensures AllExtended(rejects, le, sets[..i + 1], group) == AllExtended(rejects, le, sets[..i], group) + [Extended(rejects, le, sets[i], group)]
    ensures forall x :: Joins(rejects, le, sets[..i + 1], group, x)
                   <==> Joins(rejects, le, sets[..i], group, x) || Taken(rejects, le, sets[i], group) == Some(x)
  {
    assert sets[..i + 1] == sets[..i] + [sets[i]];
    forall x
      ensures Joins(rejects, le, sets[..i], group, x) || Taken(rejects, le, sets[i], group) == Some(x) ==> Joins(rejects, le, sets[..i + 1], group, x)
    {
      assert sets[..i + 1][i] == sets[i];
      if Joins(rejects, le, sets[..i], group, x) {
        var j :| 0 <= j < i && Taken(rejects, le, sets[..i][j], group) == Some(x);
        assert sets[..i + 1][j] == sets[..i][j];
      }
    }
  }

  lemma HeadsAppend<T(!new)>(xs: seq<T>, x: T)
    ensures Heads(xs + [x]) == Heads(xs) + [[x]]
  {
  }

  method HeadsOf<T(!new,==)>(ghost rejects: (T, seq<T>) -> bool, ghost le: (T, T) -> bool, ghost sets: seq<seq<T>>, group: seq<T>, joined: set<T>)
      returns (heads: seq<seq<T>>)
    requires forall x :: x in joined <==> Joins(rejects, le, sets, group, x)
    ensures heads == Heads(Kept(JoinsNone(rejects, le, sets, group), group))
  {
    ghost var stays := JoinsNone(rejects, le, sets, group);
    heads := [];
    for i := 0 to |group|
      invariant heads == Heads(Kept(stays, group[..i]))
    {
      KeptNext(stays, group, i);
      HeadsAppend(Kept(stays, group[..i]), group[i]);
      if group[i] !in joined {
        heads := heads + [[group[i]]];
      }
    }
    assert group[..|group|] == group;
  }

  /** The sets among the values of a list, which arrive source by source. */
  method Gather<T(!new,==)>(rejects: (T, seq<T>) -> bool, le: (T, T) -> bool, source: T -> int, xs: seq<T>) returns (out: seq<seq<T>>)
    ensures out == Sets(rejects, le, GroupsOf(source, xs))
  {
    out := [];
    var p := 0;
    while p < |xs|
      invariant 0 <= p <= |xs|
      invariant out == Sets(rejects, le, GroupsOf(source, xs[..p]))
      invariant 0 < p < |xs| ==> source(xs[p - 1]) != source(xs[p])
    {
      var n := p + 1;
      while n < |xs| && source(xs[n]) == source(xs[p])
        invariant p < n <= |xs|
        invariant forall i :: p <= i < n ==> source(xs[i]) == source(xs[p])
      {
        n := n + 1;
      }
      NextSets(rejects, le, source, xs, p, n);
      out := JoinGroup(rejects, le, out, xs[p..n]);
      p := n;
    }
    assert xs[..p] == xs;
  }

  lemma NextSets<T(!new)>(rejects: (T, seq<T>) -> bool, le: (T, T) -> bool, source: T -> int, xs: seq<T>, p: nat, n: nat)
    requires p < n <= |xs|
    requires forall i :: p <= i < n ==> source(xs[i]) == source(xs[p])
    requires p > 0 ==> source(xs[p - 1]) != source(xs[p])
    ensures Sets(rejects, le, GroupsOf(source, xs[..n])) == Joined(rejects, le, Sets(rejects, le, GroupsOf(source, xs[..p])), xs[p..n])
  {
    NextGroup(source, xs, p, n);
    SetsAppend(rejects, le, GroupsOf(source, xs[..p]), xs[p..n]);
  }

  lemma NextGroup<T(!new)>(source: T -> int, xs: seq<T>, p: nat, n: nat)
    requires p < n <= |xs|
    requires forall i :: p <= i < n ==> source(xs[i]) == source(xs[p])
    requires p > 0 ==> source(xs[p - 1]) != source(xs[p])
    ensures GroupsOf(source, xs[..n]) == GroupsOf(source, xs[..p]) + [xs[p..n]]
  {
    assert xs[..n] == xs[..p] + xs[p..n];
    GroupsOfUniform(source, xs[..p], xs[p..n]);
  }
}
