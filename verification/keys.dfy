/** Stated keys: their canonical form and the text that tells them apart (stmt/validate.go and stmt/stmt.go). */
module StatedKeys {
  import opened Options
  import opened Sorting
  import opened Identifiers
  import opened AssetClasses

  /** What a row states of an instrument. An empty class is an absent one. */
  datatype Statement = Statement(assetClass: string, currency: Option<string>, identifiers: seq<Identifier>)

  /** A key in canonical form. */
  datatype Key = Key(assetClass: Option<string>, currency: Option<string>, identifiers: seq<Identifier>)

  const KINDS: set<string> := {
    "isin", "cusip", "cins", "wertpapier", "openfigi_share_class", "sedol", "openfigi_composite", "mic_ticker", "occ", "currency",
    "datasource_ticker", "broker_id", "broker_description", "option"
  }

  // ----- The order of identifiers -----

  predicate TextAtMost(a: string, b: string) {
    a == "" || (b != "" && (a[0] < b[0] || (a[0] == b[0] && TextAtMost(a[1..], b[1..]))))
  }

  lemma {:induction false} TextOrder(a: string, b: string, c: string)
    ensures TextAtMost(a, b) || TextAtMost(b, a)
    ensures TextAtMost(a, b) && TextAtMost(b, a) ==> a == b
    ensures TextAtMost(a, b) && TextAtMost(b, c) ==> TextAtMost(a, c)
    ensures TextAtMost(a, a)
  {
    if a != "" {
      assert a == [a[0]] + a[1..];
      TextOrder(a[1..], if b == "" then "" else b[1..], if c == "" then "" else c[1..]);
    }
    if b != "" {
      assert b == [b[0]] + b[1..];
    }
  }

  /** By type, then domain, then value. */
  predicate IdAtMost(a: Identifier, b: Identifier) {
    if a.kind != b.kind then TextAtMost(a.kind, b.kind)
    else if a.domain != b.domain then TextAtMost(a.domain, b.domain)
    else TextAtMost(a.value, b.value)
  }

  lemma IdOrder(a: Identifier, b: Identifier, c: Identifier)
    ensures IdAtMost(a, b) || IdAtMost(b, a)
    ensures IdAtMost(a, b) && IdAtMost(b, a) ==> a == b
    ensures IdAtMost(a, b) && IdAtMost(b, c) ==> IdAtMost(a, c)
  {
    TextOrder(a.kind, b.kind, c.kind);
    TextOrder(a.domain, b.domain, c.domain);
    TextOrder(a.value, b.value, c.value);
    TextOrder(b.kind, a.kind, a.kind);
    TextOrder(b.domain, a.domain, a.domain);
    TextOrder(b.value, a.value, a.value);
  }

  lemma IdsOrdered()
    ensures TotalPreorder(IdAtMost)
  {
    forall a, b, c
      ensures IdAtMost(a, b) || IdAtMost(b, a)
      ensures IdAtMost(a, b) && IdAtMost(b, c) ==> IdAtMost(a, c)
    {
      IdOrder(a, b, c);
    }
  }

  ghost predicate Distinct(ids: seq<Identifier>) {
    forall i, j :: 0 <= i < j < |ids| ==> ids[i] != ids[j]
  }

  /** In order, each once. */
  ghost predicate InOrder(ids: seq<Identifier>) {
    Distinct(ids) && SortedBy(IdAtMost, ids)
  }

  ghost predicate SameMembers(xs: seq<Identifier>, ys: seq<Identifier>) {
    forall id :: id in xs <==> id in ys
  }

  /** a comes before b in a dictionary: they part at place p, where a ends or has the lower character. */
  ghost predicate PartsAt(a: string, b: string, p: nat) {
    p <= |a| && p < |b| && a[..p] == b[..p] && (p == |a| || a[p] < b[p])
  }

  lemma {:induction false} TextBefore(a: string, b: string)
    ensures TextAtMost(a, b) && a != b <==> exists p: nat :: PartsAt(a, b, p)
  {
    if a == "" || b == "" {
      assert a == "" && b != "" ==> PartsAt(a, b, 0);
    } else {
      assert a == [a[0]] + a[1..] && b == [b[0]] + b[1..];
      TextBefore(a[1..], b[1..]);
      if a[0] == b[0] {
        if p: nat :| PartsAt(a[1..], b[1..], p) {
          assert PartsAt(a, b, p + 1);
        }
        if p: nat :| PartsAt(a, b, p) {
          assert a[1..][..p - 1] == a[..p][1..] && b[1..][..p - 1] == b[..p][1..];
          assert PartsAt(a[1..], b[1..], p - 1);
        }
      } else {
        assert a[0] < b[0] ==> PartsAt(a, b, 0);
        assert forall p: nat :: p > 0 && PartsAt(a, b, p) ==> a[..p][0] == b[..p][0];
      }
    }
  }

  ghost predicate Earlier(a: string, b: string) {
    exists p: nat :: PartsAt(a, b, p)
  }

  /** The identifiers of a key are in order of type, then domain, then value, as a dictionary has them, each once. */
  lemma OrderIs(ids: seq<Identifier>, i: nat, j: nat)
    requires InOrder(ids) && i < j < |ids|
    ensures var a, b := ids[i], ids[j];
      || Earlier(a.kind, b.kind) || (a.kind == b.kind && Earlier(a.domain, b.domain))
      || (a.kind == b.kind && a.domain == b.domain && Earlier(a.value, b.value))
  {
    var a, b := ids[i], ids[j];
    assert IdAtMost(a, b) && a != b;
    TextBefore(a.kind, b.kind);
    TextBefore(a.domain, b.domain);
    TextBefore(a.value, b.value);
  }

  /** A set of identifiers has one canonical order. */
  lemma {:induction false} OrderIsUnique(xs: seq<Identifier>, ys: seq<Identifier>)
    requires InOrder(xs) && InOrder(ys)
    requires SameMembers(xs, ys)
    ensures xs == ys
  {
    if xs == [] {
      SomeIn(ys, xs);
    } else if ys == [] {
      SomeIn(xs, ys);
    } else {
      var m, n := |xs| - 1, |ys| - 1;
      assert xs == xs[..m] + [xs[m]] && ys == ys[..n] + [ys[n]];
      LastAlike(xs, ys);
      FrontsAlike(xs, ys);
      OrderIsUnique(xs[..m], ys[..n]);
    }
  }

  lemma LastAlike(xs: seq<Identifier>, ys: seq<Identifier>)
    requires SortedBy(IdAtMost, xs) && SortedBy(IdAtMost, ys) && xs != [] && ys != []
    requires SameMembers(xs, ys)
    ensures xs[|xs| - 1] == ys[|ys| - 1]
  {
    var m, n := |xs| - 1, |ys| - 1;
    assert xs[m] in ys && ys[n] in xs;
    var i :| 0 <= i < |ys| && ys[i] == xs[m];
    var j :| 0 <= j < |xs| && xs[j] == ys[n];
    IdOrder(xs[m], ys[n], xs[m]);
  }

  lemma FrontsAlike(xs: seq<Identifier>, ys: seq<Identifier>)
    requires Distinct(xs) && Distinct(ys) && xs != [] && ys != [] && xs[|xs| - 1] == ys[|ys| - 1]
    requires SameMembers(xs, ys)
    ensures SameMembers(xs[..|xs| - 1], ys[..|ys| - 1])
  {
    var front, other := xs[..|xs| - 1], ys[..|ys| - 1];
    forall id
      ensures id in front <==> id in other
    {
      FrontOf(xs, id);
      FrontOf(ys, id);
    }
  }

  lemma SomeIn(xs: seq<Identifier>, ys: seq<Identifier>)
    requires forall id :: id in xs ==> id in ys
    ensures xs != [] ==> ys != []
  {
    assert xs != [] ==> xs[0] in ys;
  }

  lemma FrontOf(ids: seq<Identifier>, id: Identifier)
    requires ids != [] && Distinct(ids)
    ensures id in ids[..|ids| - 1] <==> id in ids && id != ids[|ids| - 1]
  {
    var n := |ids| - 1;
    if id in ids && id != ids[n] {
      var i :| 0 <= i < |ids| && ids[i] == id;
      assert ids[..n][i] == id;
    }
  }

  // ----- Reading a key -----

  /** A statement may state the identifier. */
  predicate Statable(id: Identifier, broker: string) {
    && id.kind in KINDS && id.kind != "datasource_ticker" && id.value != ""
    && (id.kind == "broker_id" || id.kind == "broker_description" ==> id.domain == broker)
  }

  /** Two values of an exclusive type in one domain. */
  predicate Conflict(a: Identifier, b: Identifier) {
    a != b && a.kind == b.kind && a.domain == b.domain && Exclusive(a)
  }

  ghost predicate Refused(s: Statement, broker: string) {
    || (s.assetClass != "" && s.assetClass !in CLASSES)
    || (exists id :: id in s.identifiers && !Statable(id, broker))
    || (exists a, b :: a in s.identifiers && b in s.identifiers && Conflict(a, b))
  }

  /** k states what s states, in canonical form. */
  ghost predicate IsKeyOf(s: Statement, k: Key) {
    && k.assetClass == (if s.assetClass == "" then None else Some(s.assetClass))
    && k.currency == s.currency
    && InOrder(k.identifiers) && SameMembers(k.identifiers, s.identifiers)
  }

  /** The key s states, or none where it is refused. */
  method KeyOf(s: Statement, broker: string) returns (r: Option<Key>)
    ensures r.None? <==> Refused(s, broker)
    ensures r.Some? ==> IsKeyOf(s, r.value)
  {
    if s.assetClass != "" && s.assetClass !in CLASSES {
      return None;
    }
    var ids: seq<Identifier> := [];
    for i := 0 to |s.identifiers|
      invariant Distinct(ids) && forall id :: id in ids <==> id in s.identifiers[..i]
      invariant forall id :: id in ids ==> Statable(id, broker)
      invariant forall a, b :: a in ids && b in ids ==> !Conflict(a, b)
    {
      var id := s.identifiers[i];
      assert s.identifiers[..i + 1] == s.identifiers[..i] + [id];
      assert id in s.identifiers;
      assert forall x :: x in ids ==> x in s.identifiers;
      if !Statable(id, broker) {
        return None;
      }
      if id !in ids {
        if exists held :: held in ids && held.kind == id.kind && held.domain == id.domain && Exclusive(id) {
          ghost var held :| held in ids && held.kind == id.kind && held.domain == id.domain && Exclusive(id);
          assert Conflict(held, id);
          return None;
        }
        ids := ids + [id];
      }
    }
    assert s.identifiers[..|s.identifiers|] == s.identifiers;
    IdsOrdered();
    var sorted := StableSort(IdAtMost, ids);
    SameElements(ids, sorted);
    DistinctSorted(ids, sorted);
    r := Some(Key(if s.assetClass == "" then None else Some(s.assetClass), s.currency, sorted));
  }

  lemma {:induction false} DistinctOnce(ids: seq<Identifier>, id: Identifier)
    requires Distinct(ids)
    ensures multiset(ids)[id] <= 1
  {
    if ids != [] {
      var n := |ids| - 1;
      assert ids == ids[..n] + [ids[n]];
      DistinctOnce(ids[..n], id);
      FrontOf(ids, id);
    }
  }

  lemma DistinctSorted(ids: seq<Identifier>, sorted: seq<Identifier>)
    requires Distinct(ids) && multiset(sorted) == multiset(ids)
    ensures Distinct(sorted)
  {
    forall i, j | 0 <= i < j < |sorted|
      ensures sorted[i] != sorted[j]
    {
      DistinctOnce(ids, sorted[i]);
      assert sorted == sorted[..j] + sorted[j..];
      assert sorted[i] in sorted[..j] && sorted[j] in sorted[j..];
    }
  }

  // ----- The text of a key -----

  const NUL: char := '\0'
  const ONE: char := 1 as char

  ghost predicate NulFree(s: string) {
    NUL !in s
  }

  function Part(s: Option<string>): string {
    (if s.None? then "" else [ONE] + s.value) + [NUL]
  }

  function IdText(id: Identifier): string {
    id.kind + [NUL] + (id.domain + [NUL] + (id.value + [NUL]))
  }

  function IdsText(ids: seq<Identifier>): string {
    if ids == [] then "" else IdText(ids[0]) + IdsText(ids[1..])
  }

  /** The text that keys stating the same thing share. */
  function Canon(k: Key): string {
    Part(k.assetClass) + (Part(k.currency) + IdsText(k.identifiers))
  }

  /** No stated value carries a NUL. */
  ghost predicate Plain(k: Key) {
    && (k.assetClass.Some? ==> NulFree(k.assetClass.value))
    && (k.currency.Some? ==> NulFree(k.currency.value))
    && PlainIds(k.identifiers)
  }

  ghost predicate PlainIds(ids: seq<Identifier>) {
    forall id :: id in ids ==> NulFree(id.kind) && NulFree(id.domain) && NulFree(id.value)
  }

  /** The first NUL ends the first part. */
  lemma FirstPart(a: string, x: string, b: string, y: string)
    requires NulFree(a) && NulFree(b) && a + [NUL] + x == b + [NUL] + y
    ensures a == b && x == y
  {
    var s, t := a + [NUL] + x, b + [NUL] + y;
    assert s[|a|] == NUL && t[|b|] == NUL;
    assert forall i :: 0 <= i < |a| ==> s[i] == a[i] && a[i] in a;
    assert forall i :: 0 <= i < |b| ==> t[i] == b[i] && b[i] in b;
    assert |a| == |b|;
    assert a == s[..|a|] && b == t[..|b|];
    assert x == s[|a| + 1..] && y == t[|b| + 1..];
  }

  lemma PartThenRest(p: Option<string>, x: string, q: Option<string>, y: string)
    requires p.Some? ==> NulFree(p.value)
    requires q.Some? ==> NulFree(q.value)
    requires Part(p) + x == Part(q) + y
    ensures p == q && x == y
  {
    var a := if p.None? then "" else [ONE] + p.value;
    var b := if q.None? then "" else [ONE] + q.value;
    FirstPart(a, x, b, y);
    if p.Some? && q.Some? {
      assert p.value == a[1..] && q.value == b[1..];
    }
  }

  lemma IdThenRest(i: Identifier, x: string, j: Identifier, y: string)
    requires PlainIds([i]) && PlainIds([j])
    requires IdText(i) + x == IdText(j) + y
    ensures i == j && x == y
  {
    assert i in [i] && j in [j];
    SplitId(i, x);
    SplitId(j, y);
    FirstPart(i.kind, i.domain + [NUL] + (i.value + [NUL] + x), j.kind, j.domain + [NUL] + (j.value + [NUL] + y));
    FirstPart(i.domain, i.value + [NUL] + x, j.domain, j.value + [NUL] + y);
    FirstPart(i.value, x, j.value, y);
  }

  lemma SplitId(i: Identifier, x: string)
    ensures IdText(i) + x == i.kind + [NUL] + (i.domain + [NUL] + (i.value + [NUL] + x))
  {
  }

  lemma {:induction false} IdsTextInjective(xs: seq<Identifier>, ys: seq<Identifier>)
    requires PlainIds(xs) && PlainIds(ys) && IdsText(xs) == IdsText(ys)
    ensures xs == ys
  {
    if xs != [] && ys != [] {
      assert xs == [xs[0]] + xs[1..] && ys == [ys[0]] + ys[1..];
      IdThenRest(xs[0], IdsText(xs[1..]), ys[0], IdsText(ys[1..]));
      IdsTextInjective(xs[1..], ys[1..]);
    }
  }

  /** Keys of one text are one key. */
  lemma CanonInjective(k: Key, l: Key)
    requires Plain(k) && Plain(l)
    ensures Canon(k) == Canon(l) <==> k == l
  {
    if Canon(k) == Canon(l) {
      PartThenRest(k.assetClass, Part(k.currency) + IdsText(k.identifiers), l.assetClass, Part(l.currency) + IdsText(l.identifiers));
      PartThenRest(k.currency, IdsText(k.identifiers), l.currency, IdsText(l.identifiers));
      IdsTextInjective(k.identifiers, l.identifiers);
    }
  }

  /** Two statements have one text exactly where they state the same class, currency and set of identifiers. */
  lemma SameTextIffSameStatement(s: Statement, t: Statement, k: Key, l: Key)
    requires IsKeyOf(s, k) && IsKeyOf(t, l) && Plain(k) && Plain(l)
    ensures Canon(k) == Canon(l)
       <==> s.assetClass == t.assetClass && s.currency == t.currency && SameMembers(s.identifiers, t.identifiers)
  {
    CanonInjective(k, l);
    if SameMembers(s.identifiers, t.identifiers) {
      OrderIsUnique(k.identifiers, l.identifiers);
    }
  }

  // ----- What is refused, and what the text holds, from the fields -----

  /** A statement may state the identifier: not a datasource's spelling, and a broker's own only in its domain. */
  predicate MayState(id: Identifier, broker: string) {
    && id.value != ""
    && (id.kind in WORLDWIDE || id.kind == "mic_ticker" || ((id.kind == "broker_id" || id.kind == "broker_description") && id.domain == broker))
  }

  /** The statement states two values of an exclusive type in one domain. */
  ghost predicate StatesTwo(s: Statement) {
    exists a, b :: a in s.identifiers && b in s.identifiers && a.kind == b.kind && a.domain == b.domain && a.value != b.value
      && a.kind in EXCLUSIVE
  }

  lemma RefusedIs(s: Statement, broker: string)
    ensures Refused(s, broker)
       <==> (s.assetClass != "" && s.assetClass !in CLASSES) || (exists id :: id in s.identifiers && !MayState(id, broker)) || StatesTwo(s)
  {
    forall id
      ensures Statable(id, broker) <==> MayState(id, broker)
    {
    }
    forall a, b
      ensures Conflict(a, b) <==> a.kind == b.kind && a.domain == b.domain && a.value != b.value && a.kind in EXCLUSIVE
    {
      TypesAre(a);
    }
  }

  /** The text holds the class, the currency, and each identifier's type, domain and value in turn; each part ends in a NUL. */
  lemma TextHolds(class': string, currency: string, id: Identifier, ids: seq<Identifier>)
    ensures Canon(Key(Some(class'), Some(currency), [id]))
         == "\U{0001}" + class' + "\0" + ("\U{0001}" + currency + "\0" + (id.kind + "\0" + (id.domain + "\0" + (id.value + "\0"))))
    ensures Canon(Key(None, None, [id])) == "\0" + ("\0" + (id.kind + "\0" + (id.domain + "\0" + (id.value + "\0"))))
    ensures IdsText([id] + ids) == IdsText([id]) + IdsText(ids)
  {
    assert IdsText([]) == "" && [id][1..] == [];
    assert IdsText([id]) == IdText(id);
    assert ([id] + ids)[1..] == ids;
  }

  // ----- Keys with a NUL -----

  /** A statement of the broker may state k: keyOf reads it, it names an identifier, and its currency, being a known one, carries no NUL. */
  ghost predicate Accepted(k: Key, broker: string) {
    && (exists s :: !Refused(s, broker) && IsKeyOf(s, k))
    && k.identifiers != [] && (k.currency.Some? ==> NulFree(k.currency.value))
  }

  /** Another key that is accepted has k's text. */
  ghost predicate Confused(k: Key, broker: string) {
    exists l :: Accepted(l, broker) && l != k && Canon(l) == Canon(k)
  }

  predicate BrokerOwned(kind: string) {
    kind == "broker_id" || kind == "broker_description"
  }

  lemma AcceptedOne(class': Option<string>, currency: Option<string>, id: Identifier, broker: string)
    requires class'.Some? ==> class'.value in CLASSES
    requires currency.Some? ==> NulFree(currency.value)
    requires Statable(id, broker)
    ensures Accepted(Key(class', currency, [id]), broker)
  {
    var s := Statement(if class'.None? then "" else class'.value, currency, [id]);
    assert !Refused(s, broker);
    assert IsKeyOf(s, Key(class', currency, [id]));
  }

  lemma KindsPlain(kind: string)
    requires kind in KINDS
    ensures NulFree(kind)
  {
  }

  lemma ClassesPlain(c: string)
    requires c in CLASSES
    ensures NulFree(c)
  {
  }

  /** An accepted pair with one text: an ISIN and a SEDOL, and one ISIN that holds both between NULs. */
  lemma NulConfuses(broker: string)
    ensures var a := Identifier("isin", "", "v");
      var b := Identifier("sedol", "", "w");
      var c := Identifier("isin", "", "v" + [NUL] + "sedol" + [NUL] + [NUL] + "w");
      var k, l := Key(None, None, [a, b]), Key(None, None, [c]);
      Accepted(k, broker) && Accepted(l, broker) && k != l && Canon(k) == Canon(l)
  {
    var a := Identifier("isin", "", "v");
    var b := Identifier("sedol", "", "w");
    var c := Identifier("isin", "", "v" + [NUL] + "sedol" + [NUL] + [NUL] + "w");
    AcceptedOne(None, None, c, broker);
    IsinThenSedol(a, b, broker);
    assert IdsText([]) == "";
    assert IdsText([b]) == IdText(b);
    assert [a, b][1..] == [b];
    assert IdsText([a, b]) == IdText(a) + IdText(b);
    assert IdsText([c]) == IdText(c);
    assert IdText(a) + IdText(b) == IdText(c);
  }

  lemma IsinThenSedol(a: Identifier, b: Identifier, broker: string)
    requires a.kind == "isin" && b.kind == "sedol" && a.value != "" && b.value != ""
    ensures Accepted(Key(None, None, [a, b]), broker)
  {
    var s := Statement("", None, [a, b]);
    assert !Refused(s, broker);
    assert TextAtMost("isin", "sedol");
    assert IsKeyOf(s, Key(None, None, [a, b]));
  }

  /**
   * A key of one identifier, of a type whose domain the statement chooses, shares its text with
   * another exactly where its domain carries a NUL, or its value does before its last character.
   */
  lemma ConfusedIff(k: Key, broker: string)
    requires Accepted(k, broker) && |k.identifiers| == 1 && !BrokerOwned(k.identifiers[0].kind)
    ensures Confused(k, broker) <==> Splits(k.identifiers[0])
  {
    var id := k.identifiers[0];
    assert k.identifiers == [id];
    var s :| !Refused(s, broker) && IsKeyOf(s, k);
    assert id in k.identifiers && id in s.identifiers;
    assert Statable(id, broker);
    if Splits(id) {
      var other := OtherSplit(id);
      AcceptedOne(k.assetClass, k.currency, other, broker);
      var l := Key(k.assetClass, k.currency, [other]);
      OneText(id);
      OneText(other);
      assert Canon(l) == Canon(k) && l.identifiers[0] != k.identifiers[0];
    }
    if l :| Accepted(l, broker) && l != k && Canon(l) == Canon(k) {
      SameHead(k, l, broker);
      OneText(id);
      SplitsFrom(id, l.identifiers, broker);
    }
  }

  lemma OneText(id: Identifier)
    ensures IdsText([id]) == IdText(id)
  {
    assert [id][1..] == [];
  }

  /** The identifier's text has another place to end its domain and leave a value. */
  predicate Splits(id: Identifier) {
    NUL in id.domain || (id.value != "" && NUL in id.value[..|id.value| - 1])
  }

  lemma OtherSplit(id: Identifier) returns (other: Identifier)
    requires Splits(id) && id.value != ""
    ensures other != id && other.kind == id.kind && other.value != "" && IdText(other) == IdText(id)
  {
    if NUL in id.domain {
      var p :| 0 <= p < |id.domain| && id.domain[p] == NUL;
      other := Identifier(id.kind, id.domain[..p], id.domain[p + 1..] + [NUL] + id.value);
      assert id.domain == id.domain[..p] + [NUL] + id.domain[p + 1..];
      Regroup(id.domain[..p], id.domain[p + 1..], id.value);
    } else {
      var p :| 0 <= p < |id.value| - 1 && id.value[p] == NUL;
      other := Identifier(id.kind, id.domain + [NUL] + id.value[..p], id.value[p + 1..]);
      assert id.value == id.value[..p] + [NUL] + id.value[p + 1..];
      Regroup(id.domain, id.value[..p], id.value[p + 1..]);
    }
  }

  lemma Regroup(x: string, y: string, z: string)
    ensures x + [NUL] + y + [NUL] + (z + [NUL]) == x + [NUL] + ((y + [NUL] + z) + [NUL])
    ensures (x + [NUL] + y) + [NUL] + (z + [NUL]) == x + [NUL] + ((y + [NUL] + z) + [NUL])
  {
  }

  /** Accepted keys of one text state one class and one currency. */
  lemma SameHead(k: Key, l: Key, broker: string)
    requires Accepted(k, broker) && Accepted(l, broker) && Canon(k) == Canon(l)
    ensures k.assetClass == l.assetClass && k.currency == l.currency && IdsText(k.identifiers) == IdsText(l.identifiers)
  {
    ClassPlain(k, broker);
    ClassPlain(l, broker);
    PartThenRest(k.assetClass, Part(k.currency) + IdsText(k.identifiers), l.assetClass, Part(l.currency) + IdsText(l.identifiers));
    PartThenRest(k.currency, IdsText(k.identifiers), l.currency, IdsText(l.identifiers));
  }

  lemma ClassPlain(k: Key, broker: string)
    requires Accepted(k, broker)
    ensures k.assetClass.Some? ==> NulFree(k.assetClass.value)
    ensures forall id :: id in k.identifiers ==> Statable(id, broker)
  {
    var s :| !Refused(s, broker) && IsKeyOf(s, k);
    if k.assetClass.Some? {
      ClassesPlain(s.assetClass);
    }
  }

  lemma {:induction false} NulsOf(ids: seq<Identifier>)
    ensures multiset(IdsText(ids))[NUL] >= 3 * |ids|
  {
    if ids != [] {
      NulsOf(ids[1..]);
    }
  }

  /** What has the text of one identifier and is not it alone splits it elsewhere. */
  lemma SplitsFrom(id: Identifier, ids: seq<Identifier>, broker: string)
    requires Statable(id, broker) && ids != [] && ids != [id] && IdsText(ids) == IdText(id)
    requires forall j :: j in ids ==> Statable(j, broker)
    ensures Splits(id)
  {
    KindsPlain(id.kind);
    if |ids| == 1 {
      var j := ids[0];
      assert ids == [j] && j in ids;
      OneText(j);
      KindsPlain(j.kind);
      FirstPart(id.kind, id.domain + [NUL] + (id.value + [NUL]), j.kind, j.domain + [NUL] + (j.value + [NUL]));
      OneSplits(id, j);
    } else {
      NulsOf(ids);
      ManyNuls(id);
    }
  }

  lemma OneSplits(i: Identifier, j: Identifier)
    requires i != j && i.kind == j.kind && i.value != "" && j.value != ""
    requires i.domain + [NUL] + (i.value + [NUL]) == j.domain + [NUL] + (j.value + [NUL])
    ensures Splits(i)
  {
    var s, t := i.domain + [NUL] + (i.value + [NUL]), j.domain + [NUL] + (j.value + [NUL]);
    var p := |j.domain|;
    SplitOnce(i.domain, i.value, j.domain, j.value);
    assert t[p] == NUL;
    if p < |i.domain| {
      assert s[p] == i.domain[p];
    } else {
      var q := p - |i.domain| - 1;
      assert 0 <= q < |i.value| - 1;
      assert s[p] == i.value[q] == i.value[..|i.value| - 1][q];
    }
  }

  lemma SplitOnce(d: string, v: string, e: string, w: string)
    requires d + [NUL] + (v + [NUL]) == e + [NUL] + (w + [NUL])
    ensures |d| == |e| ==> d == e && v == w
  {
    var s := d + [NUL] + (v + [NUL]);
    assert d == s[..|d|] && v == s[|d| + 1..|s| - 1];
    assert e == s[..|e|] && w == s[|e| + 1..|s| - 1];
  }

  lemma ManyNuls(id: Identifier)
    requires NulFree(id.kind) && id.value != "" && multiset(IdText(id))[NUL] >= 6
    ensures Splits(id)
  {
    var n := |id.value| - 1;
    assert id.value == id.value[..n] + [id.value[n]];
    assert multiset(id.value)[NUL] <= multiset(id.value[..n])[NUL] + 1;
    assert multiset(id.domain)[NUL] + multiset(id.value[..n])[NUL] > 0;
  }

  // ----- The keys of a statement -----

  /** A key is known by its place in the order the keys were first met in. */
  class Ingestion {
    var keys: map<string, nat>
    var order: seq<Key>

    ghost predicate Valid()
      reads this
    {
      && (forall c :: c in keys ==> keys[c] < |order| && Canon(order[keys[c]]) == c)
      && (forall i :: 0 <= i < |order| ==> Plain(order[i]) && Canon(order[i]) in keys && keys[Canon(order[i])] == i)
    }

    constructor ()
      ensures Valid() && order == []
    {
      keys, order := map[], [];
    }

    /** The place of the key equal to k, which is a new one only where no key of the statement is. */
    method Intern(k: Key) returns (at: nat)
      requires Valid() && Plain(k)
      modifies this
      ensures Valid() && at < |order| && order[at] == k
      ensures order == if k in old(order) then old(order) else old(order) + [k]
      ensures forall i :: 0 <= i < |order| ==> (order[i] == k <==> i == at)
    {
      var c := Canon(k);
      forall i | 0 <= i < |order|
        ensures Canon(order[i]) == c <==> order[i] == k
      {
        CanonInjective(order[i], k);
      }
      if c in keys {
        at := keys[c];
      } else {
        at := |order|;
        keys := keys[c := at];
        order := order + [k];
      }
    }
  }
}
