/**
 * A fetch of requests from one datasource: batching, blocks raised midway that suppress later
 * calls, and retries (market/fetch.go and market/request.go).
 */
module Fetches {
  import opened Options
  import opened Sorting
  import opened Identifiers
  import opened Greedy

  datatype Scope = KeyScope | DatasourceScope | RequestScope

  datatype Failure = Failure(temporary: bool, scope: Scope)

  datatype Outcome = Unset | NotServed | Served | Blocked | FailedTemporary | FailedPermanent

  /** One request of a fetch and what it got. sent is absent where the datasource does not serve it. */
  datatype FetchKey = FetchKey(sent: Option<Identifier>, outcome: Outcome, attempts: nat, cached: bool)

  // ----- One call and its retries -----

  /**
   * What the world does at one attempt: the datasource is paused, or the wait for the call is
   * cut short, or the provider answers each request, or it fails; cut says that the wait after
   * the failure is cut short.
   */
  datatype Attempt =
    | Paused
    | CutBefore(fail: Failure)
    | Answers(answers: seq<Option<Failure>>)
    | Fails(fail: Failure, cut: Option<Failure>)

  /** What the call comes to: an answer to each request, or a failure of the call. */
  datatype Result = Answered(answers: seq<Option<Failure>>) | Failed(fail: Failure)

  const PAUSED := Failed(Failure(true, DatasourceScope))

  function Most(tries: int): nat {
    if tries > 1 then tries else 1
  }

  /** A failure that another attempt may mend. */
  predicate Retried(a: Attempt) {
    a.Fails? && a.fail.temporary && !a.fail.scope.DatasourceScope? && a.cut.None?
  }

  /** The failure that ends a call after a failing attempt: the cut wait's where another attempt was due, else its own. */
  function LastFailure(a: Attempt, last: bool): Failure
    requires a.Fails?
  {
    if a.fail.temporary && !a.fail.scope.DatasourceScope? && !last && a.cut.Some? then a.cut.value else a.fail
  }

  /** The call ended with its last attempt: an answer, or a failure that no attempt follows. */
  ghost predicate EndedWith(result: Result, attempts: nat, tries: int, a: Attempt) {
    match a
    case Answers(answers) => result == Answered(answers)
    case Fails(_, _) =>
      (!Retried(a) || attempts == Most(tries)) && result == Failed(LastFailure(a, attempts == Most(tries)))
    case _ => false
  }

  /** The call ended before another attempt: the datasource is paused, or the wait was cut short. */
  ghost predicate EndedBefore(result: Result, a: Attempt) {
    match a
    case Paused => result == PAUSED
    case CutBefore(fail) => result == Failed(fail)
    case _ => false
  }

  /**
   * The result and the provider calls it cost are what the world makes of the call: every
   * attempt before the last failed in a way that another may mend, and the last, or what kept
   * another from being made, gives the result.
   */
  ghost predicate CameFrom(result: Result, attempts: nat, tries: int, world: nat -> Attempt) {
    && attempts <= Most(tries)
    && (forall n: nat :: n + 1 < attempts ==> Retried(world(n)))
    && ((attempts > 0 && EndedWith(result, attempts, tries, world(attempts - 1)))
        || (attempts < Most(tries) && (attempts > 0 ==> Retried(world(attempts - 1))) && EndedBefore(result, world(attempts))))
  }

  /** The world leaves a call one result and one cost. */
  lemma CameFromOnce(r: Result, m: nat, q: Result, n: nat, tries: int, world: nat -> Attempt)
    requires CameFrom(r, m, tries, world) && CameFrom(q, n, tries, world)
    ensures r == q && m == n
  {
    if m < n {
      NoFurther(r, m, q, n, tries, world);
    } else if n < m {
      NoFurther(q, n, r, m, tries, world);
    }
  }

  lemma NoFurther(r: Result, m: nat, q: Result, n: nat, tries: int, world: nat -> Attempt)
    requires CameFrom(r, m, tries, world) && CameFrom(q, n, tries, world)
    ensures n <= m
  {
    assert m > 0 ==> (m < n - 1 ==> Retried(world(m - 1)));
    assert m + 1 < n ==> Retried(world(m));
  }

  /** Calls the provider, and again after a temporary failure that is not about the datasource, up to tries calls. */
  method Request(tries: int, world: nat -> Attempt) returns (result: Result, attempts: nat)
    ensures CameFrom(result, attempts, tries, world)
  {
    var attempt: nat := 1;
    while true
      invariant 1 <= attempt <= Most(tries)
      invariant forall n: nat :: n + 1 < attempt ==> Retried(world(n))
      decreases Most(tries) - attempt
    {
      var now := world(attempt - 1);
      match now
      case Paused => return PAUSED, attempt - 1;
      case CutBefore(fail) => return Failed(fail), attempt - 1;
      case Answers(answers) => return Answered(answers), attempt;
      case Fails(fail, cut) =>
        if !fail.temporary || fail.scope.DatasourceScope? || attempt >= tries {
          return Failed(fail), attempt;
        }
        if cut.Some? {
          return Failed(cut.value), attempt;
        }
        attempt := attempt + 1;
    }
  }

  // ----- Blocks -----

  /** A block of every call to the datasource, or of calls under one identifier or domain. */
  datatype Block = Everything | Only(id: Identifier)

  datatype Blocks = Blocks(all: bool, ids: set<Identifier>) {
    predicate Covers(id: Identifier) {
      all || id in ids
    }
  }

  class BlockSet {
    var all: bool
    var ids: set<Identifier>

    function Value(): Blocks
      reads this
    {
      Blocks(all, ids)
    }

    constructor (open: Blocks)
      ensures Value() == open
    {
      all, ids := open.all, open.ids;
    }

    /** Takes in the blocks a call raised. */
    method Add(blocks: seq<Block>)
      modifies this
      ensures forall id :: Value().Covers(id) <==> old(Value()).Covers(id) || Everything in blocks || Only(id) in blocks
    {
      for i := 0 to |blocks|
        invariant all <==> old(all) || Everything in blocks[..i]
        invariant forall id :: id in ids <==> id in old(ids) || Only(id) in blocks[..i]
      {
        assert blocks[..i + 1] == blocks[..i] + [blocks[i]];
        match blocks[i]
        case Everything => all := true;
        case Only(id) => ids := ids + {id};
      }
      assert blocks[..|blocks|] == blocks;
    }
  }

  // ----- One chunk -----

  /** What the n-th request of a call gets. */
  function OutcomeOf(result: Result, n: nat): Outcome {
    match result
    case Failed(fail) => if fail.temporary then FailedTemporary else FailedPermanent
    case Answered(answers) =>
      if n >= |answers| then FailedTemporary
      else if answers[n].None? then Served
      else if answers[n].value.temporary then FailedTemporary
      else FailedPermanent
  }

  /** The block that the n-th request's own failure raises. */
  predicate RaisesOwn(result: Result, n: nat) {
    && result.Answered? && n < |result.answers| && result.answers[n].Some?
    && !result.answers[n].value.temporary && !result.answers[n].value.scope.RequestScope?
  }

  function OnlyAll(ids: seq<Identifier>): (r: seq<Block>)
    ensures Everything !in r && forall id :: Only(id) in r <==> id in ids
  {
    var r := seq(|ids|, i requires 0 <= i < |ids| => Only(ids[i]));
    assert forall i :: 0 <= i < |ids| ==> r[i] == Only(ids[i]);
    r
  }

  /** One call: the requests it carried, by their places, what came of it and the provider calls it cost. */
  datatype Call = Call(sent: seq<nat>, ids: seq<Identifier>, result: Result, attempts: nat)

  ghost predicate RaisesAt(call: Call, n: nat, id: Identifier) {
    n < |call.ids| && call.ids[n] == id && RaisesOwn(call.result, n)
  }

  /**
   * The call raises a block that covers id: only a permanent failure does, and never one about
   * the request alone. The failure of one request blocks its own identifier; that of the whole
   * call blocks every identifier it carried, or the datasource.
   */
  ghost predicate Raises(call: Call, id: Identifier) {
    match call.result
    case Answered(_) => exists n: nat :: RaisesAt(call, n, id)
    case Failed(fail) => !fail.temporary && !fail.scope.RequestScope? && (fail.scope.DatasourceScope? || id in call.ids)
  }

  function SentIds(keys: seq<FetchKey>, batch: seq<nat>): (r: seq<Identifier>)
    requires forall n :: 0 <= n < |batch| ==> batch[n] < |keys| && keys[batch[n]].sent.Some?
    ensures |r| == |batch| && forall n :: 0 <= n < |batch| ==> r[n] == keys[batch[n]].sent.value
  {
    seq(|batch|, n requires 0 <= n < |batch| => keys[batch[n]].sent.value)
  }

  /** The call filled the keys of its requests and no other. */
  ghost predicate Filled(before: seq<FetchKey>, after: seq<FetchKey>, call: Call) {
    && |after| == |before|
    && (forall n: nat :: n < |call.sent| && call.sent[n] < |before| ==>
          after[call.sent[n]] == before[call.sent[n]].(outcome := OutcomeOf(call.result, n), attempts := call.attempts))
    && (forall i :: 0 <= i < |before| && i !in call.sent ==> after[i] == before[i])
  }

  /** The outcome of the n-th request of a call, and whether its own failure raises a block. */
  method ReadAnswer(got: Result, n: nat) returns (outcome: Outcome, raises: bool)
    ensures outcome == OutcomeOf(got, n) && raises == RaisesOwn(got, n)
  {
    outcome, raises := FailedTemporary, false;
    match got
    case Failed(fail) =>
      outcome := if fail.temporary then FailedTemporary else FailedPermanent;
    case Answered(answers) =>
      if n < |answers| {
        if answers[n].None? {
          outcome := Served;
        } else if !answers[n].value.temporary {
          outcome := FailedPermanent;
          raises := !answers[n].value.scope.RequestScope?;
        }
      }
  }

  /** Sends the requests of the batch in one call and fills their keys. */
  method FetchChunk(keys: array<FetchKey>, batch: seq<nat>, tries: int, world: nat -> Attempt)
      returns (blocks: seq<Block>, ghost call: Call)
    requires Increasing(batch) && batch != []
    requires forall n :: 0 <= n < |batch| ==> batch[n] < keys.Length && keys[batch[n]].sent.Some?
    modifies keys
    ensures call.sent == batch && call.ids == SentIds(old(keys[..]), batch)
    ensures CameFrom(call.result, call.attempts, tries, world)
    ensures Filled(old(keys[..]), keys[..], call)
    ensures forall id :: Everything in blocks || Only(id) in blocks <==> Raises(call, id)
  {
    var got, made := Request(tries, world);
    var ids := SentIds(keys[..], batch);
    call := Call(batch, ids, got, made);
    blocks := [];
    for n := 0 to |batch|
      invariant forall m: nat :: m < n ==> keys[batch[m]] == old(keys[batch[m]]).(outcome := OutcomeOf(got, m), attempts := made)
      invariant forall i :: 0 <= i < keys.Length && i !in batch[..n] ==> keys[i] == old(keys[i])
      invariant Everything !in blocks
      invariant forall id :: Only(id) in blocks <==> exists m: nat :: m < n && RaisesAt(call, m, id)
    {
      assert batch[..n + 1] == batch[..n] + [batch[n]];
      assert batch[n] !in batch[..n];
      assert keys[batch[n]] == old(keys[batch[n]]);
      var outcome, raises := ReadAnswer(got, n);
      keys[batch[n]] := keys[batch[n]].(outcome := outcome, attempts := made);
      if raises {
        assert RaisesAt(call, n, ids[n]);
        blocks := blocks + [Only(ids[n])];
      }
    }
    if got.Failed? && !got.fail.temporary && !got.fail.scope.RequestScope? {
      blocks := if got.fail.scope.DatasourceScope? then [Everything] else OnlyAll(ids);
    }
  }

  // ----- A whole fetch -----

  /** Call d, one of the first c, raises a block that covers id. */
  ghost predicate RaisedBefore(calls: seq<Call>, c: nat, d: nat, id: Identifier) {
    d < c && d < |calls| && Raises(calls[d], id)
  }

  /** A block open as the fetch began, or raised by one of the first c calls, covers id. */
  ghost predicate IsBlocked(open: Blocks, calls: seq<Call>, c: nat, id: Identifier) {
    open.Covers(id) || exists d: nat :: RaisedBefore(calls, c, d, id)
  }

  /** The calls made later raise no block before themselves. */
  lemma BlocksPrefix(open: Blocks, calls: seq<Call>, next: seq<Call>, c: nat, id: Identifier)
    requires c <= |calls| <= |next| && next[..|calls|] == calls
    ensures IsBlocked(open, next, c, id) <==> IsBlocked(open, calls, c, id)
  {
    assert forall d: nat :: RaisedBefore(next, c, d, id) ==> next[d] == calls[d];
    forall d: nat
      ensures RaisedBefore(next, c, d, id) <==> RaisedBefore(calls, c, d, id)
    {
      assert d < c ==> next[d] == calls[d];
    }
  }

  /** The set covers what is open and what the calls raised. */
  ghost predicate Tracks(blocked: Blocks, open: Blocks, calls: seq<Call>) {
    forall id :: blocked.Covers(id) <==> IsBlocked(open, calls, |calls|, id)
  }

  lemma TracksNext(was: Blocks, now: Blocks, open: Blocks, calls: seq<Call>, next: seq<Call>, call: Call)
    requires Tracks(was, open, calls) && next == calls + [call]
    requires forall id :: now.Covers(id) <==> was.Covers(id) || Raises(call, id)
    ensures Tracks(now, open, next)
  {
    forall id
      ensures now.Covers(id) <==> IsBlocked(open, next, |next|, id)
    {
      BlocksPrefix(open, calls, next, |calls|, id);
      assert Raises(call, id) ==> RaisedBefore(next, |next|, |calls|, id);
      assert forall d: nat :: RaisedBefore(next, |calls|, d, id) ==> RaisedBefore(next, |next|, d, id);
      assert forall d: nat :: RaisedBefore(next, |next|, d, id) ==> RaisedBefore(next, |calls|, d, id) || d == |calls|;
    }
  }

  /** What a request has before any call: the server's refusal, the cache's answer or an open block; else nothing yet. */
  function Initial(request: Option<Identifier>, hit: bool, open: Blocks): FetchKey {
    if request.None? then FetchKey(None, NotServed, 0, false)
    else if hit then FetchKey(request, Served, 0, true)
    else FetchKey(request, if open.Covers(request.value) then Blocked else Unset, 0, false)
  }

  /** Call c carried request i as its n-th. */
  predicate Carried(calls: seq<Call>, c: nat, n: nat, i: nat) {
    c < |calls| && n < |calls[c].sent| && calls[c].sent[n] == i
  }

  ghost predicate IsCarried(calls: seq<Call>, i: nat) {
    exists c: nat, n: nat :: Carried(calls, c, n, i)
  }

  /**
   * A fetch: for each request the identifier the server sends it under, and whether the cache
   * holds its answer; the blocks open as it begins, and what the world does at each attempt of each call.
   */
  datatype Fetch = Fetch(requests: seq<Option<Identifier>>, hits: seq<bool>, open: Blocks, world: nat -> nat -> Attempt)

  ghost predicate InFetch(f: Fetch, i: nat) {
    i < |f.requests| == |f.hits|
  }

  function InitialOf(f: Fetch, i: nat): FetchKey
    requires InFetch(f, i)
  {
    Initial(f.requests[i], f.hits[i], f.open)
  }

  /**
   * A request that a call carried: it was not served from the cache, no block open or raised by
   * an earlier call covered it, and it has the outcome of the call.
   */
  ghost predicate CarriedRight(f: Fetch, keys: seq<FetchKey>, calls: seq<Call>, c: nat, n: nat)
    requires c < |calls| && n < |calls[c].sent|
  {
    var i := calls[c].sent[n];
    && InFetch(f, i) && |keys| == |f.requests|
    && InitialOf(f, i).outcome.Unset?
    && n < |calls[c].ids| && f.requests[i] == Some(calls[c].ids[n])
    && !IsBlocked(f.open, calls, c, calls[c].ids[n])
    && keys[i] == FetchKey(f.requests[i], OutcomeOf(calls[c].result, n), calls[c].attempts, false)
  }

  /** A call that carried something, with the result and the cost that the world gave it. */
  ghost predicate MadeRight(f: Fetch, tries: int, calls: seq<Call>, c: nat) {
    c < |calls| ==>
      && calls[c].sent != [] && |calls[c].ids| == |calls[c].sent|
      && CameFrom(calls[c].result, calls[c].attempts, tries, f.world(c))
  }

  /** Call d, which carried requests before i only, raised a block that covers i. */
  ghost predicate SuppressedBy(f: Fetch, calls: seq<Call>, d: nat, i: nat)
    requires InFetch(f, i)
  {
    d < |calls| && f.requests[i].Some? && Raises(calls[d], f.requests[i].value) && AllBelow(calls[d].sent, [i])
  }

  ghost predicate Suppressed(f: Fetch, calls: seq<Call>, i: nat)
    requires InFetch(f, i)
  {
    exists d: nat :: SuppressedBy(f, calls, d, i)
  }

  /** A request that no call carried: refused, cached, under an open block, or suppressed by the block of a call made before its turn. */
  ghost predicate NotCarriedRight(f: Fetch, keys: seq<FetchKey>, calls: seq<Call>, i: nat)
    requires InFetch(f, i) && |keys| == |f.requests|
  {
    if !InitialOf(f, i).outcome.Unset? then keys[i] == InitialOf(f, i)
    else keys[i] == InitialOf(f, i).(outcome := Blocked) && Suppressed(f, calls, i)
  }

  ghost predicate CallRight(f: Fetch, keys: seq<FetchKey>, calls: seq<Call>, upTo: nat, c: nat, n: nat) {
    c < |calls| && n < |calls[c].sent| ==> CarriedRight(f, keys, calls, c, n) && calls[c].sent[n] < upTo
  }

  /** The calls carry the requests in their order, so that no request is carried twice. */
  ghost predicate InOrder(calls: seq<Call>) {
    && (forall c :: 0 <= c < |calls| ==> Increasing(calls[c].sent))
    && (forall c, d :: 0 <= c < d < |calls| ==> AllBelow(calls[c].sent, calls[d].sent))
  }

  ghost predicate AllBelow(xs: seq<nat>, ys: seq<nat>) {
    forall x, y :: x in xs && y in ys ==> x < y
  }

  ghost predicate RestRight(f: Fetch, keys: seq<FetchKey>, calls: seq<Call>, upTo: nat, i: nat) {
    InFetch(f, i) && |keys| == |f.requests| && !IsCarried(calls, i) ==>
      if i < upTo then NotCarriedRight(f, keys, calls, i) else keys[i] == InitialOf(f, i)
  }

  /** Everything a fetch promises of the requests below a place, once they are settled. */
  ghost predicate Settled(f: Fetch, tries: int, keys: seq<FetchKey>, calls: seq<Call>, upTo: nat) {
    && |keys| == |f.requests| == |f.hits|
    && InOrder(calls)
    && (forall c: nat :: MadeRight(f, tries, calls, c))
    && (forall c: nat, n: nat :: CallRight(f, keys, calls, upTo, c, n))
    && (forall i: nat :: RestRight(f, keys, calls, upTo, i))
  }

  /** No request is carried by two calls, or twice by one. */
  lemma CarriedOnce(calls: seq<Call>, c: nat, n: nat, d: nat, m: nat, i: nat)
    requires InOrder(calls) && Carried(calls, c, n, i) && Carried(calls, d, m, i)
    ensures c == d && n == m
  {
    assert i in calls[c].sent && i in calls[d].sent;
    assert c < d ==> AllBelow(calls[c].sent, calls[d].sent);
    assert d < c ==> AllBelow(calls[d].sent, calls[c].sent);
    assert Increasing(calls[c].sent);
  }

  // ----- One chunk settles its requests -----

  /** What sending one chunk does: the blocked requests are marked, and the others carried by one call. */
  ghost predicate ChunkSent(f: Fetch, tries: int, before: seq<FetchKey>, after: seq<FetchKey>, calls: seq<Call>, next: seq<Call>,
                            chunk: seq<nat>, send: seq<nat>) {
    && |after| == |before| == |f.requests| == |f.hits|
    && Increasing(send)
    && (forall i :: i in chunk ==> ChunkKey(f, before, after, calls, send, i))
    && (forall i :: i in send ==> i in chunk)
    && (forall i :: 0 <= i < |before| && i !in chunk ==> after[i] == before[i])
    && (if send == [] then next == calls else
          |next| == |calls| + 1 && next[..|calls|] == calls && CallMade(f, tries, before, after, |calls|, next[|calls|], send))
  }

  ghost predicate ChunkKey(f: Fetch, before: seq<FetchKey>, after: seq<FetchKey>, calls: seq<Call>, send: seq<nat>, i: nat) {
    && InFetch(f, i) && i < |before| == |after| && f.requests[i].Some?
    && (i in send <==> !IsBlocked(f.open, calls, |calls|, f.requests[i].value))
    && (i !in send ==> after[i] == before[i].(outcome := Blocked))
  }

  ghost predicate CallMade(f: Fetch, tries: int, before: seq<FetchKey>, after: seq<FetchKey>, c: nat, call: Call, send: seq<nat>) {
    && call.sent == send && |call.ids| == |send| && CameFrom(call.result, call.attempts, tries, f.world(c))
    && |after| == |before|
    && forall n: nat :: n < |send| ==> CallKey(f, before, after, call, send, n)
  }

  ghost predicate CallKey(f: Fetch, before: seq<FetchKey>, after: seq<FetchKey>, call: Call, send: seq<nat>, n: nat)
    requires n < |send| == |call.ids| && |after| == |before|
  {
    && InFetch(f, send[n]) && send[n] < |before| && f.requests[send[n]] == Some(call.ids[n])
    && after[send[n]] == before[send[n]].(outcome := OutcomeOf(call.result, n), attempts := call.attempts)
  }

  /** The chunk is what has nothing yet between the two places. */
  ghost predicate ChunkOf(f: Fetch, chunk: seq<nat>, upTo: nat, then': nat) {
    && upTo <= then'
    && forall i: nat :: InFetch(f, i) ==> (i in chunk <==> upTo <= i < then' && InitialOf(f, i).outcome.Unset?)
  }

  lemma CarriedOld(calls: seq<Call>, next: seq<Call>, c: nat, n: nat, i: nat)
    requires |calls| <= |next| && next[..|calls|] == calls && c < |calls|
    ensures Carried(next, c, n, i) <==> Carried(calls, c, n, i)
  {
  }

  /** Calls made before keep what they promised. */
  lemma CarriedKept(f: Fetch, before: seq<FetchKey>, after: seq<FetchKey>, calls: seq<Call>, next: seq<Call>, upTo: nat, c: nat, n: nat)
    requires |calls| <= |next| && next[..|calls|] == calls && c < |calls| && n < |calls[c].sent|
    requires CarriedRight(f, before, calls, c, n) && calls[c].sent[n] < upTo
    requires |after| == |before| && forall i :: 0 <= i < |before| && i < upTo ==> after[i] == before[i]
    ensures CarriedRight(f, after, next, c, n)
  {
    assert next[c] == calls[c];
    BlocksPrefix(f.open, calls, next, c, calls[c].ids[n]);
  }

  lemma NewCallRight(f: Fetch, tries: int, before: seq<FetchKey>, after: seq<FetchKey>, calls: seq<Call>, next: seq<Call>,
                     chunk: seq<nat>, send: seq<nat>, upTo: nat, then': nat, n: nat)
    requires ChunkSent(f, tries, before, after, calls, next, chunk, send) && ChunkOf(f, chunk, upTo, then')
    requires n < |send| && InFetch(f, send[n]) && before[send[n]] == InitialOf(f, send[n])
    ensures CarriedRight(f, after, next, |calls|, n)
  {
    var i := send[n];
    assert i in send && i in chunk;
    assert ChunkKey(f, before, after, calls, send, i);
    assert CallKey(f, before, after, next[|calls|], send, n);
    BlocksPrefix(f.open, calls, next, |calls|, next[|calls|].ids[n]);
  }

  lemma ChunkSettles(f: Fetch, tries: int, before: seq<FetchKey>, after: seq<FetchKey>, calls: seq<Call>, next: seq<Call>,
                     chunk: seq<nat>, send: seq<nat>, upTo: nat, then': nat)
    requires Settled(f, tries, before, calls, upTo)
    requires ChunkSent(f, tries, before, after, calls, next, chunk, send) && ChunkOf(f, chunk, upTo, then')
    ensures Settled(f, tries, after, next, then')
  {
    forall c: nat
      ensures MadeRight(f, tries, next, c)
    {
      if c < |calls| {
        assert MadeRight(f, tries, calls, c) && next[c] == calls[c];
      }
    }
    forall c: nat, n: nat
      ensures CallRight(f, after, next, then', c, n)
    {
      if c < |next| && n < |next[c].sent| {
        CallKept(f, tries, before, after, calls, next, chunk, send, upTo, then', c, n);
      }
    }
    OrderKept(f, tries, before, after, calls, next, chunk, send, upTo, then');
    forall i: nat
      ensures RestRight(f, after, next, then', i)
    {
      if InFetch(f, i) && !IsCarried(next, i) {
        NotCarriedKept(f, tries, before, after, calls, next, chunk, send, upTo, then', i);
      }
    }
  }

  lemma CallKept(f: Fetch, tries: int, before: seq<FetchKey>, after: seq<FetchKey>, calls: seq<Call>, next: seq<Call>,
                 chunk: seq<nat>, send: seq<nat>, upTo: nat, then': nat, c: nat, n: nat)
    requires Settled(f, tries, before, calls, upTo)
    requires ChunkSent(f, tries, before, after, calls, next, chunk, send) && ChunkOf(f, chunk, upTo, then')
    requires c < |next| && n < |next[c].sent|
    ensures CarriedRight(f, after, next, c, n) && next[c].sent[n] < then'
  {
    ChunkNotCarried(f, tries, before, calls, chunk, upTo, then');
    if c < |calls| {
      assert next[c] == calls[c];
      assert CallRight(f, before, calls, upTo, c, n);
      CarriedKept(f, before, after, calls, next, upTo, c, n);
    } else {
      assert send[n] in send && send[n] in chunk;
      assert ChunkKey(f, before, after, calls, send, send[n]);
      NewCallRight(f, tries, before, after, calls, next, chunk, send, upTo, then', n);
    }
  }

  lemma ChunkNotCarried(f: Fetch, tries: int, before: seq<FetchKey>, calls: seq<Call>, chunk: seq<nat>, upTo: nat, then': nat)
    requires Settled(f, tries, before, calls, upTo) && ChunkOf(f, chunk, upTo, then')
    ensures forall i: nat :: InFetch(f, i) && upTo <= i ==> before[i] == InitialOf(f, i)
    ensures forall i :: 0 <= i < |before| && i < upTo ==> i !in chunk
  {
    forall i: nat | InFetch(f, i) && upTo <= i
      ensures before[i] == InitialOf(f, i)
    {
      NotYetCarried(f, tries, before, calls, upTo, i);
      assert RestRight(f, before, calls, upTo, i);
    }
    assert forall i :: 0 <= i < |before| ==> InFetch(f, i);
  }

  lemma NotYetCarried(f: Fetch, tries: int, keys: seq<FetchKey>, calls: seq<Call>, upTo: nat, i: nat)
    requires Settled(f, tries, keys, calls, upTo) && upTo <= i
    ensures !IsCarried(calls, i)
  {
    forall c: nat, n: nat
      ensures !Carried(calls, c, n, i)
    {
      assert CallRight(f, keys, calls, upTo, c, n);
    }
  }

  lemma OrderKept(f: Fetch, tries: int, before: seq<FetchKey>, after: seq<FetchKey>, calls: seq<Call>, next: seq<Call>,
                  chunk: seq<nat>, send: seq<nat>, upTo: nat, then': nat)
    requires Settled(f, tries, before, calls, upTo)
    requires ChunkSent(f, tries, before, after, calls, next, chunk, send) && ChunkOf(f, chunk, upTo, then')
    ensures InOrder(next)
  {
    forall c, d | 0 <= c < d < |next|
      ensures AllBelow(next[c].sent, next[d].sent)
    {
      assert next[c] == calls[c];
      if d < |calls| {
        assert next[d] == calls[d];
      } else {
        SendAbove(f, tries, before, after, calls, next, chunk, send, upTo, then', c);
      }
    }
    assert forall c :: 0 <= c < |calls| ==> next[c] == calls[c];
  }

  lemma SendAbove(f: Fetch, tries: int, before: seq<FetchKey>, after: seq<FetchKey>, calls: seq<Call>, next: seq<Call>,
                  chunk: seq<nat>, send: seq<nat>, upTo: nat, then': nat, c: nat)
    requires Settled(f, tries, before, calls, upTo) && c < |calls|
    requires ChunkSent(f, tries, before, after, calls, next, chunk, send) && ChunkOf(f, chunk, upTo, then')
    ensures AllBelow(calls[c].sent, send)
  {
    forall x, y | x in calls[c].sent && y in send
      ensures x < y
    {
      var n: nat :| n < |calls[c].sent| && calls[c].sent[n] == x;
      assert CallRight(f, before, calls, upTo, c, n);
      assert y in chunk;
      assert ChunkKey(f, before, after, calls, send, y);
    }
  }

  lemma NotCarriedKept(f: Fetch, tries: int, before: seq<FetchKey>, after: seq<FetchKey>, calls: seq<Call>, next: seq<Call>,
                       chunk: seq<nat>, send: seq<nat>, upTo: nat, then': nat, i: nat)
    requires Settled(f, tries, before, calls, upTo)
    requires ChunkSent(f, tries, before, after, calls, next, chunk, send) && ChunkOf(f, chunk, upTo, then')
    requires InFetch(f, i) && !IsCarried(next, i)
    ensures if i < then' then NotCarriedRight(f, after, next, i) else after[i] == InitialOf(f, i)
  {
    ChunkNotCarried(f, tries, before, calls, chunk, upTo, then');
    CarriedBefore(calls, next, i);
    assert RestRight(f, before, calls, upTo, i);
    if Suppressed(f, calls, i) {
      SuppressedKept(f, calls, next, i);
    }
    if i in chunk {
      assert ChunkKey(f, before, after, calls, send, i);
      NotInSend(f, tries, before, after, calls, next, chunk, send, i);
      NowSuppressed(f, tries, before, calls, next, upTo, i);
    }
  }

  lemma CarriedBefore(calls: seq<Call>, next: seq<Call>, i: nat)
    requires |calls| <= |next| && next[..|calls|] == calls && !IsCarried(next, i)
    ensures !IsCarried(calls, i)
  {
    forall c: nat, n: nat
      ensures !Carried(calls, c, n, i)
    {
      if c < |calls| {
        CarriedOld(calls, next, c, n, i);
        assert !Carried(next, c, n, i);
      }
    }
  }

  lemma NotInSend(f: Fetch, tries: int, before: seq<FetchKey>, after: seq<FetchKey>, calls: seq<Call>, next: seq<Call>,
                  chunk: seq<nat>, send: seq<nat>, i: nat)
    requires ChunkSent(f, tries, before, after, calls, next, chunk, send) && !IsCarried(next, i)
    ensures i !in send
  {
    forall n: nat | n < |send|
      ensures send[n] != i
    {
      assert next[|calls|].sent == send;
      assert !Carried(next, |calls|, n, i);
    }
  }

  /** A block that suppresses a request still does so after another call. */
  lemma SuppressedKept(f: Fetch, calls: seq<Call>, next: seq<Call>, i: nat)
    requires InFetch(f, i) && |calls| <= |next| && next[..|calls|] == calls && Suppressed(f, calls, i)
    ensures Suppressed(f, next, i)
  {
    var d: nat :| SuppressedBy(f, calls, d, i);
    assert next[d] == calls[d];
    assert SuppressedBy(f, next, d, i);
  }

  /** A request that is blocked as its turn comes is under the block of a call that carried requests before it. */
  lemma NowSuppressed(f: Fetch, tries: int, keys: seq<FetchKey>, calls: seq<Call>, next: seq<Call>, upTo: nat, i: nat)
    requires Settled(f, tries, keys, calls, upTo) && upTo <= i && InFetch(f, i) && InitialOf(f, i).outcome.Unset?
    requires |calls| <= |next| && next[..|calls|] == calls
    requires IsBlocked(f.open, calls, |calls|, f.requests[i].value)
    ensures Suppressed(f, next, i)
  {
    var d: nat :| RaisedBefore(calls, |calls|, d, f.requests[i].value);
    forall x | x in calls[d].sent
      ensures x < i
    {
      var n: nat :| n < |calls[d].sent| && calls[d].sent[n] == x;
      assert CallRight(f, keys, calls, upTo, d, n);
    }
    assert next[d] == calls[d];
    assert SuppressedBy(f, next, d, i);
  }

  // ----- The loop over the chunks -----

  /** Runs that make up the batch: each of the size but the last, which is no longer, or one where size is not positive. */
  ghost predicate AreRuns(batch: seq<nat>, size: int, out: seq<seq<nat>>) {
    && Concat(out) == batch
    && (forall k :: 0 <= k < |out| ==> out[k] != [] && (size > 0 ==> |out[k]| <= size))
    && (forall k :: 0 <= k < |out| - 1 ==> |out[k]| == size)
  }

  /** The batch leaves one way to split it. */
  lemma RunsOnce(batch: seq<nat>, size: int, xs: seq<seq<nat>>, ys: seq<seq<nat>>)
    requires AreRuns(batch, size, xs) && AreRuns(batch, size, ys)
    ensures xs == ys
  {
    var n := if |xs| <= |ys| then |xs| else |ys|;
    RunsAgree(batch, size, xs, ys, n);
    if n == |xs| {
      RunsAsMany(batch, size, xs, ys);
    } else {
      RunsAsMany(batch, size, ys, xs);
    }
    assert xs[..n] == xs && ys[..n] == ys;
  }

  lemma RunsAsMany(batch: seq<nat>, size: int, xs: seq<seq<nat>>, ys: seq<seq<nat>>)
    requires AreRuns(batch, size, xs) && AreRuns(batch, size, ys) && |xs| <= |ys| && xs[..|xs|] == ys[..|xs|]
    ensures |xs| == |ys|
  {
    if |xs| < |ys| {
      assert ys[..|xs|] == xs;
      ConcatPrefix(ys, |xs|);
    }
  }

  lemma {:induction false} RunsAgree(batch: seq<nat>, size: int, xs: seq<seq<nat>>, ys: seq<seq<nat>>, k: nat)
    requires AreRuns(batch, size, xs) && AreRuns(batch, size, ys) && k <= |xs| && k <= |ys|
    ensures xs[..k] == ys[..k]
  {
    if k > 0 {
      RunsAgree(batch, size, xs, ys, k - 1);
      RunIs(batch, size, xs, k - 1);
      RunIs(batch, size, ys, k - 1);
      assert xs[..k] == xs[..k - 1] + [xs[k - 1]] && ys[..k] == ys[..k - 1] + [ys[k - 1]];
    }
  }

  /** The next run of what is left of the batch after the first n. */
  function RunAfter(batch: seq<nat>, size: int, n: nat): seq<nat>
    requires n <= |batch|
  {
    if 0 < size < |batch| - n then batch[n..n + size] else batch[n..]
  }

  lemma RunIs(batch: seq<nat>, size: int, xs: seq<seq<nat>>, k: nat)
    requires AreRuns(batch, size, xs) && k < |xs|
    ensures |Concat(xs[..k])| <= |batch| && xs[k] == RunAfter(batch, size, |Concat(xs[..k])|)
  {
    ConcatPrefix(xs, k);
    if k == |xs| - 1 {
      assert xs[..k + 1] == xs;
    } else {
      ConcatPrefix(xs, k + 1);
    }
  }

  /** Splits the batch into runs of size requests, or one run where size is not positive. */
  method Chunks(batch: seq<nat>, size: int) returns (out: seq<seq<nat>>)
    ensures AreRuns(batch, size, out)
  {
    out := [];
    if size <= 0 {
      if batch != [] {
        ConcatAppend([], batch);
        out := [batch];
        assert [] + [batch] == out;
      }
      return;
    }
    var p := 0;
    while p < |batch|
      invariant 0 <= p <= |batch| && AreRuns(batch[..p], size, out)
      invariant p < |batch| ==> forall k :: 0 <= k < |out| ==> |out[k]| == size
    {
      var n := if p + size < |batch| then p + size else |batch|;
      ConcatAppend(out, batch[p..n]);
      assert batch[..n] == batch[..p] + batch[p..n];
      out := out + [batch[p..n]];
      p := n;
    }
    assert batch[..p] == batch;
  }

  lemma {:induction false} ConcatPrefix(chunks: seq<seq<nat>>, k: nat)
    requires k < |chunks|
    ensures |Concat(chunks[..k])| + |chunks[k]| <= |Concat(chunks)|
    ensures Concat(chunks)[|Concat(chunks[..k])|..|Concat(chunks[..k])| + |chunks[k]|] == chunks[k]
    ensures Concat(chunks[..k + 1]) == Concat(chunks[..k]) + chunks[k]
  {
    var n := |chunks| - 1;
    var front := chunks[..n];
    assert chunks == front + [chunks[n]];
    assert chunks[..k + 1] == chunks[..k] + [chunks[k]];
    ConcatAppend(chunks[..k], chunks[k]);
    ConcatAppend(front, chunks[n]);
    if k == n {
      assert chunks[..k] == front;
    } else {
      assert front[..k] == chunks[..k];
      ConcatPrefix(front, k);
    }
  }

  // ----- Which calls are made -----

  /** send are, in their order, the requests of the chunk that no block open or raised so far covers. */
  ghost predicate IsSend(f: Fetch, calls: seq<Call>, chunk: seq<nat>, send: seq<nat>) {
    && Increasing(send)
    && forall i: nat :: i in send <==> Sendable(f, calls, chunk, i)
  }

  ghost predicate Sendable(f: Fetch, calls: seq<Call>, chunk: seq<nat>, i: nat) {
    i in chunk && InFetch(f, i) && f.requests[i].Some? && !IsBlocked(f.open, calls, |calls|, f.requests[i].value)
  }

  /** The call carried its requests under their identifiers. */
  ghost predicate Identified(f: Fetch, call: Call) {
    && |call.ids| == |call.sent|
    && forall n: nat :: n < |call.sent| ==> InFetch(f, call.sent[n]) && f.requests[call.sent[n]] == Some(call.ids[n])
  }

  /** The chunk makes one call, of what is not blocked, or none where all of it is. */
  ghost predicate NextCalls(f: Fetch, tries: int, chunk: seq<nat>, calls: seq<Call>, next: seq<Call>) {
    if |next| == |calls| then next == calls && IsSend(f, calls, chunk, []) else
      && |next| == |calls| + 1 && next[..|calls|] == calls
      && next[|calls|].sent != [] && IsSend(f, calls, chunk, next[|calls|].sent) && Identified(f, next[|calls|])
      && CameFrom(next[|calls|].result, next[|calls|].attempts, tries, f.world(|calls|))
  }

  /** The calls made over the first k chunks. */
  ghost predicate Ran(f: Fetch, tries: int, chunks: seq<seq<nat>>, k: nat, calls: seq<Call>)
    requires k <= |chunks|
  {
    if k == 0 then calls == [] else
      exists before :: NextAt(f, tries, chunks, k, before, calls) && Ran(f, tries, chunks, k - 1, before)
  }

  ghost predicate NextAt(f: Fetch, tries: int, chunks: seq<seq<nat>>, k: nat, calls: seq<Call>, next: seq<Call>) {
    0 < k <= |chunks| && NextCalls(f, tries, chunks[k - 1], calls, next)
  }

  lemma RanNext(f: Fetch, tries: int, chunks: seq<seq<nat>>, k: nat, calls: seq<Call>, next: seq<Call>)
    requires k < |chunks| && Ran(f, tries, chunks, k, calls) && NextCalls(f, tries, chunks[k], calls, next)
    ensures Ran(f, tries, chunks, k + 1, next)
  {
    assert NextAt(f, tries, chunks, k + 1, calls, next);
  }

  /** The calls are those of the batch, run by run. */
  ghost predicate AreCalls(f: Fetch, size: int, tries: int, calls: seq<Call>) {
    exists batch, chunks :: IsBatch(f, batch) && AreRuns(batch, size, chunks) && Ran(f, tries, chunks, |chunks|, calls)
  }

  ghost predicate SamePlaces(xs: seq<nat>, ys: seq<nat>) {
    forall i: nat :: i in xs <==> i in ys
  }

  lemma PlacesOnce(xs: seq<nat>, ys: seq<nat>)
    requires Increasing(xs) && Increasing(ys) && SamePlaces(xs, ys)
    ensures xs == ys
  {
    forall x: int
      ensures x in xs <==> x in ys
    {
      if x in xs {
        var k :| 0 <= k < |xs| && xs[k] == x;
        assert xs[k] in ys;
      }
      if x in ys {
        var k :| 0 <= k < |ys| && ys[k] == x;
        assert ys[k] in xs;
      }
    }
    IncreasingOnce(xs, ys);
  }

  lemma NextCallsOnce(f: Fetch, tries: int, chunk: seq<nat>, calls: seq<Call>, xs: seq<Call>, ys: seq<Call>)
    requires NextCalls(f, tries, chunk, calls, xs) && NextCalls(f, tries, chunk, calls, ys)
    ensures xs == ys
  {
    var n := |calls|;
    var send, other: seq<nat> := if |xs| == n then [] else xs[n].sent, if |ys| == n then [] else ys[n].sent;
    assert forall i: nat :: i in send <==> Sendable(f, calls, chunk, i);
    assert forall i: nat :: i in other <==> Sendable(f, calls, chunk, i);
    PlacesOnce(send, other);
    if send != [] {
      CallOnce(f, tries, xs[n], ys[n], f.world(n));
      assert xs == xs[..n] + [xs[n]] && ys == ys[..n] + [ys[n]];
    }
  }

  lemma CallOnce(f: Fetch, tries: int, c: Call, d: Call, world: nat -> Attempt)
    requires c.sent == d.sent && Identified(f, c) && Identified(f, d)
    requires CameFrom(c.result, c.attempts, tries, world) && CameFrom(d.result, d.attempts, tries, world)
    ensures c == d
  {
    CameFromOnce(c.result, c.attempts, d.result, d.attempts, tries, world);
    forall n: nat | n < |c.ids|
      ensures c.ids[n] == d.ids[n]
    {
      assert f.requests[c.sent[n]] == Some(c.ids[n]) == Some(d.ids[n]);
    }
    assert c.ids == d.ids;
  }

  lemma {:induction false} RanOnce(f: Fetch, tries: int, chunks: seq<seq<nat>>, k: nat, xs: seq<Call>, ys: seq<Call>)
    requires k <= |chunks| && Ran(f, tries, chunks, k, xs) && Ran(f, tries, chunks, k, ys)
    ensures xs == ys
  {
    if k > 0 {
      var x :| NextAt(f, tries, chunks, k, x, xs) && Ran(f, tries, chunks, k - 1, x);
      var y :| NextAt(f, tries, chunks, k, y, ys) && Ran(f, tries, chunks, k - 1, y);
      RanOnce(f, tries, chunks, k - 1, x, y);
      NextCallsOnce(f, tries, chunks[k - 1], x, xs, ys);
    }
  }

  /** The requests, the blocks open and what the provider does decide every call, and what each request gets. */
  lemma FetchOnce(f: Fetch, size: int, tries: int, keys: seq<FetchKey>, calls: seq<Call>, others: seq<FetchKey>, made: seq<Call>)
    requires Settled(f, tries, keys, calls, |f.requests|) && AreCalls(f, size, tries, calls)
    requires Settled(f, tries, others, made, |f.requests|) && AreCalls(f, size, tries, made)
    ensures calls == made && keys == others
  {
    var xs, cs :| IsBatch(f, xs) && AreRuns(xs, size, cs) && Ran(f, tries, cs, |cs|, calls);
    var ys, ds :| IsBatch(f, ys) && AreRuns(ys, size, ds) && Ran(f, tries, ds, |ds|, made);
    PlacesOnce(xs, ys);
    RunsOnce(xs, size, cs, ds);
    RanOnce(f, tries, cs, |cs|, calls, made);
    forall i: nat | i < |keys|
      ensures keys[i] == others[i]
    {
      KeyOnce(f, tries, keys, others, calls, i);
    }
  }

  lemma KeyOnce(f: Fetch, tries: int, keys: seq<FetchKey>, others: seq<FetchKey>, calls: seq<Call>, i: nat)
    requires Settled(f, tries, keys, calls, |f.requests|) && Settled(f, tries, others, calls, |f.requests|) && i < |keys|
    ensures keys[i] == others[i]
  {
    assert RestRight(f, keys, calls, |f.requests|, i) && RestRight(f, others, calls, |f.requests|, i);
    if IsCarried(calls, i) {
      var c: nat, n: nat :| Carried(calls, c, n, i);
      assert CallRight(f, keys, calls, |f.requests|, c, n) && CallRight(f, others, calls, |f.requests|, c, n);
    }
  }

  /** The requests that have nothing yet, in their order. */
  ghost predicate IsBatch(f: Fetch, batch: seq<nat>) {
    && Increasing(batch)
    && forall i: nat :: i in batch <==> InFetch(f, i) && InitialOf(f, i).outcome.Unset?
  }

  /** The place of the next request of the batch after the first p. */
  function PlaceOf(f: Fetch, batch: seq<nat>, p: nat): nat {
    if p < |batch| then batch[p] else |f.requests|
  }

  lemma ChunkIsBetween(f: Fetch, batch: seq<nat>, p: nat, n: nat)
    requires IsBatch(f, batch) && p < n <= |batch|
    ensures ChunkOf(f, batch[p..n], PlaceOf(f, batch, p), PlaceOf(f, batch, n))
    ensures Increasing(batch[p..n]) && PlaceOf(f, batch, n) <= |f.requests|
    ensures forall i :: i in batch[p..n] ==> i < |f.requests|
  {
    assert batch[p] in batch;
    assert n < |batch| ==> batch[n] in batch;
    forall i: nat | InFetch(f, i)
      ensures i in batch[p..n] <==> PlaceOf(f, batch, p) <= i < PlaceOf(f, batch, n) && InitialOf(f, i).outcome.Unset?
    {
      if i in batch {
        var k :| 0 <= k < |batch| && batch[k] == i;
        assert p <= k < n ==> batch[p..n][k - p] == i;
        assert i in batch[p..n] ==> p <= k < n;
      }
    }
  }

  /** The requests of a chunk that no block covers are sent in one call, and the others marked. */
  method SendChunk(ghost f: Fetch, keys: array<FetchKey>, blocked: BlockSet, chunk: seq<nat>, tries: int, world: nat -> Attempt,
                   ghost calls: seq<Call>)
      returns (made: bool, ghost next: seq<Call>, ghost send: seq<nat>)
    requires world == f.world(|calls|)
    requires Increasing(chunk) && keys.Length == |f.requests| == |f.hits|
    requires forall i :: i in chunk ==> i < keys.Length && f.requests[i].Some? && keys[i].sent == f.requests[i]
    requires Tracks(blocked.Value(), f.open, calls)
    modifies keys, blocked
    ensures ChunkSent(f, tries, old(keys[..]), keys[..], calls, next, chunk, send)
    ensures Tracks(blocked.Value(), f.open, next)
    ensures made <==> |next| > |calls|
    ensures |send| <= |chunk|
  {
    var sends := MarkBlocked(f, keys, blocked.Value(), chunk);
    send := sends;
    made, next := false, calls;
    if |sends| == 0 {
      return;
    }
    ghost var marked := keys[..];
    forall n | 0 <= n < |sends|
      ensures sends[n] < |marked| && marked[sends[n]].sent == f.requests[sends[n]] && f.requests[sends[n]].Some?
      ensures marked[sends[n]] == old(keys[sends[n]])
    {
      assert sends[n] in sends && sends[n] in chunk;
    }
    ghost var was := blocked.Value();
    ghost var call;
    var blocks;
    blocks, call := FetchChunk(keys, sends, tries, world);
    blocked.Add(blocks);
    made, next := true, calls + [call];
    TracksNext(was, blocked.Value(), f.open, calls, next, call);
    forall n: nat | n < |sends|
      ensures CallKey(f, old(keys[..]), keys[..], call, sends, n)
    {
    }
    assert next[..|calls|] == calls;
  }

  /** Of the places done, those to send are what no block covers, and the others are marked. */
  ghost predicate Marked(f: Fetch, before: seq<FetchKey>, after: seq<FetchKey>, blocked: Blocks, done: seq<nat>, send: seq<nat>) {
    && |before| == |after| == |f.requests|
    && Increasing(send) && |send| <= |done| && (forall i :: i in send ==> i in done)
    && (forall i :: i in done ==> i < |f.requests| && f.requests[i].Some? && (i in send <==> !blocked.Covers(f.requests[i].value)))
    && (forall i :: 0 <= i < |before| ==> after[i] == if i in done && i !in send then before[i].(outcome := Blocked) else before[i])
  }

  lemma MarkedNext(f: Fetch, before: seq<FetchKey>, now: seq<FetchKey>, blocked: Blocks, done: seq<nat>, send: seq<nat>, i: nat)
    requires Marked(f, before, now, blocked, done, send)
    requires i < |before| && f.requests[i].Some? && forall j :: j in done ==> j < i
    ensures if blocked.Covers(f.requests[i].value) then Marked(f, before, now[i := before[i].(outcome := Blocked)], blocked, done + [i], send)
            else Marked(f, before, now, blocked, done + [i], send + [i])
  {
    IncreasingAppend(send, i);
  }

  method MarkBlocked(ghost f: Fetch, keys: array<FetchKey>, blocked: Blocks, chunk: seq<nat>) returns (send: seq<nat>)
    requires Increasing(chunk) && keys.Length == |f.requests| == |f.hits|
    requires forall i :: i in chunk ==> i < keys.Length && f.requests[i].Some? && keys[i].sent == f.requests[i]
    modifies keys
    ensures Marked(f, old(keys[..]), keys[..], blocked, chunk, send)
  {
    send := [];
    for n := 0 to |chunk|
      invariant Marked(f, old(keys[..]), keys[..], blocked, chunk[..n], send)
    {
      var i := chunk[n];
      assert chunk[..n + 1] == chunk[..n] + [i];
      assert i in chunk && forall x :: x in chunk[..n] ==> x < i;
      MarkedNext(f, old(keys[..]), keys[..], blocked, chunk[..n], send, i);
      assert keys[i] == old(keys[..])[i];
      ghost var now := keys[..];
      if blocked.Covers(keys[i].sent.value) {
        keys[i] := keys[i].(outcome := Blocked);
        assert keys[..] == now[i := keys[i]];
      } else {
        send := send + [i];
      }
    }
    assert chunk[..|chunk|] == chunk;
  }

  lemma NothingSettled(f: Fetch, tries: int, keys: seq<FetchKey>, batch: seq<nat>)
    requires |keys| == |f.requests| == |f.hits| && IsBatch(f, batch)
    requires forall i: nat :: i < |keys| ==> keys[i] == InitialOf(f, i)
    ensures Settled(f, tries, keys, [], PlaceOf(f, batch, 0))
  {
    forall i: nat
      ensures RestRight(f, keys, [], PlaceOf(f, batch, 0), i)
    {
      if InFetch(f, i) && i < PlaceOf(f, batch, 0) {
        assert i in batch <==> InitialOf(f, i).outcome.Unset?;
        assert forall k :: 0 <= k < |batch| ==> batch[0] <= batch[k];
      }
    }
  }

  /** What a request is once the server was asked for it. */
  function Asked(request: Option<Identifier>): FetchKey {
    FetchKey(request, if request.None? then NotServed else Unset, 0, false)
  }

  /** What a request is once the cache was read too. */
  function Looked(request: Option<Identifier>, hit: bool): FetchKey {
    if request.Some? && hit then FetchKey(request, Served, 0, true) else Asked(request)
  }

  /** The places of the requests that the server serves, in their order. */
  ghost predicate AreServed(f: Fetch, served: seq<nat>) {
    Increasing(served) && forall i: nat :: i in served <==> i < |f.requests| && f.requests[i].Some?
  }

  method AskServer(f: Fetch, keys: array<FetchKey>) returns (served: seq<nat>)
    requires keys.Length == |f.requests|
    modifies keys
    ensures forall i: nat :: i < keys.Length ==> keys[i] == Asked(f.requests[i])
    ensures AreServed(f, served)
  {
    served := [];
    for i := 0 to keys.Length
      invariant forall j: nat :: j < i ==> keys[j] == Asked(f.requests[j])
      invariant Increasing(served) && forall j: nat :: j in served <==> j < i && f.requests[j].Some?
    {
      keys[i] := FetchKey(f.requests[i], Unset, 0, false);
      if f.requests[i].None? {
        keys[i] := keys[i].(outcome := NotServed);
      } else {
        IncreasingAppend(served, i);
        served := served + [i];
      }
    }
  }

  method ReadCache(f: Fetch, keys: array<FetchKey>, served: seq<nat>)
    requires keys.Length == |f.requests| == |f.hits| && AreServed(f, served)
    requires forall i: nat :: i < keys.Length ==> keys[i] == Asked(f.requests[i])
    modifies keys
    ensures forall i: nat :: i < keys.Length ==> keys[i] == Looked(f.requests[i], f.hits[i])
  {
    for n := 0 to |served|
      invariant forall i: nat :: i < keys.Length ==>
        keys[i] == if i in served[..n] then Looked(f.requests[i], f.hits[i]) else Asked(f.requests[i])
    {
      var i := served[n];
      assert i in served && served[..n + 1] == served[..n] + [i];
      if f.hits[i] {
        keys[i] := keys[i].(outcome := Served, cached := true);
      }
    }
    assert served[..|served|] == served;
  }

  /** Marks what an open block covers; the batch is what is neither cached nor blocked. */
  method TakeBatch(f: Fetch, keys: array<FetchKey>, served: seq<nat>, blocked: Blocks) returns (batch: seq<nat>)
    requires keys.Length == |f.requests| == |f.hits| && AreServed(f, served) && blocked == f.open
    requires forall i: nat :: i < keys.Length ==> keys[i] == Looked(f.requests[i], f.hits[i])
    modifies keys
    ensures forall i: nat :: i < keys.Length ==> keys[i] == InitialOf(f, i)
    ensures IsBatch(f, batch)
  {
    batch := [];
    for n := 0 to |served|
      invariant forall i: nat :: i < keys.Length ==>
        keys[i] == if i in served[..n] then InitialOf(f, i) else Looked(f.requests[i], f.hits[i])
      invariant Increasing(batch) && forall i: nat :: i in batch <==> i in served[..n] && InFetch(f, i) && InitialOf(f, i).outcome.Unset?
    {
      var i := served[n];
      assert i in served && served[..n + 1] == served[..n] + [i];
      assert i !in served[..n] && forall j :: j in served[..n] ==> j < i;
      if !keys[i].cached {
        if blocked.Covers(keys[i].sent.value) {
          keys[i] := keys[i].(outcome := Blocked);
        } else {
          IncreasingAppend(batch, i);
          batch := batch + [i];
        }
      }
    }
    assert served[..|served|] == served;
    forall i: nat | InFetch(f, i) && i !in served
      ensures Looked(f.requests[i], f.hits[i]) == InitialOf(f, i) && !InitialOf(f, i).outcome.Unset?
    {
    }
  }

  /** No call carries more requests than the provider takes at once. */
  ghost predicate Sized(calls: seq<Call>, size: int) {
    forall c :: 0 <= c < |calls| && size > 0 ==> |calls[c].sent| <= size
  }

  /**
   * Fetches the requests: each is refused, cached, blocked, or carried by exactly one call, with
   * the outcome that the world gave it, and nothing is sent that a block open or raised by an
   * earlier call covers.
   */
  method FetchRun(f: Fetch, size: int, tries: int) returns (keys: seq<FetchKey>, ghost calls: seq<Call>)
    requires |f.requests| == |f.hits|
    ensures Settled(f, tries, keys, calls, |f.requests|) && AreCalls(f, size, tries, calls)
    ensures forall i: nat :: i < |keys| ==> !keys[i].outcome.Unset?
    ensures Sized(calls, size)
  {
    var held := new FetchKey[|f.requests|](_ => FetchKey(None, Unset, 0, false));
    var blocked := new BlockSet(f.open);
    var served := AskServer(f, held);
    ReadCache(f, held, served);
    var batch := TakeBatch(f, held, served, blocked.Value());
    NothingSettled(f, tries, held[..], batch);
    calls := SendAll(f, held, blocked, batch, size, tries);
    keys := held[..];
    forall i: nat | i < |keys|
      ensures !keys[i].outcome.Unset?
    {
      EveryOutcome(f, tries, keys, calls, i);
    }
  }

  /** How many requests the first k chunks hold. */
  ghost function Before(chunks: seq<seq<nat>>, k: nat): nat
    requires k <= |chunks|
  {
    if k == 0 then 0 else Before(chunks, k - 1) + |chunks[k - 1]|
  }

  lemma {:induction false} BeforeIsLength(chunks: seq<seq<nat>>, k: nat)
    requires k <= |chunks|
    ensures Before(chunks, k) == |Concat(chunks[..k])|
  {
    if k > 0 {
      BeforeIsLength(chunks, k - 1);
      ConcatPrefix(chunks, k - 1);
    }
  }

  lemma ChunkSlice(chunks: seq<seq<nat>>, k: nat)
    requires k < |chunks|
    ensures Before(chunks, k + 1) <= |Concat(chunks)|
    ensures Concat(chunks)[Before(chunks, k)..Before(chunks, k + 1)] == chunks[k]
  {
    BeforeIsLength(chunks, k);
    ConcatPrefix(chunks, k);
  }

  lemma ChunkAt(f: Fetch, batch: seq<nat>, chunks: seq<seq<nat>>, k: nat)
    requires IsBatch(f, batch) && Concat(chunks) == batch && k < |chunks| && chunks[k] != []
    ensures ChunkOf(f, chunks[k], PlaceOf(f, batch, Before(chunks, k)), PlaceOf(f, batch, Before(chunks, k + 1)))
    ensures Increasing(chunks[k]) && PlaceOf(f, batch, Before(chunks, k + 1)) <= |f.requests|
    ensures forall i :: i in chunks[k] ==> i < |f.requests|
  {
    ChunkSlice(chunks, k);
    ChunkIsBetween(f, batch, Before(chunks, k), Before(chunks, k + 1));
  }

  lemma AllBefore(chunks: seq<seq<nat>>)
    ensures Before(chunks, |chunks|) == |Concat(chunks)|
  {
    assert chunks[..|chunks|] == chunks;
    BeforeIsLength(chunks, |chunks|);
  }

  /** The first k chunks are sent: their requests are settled, and the set covers what their calls raised. */
  ghost predicate SentSoFar(f: Fetch, tries: int, keys: seq<FetchKey>, blocked: Blocks, batch: seq<nat>, chunks: seq<seq<nat>>, k: nat,
                            calls: seq<Call>) {
    && k <= |chunks| && IsBatch(f, batch) && Concat(chunks) == batch
    && Settled(f, tries, keys, calls, PlaceOf(f, batch, Before(chunks, k)))
    && Ran(f, tries, chunks, k, calls) && Tracks(blocked, f.open, calls)
  }

  /** Sends the batch chunk by chunk. */
  method SendAll(f: Fetch, keys: array<FetchKey>, blocked: BlockSet, batch: seq<nat>, size: int, tries: int) returns (ghost calls: seq<Call>)
    requires IsBatch(f, batch) && Settled(f, tries, keys[..], [], PlaceOf(f, batch, 0))
    requires blocked.Value() == f.open
    modifies keys, blocked
    ensures Settled(f, tries, keys[..], calls, |f.requests|) && AreCalls(f, size, tries, calls)
    ensures Sized(calls, size)
  {
    var chunks := Chunks(batch, size);
    calls := [];
    var made: nat := 0;
    AllBefore(chunks);
    for k := 0 to |chunks|
      invariant SentSoFar(f, tries, keys[..], blocked.Value(), batch, chunks, k, calls)
      invariant made == |calls| && Sized(calls, size)
    {
      var sent;
      sent, calls := SettleChunk(f, keys, blocked, batch, chunks, k, tries, f.world(made), calls);
      made := if sent then made + 1 else made;
    }
  }

  lemma ChunkMakesCall(f: Fetch, tries: int, before: seq<FetchKey>, after: seq<FetchKey>, calls: seq<Call>, next: seq<Call>,
                       chunk: seq<nat>, send: seq<nat>)
    requires ChunkSent(f, tries, before, after, calls, next, chunk, send)
    ensures NextCalls(f, tries, chunk, calls, next)
  {
    forall i: nat
      ensures i in send <==> Sendable(f, calls, chunk, i)
    {
      if i in chunk {
        assert ChunkKey(f, before, after, calls, send, i);
      }
    }
    if send != [] {
      var call := next[|calls|];
      forall n: nat | n < |send|
        ensures InFetch(f, send[n]) && f.requests[send[n]] == Some(call.ids[n])
      {
        assert CallKey(f, before, after, call, send, n);
      }
    }
  }

  /** Sends a chunk, which settles the requests up to the next place. */
  method SettleChunk(ghost f: Fetch, keys: array<FetchKey>, blocked: BlockSet, ghost batch: seq<nat>, chunks: seq<seq<nat>>, k: nat, tries: int,
                     world: nat -> Attempt, ghost calls: seq<Call>)
      returns (made: bool, ghost next: seq<Call>)
    requires k < |chunks| && chunks[k] != [] && SentSoFar(f, tries, keys[..], blocked.Value(), batch, chunks, k, calls)
    requires world == f.world(|calls|)
    modifies keys, blocked
    ensures SentSoFar(f, tries, keys[..], blocked.Value(), batch, chunks, k + 1, next)
    ensures if made then |next| == |calls| + 1 && next[..|calls|] == calls && |next[|calls|].sent| <= |chunks[k]| else next == calls
  {
    ghost var upTo, then' := PlaceOf(f, batch, Before(chunks, k)), PlaceOf(f, batch, Before(chunks, k + 1));
    ChunkAt(f, batch, chunks, k);
    ChunkReady(f, tries, keys[..], calls, chunks[k], upTo, then');
    ghost var before := keys[..];
    ghost var send;
    made, next, send := SendChunk(f, keys, blocked, chunks[k], tries, world, calls);
    ChunkSettles(f, tries, before, keys[..], calls, next, chunks[k], send, upTo, then');
    ChunkMakesCall(f, tries, before, keys[..], calls, next, chunks[k], send);
    RanNext(f, tries, chunks, k, calls, next);
  }

  lemma ChunkReady(f: Fetch, tries: int, keys: seq<FetchKey>, calls: seq<Call>, chunk: seq<nat>, upTo: nat, then': nat)
    requires Settled(f, tries, keys, calls, upTo) && ChunkOf(f, chunk, upTo, then')
    requires forall i :: i in chunk ==> i < |keys|
    ensures forall i :: i in chunk ==> f.requests[i].Some? && keys[i].sent == f.requests[i]
  {
    ChunkNotCarried(f, tries, keys, calls, chunk, upTo, then');
    assert forall i :: i in chunk ==> InFetch(f, i);
  }

  /** Every request ends with an outcome. */
  lemma EveryOutcome(f: Fetch, tries: int, keys: seq<FetchKey>, calls: seq<Call>, i: nat)
    requires Settled(f, tries, keys, calls, |f.requests|) && i < |keys|
    ensures !keys[i].outcome.Unset?
  {
    assert RestRight(f, keys, calls, |f.requests|, i);
    if IsCarried(calls, i) {
      var c: nat, n: nat :| Carried(calls, c, n, i);
      assert CallRight(f, keys, calls, |f.requests|, c, n);
    }
  }

  /** A request the cache answered, the server refused or an open block covered is carried by no call. */
  lemma OnlyUnsettledSent(f: Fetch, tries: int, keys: seq<FetchKey>, calls: seq<Call>, i: nat)
    requires Settled(f, tries, keys, calls, |f.requests|) && InFetch(f, i)
    requires f.requests[i].None? || f.hits[i] || f.open.Covers(f.requests[i].value)
    ensures !IsCarried(calls, i) && keys[i] == InitialOf(f, i) && keys[i].attempts == 0
  {
    forall c: nat, n: nat
      ensures !Carried(calls, c, n, i)
    {
      assert CallRight(f, keys, calls, |f.requests|, c, n);
    }
    assert RestRight(f, keys, calls, |f.requests|, i);
  }

  /**
   * Once a call's permanent failure blocks an identifier, or the datasource, no later call
   * carries a request under it.
   */
  lemma NeverSentAgain(f: Fetch, tries: int, keys: seq<FetchKey>, calls: seq<Call>, c: nat, d: nat, m: nat)
    requires Settled(f, tries, keys, calls, |f.requests|)
    requires c < d < |calls| && m < |calls[d].sent|
    ensures m < |calls[d].ids| && !Raises(calls[c], calls[d].ids[m])
  {
    assert CallRight(f, keys, calls, |f.requests|, d, m);
    assert !RaisedBefore(calls, d, c, calls[d].ids[m]);
  }

  /** No request costs the provider more than the calls allowed. */
  lemma CostBounded(f: Fetch, tries: int, keys: seq<FetchKey>, calls: seq<Call>, i: nat)
    requires Settled(f, tries, keys, calls, |f.requests|) && i < |keys|
    ensures keys[i].attempts <= Most(tries)
  {
    assert RestRight(f, keys, calls, |f.requests|, i);
    if IsCarried(calls, i) {
      var c: nat, n: nat :| Carried(calls, c, n, i);
      assert MadeRight(f, tries, calls, c);
      assert CallRight(f, keys, calls, |f.requests|, c, n);
    }
  }

  /** Where the provider refuses the datasource for good at the first attempt of a call, that call is the last. */
  lemma RefusalEndsFetch(f: Fetch, tries: int, keys: seq<FetchKey>, calls: seq<Call>, c: nat, fail: Failure, cut: Option<Failure>)
    requires Settled(f, tries, keys, calls, |f.requests|) && c < |calls|
    requires f.world(c)(0) == Fails(fail, cut) && !fail.temporary && fail.scope.DatasourceScope?
    ensures |calls| == c + 1
  {
    assert MadeRight(f, tries, calls, c);
    CameFromOnce(calls[c].result, calls[c].attempts, Failed(fail), 1, tries, f.world(c));
    if c + 1 < |calls| {
      assert MadeRight(f, tries, calls, c + 1);
      NeverSentAgain(f, tries, keys, calls, c, c + 1, 0);
    }
  }
}
