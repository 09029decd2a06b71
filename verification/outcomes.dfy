/**
 * What each request of a fetch gets and which it keeps from being sent, told from what the
 * provider does at each attempt (market/fetch.go and market/request.go).
 */
module Outcomes {
  import opened Options
  import opened Sorting
  import opened Identifiers
  import opened Fetches

  // ----- One call -----

  /** The first n attempts failed, each temporarily and not about the datasource, and no wait after one was cut short. */
  ghost predicate Mendable(world: nat -> Attempt, n: nat) {
    forall m: nat :: m < n ==> world(m).Fails? && world(m).fail.temporary && world(m).fail.scope != DatasourceScope && world(m).cut == None
  }

  /** After attempts that may be mended, the next one allowed decides what the call comes to and costs. */
  lemma CallTells(result: Result, attempts: nat, tries: int, world: nat -> Attempt, n: nat)
    requires CameFrom(result, attempts, tries, world) && Mendable(world, n)
    requires n == 0 || n < tries
    ensures world(n).Answers? ==> result == Answered(world(n).answers) && attempts == n + 1
    ensures world(n).Paused? ==> result == Failed(Failure(true, DatasourceScope)) && attempts == n
    ensures world(n).CutBefore? ==> result == Failed(world(n).fail) && attempts == n
    ensures world(n).Fails? && (!world(n).fail.temporary || world(n).fail.scope == DatasourceScope || n + 1 >= tries) ==>
      result == Failed(world(n).fail) && attempts == n + 1
    ensures world(n).Fails? && world(n).fail.temporary && world(n).fail.scope != DatasourceScope && n + 1 < tries && world(n).cut.Some? ==>
      result == Failed(world(n).cut.value) && attempts == n + 1
  {
    forall m: nat | m < n
      ensures Retried(world(m))
    {
    }
    assert attempts < n ==> Retried(world(attempts));
    assert n + 1 < attempts ==> Retried(world(n));
  }

  // ----- What a carried request gets -----

  /** The call came to an answer that holds no failure for its n-th request. */
  ghost predicate AnsweredFor(call: Call, n: nat) {
    call.result.Answered? && n < |call.result.answers| && call.result.answers[n] == None
  }

  /** The call failed as a whole, or its n-th request did, by a failure that is permanent or not. */
  ghost predicate FailedFor(call: Call, n: nat, permanent: bool) {
    || (call.result.Failed? && call.result.fail.temporary != permanent)
    || (call.result.Answered? && n < |call.result.answers| && call.result.answers[n].Some? && call.result.answers[n].value.temporary != permanent)
  }

  /** The answer has nothing for the n-th request. */
  ghost predicate LeftOut(call: Call, n: nat) {
    call.result.Answered? && n >= |call.result.answers|
  }

  lemma CarriedTells(f: Fetch, tries: int, keys: seq<FetchKey>, calls: seq<Call>, c: nat, n: nat)
    requires Settled(f, tries, keys, calls, |f.requests|) && c < |calls| && n < |calls[c].sent|
    ensures var i := calls[c].sent[n];
      && i < |keys| && keys[i].attempts == calls[c].attempts && !keys[i].cached && keys[i].sent == f.requests[i]
      && (keys[i].outcome == Served <==> AnsweredFor(calls[c], n))
      && (keys[i].outcome == FailedPermanent <==> FailedFor(calls[c], n, true))
      && (keys[i].outcome == FailedTemporary <==> FailedFor(calls[c], n, false) || LeftOut(calls[c], n))
  {
    assert CallRight(f, keys, calls, |f.requests|, c, n);
  }

  /** A request whose first attempt at its call is answered without a failure for it is served, at the cost of one attempt. */
  lemma FirstAnswerServes(f: Fetch, tries: int, keys: seq<FetchKey>, calls: seq<Call>, c: nat, n: nat)
    requires Settled(f, tries, keys, calls, |f.requests|) && c < |calls| && n < |calls[c].sent|
    requires f.world(c)(0).Answers? && n < |f.world(c)(0).answers|
    ensures calls[c].sent[n] < |keys|
    ensures var key, answer := keys[calls[c].sent[n]], f.world(c)(0).answers[n];
      && key.attempts == 1
      && (answer == None ==> key.outcome == Served)
      && (answer.Some? ==> key.outcome == if answer.value.temporary then FailedTemporary else FailedPermanent)
  {
    assert MadeRight(f, tries, calls, c);
    CallTells(calls[c].result, calls[c].attempts, tries, f.world(c), 0);
    CarriedTells(f, tries, keys, calls, c, n);
  }

  // ----- What a call keeps from being sent -----

  /**
   * The call blocks id: it failed as a whole for good, about the datasource, or about identifiers of which
   * id is one; or the request it carried under id did, and not about the request alone.
   */
  ghost predicate BlocksLater(call: Call, id: Identifier) {
    || (call.result.Failed? && !call.result.fail.temporary && call.result.fail.scope == DatasourceScope)
    || (call.result.Failed? && !call.result.fail.temporary && call.result.fail.scope == KeyScope && id in call.ids)
    || (call.result.Answered? && exists n: nat :: n < |call.ids| && call.ids[n] == id && OwnBlock(call, n))
  }

  ghost predicate OwnBlock(call: Call, n: nat) {
    && call.result.Answered? && n < |call.result.answers| && call.result.answers[n].Some?
    && !call.result.answers[n].value.temporary && call.result.answers[n].value.scope != RequestScope
  }

  lemma RaisesTells(call: Call, id: Identifier)
    ensures Raises(call, id) <==> BlocksLater(call, id)
  {
    if call.result.Answered? {
      forall n: nat
        ensures RaisesAt(call, n, id) <==> n < |call.ids| && call.ids[n] == id && OwnBlock(call, n)
      {
      }
    }
  }

  /**
   * A call whose first attempt fails, for good or where it is the only one allowed: a permanent
   * failure about identifiers blocks exactly those it carried, one about the datasource all, and
   * one about the request, or a temporary one, none.
   */
  lemma FirstFailureBlocks(f: Fetch, tries: int, keys: seq<FetchKey>, calls: seq<Call>, c: nat, fail: Failure, cut: Option<Failure>, id: Identifier)
    requires Settled(f, tries, keys, calls, |f.requests|) && c < |calls|
    requires f.world(c)(0) == Fails(fail, cut) && (!fail.temporary || tries <= 1)
    ensures BlocksLater(calls[c], id)
       <==> !fail.temporary && (fail.scope == DatasourceScope || (fail.scope == KeyScope && id in calls[c].ids))
  {
    assert MadeRight(f, tries, calls, c);
    CallTells(calls[c].result, calls[c].attempts, tries, f.world(c), 0);
  }

  /** A call that blocks what it carried leaves those requests failed for good: all of them where it failed as a whole, else the one that did. */
  lemma BlockedFailed(f: Fetch, tries: int, keys: seq<FetchKey>, calls: seq<Call>, c: nat, n: nat)
    requires Settled(f, tries, keys, calls, |f.requests|) && c < |calls| && n < |calls[c].sent|
    requires n < |calls[c].ids| && BlocksLater(calls[c], calls[c].ids[n])
    ensures calls[c].result.Failed? ==> calls[c].sent[n] < |keys| && keys[calls[c].sent[n]].outcome == FailedPermanent
    ensures calls[c].result.Answered? ==>
      exists m: nat :: m < |calls[c].sent| == |calls[c].ids| && calls[c].ids[m] == calls[c].ids[n]
        && calls[c].sent[m] < |keys| && keys[calls[c].sent[m]].outcome == FailedPermanent
  {
    assert MadeRight(f, tries, calls, c);
    CarriedTells(f, tries, keys, calls, c, n);
    if calls[c].result.Answered? {
      var m: nat :| m < |calls[c].ids| && calls[c].ids[m] == calls[c].ids[n] && OwnBlock(calls[c], m);
      CarriedTells(f, tries, keys, calls, c, m);
    }
  }

  /** Call d carried only requests before i, and blocks i's identifier. */
  ghost predicate Stops(f: Fetch, calls: seq<Call>, d: nat, i: nat)
    requires i < |f.requests| && f.requests[i].Some?
  {
    d < |calls| && BlocksLater(calls[d], f.requests[i].value) && forall x :: x in calls[d].sent ==> x < i
  }

  /** The request was served, not in the cache, and under a block open as the fetch began. */
  predicate UnderOpen(f: Fetch, i: nat)
    requires i < |f.requests| && f.requests[i].Some?
  {
    f.open.all || f.requests[i].value in f.open.ids
  }

  lemma CarriedNotStopped(f: Fetch, tries: int, keys: seq<FetchKey>, calls: seq<Call>, c: nat, n: nat, d: nat, i: nat)
    requires Settled(f, tries, keys, calls, |f.requests|) && Carried(calls, c, n, i)
    requires i < |f.requests| && f.requests[i].Some?
    ensures !Stops(f, calls, d, i)
  {
    assert CallRight(f, keys, calls, |f.requests|, c, n);
    if Stops(f, calls, d, i) {
      assert MadeRight(f, tries, calls, d);
      assert calls[d].sent[0] in calls[d].sent && i in calls[c].sent;
      assert c < d ==> AllBelow(calls[c].sent, calls[d].sent);
      RaisesTells(calls[d], f.requests[i].value);
      assert d < c ==> RaisedBefore(calls, c, d, f.requests[i].value);
    }
  }

  /** What becomes of each request, and why. */
  lemma KeyTells(f: Fetch, tries: int, keys: seq<FetchKey>, calls: seq<Call>, i: nat)
    requires Settled(f, tries, keys, calls, |f.requests|) && i < |keys|
    ensures |keys| == |f.requests| == |f.hits|
    ensures keys[i].outcome == NotServed <==> f.requests[i] == None
    ensures keys[i].cached <==> f.requests[i].Some? && f.hits[i]
    ensures keys[i].cached ==> keys[i].outcome == Served && keys[i].attempts == 0
    ensures keys[i].outcome == Blocked
       <==> f.requests[i].Some? && !f.hits[i] && (UnderOpen(f, i) || exists d: nat :: Stops(f, calls, d, i))
    ensures IsCarried(calls, i) <==> f.requests[i].Some? && !f.hits[i] && !UnderOpen(f, i) && forall d: nat :: !Stops(f, calls, d, i)
  {
    assert RestRight(f, keys, calls, |f.requests|, i);
    if IsCarried(calls, i) {
      var c: nat, n: nat :| Carried(calls, c, n, i);
      assert CallRight(f, keys, calls, |f.requests|, c, n);
      forall d: nat
        ensures f.requests[i].Some? ==> !Stops(f, calls, d, i)
      {
        if f.requests[i].Some? {
          CarriedNotStopped(f, tries, keys, calls, c, n, d, i);
        }
      }
    } else if InitialOf(f, i).outcome.Unset? {
      var d: nat :| SuppressedBy(f, calls, d, i);
      RaisesTells(calls[d], f.requests[i].value);
      assert Stops(f, calls, d, i) by {
        assert i in [i];
      }
    }
  }
}
