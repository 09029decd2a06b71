/**
 * The lanes of the runner as a step system: the steps of the goroutines, of the callers of
 * Start and of Close (run/run.go, Start, background, execute and Close), interleaved freely.
 */
module Lanes {
  import opened Options

  /** One lane of one user. */
  datatype Lane = Lane(user: nat, name: string)

  /**
   * Where a run's goroutine is: waiting for the previous run of the lane, waiting for its
   * row, looking whether the runner closed, marking the row running, working, about to
   * close its done channel, about to unlink its lane, about to leave the wait group, gone.
   */
  datatype Phase = WaitingTurn | WaitingRow | Checking | Starting | Working | Closing | Unlinking | Leaving | Gone

  /** What the caller has sent: nothing yet, a row with whether Prepare failed, or a closed channel. */
  datatype Ready = Inserting | HandedOff(failed: bool) | Abandoned

  datatype Row = NoRow | Pending | Running | Completed | Failed

  /** prev is the run whose done channel this one waits on; began says that its execute was reached. */
  datatype Run = Run(lane: Lane, prev: Option<nat>, ready: Ready, row: Row, phase: Phase, began: bool)

  /** Runs are in the order of their ids. lanes gives the last run started in each lane. */
  datatype State = State(runs: seq<Run>, lanes: map<Lane, nat>, group: nat, cancelled: bool, closed: bool)

  /** The first three are the caller's, the others the goroutine's. Drop is a select that takes the closing. */
  datatype Action =
    | InsertFails
    | Insert
    | HandOff(failed: bool)
    | TakeTurn
    | TakeRow
    | Drop
    | Check
    | StartRow(ok: bool)
    | Finish(failed: bool, recorded: bool)
    | CloseDone
    | Unlink
    | Leave
  {
    predicate ByCaller() { InsertFails? || Insert? || HandOff? }
  }

  datatype Step = Start(lane: Lane) | Act(r: nat, action: Action) | Cancel | CloseReturns

  const INITIAL := State([], map[], 0, false, false)

  predicate DoneClosed(x: Run) {
    x.phase.Unlinking? || x.phase.Leaving? || x.phase.Gone?
  }

  predicate Executing(x: Run) {
    x.phase.Starting? || x.phase.Working?
  }

  /** Work that failed once the runner closed is not recorded, nor is an outcome the store refuses. */
  function RowAfter(cancelled: bool, failed: bool, recorded: bool): Row {
    if !recorded || (failed && cancelled) then Running
    else if failed then Failed
    else Completed
  }

  /** What an action makes of its run, where it can be taken; turn says that prev closed or is none. */
  function Acted(x: Run, action: Action, turn: bool, cancelled: bool): Option<Run> {
    match action
    case InsertFails => if x.ready.Inserting? && x.row.NoRow? then Some(x.(ready := Abandoned)) else None
    case Insert => if x.ready.Inserting? && x.row.NoRow? then Some(x.(row := Pending)) else None
    case HandOff(failed) => if x.ready.Inserting? && x.row.Pending? then Some(x.(ready := HandedOff(failed))) else None
    case TakeTurn => if x.phase.WaitingTurn? && turn then Some(x.(phase := WaitingRow)) else None
    case TakeRow =>
      if x.phase.WaitingRow? && !x.ready.Inserting? then
        Some(x.(phase := if x.ready.HandedOff? then Checking else Closing))
      else None
    case Drop =>
      if cancelled && ((x.phase.WaitingTurn? && x.prev.Some?) || x.phase.WaitingRow?) then Some(x.(phase := Closing)) else None
    case Check =>
      if !x.phase.Checking? then None
      else if cancelled then Some(x.(phase := Closing))
      else Some(x.(phase := Starting, began := true))
    case StartRow(ok) =>
      if !x.phase.Starting? then None
      else if ok then Some(x.(phase := Working, row := Running))
      else Some(x.(phase := Closing))
    case Finish(failed, recorded) =>
      if x.phase.Working? && (x.ready == HandedOff(true) ==> failed) then
        Some(x.(phase := Closing, row := RowAfter(cancelled, failed, recorded)))
      else None
    case CloseDone => if x.phase.Closing? then Some(x.(phase := Unlinking)) else None
    case Unlink => if x.phase.Unlinking? then Some(x.(phase := Leaving)) else None
    case Leave => if x.phase.Leaving? then Some(x.(phase := Gone)) else None
  }

  predicate Turn(s: State, r: nat)
    requires r < |s.runs|
  {
    s.runs[r].prev.Some? ==> s.runs[r].prev.value < |s.runs| && DoneClosed(s.runs[s.runs[r].prev.value])
  }

  /** Unlinking takes the lane out where its last run is still this one. */
  function LanesAfter(s: State, r: nat, action: Action): map<Lane, nat>
    requires r < |s.runs|
  {
    var lane := s.runs[r].lane;
    if action.Unlink? && lane in s.lanes && s.lanes[lane] == r then s.lanes - {lane} else s.lanes
  }

  /** What a step does, where it can be taken. */
  function After(s: State, step: Step): Option<State> {
    match step
    case Start(lane) =>
      if s.cancelled then None else
        var prev := if lane in s.lanes then Some(s.lanes[lane]) else None;
        Some(State(s.runs + [Run(lane, prev, Inserting, NoRow, WaitingTurn, false)],
                   s.lanes[lane := |s.runs|], s.group + 1, s.cancelled, s.closed))
    case Act(r, action) =>
      if r >= |s.runs| || (action.Leave? && s.group == 0) then None else
        var y := Acted(s.runs[r], action, Turn(s, r), s.cancelled);
        if y.None? then None else
          Some(s.(runs := s.runs[r := y.value],
                  lanes := LanesAfter(s, r, action),
                  group := if action.Leave? then s.group - 1 else s.group))
    case Cancel => Some(s.(cancelled := true))
    case CloseReturns => if s.cancelled && s.group == 0 then Some(s.(closed := true)) else None
  }

  ghost predicate Next(s: State, t: State, step: Step) {
    After(s, step) == Some(t)
  }

  // ----- What every step keeps -----

  ghost predicate SameLane(s: State, q: nat, r: nat) {
    q < r < |s.runs| && s.runs[q].lane == s.runs[r].lane
  }

  /** Every earlier run of r's lane has closed its done channel. */
  ghost predicate EarlierClosed(s: State, r: nat) {
    forall q: nat :: SameLane(s, q, r) ==> DoneClosed(s.runs[q])
  }

  /** A run waits on the run before it in its lane, or found every earlier one closed. */
  ghost predicate LinkOk(s: State, r: nat)
    requires r < |s.runs|
  {
    match s.runs[r].prev
    case Some(q) => SameLane(s, q, r) && forall m: nat :: SameLane(s, m, r) ==> m <= q
    case None => EarlierClosed(s, r)
  }

  /** What holds of a run whatever the others do. */
  predicate Local(x: Run) {
    && (Executing(x) || x.row.Running? || x.row.Completed? || x.row.Failed? ==> x.began)
    && (x.began ==> !x.phase.WaitingTurn? && !x.phase.WaitingRow? && !x.phase.Checking?)
    && (x.row.NoRow? ==> !x.ready.HandedOff?)
    && (x.ready.Abandoned? ==> x.row.NoRow?)
    && (x.began || x.phase.Checking? ==> x.ready.HandedOff?)
    && (x.row.Completed? ==> x.ready == HandedOff(false))
  }

  /** A run that stopped waiting under a live runner, or ever began, has every earlier run of its lane closed. */
  ghost predicate TurnOk(s: State, r: nat)
    requires r < |s.runs|
  {
    (!s.cancelled && !s.runs[r].phase.WaitingTurn?) || s.runs[r].began ==> EarlierClosed(s, r)
  }

  ghost predicate RunOk(s: State, r: nat)
    requires r < |s.runs|
  {
    LinkOk(s, r) && Local(s.runs[r]) && TurnOk(s, r)
  }

  /** The lane map names the last run of each lane, and leaves a lane out only when all its runs closed. */
  ghost predicate LanesOk(s: State) {
    && (forall k :: k in s.lanes ==> s.lanes[k] < |s.runs| && s.runs[s.lanes[k]].lane == k)
    && (forall k, m: nat :: k in s.lanes && s.lanes[k] < m < |s.runs| ==> s.runs[m].lane != k)
    && (!s.cancelled ==> forall q :: 0 <= q < |s.runs| && s.runs[q].lane !in s.lanes ==> DoneClosed(s.runs[q]))
  }

  function Alive(runs: seq<Run>): nat {
    if runs == [] then 0 else Alive(runs[..|runs| - 1]) + (if runs[|runs| - 1].phase.Gone? then 0 else 1)
  }

  ghost predicate RunsOk(s: State) {
    forall r: nat {:trigger RunOk(s, r)} :: r < |s.runs| ==> RunOk(s, r)
  }

  ghost predicate Inv(s: State) {
    RunsOk(s) && LanesOk(s) && s.group == Alive(s.runs) && (s.closed ==> s.cancelled && s.group == 0)
  }

  lemma {:induction false} AliveSet(runs: seq<Run>, r: nat, x: Run)
    requires r < |runs|
    ensures Alive(runs[r := x]) == Alive(runs) + (if x.phase.Gone? then 0 else 1) - (if runs[r].phase.Gone? then 0 else 1)
  {
    var n := |runs| - 1;
    if r == n {
      assert runs[r := x][..n] == runs[..n];
    } else {
      assert runs[r := x][..n] == runs[..n][r := x];
      AliveSet(runs[..n], r, x);
    }
  }

  lemma {:induction false} AliveNone(runs: seq<Run>)
    ensures Alive(runs) == 0 <==> forall r :: 0 <= r < |runs| ==> runs[r].phase.Gone?
  {
    if runs != [] {
      AliveNone(runs[..|runs| - 1]);
      assert forall r :: 0 <= r < |runs| - 1 ==> runs[..|runs| - 1][r] == runs[r];
    }
  }

  /** How far a goroutine has come. */
  function Rank(p: Phase): nat {
    match p
    case WaitingTurn => 0 case WaitingRow => 1 case Checking => 2 case Starting => 3 case Working => 4
    case Closing => 5 case Unlinking => 6 case Leaving => 7 case Gone => 8
  }

  /** A run keeps its lane and link, and a goroutine's own actions carry it forward. */
  lemma ActedMoves(x: Run, y: Run, action: Action, turn: bool, cancelled: bool)
    requires Acted(x, action, turn, cancelled) == Some(y)
    ensures y.lane == x.lane && y.prev == x.prev && (x.began ==> y.began)
    ensures if action.ByCaller() then y.phase == x.phase else Rank(x.phase) < Rank(y.phase)
    ensures DoneClosed(x) ==> DoneClosed(y)
    ensures x.ready.Abandoned? ==> y.ready.Abandoned?
    ensures action.Leave? <==> y.phase.Gone? && !x.phase.Gone?
  {
  }

  lemma LocalKept(x: Run, y: Run, action: Action, turn: bool, cancelled: bool)
    requires Local(x) && Acted(x, action, turn, cancelled) == Some(y)
    ensures Local(y)
  {
  }

  /** t has one run changed, which kept its lane and link. */
  ghost predicate OneMoved(s: State, t: State, r: nat) {
    && r < |s.runs| && |t.runs| == |s.runs|
    && (forall q :: 0 <= q < |s.runs| && q != r ==> t.runs[q] == s.runs[q])
    && t.runs[r].lane == s.runs[r].lane && t.runs[r].prev == s.runs[r].prev
    && (DoneClosed(s.runs[r]) ==> DoneClosed(t.runs[r]))
    && t.cancelled == s.cancelled
  }

  lemma EarlierKept(s: State, t: State, r: nat, q: nat)
    requires OneMoved(s, t, r)
    ensures EarlierClosed(s, q) ==> EarlierClosed(t, q)
  {
    if EarlierClosed(s, q) {
      forall m: nat | SameLane(t, m, q)
        ensures DoneClosed(t.runs[m])
      {
        assert SameLane(s, m, q);
      }
    }
  }

  lemma LinkKept(s: State, t: State, r: nat, q: nat)
    requires OneMoved(s, t, r) && q < |s.runs| && LinkOk(s, q)
    ensures LinkOk(t, q)
  {
    EarlierKept(s, t, r, q);
    assert forall m: nat :: SameLane(t, m, q) ==> SameLane(s, m, q);
  }

  /** While the runner is open, a run whose previous one closed has every earlier run of its lane closed. */
  lemma TurnComes(s: State, r: nat)
    requires r < |s.runs| && !s.cancelled && RunsOk(s) && Turn(s, r)
    ensures EarlierClosed(s, r)
  {
    assert RunOk(s, r);
    if s.runs[r].prev.Some? {
      var q := s.runs[r].prev.value;
      assert RunOk(s, q);
      forall m: nat | SameLane(s, m, r)
        ensures DoneClosed(s.runs[m])
      {
        assert m < q ==> SameLane(s, m, q);
      }
    }
  }

  lemma ActRunsOk(s: State, t: State, r: nat, action: Action)
    requires Inv(s) && Next(s, t, Act(r, action))
    ensures RunsOk(t)
  {
    ActMoves(s, t, r, action);
    forall q: nat | q < |t.runs|
      ensures RunOk(t, q)
    {
      assert RunOk(s, q);
      LinkKept(s, t, r, q);
      EarlierKept(s, t, r, q);
      if q == r {
        LocalKept(s.runs[r], t.runs[r], action, Turn(s, r), s.cancelled);
        TurnKept(s, t, r, action);
      }
    }
  }

  lemma TurnKept(s: State, t: State, r: nat, action: Action)
    requires Inv(s) && Next(s, t, Act(r, action))
    ensures TurnOk(t, r)
  {
    ActMoves(s, t, r, action);
    EarlierKept(s, t, r, r);
    assert RunOk(s, r);
    if action.TakeTurn? && !s.cancelled {
      TurnComes(s, r);
    }
  }

  lemma ActMoves(s: State, t: State, r: nat, action: Action)
    requires Next(s, t, Act(r, action))
    ensures OneMoved(s, t, r)
    ensures Acted(s.runs[r], action, Turn(s, r), s.cancelled) == Some(t.runs[r])
  {
    ActedMoves(s.runs[r], t.runs[r], action, Turn(s, r), s.cancelled);
  }

  lemma ActLanesOk(s: State, t: State, r: nat, action: Action)
    requires Inv(s) && Next(s, t, Act(r, action))
    ensures LanesOk(t)
  {
    ActMoves(s, t, r, action);
    assert RunOk(s, r);
    forall q | !t.cancelled && 0 <= q < |t.runs| && t.runs[q].lane !in t.lanes
      ensures DoneClosed(t.runs[q])
    {
      if t.runs[q].lane in s.lanes && q != r {
        assert s.lanes[s.runs[q].lane] == r;
        assert SameLane(s, q, r);
      }
    }
  }

  lemma ActKeeps(s: State, t: State, r: nat, action: Action)
    requires Inv(s) && Next(s, t, Act(r, action))
    ensures Inv(t)
  {
    ActRunsOk(s, t, r, action);
    ActLanesOk(s, t, r, action);
    ActedMoves(s.runs[r], t.runs[r], action, Turn(s, r), s.cancelled);
    AliveSet(s.runs, r, t.runs[r]);
  }

  lemma StartKeeps(s: State, t: State, lane: Lane)
    requires Inv(s) && Next(s, t, Start(lane))
    ensures Inv(t)
  {
    StartRunsOk(s, t, lane);
    StartLanesOk(s, t, lane);
    assert t.runs[..|s.runs|] == s.runs;
  }

  lemma StartLanesOk(s: State, t: State, lane: Lane)
    requires LanesOk(s) && Next(s, t, Start(lane))
    ensures LanesOk(t)
  {
    assert forall q :: 0 <= q < |s.runs| ==> t.runs[q] == s.runs[q];
    assert t.runs[|s.runs|].lane == lane;
  }

  lemma StartRunsOk(s: State, t: State, lane: Lane)
    requires Inv(s) && Next(s, t, Start(lane))
    ensures RunsOk(t)
  {
    forall q: nat | q < |t.runs|
      ensures RunOk(t, q)
    {
      if q < |s.runs| {
        assert RunOk(s, q);
        assert forall m: nat :: SameLane(t, m, q) <==> SameLane(s, m, q);
        assert EarlierClosed(s, q) ==> EarlierClosed(t, q);
      } else {
        StartLink(s, t, lane);
      }
    }
  }

  lemma StartLink(s: State, t: State, lane: Lane)
    requires Inv(s) && Next(s, t, Start(lane))
    ensures LinkOk(t, |s.runs|)
  {
    var n := |s.runs|;
    forall q: nat | SameLane(t, q, n)
      ensures lane !in s.lanes ==> DoneClosed(t.runs[q])
      ensures lane in s.lanes ==> q <= s.lanes[lane]
    {
      assert t.runs[q] == s.runs[q];
    }
  }

  /** Every step keeps the invariant. */
  lemma InvKept(s: State, t: State, step: Step)
    requires Inv(s) && Next(s, t, step)
    ensures Inv(t)
  {
    match step
    case Start(lane) => StartKeeps(s, t, lane);
    case Act(r, action) => ActKeeps(s, t, r, action);
    case _ =>
      forall q: nat | q < |t.runs|
        ensures RunOk(t, q)
      {
        assert RunOk(s, q);
        assert forall m: nat :: SameLane(t, m, q) <==> SameLane(s, m, q);
        assert EarlierClosed(s, q) ==> EarlierClosed(t, q);
      }
  }

  // ----- Whole behaviours -----

  /** b is a behaviour of the runner: it begins empty and each state follows by the step beside it. */
  ghost predicate Behaviour(b: seq<State>, steps: seq<Step>) {
    && |b| == |steps| + 1 && b[0] == INITIAL
    && forall i :: 0 <= i < |steps| ==> Next(b[i], b[i + 1], steps[i])
  }

  lemma {:induction false} InvAlways(b: seq<State>, steps: seq<Step>, i: nat)
    requires Behaviour(b, steps) && i < |b|
    ensures Inv(b[i])
  {
    if i > 0 {
      InvAlways(b, steps, i - 1);
      InvKept(b[i - 1], b[i], steps[i - 1]);
    }
  }

  /** What no step takes back, of run r. */
  ghost predicate Progressed(s: State, t: State, r: nat) {
    && r < |s.runs| <= |t.runs|
    && t.runs[r].lane == s.runs[r].lane
    && Rank(s.runs[r].phase) <= Rank(t.runs[r].phase)
    && (s.runs[r].began ==> t.runs[r].began)
    && (s.runs[r].ready.Abandoned? ==> t.runs[r].ready.Abandoned?)
    && (s.cancelled ==> t.cancelled && |t.runs| == |s.runs|)
    && (s.closed ==> t.closed)
  }

  lemma StepProgresses(s: State, t: State, step: Step, r: nat)
    requires Next(s, t, step) && r < |s.runs|
    ensures Progressed(s, t, r)
  {
    if step.Act? {
      ActedMoves(s.runs[step.r], t.runs[step.r], step.action, Turn(s, step.r), s.cancelled);
    }
  }

  lemma {:induction false} Progresses(b: seq<State>, steps: seq<Step>, i: nat, j: nat, r: nat)
    requires Behaviour(b, steps) && i <= j < |b| && r < |b[i].runs|
    ensures Progressed(b[i], b[j], r)
    decreases j
  {
    if i < j {
      Progresses(b, steps, i, j - 1, r);
      StepOf(b, steps, j, r);
      ProgressesThrough(b[i], b[j - 1], b[j], r);
    }
  }

  lemma StepOf(b: seq<State>, steps: seq<Step>, j: nat, r: nat)
    requires Behaviour(b, steps) && 0 < j < |b| && r < |b[j - 1].runs|
    ensures Progressed(b[j - 1], b[j], r)
  {
    StepProgresses(b[j - 1], b[j], steps[j - 1], r);
  }

  lemma ProgressesThrough(s: State, t: State, u: State, r: nat)
    requires Progressed(s, t, r) && Progressed(t, u, r)
    ensures Progressed(s, u, r)
  {
  }

  /** At most one run of a lane has its work executing, in every state of every behaviour. */
  lemma OneExecutes(b: seq<State>, steps: seq<Step>, i: nat, q: nat, r: nat)
    requires Behaviour(b, steps) && i < |b| && SameLane(b[i], q, r)
    ensures !(Executing(b[i].runs[q]) && Executing(b[i].runs[r]))
  {
    InvAlways(b, steps, i);
    assert RunOk(b[i], q) && RunOk(b[i], r);
  }

  /**
   * Works execute in start order: once a run began, every earlier run of its lane has closed for
   * good, and one that had not begun never does.
   */
  lemma InStartOrder(b: seq<State>, steps: seq<Step>, i: nat, j: nat, q: nat, r: nat)
    requires Behaviour(b, steps) && i <= j < |b| && SameLane(b[i], q, r) && b[i].runs[r].began
    ensures q < |b[j].runs| && DoneClosed(b[j].runs[q])
    ensures b[j].runs[q].began == b[i].runs[q].began
  {
    InvAlways(b, steps, i);
    assert RunOk(b[i], r);
    Progresses(b, steps, i, j, q);
    BeganKept(b, steps, i, j, q);
  }

  lemma {:induction false} BeganKept(b: seq<State>, steps: seq<Step>, i: nat, j: nat, q: nat)
    requires Behaviour(b, steps) && i <= j < |b| && q < |b[i].runs| && DoneClosed(b[i].runs[q])
    ensures q < |b[j].runs| && b[j].runs[q].began == b[i].runs[q].began
    decreases j
  {
    if i < j {
      BeganKept(b, steps, i, j - 1, q);
      Progresses(b, steps, i, j - 1, q);
      assert DoneClosed(b[j - 1].runs[q]);
      assert Next(b[j - 1], b[j], steps[j - 1]);
    }
  }

  /** While the runner is open, a closed done channel means that every earlier one of the lane is closed. */
  lemma ClosedInOrder(b: seq<State>, steps: seq<Step>, i: nat, q: nat, r: nat)
    requires Behaviour(b, steps) && i < |b| && SameLane(b[i], q, r)
    requires DoneClosed(b[i].runs[r]) && !b[i].cancelled
    ensures DoneClosed(b[i].runs[q])
  {
    InvAlways(b, steps, i);
    assert RunOk(b[i], r);
  }

  /** A row leaves pending only after every earlier run of the lane stopped, and a failed Prepare never completes. */
  lemma PendingUntilTurn(b: seq<State>, steps: seq<Step>, i: nat, r: nat)
    requires Behaviour(b, steps) && i < |b| && r < |b[i].runs|
    ensures b[i].runs[r].row.NoRow? || b[i].runs[r].row.Pending? || EarlierClosed(b[i], r)
    ensures b[i].runs[r].row.Completed? ==> b[i].runs[r].ready == HandedOff(false)
  {
    InvAlways(b, steps, i);
    assert RunOk(b[i], r);
  }

  /** A run whose insert failed never begins and never gets a row. */
  lemma AbandonedNeverRuns(b: seq<State>, steps: seq<Step>, i: nat, j: nat, r: nat)
    requires Behaviour(b, steps) && i <= j < |b| && r < |b[i].runs| && b[i].runs[r].ready.Abandoned?
    ensures r < |b[j].runs| && !b[j].runs[r].began && b[j].runs[r].row.NoRow?
  {
    Progresses(b, steps, i, j, r);
    InvAlways(b, steps, j);
    assert RunOk(b[j], r);
  }

  // ----- Which lanes are linked -----

  /** r is the last run of its lane, and its goroutine has not unlinked it. */
  ghost predicate LastLinked(s: State, lane: Lane, r: nat) {
    && r < |s.runs| && s.runs[r].lane == lane && !s.runs[r].phase.Leaving? && !s.runs[r].phase.Gone?
    && forall m :: r < m < |s.runs| ==> s.runs[m].lane != lane
  }

  ghost predicate LinksTell(s: State, lane: Lane) {
    && (lane in s.lanes ==> LastLinked(s, lane, s.lanes[lane]))
    && (forall r: nat :: LastLinked(s, lane, r) ==> lane in s.lanes)
  }

  lemma LinksKept(s: State, t: State, step: Step, lane: Lane)
    requires Inv(s) && Next(s, t, step) && LinksTell(s, lane)
    ensures LinksTell(t, lane)
  {
    match step
    case Start(l) =>
      assert forall m :: 0 <= m < |s.runs| ==> t.runs[m] == s.runs[m];
      forall r: nat | LastLinked(t, lane, r)
        ensures lane in t.lanes
      {
        if lane != l {
          assert LastLinked(s, lane, r);
        }
      }
    case Act(r, action) => ActLinks(s, t, r, action, lane);
    case _ =>
      assert forall r: nat :: LastLinked(t, lane, r) <==> LastLinked(s, lane, r);
  }

  lemma ActLinks(s: State, t: State, r: nat, action: Action, lane: Lane)
    requires Inv(s) && Next(s, t, Act(r, action)) && LinksTell(s, lane)
    ensures LinksTell(t, lane)
  {
    ActMoves(s, t, r, action);
    ActedMoves(s.runs[r], t.runs[r], action, Turn(s, r), s.cancelled);
    assert t.runs[r].phase.Leaving? || t.runs[r].phase.Gone? <==> s.runs[r].phase.Leaving? || s.runs[r].phase.Gone? || action.Unlink?;
    forall m: nat
      ensures LastLinked(t, lane, m) <==> LastLinked(s, lane, m) && !(m == r && action.Unlink?)
    {
    }
  }

  /** A lane is in the map exactly while the last run started in it has not unlinked it, and gives that run. */
  lemma {:induction false} LanesLinked(b: seq<State>, steps: seq<Step>, i: nat, lane: Lane)
    requires Behaviour(b, steps) && i < |b|
    ensures lane in b[i].lanes ==> LastLinked(b[i], lane, b[i].lanes[lane])
    ensures forall r: nat :: LastLinked(b[i], lane, r) ==> lane in b[i].lanes && b[i].lanes[lane] == r
  {
    LinksAlways(b, steps, i, lane);
  }

  lemma {:induction false} LinksAlways(b: seq<State>, steps: seq<Step>, i: nat, lane: Lane)
    requires Behaviour(b, steps) && i < |b|
    ensures LinksTell(b[i], lane)
  {
    if i > 0 {
      LinksAlways(b, steps, i - 1, lane);
      InvAlways(b, steps, i - 1);
      LinksKept(b[i - 1], b[i], steps[i - 1], lane);
    }
  }

  // ----- What a row records -----

  /** One of the first i steps was run r's action. */
  ghost predicate Did(steps: seq<Step>, i: nat, r: nat, action: Action) {
    exists k :: 0 <= k < i && k < |steps| && steps[k] == Act(r, action)
  }

  /** One of the first i steps recorded run r's failure, before the runner closed. */
  ghost predicate FailedOpen(b: seq<State>, steps: seq<Step>, i: nat, r: nat) {
    exists k :: 0 <= k < i && k < |steps| && k < |b| && steps[k] == Act(r, Finish(true, true)) && !b[k].cancelled
  }

  /**
   * A run's row is what its steps made of it: pending once inserted, running once its work started,
   * completed once work that succeeded was recorded, whether or not the runner had closed, and
   * failed once work that failed under an open runner was. Otherwise it stays running.
   */
  ghost predicate RowTells(b: seq<State>, steps: seq<Step>, i: nat, r: nat)
    requires i < |b| && r < |b[i].runs|
  {
    var row := b[i].runs[r].row;
    && (row == NoRow <==> !Did(steps, i, r, Insert))
    && (row == NoRow || row == Pending <==> !Did(steps, i, r, StartRow(true)))
    && (row == Completed <==> Did(steps, i, r, Finish(false, true)))
    && (row == Failed <==> FailedOpen(b, steps, i, r))
  }

  /** A row is pending until the work starts, running while it works, and terminal only after. */
  predicate RowFits(x: Run) {
    match x.phase
    case WaitingTurn => x.row.NoRow? || x.row.Pending?
    case WaitingRow => x.row.NoRow? || x.row.Pending?
    case Checking => x.row.Pending?
    case Starting => x.row.Pending?
    case Working => x.row.Running?
    case _ => true
  }

  lemma RowFitsKept(s: State, t: State, r: nat, action: Action)
    requires Inv(s) && Next(s, t, Act(r, action)) && RowFits(s.runs[r])
    ensures RowFits(t.runs[r])
  {
    assert RunOk(s, r);
  }

  /** What one action of a run makes of its row. */
  lemma RowAfterAction(s: State, t: State, r: nat, action: Action)
    requires Inv(s) && Next(s, t, Act(r, action)) && RowFits(s.runs[r])
    ensures var was, row := s.runs[r].row, t.runs[r].row;
      && (row == NoRow <==> was == NoRow && action != Insert)
      && (row == NoRow || row == Pending <==> (was == NoRow || was == Pending) && action != StartRow(true))
      && (row == Completed <==> was == Completed || action == Finish(false, true))
      && (row == Failed <==> was == Failed || (action == Finish(true, true) && !s.cancelled))
  {
    assert RunOk(s, r);
  }

  lemma DidNext(steps: seq<Step>, i: nat, r: nat, action: Action)
    requires 0 < i <= |steps|
    ensures Did(steps, i, r, action) <==> Did(steps, i - 1, r, action) || steps[i - 1] == Act(r, action)
  {
  }

  lemma FailedNext(b: seq<State>, steps: seq<Step>, i: nat, r: nat)
    requires 0 < i <= |steps| && |b| == |steps| + 1
    ensures FailedOpen(b, steps, i, r)
       <==> FailedOpen(b, steps, i - 1, r) || (steps[i - 1] == Act(r, Finish(true, true)) && !b[i - 1].cancelled)
  {
  }

  /** What run r's row is, in every state of every behaviour. */
  lemma {:induction false} RowsTell(b: seq<State>, steps: seq<Step>, i: nat, r: nat)
    requires Behaviour(b, steps) && i < |b| && r < |b[i].runs|
    ensures RowTells(b, steps, i, r) && RowFits(b[i].runs[r])
  {
    if i > 0 {
      var s, t, step := b[i - 1], b[i], steps[i - 1];
      assert Next(s, t, step);
      InvAlways(b, steps, i - 1);
      if r < |s.runs| {
        RowsTell(b, steps, i - 1, r);
      } else {
        NotBefore(b, steps, i - 1, r);
      }
      if step.Act? && step.r == r {
        RowFitsKept(s, t, r, step.action);
        RowAfterAction(s, t, r, step.action);
      }
      RowTellsNext(b, steps, i, r);
    }
  }

  lemma RowTellsNext(b: seq<State>, steps: seq<Step>, i: nat, r: nat)
    requires 0 < i <= |steps| && |b| == |steps| + 1 && r < |b[i].runs|
    requires if r < |b[i - 1].runs| then RowTells(b, steps, i - 1, r)
             else b[i].runs[r].row == NoRow && Untouched(b, steps, i - 1, r)
    requires steps[i - 1].Act? && steps[i - 1].r == r ==> r < |b[i - 1].runs|
    requires r < |b[i - 1].runs| ==>
      var was, row, step := b[i - 1].runs[r].row, b[i].runs[r].row, steps[i - 1];
      && (row == NoRow <==> was == NoRow && step != Act(r, Insert))
      && (row == NoRow || row == Pending <==> (was == NoRow || was == Pending) && step != Act(r, StartRow(true)))
      && (row == Completed <==> was == Completed || step == Act(r, Finish(false, true)))
      && (row == Failed <==> was == Failed || (step == Act(r, Finish(true, true)) && !b[i - 1].cancelled))
    ensures RowTells(b, steps, i, r)
  {
    DidNext(steps, i, r, Insert);
    DidNext(steps, i, r, StartRow(true));
    DidNext(steps, i, r, Finish(false, true));
    FailedNext(b, steps, i, r);
  }

  /** Run r took none of the first i steps. */
  ghost predicate Untouched(b: seq<State>, steps: seq<Step>, i: nat, r: nat) {
    (forall action :: !Did(steps, i, r, action)) && !FailedOpen(b, steps, i, r)
  }

  /** A run takes no step before it is started. */
  lemma {:induction false} NotBefore(b: seq<State>, steps: seq<Step>, i: nat, r: nat)
    requires Behaviour(b, steps) && i < |b| && |b[i].runs| <= r
    ensures Untouched(b, steps, i, r)
  {
    if i > 0 {
      assert Next(b[i - 1], b[i], steps[i - 1]);
      NotBefore(b, steps, i - 1, r);
      forall action
        ensures !Did(steps, i, r, action)
      {
        DidNext(steps, i, r, action);
      }
      FailedNext(b, steps, i, r);
    }
  }

  /** A row that is terminal never changes. */
  lemma {:induction false} TerminalStays(b: seq<State>, steps: seq<Step>, i: nat, j: nat, r: nat)
    requires Behaviour(b, steps) && i <= j < |b| && r < |b[i].runs|
    requires b[i].runs[r].row == Completed || b[i].runs[r].row == Failed
    ensures r < |b[j].runs| && b[j].runs[r].row == b[i].runs[r].row
    decreases j
  {
    if i < j {
      TerminalStays(b, steps, i, j - 1, r);
      RowsTell(b, steps, j - 1, r);
      var s, t, step := b[j - 1], b[j], steps[j - 1];
      assert Next(s, t, step);
      InvAlways(b, steps, j - 1);
      if step.Act? && step.r == r {
        TerminalKept(s, t, r, step.action);
      }
    }
  }

  lemma TerminalKept(s: State, t: State, r: nat, action: Action)
    requires Inv(s) && Next(s, t, Act(r, action)) && RowFits(s.runs[r])
    requires s.runs[r].row == Completed || s.runs[r].row == Failed
    ensures t.runs[r].row == s.runs[r].row
  {
    assert RunOk(s, r);
  }

  // ----- Nothing wedges -----

  /** r's goroutine can take a step by itself. */
  ghost predicate CanMove(s: State, r: nat) {
    exists action: Action :: !action.ByCaller() && After(s, Act(r, action)).Some?
  }

  lemma CanMoveBy(s: State, r: nat, action: Action)
    requires !action.ByCaller() && After(s, Act(r, action)).Some?
    ensures CanMove(s, r)
  {
  }

  /** A goroutine past its waits can always take its next step, once its work has ended. */
  lemma PastWaits(s: State, r: nat)
    requires Inv(s) && r < |s.runs| && !s.runs[r].phase.Gone?
    requires !s.runs[r].phase.WaitingTurn? && !s.runs[r].phase.WaitingRow?
    ensures CanMove(s, r)
  {
    AliveNone(s.runs);
    CanMoveBy(s, r, Onward(s.runs[r].phase));
  }

  function Onward(p: Phase): Action {
    match p
    case WaitingTurn => TakeTurn case WaitingRow => TakeRow case Checking => Check
    case Starting => StartRow(true) case Working => Finish(true, true)
    case Closing => CloseDone case Unlinking => Unlink case _ => Leave
  }

  /** A run that has its turn and whose caller has sent, whatever it sent, can move. */
  lemma TurnMoves(s: State, r: nat)
    requires Inv(s) && r < |s.runs| && !s.runs[r].phase.Gone?
    requires EarlierClosed(s, r) && !s.runs[r].ready.Inserting?
    ensures CanMove(s, r)
  {
    assert RunOk(s, r);
    match s.runs[r].phase
    case WaitingTurn => CanMoveBy(s, r, TakeTurn);
    case WaitingRow => CanMoveBy(s, r, TakeRow);
    case _ => PastWaits(s, r);
  }

  /**
   * A failed insert never wedges a lane: where the callers of r and of the earlier runs of its
   * lane have sent a row or its failure, r or an earlier one can move until r is gone.
   */
  lemma {:induction false} NeverWedged(s: State, r: nat)
    requires Inv(s) && r < |s.runs| && !s.runs[r].phase.Gone?
    requires !s.runs[r].ready.Inserting? && forall q: nat :: SameLane(s, q, r) ==> !s.runs[q].ready.Inserting?
    ensures exists q: nat :: q <= r && s.runs[q].lane == s.runs[r].lane && CanMove(s, q)
  {
    if EarlierClosed(s, r) {
      TurnMoves(s, r);
    } else {
      var q: nat :| SameLane(s, q, r) && !DoneClosed(s.runs[q]);
      NeverWedged(s, q);
    }
  }

  // ----- Close -----

  /** Once the runner closes, every goroutine that is left can move, whatever the callers do. */
  lemma ClosingMoves(s: State, r: nat)
    requires Inv(s) && s.cancelled && r < |s.runs| && !s.runs[r].phase.Gone?
    ensures CanMove(s, r)
  {
    match s.runs[r].phase
    case WaitingTurn => CanMoveBy(s, r, if s.runs[r].prev.Some? then Drop else TakeTurn);
    case WaitingRow => CanMoveBy(s, r, Drop);
    case _ => PastWaits(s, r);
  }

  /** The steps the goroutines have left. */
  function Left(runs: seq<Run>): nat {
    if runs == [] then 0 else Left(runs[..|runs| - 1]) + 8 - Rank(runs[|runs| - 1].phase)
  }

  lemma {:induction false} LeftSet(runs: seq<Run>, r: nat, x: Run)
    requires r < |runs|
    ensures Left(runs[r := x]) + Rank(x.phase) == Left(runs) + Rank(runs[r].phase)
  {
    var n := |runs| - 1;
    if r == n {
      assert runs[r := x][..n] == runs[..n];
    } else {
      assert runs[r := x][..n] == runs[..n][r := x];
      LeftSet(runs[..n], r, x);
    }
  }

  /** Once the runner closes, each step of a goroutine leaves fewer and no other step leaves more. */
  lemma ClosingDrains(s: State, t: State, step: Step)
    requires Next(s, t, step) && s.cancelled
    ensures Left(t.runs) <= Left(s.runs)
    ensures step.Act? && !step.action.ByCaller() ==> Left(t.runs) < Left(s.runs)
  {
    if step.Act? {
      ActedMoves(s.runs[step.r], t.runs[step.r], step.action, Turn(s, step.r), s.cancelled);
      LeftSet(s.runs, step.r, t.runs[step.r]);
    }
  }

  /** Close returns exactly when no goroutine is left. */
  lemma CloseWaits(s: State)
    requires Inv(s) && s.cancelled
    ensures After(s, CloseReturns).Some? <==> forall r :: 0 <= r < |s.runs| ==> s.runs[r].phase.Gone?
  {
    AliveNone(s.runs);
  }

  /** After Close returns no goroutine remains and none is added, for good. */
  lemma NothingAfterClose(b: seq<State>, steps: seq<Step>, i: nat, j: nat)
    requires Behaviour(b, steps) && i <= j < |b| && b[i].closed
    ensures |b[j].runs| == |b[i].runs|
    ensures forall r :: 0 <= r < |b[j].runs| ==> b[j].runs[r].phase.Gone?
    ensures forall lane :: After(b[j], Start(lane)).None?
  {
    InvAlways(b, steps, i);
    AliveNone(b[i].runs);
    ClosedKept(b, steps, i, j);
    InvAlways(b, steps, j);
    AliveNone(b[j].runs);
  }

  lemma {:induction false} ClosedKept(b: seq<State>, steps: seq<Step>, i: nat, j: nat)
    requires Behaviour(b, steps) && i <= j < |b| && b[i].closed
    ensures b[j].closed && |b[j].runs| == |b[i].runs|
    decreases j
  {
    if i < j {
      ClosedKept(b, steps, i, j - 1);
      InvAlways(b, steps, j - 1);
      assert Next(b[j - 1], b[j], steps[j - 1]);
    }
  }
}
