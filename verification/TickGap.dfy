/**
 How long a live worker may stay silent. Up to 95 seconds between ticks every run of the job
 queue counts each child once, keeps live claims fresh and has one live executor per job; with
 any larger gap there is a run that breaks all three.
 */
module TickGap {
  import opened Wrappers
  import opened JobTable
  import opened WorkerTicks
  import opened JobQueueRuns
  import opened JobQueueTheorems

  // ---- what a gap guarantees -------------------------------------------------------------------

  /** `p` counts each of its ended children once, and reads done exactly at its total. */
  ghost predicate CountsOnce(s: Sys, p: Id)
    requires p in s.rows && IsParentRow(s.rows[p])
  {
    var r := s.rows[p];
    && r.done == Some(|EndedChildren(s.rows, s.submitted, p)|)
    && (r.status == Done <==> r.done.value == r.total.value)
  }

  ghost predicate Reachable(gap: real, s: Sys) {
    exists run: seq<Sys>, i: nat :: IsRun(gap, run) && i < |run| && run[i] == s
  }

  ghost predicate AlwaysCountsOnce(gap: real) {
    forall s: Sys, p: Id | Reachable(gap, s) && p in s.rows && IsParentRow(s.rows[p]) :: CountsOnce(s, p)
  }

  predicate Executes(s: Sys, w: Worker, j: Id) {
    w in s.workers && j in s.workers[w].loop.inflight
  }

  /** The row of `j` is there and not stale. */
  predicate IsFresh(s: Sys, j: Id, now: real) {
    j in s.rows && !s.rows[j].StaleAt(now)
  }

  ghost predicate AlwaysFresh(gap: real) {
    forall s: Sys, w: Worker, j: Id, now: real |
      Reachable(gap, s) && Executes(s, w, j) && MayReach(gap, s, now) :: IsFresh(s, j, now)
  }

  ghost predicate AlwaysOneExecutor(gap: real) {
    forall s: Sys, u: Worker, v: Worker, j: Id |
      Reachable(gap, s) && Executes(s, u, j) && Executes(s, v, j) :: u == v
  }

  // ---- a run with a longer gap -------------------------------------------------------------------

  const PARENT: Id := 0
  const CHILD: Id := 1
  const LATE: Worker := 7
  const OTHER: Worker := 8

  /** The longest silence used: more than 95 seconds and at most `gap`. */
  function Silence(gap: real): real { if gap < 100.0 then gap else 100.0 }

  /** The late worker's last tick before its silence, with its heartbeat not yet due. */
  function LastSeen(gap: real): real { HEARTBEAT_PERIOD - (Silence(gap) - TICK_GAP) / 2.0 }

  /** The end of the silence: more than 120 seconds after the claim at 0. */
  function Back(gap: real): real { LastSeen(gap) + Silence(gap) }

  function ParentRow(done: nat): Row { NewRow(Running, None, Some(2), Some(done), 0.0) }

  const WAITING: Row := NewRow(Queued, Some(PARENT), None, None, 0.0)

  /** The child's row after `w` claimed it for the `n`th time. */
  function ClaimedBy(w: Worker, n: nat, at: real): Row {
    WAITING.(status := Running, claimedBy := Some(w), startedAt := Some(at), heartbeatAt := Some(at), attempts := n)
  }

  const HELD: map<Id, Option<Id>> := map[CHILD := Some(PARENT)]

  /** Both workers live, the parent and one of its two children inserted. */
  function Pair(done: nat, child: Row, late: Live, other: Live, clock: real): Sys {
    Sys(map[PARENT := ParentRow(done), CHILD := child], map[LATE := late, OTHER := other], {LATE, OTHER},
        map[PARENT := None, CHILD := Some(PARENT)], map[PARENT := 1], clock)
  }

  function Fresh(): Live { Live(LoopState(map[], 0.0, 0.0), 0.0) }

  /** The late worker during its silence: the child in hand, last heartbeat and upkeep at 0. */
  function Silent(gap: real): Live { Live(LoopState(HELD, 0.0, 0.0), LastSeen(gap)) }

  function Empty(): Sys { Sys(map[], map[], {}, map[], map[], 0.0) }

  function ParentOnly(): Sys {
    Sys(map[PARENT := ParentRow(0)], map[], {}, map[PARENT := None], map[PARENT := 2], 0.0)
  }

  function Unattended(): Sys { Ready().(workers := map[], identities := {}) }

  function LateStarted(): Sys { Ready().(workers := map[LATE := Fresh()], identities := {LATE}) }

  function Ready(): Sys { Pair(0, WAITING, Fresh(), Fresh(), 0.0) }

  function LateClaimed(): Sys {
    Pair(0, ClaimedBy(LATE, 1, 0.0), Live(LoopState(HELD, 0.0, 0.0), 0.0), Fresh(), 0.0)
  }

  function LateSeen(gap: real): Sys {
    Pair(0, ClaimedBy(LATE, 1, 0.0), Silent(gap), Fresh(), LastSeen(gap))
  }

  function BothSeen(gap: real): Sys {
    Pair(0, ClaimedBy(LATE, 1, 0.0), Silent(gap), Live(LoopState(map[], 0.0, 0.0), LastSeen(gap)), LastSeen(gap))
  }

  /** After the other worker's upkeep requeued the child. */
  function Lost(gap: real): Sys {
    var b := Back(gap);
    Pair(0, ClaimedBy(LATE, 1, 0.0).(status := Queued, claimedBy := None, heartbeatAt := None),
         Silent(gap), Live(LoopState(map[], 0.0, b), b), b)
  }

  function OtherClaimed(gap: real): Sys {
    var b := Back(gap);
    Pair(0, ClaimedBy(OTHER, 2, b), Silent(gap), Live(LoopState(HELD, b, b), b), b)
  }

  function CountedOnce(gap: real): Sys {
    var b := Back(gap);
    Pair(1, ClaimedBy(OTHER, 2, b).(status := Done, completedAt := Some(b)),
         Silent(gap), Live(LoopState(map[], b, b), b), b)
  }

  function CountedTwice(gap: real): Sys {
    var b := Back(gap);
    var s := CountedOnce(gap);
    s.(rows := map[PARENT := ParentRow(2).(status := Done, completedAt := Some(b)), CHILD := s.rows[CHILD]],
       workers := s.workers[LATE := Live(LoopState(map[], 0.0, b), b)])
  }

  /** Four insertions and starts, then the seven ticks. */
  function LateRun(gap: real): seq<Sys> {
    [Empty(), ParentOnly(), Unattended(), LateStarted(), Ready(), LateClaimed(), LateSeen(gap), BothSeen(gap),
     Lost(gap), OtherClaimed(gap), CountedOnce(gap), CountedTwice(gap)]
  }

  /** A tick with at most one piece of work, no heartbeat and nobody exhausted. */
  lemma TickLeads(gap: real, s: Sys, w: Worker, now: real, ws: seq<Work>, s': Sys)
    requires w in s.workers && MayReach(gap, s, now)
    requires CanTick(StateOf(s, w), w, now, ws, [])
    requires s' == After(s, Tick(w, now, ws, []))
    ensures LeadsTo(gap, s, s')
  {
    assert Enabled(gap, s, Tick(w, now, ws, []));
  }

  lemma OneWork(s: TickState, worker: Worker, now: real, w: Work)
    requires CanDo(s, w)
    ensures CanDoAll(s, worker, now, [w]) && DoAll(s, worker, now, [w]) == Do(s, worker, now, w)
  {
    assert [w][..0] == [];
    assert CanDoAll(s, worker, now, []) && DoAll(s, worker, now, []) == s;
  }

  lemma LateClaims(gap: real)
    requires gap > TICK_GAP
    ensures LeadsTo(gap, Ready(), LateClaimed())
  {
    var s, s' := Ready(), LateClaimed();
    OneWork(StateOf(s, LATE), LATE, 0.0, Run(CHILD));
    assert s'.rows == Claimed(s.rows, CHILD, LATE, 0.0);
    assert s'.workers == s.workers[LATE := s'.workers[LATE]];
    TickLeads(gap, s, LATE, 0.0, [Run(CHILD)], s');
  }

  lemma LateIsSeen(gap: real)
    requires gap > TICK_GAP
    ensures LeadsTo(gap, LateClaimed(), LateSeen(gap))
  {
    var s, s' := LateClaimed(), LateSeen(gap);
    assert s'.workers == s.workers[LATE := s'.workers[LATE]];
    TickLeads(gap, s, LATE, LastSeen(gap), [], s');
  }

  lemma OtherIsSeen(gap: real)
    requires gap > TICK_GAP
    ensures LeadsTo(gap, LateSeen(gap), BothSeen(gap))
  {
    var s, s' := LateSeen(gap), BothSeen(gap);
    assert s'.workers == s.workers[OTHER := s'.workers[OTHER]];
    TickLeads(gap, s, OTHER, LastSeen(gap), [], s');
  }

  /** No row is exhausted and none is old enough to prune. */
  lemma NothingElseToDo(t: Table, now: real)
    requires forall id :: id in t ==> t[id].attempts < MAX_ATTEMPTS
    requires forall id :: id in t && t[id].completedAt.Some? ==> t[id].completedAt.value == now
    ensures StaleExhausted(t, now) == {} && Pruned(t, now) == t
  {
  }

  lemma ClaimIsLost(gap: real)
    requires gap > TICK_GAP
    ensures LeadsTo(gap, BothSeen(gap), Lost(gap))
  {
    var s, s', now := BothSeen(gap), Lost(gap), Back(gap);
    assert s'.workers == s.workers[OTHER := s'.workers[OTHER]];
    assert s'.rows == Requeued(s.rows, now);
    NothingElseToDo(s'.rows, now);
    hide Requeued, Pruned, StaleExhausted;
    TickLeads(gap, s, OTHER, now, [], s');
  }

  lemma OtherClaims(gap: real)
    requires gap > TICK_GAP
    ensures LeadsTo(gap, Lost(gap), OtherClaimed(gap))
  {
    var s, s', now := Lost(gap), OtherClaimed(gap), Back(gap);
    OneWork(StateOf(s, OTHER), OTHER, now, Run(CHILD));
    assert s'.workers == s.workers[OTHER := s'.workers[OTHER]];
    assert s'.rows == Claimed(s.rows, CHILD, OTHER, now) == Heartbeaten(s'.rows, OTHER, now);
    TickLeads(gap, s, OTHER, now, [Run(CHILD)], s');
  }

  lemma OtherCounts(gap: real)
    requires gap > TICK_GAP
    ensures LeadsTo(gap, OtherClaimed(gap), CountedOnce(gap))
  {
    var s, s', now := OtherClaimed(gap), CountedOnce(gap), Back(gap);
    OneWork(StateOf(s, OTHER), OTHER, now, Reap(CHILD, true));
    assert s'.workers == s.workers[OTHER := s'.workers[OTHER]];
    assert s'.rows == Finished(s.rows, CHILD, Some(PARENT), Done, now);
    assert HELD - {CHILD} == map[];
    TickLeads(gap, s, OTHER, now, [Reap(CHILD, true)], s');
  }

  lemma LateReaps(gap: real)
    requires gap > TICK_GAP
    ensures var s, t, now := StateOf(CountedOnce(gap), LATE), StateOf(CountedTwice(gap), LATE), Back(gap);
            && CanDoAll(s, LATE, now, [Reap(CHILD, true)])
            && DoAll(s, LATE, now, [Reap(CHILD, true)]) == TickState(t.rows, LoopState(map[], 0.0, 0.0))
  {
    var s, now := CountedOnce(gap), Back(gap);
    OneWork(StateOf(s, LATE), LATE, now, Reap(CHILD, true));
    assert CountedTwice(gap).rows == Finished(s.rows, CHILD, Some(PARENT), Done, now);
    assert HELD - {CHILD} == map[];
  }

  lemma NothingToKeepUp(s: TickState, now: real)
    requires forall id :: id in s.rows ==> s.rows[id].status == Done && s.rows[id].completedAt == Some(now)
    requires forall id :: id in s.rows ==> s.rows[id].attempts < MAX_ATTEMPTS
    requires UpkeepDue(s, now)
    ensures CanKeepUp(s, now, []) && KeptUp(s, now, []) == s.(loop := s.loop.(lastMaintenance := now))
  {
    assert Requeued(s.rows, now) == s.rows;
    NothingElseToDo(s.rows, now);
  }

  lemma LateCounts(gap: real)
    requires gap > TICK_GAP
    ensures LeadsTo(gap, CountedOnce(gap), CountedTwice(gap))
  {
    var s, s', now := CountedOnce(gap), CountedTwice(gap), Back(gap);
    LateReaps(gap);
    var mid := TickState(s'.rows, LoopState(map[], 0.0, 0.0));
    NothingToKeepUp(mid, now);
    hide DoAll, CanDoAll, KeptUp, CanKeepUp;
    TickLeads(gap, s, LATE, now, [Reap(CHILD, true)], s');
  }

  lemma StepLeads(gap: real, s: Sys, step: Step, s': Sys)
    requires !step.Tick? && Possible(s, step) && s' == After(s, step)
    ensures LeadsTo(gap, s, s')
  {
    assert Enabled(gap, s, step);
  }

  lemma InsertsLead(gap: real)
    ensures LeadsTo(gap, Empty(), ParentOnly()) && LeadsTo(gap, ParentOnly(), Unattended())
    ensures LeadsTo(gap, Unattended(), LateStarted()) && LeadsTo(gap, LateStarted(), Ready())
  {
    StepLeads(gap, Empty(), SubmitParent(PARENT, 2), ParentOnly());
    StepLeads(gap, ParentOnly(), SubmitChild(CHILD, PARENT), Unattended());
    StepLeads(gap, Unattended(), Start(LATE), LateStarted());
    StepLeads(gap, LateStarted(), Start(OTHER), Ready());
  }

  lemma LateRunIsRun(gap: real)
    requires gap > TICK_GAP
    ensures IsRun(gap, LateRun(gap))
  {
    hide LeadsTo, Unattended, LateStarted, Ready, LateClaimed, LateSeen, BothSeen, Lost, OtherClaimed, CountedOnce,
      CountedTwice;
    InsertsLead(gap);
    LateClaims(gap);
    LateIsSeen(gap);
    OtherIsSeen(gap);
    ClaimIsLost(gap);
    OtherClaims(gap);
    OtherCounts(gap);
    LateCounts(gap);
  }

  // ---- the threshold -----------------------------------------------------------------------------

  lemma LongGapCountsTwice(gap: real)
    requires gap > TICK_GAP
    ensures !AlwaysCountsOnce(gap)
  {
    LateRunIsRun(gap);
    var s := CountedTwice(gap);
    assert LateRun(gap)[11] == s;
    assert EndedChildren(s.rows, s.submitted, PARENT) == {CHILD};
    assert Reachable(gap, s) && !CountsOnce(s, PARENT);
  }

  lemma LongGapGoesStale(gap: real)
    requires gap > TICK_GAP
    ensures !AlwaysFresh(gap)
  {
    LateRunIsRun(gap);
    var s := BothSeen(gap);
    assert LateRun(gap)[7] == s;
    assert Executes(s, LATE, CHILD) && MayReach(gap, s, Back(gap)) && !IsFresh(s, CHILD, Back(gap));
  }

  lemma LongGapRunsTwice(gap: real)
    requires gap > TICK_GAP
    ensures !AlwaysOneExecutor(gap)
  {
    LateRunIsRun(gap);
    var s := OtherClaimed(gap);
    assert LateRun(gap)[9] == s;
    assert Executes(s, LATE, CHILD) && Executes(s, OTHER, CHILD);
  }

  /**
   95 seconds is exact, three times over: with this gap every run counts every child once, no
   run ever finds a live claim stale, and every job has one live executor, if and only if the gap
   is at most the stale limit minus the heartbeat period.
   */
  lemma GapIsExact(gap: real)
    ensures AlwaysCountsOnce(gap) <==> gap <= TICK_GAP
    ensures AlwaysFresh(gap) <==> gap <= TICK_GAP
    ensures AlwaysOneExecutor(gap) <==> gap <= TICK_GAP
  {
    hide IsRun, CountsOnce, MayReach;
    if gap > TICK_GAP {
      LongGapCountsTwice(gap);
      LongGapGoesStale(gap);
      LongGapRunsTwice(gap);
    } else {
      forall s: Sys, p: Id | Reachable(gap, s) && p in s.rows && IsParentRow(s.rows[p]) ensures CountsOnce(s, p) {
        ShortGapCountsOnce(gap, s, p);
      }
      forall s: Sys, w: Worker, j: Id, now: real | Reachable(gap, s) && Executes(s, w, j) && MayReach(gap, s, now)
        ensures IsFresh(s, j, now)
      {
        var run: seq<Sys>, i: nat :| IsRun(gap, run) && i < |run| && run[i] == s;
        LiveClaimsAreNeverStale(gap, run, i, w, j, now);
      }
      forall s: Sys, u: Worker, v: Worker, j: Id | Reachable(gap, s) && Executes(s, u, j) && Executes(s, v, j)
        ensures u == v
      {
        var run: seq<Sys>, i: nat :| IsRun(gap, run) && i < |run| && run[i] == s;
        OneLiveExecutor(gap, run, i, u, v, j);
      }
    }
  }

  lemma ShortGapCountsOnce(gap: real, s: Sys, p: Id)
    requires gap <= TICK_GAP && Reachable(gap, s) && p in s.rows && IsParentRow(s.rows[p])
    ensures CountsOnce(s, p)
  {
    hide IsRun;
    var run: seq<Sys>, i: nat :| IsRun(gap, run) && i < |run| && run[i] == s;
    ParentCountsItsChildren(gap, run, i, p);
  }
}
