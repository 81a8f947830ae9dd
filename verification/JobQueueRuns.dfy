/**
 Every run of the job queue: submissions, worker starts, crashes and whole ticks in any
 order, on one monotone clock. No live worker lets more than `gap` seconds pass between two
 ticks; a crashed worker never ticks again and its identity is never reused.
 */
module JobQueueRuns {
  import opened Wrappers
  import opened JobTable
  import opened WorkerTicks

  /** The stale limit minus the heartbeat period: 95 seconds. */
  const TICK_GAP: real := STALE_AFTER_SECONDS - HEARTBEAT_PERIOD

  datatype Live = Live(loop: LoopState, lastTick: real)

  /**
   `submitted` remembers every row ever inserted with its parent; `pending` is how many
   children a reprocess-all submission still has to insert.
   */
  datatype Sys = Sys(
    rows: Table,
    workers: map<Worker, Live>,
    identities: set<Worker>,
    submitted: map<Id, Option<Id>>,
    pending: map<Id, nat>,
    clock: real)

  // ---- steps ------------------------------------------------------------------------

  ghost predicate Init(s: Sys) {
    && s.rows == map[] && s.workers == map[] && s.identities == {}
    && s.submitted == map[] && s.pending == map[] && s.clock >= 0.0
  }

  datatype Step =
    | Start(worker: Worker)
    | Crash(worker: Worker)
    | Submit(id: Id)
    | SubmitParent(id: Id, total: nat)
    | SubmitChild(id: Id, parent: Id)
    | Tick(worker: Worker, now: real, ws: seq<Work>, order: seq<Id>)

  function PendingOf(s: Sys, p: Id): nat { if p in s.pending then s.pending[p] else 0 }

  /** Time may advance to `now`: every live worker ticked at most `gap` seconds before. */
  ghost predicate MayReach(gap: real, s: Sys, now: real) {
    && s.clock <= now
    && forall w :: w in s.workers ==> now <= s.workers[w].lastTick + gap
  }

  function StateOf(s: Sys, w: Worker): TickState
    requires w in s.workers
  {
    TickState(s.rows, s.workers[w].loop)
  }

  /** The step can happen, whatever the clock says. */
  ghost predicate Possible(s: Sys, step: Step) {
    match step
    case Start(w) => w !in s.identities
    case Crash(w) => w in s.workers
    case Submit(id) => id !in s.submitted
    case SubmitParent(id, _) => id !in s.submitted
    case SubmitChild(id, p) => id !in s.submitted && PendingOf(s, p) > 0
    case Tick(w, now, ws, order) => w in s.workers && CanTick(StateOf(s, w), w, now, ws, order)
  }

  ghost predicate Enabled(gap: real, s: Sys, step: Step) {
    Possible(s, step) && (step.Tick? ==> MayReach(gap, s, step.now))
  }

  ghost function After(s: Sys, step: Step): Sys
    requires Possible(s, step)
  {
    match step
    case Start(w) =>
      s.(workers := s.workers[w := Live(LoopState(map[], 0.0, 0.0), s.clock)], identities := s.identities + {w})
    case Crash(w) => s.(workers := s.workers - {w})
    case Submit(id) =>
      s.(rows := s.rows[id := NewRow(Queued, None, None, None, s.clock)], submitted := s.submitted[id := None])
    case SubmitParent(id, total) =>
      s.(rows := s.rows[id := NewRow(if total > 0 then Running else Done, None, Some(total), Some(0), s.clock)],
         submitted := s.submitted[id := None], pending := s.pending[id := total])
    case SubmitChild(id, p) =>
      s.(rows := s.rows[id := NewRow(Queued, Some(p), None, None, s.clock)],
         submitted := s.submitted[id := Some(p)], pending := s.pending[p := s.pending[p] - 1])
    case Tick(w, now, ws, order) =>
      var t := Ticked(StateOf(s, w), w, now, ws, order);
      s.(rows := t.rows, workers := s.workers[w := Live(t.loop, now)], clock := now)
  }

  ghost predicate LeadsTo(gap: real, s: Sys, s': Sys) {
    exists step :: Enabled(gap, s, step) && s' == After(s, step)
  }

  ghost predicate IsRun(gap: real, run: seq<Sys>) {
    && |run| > 0 && Init(run[0])
    && forall i :: 0 <= i < |run| - 1 ==> LeadsTo(gap, run[i], run[i + 1])
  }

  // ---- the invariant on the table -------------------------------------------------------

  function Children(submitted: map<Id, Option<Id>>, p: Id): set<Id> {
    set c | c in submitted && submitted[c] == Some(p)
  }

  /** A submitted row counts as ended when it is done or error, or was pruned. */
  predicate HasEnded(rows: Table, c: Id) {
    c in rows ==> rows[c].Terminal()
  }

  function EndedChildren(rows: Table, submitted: map<Id, Option<Id>>, p: Id): set<Id> {
    set c | c in Children(submitted, p) && HasEnded(rows, c)
  }

  /** A reprocess-all parent counts exactly its ended children and is done exactly at its total. */
  ghost predicate ParentCounts(rows: Table, submitted: map<Id, Option<Id>>, pending: map<Id, nat>, p: Id)
    requires p in rows
  {
    var r := rows[p];
    && r.parent == None && r.heartbeatAt == None && r.claimedBy == None && r.status in {Running, Done}
    && r.done == Some(|EndedChildren(rows, submitted, p)|)
    && r.total == Some(|Children(submitted, p)| + if p in pending then pending[p] else 0)
    && (r.status == Done <==> r.done.value >= r.total.value)
  }

  ghost predicate TableInv(rows: Table, submitted: map<Id, Option<Id>>, pending: map<Id, nat>) {
    && (forall id :: id in rows ==> id in submitted && rows[id].parent == submitted[id])
    && (forall p :: p in rows && IsParentRow(rows[p]) ==> ParentCounts(rows, submitted, pending, p))
    && (forall c :: c in rows && !rows[c].Terminal() && rows[c].parent.Some? ==>
          rows[c].parent.value in rows && IsParentRow(rows[rows[c].parent.value]))
    && (forall p :: p in pending && pending[p] > 0 ==> p in rows && IsParentRow(rows[p]))
    && (forall c :: c in submitted && submitted[c].Some? ==>
          submitted[c].value in submitted && (submitted[c].value in rows ==> IsParentRow(rows[submitted[c].value])))
    && (forall p :: p in pending ==> p in submitted)
  }

  // ---- the invariant on live workers --------------------------------------------------------

  /** Every job in `inflight` is a running row claimed by `w`, with a heartbeat no older than `since`. */
  ghost predicate Owns(rows: Table, w: Worker, inflight: map<Id, Option<Id>>, since: real) {
    forall j :: j in inflight ==>
      && j in rows && rows[j].status == Running && rows[j].claimedBy == Some(w)
      && !IsParentRow(rows[j]) && rows[j].parent == inflight[j]
      && rows[j].heartbeatAt.Some? && rows[j].heartbeatAt.value >= since
  }

  /** Every job in `inflight` has a heartbeat younger than `t`. */
  ghost predicate FreshAfter(rows: Table, inflight: map<Id, Option<Id>>, t: real) {
    forall j :: j in inflight && j in rows && rows[j].heartbeatAt.Some? ==> rows[j].heartbeatAt.value > t
  }

  ghost predicate WorkerInv(s: Sys, w: Worker)
    requires w in s.workers
  {
    var l := s.workers[w];
    && Owns(s.rows, w, l.loop.inflight, l.loop.lastHeartbeat)
    && FreshAfter(s.rows, l.loop.inflight, l.lastTick - HEARTBEAT_PERIOD)
    && l.loop.lastHeartbeat <= s.clock
  }

  ghost predicate Inv(s: Sys) {
    && TableInv(s.rows, s.submitted, s.pending)
    && (forall w :: w in s.workers ==> w in s.identities && WorkerInv(s, w))
    && s.clock >= 0.0
  }
}
