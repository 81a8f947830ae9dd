/**
 One tick of the worker loop (app/worker_loop.py, `run_once`) as a function of the
 table, the loop's own fields, one clock reading and the choices the tick makes:
 which futures finished and how, which jobs were claimed and whether their plan raised,
 and in which order exhausted jobs were failed.
 */
module WorkerTicks {
  import opened Wrappers
  import opened JobTable

  const HEARTBEAT_PERIOD: real := 25.0
  const MAINTENANCE_PERIOD: real := 60.0

  /** The loop's fields; `inflight` keeps the parent id of each claimed job dict. */
  datatype LoopState = LoopState(inflight: map<Id, Option<Id>>, lastHeartbeat: real, lastMaintenance: real)

  datatype TickState = TickState(rows: Table, loop: LoopState)

  datatype Work =
    | Reap(id: Id, ok: bool)    // a finished future, applied and ended as done or error
    | Run(id: Id)               // claimed and submitted to the executor
    | Reject(id: Id)            // claimed, but building its execution plan raised

  ghost predicate CanDo(s: TickState, w: Work) {
    match w
    case Reap(id, _) => id in s.loop.inflight
    case Run(id) => IsNext(s.rows, id)
    case Reject(id) => IsNext(s.rows, id)
  }

  ghost function Do(s: TickState, worker: Worker, now: real, w: Work): TickState
    requires CanDo(s, w)
  {
    match w
    case Reap(id, ok) =>
      TickState(Finished(s.rows, id, s.loop.inflight[id], if ok then Done else Error, now),
                s.loop.(inflight := s.loop.inflight - {id}))
    case Run(id) =>
      TickState(Claimed(s.rows, id, worker, now), s.loop.(inflight := s.loop.inflight[id := s.rows[id].parent]))
    case Reject(id) =>
      TickState(Finished(Claimed(s.rows, id, worker, now), id, s.rows[id].parent, Error, now), s.loop)
  }

  ghost predicate CanDoAll(s: TickState, worker: Worker, now: real, ws: seq<Work>)
    decreases |ws|, 0
  {
    if ws == [] then true
    else
      && CanDoAll(s, worker, now, ws[..|ws| - 1])
      && CanDo(DoAll(s, worker, now, ws[..|ws| - 1]), ws[|ws| - 1])
  }

  /** Reaping and claiming, one piece of work after another. */
  ghost function DoAll(s: TickState, worker: Worker, now: real, ws: seq<Work>): TickState
    requires CanDoAll(s, worker, now, ws)
    decreases |ws|, 1
  {
    if ws == [] then s else Do(DoAll(s, worker, now, ws[..|ws| - 1]), worker, now, ws[|ws| - 1])
  }

  lemma DoOneMore(s: TickState, worker: Worker, now: real, ws: seq<Work>, w: Work)
    requires CanDoAll(s, worker, now, ws) && CanDo(DoAll(s, worker, now, ws), w)
    ensures CanDoAll(s, worker, now, ws + [w])
    ensures DoAll(s, worker, now, ws + [w]) == Do(DoAll(s, worker, now, ws), worker, now, w)
  {
    assert (ws + [w])[..|ws|] == ws;
  }

  predicate BeatDue(s: TickState, now: real) {
    s.loop.inflight != map[] && now - s.loop.lastHeartbeat >= HEARTBEAT_PERIOD
  }

  function Beaten(s: TickState, worker: Worker, now: real): TickState {
    if BeatDue(s, now) then TickState(Heartbeaten(s.rows, worker, now), s.loop.(lastHeartbeat := now)) else s
  }

  predicate UpkeepDue(s: TickState, now: real) {
    now - s.loop.lastMaintenance >= MAINTENANCE_PERIOD
  }

  /** Fails the listed jobs, with the parents the snapshot `listed` had. */
  function FailAll(t: Table, listed: Table, order: seq<Id>, now: real): Table {
    if order == [] then t
    else
      var id := order[|order| - 1];
      var parent := if id in listed then listed[id].parent else None;
      Finished(FailAll(t, listed, order[..|order| - 1], now), id, parent, Error, now)
  }

  ghost predicate Enumerates(order: seq<Id>, ids: set<Id>) {
    && (forall id :: id in order <==> id in ids)
    && (forall i, j :: 0 <= i < j < |order| ==> order[i] != order[j])
  }

  ghost predicate CanKeepUp(s: TickState, now: real, order: seq<Id>) {
    Enumerates(order, if UpkeepDue(s, now) then StaleExhausted(Requeued(s.rows, now), now) else {})
  }

  /** Requeue, fail the exhausted, prune, once a minute. */
  ghost function KeptUp(s: TickState, now: real, order: seq<Id>): TickState
    requires CanKeepUp(s, now, order)
  {
    if UpkeepDue(s, now) then
      var requeued := Requeued(s.rows, now);
      TickState(Pruned(FailAll(requeued, requeued, order, now), now), s.loop.(lastMaintenance := now))
    else s
  }

  /** The whole tick: work, then the heartbeat when due, then upkeep when due. */
  ghost predicate CanTick(s: TickState, worker: Worker, now: real, ws: seq<Work>, order: seq<Id>) {
    && CanDoAll(s, worker, now, ws)
    && CanKeepUp(Beaten(DoAll(s, worker, now, ws), worker, now), now, order)
  }

  ghost function Ticked(s: TickState, worker: Worker, now: real, ws: seq<Work>, order: seq<Id>): TickState
    requires CanTick(s, worker, now, ws, order)
  {
    KeptUp(Beaten(DoAll(s, worker, now, ws), worker, now), now, order)
  }
}
