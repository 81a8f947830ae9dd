/**
 The jobs table (app/jobstore.py): one row per job, and the SQL statements of
 `JobStore` as functions from table to table.
 */
module JobTable {
  import opened Wrappers

  /** uuid4 row ids and `host:pid` worker identities, compared only for equality. */
  type Id = nat
  type Worker = nat

  const STALE_AFTER_SECONDS: real := 120.0
  const MAX_ATTEMPTS: nat := 3
  const RETENTION_SECONDS: real := 7.0 * 24.0 * 3600.0

  datatype Status = Queued | Running | Done | Error

  datatype Row = Row(
    status: Status,
    parent: Option<Id>,
    total: Option<nat>,
    done: Option<nat>,
    attempts: nat,
    submittedAt: real,
    startedAt: Option<real>,
    completedAt: Option<real>,
    claimedBy: Option<Worker>,
    heartbeatAt: Option<real>)
  {
    predicate Terminal() { status == Done || status == Error }

    /** The heartbeat is older than the cutoff, which is not true of NULL. */
    predicate StaleAt(now: real) {
      status == Running && heartbeatAt.Some? && heartbeatAt.value < now - STALE_AFTER_SECONDS
    }
  }

  /** Only reprocess-all parents have a total. */
  predicate IsParentRow(r: Row) { r.total.Some? }

  type Table = map<Id, Row>

  /** The row `insert` writes. */
  function NewRow(status: Status, parent: Option<Id>, total: Option<nat>, done: Option<nat>, now: real): Row {
    Row(status, parent, total, done, 0, now, None, None, None, None)
  }

  /** `id` is an oldest queued row, any of which the claiming SELECT may return. */
  ghost predicate IsNext(t: Table, id: Id) {
    && id in t && t[id].status == Queued
    && forall other :: other in t && t[other].status == Queued ==> t[id].submittedAt <= t[other].submittedAt
  }

  /** The claiming UPDATE, on a row it matches. */
  function Claimed(t: Table, id: Id, worker: Worker, now: real): Table
    requires id in t
  {
    var r := t[id];
    t[id := r.(status := Running, claimedBy := Some(worker), startedAt := Some(now),
               heartbeatAt := Some(now), attempts := r.attempts + 1)]
  }

  function Heartbeaten(t: Table, worker: Worker, now: real): Table {
    map id | id in t ::
      if t[id].claimedBy == Some(worker) && t[id].status == Running then t[id].(heartbeatAt := Some(now)) else t[id]
  }

  /** Completing and failing: the UPDATE has no condition on the old status. */
  function Ended(t: Table, id: Id, status: Status, now: real): Table {
    if id in t then t[id := t[id].(status := status, completedAt := Some(now))] else t
  }

  /** One more done; a missing count starts at 0. */
  function Incremented(t: Table, id: Id): Table {
    if id in t then t[id := t[id].(done := Some((if t[id].done.Some? then t[id].done.value else 0) + 1))] else t
  }

  predicate ReachedTotal(r: Row) {
    r.status == Running && r.total.Some? && r.done.Some? && r.done.value >= r.total.value
  }

  function Bumped(t: Table, id: Id, now: real): Table {
    var t1 := Incremented(t, id);
    if id in t1 && ReachedTotal(t1[id]) then Ended(t1, id, Done, now) else t1
  }

  function Requeued(t: Table, now: real): Table {
    map id | id in t ::
      if t[id].StaleAt(now) && t[id].attempts < MAX_ATTEMPTS
      then t[id].(status := Queued, claimedBy := None, heartbeatAt := None) else t[id]
  }

  function StaleExhausted(t: Table, now: real): set<Id> {
    set id | id in t && t[id].StaleAt(now) && t[id].attempts >= MAX_ATTEMPTS
  }

  predicate Prunable(r: Row, now: real) {
    r.Terminal() && r.completedAt.Some? && r.completedAt.value < now - RETENTION_SECONDS
  }

  function Pruned(t: Table, now: real): Table {
    map id | id in t && !Prunable(t[id], now) :: t[id]
  }

  /** `apply_success` / `apply_failure` followed by `complete` / `fail`: bump the parent, then end the row. */
  function Finished(t: Table, id: Id, parent: Option<Id>, status: Status, now: real): Table {
    Ended(if parent.Some? then Bumped(t, parent.value, now) else t, id, status, now)
  }
}
