/**
 `JobStore` (app/jobstore.py) as a class over one shared table. Each method runs the
 statements the source runs and is tied to the table function of `JobTable`.
 */
module JobStores {
  import opened Wrappers
  import opened JobTable

  class JobStore {
    var rows: Table

    constructor ()
      ensures rows == map[]
    {
      rows := map[];
    }

    /** `insert`, with the fresh uuid as a parameter. */
    method Insert(id: Id, status: Status, parent: Option<Id>, total: Option<nat>, done: Option<nat>, now: real)
      requires id !in rows
      modifies this
      ensures rows == old(rows)[id := NewRow(status, parent, total, done, now)]
      ensures rows[id].status == status && rows[id].parent == parent && rows[id].total == total && rows[id].done == done
      ensures rows[id].attempts == 0 && rows[id].submittedAt == now && rows[id].claimedBy == None
    {
      rows := rows[id := NewRow(status, parent, total, done, now)];
    }

    method Get(id: Id) returns (row: Option<Row>)
      ensures row == if id in rows then Some(rows[id]) else None
    {
      return if id in rows then Some(rows[id]) else None;
    }

    /** The first of the two claim steps. */
    method SelectCandidate() returns (candidate: Option<Id>)
      ensures candidate.Some? ==> IsNext(rows, candidate.value)
      ensures candidate.Some? ==>
        && candidate.value in rows && rows[candidate.value].status == Queued
        && forall id :: id in rows && rows[id].status == Queued ==>
             rows[candidate.value].submittedAt <= rows[id].submittedAt
      ensures candidate.None? ==> forall id :: id in rows ==> rows[id].status != Queued
    {
      candidate := None;
      var todo := rows.Keys;
      while todo != {}
        invariant todo <= rows.Keys
        invariant candidate.None? ==> forall id :: id in rows.Keys - todo ==> rows[id].status != Queued
        invariant candidate.Some? ==>
          && candidate.value in rows && rows[candidate.value].status == Queued
          && forall id :: id in rows.Keys - todo && rows[id].status == Queued
               ==> rows[candidate.value].submittedAt <= rows[id].submittedAt
        decreases todo
      {
        var id :| id in todo;
        if rows[id].status == Queued && (candidate.None? || rows[id].submittedAt < rows[candidate.value].submittedAt) {
          candidate := Some(id);
        }
        todo := todo - {id};
      }
    }

    /** The second claim step, a conditional UPDATE judged by its row count. */
    method TryClaim(id: Id, worker: Worker, now: real) returns (won: bool)
      modifies this
      ensures won <==> id in old(rows) && old(rows)[id].status == Queued
      ensures rows == if won then Claimed(old(rows), id, worker, now) else old(rows)
      ensures won ==>
        && rows[id].status == Running && rows[id].claimedBy == Some(worker) && rows[id].heartbeatAt == Some(now)
        && rows[id].startedAt == Some(now) && rows[id].attempts == old(rows)[id].attempts + 1
      ensures won ==> forall other :: other in old(rows) && other != id ==>
        other in rows && rows[other] == old(rows)[other]
    {
      won := id in rows && rows[id].status == Queued;
      if won { rows := Claimed(rows, id, worker, now); }
    }

    /** Select, try, and select again after a lost race. */
    method ClaimNext(worker: Worker, now: real) returns (claimed: Option<Id>)
      modifies this
      ensures claimed.Some? ==>
        IsNext(old(rows), claimed.value) && rows == Claimed(old(rows), claimed.value, worker, now)
      ensures claimed.Some? ==>
        && claimed.value in old(rows) && old(rows)[claimed.value].status == Queued
        && forall id :: id in old(rows) && old(rows)[id].status == Queued ==>
             old(rows)[claimed.value].submittedAt <= old(rows)[id].submittedAt
      ensures claimed.Some? ==>
        && rows[claimed.value].status == Running && rows[claimed.value].claimedBy == Some(worker)
        && rows[claimed.value].heartbeatAt == Some(now)
        && rows[claimed.value].attempts == old(rows)[claimed.value].attempts + 1
      ensures claimed.None? ==> rows == old(rows) && forall id :: id in rows ==> rows[id].status != Queued
    {
      claimed := SelectCandidate();
      var won := false;
      while claimed.Some? && !won
        invariant won ==> claimed.Some? && IsNext(old(rows), claimed.value)
                          && rows == Claimed(old(rows), claimed.value, worker, now)
        invariant !won ==> rows == old(rows) && (claimed.Some? ==> IsNext(rows, claimed.value))
        invariant claimed.None? ==> forall id :: id in rows ==> rows[id].status != Queued
        decreases if won then 0 else 1
      {
        won := TryClaim(claimed.value, worker, now);
        if !won { claimed := SelectCandidate(); }
      }
    }

    method Heartbeat(worker: Worker, now: real) returns (count: nat)
      modifies this
      ensures rows == Heartbeaten(old(rows), worker, now)
      ensures forall id :: id in old(rows) ==>
        && id in rows
        && rows[id].heartbeatAt == (
             if old(rows)[id].claimedBy == Some(worker) && old(rows)[id].status == Running then Some(now)
             else old(rows)[id].heartbeatAt)
        && rows[id].(heartbeatAt := None) == old(rows)[id].(heartbeatAt := None)
      ensures count ==
        |set id | id in old(rows) && old(rows)[id].claimedBy == Some(worker) && old(rows)[id].status == Running|
    {
      count := |set id | id in rows && rows[id].claimedBy == Some(worker) && rows[id].status == Running|;
      rows := Heartbeaten(rows, worker, now);
    }

    method Complete(id: Id, now: real)
      modifies this
      ensures rows == Ended(old(rows), id, Done, now)
      ensures rows.Keys == old(rows).Keys
      ensures id in rows ==> rows[id].status == Done && rows[id].completedAt == Some(now)
    {
      if id in rows { rows := rows[id := rows[id].(status := Done, completedAt := Some(now))]; }
    }

    method Fail(id: Id, now: real)
      modifies this
      ensures rows == Ended(old(rows), id, Error, now)
      ensures rows.Keys == old(rows).Keys
      ensures id in rows ==> rows[id].status == Error && rows[id].completedAt == Some(now)
    {
      if id in rows { rows := rows[id := rows[id].(status := Error, completedAt := Some(now))]; }
    }

    /** Increment, read back, and conditionally finish the parent: three statements. */
    method BumpParentDone(id: Id, now: real)
      modifies this
      ensures rows == Bumped(old(rows), id, now)
      ensures id in old(rows) ==>
        && id in rows
        && rows[id].done == Some((if old(rows)[id].done.Some? then old(rows)[id].done.value else 0) + 1)
        && rows[id].status == (
             if old(rows)[id].status == Running && old(rows)[id].total.Some?
                && rows[id].done.value >= old(rows)[id].total.value then Done
             else old(rows)[id].status)
    {
      rows := Incremented(rows, id);
      var parent := Get(id);
      if parent.Some? && ReachedTotal(parent.value) {
        if id in rows && rows[id].status == Running {
          rows := rows[id := rows[id].(status := Done, completedAt := Some(now))];
        }
      }
    }

    method RequeueStale(now: real) returns (count: nat)
      modifies this
      ensures rows == Requeued(old(rows), now)
      ensures forall id :: id in old(rows) ==>
        && id in rows
        && rows[id] == (
             var r := old(rows)[id];
             if r.status == Running && r.heartbeatAt.Some? && r.heartbeatAt.value < now - 120.0 && r.attempts < 3
             then r.(status := Queued, claimedBy := None, heartbeatAt := None) else r)
      ensures count == |set id | id in old(rows) && old(rows)[id].StaleAt(now) && old(rows)[id].attempts < MAX_ATTEMPTS|
    {
      count := |set id | id in rows && rows[id].StaleAt(now) && rows[id].attempts < MAX_ATTEMPTS|;
      rows := Requeued(rows, now);
    }

    method ListStaleExhausted(now: real) returns (ids: set<Id>)
      ensures ids == StaleExhausted(rows, now)
      ensures forall id :: id in ids <==>
        && id in rows && rows[id].status == Running && rows[id].attempts >= 3
        && rows[id].heartbeatAt.Some? && rows[id].heartbeatAt.value < now - 120.0
    {
      ids := StaleExhausted(rows, now);
    }

    method Prune(now: real) returns (count: nat)
      modifies this
      ensures rows == Pruned(old(rows), now)
      ensures forall id :: id in rows <==>
        && id in old(rows)
        && !(old(rows)[id].status in {Done, Error} && old(rows)[id].completedAt.Some?
             && old(rows)[id].completedAt.value < now - 604800.0)
      ensures forall id :: id in rows ==> rows[id] == old(rows)[id]
      ensures count == |set id | id in old(rows) && Prunable(old(rows)[id], now)|
    {
      count := |set id | id in rows && Prunable(rows[id], now)|;
      rows := Pruned(rows, now);
    }
  }
}
