/** `WorkerLoop.run_once` (app/worker_loop.py), proved to be a tick in the sense of `WorkerTicks`. */
module WorkerLoops {
  import opened Wrappers
  import opened JobTable
  import opened JobStores
  import opened WorkerTicks

  /** How a finished future resolved. */
  datatype Outcome = Returned | CallbackFailed | Raised

  function QueuedIds(t: Table): set<Id> { set id | id in t && t[id].status == Queued }

  lemma FinishedQueuesNothing(t: Table, id: Id, parent: Option<Id>, status: Status, now: real)
    requires status == Done || status == Error
    ensures QueuedIds(Finished(t, id, parent, status, now)) <= QueuedIds(t) - {id}
  {
  }

  lemma ClaimShrinksQueue(t: Table, id: Id, worker: Worker, now: real)
    requires id in t && t[id].status == Queued
    ensures QueuedIds(Claimed(t, id, worker, now)) == QueuedIds(t) - {id}
    ensures id in QueuedIds(t) && id in Claimed(t, id, worker, now)
    ensures Claimed(t, id, worker, now)[id].parent == t[id].parent
  {
  }

  /** Nothing but `done` and start time may differ, but that a running row with a total may be done. */
  predicate Kept(was: Row, cur: Row) {
    && cur.total == was.total && cur.attempts == was.attempts
    && cur.claimedBy == was.claimedBy && cur.heartbeatAt == was.heartbeatAt
    && (|| (cur.status == was.status && cur.completedAt == was.completedAt)
        || (was.status == Running && was.total.Some? && cur.status == Done))
  }

  /** Ending a row sets its status and completion time and keeps the others. */
  lemma FinishedRow(t: Table, id: Id, parent: Option<Id>, status: Status, now: real, x: Id)
    requires x in t && status in {Done, Error}
    ensures var t' := Finished(t, id, parent, status, now);
      && t'.Keys == t.Keys
      && (x == id ==> t'[x].status == status && t'[x].completedAt == Some(now))
      && (x != id ==> Kept(t[x], t'[x]))
  {
  }

  /** Failing the listed jobs one by one, seen at one row. */
  lemma {:induction false} FailedRow(t: Table, order: seq<Id>, now: real, x: Id)
    requires x in t
    ensures var t' := FailAll(t, t, order, now);
      && t'.Keys == t.Keys
      && (x in order ==> t'[x].status == Error && t'[x].completedAt == Some(now))
      && (x !in order ==> Kept(t[x], t'[x]))
      && (t'[x].status != t[x].status ==> t'[x].completedAt == Some(now))
      && (t[x].status in {Done, Error} && x !in order ==> t'[x].completedAt == t[x].completedAt)
  {
    if order != [] {
      var init, last := order[..|order| - 1], order[|order| - 1];
      FailedRow(t, init, now, x);
      var parent := if last in t then t[last].parent else None;
      FinishedRow(FailAll(t, t, init, now), last, parent, Error, now, x);
      assert order == init + [last];
    }
  }

  class WorkerLoop {
    const store: JobStore
    const identity: Worker
    const maxWorkers: nat
    var inflight: map<Id, Option<Id>>
    var stopped: bool
    var lastHeartbeat: real
    var lastMaintenance: real

    constructor (store: JobStore, identity: Worker, maxWorkers: nat)
      ensures this.store == store && this.identity == identity && this.maxWorkers == maxWorkers
      ensures inflight == map[] && !stopped && lastHeartbeat == 0.0 && lastMaintenance == 0.0
    {
      this.store := store;
      this.identity := identity;
      this.maxWorkers := maxWorkers;
      inflight, stopped, lastHeartbeat, lastMaintenance := map[], false, 0.0, 0.0;
    }

    ghost function State(): TickState
      reads this, store
    {
      TickState(store.rows, LoopState(inflight, lastHeartbeat, lastMaintenance))
    }

    /** The per-kind side effects on a parent row (`apply_success` and `apply_failure`). */
    method BumpParent(parent: Option<Id>, now: real)
      modifies store
      ensures store.rows == if parent.Some? then Bumped(old(store.rows), parent.value, now) else old(store.rows)
    {
      if parent.Some? { store.BumpParentDone(parent.value, now); }
    }

    /** What one finished future does to the table. */
    method EndJob(id: Id, parent: Option<Id>, outcome: Outcome, now: real)
      modifies store
      ensures store.rows ==
        Finished(old(store.rows), id, parent, if outcome == Returned then Done else Error, now)
    {
      BumpParent(parent, now);
      match outcome {
        case Returned => store.Complete(id, now);
        case CallbackFailed => store.Fail(id, now);
        case Raised => store.Fail(id, now);
      }
    }

    /** Every finished future ends its row: done when it returned and its callback did not fail. */
    method ReapFinished(now: real, finished: map<Id, Outcome>) returns (ghost ws: seq<Work>)
      modifies this, store
      ensures CanDoAll(old(State()), identity, now, ws)
      ensures State() == DoAll(old(State()), identity, now, ws)
      ensures inflight == old(inflight) - finished.Keys
      ensures forall id :: id in old(inflight) && id in finished ==> Reap(id, finished[id] == Returned) in ws
      ensures stopped == old(stopped)
      ensures store.rows.Keys == old(store.rows).Keys
      ensures forall id :: id in old(inflight) && id in finished && id in store.rows ==>
        ReadsOutcome(store.rows, id, finished[id], now)
      ensures forall id :: id in store.rows && !(id in old(inflight) && id in finished) ==>
        Kept(old(store.rows)[id], store.rows[id])
      ensures lastHeartbeat == old(lastHeartbeat) && lastMaintenance == old(lastMaintenance)
    {
      ws := [];
      var todo := inflight.Keys * finished.Keys;
      assert Reaped(store.rows, store.rows, todo, todo, finished, now);
      hide DoAll, CanDoAll, Kept, ReadsOutcome, Finished;
      while todo != {}
        invariant todo <= inflight.Keys && todo <= finished.Keys
        invariant CanDoAll(old(State()), identity, now, ws)
        invariant State() == DoAll(old(State()), identity, now, ws)
        invariant inflight.Keys == old(inflight).Keys - (finished.Keys - todo)
        invariant forall id :: id in inflight ==> inflight[id] == old(inflight)[id]
        invariant forall id :: id in old(inflight) && id in finished && id !in todo ==>
            Reap(id, finished[id] == Returned) in ws
        invariant stopped == old(stopped)
        invariant lastHeartbeat == old(lastHeartbeat) && lastMaintenance == old(lastMaintenance)
        invariant Reaped(old(store.rows), store.rows, old(inflight).Keys * finished.Keys, todo, finished, now)
        decreases todo
      {
        var id :| id in todo;
        var parent := inflight[id];
        ReapOneMore(old(store.rows), store.rows, old(inflight).Keys * finished.Keys, todo, finished, now, id, parent);
        DoOneMore(old(State()), identity, now, ws, Reap(id, finished[id] == Returned));
        ws := ws + [Reap(id, finished[id] == Returned)];
        inflight := inflight - {id};
        EndJob(id, parent, finished[id], now);
        todo := todo - {id};
      }
      assert inflight == old(inflight) - finished.Keys;
    }

    /** Claims an oldest queued job and submits it, or ends it when building its plan raises. */
    method ClaimOne(now: real, planRaises: Id -> bool) returns (claimed: Option<Id>)
      modifies this, store
      ensures stopped == old(stopped) && lastHeartbeat == old(lastHeartbeat) && lastMaintenance == old(lastMaintenance)
      ensures claimed.None? ==> store.rows == old(store.rows) && inflight == old(inflight)
      ensures claimed.None? ==> QueuedIds(store.rows) == {}
      ensures claimed.Some? ==> IsNext(old(store.rows), claimed.value)
      ensures claimed.Some? ==>
        var id, parent := claimed.value, old(store.rows)[claimed.value].parent;
        var running := Claimed(old(store.rows), id, identity, now);
        && store.rows == (if planRaises(id) then Finished(running, id, parent, Error, now) else running)
        && inflight == (if planRaises(id) then old(inflight) else old(inflight)[id := parent])
    {
      claimed := store.ClaimNext(identity, now);
      if claimed.Some? {
        var id := claimed.value;
        var row := store.Get(id);
        var parent := row.value.parent;
        if planRaises(id) {
          EndJob(id, parent, Raised, now);
        } else {
          inflight := inflight[id := parent];
        }
      }
    }

    /**
     Claims until no slot is free or the queue is empty. A claimed job is running in this worker's
     hands, or ended as an error when its plan raised.
     */
    method ClaimWhileFree(now: real, planRaises: Id -> bool) returns (ghost ws: seq<Work>)
      modifies this, store
      ensures CanDoAll(old(State()), identity, now, ws)
      ensures State() == DoAll(old(State()), identity, now, ws)
      ensures stopped || |inflight| >= maxWorkers || QueuedIds(store.rows) == {}
      ensures stopped == old(stopped)
      ensures store.rows.Keys == old(store.rows).Keys
      ensures Served(old(store.rows), store.rows, inflight.Keys, identity, planRaises, now)
      ensures forall id :: id in old(inflight) ==> id in inflight
      ensures lastHeartbeat == old(lastHeartbeat) && lastMaintenance == old(lastMaintenance)
    {
      ws := [];
      var more := true;
      assert Served(store.rows, store.rows, inflight.Keys, identity, planRaises, now);
      hide DoAll, CanDoAll, Served, Finished, QueuedIds;
      while more && |inflight| < maxWorkers && !stopped
        invariant CanDoAll(old(State()), identity, now, ws)
        invariant State() == DoAll(old(State()), identity, now, ws)
        invariant !more ==> QueuedIds(store.rows) == {}
        invariant stopped == old(stopped)
        invariant lastHeartbeat == old(lastHeartbeat) && lastMaintenance == old(lastMaintenance)
        invariant forall id :: id in old(inflight) ==> id in inflight
        invariant Served(old(store.rows), store.rows, inflight.Keys, identity, planRaises, now)
        decreases more, QueuedIds(store.rows)
      {
        ghost var was, mine := store.rows, inflight;
        var claimed := ClaimOne(now, planRaises);
        if claimed.None? {
          more := false;
        } else {
          ghost var id := claimed.value;
          ghost var work := if planRaises(id) then Reject(id) else Run(id);
          ClaimShrinksQueue(was, id, identity, now);
          FinishedQueuesNothing(Claimed(was, id, identity, now), id, was[id].parent, Error, now);
          ServeOneMore(old(store.rows), was, mine.Keys, identity, planRaises, now, id);
          assert mine[id := was[id].parent].Keys == mine.Keys + {id};
          DoOneMore(old(State()), identity, now, ws, work);
          ws := ws + [work];
        }
      }
    }

    /** Refreshes the running rows this worker claimed, when it has work in flight and 25 seconds have passed. */
    method HeartbeatIfDue(now: real)
      modifies this, store
      ensures State() == Beaten(old(State()), identity, now)
      ensures stopped == old(stopped)
      ensures inflight == old(inflight) && lastMaintenance == old(lastMaintenance)
      ensures store.rows.Keys == old(store.rows).Keys
      ensures forall id :: id in store.rows ==>
        store.rows[id] == (
          if old(inflight) != map[] && now - old(lastHeartbeat) >= 25.0
             && old(store.rows)[id].status == Running && old(store.rows)[id].claimedBy == Some(identity)
          then old(store.rows)[id].(heartbeatAt := Some(now)) else old(store.rows)[id])
    {
      if inflight != map[] && now - lastHeartbeat >= HEARTBEAT_PERIOD {
        var _ := store.Heartbeat(identity, now);
        lastHeartbeat := now;
      }
    }

    /**
     Once a minute: rows silent for 120 seconds go back to the queue, or fail after three attempts;
     rows ended a week ago go; others stay, but for parents that finish.
     */
    method MaintainIfDue(now: real) returns (ghost order: seq<Id>)
      modifies this, store
      ensures CanKeepUp(old(State()), now, order)
      ensures State() == KeptUp(old(State()), now, order)
      ensures stopped == old(stopped)
      ensures inflight == old(inflight) && lastHeartbeat == old(lastHeartbeat)
      ensures now - old(lastMaintenance) < 60.0 ==> store.rows == old(store.rows)
      ensures now - old(lastMaintenance) >= 60.0 ==> Maintained(old(store.rows), store.rows, now)
    {
      hide Bumped, Ended, Pruned, Maintained;
      order := [];
      if now - lastMaintenance >= MAINTENANCE_PERIOD {
        var _ := store.RequeueStale(now);
        var listed := store.rows;
        var exhausted := store.ListStaleExhausted(now);
        var todo := exhausted;
        hide Requeued, StaleExhausted;
        while todo != {}
          invariant todo <= exhausted
          invariant Enumerates(order, exhausted - todo)
          invariant store.rows == FailAll(listed, listed, order, now)
          invariant inflight == old(inflight) && lastHeartbeat == old(lastHeartbeat) && stopped == old(stopped)
          decreases todo
        {
          var id :| id in todo;
          assert (order + [id])[..|order|] == order;
          order := order + [id];
          BumpParent(listed[id].parent, now);
          store.Fail(id, now);
          todo := todo - {id};
        }
        UpkeepRows(old(store.rows), order, now);
        var _ := store.Prune(now);
        lastMaintenance := now;
      }
    }

    /**
     Reap, claim, heartbeat, maintain. Whatever else the tick does, a job whose future finished reads
     its outcome afterwards, and a job that was queued is queued still, running here, or failed.
     */
    method RunOnce(now: real, finished: map<Id, Outcome>, planRaises: Id -> bool)
      returns (ghost ws: seq<Work>, ghost order: seq<Id>)
      modifies this, store
      ensures CanTick(old(State()), identity, now, ws, order)
      ensures State() == Ticked(old(State()), identity, now, ws, order)
      ensures stopped == old(stopped)
      ensures forall id :: id in old(inflight) && id in finished ==> Reap(id, finished[id] == Returned) in ws
      ensures forall id :: id in old(inflight) && id !in finished ==> id in inflight
      ensures forall id :: id in old(inflight) && id in finished && id in old(store.rows) ==>
        ReadsOutcome(store.rows, id, finished[id], now)
      ensures forall id ::
        && id in old(store.rows) && old(store.rows)[id].status == Queued && old(store.rows)[id].total.None?
        && !(id in old(inflight) && id in finished) ==>
          ServedRow(old(store.rows)[id], store.rows, id, inflight.Keys, identity, planRaises, now)
    {
      ws := ReapFinished(now, finished);
      hide DoAll, CanDoAll, Beaten, KeptUp, CanKeepUp, Kept, Served, ReadsOutcome, ServedRow;
      ghost var mine, reaped := old(inflight).Keys * finished.Keys, store.rows;
      assert Reaped(old(store.rows), reaped, mine, {}, finished, now);
      ghost var claims := ClaimWhileFree(now, planRaises);
      ghost var served := store.rows;
      DoAllConcat(old(State()), identity, now, ws, claims);
      ws := ws + claims;
      HeartbeatIfDue(now);
      ghost var beaten := store.rows;
      assert Refreshed(served, beaten, now);
      order := MaintainIfDue(now);
      assert Upkept(beaten, store.rows, now);
      hide Reaped, Maintained, Refreshed, Upkept;
      TickRows(old(store.rows), reaped, served, beaten, store.rows, mine, finished, inflight.Keys, identity,
               planRaises, now);
    }
  }

  // ---- the loops, row by row -------------------------------------------------------------------

  /** The jobs of `mine` that are not in `todo` have ended as their futures did. */
  ghost predicate Reaped(was: Table, cur: Table, mine: set<Id>, todo: set<Id>, finished: map<Id, Outcome>, now: real)
    requires mine <= finished.Keys
  {
    && cur.Keys == was.Keys
    && (forall x :: x in mine - todo && x in cur ==> ReadsOutcome(cur, x, finished[x], now))
    && (forall x :: x in cur && x !in mine ==> Kept(was[x], cur[x]))
  }

  lemma ReapOneMore(was: Table, cur: Table, mine: set<Id>, todo: set<Id>, finished: map<Id, Outcome>, now: real,
                    id: Id, parent: Option<Id>)
    requires todo <= mine <= finished.Keys && id in todo && Reaped(was, cur, mine, todo, finished, now)
    ensures var status := if finished[id] == Returned then Done else Error;
      Reaped(was, Finished(cur, id, parent, status, now), mine, todo - {id}, finished, now)
  {
    var status := if finished[id] == Returned then Done else Error;
    assert Finished(cur, id, parent, status, now).Keys == cur.Keys;
    var t := Finished(cur, id, parent, status, now);
    forall x | x in cur ensures EndedRow(cur, t, id, status, now, x) {
      FinishedRow(cur, id, parent, status, now, x);
    }
    hide Finished, Kept;
  }

  /** What claiming has made of each row. */
  ghost predicate Served(was: Table, cur: Table, inflight: set<Id>, w: Worker, planRaises: Id -> bool, now: real) {
    cur.Keys == was.Keys && forall x :: x in cur ==> ServedAt(was[x], cur, x, inflight, w, planRaises, now)
  }

  lemma ServeOneMore(was: Table, cur: Table, inflight: set<Id>, w: Worker, planRaises: Id -> bool, now: real, id: Id)
    requires Served(was, cur, inflight, w, planRaises, now) && id in cur && cur[id].status == Queued
    ensures var t := Claimed(cur, id, w, now);
      && (!planRaises(id) ==> Served(was, t, inflight + {id}, w, planRaises, now))
      && (planRaises(id) ==> Served(was, Finished(t, id, t[id].parent, Error, now), inflight, w, planRaises, now))
  {
    var t := Claimed(cur, id, w, now);
    var ended := Finished(t, id, t[id].parent, Error, now);
    forall x | x in t ensures EndedRow(t, ended, id, Error, now, x) {
      FinishedRow(t, id, t[id].parent, Error, now, x);
    }
    hide Finished;
    if planRaises(id) {
      RejectServes(was, cur, t, ended, inflight, w, planRaises, now, id);
    }
  }

  lemma RejectServes(was: Table, cur: Table, t: Table, ended: Table, inflight: set<Id>, w: Worker,
                     planRaises: Id -> bool, now: real, id: Id)
    requires Served(was, cur, inflight, w, planRaises, now) && id in cur && cur[id].status == Queued && planRaises(id)
    requires t == Claimed(cur, id, w, now) && ended.Keys == t.Keys
    requires forall x :: x in t ==> EndedRow(t, ended, id, Error, now, x)
    ensures Served(was, ended, inflight, w, planRaises, now)
  {
    forall x | x in cur && x != id ensures Kept(cur[x], ended[x]) {
      assert EndedRow(t, ended, id, Error, now, x);
    }
    assert EndedRow(t, ended, id, Error, now, id);
    hide Claimed, Kept;
    forall x | x in cur ensures ServedAt(was[x], ended, x, inflight, w, planRaises, now) {
      assert ServedAt(was[x], cur, x, inflight, w, planRaises, now);
      if x != id { ServedThenKept(was[x], cur, ended, x, inflight, w, planRaises, now); }
    }
    hide ServedAt;
  }

  /** What claiming has made of one row. */
  ghost predicate ServedAt(was: Row, cur: Table, x: Id, inflight: set<Id>, w: Worker, planRaises: Id -> bool, now: real)
    requires x in cur
  {
    && (was.status == Queued && was.total.None? ==>
          || (cur[x].status == Queued && cur[x].attempts == was.attempts && cur[x].total.None?)
          || (planRaises(x) && cur[x].status == Error && cur[x].completedAt == Some(now))
          || (&& !planRaises(x) && cur[x].status == Running && cur[x].claimedBy == Some(w) && cur[x].total.None?
              && cur[x].heartbeatAt == Some(now) && x in inflight && cur[x].attempts == was.attempts + 1))
    && (was.status != Queued ==> Kept(was, cur[x]) && cur[x].status != Queued)
  }

  lemma ServedThenKept(was: Row, cur: Table, t: Table, x: Id, inflight: set<Id>, w: Worker, planRaises: Id -> bool,
                       now: real)
    requires x in cur && x in t && Kept(cur[x], t[x]) && ServedAt(was, cur, x, inflight, w, planRaises, now)
    ensures ServedAt(was, t, x, inflight, w, planRaises, now)
  {
  }

  predicate EndedRow(t: Table, ended: Table, id: Id, status: Status, now: real, x: Id)
    requires x in t
  {
    && x in ended
    && if x == id then ended[x].status == status && ended[x].completedAt == Some(now) else Kept(t[x], ended[x])
  }

  /** Heartbeats change nothing else, and are set to now. */
  ghost predicate Refreshed(was: Table, cur: Table, now: real) {
    && cur.Keys == was.Keys
    && forall x :: x in cur ==> cur[x] == was[x] || cur[x] == was[x].(heartbeatAt := Some(now))
  }

  /**
   Rows ended a week ago are gone. Of the rest, those silent for 120 seconds are back in the queue, or
   failed after three attempts, and the others are as they were, but for parents that finished.
   */
  ghost predicate Maintained(was: Table, cur: Table, now: real) {
    && (forall id :: id in cur <==>
          && id in was
          && !(was[id].status in {Done, Error} && was[id].completedAt.Some?
               && was[id].completedAt.value < now - 604800.0))
    && (forall id :: id in cur ==>
          if was[id].status == Running && was[id].heartbeatAt.Some? && was[id].heartbeatAt.value < now - 120.0 then
            if was[id].attempts < 3 then
              cur[id].status == Queued && cur[id].claimedBy == None && cur[id].heartbeatAt == None
            else cur[id].status == Error && cur[id].completedAt == Some(now)
          else Kept(was[id], cur[id]))
  }

  /** What upkeep leaves of rows it has no reason to touch. */
  ghost predicate Upkept(was: Table, cur: Table, now: real) {
    && (forall x :: x in was && !(was[x].status in {Done, Error} && was[x].completedAt != Some(now)) ==> x in cur)
    && (forall x :: x in cur ==> x in was)
    && (forall x :: x in cur && !(was[x].status == Running && was[x].heartbeatAt != Some(now)) ==> Kept(was[x], cur[x]))
  }

  lemma TickRows(was: Table, reaped: Table, served: Table, beaten: Table, cur: Table, mine: set<Id>,
                 finished: map<Id, Outcome>, inflight: set<Id>, w: Worker, planRaises: Id -> bool, now: real)
    requires mine <= finished.Keys && Reaped(was, reaped, mine, {}, finished, now)
    requires Served(reaped, served, inflight, w, planRaises, now)
    requires Refreshed(served, beaten, now) && Upkept(beaten, cur, now)
    ensures forall id :: id in mine && id in was ==> ReadsOutcome(cur, id, finished[id], now)
    ensures forall id :: id in was && was[id].status == Queued && was[id].total.None? && id !in mine ==>
      ServedRow(was[id], cur, id, inflight, w, planRaises, now)
  {
    forall id | id in mine && id in was ensures ReadsOutcome(cur, id, finished[id], now) {
      TickEnds(was, reaped, served, beaten, cur, mine, finished, inflight, w, planRaises, now, id);
    }
    forall id | id in was && was[id].status == Queued && was[id].total.None? && id !in mine
      ensures ServedRow(was[id], cur, id, inflight, w, planRaises, now)
    {
      TickServes(was, reaped, served, beaten, cur, mine, finished, inflight, w, planRaises, now, id);
    }
    hide *;
  }

  /** A job whose future finished reads its outcome. */
  ghost predicate ReadsOutcome(cur: Table, id: Id, outcome: Outcome, now: real) {
    && id in cur && cur[id].completedAt == Some(now)
    && cur[id].status == (if outcome == Returned then Done else Error)
  }

  /** A job that was queued is queued still, failed when its plan raised, or running here. */
  ghost predicate ServedRow(was: Row, cur: Table, id: Id, inflight: set<Id>, w: Worker, planRaises: Id -> bool,
                            now: real)
  {
    && id in cur
    && (|| (cur[id].status == Queued && cur[id].attempts == was.attempts)
        || (planRaises(id) && cur[id].status == Error && cur[id].completedAt == Some(now))
        || (&& !planRaises(id) && cur[id].status == Running && cur[id].claimedBy == Some(w)
            && cur[id].heartbeatAt == Some(now) && id in inflight && cur[id].attempts == was.attempts + 1))
  }

  lemma TickEnds(was: Table, reaped: Table, served: Table, beaten: Table, cur: Table, mine: set<Id>,
                 finished: map<Id, Outcome>, inflight: set<Id>, w: Worker, planRaises: Id -> bool, now: real, id: Id)
    requires mine <= finished.Keys && Reaped(was, reaped, mine, {}, finished, now)
    requires Served(reaped, served, inflight, w, planRaises, now)
    requires Refreshed(served, beaten, now) && Upkept(beaten, cur, now)
    requires id in mine && id in was
    ensures ReadsOutcome(cur, id, finished[id], now)
  {
    assert id in reaped && reaped[id].status in {Done, Error} && reaped[id].completedAt == Some(now);
    assert Kept(reaped[id], served[id]);
    assert beaten[id].status == reaped[id].status && beaten[id].completedAt == Some(now);
    assert id in cur && Kept(beaten[id], cur[id]);
  }

  lemma TickServes(was: Table, reaped: Table, served: Table, beaten: Table, cur: Table, mine: set<Id>,
                   finished: map<Id, Outcome>, inflight: set<Id>, w: Worker, planRaises: Id -> bool, now: real, id: Id)
    requires mine <= finished.Keys && Reaped(was, reaped, mine, {}, finished, now)
    requires Served(reaped, served, inflight, w, planRaises, now)
    requires Refreshed(served, beaten, now) && Upkept(beaten, cur, now)
    requires id in was && was[id].status == Queued && was[id].total.None? && id !in mine
    ensures ServedRow(was[id], cur, id, inflight, w, planRaises, now)
  {
    assert Kept(was[id], reaped[id]);
    assert id in beaten && id in cur && Kept(beaten[id], cur[id]);
  }

  /** Upkeep, seen at one row: requeued, failed, pruned, or left alone. */
  lemma UpkeepRow(t: Table, order: seq<Id>, now: real, x: Id)
    requires x in t && Enumerates(order, StaleExhausted(Requeued(t, now), now))
    ensures var r := Requeued(t, now); var f := FailAll(r, r, order, now);
      && x in f && f.Keys == t.Keys
      && (if t[x].status == Running && t[x].heartbeatAt.Some? && t[x].heartbeatAt.value < now - 120.0 then
            if t[x].attempts < 3 then f[x].status == Queued && f[x].claimedBy == None && f[x].heartbeatAt == None
            else f[x].status == Error && f[x].completedAt == Some(now)
          else Kept(t[x], f[x]))
      && (f[x].status != t[x].status && f[x].status != Queued ==> f[x].completedAt == Some(now))
      && (t[x].status in {Done, Error} ==> f[x].status == t[x].status && f[x].completedAt == t[x].completedAt)
  {
    var r := Requeued(t, now);
    FailedRow(r, order, now, x);
    assert x in order <==> x in StaleExhausted(r, now);
    hide FailAll;
  }

  lemma UpkeepRows(t: Table, order: seq<Id>, now: real)
    requires Enumerates(order, StaleExhausted(Requeued(t, now), now))
    ensures var r := Requeued(t, now); var cur := Pruned(FailAll(r, r, order, now), now);
      Maintained(t, cur, now)
  {
    var r := Requeued(t, now);
    var f := FailAll(r, r, order, now);
    FailAllKeys(r, order, now);
    forall id | id in t
      ensures Prunable(f[id], now) <==>
        t[id].status in {Done, Error} && t[id].completedAt.Some? && t[id].completedAt.value < now - 604800.0
    {
      UpkeepRow(t, order, now, id);
      hide FailAll, Requeued, StaleExhausted;
    }
    forall id | id in t { UpkeepRow(t, order, now, id); }
    hide FailAll, Requeued, StaleExhausted;
  }

  lemma {:induction false} FailAllKeys(t: Table, order: seq<Id>, now: real)
    ensures FailAll(t, t, order, now).Keys == t.Keys
  {
    if order != [] {
      FailAllKeys(t, order[..|order| - 1], now);
    }
  }

  lemma {:induction false} DoAllConcat(s: TickState, worker: Worker, now: real, a: seq<Work>, b: seq<Work>)
    requires CanDoAll(s, worker, now, a) && CanDoAll(DoAll(s, worker, now, a), worker, now, b)
    ensures CanDoAll(s, worker, now, a + b)
    ensures DoAll(s, worker, now, a + b) == DoAll(DoAll(s, worker, now, a), worker, now, b)
  {
    if b == [] {
      assert a + b == a;
    } else {
      var init := b[..|b| - 1];
      DoAllConcat(s, worker, now, a, init);
      DoOneMore(s, worker, now, a + init, b[|b| - 1]);
      assert a + b == a + init + [b[|b| - 1]];
    }
  }
}
