/** One tick keeps every invariant, the ticking worker's and the others'. */
module JobQueueTicks {
  import opened Wrappers
  import opened JobTable
  import opened WorkerTicks
  import opened JobQueueRuns
  import opened JobQueueTable

  ghost predicate TickInv(s: TickState, v: Worker, sub: Parents, pend: Pending) {
    && TableInv(s.rows, sub, pend)
    && Owns(s.rows, v, s.loop.inflight, s.loop.lastHeartbeat)
  }

  /** The rows of `jobs` are the same in both tables. */
  ghost predicate Untouched(t: Table, t': Table, jobs: set<Id>) {
    forall j :: j in jobs ==> j in t && j in t' && t'[j] == t[j]
  }

  /** Ending a row leaves every other claimed row as it was. */
  lemma FinishLeaves(t: Table, sub: Parents, pend: Pending, id: Id, status: Status, now: real,
                     u: Worker, infl: map<Id, Option<Id>>, since: real)
    requires TableInv(t, sub, pend) && id in t && !t[id].Terminal() && !IsParentRow(t[id])
    requires Owns(t, u, infl, since)
    ensures Untouched(t, Finished(t, id, t[id].parent, status, now), infl.Keys - {id})
  {
    hide Finished, TableInv;
    FinishedRows(t, sub, pend, id, status, now);
    if t[id].parent.Some? { FinishedParent(t, sub, pend, id, status, now); }
  }

  lemma UntouchedOwns(t: Table, t': Table, u: Worker, infl: map<Id, Option<Id>>, since: real)
    requires Owns(t, u, infl, since) && Untouched(t, t', infl.Keys)
    ensures Owns(t', u, infl, since)
  {
  }

  // ---- work -------------------------------------------------------------------------------

  lemma DoKeeps(s: TickState, v: Worker, now: real, w: Work, sub: Parents, pend: Pending)
    requires TickInv(s, v, sub, pend) && CanDo(s, w) && s.loop.lastHeartbeat <= now
    ensures TickInv(Do(s, v, now, w), v, sub, pend)
    ensures Do(s, v, now, w).loop.lastHeartbeat == s.loop.lastHeartbeat
  {
    hide Finished, TableInv;
    var infl, hb := s.loop.inflight, s.loop.lastHeartbeat;
    match w {
      case Reap(id, ok) =>
        FinishKeepsTable(s.rows, sub, pend, id, if ok then Done else Error, now);
        FinishLeaves(s.rows, sub, pend, id, if ok then Done else Error, now, v, infl, hb);
      case Run(id) =>
        ClaimKeepsTable(s.rows, sub, pend, id, v, now);
      case Reject(id) =>
        var t := Claimed(s.rows, id, v, now);
        ClaimKeepsTable(s.rows, sub, pend, id, v, now);
        FinishKeepsTable(t, sub, pend, id, Error, now);
        FinishLeaves(t, sub, pend, id, Error, now, v, infl, hb);
    }
  }

  lemma DoLeavesOthers(s: TickState, v: Worker, now: real, w: Work, sub: Parents, pend: Pending,
                       u: Worker, infl: map<Id, Option<Id>>, since: real)
    requires TickInv(s, v, sub, pend) && CanDo(s, w) && u != v && Owns(s.rows, u, infl, since)
    ensures Untouched(s.rows, Do(s, v, now, w).rows, infl.Keys)
  {
    hide Finished, TableInv;
    match w {
      case Reap(id, ok) =>
        FinishLeaves(s.rows, sub, pend, id, if ok then Done else Error, now, u, infl, since);
      case Run(id) =>
      case Reject(id) =>
        var t := Claimed(s.rows, id, v, now);
        ClaimKeepsTable(s.rows, sub, pend, id, v, now);
        FinishLeaves(t, sub, pend, id, Error, now, u, infl, since);
    }
  }

  lemma {:induction false} DoAllKeeps(s: TickState, v: Worker, now: real, ws: seq<Work>, sub: Parents, pend: Pending)
    requires TickInv(s, v, sub, pend) && CanDoAll(s, v, now, ws) && s.loop.lastHeartbeat <= now
    ensures TickInv(DoAll(s, v, now, ws), v, sub, pend)
    ensures DoAll(s, v, now, ws).loop.lastHeartbeat == s.loop.lastHeartbeat
  {
    hide TickInv, Do, CanDo;
    if ws != [] {
      DoAllKeeps(s, v, now, ws[..|ws| - 1], sub, pend);
      DoKeeps(DoAll(s, v, now, ws[..|ws| - 1]), v, now, ws[|ws| - 1], sub, pend);
    }
  }

  lemma {:induction false} DoAllLeavesOthers(s: TickState, v: Worker, now: real, ws: seq<Work>, sub: Parents,
                                             pend: Pending, u: Worker, infl: map<Id, Option<Id>>, since: real)
    requires TickInv(s, v, sub, pend) && CanDoAll(s, v, now, ws) && s.loop.lastHeartbeat <= now
    requires u != v && Owns(s.rows, u, infl, since)
    ensures Untouched(s.rows, DoAll(s, v, now, ws).rows, infl.Keys)
  {
    hide TickInv, Do, CanDo, Owns;
    if ws == [] {
      assert Untouched(s.rows, s.rows, infl.Keys) by { OwnedRowsExist(s.rows, u, infl, since); }
    } else {
      var init := ws[..|ws| - 1];
      var mid := DoAll(s, v, now, init);
      DoAllLeavesOthers(s, v, now, init, sub, pend, u, infl, since);
      DoAllKeeps(s, v, now, init, sub, pend);
      UntouchedOwns(s.rows, mid.rows, u, infl, since);
      DoLeavesOthers(mid, v, now, ws[|ws| - 1], sub, pend, u, infl, since);
    }
  }

  lemma OwnedRowsExist(t: Table, u: Worker, infl: map<Id, Option<Id>>, since: real)
    requires Owns(t, u, infl, since)
    ensures forall j :: j in infl ==> j in t
  {
  }

  // ---- heartbeat ----------------------------------------------------------------------------

  /** After the heartbeat phase every in-flight job's heartbeat is younger than the heartbeat period. */
  lemma BeatKeeps(s: TickState, v: Worker, now: real, sub: Parents, pend: Pending)
    requires TickInv(s, v, sub, pend) && s.loop.lastHeartbeat <= now
    ensures var b := Beaten(s, v, now);
            && TickInv(b, v, sub, pend)
            && b.loop.lastHeartbeat <= now && b.loop.inflight == s.loop.inflight
            && FreshAfter(b.rows, b.loop.inflight, now - HEARTBEAT_PERIOD)
  {
    hide TableInv;
    if BeatDue(s, now) { HeartbeatKeepsTable(s.rows, sub, pend, v, now); }
  }

  lemma BeatLeavesOthers(s: TickState, v: Worker, now: real, u: Worker, infl: map<Id, Option<Id>>, since: real)
    requires u != v && Owns(s.rows, u, infl, since)
    ensures Untouched(s.rows, Beaten(s, v, now).rows, infl.Keys)
  {
  }

  // ---- upkeep -------------------------------------------------------------------------------

  /** Owned and fresh enough: neither requeue nor the exhausted list can pick it. */
  ghost predicate Safe(t: Table, u: Worker, infl: map<Id, Option<Id>>, since: real, now: real) {
    && Owns(t, u, infl, since)
    && FreshAfter(t, infl, now - STALE_AFTER_SECONDS)
  }

  lemma RequeueLeavesSafe(t: Table, u: Worker, infl: map<Id, Option<Id>>, since: real, now: real)
    requires Safe(t, u, infl, since, now)
    ensures Untouched(t, Requeued(t, now), infl.Keys)
  {
  }

  lemma PruneLeavesSafe(t: Table, u: Worker, infl: map<Id, Option<Id>>, since: real, now: real)
    requires Owns(t, u, infl, since)
    ensures Untouched(t, Pruned(t, now), infl.Keys)
  {
  }

  /** The jobs still to fail are as the snapshot listed them. */
  ghost predicate StillListed(t: Table, listed: Table, order: seq<Id>, from: nat) {
    forall i :: from <= i < |order| ==>
      order[i] in listed && order[i] in t && t[order[i]] == listed[order[i]]
  }

  lemma ExhaustedIsChild(t: Table, sub: Parents, pend: Pending, id: Id, now: real)
    requires TableInv(t, sub, pend) && id in StaleExhausted(t, now)
    ensures id in t && !IsParentRow(t[id]) && t[id].status == Running
  {
  }

  lemma {:induction false} FailAllKeeps(listed: Table, order: seq<Id>, k: nat, now: real, sub: Parents, pend: Pending)
    requires TableInv(listed, sub, pend) && Enumerates(order, StaleExhausted(listed, now)) && k <= |order|
    ensures TableInv(FailAll(listed, listed, order[..k], now), sub, pend)
    ensures StillListed(FailAll(listed, listed, order[..k], now), listed, order, k)
  {
    hide TableInv, Finished, StaleExhausted;
    forall i | 0 <= i < |order| ensures order[i] in listed {
      assert order[i] in order;
      ExhaustedIsChild(listed, sub, pend, order[i], now);
    }
    if k == 0 {
      assert order[..0] == [];
    } else {
      FailAllKeeps(listed, order, k - 1, now, sub, pend);
      var t, id := FailAll(listed, listed, order[..k - 1], now), order[k - 1];
      assert order[..k][..k - 1] == order[..k - 1];
      assert id in order;
      ExhaustedIsChild(listed, sub, pend, id, now);
      FinishKeepsTable(t, sub, pend, id, Error, now);
      FinishedRows(t, sub, pend, id, Error, now);
      if t[id].parent.Some? { FinishedParent(t, sub, pend, id, Error, now); }
      forall i | k <= i < |order|
        ensures Finished(t, id, t[id].parent, Error, now)[order[i]] == listed[order[i]]
      {
        assert order[i] in order;
        ExhaustedIsChild(listed, sub, pend, order[i], now);
      }
    }
  }

  lemma {:induction false} FailAllLeavesSafe(listed: Table, order: seq<Id>, k: nat, now: real, sub: Parents,
                                             pend: Pending, u: Worker, infl: map<Id, Option<Id>>, since: real)
    requires TableInv(listed, sub, pend) && Enumerates(order, StaleExhausted(listed, now)) && k <= |order|
    requires Safe(listed, u, infl, since, now)
    ensures Untouched(listed, FailAll(listed, listed, order[..k], now), infl.Keys)
  {
    hide TableInv, Finished;
    if k == 0 {
      assert order[..0] == [];
    } else {
      FailAllLeavesSafe(listed, order, k - 1, now, sub, pend, u, infl, since);
      FailAllKeeps(listed, order, k - 1, now, sub, pend);
      var t, id := FailAll(listed, listed, order[..k - 1], now), order[k - 1];
      assert order[..k][..k - 1] == order[..k - 1];
      assert id in order;
      ExhaustedIsChild(listed, sub, pend, id, now);
      UntouchedOwns(listed, t, u, infl, since);
      FinishLeaves(t, sub, pend, id, Error, now, u, infl, since);
      assert id !in infl;
    }
  }

  lemma KeepUpKeepsTable(s: TickState, now: real, order: seq<Id>, sub: Parents, pend: Pending)
    requires TableInv(s.rows, sub, pend) && CanKeepUp(s, now, order)
    ensures TableInv(KeptUp(s, now, order).rows, sub, pend)
  {
    hide TableInv;
    if UpkeepDue(s, now) {
      var t := Requeued(s.rows, now);
      RequeueKeepsTable(s.rows, sub, pend, now);
      FailAllKeeps(t, order, |order|, now, sub, pend);
      assert order[..|order|] == order;
      PruneKeepsTable(FailAll(t, t, order, now), sub, pend, now);
    }
  }

  /** Upkeep by anyone leaves every safe claim exactly as it was. */
  lemma KeepUpLeavesSafe(s: TickState, now: real, order: seq<Id>, sub: Parents, pend: Pending,
                         u: Worker, infl: map<Id, Option<Id>>, since: real)
    requires TableInv(s.rows, sub, pend) && CanKeepUp(s, now, order) && Safe(s.rows, u, infl, since, now)
    ensures Untouched(s.rows, KeptUp(s, now, order).rows, infl.Keys)
  {
    hide TableInv;
    if UpkeepDue(s, now) {
      var t := Requeued(s.rows, now);
      RequeueKeepsTable(s.rows, sub, pend, now);
      RequeueLeavesSafe(s.rows, u, infl, since, now);
      UntouchedOwns(s.rows, t, u, infl, since);
      FailAllLeavesSafe(t, order, |order|, now, sub, pend, u, infl, since);
      assert order[..|order|] == order;
      var f := FailAll(t, t, order, now);
      UntouchedOwns(t, f, u, infl, since);
      PruneLeavesSafe(f, u, infl, since, now);
    }
  }

  // ---- a whole tick ----------------------------------------------------------------------------

  lemma TickKeepsOwn(s: TickState, v: Worker, now: real, ws: seq<Work>, order: seq<Id>, sub: Parents, pend: Pending)
    requires TickInv(s, v, sub, pend) && CanTick(s, v, now, ws, order) && s.loop.lastHeartbeat <= now
    ensures var t := Ticked(s, v, now, ws, order);
            && TickInv(t, v, sub, pend) && t.loop.lastHeartbeat <= now
            && FreshAfter(t.rows, t.loop.inflight, now - HEARTBEAT_PERIOD)
  {
    hide TableInv, DoAll, CanDoAll, CanKeepUp;
    DoAllKeeps(s, v, now, ws, sub, pend);
    var d := DoAll(s, v, now, ws);
    BeatKeeps(d, v, now, sub, pend);
    var b := Beaten(d, v, now);
    KeepUpKeepsTable(b, now, order, sub, pend);
    KeepUpLeavesSafe(b, now, order, sub, pend, v, b.loop.inflight, b.loop.lastHeartbeat);
    UntouchedOwns(b.rows, KeptUp(b, now, order).rows, v, b.loop.inflight, b.loop.lastHeartbeat);
  }

  /** A tick never touches a job another live worker holds, as long as that worker's heartbeat is fresh. */
  lemma TickLeavesOthers(s: TickState, v: Worker, now: real, ws: seq<Work>, order: seq<Id>, sub: Parents, pend: Pending,
                         u: Worker, infl: map<Id, Option<Id>>, since: real)
    requires TickInv(s, v, sub, pend) && CanTick(s, v, now, ws, order) && s.loop.lastHeartbeat <= now
    requires u != v && Safe(s.rows, u, infl, since, now)
    ensures Untouched(s.rows, Ticked(s, v, now, ws, order).rows, infl.Keys)
  {
    hide TableInv, DoAll, CanDoAll, CanKeepUp, Beaten, KeptUp;
    DoAllKeeps(s, v, now, ws, sub, pend);
    DoAllLeavesOthers(s, v, now, ws, sub, pend, u, infl, since);
    var d := DoAll(s, v, now, ws);
    UntouchedOwns(s.rows, d.rows, u, infl, since);
    BeatKeeps(d, v, now, sub, pend);
    BeatLeavesOthers(d, v, now, u, infl, since);
    var b := Beaten(d, v, now);
    UntouchedOwns(d.rows, b.rows, u, infl, since);
    KeepUpLeavesSafe(b, now, order, sub, pend, u, infl, since);
  }
}
