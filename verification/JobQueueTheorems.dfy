/** What holds in every reachable state of the job queue. */
module JobQueueTheorems {
  import opened Wrappers
  import opened JobTable
  import opened WorkerTicks
  import opened JobQueueRuns
  import opened JobQueueTable
  import opened JobQueueTicks

  // ---- insertions ----------------------------------------------------------------------------

  /** Inserting a fresh row leaves every live worker's claims as they were. */
  lemma InsertKeepsWorkers(s: Sys, s': Sys, id: Id)
    requires Inv(s) && id !in s.submitted && s'.workers == s.workers && s'.clock == s.clock
    requires id in s'.rows && s'.rows == s.rows[id := s'.rows[id]]
    ensures forall w :: w in s'.workers ==> WorkerInv(s', w)
  {
    hide ParentCounts;
    forall w | w in s'.workers ensures WorkerInv(s', w) {
      assert WorkerInv(s, w);
    }
  }

  /** A fresh row that is nobody's child leaves every other parent's count as it was. */
  lemma FreshRowKeepsCounts(t: Table, sub: Parents, pend: Pending, id: Id, r: Row, pend': Pending, p: Id)
    requires TableInv(t, sub, pend) && id !in sub && p in t && IsParentRow(t[p])
    requires (p in pend' <==> p in pend) && (p in pend' ==> pend'[p] == pend[p])
    ensures ParentCounts(t[id := r], sub[id := None], pend', p)
  {
    assert Children(sub[id := None], p) == Children(sub, p);
    assert EndedChildren(t[id := r], sub[id := None], p) == EndedChildren(t, sub, p);
    assert ParentCounts(t, sub, pend, p);
  }

  lemma SubmitTable(t: Table, sub: Parents, pend: Pending, id: Id, now: real)
    requires TableInv(t, sub, pend) && id !in sub
    ensures TableInv(t[id := NewRow(Queued, None, None, None, now)], sub[id := None], pend)
  {
    hide Children, EndedChildren, ParentCounts;
    var r := NewRow(Queued, None, None, None, now);
    forall p | p in t && IsParentRow(t[p]) ensures ParentCounts(t[id := r], sub[id := None], pend, p) {
      FreshRowKeepsCounts(t, sub, pend, id, r, pend, p);
    }
  }

  lemma NewParentCounts(t: Table, sub: Parents, pend: Pending, id: Id, total: nat, now: real)
    requires TableInv(t, sub, pend) && id !in sub
    ensures var r := NewRow(if total > 0 then Running else Done, None, Some(total), Some(0), now);
            ParentCounts(t[id := r], sub[id := None], pend[id := total], id)
  {
    var r := NewRow(if total > 0 then Running else Done, None, Some(total), Some(0), now);
    assert Children(sub[id := None], id) == {};
    assert EndedChildren(t[id := r], sub[id := None], id) == {};
  }

  lemma SubmitParentTable(t: Table, sub: Parents, pend: Pending, id: Id, total: nat, now: real)
    requires TableInv(t, sub, pend) && id !in sub
    ensures var r := NewRow(if total > 0 then Running else Done, None, Some(total), Some(0), now);
            TableInv(t[id := r], sub[id := None], pend[id := total])
  {
    hide Children, EndedChildren, ParentCounts;
    var r := NewRow(if total > 0 then Running else Done, None, Some(total), Some(0), now);
    NewParentCounts(t, sub, pend, id, total, now);
    forall p | p in t && IsParentRow(t[p]) ensures ParentCounts(t[id := r], sub[id := None], pend[id := total], p) {
      FreshRowKeepsCounts(t, sub, pend, id, r, pend[id := total], p);
    }
  }

  lemma FreshChildIsOneMore(sub: Parents, id: Id, parent: Id, p: Id)
    requires id !in sub
    ensures id !in Children(sub, p)
    ensures Children(sub[id := Some(parent)], p) == Children(sub, p) + (if p == parent then {id} else {})
  {
    var sub' := sub[id := Some(parent)];
    forall c ensures c in Children(sub', p) <==> c in Children(sub, p) || (p == parent && c == id) {
      if c != id { assert c in sub' <==> c in sub; }
    }
  }

  lemma FreshChildSets(t: Table, sub: Parents, id: Id, parent: Id, r: Row, p: Id)
    requires id !in sub && r.status == Queued
    ensures var sub' := sub[id := Some(parent)];
            && EndedChildren(t[id := r], sub', p) == EndedChildren(t, sub, p)
            && |Children(sub', p)| == |Children(sub, p)| + if p == parent then 1 else 0
  {
    FreshChildIsOneMore(sub, id, parent, p);
    hide Children;
  }

  lemma FreshChildCounts(t: Table, sub: Parents, pend: Pending, id: Id, parent: Id, now: real, p: Id)
    requires TableInv(t, sub, pend) && id !in sub && parent in pend && pend[parent] > 0
    requires p in t && IsParentRow(t[p])
    ensures var r := NewRow(Queued, Some(parent), None, None, now);
            ParentCounts(t[id := r], sub[id := Some(parent)], pend[parent := pend[parent] - 1], p)
  {
    hide Children, EndedChildren;
    assert ParentCounts(t, sub, pend, p) && p != id;
    FreshChildSets(t, sub, id, parent, NewRow(Queued, Some(parent), None, None, now), p);
    hide TableInv;
  }

  lemma SubmitChildTable(t: Table, sub: Parents, pend: Pending, id: Id, parent: Id, now: real)
    requires TableInv(t, sub, pend) && id !in sub && parent in pend && pend[parent] > 0
    ensures var r := NewRow(Queued, Some(parent), None, None, now);
            TableInv(t[id := r], sub[id := Some(parent)], pend[parent := pend[parent] - 1])
  {
    hide Children, EndedChildren, ParentCounts;
    var r := NewRow(Queued, Some(parent), None, None, now);
    forall p | p in t && IsParentRow(t[p])
      ensures ParentCounts(t[id := r], sub[id := Some(parent)], pend[parent := pend[parent] - 1], p)
    {
      FreshChildCounts(t, sub, pend, id, parent, now, p);
    }
  }

  lemma InsertKeeps(s: Sys, step: Step)
    requires Inv(s) && Possible(s, step) && (step.Submit? || step.SubmitParent? || step.SubmitChild?)
    ensures Inv(After(s, step))
  {
    hide WorkerInv, TableInv;
    InsertKeepsWorkers(s, After(s, step), step.id);
    match step {
      case Submit(id) => SubmitTable(s.rows, s.submitted, s.pending, id, s.clock);
      case SubmitParent(id, total) => SubmitParentTable(s.rows, s.submitted, s.pending, id, total, s.clock);
      case SubmitChild(id, p) => SubmitChildTable(s.rows, s.submitted, s.pending, id, p, s.clock);
    }
  }

  // ---- ticks ---------------------------------------------------------------------------------

  /** A live worker's claims are safe from upkeep at any time the run may reach. */
  lemma LiveClaimsAreSafe(gap: real, s: Sys, u: Worker, now: real)
    requires gap <= TICK_GAP && Inv(s) && u in s.workers && MayReach(gap, s, now)
    ensures Safe(s.rows, u, s.workers[u].loop.inflight, s.workers[u].loop.lastHeartbeat, now)
  {
    assert WorkerInv(s, u);
  }

  lemma TickKeeps(gap: real, s: Sys, v: Worker, now: real, ws: seq<Work>, order: seq<Id>)
    requires gap <= TICK_GAP && Inv(s) && Enabled(gap, s, Tick(v, now, ws, order))
    ensures Inv(After(s, Tick(v, now, ws, order)))
  {
    hide TableInv, CanTick, Ticked;
    var s' := After(s, Tick(v, now, ws, order));
    assert WorkerInv(s, v);
    TickKeepsOwn(StateOf(s, v), v, now, ws, order, s.submitted, s.pending);
    forall u | u in s'.workers && u != v ensures WorkerInv(s', u) {
      var l := s.workers[u];
      assert WorkerInv(s, u);
      LiveClaimsAreSafe(gap, s, u, now);
      TickLeavesOthers(StateOf(s, v), v, now, ws, order, s.submitted, s.pending,
                       u, l.loop.inflight, l.loop.lastHeartbeat);
      UntouchedOwns(s.rows, s'.rows, u, l.loop.inflight, l.loop.lastHeartbeat);
    }
  }

  lemma StepKeeps(gap: real, s: Sys, step: Step)
    requires gap <= TICK_GAP && Inv(s) && Enabled(gap, s, step)
    ensures Inv(After(s, step))
  {
    match step {
      case Start(w) =>
        hide TableInv, Owns, FreshAfter;
        forall u | u in s.workers ensures WorkerInv(s, u) && u != w {}
      case Crash(w) =>
        hide TableInv, Owns, FreshAfter;
        forall u | u in s.workers ensures WorkerInv(s, u) {}
      case Submit(_) => InsertKeeps(s, step);
      case SubmitParent(_, _) => InsertKeeps(s, step);
      case SubmitChild(_, _) => InsertKeeps(s, step);
      case Tick(w, now, ws, order) => TickKeeps(gap, s, w, now, ws, order);
    }
  }

  lemma {:induction false} ReachableInv(gap: real, run: seq<Sys>, i: nat)
    requires gap <= TICK_GAP && IsRun(gap, run) && i < |run|
    ensures Inv(run[i])
  {
    hide Inv, Enabled, After;
    if i == 0 {
      InitInv(run[0]);
    } else {
      ReachableInv(gap, run, i - 1);
      assert LeadsTo(gap, run[i - 1], run[i - 1 + 1]);
      LeadingKeeps(gap, run[i - 1], run[i]);
    }
  }

  lemma LeadingKeeps(gap: real, s: Sys, s': Sys)
    requires gap <= TICK_GAP && Inv(s) && LeadsTo(gap, s, s')
    ensures Inv(s')
  {
    hide Inv, After, Possible;
    var step :| Enabled(gap, s, step) && s' == After(s, step);
    StepKeeps(gap, s, step);
  }

  lemma InitInv(s: Sys)
    requires Init(s)
    ensures Inv(s)
  {
  }

  // ---- parents and children ------------------------------------------------------------------

  /**
   In every reachable state a reprocess-all parent's `done` is the number of its children
   that ended (pruned ones counted), never passes `total`, and the parent reads done exactly
   when it has reached it.
   */
  lemma ParentCountsItsChildren(gap: real, run: seq<Sys>, i: nat, p: Id)
    requires gap <= TICK_GAP && IsRun(gap, run) && i < |run|
    requires p in run[i].rows && IsParentRow(run[i].rows[p])
    ensures var s := run[i];
            && s.rows[p].done == Some(|EndedChildren(s.rows, s.submitted, p)|)
            && s.rows[p].done.value <= s.rows[p].total.value
            && (s.rows[p].status == Done <==> s.rows[p].done.value == s.rows[p].total.value)
            && (s.rows[p].status == Done ==>
                  PendingOf(s, p) == 0 && EndedChildren(s.rows, s.submitted, p) == Children(s.submitted, p))
  {
    ReachableInv(gap, run, i);
    var s := run[i];
    assert ParentCounts(s.rows, s.submitted, s.pending, p);
    SubsetIsSmaller(EndedChildren(s.rows, s.submitted, p), Children(s.submitted, p));
  }

  /** A reprocess-all parent is never queued, so never claimable, and never stale at any time. */
  lemma ParentIsNeverWork(gap: real, run: seq<Sys>, i: nat, p: Id, now: real)
    requires gap <= TICK_GAP && IsRun(gap, run) && i < |run|
    requires p in run[i].rows && IsParentRow(run[i].rows[p])
    ensures run[i].rows[p].status != Queued && !run[i].rows[p].StaleAt(now)
    ensures forall w :: w in run[i].workers ==> p !in run[i].workers[w].loop.inflight
  {
    ReachableInv(gap, run, i);
    var s := run[i];
    assert ParentCounts(s.rows, s.submitted, s.pending, p);
    forall w | w in s.workers ensures p !in s.workers[w].loop.inflight {
      assert WorkerInv(s, w);
    }
  }

  // ---- live claims ----------------------------------------------------------------------------

  /** Every in-flight job of a live worker is running, names it, and is never stale. */
  lemma LiveClaimsAreNeverStale(gap: real, run: seq<Sys>, i: nat, w: Worker, j: Id, now: real)
    requires gap <= TICK_GAP && IsRun(gap, run) && i < |run| && w in run[i].workers
      && j in run[i].workers[w].loop.inflight
    requires MayReach(gap, run[i], now)
    ensures j in run[i].rows && run[i].rows[j].status == Running && run[i].rows[j].claimedBy == Some(w)
    ensures !run[i].rows[j].StaleAt(now)
  {
    ReachableInv(gap, run, i);
    LiveClaimsAreSafe(gap, run[i], w, now);
  }

  /** At most one live worker executes a job, and `claimed_by` names it. */
  lemma OneLiveExecutor(gap: real, run: seq<Sys>, i: nat, u: Worker, v: Worker, j: Id)
    requires gap <= TICK_GAP && IsRun(gap, run) && i < |run| && u in run[i].workers && v in run[i].workers
    requires j in run[i].workers[u].loop.inflight && j in run[i].workers[v].loop.inflight
    ensures j in run[i].rows && u == v && run[i].rows[j].claimedBy == Some(u)
  {
    hide IsRun, Inv, MayReach;
    ReachableInv(gap, run, i);
    ClaimNamesHolder(run[i], u, j);
    ClaimNamesHolder(run[i], v, j);
  }

  lemma ClaimNamesHolder(s: Sys, w: Worker, j: Id)
    requires Inv(s) && w in s.workers && j in s.workers[w].loop.inflight
    ensures j in s.rows && s.rows[j].claimedBy == Some(w)
  {
    assert WorkerInv(s, w);
  }

  /** No step other than its own tick or crash changes a job a live worker holds. */
  lemma OthersLeaveClaimsAlone(gap: real, run: seq<Sys>, i: nat, step: Step, w: Worker, j: Id)
    requires gap <= TICK_GAP && IsRun(gap, run) && i < |run| && Enabled(gap, run[i], step)
    requires w in run[i].workers && j in run[i].workers[w].loop.inflight
    requires step != Crash(w) && !(step.Tick? && step.worker == w)
    ensures var s, s' := run[i], After(run[i], step);
            w in s'.workers && j in s'.workers[w].loop.inflight
            && j in s.rows && j in s'.rows && s'.rows[j] == s.rows[j]
  {
    ReachableInv(gap, run, i);
    var s := run[i];
    assert WorkerInv(s, w);
    if step.Tick? {
      hide TableInv, CanTick, Ticked;
      assert WorkerInv(s, step.worker);
      LiveClaimsAreSafe(gap, s, w, step.now);
      TickLeavesOthers(StateOf(s, step.worker), step.worker, step.now, step.ws, step.order, s.submitted, s.pending,
                       w, s.workers[w].loop.inflight, s.workers[w].loop.lastHeartbeat);
    }
  }
}
