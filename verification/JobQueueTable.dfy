/** Each statement of a tick keeps the table invariant: parents count their ended children. */
module JobQueueTable {
  import opened Wrappers
  import opened JobTable
  import opened JobQueueRuns

  type Parents = map<Id, Option<Id>>
  type Pending = map<Id, nat>

  lemma SubsetIsSmaller<T>(a: set<T>, b: set<T>)
    requires a <= b
    ensures |a| <= |b| && (a != b ==> |a| < |b|)
  {
    assert b == a + (b - a);
    if a != b {
      var x :| x in b - a;
      assert |b - a| > 0;
    }
  }

  /** A parent still waiting for a child, inserted or not, is running. */
  lemma UnfinishedParentRuns(t: Table, sub: Parents, pend: Pending, p: Id)
    requires TableInv(t, sub, pend) && p in t && IsParentRow(t[p])
    requires (p in pend && pend[p] > 0) || exists c :: c in Children(sub, p) && !HasEnded(t, c)
    ensures t[p].status == Running
  {
    SubsetIsSmaller(EndedChildren(t, sub, p), Children(sub, p));
    assert ParentCounts(t, sub, pend, p);
  }

  /** Two tables agree for the invariant: same rows' identity, parenthood and endedness. */
  ghost predicate SameForParents(t: Table, t': Table, sub: Parents) {
    && (forall c :: c in sub && sub[c].Some? ==> (HasEnded(t, c) <==> HasEnded(t', c)))
    && (forall id :: id in t' ==>
          && id in t && t'[id].parent == t[id].parent
          && IsParentRow(t'[id]) == IsParentRow(t[id])
          && (IsParentRow(t[id]) ==> t'[id] == t[id]))
  }

  lemma SameKeepsCounts(t: Table, t': Table, sub: Parents, p: Id)
    requires forall c :: c in sub && sub[c].Some? ==> (HasEnded(t, c) <==> HasEnded(t', c))
    ensures EndedChildren(t, sub, p) == EndedChildren(t', sub, p)
  {
  }

  /** A step that changes no parent row and ends or revives nobody keeps the invariant. */
  lemma SameKeepsTable(t: Table, t': Table, sub: Parents, pend: Pending)
    requires TableInv(t, sub, pend) && t'.Keys == t.Keys && SameForParents(t, t', sub)
    ensures TableInv(t', sub, pend)
  {
    forall p | p in t' && IsParentRow(t'[p]) ensures ParentCounts(t', sub, pend, p) {
      SameKeepsCounts(t, t', sub, p);
      assert ParentCounts(t, sub, pend, p);
    }
  }

  lemma ClaimKeepsTable(t: Table, sub: Parents, pend: Pending, id: Id, worker: Worker, now: real)
    requires TableInv(t, sub, pend) && id in t && t[id].status == Queued
    ensures TableInv(Claimed(t, id, worker, now), sub, pend) && !IsParentRow(t[id])
  {
    SameKeepsTable(t, Claimed(t, id, worker, now), sub, pend);
  }

  lemma HeartbeatKeepsTable(t: Table, sub: Parents, pend: Pending, worker: Worker, now: real)
    requires TableInv(t, sub, pend)
    ensures TableInv(Heartbeaten(t, worker, now), sub, pend)
  {
    forall p | p in t && IsParentRow(t[p]) ensures Heartbeaten(t, worker, now)[p] == t[p] {
      assert ParentCounts(t, sub, pend, p);
    }
    SameKeepsTable(t, Heartbeaten(t, worker, now), sub, pend);
  }

  lemma RequeueKeepsTable(t: Table, sub: Parents, pend: Pending, now: real)
    requires TableInv(t, sub, pend)
    ensures TableInv(Requeued(t, now), sub, pend)
  {
    forall p | p in t && IsParentRow(t[p]) ensures Requeued(t, now)[p] == t[p] {
      assert ParentCounts(t, sub, pend, p);
    }
    SameKeepsTable(t, Requeued(t, now), sub, pend);
  }

  lemma PruneKeepsTable(t: Table, sub: Parents, pend: Pending, now: real)
    requires TableInv(t, sub, pend)
    ensures TableInv(Pruned(t, now), sub, pend)
  {
    var t' := Pruned(t, now);
    forall p | p in t' && IsParentRow(t'[p]) ensures ParentCounts(t', sub, pend, p) {
      SameKeepsCounts(t, t', sub, p);
      assert ParentCounts(t, sub, pend, p);
    }
    forall c | c in t' && !t'[c].Terminal() && t'[c].parent.Some?
      ensures t'[c].parent.value in t'
    {
      var p := t[c].parent.value;
      assert c in Children(sub, p) && !HasEnded(t, c);
      UnfinishedParentRuns(t, sub, pend, p);
    }
    forall p | p in pend && pend[p] > 0 ensures p in t' {
      UnfinishedParentRuns(t, sub, pend, p);
    }
  }

  // ---- ending a child ---------------------------------------------------------------------

  /** Ending one live row with its parent's bump, seen row by row. */
  lemma FinishedRows(t: Table, sub: Parents, pend: Pending, id: Id, status: Status, now: real)
    requires TableInv(t, sub, pend) && id in t && !t[id].Terminal() && !IsParentRow(t[id])
    ensures var t' := Finished(t, id, t[id].parent, status, now);
            && t'.Keys == t.Keys
            && t'[id] == t[id].(status := status, completedAt := Some(now))
            && (forall j :: j in t && j != id && t[id].parent != Some(j) ==> t'[j] == t[j])
  {
  }

  lemma FinishedParent(t: Table, sub: Parents, pend: Pending, id: Id, status: Status, now: real)
    requires TableInv(t, sub, pend) && id in t && !t[id].Terminal() && !IsParentRow(t[id])
    requires t[id].parent.Some?
    ensures var t', p := Finished(t, id, t[id].parent, status, now), t[id].parent.value;
            && p in t && IsParentRow(t[p]) && t[p].status == Running && p != id
            && var r := t[p].(done := Some(t[p].done.value + 1));
               t'[p] == if r.done.value >= r.total.value then r.(status := Done, completedAt := Some(now)) else r
  {
    var p := t[id].parent.value;
    assert id in Children(sub, p) && !HasEnded(t, id);
    UnfinishedParentRuns(t, sub, pend, p);
    assert ParentCounts(t, sub, pend, p);
  }

  lemma FinishEndsOne(t: Table, sub: Parents, pend: Pending, id: Id, status: Status, now: real, p: Id)
    requires TableInv(t, sub, pend) && id in t && !t[id].Terminal() && !IsParentRow(t[id])
    requires status == Done || status == Error
    ensures var t' := Finished(t, id, t[id].parent, status, now);
            EndedChildren(t', sub, p) == EndedChildren(t, sub, p) + if t[id].parent == Some(p) then {id} else {}
    ensures id !in EndedChildren(t, sub, p)
  {
    hide Finished;
    FinishedRows(t, sub, pend, id, status, now);
    var t' := Finished(t, id, t[id].parent, status, now);
    if t[id].parent.Some? {
      FinishedParent(t, sub, pend, id, status, now);
      var q := t[id].parent.value;
      assert sub[q] == None;
    }
    forall c | c in Children(sub, p) && c != id ensures HasEnded(t', c) <==> HasEnded(t, c) {
    }
  }

  /** A parent whose ended children grow by `ended` and whose row follows keeps counting them. */
  lemma CountsFollow(t: Table, t': Table, sub: Parents, pend: Pending, p: Id, ended: set<Id>, now: real)
    requires p in t && p in t' && ParentCounts(t, sub, pend, p)
    requires EndedChildren(t', sub, p) == EndedChildren(t, sub, p) + ended && EndedChildren(t, sub, p) !! ended
    requires ended == {} ==> t'[p] == t[p]
    requires ended != {} ==>
      && |ended| == 1 && t[p].status == Running
      && var r := t[p].(done := Some(t[p].done.value + 1));
         t'[p] == if r.done.value >= r.total.value then r.(status := Done, completedAt := Some(now)) else r
    ensures ParentCounts(t', sub, pend, p)
  {
    hide EndedChildren, Children;
    assert |EndedChildren(t', sub, p)| == |EndedChildren(t, sub, p)| + |ended|;
  }

  lemma FinishCounts(t: Table, sub: Parents, pend: Pending, id: Id, status: Status, now: real, p: Id)
    requires TableInv(t, sub, pend) && id in t && !t[id].Terminal() && !IsParentRow(t[id])
    requires status == Done || status == Error
    requires p in t && IsParentRow(t[p])
    ensures var t' := Finished(t, id, t[id].parent, status, now);
            p in t' && IsParentRow(t'[p]) && ParentCounts(t', sub, pend, p)
  {
    hide Finished, TableInv, EndedChildren, Children, ParentCounts;
    FinishedRows(t, sub, pend, id, status, now);
    FinishEndsOne(t, sub, pend, id, status, now, p);
    if t[id].parent.Some? { FinishedParent(t, sub, pend, id, status, now); }
    CountsOf(t, sub, pend, p);
    CountsFollow(t, Finished(t, id, t[id].parent, status, now), sub, pend, p,
                 if t[id].parent == Some(p) then {id} else {}, now);
  }

  lemma CountsOf(t: Table, sub: Parents, pend: Pending, p: Id)
    requires TableInv(t, sub, pend) && p in t && IsParentRow(t[p])
    ensures ParentCounts(t, sub, pend, p)
  {
  }

  /** Ending a child counts it once in its parent, and finishes the parent exactly at its total. */
  lemma FinishKeepsTable(t: Table, sub: Parents, pend: Pending, id: Id, status: Status, now: real)
    requires TableInv(t, sub, pend) && id in t && !t[id].Terminal() && !IsParentRow(t[id])
    requires status == Done || status == Error
    ensures TableInv(Finished(t, id, t[id].parent, status, now), sub, pend)
  {
    hide Finished, ParentCounts;
    var t' := Finished(t, id, t[id].parent, status, now);
    FinishedRows(t, sub, pend, id, status, now);
    if t[id].parent.Some? { FinishedParent(t, sub, pend, id, status, now); }
    forall p | p in t && IsParentRow(t[p])
      ensures p in t' && IsParentRow(t'[p]) && ParentCounts(t', sub, pend, p)
    {
      FinishCounts(t, sub, pend, id, status, now, p);
    }
  }
}
