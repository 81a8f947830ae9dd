/**
 The claim protocol statement by statement (app/jobstore.py): every SQL statement is one
 step, workers interleave freely, their clocks are arbitrary, and a worker whose claim was
 requeued keeps running and may still complete, fail or bump.
 */
module ClaimProtocol {
  import opened Wrappers
  import opened JobTable

  /**
   `submitted` holds every id ever inserted, `candidates` the SELECTed and not yet UPDATEd
   job of each worker, `listed` the jobs each worker found exhausted, `reached` the parents
   each worker read as complete, and `claims` the winner of each attempt, in order.
   */
  datatype Proto = Proto(
    rows: Table,
    submitted: set<Id>,
    candidates: map<Worker, Id>,
    listed: set<(Worker, Id)>,
    reached: set<(Worker, Id)>,
    claims: map<Id, seq<Worker>>)

  datatype Step =
    | InsertJob(id: Id, parent: Option<Id>, now: real)
    | InsertParent(id: Id, total: nat, now: real)
    | Select(worker: Worker, id: Id)
    | TryClaim(worker: Worker, now: real)
    | Beat(worker: Worker, now: real)
    | Increment(worker: Worker, id: Id)
    | ReadParent(worker: Worker, id: Id)
    | FinishParent(worker: Worker, id: Id, now: real)
    | End(worker: Worker, id: Id, status: Status, now: real)
    | Requeue(now: real)
    | ListExhausted(worker: Worker, now: real)
    | Prune(now: real)

  function ClaimsOf(s: Proto, id: Id): seq<Worker> { if id in s.claims then s.claims[id] else [] }

  predicate Wins(s: Proto, step: Step) {
    step.TryClaim? && step.worker in s.candidates
    && s.candidates[step.worker] in s.rows && s.rows[s.candidates[step.worker]].status == Queued
  }

  ghost predicate Init(s: Proto) {
    s.rows == map[] && s.submitted == {} && s.candidates == map[] && s.listed == {} && s.reached == {}
      && s.claims == map[]
  }

  ghost predicate Enabled(s: Proto, step: Step) {
    match step
    case InsertJob(id, _, _) => id !in s.submitted
    case InsertParent(id, _, _) => id !in s.submitted
    case Select(_, id) => IsNext(s.rows, id)
    case TryClaim(w, _) => w in s.candidates
    case FinishParent(w, id, _) => (w, id) in s.reached
    // whoever ever claimed the job, or listed it as exhausted, however late
    case End(w, id, status, _) => status in {Done, Error} && (w in ClaimsOf(s, id) || (w, id) in s.listed)
    case _ => true
  }

  function After(s: Proto, step: Step): Proto {
    match step
    case InsertJob(id, parent, now) =>
      s.(rows := s.rows[id := NewRow(Queued, parent, None, None, now)], submitted := s.submitted + {id})
    case InsertParent(id, total, now) =>
      s.(rows := s.rows[id := NewRow(if total > 0 then Running else Done, None, Some(total), Some(0), now)],
         submitted := s.submitted + {id})
    case Select(w, id) => s.(candidates := s.candidates[w := id])
    case TryClaim(w, now) =>
      if Wins(s, step) then
        var id := s.candidates[w];
        s.(rows := Claimed(s.rows, id, w, now), candidates := s.candidates - {w},
           claims := s.claims[id := ClaimsOf(s, id) + [w]])
      else
        s.(candidates := s.candidates - {w})
    case Beat(w, now) => s.(rows := Heartbeaten(s.rows, w, now))
    case Increment(_, id) => s.(rows := Incremented(s.rows, id))
    case ReadParent(w, id) =>
      if id in s.rows && ReachedTotal(s.rows[id]) then s.(reached := s.reached + {(w, id)}) else s
    case FinishParent(_, id, now) =>
      if id in s.rows && s.rows[id].status == Running then s.(rows := Ended(s.rows, id, Done, now)) else s
    case End(_, id, status, now) => s.(rows := Ended(s.rows, id, status, now))
    case Requeue(now) => s.(rows := Requeued(s.rows, now))
    case ListExhausted(w, now) => s.(listed := s.listed + set id | id in StaleExhausted(s.rows, now) :: (w, id))
    case Prune(now) => s.(rows := Pruned(s.rows, now))
  }

  ghost predicate IsRun(run: seq<Proto>) {
    && |run| > 0 && Init(run[0])
    && forall i :: 0 <= i < |run| - 1 ==> exists step :: Enabled(run[i], step) && run[i + 1] == After(run[i], step)
  }

  lemma StepInto(run: seq<Proto>, k: nat) returns (step: Step)
    requires IsRun(run) && 0 < k < |run|
    ensures Enabled(run[k - 1], step) && run[k] == After(run[k - 1], step)
  {
    hide Enabled, After;
    assert 0 <= k - 1 < |run| - 1;
    step :| Enabled(run[k - 1], step) && run[k - 1 + 1] == After(run[k - 1], step);
  }

  // ---- the invariant ---------------------------------------------------------------------

  /** What holds of a row whose attempts were won by `claims`. */
  predicate RowOk(r: Row, claims: seq<Worker>) {
    && r.attempts == |claims| <= MAX_ATTEMPTS
    && (r.status == Queued ==> r.attempts < MAX_ATTEMPTS)
    && (r.status == Running && !IsParentRow(r) ==>
          r.heartbeatAt.Some? && claims != [] && r.claimedBy == Some(claims[|claims| - 1]))
    && (IsParentRow(r) ==> r.status in {Running, Done} && r.heartbeatAt == None && r.claimedBy == None && claims == [])
  }

  ghost predicate Inv(s: Proto) {
    && (forall id :: id in s.rows ==> id in s.submitted && RowOk(s.rows[id], ClaimsOf(s, id)))
    && (forall id :: id in s.claims ==> id in s.submitted && |s.claims[id]| <= MAX_ATTEMPTS)
    && (forall w, id :: (w, id) in s.listed && id in s.rows ==> !IsParentRow(s.rows[id]))
    && (forall w, id :: (w, id) in s.listed ==> id in s.submitted)
    && (forall w, id :: (w, id) in s.reached && id in s.rows ==> IsParentRow(s.rows[id]))
    && (forall w, id :: (w, id) in s.reached ==> id in s.submitted)
  }

  /** A step keeps parenthood and, on each surviving row, the row invariant. */
  lemma RowsKeep(s: Proto, step: Step, id: Id)
    requires Inv(s) && Enabled(s, step) && id in After(s, step).rows
    ensures var s' := After(s, step);
            && id in s'.submitted && RowOk(s'.rows[id], ClaimsOf(s', id))
            && (id in s.rows ==> IsParentRow(s'.rows[id]) == IsParentRow(s.rows[id]))
            && (id !in s.rows ==> id !in s.submitted)
  {
    var s' := After(s, step);
    if id in s.rows {
      assert RowOk(s.rows[id], ClaimsOf(s, id));
      if step.FinishParent? {
        assert (step.worker, step.id) in s.reached;
      } else if step.End? && (step.worker, step.id) in s.listed {
        assert id == step.id ==> !IsParentRow(s.rows[id]);
      }
    }
  }

  lemma StepKeeps(s: Proto, step: Step)
    requires Inv(s) && Enabled(s, step)
    ensures Inv(After(s, step))
  {
    var s' := After(s, step);
    forall id | id in s'.rows
      ensures id in s'.submitted && RowOk(s'.rows[id], ClaimsOf(s', id))
      ensures id in s.rows ==> IsParentRow(s'.rows[id]) == IsParentRow(s.rows[id])
      ensures id !in s.rows ==> id !in s.submitted
    {
      RowsKeep(s, step, id);
    }
    NotesKeep(s, step);
  }

  lemma NotesKeep(s: Proto, step: Step)
    requires Inv(s) && Enabled(s, step)
    requires forall id :: id in After(s, step).rows ==>
      && (id in s.rows ==> IsParentRow(After(s, step).rows[id]) == IsParentRow(s.rows[id]))
      && (id !in s.rows ==> id !in s.submitted)
    ensures var s' := After(s, step);
      && (forall id :: id in s'.claims ==> id in s'.submitted && |s'.claims[id]| <= MAX_ATTEMPTS)
      && (forall w, id :: (w, id) in s'.listed && id in s'.rows ==> !IsParentRow(s'.rows[id]))
      && (forall w, id :: (w, id) in s'.listed ==> id in s'.submitted)
      && (forall w, id :: (w, id) in s'.reached && id in s'.rows ==> IsParentRow(s'.rows[id]))
      && (forall w, id :: (w, id) in s'.reached ==> id in s'.submitted)
  {
  }

  lemma {:induction false} ReachableInv(run: seq<Proto>, i: nat)
    requires IsRun(run) && i < |run|
    ensures Inv(run[i])
  {
    hide Enabled, After, RowOk;
    if i > 0 {
      ReachableInv(run, i - 1);
      var step := StepInto(run, i);
      StepKeeps(run[i - 1], step);
    }
  }

  // ---- what every interleaving keeps -------------------------------------------------------

  /**
   A job is claimed at most `MAX_ATTEMPTS` times; its row counts exactly the claims won;
   a queued job always has an attempt left, and a running one names the last winner.
   */
  lemma ClaimsAreBounded(run: seq<Proto>, i: nat, id: Id)
    requires IsRun(run) && i < |run|
    ensures |ClaimsOf(run[i], id)| <= MAX_ATTEMPTS
    ensures id in run[i].rows ==>
      var r := run[i].rows[id];
      && r.attempts == |ClaimsOf(run[i], id)|
      && (r.status == Queued ==> r.attempts < MAX_ATTEMPTS)
      && (r.status == Running && !IsParentRow(r) ==> r.claimedBy.Some? && r.claimedBy.value in ClaimsOf(run[i], id))
  {
    ReachableInv(run, i);
    if id in run[i].rows { assert RowOk(run[i].rows[id], ClaimsOf(run[i], id)); }
  }

  /** One winner per attempt: the history of a job only grows, and only by a claim that wins. */
  lemma OneWinnerPerAttempt(s: Proto, step: Step, id: Id)
    requires Enabled(s, step)
    ensures ClaimsOf(After(s, step), id) ==
            if Wins(s, step) && s.candidates[step.worker] == id then ClaimsOf(s, id) + [step.worker]
              else ClaimsOf(s, id)
  {
  }

  lemma {:induction false} HistoryGrows(run: seq<Proto>, i: nat, k: nat, id: Id)
    requires IsRun(run) && i <= k < |run|
    ensures ClaimsOf(run[i], id) <= ClaimsOf(run[k], id)
    decreases k
  {
    hide IsRun, Enabled, After, Wins, ClaimsOf;
    if i < k {
      HistoryGrows(run, i, k - 1, id);
      var step := StepInto(run, k);
      OneWinnerPerAttempt(run[k - 1], step, id);
    }
  }

  /** Submitted once, and from then on gone or ended. */
  predicate Over(s: Proto, id: Id) {
    id in s.submitted && (id in s.rows ==> s.rows[id].Terminal())
  }

  lemma OverStaysOver(s: Proto, step: Step, id: Id)
    requires Inv(s) && Enabled(s, step) && Over(s, id)
    ensures Over(After(s, step), id)
    ensures id in After(s, step).rows ==> id in s.rows
    ensures id !in After(s, step).rows && id in s.rows ==> step.Prune?
  {
  }

  /** Done and error are never left except by prune, and a pruned id never comes back. */
  lemma {:induction false} EndedForever(run: seq<Proto>, i: nat, k: nat, id: Id)
    requires IsRun(run) && i <= k < |run| && Over(run[i], id)
    ensures Over(run[k], id) && (id in run[k].rows ==> id in run[i].rows)
    decreases k
  {
    hide IsRun, Enabled, After, Over, Inv;
    if i < k {
      EndedForever(run, i, k - 1, id);
      ReachableInv(run, k - 1);
      var step := StepInto(run, k);
      OverStaysOver(run[k - 1], step, id);
    }
  }

  lemma OverIsNotWon(s: Proto, step: Step, id: Id)
    requires Over(s, id) && Wins(s, step)
    ensures s.candidates[step.worker] != id
  {
  }

  /** An ended job is never claimed again. */
  lemma {:induction false} EndedIsNeverClaimed(run: seq<Proto>, i: nat, k: nat, id: Id)
    requires IsRun(run) && i <= k < |run| && Over(run[i], id)
    ensures ClaimsOf(run[k], id) == ClaimsOf(run[i], id)
    decreases k
  {
    hide IsRun, Enabled, After, Inv, ClaimsOf, Over;
    if i < k {
      EndedIsNeverClaimed(run, i, k - 1, id);
      EndedForever(run, i, k - 1, id);
      var step := StepInto(run, k);
      if Wins(run[k - 1], step) { OverIsNotWon(run[k - 1], step, id); }
      OneWinnerPerAttempt(run[k - 1], step, id);
    }
  }

  /** A parent row is never claimed, never requeued and never listed as exhausted. */
  lemma ParentsAreNeverWork(run: seq<Proto>, i: nat, id: Id, now: real)
    requires IsRun(run) && i < |run| && id in run[i].rows && IsParentRow(run[i].rows[id])
    ensures run[i].rows[id].status != Queued && ClaimsOf(run[i], id) == []
    ensures Requeued(run[i].rows, now)[id] == run[i].rows[id] && id !in StaleExhausted(run[i].rows, now)
    ensures forall w :: (w, id) !in run[i].listed
  {
    ReachableInv(run, i);
    assert RowOk(run[i].rows[id], ClaimsOf(run[i], id));
  }
}
