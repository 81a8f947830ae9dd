/**
 How often a reprocess-all parent counts a child, statement by statement (app/jobs.py,
 app/jobstore.py, app/worker_loop.py). Counting a child in its parent and ending its row are two
 statements of one handling, in that order; workers may crash between any two statements.
 */
module ChildCounts {
  import opened Wrappers
  import opened JobTable
  import JobQueueRuns

  /** A job is handled after a claim, or after it was listed as stale with no attempts left. */
  datatype Cause = ByClaim | ByList

  datatype Handling = Handling(worker: Worker, id: Id, cause: Cause)

  /** Before and after the parent's `done` was incremented. */
  datatype Phase = Holding | Counted

  /**
   `submitted` maps every job ever inserted to its parent, `parents` are the reprocess-all parents
   among them, `open` the handlings going on, `reached` the parents read as complete, and
   `counted` the children counted so far, in order.
   */
  datatype Sys = Sys(
    rows: Table,
    submitted: map<Id, Option<Id>>,
    parents: set<Id>,
    open: map<Handling, Phase>,
    crashed: set<Worker>,
    reached: set<Id>,
    counted: seq<Id>)

  datatype Step =
    | InsertParent(id: Id, total: nat, now: real)
    | InsertJob(id: Id, parent: Option<Id>, now: real)
    | Claim(worker: Worker, id: Id, now: real)
    | Beat(worker: Worker, now: real)
    | Count(h: Handling)
    | ReadParent(id: Id)
    | FinishParent(id: Id, now: real)
    | End(h: Handling, status: Status, now: real)
    | Crash(worker: Worker)
    | Requeue(now: real)
    | List(worker: Worker, now: real)
    | Prune(now: real)

  /** What may interfere with a handling. */
  datatype Hazards = Hazards(
    takesLive: bool,       // upkeep takes a claimed job from a worker that still handles it
    crashesMidway: bool,   // a worker crashes after counting a child and before ending its row
    listsTwice: bool)      // two upkeeps list the same exhausted job before either has ended it

  ghost predicate Init(s: Sys) {
    && s.rows == map[] && s.submitted == map[] && s.parents == {} && s.open == map[]
    && s.reached == {} && s.counted == []
  }

  /** The rows a requeue takes. */
  predicate IsTaken(t: Table, id: Id, now: real) {
    id in t && t[id].StaleAt(now) && t[id].attempts < MAX_ATTEMPTS
  }

  ghost predicate HandledBy(s: Sys, id: Id, cause: Cause) {
    exists h :: h in s.open && h.id == id && h.cause == cause
  }

  ghost predicate Enabled(s: Sys, step: Step) {
    match step
    case InsertParent(id, _, _) => id !in s.submitted
    case InsertJob(id, parent, _) => id !in s.submitted && (parent.Some? ==> parent.value in s.parents)
    case Claim(w, id, _) => w !in s.crashed && id in s.rows && s.rows[id].status == Queued
    case Beat(w, _) => w !in s.crashed
    case Count(h) => h in s.open && s.open[h] == Holding && h.id in s.submitted && s.submitted[h.id].Some?
    case FinishParent(id, _) => id in s.reached
    case End(h, status, _) =>
      && h in s.open && status in {Done, Error} && h.id in s.submitted
      && (s.submitted[h.id].Some? ==> s.open[h] == Counted)
    case List(w, _) => w !in s.crashed
    case _ => true
  }

  /** The hazards the step needs. */
  ghost predicate Allowed(z: Hazards, s: Sys, step: Step) {
    match step
    case Crash(w) => z.crashesMidway || forall h :: h in s.open && h.worker == w ==> s.open[h] == Holding
    case Requeue(now) => z.takesLive || forall id :: IsTaken(s.rows, id, now) ==> !HandledBy(s, id, ByClaim)
    case List(_, now) =>
      && (z.takesLive || forall id :: id in StaleExhausted(s.rows, now) ==> !HandledBy(s, id, ByClaim))
      && (z.listsTwice || forall id :: id in StaleExhausted(s.rows, now) ==> !HandledBy(s, id, ByList))
    case _ => true
  }

  ghost function After(s: Sys, step: Step): Sys
    requires Enabled(s, step)
  {
    match step
    case InsertParent(id, total, now) =>
      s.(rows := s.rows[id := NewRow(if total > 0 then Running else Done, None, Some(total), Some(0), now)],
         submitted := s.submitted[id := None], parents := s.parents + {id})
    case InsertJob(id, parent, now) =>
      s.(rows := s.rows[id := NewRow(Queued, parent, None, None, now)], submitted := s.submitted[id := parent])
    case Claim(w, id, now) =>
      s.(rows := Claimed(s.rows, id, w, now), open := s.open[Handling(w, id, ByClaim) := Holding])
    case Beat(w, now) => s.(rows := Heartbeaten(s.rows, w, now))
    case Count(h) =>
      s.(rows := Incremented(s.rows, s.submitted[h.id].value), open := s.open[h := Counted],
         counted := s.counted + [h.id])
    case ReadParent(id) =>
      if id in s.rows && ReachedTotal(s.rows[id]) then s.(reached := s.reached + {id}) else s
    case FinishParent(id, now) =>
      if id in s.rows && s.rows[id].status == Running then s.(rows := Ended(s.rows, id, Done, now)) else s
    case End(h, status, now) => s.(rows := Ended(s.rows, h.id, status, now), open := s.open - {h})
    case Crash(w) =>
      s.(open := map h | h in s.open && h.worker != w :: s.open[h], crashed := s.crashed + {w})
    case Requeue(now) => s.(rows := Requeued(s.rows, now))
    case List(w, now) =>
      var listed := set id | id in StaleExhausted(s.rows, now) :: Handling(w, id, ByList);
      s.(open := map h | h in s.open.Keys + listed :: if h in listed then Holding else s.open[h])
    case Prune(now) => s.(rows := Pruned(s.rows, now))
  }

  ghost predicate LeadsTo(z: Hazards, s: Sys, s': Sys) {
    exists step :: Enabled(s, step) && Allowed(z, s, step) && s' == After(s, step)
  }

  ghost predicate IsRun(z: Hazards, run: seq<Sys>) {
    && |run| > 0 && Init(run[0])
    && forall i :: 0 <= i < |run| - 1 ==> LeadsTo(z, run[i], run[i + 1])
  }

  ghost predicate Reachable(z: Hazards, s: Sys) {
    exists run, i: nat :: IsRun(z, run) && i < |run| && run[i] == s
  }

  // ---- the property ----------------------------------------------------------------------------

  /** No child was counted twice. */
  ghost predicate CountsOnce(s: Sys) { forall c :: multiset(s.counted)[c] <= 1 }

  ghost predicate AlwaysCountsOnce(z: Hazards) { forall s | Reachable(z, s) :: CountsOnce(s) }

  // ---- what holds under any hazards ---------------------------------------------------------------

  /** How often children of `p` were counted. */
  function CountedFor(submitted: map<Id, Option<Id>>, counted: seq<Id>, p: Id): nat {
    if counted == [] then 0
    else
      var c := counted[|counted| - 1];
      CountedFor(submitted, counted[..|counted| - 1], p) + if c in submitted && submitted[c] == Some(p) then 1 else 0
  }

  ghost predicate ParentBooks(s: Sys, p: Id)
    requires p in s.rows
  {
    && s.rows[p].status in {Running, Done} && s.rows[p].heartbeatAt == None && s.rows[p].claimedBy == None
    && s.rows[p].done == Some(CountedFor(s.submitted, s.counted, p))
  }

  /** Parents are never work, and their `done` is how often their children were counted. */
  ghost predicate Books(s: Sys) {
    && (forall id :: id in s.rows ==> id in s.submitted && (IsParentRow(s.rows[id]) <==> id in s.parents))
    && (forall id :: id in s.parents ==> id in s.submitted && s.submitted[id] == None)
    && (forall c :: c in s.submitted && s.submitted[c].Some? ==> s.submitted[c].value in s.parents)
    && (forall p :: p in s.rows && p in s.parents ==> ParentBooks(s, p))
    && (forall h :: h in s.open ==> h.id in s.submitted && h.id !in s.parents)
    && (forall id :: id in s.reached ==> id in s.parents)
    && (forall c :: c in s.counted ==> c in s.submitted && s.submitted[c].Some?)
  }

  lemma {:induction false} SameCounts(sub: map<Id, Option<Id>>, sub': map<Id, Option<Id>>, counted: seq<Id>, p: Id)
    requires forall c :: c in counted ==> c in sub && c in sub' && sub'[c] == sub[c]
    ensures CountedFor(sub', counted, p) == CountedFor(sub, counted, p)
  {
    if counted != [] {
      assert counted[|counted| - 1] in counted;
      SameCounts(sub, sub', counted[..|counted| - 1], p);
    }
  }

  lemma {:induction false} NoCounts(sub: map<Id, Option<Id>>, counted: seq<Id>, p: Id)
    requires forall c :: c in counted && c in sub ==> sub[c] != Some(p)
    ensures CountedFor(sub, counted, p) == 0
  {
    if counted != [] {
      assert counted[|counted| - 1] in counted;
      NoCounts(sub, counted[..|counted| - 1], p);
    }
  }

  lemma InsertKeepsParents(s: Sys, step: Step, p: Id)
    requires Books(s) && Enabled(s, step) && (step.InsertParent? || step.InsertJob?)
    requires p in After(s, step).rows && p in After(s, step).parents
    ensures ParentBooks(After(s, step), p)
  {
    if p != step.id { assert ParentBooks(s, p); }
    SameCounts(s.submitted, After(s, step).submitted, s.counted, p);
    if p == step.id { NoCounts(s.submitted, s.counted, p); }
    hide CountedFor;
  }

  lemma InsertKeepsBooks(s: Sys, step: Step)
    requires Books(s) && Enabled(s, step) && (step.InsertParent? || step.InsertJob?)
    ensures Books(After(s, step))
  {
    hide CountedFor, ParentBooks;
    var s' := After(s, step);
    forall p | p in s'.rows && p in s'.parents ensures ParentBooks(s', p) {
      InsertKeepsParents(s, step, p);
    }
    forall c | c in s'.submitted && s'.submitted[c].Some? ensures s'.submitted[c].value in s'.parents {
      if c != step.id { assert s.submitted[c] == s'.submitted[c]; }
    }
  }

  lemma CountKeepsBooks(s: Sys, h: Handling)
    requires Books(s) && Enabled(s, Count(h))
    ensures Books(After(s, Count(h)))
  {
    var s' := After(s, Count(h));
    assert s'.counted[..|s.counted|] == s.counted;
    forall p: Id ensures CountedFor(s'.submitted, s'.counted, p) ==
      CountedFor(s.submitted, s.counted, p) + if s.submitted[h.id] == Some(p) then 1 else 0
    {
    }
    hide CountedFor;
  }

  /** No parent row changes but for finishing, no job is added or counted, and no parent is handled. */
  ghost predicate LeavesBooks(s: Sys, s': Sys) {
    && s'.submitted == s.submitted && s'.parents == s.parents && s'.counted == s.counted
    && (forall id :: id in s'.rows ==> id in s.rows && IsParentRow(s'.rows[id]) == IsParentRow(s.rows[id]))
    && (forall p :: p in s'.rows && p in s.parents ==>
          && s'.rows[p].status in {Running, Done} && s'.rows[p].heartbeatAt == None && s'.rows[p].claimedBy == None
          && s'.rows[p].done == s.rows[p].done)
    && (forall h :: h in s'.open ==> h.id in s.submitted && h.id !in s.parents)
    && (forall id :: id in s'.reached ==> id in s.parents)
  }

  lemma LeftBooksKeep(s: Sys, s': Sys)
    requires Books(s) && LeavesBooks(s, s')
    ensures Books(s')
  {
    hide CountedFor;
  }

  lemma HandlingLeavesBooks(s: Sys, step: Step)
    requires Books(s) && Enabled(s, step) && (step.Claim? || step.End? || step.Crash? || step.List?)
    ensures LeavesBooks(s, After(s, step))
  {
    hide CountedFor;
    match step {
      case Claim(_, _, _) =>
      case End(_, _, _) =>
      case Crash(_) =>
      case List(_, _) =>
    }
  }

  lemma UpkeepLeavesBooks(s: Sys, step: Step)
    requires Books(s) && Enabled(s, step) && (step.Beat? || step.Requeue? || step.Prune?)
    ensures LeavesBooks(s, After(s, step))
  {
    hide CountedFor;
    forall p | p in s.rows && p in s.parents ensures ParentBooks(s, p) {
    }
  }

  lemma FinishLeavesBooks(s: Sys, step: Step)
    requires Books(s) && Enabled(s, step) && (step.ReadParent? || step.FinishParent?)
    ensures LeavesBooks(s, After(s, step))
  {
    hide CountedFor;
    forall p | p in s.rows && p in s.parents ensures ParentBooks(s, p) {
    }
  }

  lemma StepKeepsBooks(s: Sys, step: Step)
    requires Books(s) && Enabled(s, step)
    ensures Books(After(s, step))
  {
    hide Books, After, Enabled, LeavesBooks;
    if step.InsertParent? || step.InsertJob? {
      InsertKeepsBooks(s, step);
    } else if step.Count? {
      CountKeepsBooks(s, step.h);
    } else {
      match step {
        case Beat(_, _) => UpkeepLeavesBooks(s, step);
        case Requeue(_) => UpkeepLeavesBooks(s, step);
        case Prune(_) => UpkeepLeavesBooks(s, step);
        case ReadParent(_) => FinishLeavesBooks(s, step);
        case FinishParent(_, _) => FinishLeavesBooks(s, step);
        case _ => HandlingLeavesBooks(s, step);
      }
      LeftBooksKeep(s, After(s, step));
    }
  }

  // ---- what holds without hazards -----------------------------------------------------------------

  ghost predicate IsHandled(s: Sys, c: Id) { exists h :: h in s.open && h.id == c }

  /** No job has two handlings. */
  ghost predicate HandledOnce(s: Sys) {
    forall h, k :: h in s.open && k in s.open && h.id == k.id ==> h == k
  }

  /** A handled job is running and counted when its handling says so; any other was counted when it ended. */
  ghost predicate Tallied(s: Sys, c: Id) {
    && (forall h :: h in s.open && h.id == c ==>
          && c in s.rows && s.rows[c].status == Running
          && multiset(s.counted)[c] == (if s.open[h] == Counted then 1 else 0)
          && (h.cause == ByList ==> s.rows[c].attempts >= MAX_ATTEMPTS))
    && (!IsHandled(s, c) && c in s.submitted && s.submitted[c].Some? ==>
          multiset(s.counted)[c] == if c in s.rows && !s.rows[c].Terminal() then 0 else 1)
  }

  ghost predicate Orderly(s: Sys) {
    Books(s) && HandledOnce(s) && forall c :: c in s.submitted ==> Tallied(s, c)
  }

  const NONE := Hazards(false, false, false)

  lemma ClaimKeepsOnce(s: Sys, w: Worker, id: Id, now: real)
    requires Orderly(s) && Enabled(s, Claim(w, id, now))
    ensures HandledOnce(After(s, Claim(w, id, now)))
  {
    hide CountedFor;
    assert id in s.submitted && Tallied(s, id);
  }

  lemma ListKeepsOnce(s: Sys, w: Worker, now: real)
    requires HandledOnce(s) && Enabled(s, List(w, now)) && Allowed(NONE, s, List(w, now))
    ensures HandledOnce(After(s, List(w, now)))
  {
    forall h | h in s.open && h.id in StaleExhausted(s.rows, now) ensures HandledBy(s, h.id, h.cause) {
    }
    hide StaleExhausted;
  }

  lemma StepKeepsOnce(s: Sys, step: Step)
    requires Orderly(s) && Enabled(s, step) && Allowed(NONE, s, step)
    ensures HandledOnce(After(s, step))
  {
    if step.Claim? {
      ClaimKeepsOnce(s, step.worker, step.id, step.now);
    } else if step.List? {
      ListKeepsOnce(s, step.worker, step.now);
    } else {
      hide Books, Tallied;
      assert forall h :: h in After(s, step).open ==> h in s.open;
    }
  }

  /** The two states agree on everything that tallies `c`. */
  ghost predicate SameFor(s: Sys, s': Sys, c: Id) {
    && (forall h: Handling :: h.id == c ==> (h in s'.open <==> h in s.open))
    && (forall h: Handling :: h.id == c && h in s.open && h in s'.open ==> s'.open[h] == s.open[h])
    && (c in s'.rows <==> c in s.rows)
    && (c in s.rows && c in s'.rows ==>
          s'.rows[c].status == s.rows[c].status && s'.rows[c].attempts == s.rows[c].attempts)
    && multiset(s'.counted)[c] == multiset(s.counted)[c]
    && c in s.submitted && c in s'.submitted && s'.submitted[c] == s.submitted[c]
  }

  lemma SameTally(s: Sys, s': Sys, c: Id)
    requires Tallied(s, c) && SameFor(s, s', c)
    ensures Tallied(s', c)
  {
    if h :| h in s.open && h.id == c {
      assert h in s'.open;
    }
  }

  lemma NewJobTallies(s: Sys, step: Step)
    requires Books(s) && Enabled(s, step) && (step.InsertParent? || step.InsertJob?)
    ensures Tallied(After(s, step), step.id)
  {
    hide CountedFor;
    assert step.id !in s.counted && step.id !in multiset(s.counted);
    assert forall h :: h in s.open ==> h.id != step.id;
    hide Books;
  }

  lemma InsertTallies(s: Sys, step: Step, c: Id)
    requires Tallied(s, c) && Enabled(s, step) && (step.InsertParent? || step.InsertJob?)
    requires c in s.submitted
    ensures Tallied(After(s, step), c)
  {
    assert SameFor(s, After(s, step), c);
    hide Tallied;
    SameTally(s, After(s, step), c);
  }

  lemma ClaimTallies(s: Sys, w: Worker, id: Id, now: real, c: Id)
    requires Books(s) && HandledOnce(s) && Tallied(s, c) && Enabled(s, Claim(w, id, now)) && c in s.submitted
    ensures Tallied(After(s, Claim(w, id, now)), c)
  {
    hide CountedFor;
    var s' := After(s, Claim(w, id, now));
    if c != id {
      assert SameFor(s, s', c);
      SameTally(s, s', c);
    } else {
      if s.submitted[c].None? { NeverCountedUnlessChild(s, c); }
      assert Handling(w, id, ByClaim) in s'.open;
    }
  }

  lemma NeverCountedUnlessChild(s: Sys, c: Id)
    requires Books(s) && c in s.submitted && s.submitted[c].None?
    ensures multiset(s.counted)[c] == 0
  {
    hide CountedFor;
    assert c !in s.counted;
  }

  lemma CountTallies(s: Sys, h: Handling, c: Id)
    requires HandledOnce(s) && Tallied(s, c) && Enabled(s, Count(h)) && c in s.submitted
    ensures Tallied(After(s, Count(h)), c)
  {
    hide CountedFor;
    var s' := After(s, Count(h));
    if c != h.id {
      assert SameFor(s, s', c);
      SameTally(s, s', c);
    } else {
      assert h in s'.open && s'.open[h] == Counted;
    }
  }

  lemma EndTallies(s: Sys, h: Handling, status: Status, now: real, c: Id)
    requires HandledOnce(s) && Tallied(s, c) && Enabled(s, End(h, status, now)) && c in s.submitted
    ensures Tallied(After(s, End(h, status, now)), c)
  {
    hide CountedFor;
    var s' := After(s, End(h, status, now));
    if c != h.id {
      assert SameFor(s, s', c);
      SameTally(s, s', c);
    } else {
      assert !IsHandled(s', c);
    }
  }

  lemma CrashTallies(s: Sys, w: Worker, c: Id)
    requires HandledOnce(s) && Tallied(s, c) && Allowed(NONE, s, Crash(w)) && c in s.submitted
    ensures Tallied(After(s, Crash(w)), c)
  {
    hide CountedFor;
    var s' := After(s, Crash(w));
    if h :| h in s.open && h.id == c && h.worker == w {
      assert !IsHandled(s', c);
    } else {
      assert SameFor(s, s', c);
      SameTally(s, s', c);
    }
  }

  lemma NotHandled(s: Sys, c: Id)
    requires !HandledBy(s, c, ByClaim) && !HandledBy(s, c, ByList)
    ensures !IsHandled(s, c)
  {
    forall h | h in s.open && h.id == c ensures HandledBy(s, c, h.cause) {
    }
  }

  lemma RequeueTallies(s: Sys, now: real, c: Id)
    requires Tallied(s, c) && Allowed(NONE, s, Requeue(now)) && c in s.submitted
    ensures Tallied(After(s, Requeue(now)), c)
  {
    hide CountedFor;
    var s' := After(s, Requeue(now));
    if IsTaken(s.rows, c, now) {
      NotHandled(s, c);
      assert !IsHandled(s', c);
    } else {
      assert SameFor(s, s', c);
      SameTally(s, s', c);
    }
  }

  lemma ListTallies(s: Sys, w: Worker, now: real, c: Id)
    requires Books(s) && Tallied(s, c) && Enabled(s, List(w, now)) && Allowed(NONE, s, List(w, now)) && c in s.submitted
    ensures Tallied(After(s, List(w, now)), c)
  {
    hide CountedFor;
    var s' := After(s, List(w, now));
    if c in StaleExhausted(s.rows, now) {
      NotHandled(s, c);
      if s.submitted[c].None? { NeverCountedUnlessChild(s, c); }
      assert Handling(w, c, ByList) in s'.open;
    } else {
      assert SameFor(s, s', c);
      SameTally(s, s', c);
    }
  }

  lemma PruneTallies(s: Sys, now: real, c: Id)
    requires Tallied(s, c) && c in s.submitted
    ensures Tallied(After(s, Prune(now)), c)
  {
    hide CountedFor;
    if !(c in s.rows && Prunable(s.rows[c], now)) {
      assert SameFor(s, After(s, Prune(now)), c);
      SameTally(s, After(s, Prune(now)), c);
    }
  }

  lemma QuietTallies(s: Sys, step: Step, c: Id)
    requires Tallied(s, c) && Enabled(s, step) && c in s.submitted && (step.Beat? || step.ReadParent?)
    ensures Tallied(After(s, step), c)
  {
    assert SameFor(s, After(s, step), c);
    hide Tallied;
    SameTally(s, After(s, step), c);
  }

  lemma FinishTallies(s: Sys, id: Id, now: real, c: Id)
    requires Books(s) && Tallied(s, c) && Enabled(s, FinishParent(id, now)) && c in s.submitted
    ensures Tallied(After(s, FinishParent(id, now)), c)
  {
    hide CountedFor;
    var s' := After(s, FinishParent(id, now));
    if c == id {
      assert c in s.parents && s.submitted[c] == None;
    } else {
      assert SameFor(s, s', c);
      hide Books, Tallied;
      SameTally(s, s', c);
    }
  }

  lemma StepKeepsOrder(s: Sys, step: Step)
    requires Orderly(s) && Enabled(s, step) && Allowed(NONE, s, step)
    ensures Orderly(After(s, step))
  {
    StepKeepsBooks(s, step);
    StepKeepsOnce(s, step);
    hide After, Tallied, Books, HandledOnce, Enabled, Allowed;
    forall c | c in After(s, step).submitted ensures Tallied(After(s, step), c) {
      StepTallies(s, step, c);
    }
  }

  lemma StepTallies(s: Sys, step: Step, c: Id)
    requires Orderly(s) && Enabled(s, step) && Allowed(NONE, s, step) && c in After(s, step).submitted
    ensures Tallied(After(s, step), c)
  {
    OnlyInserted(s, step);
    hide After, Tallied, Books, HandledOnce, Enabled, Allowed;
    if c !in s.submitted {
      NewJobTallies(s, step);
    } else {
      match step {
        case Claim(w, id, now) => ClaimTallies(s, w, id, now, c);
        case Count(h) => CountTallies(s, h, c);
        case End(h, status, now) => EndTallies(s, h, status, now, c);
        case Crash(w) => CrashTallies(s, w, c);
        case Requeue(now) => RequeueTallies(s, now, c);
        case List(w, now) => ListTallies(s, w, now, c);
        case Prune(now) => PruneTallies(s, now, c);
        case FinishParent(id, now) => FinishTallies(s, id, now, c);
        case InsertParent(_, _, _) => InsertTallies(s, step, c);
        case InsertJob(_, _, _) => InsertTallies(s, step, c);
        case Beat(_, _) => QuietTallies(s, step, c);
        case ReadParent(_) => QuietTallies(s, step, c);
      }
    }
  }

  lemma OnlyInserted(s: Sys, step: Step)
    requires Enabled(s, step)
    ensures forall c :: c in After(s, step).submitted && c !in s.submitted ==>
      (step.InsertParent? || step.InsertJob?) && c == step.id
  {
  }

  // ---- along runs -----------------------------------------------------------------------------------

  lemma InitIsOrderly(s: Sys)
    requires Init(s)
    ensures Orderly(s)
  {
  }

  lemma LeadingKeepsBooks(z: Hazards, s: Sys, s': Sys)
    requires Books(s) && LeadsTo(z, s, s')
    ensures Books(s')
  {
    hide Books, After, Allowed;
    var step :| Enabled(s, step) && Allowed(z, s, step) && s' == After(s, step);
    StepKeepsBooks(s, step);
  }

  lemma {:induction false} RunKeepsBooks(z: Hazards, run: seq<Sys>, i: nat)
    requires IsRun(z, run) && i < |run|
    ensures Books(run[i])
  {
    hide Books, LeadsTo;
    if i == 0 {
      InitIsOrderly(run[0]);
    } else {
      RunKeepsBooks(z, run, i - 1);
      assert LeadsTo(z, run[i - 1], run[i - 1 + 1]);
      LeadingKeepsBooks(z, run[i - 1], run[i]);
    }
  }

  /** Whatever the hazards, a parent's `done` is how often its children were counted. */
  lemma DoneIsCounted(z: Hazards, s: Sys, p: Id)
    requires Reachable(z, s) && p in s.rows && IsParentRow(s.rows[p])
    ensures s.rows[p].done == Some(CountedFor(s.submitted, s.counted, p))
  {
    hide IsRun;
    var run, i: nat :| IsRun(z, run) && i < |run| && run[i] == s;
    RunKeepsBooks(z, run, i);
    assert ParentBooks(s, p);
    hide CountedFor;
  }

  lemma LeadingKeepsOrder(s: Sys, s': Sys)
    requires Orderly(s) && LeadsTo(NONE, s, s')
    ensures Orderly(s')
  {
    hide Orderly, After;
    var step :| Enabled(s, step) && Allowed(NONE, s, step) && s' == After(s, step);
    StepKeepsOrder(s, step);
  }

  lemma {:induction false} RunKeepsOrder(run: seq<Sys>, i: nat)
    requires IsRun(NONE, run) && i < |run|
    ensures Orderly(run[i])
  {
    hide Orderly, LeadsTo;
    if i == 0 {
      InitIsOrderly(run[0]);
    } else {
      RunKeepsOrder(run, i - 1);
      assert LeadsTo(NONE, run[i - 1], run[i - 1 + 1]);
      LeadingKeepsOrder(run[i - 1], run[i]);
    }
  }

  lemma OrderlyCountsOnce(s: Sys)
    requires Orderly(s)
    ensures CountsOnce(s)
  {
    hide CountedFor;
    forall c ensures multiset(s.counted)[c] <= 1 {
      if c in s.counted {
        assert Tallied(s, c);
      } else {
        assert c !in multiset(s.counted);
      }
    }
  }

  /** Without hazards every child is counted once. */
  lemma NoHazardsCountOnce(s: Sys)
    requires Reachable(NONE, s)
    ensures Orderly(s) && CountsOnce(s)
  {
    hide IsRun, Orderly, CountsOnce;
    var run, i: nat :| IsRun(NONE, run) && i < |run| && run[i] == s;
    RunKeepsOrder(run, i);
    OrderlyCountsOnce(s);
  }

  // ---- what `done` then means -------------------------------------------------------------------------

  /** The children of `p` that ended, pruned ones included, and those counted whose row is about to end. */
  ghost function Accounted(s: Sys, p: Id): set<Id> {
    set c | c in s.submitted && s.submitted[c] == Some(p)
      && (JobQueueRuns.HasEnded(s.rows, c) || exists h :: h in s.open && h.id == c && s.open[h] == Counted)
  }

  lemma {:induction false} CountedOnceEach(sub: map<Id, Option<Id>>, counted: seq<Id>, p: Id, all: set<Id>)
    requires forall c :: multiset(counted)[c] <= 1
    requires forall c :: c in all <==> c in counted && c in sub && sub[c] == Some(p)
    ensures CountedFor(sub, counted, p) == |all|
  {
    if counted == [] {
      assert all == {};
    } else {
      var init, last := counted[..|counted| - 1], counted[|counted| - 1];
      assert counted == init + [last];
      assert multiset(counted) == multiset(init) + multiset{last};
      assert multiset(counted)[last] == multiset(init)[last] + 1;
      forall c ensures multiset(init)[c] <= 1 {
        assert multiset(counted)[c] <= 1;
      }
      CountedOnceEach(sub, init, p, all - {last});
    }
  }

  /** Without hazards a parent's `done` is the number of its accounted children. */
  lemma NoHazardsDone(s: Sys, p: Id)
    requires Reachable(NONE, s) && p in s.rows && IsParentRow(s.rows[p])
    ensures s.rows[p].done == Some(|Accounted(s, p)|)
  {
    DoneIsCounted(NONE, s, p);
    NoHazardsCountOnce(s);
    hide Reachable, CountedFor;
    forall c ensures c in Accounted(s, p) <==> c in s.counted && c in s.submitted && s.submitted[c] == Some(p) {
      AccountedIsCounted(s, p, c);
    }
    CountedOnceEach(s.submitted, s.counted, p, Accounted(s, p));
  }

  lemma AccountedIsCounted(s: Sys, p: Id, c: Id)
    requires Orderly(s)
    ensures c in Accounted(s, p) <==> c in s.counted && c in s.submitted && s.submitted[c] == Some(p)
  {
    hide CountedFor;
    if c in s.submitted && s.submitted[c] == Some(p) {
      assert Tallied(s, c);
      assert c in s.counted <==> multiset(s.counted)[c] > 0;
      if h :| h in s.open && h.id == c {
        assert c in Accounted(s, p) <==> s.open[h] == Counted;
      }
    }
  }
}
