/** The product edit lock (app/auth.py): one row per product, heartbeat and a time to live. */
module EditLocks {
  import opened Wrappers

  type Product = nat
  type User = nat

  const LOCK_TTL_SECONDS: real := 300.0

  datatype Lock = Lock(heldBy: User, acquiredAt: real, heartbeatAt: real)

  type Locks = map<Product, Lock>

  datatype LockStatus = LockStatus(acquired: bool, heldBy: User, heartbeatAt: real)

  predicate Expired(l: Lock, now: real) { l.heartbeatAt < now - LOCK_TTL_SECONDS }

  /** `lock_holder`: the current live holder. */
  function Holder(locks: Locks, p: Product, now: real): Option<User> {
    if p !in locks || Expired(locks[p], now) then None else Some(locks[p].heldBy)
  }

  // ---- the statements ----------------------------------------------------------------------

  /** The rows the conditional UPDATE of an acquire touches. */
  predicate MayTake(locks: Locks, p: Product, v: User, now: real) {
    p in locks && (locks[p].heldBy == v || Expired(locks[p], now))
  }

  function Taken(locks: Locks, p: Product, v: User, now: real): Locks { locks[p := Lock(v, now, now)] }

  function Beaten(locks: Locks, p: Product, v: User, now: real): Locks {
    if p in locks && locks[p].heldBy == v then locks[p := locks[p].(heartbeatAt := now)] else locks
  }

  function Released(locks: Locks, p: Product, actor: User, force: bool): Locks {
    if p in locks && (force || locks[p].heldBy == actor) then locks - {p} else locks
  }

  class AuthStore {
    var locks: Locks

    /** Run without interleaving: v gets the lock exactly when nobody else holds it. */
    method AcquireLock(p: Product, v: User, now: real) returns (s: LockStatus)
      modifies this
      ensures s.acquired <==> Holder(old(locks), p, now) in {None, Some(v)}
      ensures s.acquired ==> s == LockStatus(true, v, now) && locks == Taken(old(locks), p, v, now)
      ensures s.acquired ==> Holder(locks, p, now) == Some(v)
      ensures !s.acquired ==> locks == old(locks) && Holder(locks, p, now) == Some(s.heldBy) && s.heldBy != v
      ensures !s.acquired ==> p in locks && s.heartbeatAt == locks[p].heartbeatAt
      ensures s.acquired <==> p !in old(locks) || old(locks)[p].heldBy == v || old(locks)[p].heartbeatAt < now - 300.0
      ensures s.acquired ==> locks == old(locks)[p := Lock(v, now, now)]
    {
      if p in locks && (locks[p].heldBy == v || locks[p].heartbeatAt < now - LOCK_TTL_SECONDS) {
        locks := locks[p := Lock(v, now, now)];
        return LockStatus(true, v, now);
      }
      if p !in locks {
        locks := locks[p := Lock(v, now, now)];
        return LockStatus(true, v, now);
      }
      return LockStatus(false, locks[p].heldBy, locks[p].heartbeatAt);
    }

    method HeartbeatLock(p: Product, v: User, now: real) returns (held: bool)
      modifies this
      ensures locks == Beaten(old(locks), p, v, now)
      ensures held <==> p in old(locks) && old(locks)[p].heldBy == v
      ensures held ==> Holder(locks, p, now) == Some(v)
      ensures locks == if held then old(locks)[p := old(locks)[p].(heartbeatAt := now)] else old(locks)
    {
      held := p in locks && locks[p].heldBy == v;
      if held { locks := locks[p := locks[p].(heartbeatAt := now)]; }
    }

    method LockHolder(p: Product, now: real) returns (holder: Option<User>)
      ensures holder == Holder(locks, p, now)
    {
      if p !in locks || locks[p].heartbeatAt < now - LOCK_TTL_SECONDS { return None; }
      return Some(locks[p].heldBy);
    }

    method ReleaseLock(p: Product, actor: User, force: bool) returns (gone: bool)
      modifies this
      ensures locks == Released(old(locks), p, actor, force)
      ensures gone <==> p in old(locks) && (force || old(locks)[p].heldBy == actor)
      ensures gone ==> forall now :: Holder(locks, p, now) == None
      ensures locks == if gone then old(locks) - {p} else old(locks)
    {
      gone := p in locks && (force || locks[p].heldBy == actor);
      if gone { locks := locks - {p}; }
    }
  }

  // ---- interleavings -------------------------------------------------------------------------

  type Replica = nat

  datatype Stage = Inserting | Reading

  /** An acquire between two of its statements, with the clock reading it began with. */
  datatype Pending = Pending(product: Product, user: User, now: real, stage: Stage)

  datatype Sys = Sys(locks: Locks, pending: map<Replica, Pending>, clock: real)

  /** One statement of one replica; `now` is read before the statement runs, so it may lag the clock. */
  datatype Step =
    | Update(replica: Replica, product: Product, user: User, now: real)
    | Insert(replica: Replica)
    | Read(replica: Replica)
    | Beat(product: Product, user: User, now: real)
    | Release(product: Product, actor: User, force: bool)
    | Pass(until: real)

  datatype Outcome = Won(winner: User) | Lost(holder: User) | RowGone | NotYet

  predicate Enabled(s: Sys, step: Step) {
    match step
    case Update(r, _, _, now) => r !in s.pending && now <= s.clock
    case Insert(r) => r in s.pending && s.pending[r].stage == Inserting
    case Read(r) => r in s.pending && s.pending[r].stage == Reading
    case Beat(_, _, now) => now <= s.clock
    case Release(_, _, _) => true
    case Pass(until) => s.clock <= until
  }

  function After(s: Sys, step: Step): Sys
    requires Enabled(s, step)
  {
    match step
    case Update(r, p, v, now) =>
      if MayTake(s.locks, p, v, now) then s.(locks := Taken(s.locks, p, v, now))
      else s.(pending := s.pending[r := Pending(p, v, now, Inserting)])
    case Insert(r) =>
      var a := s.pending[r];
      if a.product !in s.locks
      then s.(locks := Taken(s.locks, a.product, a.user, a.now), pending := s.pending - {r})
      else s.(pending := s.pending[r := a.(stage := Reading)])
    case Read(r) => s.(pending := s.pending - {r})
    case Beat(p, v, now) => s.(locks := Beaten(s.locks, p, v, now))
    case Release(p, actor, force) => s.(locks := Released(s.locks, p, actor, force))
    case Pass(until) => s.(clock := until)
  }

  /** The product and user an acquire statement works for. */
  predicate AcquiresFor(s: Sys, step: Step, p: Product, v: User)
    requires Enabled(s, step)
  {
    match step
    case Update(_, q, w, _) => q == p && w == v
    case Insert(r) => s.pending[r].product == p && s.pending[r].user == v
    case Read(r) => s.pending[r].product == p && s.pending[r].user == v
    case _ => false
  }

  function OutcomeOf(s: Sys, step: Step): Outcome
    requires Enabled(s, step)
  {
    match step
    case Update(_, p, v, now) => if MayTake(s.locks, p, v, now) then Won(v) else NotYet
    case Insert(r) => if s.pending[r].product !in s.locks then Won(s.pending[r].user) else NotYet
    case Read(r) => if s.pending[r].product in s.locks then Lost(s.locks[s.pending[r].product].heldBy) else RowGone
    case _ => NotYet
  }

  datatype Run = Run(states: seq<Sys>, steps: seq<Step>) {
    ghost predicate Valid() {
      && |states| == |steps| + 1
      && forall i :: 0 <= i < |steps| ==> Enabled(states[i], steps[i]) && states[i + 1] == After(states[i], steps[i])
    }
  }

  /** The timestamp of u's last heartbeat among steps `i..j`, or `since` when there is none. */
  function LastBeat(steps: seq<Step>, i: nat, j: nat, p: Product, u: User, since: real): real
    requires i <= j <= |steps|
    decreases j
  {
    if i == j then since
    else
      match steps[j - 1]
      case Beat(q, w, now) => if q == p && w == u then now else LastBeat(steps, i, j - 1, p, u, since)
      case Update(_, q, w, now) => if q == p && w == u then now else LastBeat(steps, i, j - 1, p, u, since)
      case _ => LastBeat(steps, i, j - 1, p, u, since)
  }

  /** What u does from state `i` to `k`: beats often enough, and neither u nor an admin releases. */
  ghost predicate StaysEditing(run: Run, i: nat, k: nat, p: Product, u: User, since: real)
    requires run.Valid() && i <= k < |run.states|
  {
    && (forall j :: i <= j <= k ==> run.states[j].clock <= LastBeat(run.steps, i, j, p, u, since) + LOCK_TTL_SECONDS)
    && (forall j :: i <= j < k && run.steps[j].Release? && run.steps[j].product == p ==>
          !run.steps[j].force && run.steps[j].actor != u)
  }

  ghost predicate HeldBy(s: Sys, p: Product, u: User, beat: real) {
    p in s.locks && s.locks[p].heldBy == u && s.locks[p].heartbeatAt == beat
  }

  lemma StepKeepsHolder(s: Sys, step: Step, p: Product, u: User, beat: real)
    requires Enabled(s, step) && HeldBy(s, p, u, beat) && s.clock <= beat + LOCK_TTL_SECONDS
    requires step.Release? && step.product == p ==> !step.force && step.actor != u
    ensures HeldBy(After(s, step), p, u,
                   if (step.Beat? || step.Update?) && step.product == p && step.user == u then step.now else beat)
  {
  }

  /** In any interleaving an editor who keeps beating stays the holder of the row. */
  lemma {:induction false} EditorKeepsRow(run: Run, i: nat, k: nat, p: Product, u: User, since: real)
    requires run.Valid() && i <= k < |run.states|
    requires HeldBy(run.states[i], p, u, since) && StaysEditing(run, i, k, p, u, since)
    ensures HeldBy(run.states[k], p, u, LastBeat(run.steps, i, k, p, u, since))
    decreases k
  {
    if i < k {
      EditorKeepsRow(run, i, k - 1, p, u, since);
      assert Enabled(run.states[k - 1], run.steps[k - 1])
        && run.states[k - 1 + 1] == After(run.states[k - 1], run.steps[k - 1]);
      hide After, Enabled;
      StepKeepsHolder(run.states[k - 1], run.steps[k - 1], p, u, LastBeat(run.steps, i, k - 1, p, u, since));
    }
  }

  /**
   The lock protects its editor: at every instant `lock_holder` is u, no other user's acquire
   statement wins, and one that fails names u.
   */
  lemma EditorIsProtected(run: Run, i: nat, k: nat, p: Product, u: User, since: real, now: real, step: Step, v: User)
    requires run.Valid() && i <= k < |run.states|
    requires HeldBy(run.states[i], p, u, since) && StaysEditing(run, i, k, p, u, since)
    requires now <= run.states[k].clock
    requires Enabled(run.states[k], step) && v != u && AcquiresFor(run.states[k], step, p, v)
    ensures Holder(run.states[k].locks, p, now) == Some(u)
    ensures OutcomeOf(run.states[k], step) == if step.Read? then Lost(u) else NotYet
    ensures p in After(run.states[k], step).locks && After(run.states[k], step).locks[p] == run.states[k].locks[p]
  {
    EditorKeepsRow(run, i, k, p, u, since);
  }

  /** Winning makes the winner the holder, so two racing acquires cannot both win within the time to live. */
  lemma WinnerHolds(s: Sys, step: Step, p: Product, v: User)
    requires Enabled(s, step) && AcquiresFor(s, step, p, v) && OutcomeOf(s, step) == Won(v)
    ensures exists beat :: HeldBy(After(s, step), p, v, beat)
    ensures OutcomeOf(s, step).Won? ==> Holder(s.locks, p, s.clock) in {None, Some(v)}
  {
    var now := if step.Update? then step.now else s.pending[step.replica].now;
    assert HeldBy(After(s, step), p, v, now);
  }

  /** The reach of the guarantee: a gap longer than the time to live lets another user in. */
  lemma LateEditorLosesLock(s: Sys, p: Product, u: User, v: User, r: Replica, beat: real)
    requires HeldBy(s, p, u, beat) && v != u && r !in s.pending
    ensures beat + LOCK_TTL_SECONDS < s.clock <==>
      Enabled(s, Update(r, p, v, s.clock)) && OutcomeOf(s, Update(r, p, v, s.clock)) == Won(v)
  {
  }

  // ---- a loser with nobody to name -----------------------------------------------------------

  /** The step deletes the row of `p`. */
  predicate Drops(s: Sys, step: Step, p: Product) {
    step.Release? && step.product == p && p in s.locks && (step.force || step.actor == s.locks[p].heldBy)
  }

  /** The step is an acquire of `p` that wins. */
  predicate Wins(s: Sys, step: Step, p: Product)
    requires Enabled(s, step)
  {
    OutcomeOf(s, step).Won? && AcquiresFor(s, step, p, OutcomeOf(s, step).winner)
  }

  /** Some step from `i` to `k` deletes the row of `p`, and no acquire after it wins the row again. */
  ghost predicate DroppedBetween(run: Run, i: nat, k: nat, p: Product)
    requires run.Valid() && k < |run.states|
  {
    exists m :: i <= m < k && Drops(run.states[m], run.steps[m], p)
      && forall j :: m < j < k ==> !Wins(run.states[j], run.steps[j], p)
  }

  lemma StepOnRow(s: Sys, step: Step, p: Product)
    requires Enabled(s, step)
    ensures p in After(s, step).locks <==> Wins(s, step, p) || (p in s.locks && !Drops(s, step, p))
    ensures Wins(s, step, p) ==> !Drops(s, step, p)
  {
  }

  lemma {:induction false} GoneIff(run: Run, i: nat, k: nat, p: Product)
    requires run.Valid() && i <= k < |run.states| && p in run.states[i].locks
    ensures p !in run.states[k].locks <==> DroppedBetween(run, i, k, p)
    decreases k
  {
    if i < k {
      GoneIff(run, i, k - 1, p);
      var s, step := run.states[k - 1], run.steps[k - 1];
      assert Enabled(s, step) && run.states[k - 1 + 1] == After(s, step);
      StepOnRow(s, step, p);
      hide After, Enabled, Drops, Wins;
      if p !in run.states[k].locks && p !in s.locks {
        var m :| i <= m < k - 1 && Drops(run.states[m], run.steps[m], p)
          && forall j :: m < j < k - 1 ==> !Wins(run.states[j], run.steps[j], p);
        assert forall j :: m < j < k ==> !Wins(run.states[j], run.steps[j], p);
        assert DroppedBetween(run, i, k, p);
      } else if p !in run.states[k].locks {
        assert Drops(run.states[k - 1], run.steps[k - 1], p);
      }
      if DroppedBetween(run, i, k, p) {
        var m :| i <= m < k && Drops(run.states[m], run.steps[m], p)
          && forall j :: m < j < k ==> !Wins(run.states[j], run.steps[j], p);
        assert m < k - 1 ==> DroppedBetween(run, i, k - 1, p) && !Wins(s, step, p);
      }
    }
  }

  /** After a lost INSERT the replica still has its SELECT to do, for the same product. */
  lemma {:induction false} ReadStaysPending(run: Run, i: nat, k: nat, r: Replica, p: Product)
    requires run.Valid() && i <= k < |run.states|
    requires r in run.states[i].pending && run.states[i].pending[r].stage == Reading
             && run.states[i].pending[r].product == p
    requires forall j :: i <= j < k ==> run.steps[j] != Read(r)
    ensures r in run.states[k].pending && run.states[k].pending[r].stage == Reading
            && run.states[k].pending[r].product == p
    decreases k
  {
    if i < k {
      ReadStaysPending(run, i, k - 1, r, p);
      assert Enabled(run.states[k - 1], run.steps[k - 1])
        && run.states[k - 1 + 1] == After(run.states[k - 1], run.steps[k - 1]);
    }
  }

  /**
   An acquire that lost its INSERT at step `i` finds no holder to name at its SELECT if and only if
   the row was released in between and no acquire won it since; otherwise it names whoever holds the
   row by then.
   */
  lemma RowGoneIff(run: Run, i: nat, k: nat, r: Replica)
    requires run.Valid() && i < k < |run.steps|
    requires run.steps[i] == Insert(r) && OutcomeOf(run.states[i], run.steps[i]) == NotYet
    requires run.steps[k] == Read(r) && forall j :: i < j < k ==> run.steps[j] != Read(r)
    ensures var p, outcome := run.states[i].pending[r].product, OutcomeOf(run.states[k], run.steps[k]);
      && (outcome == RowGone <==> DroppedBetween(run, i + 1, k, p))
      && (outcome != RowGone ==> p in run.states[k].locks && outcome == Lost(run.states[k].locks[p].heldBy))
  {
    var p := run.states[i].pending[r].product;
    assert Enabled(run.states[i], run.steps[i]) && run.states[i + 1] == After(run.states[i], run.steps[i]);
    ReadStaysPending(run, i + 1, k, r, p);
    GoneIff(run, i + 1, k, p);
  }

  /** While nobody releases the product, a losing acquire always has a holder to name. */
  lemma LoserIsTold(run: Run, i: nat, k: nat, r: Replica)
    requires run.Valid() && i < k < |run.steps|
    requires run.steps[i] == Insert(r) && OutcomeOf(run.states[i], run.steps[i]) == NotYet
    requires run.steps[k] == Read(r) && forall j :: i < j < k ==> run.steps[j] != Read(r)
    requires forall j :: i < j < k && run.steps[j].Release? ==>
      run.steps[j].product != run.states[i].pending[r].product
    ensures OutcomeOf(run.states[k], run.steps[k]).Lost?
  {
    RowGoneIff(run, i, k, r);
    hide Wins;
  }

  /**
   From any live lock of somebody else an acquire can end with nobody to name: the holder releases
   before its SELECT.
   */
  lemma LoserFindsNobody(s: Sys, p: Product, u: User, v: User, r: Replica, beat: real)
    requires HeldBy(s, p, u, beat) && s.clock <= beat + LOCK_TTL_SECONDS && v != u && r !in s.pending
    ensures exists run: Run ::
      && run.Valid() && |run.steps| == 4 && run.states[0] == s
      && run.steps[0] == Update(r, p, v, s.clock) && OutcomeOf(run.states[3], run.steps[3]) == RowGone
  {
    var steps := [Update(r, p, v, s.clock), Insert(r), Release(p, u, false), Read(r)];
    var s1 := After(s, steps[0]);
    var s2 := After(s1, steps[1]);
    var s3 := After(s2, steps[2]);
    var run := Run([s, s1, s2, s3, After(s3, steps[3])], steps);
    assert run.Valid();
    assert OutcomeOf(run.states[3], run.steps[3]) == RowGone;
  }
}
