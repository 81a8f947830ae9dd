/**
 Which hazards let a child be counted twice: each of the three on its own does, and nothing else.
 */
module DoubleCounts {
  import opened Wrappers
  import opened JobTable
  import opened ChildCounts

  const PARENT: Id := 0
  const CHILD: Id := 1

  function ParentRow(done: nat): Row { NewRow(Running, None, Some(2), Some(done), 0.0) }

  const WAITING: Row := NewRow(Queued, Some(PARENT), None, None, 0.0)

  /** The child after its `n`th claim. */
  function Held(w: Worker, n: nat, at: real): Row {
    WAITING.(status := Running, claimedBy := Some(w), startedAt := Some(at), heartbeatAt := Some(at), attempts := n)
  }

  /** The child requeued after that claim. */
  function Back(w: Worker, n: nat, at: real): Row {
    Held(w, n, at).(status := Queued, claimedBy := None, heartbeatAt := None)
  }

  /** The parent and one of its two children, the child counted `done` times. */
  function At(child: Row, done: nat, open: map<Handling, Phase>, crashed: set<Worker>): Sys {
    Sys(map[PARENT := ParentRow(done), CHILD := child], map[PARENT := None, CHILD := Some(PARENT)], {PARENT},
        open, crashed, {}, seq(done, _ => CHILD))
  }

  function By(w: Worker): Handling { Handling(w, CHILD, ByClaim) }

  function Listing(w: Worker): Handling { Handling(w, CHILD, ByList) }

  lemma StepLeads(z: Hazards, s: Sys, step: Step, s': Sys)
    requires Enabled(s, step) && Allowed(z, s, step) && s' == After(s, step)
    ensures LeadsTo(z, s, s')
  {
  }

  lemma ReachOn(z: Hazards, s: Sys, s': Sys)
    requires Reachable(z, s) && LeadsTo(z, s, s')
    ensures Reachable(z, s')
  {
    hide LeadsTo;
    var run: seq<Sys>, i: nat :| IsRun(z, run) && i < |run| && run[i] == s;
    var longer := run[..i + 1] + [s'];
    assert longer[i + 1] == s' && longer[i] == s;
    assert IsRun(z, longer);
  }

  // ---- shared steps ------------------------------------------------------------------------------

  lemma Submitted(z: Hazards)
    ensures Reachable(z, At(WAITING, 0, map[], {}))
  {
    var s0 := Sys(map[], map[], {}, map[], {}, {}, []);
    var s1 := Sys(map[PARENT := ParentRow(0)], map[PARENT := None], {PARENT}, map[], {}, {}, []);
    assert IsRun(z, [s0]) && [s0][0] == s0;
    StepLeads(z, s0, InsertParent(PARENT, 2, 0.0), s1);
    ReachOn(z, s0, s1);
    StepLeads(z, s1, InsertJob(CHILD, Some(PARENT), 0.0), At(WAITING, 0, map[], {}));
    ReachOn(z, s1, At(WAITING, 0, map[], {}));
  }

  /** A worker claims the queued child. */
  lemma Claims(z: Hazards, child: Row, w: Worker, now: real, done: nat, open: map<Handling, Phase>,
               crashed: set<Worker>)
    requires Reachable(z, At(child, done, open, crashed)) && w !in crashed
    requires child == WAITING || exists v, at :: child == Back(v, child.attempts, at)
    ensures Reachable(z, At(Held(w, child.attempts + 1, now), done, open[By(w) := Holding], crashed))
  {
    var s, s' := At(child, done, open, crashed),
      At(Held(w, child.attempts + 1, now), done, open[By(w) := Holding], crashed);
    assert s'.rows == Claimed(s.rows, CHILD, w, now);
    StepLeads(z, s, Claim(w, CHILD, now), s');
    ReachOn(z, s, s');
  }

  /** Upkeep more than 120 seconds later puts the child back, when that is allowed. */
  lemma Requeues(z: Hazards, w: Worker, n: nat, at: real, done: nat, open: map<Handling, Phase>, crashed: set<Worker>)
    requires Reachable(z, At(Held(w, n, at), done, open, crashed)) && n < MAX_ATTEMPTS
    requires z.takesLive || open == map[]
    ensures Reachable(z, At(Back(w, n, at), done, open, crashed))
  {
    var s, s' := At(Held(w, n, at), done, open, crashed), At(Back(w, n, at), done, open, crashed);
    var now := at + STALE_AFTER_SECONDS + 1.0;
    assert s'.rows == Requeued(s.rows, now);
    StepLeads(z, s, Requeue(now), s');
    ReachOn(z, s, s');
  }

  lemma Crashes(z: Hazards, child: Row, w: Worker, done: nat, phase: Phase, crashed: set<Worker>)
    requires Reachable(z, At(child, done, map[By(w) := phase], crashed)) && (z.crashesMidway || phase == Holding)
    ensures Reachable(z, At(child, done, map[], crashed + {w}))
  {
    var s, s' := At(child, done, map[By(w) := phase], crashed), At(child, done, map[], crashed + {w});
    StepLeads(z, s, Crash(w), s');
    ReachOn(z, s, s');
  }

  lemma Counts(z: Hazards, child: Row, done: nat, open: map<Handling, Phase>, h: Handling, crashed: set<Worker>)
    requires Reachable(z, At(child, done, open, crashed)) && h in open && open[h] == Holding && h.id == CHILD
    ensures Reachable(z, At(child, done + 1, open[h := Counted], crashed))
  {
    var s, s' := At(child, done, open, crashed), At(child, done + 1, open[h := Counted], crashed);
    assert s'.rows == Incremented(s.rows, PARENT);
    assert s'.counted == s.counted + [CHILD];
    StepLeads(z, s, Count(h), s');
    ReachOn(z, s, s');
  }

  lemma Lists(z: Hazards, v: Worker, at: real, w: Worker, open: map<Handling, Phase>, crashed: set<Worker>)
    requires Reachable(z, At(Held(v, MAX_ATTEMPTS, at), 0, open, crashed)) && w !in crashed
    requires forall h :: h in open ==> h.cause == ByList && z.listsTwice
    ensures Reachable(z, At(Held(v, MAX_ATTEMPTS, at), 0, open[Listing(w) := Holding], crashed))
  {
    var s, s' := At(Held(v, MAX_ATTEMPTS, at), 0, open, crashed),
      At(Held(v, MAX_ATTEMPTS, at), 0, open[Listing(w) := Holding], crashed);
    var now := at + STALE_AFTER_SECONDS + 1.0;
    assert StaleExhausted(s.rows, now) == {CHILD};
    assert s'.open == After(s, List(w, now)).open;
    StepLeads(z, s, List(w, now), s');
    ReachOn(z, s, s');
  }

  lemma TwiceIsNotOnce(z: Hazards, child: Row, open: map<Handling, Phase>, crashed: set<Worker>)
    requires Reachable(z, At(child, 2, open, crashed))
    ensures !AlwaysCountsOnce(z)
  {
    var s := At(child, 2, open, crashed);
    assert s.counted == [CHILD, CHILD];
    assert multiset(s.counted)[CHILD] == 2;
    assert !CountsOnce(s);
  }

  // ---- one hazard each ------------------------------------------------------------------------------

  /** The first worker is still at it when upkeep takes the job; both count. */
  lemma TakingLiveDoubles(z: Hazards)
    requires z.takesLive
    ensures !AlwaysCountsOnce(z)
  {
    hide Reachable, AlwaysCountsOnce;
    Submitted(z);
    Claims(z, WAITING, 7, 0.0, 0, map[], {});
    var open := map[][By(7) := Holding];
    Requeues(z, 7, 1, 0.0, 0, open, {});
    Claims(z, Back(7, 1, 0.0), 8, 121.0, 0, open, {});
    var both := open[By(8) := Holding];
    Counts(z, Held(8, 2, 121.0), 0, both, By(8), {});
    Counts(z, Held(8, 2, 121.0), 1, both[By(8) := Counted], By(7), {});
    TwiceIsNotOnce(z, Held(8, 2, 121.0), both[By(8) := Counted][By(7) := Counted], {});
  }

  /** The first worker counts and crashes; the job is claimed again and counted again. */
  lemma CrashingMidwayDoubles(z: Hazards)
    requires z.crashesMidway
    ensures !AlwaysCountsOnce(z)
  {
    hide Reachable, AlwaysCountsOnce;
    Submitted(z);
    Claims(z, WAITING, 7, 0.0, 0, map[], {});
    Counts(z, Held(7, 1, 0.0), 0, map[][By(7) := Holding], By(7), {});
    assert map[][By(7) := Holding][By(7) := Counted] == map[By(7) := Counted];
    Crashes(z, Held(7, 1, 0.0), 7, 1, Counted, {});
    Requeues(z, 7, 1, 0.0, 1, map[], {} + {7});
    Claims(z, Back(7, 1, 0.0), 8, 121.0, 1, map[], {} + {7});
    Counts(z, Held(8, 2, 121.0), 1, map[][By(8) := Holding], By(8), {} + {7});
    TwiceIsNotOnce(z, Held(8, 2, 121.0), map[][By(8) := Holding][By(8) := Counted], {} + {7});
  }

  /** Claimed and lost by one worker after another, until no attempt is left. */
  lemma {:induction false} Exhausts(z: Hazards, n: nat) returns (crashed: set<Worker>)
    requires 1 <= n <= MAX_ATTEMPTS
    ensures Reachable(z, At(Held(n, n, 121.0 * n as real), 0, map[], crashed))
    ensures forall w :: w in crashed ==> w <= n
  {
    hide Reachable;
    if n == 1 {
      Submitted(z);
      Claims(z, WAITING, 1, 121.0, 0, map[], {});
      crashed := {} + {1};
      assert map[][By(1) := Holding] == map[By(1) := Holding];
      Crashes(z, Held(1, 1, 121.0), 1, 0, Holding, {});
    } else {
      crashed := Exhausts(z, n - 1);
      var before := 121.0 * (n - 1) as real;
      Requeues(z, n - 1, n - 1, before, 0, map[], crashed);
      Claims(z, Back(n - 1, n - 1, before), n, 121.0 * n as real, 0, map[], crashed);
      assert map[][By(n) := Holding] == map[By(n) := Holding];
      Crashes(z, Held(n, n, 121.0 * n as real), n, 0, Holding, crashed);
      crashed := crashed + {n};
    }
  }

  /** Two workers list the exhausted job before either has failed it; both count. */
  lemma ListingTwiceDoubles(z: Hazards)
    requires z.listsTwice
    ensures !AlwaysCountsOnce(z)
  {
    hide Reachable, AlwaysCountsOnce;
    var crashed := Exhausts(z, MAX_ATTEMPTS);
    var at := 121.0 * MAX_ATTEMPTS as real;
    var row := Held(MAX_ATTEMPTS, MAX_ATTEMPTS, at);
    Lists(z, MAX_ATTEMPTS, at, 7, map[], crashed);
    var one := map[][Listing(7) := Holding];
    Lists(z, MAX_ATTEMPTS, at, 8, one, crashed);
    var both := one[Listing(8) := Holding];
    Counts(z, row, 0, both, Listing(7), crashed);
    Counts(z, row, 1, both[Listing(7) := Counted], Listing(8), crashed);
    TwiceIsNotOnce(z, row, both[Listing(7) := Counted][Listing(8) := Counted], crashed);
  }

  /**
   All runs count every child once if and only if upkeep takes no job from a worker that still
   handles it, no worker crashes between counting a child and ending it, and no two upkeeps list the
   same exhausted job.
   */
  lemma CountsOnceIff(z: Hazards)
    ensures AlwaysCountsOnce(z) <==> !z.takesLive && !z.crashesMidway && !z.listsTwice
  {
    hide Reachable, CountsOnce;
    if z.takesLive {
      TakingLiveDoubles(z);
    } else if z.crashesMidway {
      CrashingMidwayDoubles(z);
    } else if z.listsTwice {
      ListingTwiceDoubles(z);
    } else {
      assert z == NONE;
      forall s | Reachable(z, s) ensures CountsOnce(s) {
        NoHazardsCountOnce(s);
      }
    }
  }
}
