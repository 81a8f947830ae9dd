/**
 Several `Library` instances over one store (app/library.py, `LibraryRegistry.get` builds one
 for each request). Each deduplicates against what it loaded and has added itself, not against
 what the store holds by then.
 */
module LibraryInstances {
  import opened Signatures
  import opened LibraryTables
  import opened LibraryStores

  type InstanceId = nat

  /** What one instance serves: its library and the templates in its cache (`Library.Held`). */
  datatype Instance = Instance(lib: LibId, held: set<Template>)

  /** The stored rows, the instances alive, and every template id ever given out. */
  datatype World = World(rows: seq<Template>, instances: map<InstanceId, Instance>, used: set<TemplateId>)

  datatype Step =
    | Load(who: InstanceId, lib: LibId)
    | Add(who: InstanceId, template: Template)
    | Delete(who: InstanceId, id: TemplateId)

  ghost predicate Init(w: World) {
    w.instances == map[] && UniqueIds(w.rows) && forall t :: t in w.rows ==> t.id in w.used
  }

  ghost predicate Enabled(w: World, step: Step) {
    match step
    case Load(_, _) => true
    case Add(i, t) => i in w.instances && t.lib == w.instances[i].lib && t.id !in w.used
    case Delete(i, _) => i in w.instances
  }

  ghost predicate HasTwin(held: set<Template>, t: Template) { exists u :: u in held && SameKey(u, t) }

  ghost predicate StoredTwin(rows: seq<Template>, t: Template) { exists k :: 0 <= k < |rows| && SameKey(rows[k], t) }

  /** The steps are what `Library.Load`, `AddTemplateForFile` and `DeleteTemplate` do to cache and rows. */
  ghost function After(w: World, step: Step): World
    requires Enabled(w, step)
  {
    match step
    case Load(i, lib) => w.(instances := w.instances[i := Instance(lib, RowsOf(w.rows, lib))])
    case Add(i, t) =>
      var me := w.instances[i];
      if HasTwin(me.held, t) then w
      else World(w.rows + [t], w.instances[i := me.(held := me.held + {t})], w.used + {t.id})
    case Delete(i, id) =>
      var me := w.instances[i];
      var rest := set u | u in me.held && u.id != id;
      if rest == me.held then w
      else w.(rows := Without(w.rows, id), instances := w.instances[i := me.(held := rest)])
  }

  ghost predicate LeadsTo(w: World, step: Step, w': World) {
    Enabled(w, step) && w' == After(w, step)
  }

  ghost predicate IsRun(run: seq<World>, steps: seq<Step>) {
    && |run| == |steps| + 1 && Init(run[0])
    && forall k :: 0 <= k < |steps| ==> LeadsTo(run[k], steps[k], run[k + 1])
  }

  // ---- the invariant ---------------------------------------------------------------------------

  ghost predicate Inv(w: World) {
    && UniqueIds(w.rows) && (forall t :: t in w.rows ==> t.id in w.used)
    && (forall i, t :: i in w.instances && t in w.instances[i].held ==> t.id in w.used && t.lib == w.instances[i].lib)
  }

  lemma CutHas(ts: seq<Template>, i: nat)
    requires UniqueIds(ts) && i < |ts|
    ensures forall t :: t in ts[..i] + ts[i + 1..] <==> t in ts && t.id != ts[i].id
  {
    var rest := ts[..i] + ts[i + 1..];
    forall k | 0 <= k < |ts| && k != i ensures ts[k] in rest {
      assert rest[if k < i then k else k - 1] == ts[k];
    }
    forall k | 0 <= k < |rest| ensures rest[k] in ts && rest[k].id != ts[i].id {
      assert rest[k] == ts[if k < i then k else k + 1];
    }
  }

  lemma CutKeepsIds(ts: seq<Template>, i: nat)
    requires UniqueIds(ts) && i < |ts|
    ensures UniqueIds(ts[..i] + ts[i + 1..])
  {
  }

  lemma WithoutHas(ts: seq<Template>, id: TemplateId)
    requires UniqueIds(ts)
    ensures UniqueIds(Without(ts, id))
    ensures forall t :: t in Without(ts, id) <==> t in ts && t.id != id
  {
    hide UniqueIds;
    if FindRow(ts, id).Some? {
      CutHas(ts, FindRow(ts, id).value);
      CutKeepsIds(ts, FindRow(ts, id).value);
    }
  }

  lemma StepKeeps(w: World, step: Step)
    requires Inv(w) && Enabled(w, step)
    ensures Inv(After(w, step))
  {
    if step.Delete? { WithoutHas(w.rows, step.id); }
    hide SameKey, Without;
  }

  lemma {:induction false} ReachableInv(run: seq<World>, steps: seq<Step>, k: nat)
    requires IsRun(run, steps) && k < |run|
    ensures Inv(run[k])
  {
    hide Inv, Enabled, After;
    if k == 0 {
      assert Inv(run[0]) by { InitInv(run[0]); }
    } else {
      ReachableInv(run, steps, k - 1);
      assert LeadsTo(run[k - 1], steps[k - 1], run[k - 1 + 1]);
      StepKeeps(run[k - 1], steps[k - 1]);
    }
  }

  lemma InitInv(w: World)
    requires Init(w)
    ensures Inv(w)
  {
  }

  // ---- since an instance loaded ------------------------------------------------------------------

  /** Instance `i`, in use at step `n`, was loaded by step `l`. */
  ghost predicate LoadedAt(steps: seq<Step>, l: nat, n: nat, i: InstanceId) {
    && l < n <= |steps| && steps[l].Load? && steps[l].who == i
    && forall m :: l < m < n ==> !(steps[m].Load? && steps[m].who == i)
  }

  /** Between its load and step `n` another instance stored `u`. */
  ghost predicate StoredByOther(run: seq<World>, steps: seq<Step>, l: nat, n: nat, i: InstanceId, u: Template)
    requires n <= |steps| < |run|
  {
    exists m :: l < m < n && steps[m].who != i && steps[m].Add? && u !in run[m].rows && u in run[m + 1].rows
  }

  /** Between its load and step `n` another instance deleted `u`. */
  ghost predicate DeletedByOther(run: seq<World>, steps: seq<Step>, l: nat, n: nat, i: InstanceId, u: Template)
    requires n <= |steps| < |run|
  {
    exists m :: l < m < n && steps[m].who != i && steps[m].Delete? && u in run[m].rows && u !in run[m + 1].rows
  }

  /** The cache is the library's rows, up to what other instances stored or deleted since the load. */
  ghost predicate Follows(run: seq<World>, steps: seq<Step>, l: nat, n: nat, i: InstanceId)
    requires n <= |steps| < |run|
  {
    && i in run[n].instances
    && var me := run[n].instances[i];
    && (forall r :: r in run[n].rows && r.lib == me.lib ==> r in me.held || StoredByOther(run, steps, l, n, i, r))
    && (forall h :: h in me.held ==> h in run[n].rows || DeletedByOther(run, steps, l, n, i, h))
  }

  /** What one step of anyone does to the rows and to the cache of `i`. */
  lemma OneStep(w: World, step: Step, i: InstanceId)
    requires Inv(w) && Enabled(w, step) && i in w.instances && !(step.Load? && step.who == i)
    ensures var w' := After(w, step);
      && i in w'.instances && w'.instances[i].lib == w.instances[i].lib
      && (forall r :: r in w'.rows && r !in w.rows ==> step.Add? && (step.who == i ==> r in w'.instances[i].held))
      && (forall r :: r in w.rows && r !in w'.rows ==> step.Delete? && (step.who == i ==> r !in w'.instances[i].held))
      && (forall r :: r in w.instances[i].held && r !in w'.instances[i].held ==> r !in w'.rows)
      && (forall r :: r in w'.instances[i].held && r !in w.instances[i].held ==> r in w'.rows)
  {
    hide SameKey, Without;
    if step.Delete? { WithoutHas(w.rows, step.id); }
  }

  lemma FollowsNext(run: seq<World>, steps: seq<Step>, l: nat, n: nat, i: InstanceId)
    requires IsRun(run, steps) && n < |steps| && LoadedAt(steps, l, n + 1, i) && l < n
    requires Inv(run[n]) && Follows(run, steps, l, n, i)
    ensures Follows(run, steps, l, n + 1, i)
  {
    assert LeadsTo(run[n], steps[n], run[n + 1]);
    hide Inv, After;
    OneStep(run[n], steps[n], i);
    var w, w' := run[n], run[n + 1];
    var me := w'.instances[i];
    forall r | r in w'.rows && r.lib == me.lib ensures r in me.held || StoredByOther(run, steps, l, n + 1, i, r) {
      if r in w.rows && r !in w.instances[i].held {
        assert StoredByOther(run, steps, l, n, i, r);
      }
    }
    forall h | h in me.held ensures h in w'.rows || DeletedByOther(run, steps, l, n + 1, i, h) {
      if h in w.instances[i].held && h !in w.rows {
        assert DeletedByOther(run, steps, l, n, i, h);
      }
    }
  }

  lemma FollowsFirst(run: seq<World>, steps: seq<Step>, l: nat, i: InstanceId)
    requires IsRun(run, steps) && l < |steps| && LoadedAt(steps, l, l + 1, i)
    ensures Follows(run, steps, l, l + 1, i)
  {
    assert LeadsTo(run[l], steps[l], run[l + 1]);
  }

  lemma {:induction false} CacheFollows(run: seq<World>, steps: seq<Step>, l: nat, n: nat, i: InstanceId)
    requires IsRun(run, steps) && LoadedAt(steps, l, n, i)
    ensures Follows(run, steps, l, n, i)
    decreases n
  {
    hide Init, LeadsTo, Inv, Follows;
    if n == l + 1 {
      FollowsFirst(run, steps, l, i);
    } else {
      CacheFollows(run, steps, l, n - 1, i);
      ReachableInv(run, steps, n - 1);
      FollowsNext(run, steps, l, n - 1, i);
    }
  }

  // ---- adding ------------------------------------------------------------------------------------

  /** Another instance stored a template with the key of `t` since the load, and it is still there. */
  ghost predicate TwinByOther(run: seq<World>, steps: seq<Step>, l: nat, n: nat, i: InstanceId, t: Template)
    requires n <= |steps| < |run|
  {
    exists u :: u in run[n].rows && SameKey(u, t) && StoredByOther(run, steps, l, n, i, u)
  }

  /**
   An add stores a second template with the same class and signature if and only if the instance
   knows of none and another instance stored one, still there, since this instance loaded.
   */
  lemma AddDuplicatesIff(run: seq<World>, steps: seq<Step>, l: nat, n: nat, i: InstanceId, t: Template)
    requires IsRun(run, steps) && n < |steps| && steps[n] == Add(i, t) && LoadedAt(steps, l, n, i)
    ensures i in run[n].instances
    ensures (run[n + 1].rows == run[n].rows + [t] && StoredTwin(run[n].rows, t)) <==>
            !HasTwin(run[n].instances[i].held, t) && TwinByOther(run, steps, l, n, i, t)
  {
    CacheFollows(run, steps, l, n, i);
    assert LeadsTo(run[n], steps[n], run[n + 1]);
    hide IsRun, SameKey, StoredByOther, DeletedByOther;
    var w := run[n];
    if StoredTwin(w.rows, t) && !HasTwin(w.instances[i].held, t) {
      var k :| 0 <= k < |w.rows| && SameKey(w.rows[k], t);
      TwinsShareLibrary(w.rows[k], t);
      assert w.rows[k] in w.rows && StoredByOther(run, steps, l, n, i, w.rows[k]);
    }
    if HasTwin(w.instances[i].held, t) { assert |run[n + 1].rows| == |w.rows|; }
  }

  lemma TwinsShareLibrary(u: Template, t: Template)
    requires SameKey(u, t)
    ensures u.lib == t.lib
  {
  }

  /** An id that was given out and is not stored stays away. */
  lemma StaysGone(w: World, step: Step, w': World, u: Template)
    requires Inv(w) && LeadsTo(w, step, w') && u.id in w.used && u !in w.rows
    ensures u.id in w'.used && u !in w'.rows
  {
    hide HasTwin, Without, RowsOf;
    if step.Delete? { WithoutHas(w.rows, step.id); }
  }

  /** A row that was deleted never comes back, since ids are never given out twice. */
  lemma {:induction false} GoneForGood(run: seq<World>, steps: seq<Step>, m: nat, n: nat, u: Template)
    requires IsRun(run, steps) && m < n < |run| && u in run[m].rows && u !in run[m + 1].rows
    ensures u !in run[n].rows && u.id in run[n].used
    decreases n
  {
    hide LeadsTo, Init;
    ReachableInv(run, steps, n - 1);
    assert LeadsTo(run[n - 1], steps[n - 1], run[n - 1 + 1]);
    if n == m + 1 {
      UsedStaysUsed(run[m], steps[m], run[n], u.id);
    } else {
      GoneForGood(run, steps, m, n - 1, u);
      StaysGone(run[n - 1], steps[n - 1], run[n], u);
    }
  }

  lemma UsedStaysUsed(w: World, step: Step, w': World, id: TemplateId)
    requires LeadsTo(w, step, w') && id in w.used
    ensures id in w'.used
  {
  }

  /**
   An add leaves no template with its class and signature stored if and only if the instance
   knows of some, every one of which another instance deleted since the load, and no other
   instance stored a new one.
   */
  lemma AddIsLostIff(run: seq<World>, steps: seq<Step>, l: nat, n: nat, i: InstanceId, t: Template)
    requires IsRun(run, steps) && n < |steps| && steps[n] == Add(i, t) && LoadedAt(steps, l, n, i)
    ensures i in run[n].instances
    ensures !StoredTwin(run[n + 1].rows, t) <==>
      var held := run[n].instances[i].held;
      && HasTwin(held, t) && !TwinByOther(run, steps, l, n, i, t)
      && forall h :: h in held && SameKey(h, t) ==> DeletedByOther(run, steps, l, n, i, h)
  {
    CacheFollows(run, steps, l, n, i);
    assert LeadsTo(run[n], steps[n], run[n + 1]);
    var w, held := run[n], run[n].instances[i].held;
    forall h | h in held && DeletedByOther(run, steps, l, n, i, h) ensures h !in w.rows {
      var m :| l < m < n && steps[m].Delete? && h in run[m].rows && h !in run[m + 1].rows;
      GoneForGood(run, steps, m, n, h);
    }
    hide IsRun, StoredByOther, DeletedByOther, Signature;
    if !HasTwin(held, t) { assert run[n + 1].rows[|w.rows|] == t && SameKey(t, t); }
    if u :| u in w.rows && SameKey(u, t) {
      var k :| 0 <= k < |w.rows| && w.rows[k] == u;
      assert StoredTwin(w.rows, t);
    }
  }

  // ---- whole runs ----------------------------------------------------------------------------------

  /** Step `n` adds a template that the instance does not know and another stored since it loaded. */
  ghost predicate Interfered(run: seq<World>, steps: seq<Step>, n: nat)
    requires IsRun(run, steps) && n < |steps|
  {
    steps[n].Add?
    && var i, t := steps[n].who, steps[n].template;
    && i in run[n].instances && !HasTwin(run[n].instances[i].held, t)
    && exists l: nat :: LoadedAt(steps, l, n, i) && TwinByOther(run, steps, l, n, i, t)
  }

  /** Every instance in use was loaded by an earlier step. */
  lemma {:induction false} WasLoaded(run: seq<World>, steps: seq<Step>, n: nat, i: InstanceId) returns (l: nat)
    requires IsRun(run, steps) && n < |run| && i in run[n].instances
    ensures LoadedAt(steps, l, n, i)
  {
    hide SameKey, HasTwin, Without;
    assert n > 0;
    assert LeadsTo(run[n - 1], steps[n - 1], run[n - 1 + 1]);
    if steps[n - 1].Load? && steps[n - 1].who == i {
      l := n - 1;
    } else {
      l := WasLoaded(run, steps, n - 1, i);
    }
  }

  lemma StepDuplicates(run: seq<World>, steps: seq<Step>, n: nat)
    requires IsRun(run, steps) && n < |steps| && NoDuplicates(run[n].rows)
    ensures NoDuplicates(run[n + 1].rows) <==> !Interfered(run, steps, n)
  {
    var w, step := run[n], steps[n];
    assert LeadsTo(w, step, run[n + 1]);
    match step {
      case Load(_, _) =>
      case Delete(_, id) => WithoutKeeps(w.rows, id);
      case Add(i, t) =>
        var l := WasLoaded(run, steps, n, i);
        AddDuplicatesIff(run, steps, l, n, i, t);
        OneLoad(run, steps, n, i, l, t);
        hide IsRun, TwinByOther, LoadedAt;
        AppendDuplicates(w.rows, t);
        if HasTwin(w.instances[i].held, t) { assert run[n + 1].rows == w.rows; }
    }
  }

  lemma OneLoad(run: seq<World>, steps: seq<Step>, n: nat, i: InstanceId, l: nat, t: Template)
    requires n <= |steps| < |run| && LoadedAt(steps, l, n, i)
    ensures (exists k: nat :: LoadedAt(steps, k, n, i) && TwinByOther(run, steps, k, n, i, t)) <==>
            TwinByOther(run, steps, l, n, i, t)
  {
    hide TwinByOther;
    forall k: nat | LoadedAt(steps, k, n, i) ensures k == l {
    }
  }

  lemma AppendDuplicates(ts: seq<Template>, t: Template)
    requires NoDuplicates(ts)
    ensures NoDuplicates(ts + [t]) <==> !StoredTwin(ts, t)
  {
    hide SameKey;
    if k :| 0 <= k < |ts| && SameKey(ts[k], t) {
      assert (ts + [t])[k] == ts[k] && (ts + [t])[|ts|] == t;
    }
  }

  ghost predicate NeverDuplicates(run: seq<World>) { forall k :: 0 <= k < |run| ==> NoDuplicates(run[k].rows) }

  /**
   In runs of loads, adds and deletes by any number of instances no class ever holds two templates
   with one signature if and only if no add is interfered with.
   */
  lemma RunsKeepNoDuplicates(run: seq<World>, steps: seq<Step>)
    requires IsRun(run, steps) && NoDuplicates(run[0].rows)
    ensures NeverDuplicates(run) <==> forall n: nat :: n < |steps| ==> !Interfered(run, steps, n)
  {
    hide Init, LeadsTo, NoDuplicates, Interfered;
    if forall n: nat :: n < |steps| ==> !Interfered(run, steps, n) {
      for k := 1 to |run|
        invariant forall j :: 0 <= j < k ==> NoDuplicates(run[j].rows)
      {
        StepDuplicates(run, steps, k - 1);
      }
    }
    if NeverDuplicates(run) {
      forall n: nat | n < |steps| ensures !Interfered(run, steps, n) {
        assert NoDuplicates(run[n].rows) && NoDuplicates(run[n + 1].rows);
        StepDuplicates(run, steps, n);
      }
    }
  }

  /** Nobody else adds between the load of an instance and its adds. */
  ghost predicate TakesTurns(steps: seq<Step>) {
    forall l: nat, n: nat, m: nat, i: InstanceId |
      && n < |steps| && LoadedAt(steps, l, n, i) && steps[n].Add? && steps[n].who == i
      && l < m < n && steps[m].Add? :: steps[m].who == i
  }

  /** Instances that take turns never store a duplicate. */
  lemma TurnsKeepNoDuplicates(run: seq<World>, steps: seq<Step>)
    requires IsRun(run, steps) && NoDuplicates(run[0].rows) && TakesTurns(steps)
    ensures NeverDuplicates(run)
  {
    RunsKeepNoDuplicates(run, steps);
    hide Init, LeadsTo, SameKey, NoDuplicates;
    forall n: nat | n < |steps| ensures !Interfered(run, steps, n) {
    }
  }

  lemma FirstLoad(w: World, i: InstanceId, lib: LibId, w': World)
    requires w.rows == [] && w' == w.(instances := w.instances[i := Instance(lib, {})])
    ensures LeadsTo(w, Load(i, lib), w')
  {
    assert RowsOf([], lib) == {};
  }

  /** An instance that knows nothing stores whatever it is given. */
  lemma FirstAddLands(w: World, i: InstanceId, t: Template, w': World)
    requires Enabled(w, Add(i, t)) && w.instances[i].held == {}
    requires w' == World(w.rows + [t], w.instances[i := Instance(t.lib, {t})], w.used + {t.id})
    ensures LeadsTo(w, Add(i, t), w')
  {
    assert {} + {t} == {t};
  }

  /** Two requests that both load before either adds: every pair of templates with one key ends up stored. */
  lemma TwoInstancesDuplicate(t: Template, u: Template)
    requires SameKey(t, u) && t.id != u.id
    ensures exists run: seq<World>, steps: seq<Step> ::
      IsRun(run, steps) && run[0].rows == [] && run[|run| - 1].rows == [t, u]
    ensures !NoDuplicates([t, u])
  {
    assert t.lib == u.lib;
    hide SameKey, LeadsTo;
    var idle := Instance(t.lib, {});
    var w0, w1 := World([], map[], {}), World([], map[][0 := idle], {});
    var w2 := World([], w1.instances[1 := idle], {});
    var w3 := World([] + [t], w2.instances[0 := Instance(t.lib, {t})], {} + {t.id});
    var w4 := World([] + [t] + [u], w3.instances[1 := Instance(u.lib, {u})], {} + {t.id} + {u.id});
    FirstLoad(w0, 0, t.lib, w1);
    FirstLoad(w1, 1, t.lib, w2);
    FirstAddLands(w2, 0, t, w3);
    FirstAddLands(w3, 1, u, w4);
    assert IsRun([w0, w1, w2, w3, w4], [Load(0, t.lib), Load(1, t.lib), Add(0, t), Add(1, u)]);
    assert w4.rows == [t, u];
    assert [t, u][0] == t && [t, u][1] == u;
  }
}
