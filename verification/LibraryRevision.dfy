/**
 The revision counter that detects stale scans (app/library.py, app/jobs.py, app/main.py):
 scans and writers interleave statement by statement, and a snapshot whose stamp equals the
 current revision was computed from what the library holds now.
 */
module LibraryRevision {
  import opened LibraryTables

  type Writer = nat
  type ScanId = nat

  /** What a scan depends on: per class with templates, its configuration and its templates. */
  type Input = map<string, (Config, seq<Template>)>

  datatype Scan =
    | Stamped(lib: LibId, revision: nat)
    | ClassesRead(lib: LibId, revision: nat, classes: map<ClassKey, ClassRow>)
    | Loaded(lib: LibId, revision: nat, input: Input)

  datatype Snapshot = Snapshot(lib: LibId, revision: nat, input: Input)

  /** A `Library` instance: the classes its cache knows. */
  datatype Instance = Instance(lib: LibId, known: set<string>)

  /** `written` holds every snapshot ever stored; a reader may have loaded any of them. */
  datatype Sys = Sys(db: Db, instances: map<Writer, Instance>, scans: map<ScanId, Scan>, written: set<Snapshot>)

  datatype Step =
    | CreateLibrary(lib: LibId)
    | Clone(source: LibId, lib: LibId, copies: seq<Template>)
    | OpenClasses(writer: Writer, lib: LibId)
    | OpenTemplates(writer: Writer)
    | AddClass(writer: Writer, name: string, rank: int, now: real)
    | Configure(lib: LibId, name: string, config: Config)
    | Insert(writer: Writer, template: Template)
    | Delete(id: TemplateId)
    | Move(writer: Writer, id: TemplateId, cls: string)
    | BeginScan(scan: ScanId, lib: LibId)
    | ScanClasses(scan: ScanId)
    | ScanTemplates(scan: ScanId)
    | WriteSnapshot(scan: ScanId)

  function ClassNames(db: Db, lib: LibId): set<string> { set key | key in db.classes && key.0 == lib :: key.1 }

  function TemplateClasses(db: Db, lib: LibId): set<string> { set t | t in db.templates && t.lib == lib :: t.cls }

  function OfLibrary(ts: seq<Template>, lib: LibId): seq<Template> {
    if ts == [] then [] else (if ts[0].lib == lib then [ts[0]] else []) + OfLibrary(ts[1..], lib)
  }

  /** New primary keys, everything else copied. */
  predicate AreCopies(copies: seq<Template>, originals: seq<Template>, lib: LibId) {
    && |copies| == |originals|
    && forall i :: 0 <= i < |copies| ==> copies[i] == originals[i].(id := copies[i].id, lib := lib)
  }

  predicate Enabled(s: Sys, step: Step) {
    match step
    case CreateLibrary(lib) => lib !in s.db.revisions
    case Clone(source, lib, copies) =>
      lib !in s.db.revisions && AreCopies(copies, OfLibrary(s.db.templates, source), lib)
    case OpenClasses(_, lib) => lib in s.db.revisions
    case OpenTemplates(w) => w in s.instances
    case AddClass(w, _, _, _) => w in s.instances
    case Configure(_, _, _) => true
    // `add_template_for_file` adds the class first when its cache does not know it
    case Insert(w, t) => w in s.instances && t.lib == s.instances[w].lib && t.cls in s.instances[w].known
    case Delete(_) => true
    case Move(w, id, cls) =>
      && w in s.instances && cls in s.instances[w].known
      && var row := FindRow(s.db.templates, id);
         row.Some? ==> s.db.templates[row.value].lib == s.instances[w].lib
    case BeginScan(_, lib) => lib in s.db.revisions
    case ScanClasses(id) => id in s.scans && s.scans[id].Stamped?
    case ScanTemplates(id) => id in s.scans && s.scans[id].ClassesRead?
    case WriteSnapshot(id) => id in s.scans && s.scans[id].Loaded?
  }

  ghost function After(s: Sys, step: Step): Sys
    requires Enabled(s, step)
  {
    match step
    case CreateLibrary(lib) => s.(db := s.db.(revisions := s.db.revisions[lib := 0]))
    case Clone(source, lib, copies) =>
      s.(db := Db(s.db.revisions[lib := 0],
                  s.db.classes + map key | key in s.db.classes && key.0 == source :: (lib, key.1) := s.db.classes[key],
                  s.db.templates + copies))
    case OpenClasses(w, lib) => s.(instances := s.instances[w := Instance(lib, ClassNames(s.db, lib))])
    case OpenTemplates(w) =>
      var i := s.instances[w];
      s.(instances := s.instances[w := i.(known := i.known + TemplateClasses(s.db, i.lib))])
    case AddClass(w, name, rank, now) =>
      var i := s.instances[w];
      s.(db := Upserted(s.db, i.lib, name, rank, now), instances := s.instances[w := i.(known := i.known + {name})])
    case Configure(lib, name, config) => s.(db := Configured(s.db, lib, name, config))
    case Insert(w, t) => s.(db := Inserted(s.db, t))
    case Delete(id) => s.(db := Deleted(s.db, id))
    case Move(w, id, cls) => s.(db := Moved(s.db, id, cls))
    case BeginScan(id, lib) => s.(scans := s.scans[id := Stamped(lib, CurrentRevision(s.db, lib))])
    case ScanClasses(id) =>
      s.(scans := s.scans[id := ClassesRead(s.scans[id].lib, s.scans[id].revision, s.db.classes)])
    case ScanTemplates(id) =>
      var scan := s.scans[id];
      s.(scans := s.scans[id := Loaded(scan.lib, scan.revision, ScanInput(scan.classes, s.db.templates, scan.lib))])
    case WriteSnapshot(id) =>
      var scan := s.scans[id];
      s.(scans := s.scans - {id}, written := s.written + {Snapshot(scan.lib, scan.revision, scan.input)})
  }

  ghost predicate IsRun(run: seq<Sys>) {
    && |run| > 0 && run[0] == Sys(Db(map[], map[], []), map[], map[], {})
    && forall i :: 0 <= i < |run| - 1 ==> exists step :: Enabled(run[i], step) && run[i + 1] == After(run[i], step)
  }

  /** What a scan of the library would use if it ran now. */
  ghost function Now(db: Db, lib: LibId): Input { ScanInput(db.classes, db.templates, lib) }

  // ---- templates of a class --------------------------------------------------------------------

  /** Replacing a stretch of rows of other libraries changes nothing for this one. */
  lemma OtherRowsDoNotMatter(ts: seq<Template>, i: nat, others: seq<Template>, lib: LibId, cls: string)
    requires i < |ts| && ts[i].lib != lib && (forall k :: 0 <= k < |others| ==> others[k].lib != lib)
    ensures TemplatesOf(ts[..i] + others + ts[i + 1..], lib, cls) == TemplatesOf(ts, lib, cls)
  {
    assert ts == ts[..i] + [ts[i]] + ts[i + 1..];
    TemplatesOfConcat(ts[..i] + others, ts[i + 1..], lib, cls);
    TemplatesOfConcat(ts[..i], others, lib, cls);
    TemplatesOfConcat(ts[..i] + [ts[i]], ts[i + 1..], lib, cls);
    TemplatesOfConcat(ts[..i], [ts[i]], lib, cls);
    NoneOf(others, lib, cls);
    NoneOf([ts[i]], lib, cls);
  }

  // ---- the invariant ------------------------------------------------------------------------------

  ghost predicate DbInv(db: Db) {
    && (forall key :: key in db.classes ==> key.0 in db.revisions)
    && (forall i :: 0 <= i < |db.templates| ==>
          db.templates[i].lib in db.revisions && (db.templates[i].lib, db.templates[i].cls) in db.classes)
  }

  /** Every class of `lib` with templates is in `classes`, and what is there is as in the database. */
  ghost predicate Agrees(classes: map<ClassKey, ClassRow>, db: Db, lib: LibId) {
    && (forall name :: TemplatesOf(db.templates, lib, name) != [] ==> (lib, name) in classes)
    && (forall name :: (lib, name) in classes ==>
      (lib, name) in db.classes && db.classes[(lib, name)].config == classes[(lib, name)].config)
  }

  ghost predicate ScanOk(db: Db, scan: Scan) {
    && scan.lib in db.revisions && scan.revision <= db.revisions[scan.lib]
    && (scan.revision == db.revisions[scan.lib] ==>
          match scan
          case Stamped(_, _) => true
          case ClassesRead(lib, _, classes) => Agrees(classes, db, lib)
          case Loaded(lib, _, input) => input == Now(db, lib))
  }

  ghost predicate Fresh(db: Db, snap: Snapshot) {
    && snap.lib in db.revisions && snap.revision <= db.revisions[snap.lib]
    && (snap.revision == db.revisions[snap.lib] ==> snap.input == Now(db, snap.lib))
  }

  ghost predicate Inv(s: Sys) {
    && DbInv(s.db)
    && (forall w :: w in s.instances ==>
          s.instances[w].lib in s.db.revisions && forall c :: c in s.instances[w].known ==>
            (s.instances[w].lib, c) in s.db.classes)
    && (forall id :: id in s.scans ==> ScanOk(s.db, s.scans[id]))
    && (forall snap :: snap in s.written ==> Fresh(s.db, snap))
  }

  /** A write either bumps the library or leaves everything a scan of it depends on. */
  ghost predicate Harmless(db: Db, db': Db, lib: LibId) {
    && lib in db.revisions && lib in db'.revisions && db.revisions[lib] <= db'.revisions[lib]
    && (db.revisions[lib] == db'.revisions[lib] ==>
          && (forall name :: TemplatesOf(db'.templates, lib, name) == TemplatesOf(db.templates, lib, name))
          && (forall name :: (lib, name) in db.classes ==>
                (lib, name) in db'.classes && db'.classes[(lib, name)].config == db.classes[(lib, name)].config)
          && (forall name :: (lib, name) in db'.classes && (lib, name) !in db.classes ==>
                TemplatesOf(db.templates, lib, name) == []))
  }

  lemma NothingUnderFreshClass(db: Db, lib: LibId, name: string)
    requires DbInv(db) && (lib, name) !in db.classes
    ensures TemplatesOf(db.templates, lib, name) == []
  {
    NoneOf(db.templates, lib, name);
  }

  lemma DeleteIsHarmless(db: Db, id: TemplateId, lib: LibId)
    requires DbInv(db) && lib in db.revisions
    ensures Harmless(db, Deleted(db, id), lib)
  {
    var row := FindRow(db.templates, id);
    if row.Some? && db.templates[row.value].lib != lib {
      var i := row.value;
      forall name ensures TemplatesOf(Deleted(db, id).templates, lib, name) == TemplatesOf(db.templates, lib, name) {
        OtherRowsDoNotMatter(db.templates, i, [], lib, name);
        assert db.templates[..i] + [] + db.templates[i + 1..] == db.templates[..i] + db.templates[i + 1..];
      }
    }
  }

  lemma MoveIsHarmless(db: Db, id: TemplateId, cls: string, lib: LibId)
    requires DbInv(db) && lib in db.revisions
    ensures Harmless(db, Moved(db, id, cls), lib)
  {
    var row := FindRow(db.templates, id);
    if row.Some? && db.templates[row.value].lib != lib {
      var i := row.value;
      var moved := db.templates[i].(cls := cls);
      forall name ensures TemplatesOf(Moved(db, id, cls).templates, lib, name) == TemplatesOf(db.templates, lib, name) {
        OtherRowsDoNotMatter(db.templates, i, [moved], lib, name);
        assert db.templates[..i] + [moved] + db.templates[i + 1..] == db.templates[i := moved];
      }
    }
  }

  lemma AppendIsHarmless(db: Db, ts: seq<Template>, lib: LibId, name: string)
    requires forall k :: 0 <= k < |ts| ==> ts[k].lib != lib
    ensures TemplatesOf(db.templates + ts, lib, name) == TemplatesOf(db.templates, lib, name)
  {
    TemplatesOfConcat(db.templates, ts, lib, name);
    NoneOf(ts, lib, name);
  }

  lemma InsertIsHarmless(db: Db, t: Template, lib: LibId)
    requires DbInv(db) && t.lib in db.revisions && lib in db.revisions
    ensures Harmless(db, Inserted(db, t), lib)
  {
    hide TemplatesOf;
    if t.lib != lib {
      forall name ensures TemplatesOf(db.templates + [t], lib, name) == TemplatesOf(db.templates, lib, name) {
        AppendIsHarmless(db, [t], lib, name);
      }
    }
  }

  lemma CloneIsHarmless(s: Sys, step: Step, lib: LibId)
    requires DbInv(s.db) && step.Clone? && Enabled(s, step) && lib in s.db.revisions
    ensures Harmless(s.db, After(s, step).db, lib)
  {
    hide TemplatesOf;
    forall name ensures TemplatesOf(s.db.templates + step.copies, lib, name) == TemplatesOf(s.db.templates, lib, name) {
      AppendIsHarmless(s.db, step.copies, lib, name);
    }
  }

  /** Every step bumps the revision of a library or leaves its scan input alone. */
  lemma StepIsHarmless(s: Sys, step: Step, lib: LibId)
    requires Inv(s) && Enabled(s, step) && lib in s.db.revisions
    ensures Harmless(s.db, After(s, step).db, lib)
  {
    hide ScanOk, Fresh, TemplatesOf, FindRow, ScanInput, Deleted, Moved;
    match step {
      case Delete(id) => DeleteIsHarmless(s.db, id, lib);
      case Move(_, id, cls) => MoveIsHarmless(s.db, id, cls, lib);
      case Insert(_, t) => InsertIsHarmless(s.db, t, lib);
      case Clone(_, _, _) => CloneIsHarmless(s, step, lib);
      case AddClass(w, name, _, _) =>
        if s.instances[w].lib == lib && (lib, name) !in s.db.classes { NothingUnderFreshClass(s.db, lib, name); }
      case _ =>
    }
  }

  lemma SameInput(db: Db, db': Db, lib: LibId)
    requires DbInv(db) && Harmless(db, db', lib) && db.revisions[lib] == db'.revisions[lib]
    ensures Now(db', lib) == Now(db, lib)
    ensures forall classes :: Agrees(classes, db, lib) ==> Agrees(classes, db', lib)
  {
    hide TemplatesOf;
    forall name ensures name in Now(db', lib) <==> name in Now(db, lib) {
      if TemplatesOf(db.templates, lib, name) != [] && (lib, name) !in db.classes {
        NothingUnderFreshClass(db, lib, name);
      }
    }
    forall name | name in Now(db, lib) ensures Now(db', lib)[name] == Now(db, lib)[name] {
    }
  }

  lemma HarmlessKeepsScans(db: Db, db': Db, scan: Scan)
    requires DbInv(db) && ScanOk(db, scan) && Harmless(db, db', scan.lib)
    ensures ScanOk(db', scan)
  {
    hide Agrees, ScanInput;
    if db.revisions[scan.lib] == db'.revisions[scan.lib] { SameInput(db, db', scan.lib); }
  }

  lemma HarmlessKeepsFresh(db: Db, db': Db, snap: Snapshot)
    requires DbInv(db) && Fresh(db, snap) && Harmless(db, db', snap.lib)
    ensures Fresh(db', snap)
  {
    hide ScanInput;
    if db.revisions[snap.lib] == db'.revisions[snap.lib] { SameInput(db, db', snap.lib); }
  }

  lemma {:induction false} OfLibraryIsPart(ts: seq<Template>, lib: LibId)
    ensures forall i :: 0 <= i < |OfLibrary(ts, lib)| ==>
      OfLibrary(ts, lib)[i] in ts && OfLibrary(ts, lib)[i].lib == lib
  {
    if ts != [] { OfLibraryIsPart(ts[1..], lib); }
  }

  lemma CloneKeepsDb(s: Sys, step: Step)
    requires DbInv(s.db) && step.Clone? && Enabled(s, step)
    ensures DbInv(After(s, step).db)
    ensures forall key :: key in s.db.classes ==> key in After(s, step).db.classes
  {
    OfLibraryIsPart(s.db.templates, step.source);
    var originals := OfLibrary(s.db.templates, step.source);
    forall i | 0 <= i < |step.copies| ensures (step.lib, step.copies[i].cls) in After(s, step).db.classes {
      assert originals[i] in s.db.templates;
      assert (step.source, originals[i].cls) in s.db.classes;
    }
  }

  lemma StepKeepsDb(s: Sys, step: Step)
    requires Inv(s) && Enabled(s, step)
    ensures DbInv(After(s, step).db)
    ensures forall key :: key in s.db.classes ==> key in After(s, step).db.classes
  {
    hide ScanOk, Fresh, TemplatesOf, ScanInput;
    if step.Clone? {
      CloneKeepsDb(s, step);
    }
  }

  lemma AgreesWithItself(db: Db, lib: LibId)
    requires DbInv(db)
    ensures Agrees(db.classes, db, lib)
  {
    forall name | TemplatesOf(db.templates, lib, name) != [] ensures (lib, name) in db.classes {
      NoneOf(db.templates, lib, name);
    }
  }

  lemma AgreeingInput(classes: map<ClassKey, ClassRow>, db: Db, lib: LibId)
    requires DbInv(db) && Agrees(classes, db, lib)
    ensures ScanInput(classes, db.templates, lib) == Now(db, lib)
  {
    hide TemplatesOf;
    AgreesWithItself(db, lib);
    forall name ensures name in ScanInput(classes, db.templates, lib) <==> name in Now(db, lib) {
    }
  }

  predicate IsScanStep(step: Step) {
    step.BeginScan? || step.ScanClasses? || step.ScanTemplates? || step.WriteSnapshot?
  }

  /** A writer's step: the scans in flight and the snapshots stored stay sound. */
  lemma WriterStepKeeps(s: Sys, step: Step)
    requires Inv(s) && Enabled(s, step) && !IsScanStep(step)
    ensures var s' := After(s, step);
      && s'.scans == s.scans && s'.written == s.written
      && (forall id :: id in s.scans ==> ScanOk(s'.db, s.scans[id]))
      && (forall snap :: snap in s.written ==> Fresh(s'.db, snap))
  {
    var s' := After(s, step);
    forall id | id in s.scans ensures ScanOk(s'.db, s.scans[id]) {
      StepIsHarmless(s, step, s.scans[id].lib);
      HarmlessKeepsScans(s.db, s'.db, s.scans[id]);
    }
    forall snap | snap in s.written ensures Fresh(s'.db, snap) {
      StepIsHarmless(s, step, snap.lib);
      HarmlessKeepsFresh(s.db, s'.db, snap);
    }
  }

  /** A scan's step leaves the database alone and moves one sound scan on. */
  lemma ScanStepKeeps(s: Sys, step: Step)
    requires Inv(s) && Enabled(s, step) && IsScanStep(step)
    ensures var s' := After(s, step);
      && s'.db == s.db
      && (forall id :: id in s'.scans ==> ScanOk(s.db, s'.scans[id]))
      && (forall snap :: snap in s'.written ==> Fresh(s.db, snap))
  {
    hide ScanInput, Agrees;
    match step {
      case BeginScan(id, lib) =>
      case ScanClasses(id) => AgreesWithItself(s.db, s.scans[id].lib);
      case ScanTemplates(id) =>
        if Agrees(s.scans[id].classes, s.db, s.scans[id].lib) {
          AgreeingInput(s.scans[id].classes, s.db, s.scans[id].lib);
        }
      case WriteSnapshot(id) => assert ScanOk(s.db, s.scans[id]);
    }
  }

  lemma StepKeeps(s: Sys, step: Step)
    requires Inv(s) && Enabled(s, step)
    ensures Inv(After(s, step))
  {
    hide ScanOk, Fresh, DbInv, After, Enabled;
    StepKeepsDb(s, step);
    InstancesKeep(s, step);
    if IsScanStep(step) { ScanStepKeeps(s, step); } else { WriterStepKeeps(s, step); }
  }

  lemma InstancesKeep(s: Sys, step: Step)
    requires Inv(s) && Enabled(s, step)
    ensures var s' := After(s, step);
      forall w :: w in s'.instances ==>
        s'.instances[w].lib in s'.db.revisions && forall c :: c in s'.instances[w].known ==>
          (s'.instances[w].lib, c) in s'.db.classes
  {
    hide ScanOk, Fresh, TemplatesOf, ScanInput;
    StepKeepsDb(s, step);
  }

  lemma {:induction false} ReachableInv(run: seq<Sys>, i: nat)
    requires IsRun(run) && i < |run|
    ensures Inv(run[i])
  {
    hide Enabled, After, DbInv, ScanOk, Fresh;
    if i == 0 {
      EmptyIsFine();
    } else {
      ReachableInv(run, i - 1);
      assert 0 <= i - 1 < |run| - 1;
      var step :| Enabled(run[i - 1], step) && run[i - 1 + 1] == After(run[i - 1], step);
      StepKeeps(run[i - 1], step);
    }
  }

  lemma EmptyIsFine()
    ensures DbInv(Db(map[], map[], []))
  {
  }

  // ---- the theorem ------------------------------------------------------------------------------------

  /** `prematch`: stale unless the stamp equals the current revision. */
  predicate Stale(db: Db, snap: Snapshot) { snap.revision != CurrentRevision(db, snap.lib) }

  /**
   No false fresh: a snapshot that is not reported stale was computed from exactly the
   configurations and templates the library holds now, class by class. This rests on the stamp
   being read before the load: read after it, a template inserted in between is in the revision
   of the snapshot and not in its input.
   */
  lemma NotStaleMeansCurrent(run: seq<Sys>, i: nat, snap: Snapshot)
    requires IsRun(run) && i < |run| && snap in run[i].written
    requires !Stale(run[i].db, snap)
    ensures snap.input == Now(run[i].db, snap.lib)
  {
    ReachableInv(run, i);
    assert Fresh(run[i].db, snap);
  }

  // ---- staleness is exact ----------------------------------------------------------------------------

  /** `steps` is what happened along the run. */
  ghost predicate IsRunBy(run: seq<Sys>, steps: seq<Step>) {
    && |run| == |steps| + 1 && run[0] == Sys(Db(map[], map[], []), map[], map[], {})
    && forall i :: 0 <= i < |steps| ==> Enabled(run[i], steps[i]) && run[i + 1] == After(run[i], steps[i])
  }

  /** A write to what a scan of the library depends on: a class configured, a template inserted, deleted or moved. */
  predicate Writes(db: Db, step: Step, lib: LibId) {
    match step
    case Configure(l, name, _) => l == lib && (lib, name) in db.classes
    case Insert(_, t) => t.lib == lib
    case Delete(id) =>
      var row := FindRow(db.templates, id);
      row.Some? && db.templates[row.value].lib == lib
    case Move(_, id, _) =>
      var row := FindRow(db.templates, id);
      row.Some? && db.templates[row.value].lib == lib
    case _ => false
  }

  /** Each such write raises the revision by one, and nothing else changes it. */
  lemma WritesRaise(s: Sys, step: Step, lib: LibId)
    requires Enabled(s, step) && lib in s.db.revisions
    ensures lib in After(s, step).db.revisions
    ensures After(s, step).db.revisions[lib] == s.db.revisions[lib] + if Writes(s.db, step, lib) then 1 else 0
  {
    hide FindRow, TemplatesOf, ScanInput, AreCopies, OfLibrary;
  }

  lemma {:induction false} RevisionCountsWrites(run: seq<Sys>, steps: seq<Step>, j: nat, i: nat, lib: LibId)
    requires IsRunBy(run, steps) && j <= i < |run| && lib in run[j].db.revisions
    ensures lib in run[i].db.revisions && run[j].db.revisions[lib] <= run[i].db.revisions[lib]
    ensures run[j].db.revisions[lib] == run[i].db.revisions[lib] <==>
      forall m :: j <= m < i ==> !Writes(run[m].db, steps[m], lib)
  {
    hide After, Enabled, Writes;
    if j < i {
      RevisionCountsWrites(run, steps, j, i - 1, lib);
      assert run[i - 1 + 1] == After(run[i - 1], steps[i - 1]);
      WritesRaise(run[i - 1], steps[i - 1], lib);
    }
  }

  /** The scan keeps the stamp it began with. */
  ghost predicate Carries(s: Sys, id: ScanId, lib: LibId, revision: nat) {
    id in s.scans && s.scans[id].lib == lib && s.scans[id].revision == revision
  }

  lemma {:induction false} ScanKeepsStamp(run: seq<Sys>, steps: seq<Step>, j: nat, i: nat, id: ScanId)
    requires IsRunBy(run, steps) && j < i < |run| && steps[j].BeginScan? && steps[j].scan == id
    requires forall m :: j < m < i ==>
      !(steps[m].BeginScan? && steps[m].scan == id) && !(steps[m].WriteSnapshot? && steps[m].scan == id)
    ensures Carries(run[i], id, steps[j].lib, CurrentRevision(run[j].db, steps[j].lib))
  {
    hide FindRow, TemplatesOf, ScanInput;
    assert run[i - 1 + 1] == After(run[i - 1], steps[i - 1]);
    if j < i - 1 {
      ScanKeepsStamp(run, steps, j, i - 1, id);
    }
  }

  lemma {:induction false} SnapshotsStay(run: seq<Sys>, steps: seq<Step>, j: nat, i: nat)
    requires IsRunBy(run, steps) && j <= i < |run|
    ensures run[j].written <= run[i].written
  {
    if j < i {
      SnapshotsStay(run, steps, j, i - 1);
      assert run[i - 1 + 1] == After(run[i - 1], steps[i - 1]);
      hide FindRow, TemplatesOf, ScanInput;
    }
  }

  /**
   A snapshot is stale exactly when the library was written to since its scan began: no sooner,
   and for no other reason.
   */
  lemma StaleIffWritten(run: seq<Sys>, steps: seq<Step>, j: nat, k: nat, i: nat)
    returns (snap: Snapshot)
    requires IsRunBy(run, steps) && j < k < i < |run|
    requires steps[j].BeginScan? && steps[k] == WriteSnapshot(steps[j].scan)
    requires forall m :: j < m < k ==>
      !(steps[m].BeginScan? && steps[m].scan == steps[j].scan) && steps[m] != WriteSnapshot(steps[j].scan)
    ensures snap in run[i].written && snap.lib == steps[j].lib
    ensures Stale(run[i].db, snap) <==> exists m :: j <= m < i && Writes(run[m].db, steps[m], steps[j].lib)
  {
    var id, lib := steps[j].scan, steps[j].lib;
    assert Enabled(run[j], steps[j]);
    ScanKeepsStamp(run, steps, j, k, id);
    snap := Snapshot(lib, CurrentRevision(run[j].db, lib), run[k].scans[id].input);
    assert run[k + 1] == After(run[k], steps[k]) && Enabled(run[k], steps[k]);
    assert snap in run[k + 1].written;
    SnapshotsStay(run, steps, k + 1, i);
    RevisionCountsWrites(run, steps, j, i, lib);
    hide Writes, After, Enabled, IsRunBy;
  }
}
