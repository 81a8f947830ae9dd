/**
 `Store` and `Library` (app/library.py): the write-through cache of one library and the
 deduplication it performs on adding a template.
 */
module LibraryStores {
  import opened Wrappers
  import opened Signatures
  import opened LibraryTables
  import opened Migration
  import opened Sorting

  // ---- deduplication, on the template rows -------------------------------------------------

  predicate SameKey(a: Template, b: Template) {
    a.lib == b.lib && a.cls == b.cls && Signature(a.points) == Signature(b.points)
  }

  ghost predicate NoDuplicates(ts: seq<Template>) {
    forall i, j :: 0 <= i < j < |ts| ==> !SameKey(ts[i], ts[j])
  }

  ghost predicate UniqueIds(ts: seq<Template>) {
    forall i, j :: 0 <= i < j < |ts| ==> ts[i].id != ts[j].id
  }

  /** Adding a template once: a row with the same key stands for it. */
  ghost function AddedOnce(ts: seq<Template>, t: Template): seq<Template> {
    if exists i :: 0 <= i < |ts| && SameKey(ts[i], t) then ts else ts + [t]
  }

  function Without(ts: seq<Template>, id: TemplateId): seq<Template> {
    match FindRow(ts, id)
    case None => ts
    case Some(i) => ts[..i] + ts[i + 1..]
  }

  lemma WithoutKeeps(ts: seq<Template>, id: TemplateId)
    requires NoDuplicates(ts)
    ensures NoDuplicates(Without(ts, id))
  {
    hide SameKey;
  }

  /** After adding, the class holds exactly one template with the new signature. */
  lemma AddedIsThereOnce(ts: seq<Template>, t: Template)
    requires NoDuplicates(ts)
    ensures var after := AddedOnce(ts, t);
      exists i :: 0 <= i < |after| && SameKey(after[i], t)
        && forall j :: 0 <= j < |after| && SameKey(after[j], t) ==> j == i
  {
    var after := AddedOnce(ts, t);
    if i :| 0 <= i < |ts| && SameKey(ts[i], t) {
      forall j | 0 <= j < |after| && SameKey(after[j], t) ensures j == i {
        if j < i { assert SameKey(ts[j], ts[i]); } else if i < j { assert SameKey(ts[i], ts[j]); }
      }
    } else {
      assert SameKey(after[|ts|], t);
    }
  }

  // ---- templates of a class ------------------------------------------------------------------

  lemma OneOf(t: Template, lib: LibId, cls: string)
    ensures TemplatesOf([t], lib, cls) == if t.lib == lib && t.cls == cls then [t] else []
  {
    assert [t][..0] == [];
  }

  /** Dropping a row drops it from its own class list, at its place there, and from no other. */
  lemma DroppedFrom(ts: seq<Template>, i: nat, lib: LibId, cls: string)
    requires i < |ts|
    ensures TemplatesOf(ts[..i] + ts[i + 1..], lib, cls) ==
      TemplatesOf(ts[..i], lib, cls) + TemplatesOf(ts[i + 1..], lib, cls)
    ensures TemplatesOf(ts, lib, cls) ==
      TemplatesOf(ts[..i], lib, cls) + (if ts[i].lib == lib && ts[i].cls == cls then [ts[i]] else [])
        + TemplatesOf(ts[i + 1..], lib, cls)
  {
    assert ts == ts[..i] + [ts[i]] + ts[i + 1..];
    TemplatesOfConcat(ts[..i], ts[i + 1..], lib, cls);
    TemplatesOfConcat(ts[..i] + [ts[i]], ts[i + 1..], lib, cls);
    TemplatesOfConcat(ts[..i], [ts[i]], lib, cls);
    OneOf(ts[i], lib, cls);
  }

  lemma PlaceInClass(ts: seq<Template>, i: nat, k: nat, lib: LibId, cls: string)
    requires UniqueIds(ts) && i < |ts| && ts[i].lib == lib && ts[i].cls == cls
    requires k < |TemplatesOf(ts, lib, cls)| && TemplatesOf(ts, lib, cls)[k].id == ts[i].id
    ensures k == |TemplatesOf(ts[..i], lib, cls)|
  {
    DroppedFrom(ts, i, lib, cls);
    var a, b := TemplatesOf(ts[..i], lib, cls), TemplatesOf(ts[i + 1..], lib, cls);
    MembersOf(ts[..i], lib, cls);
    MembersOf(ts[i + 1..], lib, cls);
    forall m | 0 <= m < |a| ensures a[m].id != ts[i].id {
      assert a[m] in ts[..i];
      var j :| 0 <= j < i && ts[j] == a[m];
    }
    forall m | 0 <= m < |b| ensures b[m].id != ts[i].id {
      assert b[m] in ts[i + 1..];
      var j :| i + 1 <= j < |ts| && ts[j] == b[m];
    }
  }

  /** The first template of the list with the signature of `points`. */
  method FirstWithKey(list: seq<Template>, points: PointSets) returns (place: Option<nat>)
    ensures place.Some? ==> place.value < |list| && Signature(list[place.value].points) == Signature(points)
                            && forall m :: 0 <= m < place.value ==> Signature(list[m].points) != Signature(points)
    ensures place.None? ==> forall m :: 0 <= m < |list| ==> Signature(list[m].points) != Signature(points)
  {
    hide Signature;
    var sig := TemplateSignature(points);
    for k := 0 to |list|
      invariant forall m :: 0 <= m < k ==> Signature(list[m].points) != sig
    {
      var other := TemplateSignature(list[k].points);
      if other == sig { return Some(k); }
    }
    return None;
  }

  /** The revision of one library, where it exists, is one higher, and the others are as they were. */
  ghost predicate RevisionBumped(was: map<LibId, nat>, after: map<LibId, nat>, lib: LibId) {
    && after.Keys == was.Keys
    && forall other :: other in after ==> after[other] == was[other] + if other == lib then 1 else 0
  }

  class Store {
    var db: Db

    /** Inserts a missing class after the last rank, at 0 in a library without classes. */
    method UpsertClass(lib: LibId, name: string, now: real) returns (ghost rank: int)
      modifies this
      ensures db == Upserted(old(db), lib, name, rank, now)
      ensures forall key :: key in old(db).classes && key.0 == lib ==> old(db).classes[key].rank < rank
      ensures (forall key :: key in old(db).classes ==> key.0 != lib) ==> rank == 0
      ensures (exists key :: key in old(db).classes && key.0 == lib) ==>
        exists key :: key in old(db).classes && key.0 == lib && rank == old(db).classes[key].rank + 1
      ensures db.templates == old(db).templates && db.revisions == old(db).revisions
      ensures db.classes == if (lib, name) in old(db).classes then old(db).classes
        else old(db).classes[(lib, name) := ClassRow(rank, now, PRISTINE)]
    {
      var next := 0;
      var seen := false;
      var todo := db.classes.Keys;
      while todo != {}
        invariant todo <= db.classes.Keys && db == old(db)
        invariant forall key :: key in db.classes.Keys - todo && key.0 == lib ==> seen && db.classes[key].rank < next
        invariant seen ==> exists key :: key in db.classes && key.0 == lib && next == db.classes[key].rank + 1
        invariant !seen ==> next == 0
        decreases todo
      {
        var key :| key in todo;
        todo := todo - {key};
        if key.0 == lib && (!seen || db.classes[key].rank + 1 > next) {
          next := db.classes[key].rank + 1;
          seen := true;
        }
      }
      rank := next;
      if (lib, name) !in db.classes {
        db := db.(classes := db.classes[(lib, name) := ClassRow(next, now, PRISTINE)]);
      }
    }

    method UpdateClassStrategy(lib: LibId, name: string, config: Config) returns (found: bool)
      modifies this
      ensures db == Configured(old(db), lib, name, config)
      ensures found <==> (lib, name) in old(db).classes
      ensures db.templates == old(db).templates && (!found ==> db == old(db))
      ensures found ==>
        && db.classes == old(db).classes[(lib, name) := old(db).classes[(lib, name)].(config := config)]
        && RevisionBumped(old(db).revisions, db.revisions, lib)
    {
      found := (lib, name) in db.classes;
      if found {
        db := db.(classes := db.classes[(lib, name) := db.classes[(lib, name)].(config := config)]);
        BumpRevision(lib);
      }
    }

    method BumpRevision(lib: LibId)
      modifies this
      ensures db == Bumped(old(db), lib)
      ensures RevisionBumped(old(db).revisions, db.revisions, lib)
    {
      if lib in db.revisions { db := db.(revisions := db.revisions[lib := db.revisions[lib] + 1]); }
    }

    method InsertTemplate(t: Template)
      modifies this
      ensures db == Inserted(old(db), t)
      ensures db.templates == old(db).templates + [t] && db.classes == old(db).classes
      ensures RevisionBumped(old(db).revisions, db.revisions, t.lib)
    {
      db := db.(templates := db.templates + [t]);
      BumpRevision(t.lib);
    }

    method DeleteTemplate(id: TemplateId) returns (found: bool)
      modifies this
      ensures db == Deleted(old(db), id)
      ensures found <==> exists i :: 0 <= i < |old(db).templates| && old(db).templates[i].id == id
      ensures db.classes == old(db).classes && (!found ==> db == old(db))
      ensures found ==>
        exists i :: 0 <= i < |old(db).templates| && old(db).templates[i].id == id
          && db.templates == old(db).templates[..i] + old(db).templates[i + 1..]
          && RevisionBumped(old(db).revisions, db.revisions, old(db).templates[i].lib)
    {
      var row := FindRow(db.templates, id);
      found := row.Some?;
      if found {
        var lib := db.templates[row.value].lib;
        db := db.(templates := db.templates[..row.value] + db.templates[row.value + 1..]);
        BumpRevision(lib);
      }
    }

    method UpdateTemplateClass(id: TemplateId, cls: string) returns (found: bool)
      modifies this
      ensures db == Moved(old(db), id, cls)
      ensures found <==> exists i :: 0 <= i < |old(db).templates| && old(db).templates[i].id == id
      ensures db.classes == old(db).classes && (!found ==> db == old(db))
      ensures found ==>
        exists i :: 0 <= i < |old(db).templates| && old(db).templates[i].id == id
          && db.templates == old(db).templates[i := old(db).templates[i].(cls := cls)]
          && RevisionBumped(old(db).revisions, db.revisions, old(db).templates[i].lib)
    {
      var row := FindRow(db.templates, id);
      found := row.Some?;
      if found {
        var lib := db.templates[row.value].lib;
        db := db.(templates := db.templates[row.value := db.templates[row.value].(cls := cls)]);
        BumpRevision(lib);
      }
    }

    // ---- per-boot upkeep ------------------------------------------------------------------

    /** Three statements per pair: retag templates, rename classes where free, delete the leftovers. */
    method RenameLegacy(renames: seq<(string, string)>)
      requires NoLoops(renames)
      modifies this
      ensures db == RenamedAll(old(db), renames)
      ensures |db.templates| == |old(db).templates|
      ensures forall i :: 0 <= i < |db.templates| ==>
        && db.templates[i] == old(db).templates[i].(cls := db.templates[i].cls)
        && NameLands(renames, old(db).templates[i].cls, db.templates[i].cls)
    {
      for k := 0 to |renames|
        invariant db == RenamedAll(old(db), renames[..k])
      {
        var (from, onto) := renames[k];
        assert renames[..k + 1][..k] == renames[..k];
        assert renames[k] in renames;
        RenameInTwoSteps(db.classes, from, onto);
        ghost var before := db;
        db := db.(templates := RenamedRows(db.templates, from, onto));
        db := db.(classes := RenamedOrIgnored(db.classes, from, onto));
        db := db.(classes := map key | key in db.classes && key.1 != from :: db.classes[key]);
        assert db == Renamed(before, from, onto);
      }
      assert renames[..|renames|] == renames;
      RenamedTemplates(old(db), renames);
    }

    /** Two statements: the templates of the class go, then its rows. */
    method PurgeClass(name: string)
      modifies this
      ensures db == Purged(old(db), {name})
    {
      db := db.(templates := KeptRows(db.templates, {name}));
      db := db.(classes := map key | key in db.classes && key.1 !in {name} :: db.classes[key]);
    }

    method PurgeDead(dead: set<string>)
      modifies this
      ensures db == Purged(old(db), dead)
    {
      hide Purged;
      var todo := dead;
      PurgeNothing(db);
      assert dead - todo == {};
      while todo != {}
        invariant todo <= dead
        invariant db == Purged(old(db), dead - todo)
        decreases todo
      {
        var name :| name in todo;
        ghost var done := dead - todo;
        todo := todo - {name};
        PurgeOneMore(old(db), done, name);
        assert dead - todo == done + {name};
        PurgeClass(name);
      }
      assert dead - todo == dead;
    }

    method SeedDefaults(names: seq<string>, now: real)
      modifies this
      ensures db == Seeded(old(db), names, now)
    {
      var libs := db.revisions.Keys;
      while libs != {}
        invariant libs <= db.revisions.Keys && db == old(db).(classes := db.classes)
        invariant SeededSoFar(old(db).classes, db.classes, db.revisions.Keys - libs, names, now)
        decreases libs
      {
        var lib :| lib in libs;
        libs := libs - {lib};
        ghost var before := db.classes;
        for k := 0 to |names|
          invariant db == old(db).(classes := db.classes)
          invariant SeededSoFar(before, db.classes, {lib}, names[..k], now)
        {
          if (lib, names[k]) !in db.classes {
            db := db.(classes := db.classes[(lib, names[k]) := ClassRow(0, now, PRISTINE)]);
          }
        }
        assert names[..|names|] == names;
      }
      assert db.classes == Seeded(old(db), names, now).classes;
    }

    method ApplyDefaultConfigs(configs: map<string, Config>)
      modifies this
      ensures db == Defaulted(old(db), configs)
    {
      var todo := configs.Keys;
      while todo != {}
        invariant todo <= configs.Keys && db == old(db).(classes := db.classes)
        invariant db.classes.Keys == old(db).classes.Keys
        invariant forall key :: key in db.classes ==>
          db.classes[key] == if key.1 in todo then old(db).classes[key]
            else Converted(old(db).classes[key], key.1, configs)
        decreases todo
      {
        var name :| name in todo;
        todo := todo - {name};
        db := db.(classes := map key | key in db.classes ::
          if key.1 == name && db.classes[key].config == PRISTINE then db.classes[key].(config := configs[name])
            else db.classes[key]);
      }
      assert db.classes == Defaulted(old(db), configs).classes;
    }

    /** The rows of the classes table, in an arbitrary order. */
    method SelectClasses() returns (selected: seq<ClassKey>)
      ensures Selects(selected, db)
    {
      selected := [];
      var todo := db.classes.Keys;
      while todo != {}
        invariant todo <= db.classes.Keys
        invariant forall key :: key in selected <==> key in db.classes && key !in todo
        invariant forall i, j :: 0 <= i < j < |selected| ==> selected[i] != selected[j]
        decreases todo
      {
        var key :| key in todo;
        todo := todo - {key};
        selected := selected + [key];
      }
    }

    method AssignRanks(lib: LibId, names: seq<string>)
      requires Distinct(names) && RankedNames(db.classes, db.classes, lib, names, 0)
      modifies this
      ensures db == old(db).(classes := db.classes) && RankedNames(old(db).classes, db.classes, lib, names, |names|)
    {
      for k := 0 to |names|
        invariant db == old(db).(classes := db.classes)
        invariant RankedNames(old(db).classes, db.classes, lib, names, k)
      {
        db := db.(classes := db.classes[(lib, names[k]) := db.classes[(lib, names[k])].(rank := k)]);
      }
    }

    method RerankClasses(defaults: seq<string>) returns (selected: seq<ClassKey>)
      modifies this
      ensures Selects(selected, old(db)) && db == Reranked(old(db), selected, defaults)
    {
      selected := SelectClasses();
      var rows := db;
      var libs := set key | key in selected :: key.0;
      ghost var all := libs;
      while libs != {}
        invariant libs <= all && db == rows.(classes := db.classes)
        invariant RankedSoFar(rows, db.classes, selected, defaults, all - libs)
        decreases libs
      {
        hide Ranking, RankedSoFar, Selects;
        var lib :| lib in libs;
        ghost var done := all - libs;
        libs := libs - {lib};
        var names := Sort(RankOrder(rows.classes, lib, defaults), NamesOf(selected, lib));
        assert names == Ranking(rows, selected, lib, defaults) by { RankingIs(rows, selected, lib, defaults); }
        ghost var before := db.classes;
        SameNames(rows, before, selected, defaults, done, lib);
        AssignRanks(lib, names);
        OneMoreLibrary(rows, before, db.classes, selected, defaults, done, lib);
        assert all - libs == done + {lib};
      }
      AllRanked(rows, db.classes, selected, defaults);
    }

    /** Adds the revision column, 0 for every library. */
    method AddRevisionColumn()
      modifies this
      ensures db == Probed(old(db), false)
    {
      db := db.(revisions := map lib | lib in db.revisions :: 0);
    }

    /** `_migrate`; `hasRevision` is what the probe of the library columns found. */
    method Migrate(hasRevision: bool, t: Tables, now: real) returns (selected: seq<ClassKey>)
      requires t.Sound()
      modifies this
      ensures Selects(selected, Upkept(Probed(old(db), hasRevision), t, now))
      ensures db == Migrated(Probed(old(db), hasRevision), t, now, selected)
      ensures exists places :: TemplatesLand(old(db).templates, db.templates, t, places)
      ensures db.revisions.Keys == old(db).revisions.Keys
      ensures forall lib :: lib in db.revisions ==>
        db.revisions[lib] == if hasRevision then old(db).revisions[lib] else 0
    {
      if !hasRevision { AddRevisionColumn(); }
      hide RenamedAll, Purged, Seeded, Defaulted, Reranked, Selects;
      RenameLegacy(t.renames);
      PurgeDead(t.dead);
      SeedDefaults(t.defaults, now);
      ApplyDefaultConfigs(t.configs);
      selected := RerankClasses(t.defaults);
      RevisionsStay(Probed(old(db), hasRevision), t, now);
      ghost var _ := TemplatesAreKept(Probed(old(db), hasRevision), t, now, selected);
    }
  }

  // ---- upkeep, statement by statement ----------------------------------------------------------

  /** The renaming UPDATE OR IGNORE: rows whose new key is taken stay as they are. */
  function RenamedOrIgnored(classes: map<ClassKey, ClassRow>, from: string, onto: string): map<ClassKey, ClassRow> {
    var keys := set key | key in classes :: if key.1 == from && (key.0, onto) !in classes then (key.0, onto) else key;
    map key | key in keys :: if key in classes then classes[key] else RowOf(classes, key.0, from)
  }

  lemma RenameInTwoSteps(classes: map<ClassKey, ClassRow>, from: string, onto: string)
    requires from != onto
    ensures var mid := RenamedOrIgnored(classes, from, onto);
      (map key | key in mid && key.1 != from :: mid[key]) == Renamed(Db(map[], classes, []), from, onto).classes
  {
    var mid := RenamedOrIgnored(classes, from, onto);
    var end := Renamed(Db(map[], classes, []), from, onto).classes;
    forall key ensures key in end <==> key in mid && key.1 != from {
      if key in mid && key.1 != from && key !in classes { assert KeyAfter((key.0, from), from, onto) == key; }
      if key in classes && key.1 != from { assert KeyAfter(key, from, onto) == key; }
      if key in end && key !in classes { assert (key.0, from) in classes; }
    }
  }

  lemma {:induction false} KeptTwice(ts: seq<Template>, done: set<string>, name: string)
    ensures KeptRows(KeptRows(ts, done), {name}) == KeptRows(ts, done + {name})
  {
    if ts != [] {
      var init, last := ts[..|ts| - 1], ts[|ts| - 1];
      KeptTwice(init, done, name);
      if last.cls !in done {
        assert (KeptRows(init, done) + [last])[..|KeptRows(init, done)|] == KeptRows(init, done);
      } else {
        assert KeptRows(init, done) + [] == KeptRows(init, done);
      }
    }
  }

  lemma PurgeNothing(db: Db)
    ensures Purged(db, {}) == db
  {
    NothingToPurge(db.templates, {});
    assert Purged(db, {}).classes == db.classes;
  }

  lemma PurgeOneMore(db: Db, done: set<string>, name: string)
    ensures Purged(Purged(db, done), {name}) == Purged(db, done + {name})
  {
    KeptTwice(db.templates, done, name);
    assert Purged(Purged(db, done), {name}).classes == Purged(db, done + {name}).classes;
  }

  ghost predicate SeededSoFar(was: map<ClassKey, ClassRow>, now: map<ClassKey, ClassRow>, libs: set<LibId>,
                              names: seq<string>, at: real)
  {
    && (forall key :: key in now <==> key in was || (key.0 in libs && key.1 in names))
    && (forall key :: key in now ==> now[key] == if key in was then was[key] else ClassRow(0, at, PRISTINE))
  }

  /** The libraries in `done` carry their new ranks; the others are as selected. */
  ghost predicate RankedSoFar(rows: Db, classes: map<ClassKey, ClassRow>, selected: seq<ClassKey>,
                              defaults: seq<string>, done: set<LibId>)
  {
    && classes.Keys == rows.classes.Keys
    && forall key :: key in classes ==>
         classes[key] == if key.0 in done
           then rows.classes[key].(rank := IndexIn(Ranking(rows, selected, key.0, defaults), key.1))
                         else rows.classes[key]
  }

  /** The first `k` names of one library have their place as rank; nothing else has changed. */
  ghost predicate RankedNames(was: map<ClassKey, ClassRow>, now: map<ClassKey, ClassRow>, lib: LibId,
                              names: seq<string>, k: nat)
  {
    && k <= |names| && now.Keys == was.Keys
    && (forall i :: 0 <= i < |names| ==> (lib, names[i]) in was)
    && (forall i :: 0 <= i < k ==> now[(lib, names[i])] == was[(lib, names[i])].(rank := i))
    && (forall i :: k <= i < |names| ==> now[(lib, names[i])] == was[(lib, names[i])])
    && (forall key :: key in now && key.0 != lib ==> now[key] == was[key])
  }

  lemma RankingIs(db: Db, selected: seq<ClassKey>, lib: LibId, defaults: seq<string>)
    ensures Ranking(db, selected, lib, defaults) == Sort(RankOrder(db.classes, lib, defaults), NamesOf(selected, lib))
  {
  }

  lemma SameNames(rows: Db, classes: map<ClassKey, ClassRow>, selected: seq<ClassKey>, defaults: seq<string>,
                  done: set<LibId>, lib: LibId)
    requires Selects(selected, rows) && RankedSoFar(rows, classes, selected, defaults, done)
    ensures RankedNames(classes, classes, lib, Ranking(rows, selected, lib, defaults), 0)
    ensures Distinct(Ranking(rows, selected, lib, defaults))
  {
    RankingFacts(rows, selected, lib, defaults);
    hide Ranking;
    var names := Ranking(rows, selected, lib, defaults);
    forall i | 0 <= i < |names| ensures (lib, names[i]) in classes { assert names[i] in names; }
  }

  lemma OneMoreLibrary(rows: Db, was: map<ClassKey, ClassRow>, now: map<ClassKey, ClassRow>, selected: seq<ClassKey>,
                       defaults: seq<string>, done: set<LibId>, lib: LibId)
    requires Selects(selected, rows) && RankedSoFar(rows, was, selected, defaults, done) && lib !in done
    requires var names := Ranking(rows, selected, lib, defaults); RankedNames(was, now, lib, names, |names|)
    ensures RankedSoFar(rows, now, selected, defaults, done + {lib})
  {
    RankingFacts(rows, selected, lib, defaults);
    var names := Ranking(rows, selected, lib, defaults);
    hide Ranking, Selects, Sorted, RankOrder;
    assert now.Keys == rows.classes.Keys;
    forall key | key in now
      ensures now[key] == if key.0 in done + {lib}
        then rows.classes[key].(rank := IndexIn(Ranking(rows, selected, key.0, defaults), key.1))
                          else rows.classes[key]
    {
      if key.0 == lib { RankedName(was, now, lib, names, key.1); }
    }
  }

  lemma RankedName(was: map<ClassKey, ClassRow>, now: map<ClassKey, ClassRow>, lib: LibId, names: seq<string>,
                   name: string)
    requires RankedNames(was, now, lib, names, |names|) && name in names
    ensures (lib, name) in now && (lib, name) in was
      && now[(lib, name)] == was[(lib, name)].(rank := IndexIn(names, name))
  {
    var i := IndexIn(names, name);
    assert now[(lib, names[i])] == was[(lib, names[i])].(rank := i);
  }

  lemma AllRanked(rows: Db, classes: map<ClassKey, ClassRow>, selected: seq<ClassKey>, defaults: seq<string>)
    requires Selects(selected, rows)
    requires RankedSoFar(rows, classes, selected, defaults, set key | key in selected :: key.0)
    ensures classes == Reranked(rows, selected, defaults).classes
  {
    hide Ranking;
  }

  /** The order classes are loaded in: by rank, then by age. */
  predicate LoadsBefore(db: Db, lib: LibId, a: string, b: string)
    requires (lib, a) in db.classes && (lib, b) in db.classes
  {
    var x, y := db.classes[(lib, a)], db.classes[(lib, b)];
    x.rank < y.rank || (x.rank == y.rank && x.createdAt <= y.createdAt)
  }

  method FirstClass(db: Db, lib: LibId, names: set<string>) returns (first: string)
    requires names != {} && forall n :: n in names ==> (lib, n) in db.classes
    ensures first in names && forall n :: n in names ==> LoadsBefore(db, lib, first, n)
  {
    first :| first in names;
    var todo := names - {first};
    while todo != {}
      invariant todo <= names && first in names
      invariant forall n :: n in names && n !in todo ==> LoadsBefore(db, lib, first, n)
      decreases todo
    {
      var n :| n in todo;
      todo := todo - {n};
      if !LoadsBefore(db, lib, first, n) { first := n; }
    }
  }

  method LoadClasses(db: Db, lib: LibId) returns (names: seq<string>)
    ensures forall c :: c in names <==> (lib, c) in db.classes
    ensures forall i, j :: 0 <= i < j < |names| ==> names[i] != names[j] && LoadsBefore(db, lib, names[i], names[j])
  {
    var todo := set key | key in db.classes && key.0 == lib :: key.1;
    names := [];
    while todo != {}
      invariant forall c :: c in todo || c in names <==> (lib, c) in db.classes
      invariant forall c :: c in names ==> c !in todo
      invariant forall i, j :: 0 <= i < j < |names| ==> names[i] != names[j] && LoadsBefore(db, lib, names[i], names[j])
      invariant forall i, c :: 0 <= i < |names| && c in todo ==> LoadsBefore(db, lib, names[i], c)
      decreases todo
    {
      var c := FirstClass(db, lib, todo);
      todo := todo - {c};
      names := names + [c];
    }
  }

  /** The templates of every listed class, and of every class with templates. */
  ghost predicate Groups(templates: map<string, seq<Template>>, ts: seq<Template>, lib: LibId, names: seq<string>) {
    && (forall c :: c in templates <==> c in names || TemplatesOf(ts, lib, c) != [])
    && (forall c :: c in templates ==> templates[c] == TemplatesOf(ts, lib, c))
  }

  lemma GroupOneMore(templates: map<string, seq<Template>>, ts: seq<Template>, i: nat, lib: LibId, names: seq<string>)
    requires i < |ts| && Groups(templates, ts[..i], lib, names)
    ensures var t := ts[i];
      Groups(if t.lib != lib then templates
             else templates[t.cls := (if t.cls in templates then templates[t.cls] else []) + [t]],
             ts[..i + 1], lib, names)
  {
    assert ts[..i + 1][..i] == ts[..i];
  }

  method LoadTemplates(db: Db, lib: LibId, names: seq<string>) returns (templates: map<string, seq<Template>>)
    ensures Groups(templates, db.templates, lib, names)
  {
    templates := map c | c in names :: [];
    var ts := db.templates;
    for i := 0 to |ts|
      invariant Groups(templates, ts[..i], lib, names)
    {
      GroupOneMore(templates, ts, i, lib, names);
      var t := ts[i];
      if t.lib == lib {
        templates := templates[t.cls := (if t.cls in templates then templates[t.cls] else []) + [t]];
      }
    }
    assert ts[..|ts|] == ts;
  }

  // ---- the cache of one instance -----------------------------------------------------------------

  type Cache = map<string, seq<Template>>

  ghost function HeldIn(cache: Cache): set<Template> {
    set c, k | c in cache && 0 <= k < |cache[c]| :: cache[c][k]
  }

  /** Every cached template belongs to the library, is filed under its class and is cached once. */
  ghost predicate WellFiled(cache: Cache, lib: LibId) {
    && (forall c, k :: c in cache && 0 <= k < |cache[c]| ==> cache[c][k].lib == lib && cache[c][k].cls == c)
    && (forall c :: c in cache ==> UniqueIds(cache[c]))
    && (forall a, b :: a in HeldIn(cache) && b in HeldIn(cache) && a.id == b.id ==> a == b)
  }

  /** The cache holds what the rows hold. */
  ghost predicate Mirrors(cache: Cache, ts: seq<Template>, lib: LibId) {
    && (forall c :: c in cache ==> cache[c] == TemplatesOf(ts, lib, c))
    && (forall i :: 0 <= i < |ts| && ts[i].lib == lib ==> ts[i].cls in cache)
  }

  ghost function RowsOf(ts: seq<Template>, lib: LibId): set<Template> {
    set t | t in ts && t.lib == lib
  }

  lemma {:induction false} ClassKeepsIds(ts: seq<Template>, lib: LibId, cls: string)
    requires UniqueIds(ts)
    ensures UniqueIds(TemplatesOf(ts, lib, cls))
  {
    if ts != [] {
      var init := ts[..|ts| - 1];
      ClassKeepsIds(init, lib, cls);
      MembersOf(init, lib, cls);
      forall k | 0 <= k < |TemplatesOf(init, lib, cls)|
        ensures TemplatesOf(init, lib, cls)[k].id != ts[|ts| - 1].id
      {
        assert TemplatesOf(init, lib, cls)[k] in init;
      }
    }
  }

  /** A freshly loaded cache is well filed and holds exactly the library's rows. */
  lemma MirrorIsWellFiled(cache: Cache, ts: seq<Template>, lib: LibId)
    requires Mirrors(cache, ts, lib) && UniqueIds(ts)
    ensures WellFiled(cache, lib) && HeldIn(cache) == RowsOf(ts, lib)
  {
    hide TemplatesOf;
    forall c | c in cache ensures UniqueIds(cache[c]) { ClassKeepsIds(ts, lib, c); }
    forall c, k | c in cache && 0 <= k < |cache[c]|
      ensures cache[c][k] in ts && cache[c][k].lib == lib && cache[c][k].cls == c
    {
      MembersOf(ts, lib, c);
      assert cache[c][k] in TemplatesOf(ts, lib, c);
    }
    forall t | t in RowsOf(ts, lib) ensures t in HeldIn(cache) {
      MembersOf(ts, lib, t.cls);
      assert t in cache[t.cls];
    }
  }

  lemma AddedToCache(cache: Cache, lib: LibId, t: Template)
    requires WellFiled(cache, lib) && t.lib == lib && t.cls in cache && forall u :: u in HeldIn(cache) ==> u.id != t.id
    ensures var after := cache[t.cls := cache[t.cls] + [t]];
      WellFiled(after, lib) && HeldIn(after) == HeldIn(cache) + {t}
  {
    var after := cache[t.cls := cache[t.cls] + [t]];
    assert after[t.cls][|cache[t.cls]|] == t;
    forall u | u in HeldIn(cache) + {t} ensures u in HeldIn(after) {
      if u != t {
        var c, k :| c in cache && 0 <= k < |cache[c]| && cache[c][k] == u;
        assert after[c][k] == u;
      }
    }
    forall k | 0 <= k < |cache[t.cls]| ensures cache[t.cls][k].id != t.id {
      assert cache[t.cls][k] in HeldIn(cache);
    }
  }

  lemma HeldWithout(cache: Cache, lib: LibId, c: string, k: nat)
    requires WellFiled(cache, lib) && c in cache && k < |cache[c]|
    ensures HeldIn(cache[c := cache[c][..k] + cache[c][k + 1..]]) == HeldIn(cache) - {cache[c][k]}
  {
    var after := cache[c := cache[c][..k] + cache[c][k + 1..]];
    forall u | u in HeldIn(cache) - {cache[c][k]} ensures u in HeldIn(after) {
      var d, m :| d in cache && 0 <= m < |cache[d]| && cache[d][m] == u;
      assert after[d][if d == c && m > k then m - 1 else m] == u;
    }
    forall u | u in HeldIn(after) ensures u in HeldIn(cache) - {cache[c][k]} {
      var d, m :| d in after && 0 <= m < |after[d]| && after[d][m] == u;
      assert cache[d][if d == c && m >= k then m + 1 else m] == u;
    }
  }

  lemma DroppedFromCache(cache: Cache, lib: LibId, c: string, k: nat)
    requires WellFiled(cache, lib) && c in cache && k < |cache[c]|
    ensures var after := cache[c := cache[c][..k] + cache[c][k + 1..]];
      WellFiled(after, lib) && HeldIn(after) == HeldIn(cache) - {cache[c][k]}
  {
    HeldWithout(cache, lib, c, k);
    var after: Cache := cache[c := cache[c][..k] + cache[c][k + 1..]];
    hide HeldIn;
    forall d, m | d in after && 0 <= m < |after[d]| ensures after[d][m].lib == lib && after[d][m].cls == d {
      assert after[d][m] == cache[d][if d == c && m >= k then m + 1 else m];
    }
  }

  lemma EmptyClassAdded(cache: Cache, lib: LibId, name: string)
    requires WellFiled(cache, lib) && name !in cache
    ensures WellFiled(cache[name := []], lib) && HeldIn(cache[name := []]) == HeldIn(cache)
  {
    var after := cache[name := []];
    forall u | u in HeldIn(cache) ensures u in HeldIn(after) {
      var d, m :| d in cache && 0 <= m < |cache[d]| && cache[d][m] == u;
      assert after[d][m] == u;
    }
  }

  class Library {
    const store: Store
    const lib: LibId
    var classes: seq<string>
    var configs: map<string, Config>
    var templates: Cache
    const defaults: map<string, Config>

    ghost predicate Valid()
      reads this
    {
      WellFiled(templates, lib) && forall c :: c in classes ==> c in templates
    }

    ghost function Held(): set<Template>
      reads this
    {
      HeldIn(templates)
    }

    /** No other instance has written templates of the library since this one loaded them. */
    ghost predicate Cached()
      reads this, store
    {
      Mirrors(templates, store.db.templates, lib)
    }

    /** Loads the library and seeds the default classes it lacks. */
    constructor (store: Store, lib: LibId, names: seq<string>, defaults: map<string, Config>, now: real)
      requires lib in store.db.revisions && UniqueIds(store.db.templates)
      modifies store
      ensures this.store == store && this.lib == lib && this.defaults == defaults
      ensures Valid() && Cached() && store.db.templates == old(store.db).templates
      ensures Held() == RowsOf(store.db.templates, lib)
      ensures forall n :: n in names ==> n in templates
      ensures forall key :: key in old(store.db).classes && key.0 == lib ==> key.1 in classes
    {
      this.store := store;
      this.lib := lib;
      this.defaults := defaults;
      classes, configs, templates := [], map[], map[];
      new;
      Load();
      SeedMissing(names, now);
    }

    method SeedMissing(names: seq<string>, now: real)
      requires Valid()
      modifies this, store
      ensures Valid() && store.db.templates == old(store.db).templates && Held() == old(Held())
      ensures old(Cached()) ==> Cached()
      ensures forall n :: n in names ==> n in templates
      ensures forall c :: c in old(classes) ==> c in classes
    {
      hide WellFiled, HeldIn, Mirrors;
      for k := 0 to |names|
        invariant Valid() && store.db.templates == old(store.db).templates && Held() == old(Held())
        invariant old(Cached()) ==> Cached()
        invariant forall m :: 0 <= m < k ==> names[m] in templates
        invariant forall c :: c in old(classes) ==> c in classes
      {
        if names[k] !in templates { AddClass(names[k], now); }
      }
    }

    /** `load_library`: class rows by rank, then every template under its class. */
    method Load()
      requires lib in store.db.revisions && UniqueIds(store.db.templates)
      modifies this
      ensures Valid() && Cached() && Held() == RowsOf(store.db.templates, lib)
      ensures forall c :: c in classes <==> (lib, c) in store.db.classes
      ensures forall i, j :: 0 <= i < j < |classes| ==>
        classes[i] != classes[j] && LoadsBefore(store.db, lib, classes[i], classes[j])
      ensures configs == map c | c in classes :: store.db.classes[(lib, c)].config
    {
      classes := LoadClasses(store.db, lib);
      configs := map c | c in classes :: store.db.classes[(lib, c)].config;
      templates := LoadTemplates(store.db, lib, classes);
      forall i | 0 <= i < |store.db.templates| && store.db.templates[i].lib == lib
        ensures store.db.templates[i].cls in templates
      {
        NoneOf(store.db.templates, lib, store.db.templates[i].cls);
      }
      MirrorIsWellFiled(templates, store.db.templates, lib);
    }

    /** Adds the class to the cache and the store, persisting a code-declared default that differs. */
    method AddClass(name: string, now: real)
      requires Valid()
      modifies this, store
      ensures Valid() && store.db.templates == old(store.db).templates && Held() == old(Held())
      ensures old(Cached()) ==> Cached()
      ensures name in templates
      ensures forall c :: c in old(classes) ==> c in classes
      ensures forall c :: c in old(templates) ==> c in templates && templates[c] == old(templates)[c]
      ensures name in old(templates) ==> store.db == old(store.db) && classes == old(classes)
      ensures name !in old(templates) ==> classes == old(classes) + [name] && templates[name] == []
      ensures name !in old(templates) ==>
        configs == old(configs)[name := if name in defaults then defaults[name] else PRISTINE]
      ensures name !in old(templates) ==>
        && (lib, name) in store.db.classes
        && (configs[name] != PRISTINE || (lib, name) !in old(store.db).classes ==>
              store.db.classes[(lib, name)].config == configs[name])
        && forall key :: key in old(store.db).classes && key != (lib, name) ==>
             key in store.db.classes && store.db.classes[key] == old(store.db).classes[key]
    {
      if name in templates { return; }
      NoneOf(store.db.templates, lib, name);
      var config := if name in defaults then defaults[name] else PRISTINE;
      EmptyClassAdded(templates, lib, name);
      classes := classes + [name];
      templates := templates[name := []];
      hide WellFiled, HeldIn;
      configs := configs[name := config];
      ghost var _ := store.UpsertClass(lib, name, now);
      if config != PRISTINE { var _ := store.UpdateClassStrategy(lib, name, config); }
    }

    /**
     Deduplicates within the class, against the cache: either a template with the same signature
     is cached and is returned with nothing changed, or none is and the new one is appended and
     inserted, whatever other instances stored meanwhile.
     */
    method AddTemplateForFile(t: Template, now: real) returns (kept: Template, existed: bool)
      requires Valid() && t.lib == lib
      requires (forall u :: u in Held() ==> u.id != t.id) && forall u :: u in store.db.templates ==> u.id != t.id
      modifies this, store
      ensures Valid()
      ensures existed <==> exists u :: u in old(Held()) && SameKey(u, t)
      ensures existed <==> exists u ::
        u in old(Held()) && u.lib == t.lib && u.cls == t.cls && Signature(u.points) == Signature(t.points)
      ensures existed ==> store.db == old(store.db) && SameKey(kept, t) && kept in old(Held()) && Held() == old(Held())
      ensures !existed ==>
        kept == t && store.db.templates == old(store.db).templates + [t] && Held() == old(Held()) + {t}
      ensures old(Cached()) ==> Cached() && store.db.templates == AddedOnce(old(store.db).templates, t)
    {
      hide TemplatesOf, Signature;
      if t.cls !in templates { AddClass(t.cls, now); }
      var list := templates[t.cls];
      var same := FirstWithKey(list, t.points);
      ghost var before, was := store.db.templates, templates;
      TwinsInList(was, lib, t);
      if Mirrors(was, before, lib) { TwinsInRows(was, before, lib, t); }
      if same.Some? {
        assert list[same.value] in HeldIn(was);
        return list[same.value], true;
      }
      AddedToCache(was, lib, t);
      templates := templates[t.cls := list + [t]];
      store.InsertTemplate(t);
      if Mirrors(was, before, lib) { AddedMirrors(was, before, lib, t); }
      return t, false;
    }

    method FindTemplate(id: TemplateId) returns (place: Option<(string, nat)>)
      ensures place.Some? ==> place.value.0 in templates && place.value.1 < |templates[place.value.0]|
                              && templates[place.value.0][place.value.1].id == id
      ensures place.None? ==> forall u :: u in Held() ==> u.id != id
    {
      var todo := templates.Keys;
      while todo != {}
        invariant todo <= templates.Keys
        invariant forall c, k :: c in templates.Keys - todo && 0 <= k < |templates[c]| ==> templates[c][k].id != id
        decreases todo
      {
        var c :| c in todo;
        todo := todo - {c};
        var list := templates[c];
        for k := 0 to |list|
          invariant forall m :: 0 <= m < k ==> list[m].id != id
        {
          if list[k].id == id { return Some((c, k)); }
        }
      }
      return None;
    }

    /** Removes the template from the cache and, if it is still stored, from the store. */
    method DeleteTemplate(id: TemplateId) returns (found: bool)
      requires Valid()
      modifies this, store
      ensures Valid()
      ensures found <==> exists u :: u in old(Held()) && u.id == id
      ensures Held() == set u | u in old(Held()) && u.id != id
      ensures store.db == if found then Deleted(old(store.db), id) else old(store.db)
      ensures NoDuplicates(old(store.db).templates) ==> NoDuplicates(store.db.templates)
      ensures old(Cached()) && UniqueIds(old(store.db).templates) ==> Cached()
    {
      hide TemplatesOf, NoDuplicates, Mirrors;
      var place := FindTemplate(id);
      if place.None? {
        assert Held() == set u | u in Held() && u.id != id;
        return false;
      }
      var (c, k) := place.value;
      ghost var before, was := store.db.templates, templates;
      assert templates[c][k] in Held();
      DroppedFromCache(was, lib, c, k);
      templates := templates[c := templates[c][..k] + templates[c][k + 1..]];
      var _ := store.DeleteTemplate(id);
      hide WellFiled, HeldIn;
      if NoDuplicates(before) { WithoutKeeps(before, id); }
      if Mirrors(was, before, lib) && UniqueIds(before) { DroppedMirrors(was, before, lib, c, k); }
      return true;
    }
  }

  /** The cached templates with the key of `t` are those of its class list. */
  lemma TwinsInList(cache: Cache, lib: LibId, t: Template)
    requires WellFiled(cache, lib) && t.lib == lib && t.cls in cache
    ensures (exists u :: u in HeldIn(cache) && SameKey(u, t)) <==>
            exists m :: 0 <= m < |cache[t.cls]| && Signature(cache[t.cls][m].points) == Signature(t.points)
  {
    hide Signature;
    if u :| u in HeldIn(cache) && SameKey(u, t) {
      var c, k :| c in cache && 0 <= k < |cache[c]| && cache[c][k] == u;
      assert c == t.cls;
    }
    if m :| 0 <= m < |cache[t.cls]| && Signature(cache[t.cls][m].points) == Signature(t.points) {
      assert cache[t.cls][m] in HeldIn(cache) && SameKey(cache[t.cls][m], t);
    }
  }

  lemma TwinsInRows(cache: Cache, ts: seq<Template>, lib: LibId, t: Template)
    requires Mirrors(cache, ts, lib) && t.lib == lib && t.cls in cache
    ensures (exists i :: 0 <= i < |ts| && SameKey(ts[i], t)) <==>
            exists m :: 0 <= m < |cache[t.cls]| && Signature(cache[t.cls][m].points) == Signature(t.points)
  {
    hide Signature, TemplatesOf;
    MembersOf(ts, lib, t.cls);
    if i :| 0 <= i < |ts| && SameKey(ts[i], t) {
      assert ts[i] in cache[t.cls];
    }
    if m :| 0 <= m < |cache[t.cls]| && Signature(cache[t.cls][m].points) == Signature(t.points) {
      assert cache[t.cls][m] in ts;
      var i :| 0 <= i < |ts| && ts[i] == cache[t.cls][m];
      assert SameKey(ts[i], t);
    }
  }

  lemma AddedMirrors(cache: Cache, ts: seq<Template>, lib: LibId, t: Template)
    requires Mirrors(cache, ts, lib) && t.lib == lib && t.cls in cache
    ensures Mirrors(cache[t.cls := cache[t.cls] + [t]], ts + [t], lib)
  {
    hide TemplatesOf;
    forall c | c in cache ensures cache[t.cls := cache[t.cls] + [t]][c] == TemplatesOf(ts + [t], lib, c) {
      TemplatesOfConcat(ts, [t], lib, c);
      OneOf(t, lib, c);
    }
  }

  lemma DroppedMirrors(cache: Cache, ts: seq<Template>, lib: LibId, c: string, k: nat)
    requires Mirrors(cache, ts, lib) && UniqueIds(ts) && c in cache && k < |cache[c]|
    ensures Mirrors(cache[c := cache[c][..k] + cache[c][k + 1..]], Without(ts, cache[c][k].id), lib)
  {
    hide TemplatesOf;
    var t := cache[c][k];
    MembersOf(ts, lib, c);
    assert t in TemplatesOf(ts, lib, c);
    var i := FindRow(ts, t.id).value;
    OnlyRow(ts, i, t);
    PlaceInClass(ts, i, k, lib, c);
    WithoutIsCached(ts, i, k, lib, c, cache, cache[c := cache[c][..k] + cache[c][k + 1..]]);
  }

  lemma OnlyRow(ts: seq<Template>, i: nat, t: Template)
    requires UniqueIds(ts) && i < |ts| && t in ts && ts[i].id == t.id
    ensures ts[i] == t
  {
    var j :| 0 <= j < |ts| && ts[j] == t;
  }

  lemma CutOut<T>(a: seq<T>, x: T, b: seq<T>)
    ensures (a + [x] + b)[..|a|] + (a + [x] + b)[|a| + 1..] == a + b
  {
  }

  lemma WithoutIsCached(before: seq<Template>, i: nat, k: nat, lib: LibId, cls: string,
                        was: map<string, seq<Template>>, now: map<string, seq<Template>>)
    requires i < |before| && before[i].lib == lib && before[i].cls == cls && cls in was
    requires forall c :: c in was ==> was[c] == TemplatesOf(before, lib, c)
    requires k == |TemplatesOf(before[..i], lib, cls)| && k < |was[cls]|
    requires now == was[cls := was[cls][..k] + was[cls][k + 1..]]
    ensures forall c :: c in now ==> now[c] == TemplatesOf(before[..i] + before[i + 1..], lib, c)
  {
    hide TemplatesOf;
    forall c | c in now ensures now[c] == TemplatesOf(before[..i] + before[i + 1..], lib, c) {
      DroppedFrom(before, i, lib, c);
      if c == cls { CutOut(TemplatesOf(before[..i], lib, c), before[i], TemplatesOf(before[i + 1..], lib, c)); }
    }
  }
}
