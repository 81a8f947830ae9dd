/**
 The library tables (app/library.py): libraries with their revision, class rows, and
 templates in insertion order, with the SQL writes of `Store` as functions.
 */
module LibraryTables {
  import opened Wrappers
  import opened Signatures

  type LibId = nat
  type TemplateId = nat

  /** Strategy text and optional size tolerance; `chamfer` without tolerance is the column default. */
  datatype Config = Config(strategy: string, ratio: Option<real>)

  const PRISTINE := Config("chamfer", None)

  datatype ClassRow = ClassRow(rank: int, createdAt: real, config: Config)

  datatype Template = Template(id: TemplateId, lib: LibId, cls: string, points: PointSets)

  type ClassKey = (LibId, string)

  datatype Db = Db(revisions: map<LibId, nat>, classes: map<ClassKey, ClassRow>, templates: seq<Template>)

  // ---- reads --------------------------------------------------------------------------------

  function CurrentRevision(db: Db, lib: LibId): nat { if lib in db.revisions then db.revisions[lib] else 0 }

  /** The templates of one class, oldest first. */
  function TemplatesOf(ts: seq<Template>, lib: LibId, cls: string): seq<Template> {
    if ts == [] then []
    else
      var init, last := ts[..|ts| - 1], ts[|ts| - 1];
      TemplatesOf(init, lib, cls) + if last.lib == lib && last.cls == cls then [last] else []
  }

  lemma {:induction false} TemplatesOfConcat(a: seq<Template>, b: seq<Template>, lib: LibId, cls: string)
    ensures TemplatesOf(a + b, lib, cls) == TemplatesOf(a, lib, cls) + TemplatesOf(b, lib, cls)
  {
    if b == [] {
      assert a + b == a;
    } else {
      TemplatesOfConcat(a, b[..|b| - 1], lib, cls);
      assert (a + b)[..|a + b| - 1] == a + b[..|b| - 1];
    }
  }

  lemma {:induction false} NoneOf(ts: seq<Template>, lib: LibId, cls: string)
    ensures TemplatesOf(ts, lib, cls) == [] <==> forall i :: 0 <= i < |ts| ==> !(ts[i].lib == lib && ts[i].cls == cls)
  {
    if ts != [] {
      NoneOf(ts[..|ts| - 1], lib, cls);
      assert forall i :: 0 <= i < |ts| - 1 ==> ts[..|ts| - 1][i] == ts[i];
    }
  }

  lemma {:induction false} MembersOf(ts: seq<Template>, lib: LibId, cls: string)
    ensures forall t :: t in TemplatesOf(ts, lib, cls) <==> t in ts && t.lib == lib && t.cls == cls
  {
    if ts != [] {
      MembersOf(ts[..|ts| - 1], lib, cls);
      assert ts == ts[..|ts| - 1] + [ts[|ts| - 1]];
    }
  }

  // ---- writes --------------------------------------------------------------------------------

  function Bumped(db: Db, lib: LibId): Db {
    if lib in db.revisions then db.(revisions := db.revisions[lib := db.revisions[lib] + 1]) else db
  }

  function Upserted(db: Db, lib: LibId, name: string, rank: int, now: real): Db {
    if (lib, name) in db.classes then db
    else db.(classes := db.classes[(lib, name) := ClassRow(rank, now, PRISTINE)])
  }

  function Configured(db: Db, lib: LibId, name: string, config: Config): Db {
    if (lib, name) in db.classes
    then Bumped(db.(classes := db.classes[(lib, name) := db.classes[(lib, name)].(config := config)]), lib)
    else db
  }

  function Inserted(db: Db, t: Template): Db { Bumped(db.(templates := db.templates + [t]), t.lib) }

  /** The row with the given primary key, if any. */
  function FindRow(ts: seq<Template>, id: TemplateId): (r: Option<nat>)
    ensures r.Some? ==> r.value < |ts| && ts[r.value].id == id
    ensures r.None? ==> forall i :: 0 <= i < |ts| ==> ts[i].id != id
  {
    if ts == [] then None
    else if ts[|ts| - 1].id == id then Some(|ts| - 1)
    else FindRow(ts[..|ts| - 1], id)
  }

  function Deleted(db: Db, id: TemplateId): Db {
    match FindRow(db.templates, id)
    case None => db
    case Some(i) => Bumped(db.(templates := db.templates[..i] + db.templates[i + 1..]), db.templates[i].lib)
  }

  function Moved(db: Db, id: TemplateId, cls: string): Db {
    match FindRow(db.templates, id)
    case None => db
    case Some(i) => Bumped(db.(templates := db.templates[i := db.templates[i].(cls := cls)]), db.templates[i].lib)
  }

  // ---- what a scan depends on ------------------------------------------------------------------

  /** Classes with a row and at least one template, with their configuration and their templates. */
  ghost function ScanInput(classes: map<ClassKey, ClassRow>, ts: seq<Template>, lib: LibId)
    : map<string, (Config, seq<Template>)>
  {
    map key | key in classes && key.0 == lib && TemplatesOf(ts, lib, key.1) != [] ::
      key.1 := (classes[key].config, TemplatesOf(ts, lib, key.1))
  }
}
