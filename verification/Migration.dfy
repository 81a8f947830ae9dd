/**
 Per-boot upkeep of the library tables (app/library.py, `Store._migrate`): renames, purges,
 seeding, default configurations and re-ranking, as functions of the database.
 */
module Migration {
  import opened Wrappers
  import opened Sorting
  import opened LibraryTables

  /** The old names are the keys of a dict. */
  ghost predicate RenamedOnce(renames: seq<(string, string)>) {
    forall i, j :: 0 <= i < j < |renames| ==> renames[i].0 != renames[j].0
  }

  /** The class lists the code declares. */
  datatype Tables = Tables(
    renames: seq<(string, string)>,
    dead: set<string>,
    defaults: seq<string>,
    configs: map<string, Config>)
  {
    /** What the declared lists satisfy: a name is renamed away once, and is then neither a target nor a default. */
    ghost predicate Sound() {
      && RenamedOnce(renames)
      && (forall i, j :: 0 <= i < j < |defaults| ==> defaults[i] != defaults[j])
      && (forall i :: 0 <= i < |defaults| ==> defaults[i] !in dead)
      && (forall r :: r in renames ==> r.0 !in defaults)
      && (forall r, q :: r in renames && q in renames ==> r.1 != q.0)
      && (forall name :: name in configs ==> configs[name] != PRISTINE)
    }

    predicate IsLegacy(name: string) { name in dead || exists i :: 0 <= i < |renames| && renames[i].0 == name }
  }

  // ---- the passes --------------------------------------------------------------------------

  function NameAfter(name: string, from: string, onto: string): string { if name == from then onto else name }

  function KeyAfter(key: ClassKey, from: string, onto: string): ClassKey { (key.0, NameAfter(key.1, from, onto)) }

  function RenamedRows(ts: seq<Template>, from: string, onto: string): (r: seq<Template>)
    ensures |r| == |ts|
    ensures forall i :: 0 <= i < |ts| ==> r[i] == ts[i].(cls := NameAfter(ts[i].cls, from, onto))
  {
    seq(|ts|, i requires 0 <= i < |ts| => ts[i].(cls := NameAfter(ts[i].cls, from, onto)))
  }

  /** Rename where the new name is free, then drop what is left under the old one. */
  function Renamed(db: Db, from: string, onto: string): Db
    requires from != onto
  {
    var keys := set key | key in db.classes :: KeyAfter(key, from, onto);
    db.(templates := RenamedRows(db.templates, from, onto),
        classes := map key | key in keys :: if key in db.classes then db.classes[key] else db.classes[(key.0, from)])
  }

  ghost predicate NoLoops(renames: seq<(string, string)>) {
    forall r, q :: r in renames && q in renames ==> r.1 != q.0
  }

  function RenamedAll(db: Db, renames: seq<(string, string)>): Db
    requires NoLoops(renames)
  {
    if renames == [] then db
    else Renamed(RenamedAll(db, renames[..|renames| - 1]), renames[|renames| - 1].0, renames[|renames| - 1].1)
  }

  function KeptRows(ts: seq<Template>, dead: set<string>): seq<Template> {
    if ts == [] then []
    else KeptRows(ts[..|ts| - 1], dead) + if ts[|ts| - 1].cls in dead then [] else [ts[|ts| - 1]]
  }

  function Purged(db: Db, dead: set<string>): Db {
    db.(templates := KeptRows(db.templates, dead),
        classes := map key | key in db.classes && key.1 !in dead :: db.classes[key])
  }

  /** Every default class a library lacks, pristine and ranked 0. */
  function Seeded(db: Db, defaults: seq<string>, now: real): Db {
    var keys := set lib, name | lib in db.revisions && name in defaults :: (lib, name);
    db.(classes := map key | key in db.classes.Keys + keys ::
          if key in db.classes then db.classes[key] else ClassRow(0, now, PRISTINE))
  }

  function Converted(row: ClassRow, name: string, configs: map<string, Config>): ClassRow {
    if name in configs && row.config == PRISTINE then row.(config := configs[name]) else row
  }

  function Defaulted(db: Db, configs: map<string, Config>): Db {
    db.(classes := map key | key in db.classes :: Converted(db.classes[key], key.1, configs))
  }

  // ---- re-ranking ----------------------------------------------------------------------------

  /** The place of `x`, or the length when it is absent. */
  function IndexIn(xs: seq<string>, x: string): (k: nat)
    ensures k <= |xs| && (k < |xs| ==> xs[k] == x) && (k == |xs| ==> x !in xs)
    ensures forall j :: 0 <= j < k ==> xs[j] != x
  {
    if xs == [] then 0 else if xs[0] == x then 0 else 1 + IndexIn(xs[1..], x)
  }

  function RowOf(classes: map<ClassKey, ClassRow>, lib: LibId, name: string): ClassRow {
    if (lib, name) in classes then classes[(lib, name)] else ClassRow(0, 0.0, PRISTINE)
  }

  /** The sort key: place in the default list, then rank, then age. */
  predicate RankLe(classes: map<ClassKey, ClassRow>, lib: LibId, defaults: seq<string>, a: string, b: string) {
    var p, q := IndexIn(defaults, a), IndexIn(defaults, b);
    var x, y := RowOf(classes, lib, a), RowOf(classes, lib, b);
    p < q || (p == q && (x.rank < y.rank || (x.rank == y.rank && x.createdAt <= y.createdAt)))
  }

  function RankOrder(classes: map<ClassKey, ClassRow>, lib: LibId, defaults: seq<string>): (string, string) -> bool {
    (a: string, b: string) => RankLe(classes, lib, defaults, a, b)
  }

  /** `selected` lists the class rows, each once, in whatever order the SELECT returned them. */
  ghost predicate Selects(selected: seq<ClassKey>, db: Db) {
    && (forall key :: key in selected <==> key in db.classes)
    && (forall i, j :: 0 <= i < j < |selected| ==> selected[i] != selected[j])
  }

  function NamesOf(selected: seq<ClassKey>, lib: LibId): seq<string> {
    if selected == [] then []
    else NamesOf(selected[..|selected| - 1], lib)
         + if selected[|selected| - 1].0 == lib then [selected[|selected| - 1].1] else []
  }

  function Ranking(db: Db, selected: seq<ClassKey>, lib: LibId, defaults: seq<string>): seq<string> {
    Sort(RankOrder(db.classes, lib, defaults), NamesOf(selected, lib))
  }

  function Reranked(db: Db, selected: seq<ClassKey>, defaults: seq<string>): Db {
    db.(classes := map key | key in db.classes ::
          db.classes[key].(rank := IndexIn(Ranking(db, selected, key.0, defaults), key.1)))
  }

  /** The column probe: a database from before revisions gets the column, 0 everywhere. */
  function Probed(db: Db, hasRevision: bool): Db {
    if hasRevision then db else db.(revisions := map lib | lib in db.revisions :: 0)
  }

  /** Everything before the re-ranking. */
  ghost function Upkept(db: Db, t: Tables, now: real): Db
    requires t.Sound()
  {
    Defaulted(Seeded(Purged(RenamedAll(db, t.renames), t.dead), t.defaults, now), t.configs)
  }

  ghost function Migrated(db: Db, t: Tables, now: real, selected: seq<ClassKey>): Db
    requires t.Sound() && Selects(selected, Upkept(db, t, now))
  {
    Reranked(Upkept(db, t, now), selected, t.defaults)
  }

  // ---- what upkeep leaves ----------------------------------------------------------------------

  /** Nothing left to rename, purge, seed or convert. */
  ghost predicate Clean(db: Db, t: Tables) {
    && (forall key :: key in db.classes ==> !t.IsLegacy(key.1))
    && (forall i :: 0 <= i < |db.templates| ==> !t.IsLegacy(db.templates[i].cls))
    && (forall lib, name :: lib in db.revisions && name in t.defaults ==> (lib, name) in db.classes)
    && (forall key :: key in db.classes && key.1 in t.configs ==> db.classes[key].config != PRISTINE)
  }

  ghost predicate NameGone(db: Db, name: string) {
    && (forall key :: key in db.classes ==> key.1 != name)
    && (forall i :: 0 <= i < |db.templates| ==> db.templates[i].cls != name)
  }

  lemma {:induction false} RenamesAreGone(db: Db, renames: seq<(string, string)>)
    requires NoLoops(renames)
    ensures forall r :: r in renames ==> NameGone(RenamedAll(db, renames), r.0)
  {
    if renames != [] {
      var init, last := renames[..|renames| - 1], renames[|renames| - 1];
      RenamesAreGone(db, init);
      var before := RenamedAll(db, init);
      forall r | r in renames ensures NameGone(Renamed(before, last.0, last.1), r.0) {
        if r != last {
          assert r in init;
          assert NameGone(before, r.0);
        }
      }
    }
  }

  lemma {:induction false} KeptRowsAreAlive(ts: seq<Template>, dead: set<string>)
    ensures forall t :: t in KeptRows(ts, dead) <==> t in ts && t.cls !in dead
  {
    if ts != [] {
      KeptRowsAreAlive(ts[..|ts| - 1], dead);
      assert ts == ts[..|ts| - 1] + [ts[|ts| - 1]];
    }
  }

  /** Neither a class row nor a template carries a legacy name. */
  ghost predicate NoLegacy(db: Db, t: Tables) {
    && (forall key :: key in db.classes ==> !t.IsLegacy(key.1))
    && (forall i :: 0 <= i < |db.templates| ==> !t.IsLegacy(db.templates[i].cls))
  }

  lemma PurgedHasNoLegacy(db: Db, t: Tables)
    requires forall r :: r in t.renames ==> NameGone(db, r.0)
    ensures NoLegacy(Purged(db, t.dead), t)
  {
    var d := Purged(db, t.dead);
    KeptRowsAreAlive(db.templates, t.dead);
    forall i | 0 <= i < |d.templates| ensures !t.IsLegacy(d.templates[i].cls) {
      assert d.templates[i] in db.templates;
    }
  }

  lemma UpkeptIsClean(db: Db, t: Tables, now: real)
    requires t.Sound()
    ensures Clean(Upkept(db, t, now), t)
  {
    RenamesAreGone(db, t.renames);
    var d := Purged(RenamedAll(db, t.renames), t.dead);
    PurgedHasNoLegacy(RenamedAll(db, t.renames), t);
    hide RenamedAll, Purged;
    SeededIsClean(d, t, now);
  }

  lemma SeededIsClean(d: Db, t: Tables, now: real)
    requires t.Sound() && NoLegacy(d, t)
    ensures Clean(Defaulted(Seeded(d, t.defaults, now), t.configs), t)
  {
    forall name | name in t.defaults ensures !t.IsLegacy(name) {
    }
    hide t.IsLegacy;
  }

  lemma {:induction false} NothingToRename(db: Db, renames: seq<(string, string)>)
    requires NoLoops(renames) && forall r :: r in renames ==> NameGone(db, r.0)
    ensures RenamedAll(db, renames) == db
  {
    if renames != [] {
      var last := renames[|renames| - 1];
      NothingToRename(db, renames[..|renames| - 1]);
      assert NameGone(db, last.0);
      RenameOfNothing(db, last.0, last.1);
    }
  }

  lemma RenameOfNothing(db: Db, from: string, onto: string)
    requires from != onto && NameGone(db, from)
    ensures Renamed(db, from, onto) == db
  {
    assert RenamedRows(db.templates, from, onto) == db.templates;
    forall key | key in db.classes ensures KeyAfter(key, from, onto) == key {}
    assert Renamed(db, from, onto).classes == db.classes;
  }

  lemma {:induction false} NothingToPurge(ts: seq<Template>, dead: set<string>)
    requires forall i :: 0 <= i < |ts| ==> ts[i].cls !in dead
    ensures KeptRows(ts, dead) == ts
  {
    if ts != [] {
      NothingToPurge(ts[..|ts| - 1], dead);
      assert ts == ts[..|ts| - 1] + [ts[|ts| - 1]];
    }
  }

  lemma NothingToSeed(db: Db, t: Tables, now: real)
    requires Clean(db, t)
    ensures Purged(db, t.dead).classes == db.classes
    ensures Seeded(db, t.defaults, now).classes == db.classes
    ensures Defaulted(db, t.configs).classes == db.classes
  {
    forall key | key in db.classes ensures key.1 !in t.dead {
      assert !t.IsLegacy(key.1);
    }
    hide Clean;
    assert Purged(db, t.dead).classes.Keys == db.classes.Keys;
  }

  lemma UpkeepOfClean(db: Db, t: Tables, now: real)
    requires t.Sound() && Clean(db, t)
    ensures Upkept(db, t, now) == db
  {
    forall r | r in t.renames ensures NameGone(db, r.0) {
      var i :| 0 <= i < |t.renames| && t.renames[i] == r;
    }
    NothingToRename(db, t.renames);
    NothingToPurge(db.templates, t.dead);
    NothingToSeed(db, t, now);
    hide RenamedAll, KeptRows, Clean, t.Sound;
    assert Purged(db, t.dead) == db;
    assert Seeded(db, t.defaults, now) == db;
  }

  // ---- rankings ------------------------------------------------------------------------------------

  ghost predicate Distinct(names: seq<string>) { forall i, j :: 0 <= i < j < |names| ==> names[i] != names[j] }

  lemma {:induction false} NamesOfSelected(selected: seq<ClassKey>, lib: LibId)
    requires forall i, j :: 0 <= i < j < |selected| ==> selected[i] != selected[j]
    ensures forall name :: name in NamesOf(selected, lib) <==> (lib, name) in selected
    ensures Distinct(NamesOf(selected, lib))
  {
    if selected != [] {
      var init, last := selected[..|selected| - 1], selected[|selected| - 1];
      NamesOfSelected(init, lib);
      assert selected == init + [last];
      assert last !in init;
      assert last.0 == lib ==> last == (lib, last.1);
    }
  }

  lemma RankOrderIsTotal(classes: map<ClassKey, ClassRow>, lib: LibId, defaults: seq<string>)
    ensures TotalPreorder(RankOrder(classes, lib, defaults))
  {
    hide IndexIn, RowOf;
  }

  lemma DistinctFromMultiset(a: seq<string>, b: seq<string>)
    requires Distinct(a) && multiset(a) == multiset(b)
    ensures Distinct(b)
  {
    forall i, j | 0 <= i < j < |b| ensures b[i] != b[j] {
      if b[i] == b[j] {
        OccursTwice(b, i, j);
        OccursOnce(a, b[i]);
      }
    }
  }

  lemma {:induction false} OccursOnce(a: seq<string>, x: string)
    requires Distinct(a)
    ensures multiset(a)[x] <= 1
  {
    if a != [] {
      OccursOnce(a[1..], x);
      assert a == [a[0]] + a[1..];
    }
  }

  /** The ranking lists the classes of the library, each once, in rank order. */
  lemma RankingFacts(db: Db, selected: seq<ClassKey>, lib: LibId, defaults: seq<string>)
    requires Selects(selected, db)
    ensures var n := Ranking(db, selected, lib, defaults);
      && Distinct(n) && Sorted(RankOrder(db.classes, lib, defaults), n)
      && forall name :: name in n <==> (lib, name) in db.classes
  {
    NamesOfSelected(selected, lib);
    RankOrderIsTotal(db.classes, lib, defaults);
    SortIsSortedPermutation(RankOrder(db.classes, lib, defaults), NamesOf(selected, lib));
    DistinctFromMultiset(NamesOf(selected, lib), Ranking(db, selected, lib, defaults));
  }

  lemma IndexOfPlace(n: seq<string>, k: nat)
    requires Distinct(n) && k < |n|
    ensures IndexIn(n, n[k]) == k
  {
  }

  /** Re-ranking changes the rank of each row to its place in the ranking of its library, and nothing else. */
  lemma RerankedRow(db: Db, selected: seq<ClassKey>, defaults: seq<string>, lib: LibId, name: string)
    ensures (lib, name) in Reranked(db, selected, defaults).classes <==> (lib, name) in db.classes
    ensures (lib, name) in db.classes ==>
      Reranked(db, selected, defaults).classes[(lib, name)] ==
      db.classes[(lib, name)].(rank := IndexIn(Ranking(db, selected, lib, defaults), name))
  {
  }

  ghost predicate Ranks(classes: map<ClassKey, ClassRow>, lib: LibId, name: string, k: int) {
    (lib, name) in classes && classes[(lib, name)].rank == k
  }

  ghost predicate HasRank(classes: map<ClassKey, ClassRow>, lib: LibId, k: int) {
    exists name :: Ranks(classes, lib, name, k)
  }

  /** The ranks of a library's classes are `0..n-1`, each taken once. */
  ghost predicate IsPermutation(classes: map<ClassKey, ClassRow>, lib: LibId, n: nat) {
    && (forall name :: (lib, name) in classes ==> 0 <= classes[(lib, name)].rank < n)
    && (forall a, b, k :: Ranks(classes, lib, a, k) && Ranks(classes, lib, b, k) ==> a == b)
    && (forall k :: 0 <= k < n ==> HasRank(classes, lib, k))
  }

  lemma PlacesArePermutation(classes: map<ClassKey, ClassRow>, lib: LibId, names: seq<string>)
    requires Distinct(names)
    requires forall name :: (lib, name) in classes <==> name in names
    requires forall name :: (lib, name) in classes ==> classes[(lib, name)].rank == IndexIn(names, name)
    ensures IsPermutation(classes, lib, |names|)
  {
    forall k | 0 <= k < |names| ensures HasRank(classes, lib, k) {
      IndexOfPlace(names, k);
      assert names[k] in names;
      assert Ranks(classes, lib, names[k], k);
    }
    forall a, b, k | Ranks(classes, lib, a, k) && Ranks(classes, lib, b, k) ensures a == b {
      assert names[k] == a && names[k] == b;
    }
  }

  lemma RanksArePermutation(db: Db, selected: seq<ClassKey>, defaults: seq<string>, lib: LibId)
    requires Selects(selected, db)
    ensures IsPermutation(Reranked(db, selected, defaults).classes, lib, |Ranking(db, selected, lib, defaults)|)
  {
    RankingFacts(db, selected, lib, defaults);
    forall name { RerankedRow(db, selected, defaults, lib, name); }
    hide Reranked, Ranking, Selects, Sorted, IsPermutation;
    PlacesArePermutation(Reranked(db, selected, defaults).classes, lib, Ranking(db, selected, lib, defaults));
  }

  /** Defaults come first, in declared order. */
  lemma {:induction false} DefaultsLead(db: Db, selected: seq<ClassKey>, lib: LibId, defaults: seq<string>, k: nat)
    requires Selects(selected, db) && Distinct(defaults) && k <= |defaults|
    requires forall name :: name in defaults ==> (lib, name) in db.classes
    ensures var n := Ranking(db, selected, lib, defaults);
      |n| >= k && forall j :: 0 <= j < k ==> n[j] == defaults[j]
  {
    RankingFacts(db, selected, lib, defaults);
    var n := Ranking(db, selected, lib, defaults);
    if k > 0 {
      DefaultsLead(db, selected, lib, defaults, k - 1);
      var d := defaults[k - 1];
      assert d in n;
      var p :| 0 <= p < |n| && n[p] == d;
      assert p >= k - 1;
      IndexOfPlace(defaults, k - 1);
      assert p > k - 1 ==> RankOrder(db.classes, lib, defaults)(n[k - 1], n[p]);
      var q := IndexIn(defaults, n[k - 1]);
      assert q <= k - 1;
    }
  }

  /** Lower rank, or the same rank and older. */
  predicate ShownBefore(x: ClassRow, y: ClassRow) {
    x.rank < y.rank || (x.rank == y.rank && x.createdAt < y.createdAt)
  }

  /** Two custom classes keep the order they were shown in. */
  lemma CustomsKeepOrder(db: Db, selected: seq<ClassKey>, lib: LibId, defaults: seq<string>, a: string, b: string)
    requires Selects(selected, db) && (lib, a) in db.classes && (lib, b) in db.classes
    requires a !in defaults && b !in defaults
    requires ShownBefore(db.classes[(lib, a)], db.classes[(lib, b)])
    ensures var after := Reranked(db, selected, defaults);
      after.classes[(lib, a)].rank < after.classes[(lib, b)].rank
  {
    RankingFacts(db, selected, lib, defaults);
    RerankedRow(db, selected, defaults, lib, a);
    RerankedRow(db, selected, defaults, lib, b);
    var n := Ranking(db, selected, lib, defaults);
    NotBefore(db.classes, lib, defaults, a, b);
    EarlierPlace(RankOrder(db.classes, lib, defaults), n, a, b);
    hide Reranked, Ranking, Selects, IndexIn;
  }

  lemma EarlierPlace(le: (string, string) -> bool, n: seq<string>, a: string, b: string)
    requires Sorted(le, n) && a in n && b in n && a != b && !le(b, a)
    ensures IndexIn(n, a) < IndexIn(n, b)
  {
    var i, j := IndexIn(n, a), IndexIn(n, b);
    assert n[i] == a && n[j] == b;
  }

  lemma NotBefore(classes: map<ClassKey, ClassRow>, lib: LibId, defaults: seq<string>, a: string, b: string)
    requires (lib, a) in classes && (lib, b) in classes && a !in defaults && b !in defaults
    requires ShownBefore(classes[(lib, a)], classes[(lib, b)])
    ensures !RankLe(classes, lib, defaults, b, a) && a != b
  {
    assert IndexIn(defaults, a) == IndexIn(defaults, b) == |defaults|;
  }

  /** Re-ranking a re-ranked database changes nothing, whatever order the rows are selected in. */
  lemma RerankIsIdempotent(db: Db, first: seq<ClassKey>, second: seq<ClassKey>, defaults: seq<string>)
    requires Selects(first, db) && Selects(second, Reranked(db, first, defaults))
    ensures Reranked(Reranked(db, first, defaults), second, defaults) == Reranked(db, first, defaults)
  {
    var after := Reranked(db, first, defaults);
    var again := Reranked(after, second, defaults);
    hide Reranked, Ranking, Selects;
    forall lib: LibId, name ensures (lib, name) in again.classes <==> (lib, name) in after.classes
      ensures (lib, name) in after.classes ==> again.classes[(lib, name)] == after.classes[(lib, name)]
    {
      SameRow(db, first, second, defaults, lib, name);
    }
    RerankedKeeps(db, first, defaults);
    RerankedKeeps(after, second, defaults);
    SameEverywhere(again.classes, after.classes);
  }

  lemma SameEverywhere(a: map<ClassKey, ClassRow>, b: map<ClassKey, ClassRow>)
    requires forall lib: LibId, name :: (lib, name) in a <==> (lib, name) in b
    requires forall lib: LibId, name :: (lib, name) in b ==> a[(lib, name)] == b[(lib, name)]
    ensures a == b
  {
    forall key ensures key in a <==> key in b {
      assert key == (key.0, key.1);
    }
    forall key | key in b ensures a[key] == b[key] {
      assert key == (key.0, key.1);
    }
  }

  lemma RerankedKeeps(db: Db, selected: seq<ClassKey>, defaults: seq<string>)
    ensures Reranked(db, selected, defaults).revisions == db.revisions
    ensures Reranked(db, selected, defaults).templates == db.templates
  {
  }

  lemma SameRow(db: Db, first: seq<ClassKey>, second: seq<ClassKey>, defaults: seq<string>, lib: LibId, name: string)
    requires Selects(first, db) && Selects(second, Reranked(db, first, defaults))
    ensures var after := Reranked(db, first, defaults); var again := Reranked(after, second, defaults);
      && ((lib, name) in again.classes <==> (lib, name) in after.classes)
      && ((lib, name) in after.classes ==> again.classes[(lib, name)] == after.classes[(lib, name)])
  {
    SameRanking(db, first, second, lib, defaults);
    RerankedRow(db, first, defaults, lib, name);
    RerankedRow(Reranked(db, first, defaults), second, defaults, lib, name);
    hide Reranked, Ranking, Selects, IndexIn;
  }

  lemma SameRanking(db: Db, first: seq<ClassKey>, second: seq<ClassKey>, lib: LibId, defaults: seq<string>)
    requires Selects(first, db) && Selects(second, Reranked(db, first, defaults))
    ensures Ranking(Reranked(db, first, defaults), second, lib, defaults) == Ranking(db, first, lib, defaults)
  {
    var after := Reranked(db, first, defaults);
    var n, m := Ranking(db, first, lib, defaults), Ranking(after, second, lib, defaults);
    RankingFacts(db, first, lib, defaults);
    RankingFacts(after, second, lib, defaults);
    var le := RankOrder(after.classes, lib, defaults);
    RankedIsSorted(db, first, lib, defaults);
    RankOrderIsTotal(after.classes, lib, defaults);
    forall name ensures multiset(n)[name] == multiset(m)[name] {
      OccursOnce(n, name);
      OccursOnce(m, name);
      assert name in n <==> name in m;
      assert name in multiset(n) <==> name in multiset(m);
    }
    SortedFormIsUnique(le, n, m);
  }

  lemma RankedIsSorted(db: Db, first: seq<ClassKey>, lib: LibId, defaults: seq<string>)
    requires Selects(first, db)
    ensures var after, n := Reranked(db, first, defaults), Ranking(db, first, lib, defaults);
      Sorted(RankOrder(after.classes, lib, defaults), n) && AntisymmetricOn(RankOrder(after.classes, lib, defaults), n)
  {
    RankingFacts(db, first, lib, defaults);
    var after, n := Reranked(db, first, defaults), Ranking(db, first, lib, defaults);
    forall i | 0 <= i < |n| ensures RowOf(after.classes, lib, n[i]).rank == i {
      IndexOfPlace(n, i);
      assert n[i] in n;
      RerankedRow(db, first, defaults, lib, n[i]);
    }
    hide Reranked, Ranking, Selects, IndexIn, RowOf;
    forall i, j | 0 <= i < j < |n| ensures RankLe(after.classes, lib, defaults, n[i], n[j]) {
      assert RankOrder(db.classes, lib, defaults)(n[i], n[j]);
    }
  }

  // ---- the theorems -----------------------------------------------------------------------------------

  lemma RerankedIsClean(db: Db, selected: seq<ClassKey>, t: Tables)
    requires Clean(db, t)
    ensures Clean(Reranked(db, selected, t.defaults), t)
  {
    hide Ranking, IndexIn;
  }

  /** A second boot changes nothing, on every database. */
  lemma MigrationIsIdempotent(db: Db, t: Tables, now: real, first: seq<ClassKey>, later: real, second: seq<ClassKey>)
    requires t.Sound() && Selects(first, Upkept(db, t, now))
    requires Selects(second, Migrated(db, t, now, first))
    ensures Upkept(Migrated(db, t, now, first), t, later) == Migrated(db, t, now, first)
    ensures Migrated(Migrated(db, t, now, first), t, later, second) == Migrated(db, t, now, first)
  {
    hide Clean;
    UpkeptIsClean(db, t, now);
    RerankedIsClean(Upkept(db, t, now), first, t);
    UpkeepOfClean(Migrated(db, t, now, first), t, later);
    RerankIsIdempotent(Upkept(db, t, now), first, second, t.defaults);
  }

  /** Afterwards every library has every default class, ranked by its place in the declared list. */
  lemma DefaultsAreSeededAndFirst(db: Db, t: Tables, now: real, selected: seq<ClassKey>, lib: LibId, k: nat)
    requires t.Sound() && Selects(selected, Upkept(db, t, now)) && lib in db.revisions && k < |t.defaults|
    ensures var after := Migrated(db, t, now, selected);
      (lib, t.defaults[k]) in after.classes && after.classes[(lib, t.defaults[k])].rank == k
  {
    var up := Upkept(db, t, now);
    UpkeptIsClean(db, t, now);
    RevisionsStay(db, t, now);
    hide Upkept, RankOrder, Sorted;
    DefaultsLead(up, selected, lib, t.defaults, |t.defaults|);
    RankingFacts(up, selected, lib, t.defaults);
    RerankedRow(up, selected, t.defaults, lib, t.defaults[k]);
    hide Ranking, Reranked, Clean, Selects;
    IndexOfPlace(Ranking(up, selected, lib, t.defaults), k);
  }

  lemma {:induction false} RevisionsStayRenamed(db: Db, renames: seq<(string, string)>)
    requires NoLoops(renames)
    ensures RenamedAll(db, renames).revisions == db.revisions
  {
    if renames != [] { RevisionsStayRenamed(db, renames[..|renames| - 1]); }
  }

  lemma RevisionsStay(db: Db, t: Tables, now: real)
    requires t.Sound()
    ensures Upkept(db, t, now).revisions == db.revisions
  {
    RevisionsStayRenamed(db, t.renames);
  }

  // ---- where every class row goes ------------------------------------------------------------------

  /** The earliest rename onto `name` whose old name has a row in the library. */
  function FirstSource(classes: map<ClassKey, ClassRow>, renames: seq<(string, string)>, lib: LibId, name: string)
    : (r: Option<nat>)
    ensures r.Some? ==> r.value < |renames| && renames[r.value].1 == name && (lib, renames[r.value].0) in classes
    ensures forall i :: 0 <= i < (if r.Some? then r.value else |renames|) ==>
      !(renames[i].1 == name && (lib, renames[i].0) in classes)
  {
    if renames == [] then None
    else
      var n := |renames| - 1;
      var earlier := FirstSource(classes, renames[..n], lib, name);
      if earlier.None? && renames[n].1 == name && (lib, renames[n].0) in classes then Some(n) else earlier
  }

  /** The row the renames leave under a name that is not renamed away. */
  ghost predicate IsRenamedRow(db: Db, renames: seq<(string, string)>, lib: LibId, name: string)
    requires NoLoops(renames)
  {
    var after, source := RenamedAll(db, renames).classes, FirstSource(db.classes, renames, lib, name);
    if (lib, name) in db.classes then (lib, name) in after && after[(lib, name)] == db.classes[(lib, name)]
    else if source.Some? then
      (lib, name) in after && after[(lib, name)] == db.classes[(lib, renames[source.value].0)]
    else (lib, name) !in after
  }

  lemma {:induction false} RenamedRow(db: Db, renames: seq<(string, string)>, lib: LibId, name: string)
    requires NoLoops(renames) && RenamedOnce(renames) && forall r :: r in renames ==> r.0 != name
    ensures IsRenamedRow(db, renames, lib, name)
  {
    if renames != [] {
      var n := |renames| - 1;
      var init, last := renames[..n], renames[n];
      assert RenamedAll(db, renames) == Renamed(RenamedAll(db, init), last.0, last.1);
      RenamedRow(db, init, lib, name);
      RenamedRow(db, init, lib, last.0);
      assert FirstSource(db.classes, init, lib, last.0).None?;
      RenameMoves(RenamedAll(db, init), last.0, last.1, lib, name);
      assert FirstSource(db.classes, renames, lib, name) ==
        if FirstSource(db.classes, init, lib, name).None? && last.1 == name && (lib, last.0) in db.classes then Some(n)
        else FirstSource(db.classes, init, lib, name);
      hide Renamed, RenamedAll, FirstSource;
    }
  }

  lemma RenameMoves(db: Db, from: string, onto: string, lib: LibId, name: string)
    requires from != onto && name != from
    ensures var after := Renamed(db, from, onto).classes;
      && ((lib, name) in after <==> (lib, name) in db.classes || (name == onto && (lib, from) in db.classes))
      && ((lib, name) in after ==>
            after[(lib, name)] == if (lib, name) in db.classes then db.classes[(lib, name)]
              else db.classes[(lib, from)])
  {
    var keys := set key | key in db.classes :: KeyAfter(key, from, onto);
    if (lib, name) in db.classes { assert KeyAfter((lib, name), from, onto) in keys; }
    if (lib, from) in db.classes { assert KeyAfter((lib, from), from, onto) in keys; }
  }

  /** The name a class is known by after the renames. */
  function TargetOf(renames: seq<(string, string)>, name: string): (r: string)
    ensures (name, r) in renames || (r == name && forall q :: q in renames ==> q.0 != name)
  {
    if renames == [] then name
    else if renames[0].0 == name then renames[0].1
    else TargetOf(renames[1..], name)
  }

  /**
   The row of `key` is the one that stays, under `onto`: `onto` is not retired, and a renamed row
   finds the new name free in its library, of old rows and of rows renamed before it.
   */
  ghost predicate Lands(db: Db, t: Tables, key: ClassKey, onto: string) {
    && key in db.classes && onto !in t.dead && onto == TargetOf(t.renames, key.1)
    && (key.1 != onto ==>
          && (key.0, onto) !in db.classes
          && FirstSource(db.classes, t.renames, key.0, onto).Some?
          && t.renames[FirstSource(db.classes, t.renames, key.0, onto).value].0 == key.1)
  }

  lemma LandedUpkeep(db: Db, t: Tables, now: real, key: ClassKey, onto: string)
    requires t.Sound() && Lands(db, t, key, onto)
    ensures (key.0, onto) in Upkept(db, t, now).classes
    ensures Upkept(db, t, now).classes[(key.0, onto)] == Converted(db.classes[key], onto, t.configs)
  {
    forall r | r in t.renames ensures r.0 != onto {
      var i :| 0 <= i < |t.renames| && t.renames[i] == r;
    }
    RenamedRow(db, t.renames, key.0, onto);
    assert key == (key.0, key.1);
    hide RenamedAll, KeptRows, FirstSource;
  }

  /** A row that lands keeps its age and its explicit configuration; a pristine one takes the declared default. */
  lemma ConfigsAreKept(db: Db, t: Tables, now: real, selected: seq<ClassKey>, key: ClassKey, onto: string)
    requires t.Sound() && Selects(selected, Upkept(db, t, now)) && Lands(db, t, key, onto)
    ensures (key.0, onto) in Migrated(db, t, now, selected).classes
    ensures var was, after := db.classes[key], Migrated(db, t, now, selected).classes[(key.0, onto)];
      && after.createdAt == was.createdAt
      && after.config == if was.config == PRISTINE && onto in t.configs then t.configs[onto] else was.config
  {
    LandedUpkeep(db, t, now, key, onto);
    hide Upkept, Ranking;
  }

  lemma LandsFrom(db: Db, t: Tables, lib: LibId, name: string) returns (source: Option<string>)
    requires t.Sound() && name !in t.dead && forall r :: r in t.renames ==> r.0 != name
    ensures forall was: string :: Lands(db, t, (lib, was), name) <==> source == Some(was)
    ensures source.None? ==> (lib, name) !in RenamedAll(db, t.renames).classes
  {
    RenamedRow(db, t.renames, lib, name);
    var first := FirstSource(db.classes, t.renames, lib, name);
    if (lib, name) in db.classes {
      source := Some(name);
    } else if first.Some? {
      var from := t.renames[first.value].0;
      assert TargetOf(t.renames, from) == name by {
        assert (from, name) in t.renames;
        TargetIsUnique(t.renames, from, name);
      }
      source := Some(from);
    } else {
      source := None;
    }
    hide RenamedAll, FirstSource;
    forall was: string | Lands(db, t, (lib, was), name) ensures source == Some(was) {
      if source.Some? { LandsOnce(db, t, lib, name, was, source.value); }
    }
  }

  lemma TargetIsUnique(renames: seq<(string, string)>, from: string, onto: string)
    requires RenamedOnce(renames) && (from, onto) in renames
    ensures TargetOf(renames, from) == onto
  {
  }

  lemma LandsOnce(db: Db, t: Tables, lib: LibId, name: string, a: string, b: string)
    requires t.Sound() && Lands(db, t, (lib, a), name) && Lands(db, t, (lib, b), name)
    ensures a == b
  {
  }

  lemma SeededRow(db: Db, t: Tables, now: real, lib: LibId, name: string)
    requires t.Sound() && (lib, name) !in RenamedAll(db, t.renames).classes && (lib, name) in Upkept(db, t, now).classes
    ensures lib in db.revisions && name in t.defaults
    ensures Upkept(db, t, now).classes[(lib, name)] == Converted(ClassRow(0, now, PRISTINE), name, t.configs)
  {
    RevisionsStayRenamed(db, t.renames);
    hide RenamedAll, KeptRows;
  }

  /** Every row after a boot is exactly one old row that landed there, or was seeded. */
  lemma RowsComeFrom(db: Db, t: Tables, now: real, selected: seq<ClassKey>, lib: LibId, name: string)
    returns (source: Option<string>)
    requires t.Sound() && Selects(selected, Upkept(db, t, now))
    requires (lib, name) in Migrated(db, t, now, selected).classes
    ensures forall was: string :: Lands(db, t, (lib, was), name) <==> source == Some(was)
    ensures source.None? ==>
      var after := Migrated(db, t, now, selected).classes[(lib, name)];
      && lib in db.revisions && name in t.defaults && after.createdAt == now
      && after.config == if name in t.configs then t.configs[name] else PRISTINE
  {
    MigratedRow(db, t, now, selected, lib, name);
    hide Migrated, Upkept, Lands, RenamedAll, t.Sound;
    source := LandsFrom(db, t, lib, name);
    if source.None? { SeededRow(db, t, now, lib, name); }
  }

  lemma MigratedRow(db: Db, t: Tables, now: real, selected: seq<ClassKey>, lib: LibId, name: string)
    requires t.Sound() && Selects(selected, Upkept(db, t, now))
    requires (lib, name) in Migrated(db, t, now, selected).classes
    ensures name !in t.dead && forall r :: r in t.renames ==> r.0 != name
    ensures (lib, name) in Upkept(db, t, now).classes
    ensures var up, after := Upkept(db, t, now).classes[(lib, name)],
      Migrated(db, t, now, selected).classes[(lib, name)];
      after.createdAt == up.createdAt && after.config == up.config
  {
    hide Upkept, Ranking, IndexIn;
    LegacyIsGone(db, t, now, selected);
    assert !t.IsLegacy((lib, name).1);
    hide Migrated, t.Sound;
    forall r | r in t.renames ensures r.0 != name {
      var i :| 0 <= i < |t.renames| && t.renames[i] == r;
    }
  }

  /** A taken new name keeps its own row; the row under the old name is dropped. */
  lemma TakenNameWins(db: Db, t: Tables, now: real, selected: seq<ClassKey>, lib: LibId, from: string, onto: string)
    requires t.Sound() && Selects(selected, Upkept(db, t, now))
    requires (from, onto) in t.renames && onto !in t.dead && (lib, onto) in db.classes
    ensures var after := Migrated(db, t, now, selected).classes;
      && (lib, from) !in after && (lib, onto) in after
      && after[(lib, onto)].config == Converted(db.classes[(lib, onto)], onto, t.configs).config
  {
    LegacyIsGone(db, t, now, selected);
    assert t.IsLegacy(from) by {
      var i :| 0 <= i < |t.renames| && t.renames[i] == (from, onto);
    }
    assert TargetOf(t.renames, onto) == onto;
    assert Lands(db, t, (lib, onto), onto);
    hide Migrated, Upkept, t.Sound, Lands;
    ConfigsAreKept(db, t, now, selected, (lib, onto), onto);
  }

  /**
   An explicit configuration under a name that is renamed away is the one in force afterwards if
   and only if the new name was free in that library, or held the same configuration already.
   */
  lemma RenamedConfigIsCarried(db: Db, t: Tables, now: real, selected: seq<ClassKey>, lib: LibId, from: string)
    requires t.Sound() && Selects(selected, Upkept(db, t, now))
    requires (lib, from) in db.classes && db.classes[(lib, from)].config != PRISTINE
    requires var onto := TargetOf(t.renames, from);
      && onto != from && onto !in t.dead
      && forall other :: (other, onto) in t.renames ==> other == from
    ensures var onto, after := TargetOf(t.renames, from), Migrated(db, t, now, selected).classes;
      && (lib, from) !in after && (lib, onto) in after
      && (after[(lib, onto)].config == db.classes[(lib, from)].config <==>
            || (lib, onto) !in db.classes
            || Converted(db.classes[(lib, onto)], onto, t.configs).config == db.classes[(lib, from)].config)
  {
    var onto := TargetOf(t.renames, from);
    LegacyIsGone(db, t, now, selected);
    assert t.IsLegacy(from) by {
      var i :| 0 <= i < |t.renames| && t.renames[i] == (from, onto);
    }
    var winner := if (lib, onto) in db.classes then onto else from;
    assert TargetOf(t.renames, onto) == onto;
    assert Lands(db, t, (lib, winner), onto);
    hide Migrated, Upkept, t.Sound, Lands;
    ConfigsAreKept(db, t, now, selected, (lib, winner), onto);
  }

  // ---- where every template goes -------------------------------------------------------------------

  /** A name declared as renamed lands at its new name, any other where it is. */
  ghost predicate NameLands(renames: seq<(string, string)>, name: string, onto: string) {
    (name, onto) in renames || (onto == name && forall r :: r in renames ==> r.0 != name)
  }

  /**
   The templates afterwards are, in the same order, exactly the old ones whose landing name is not
   retired (they stood at `places`), each unchanged but for that name.
   */
  ghost predicate TemplatesLand(was: seq<Template>, after: seq<Template>, t: Tables, places: seq<nat>) {
    && |places| == |after|
    && (forall i, j :: 0 <= i < j < |places| ==> places[i] < places[j])
    && (forall k :: 0 <= k < |places| ==>
          && places[k] < |was|
          && after[k].id == was[places[k]].id && after[k].lib == was[places[k]].lib
          && after[k].points == was[places[k]].points
          && NameLands(t.renames, was[places[k]].cls, after[k].cls))
    && (forall i :: 0 <= i < |was| ==>
          (i in places <==> forall onto :: NameLands(t.renames, was[i].cls, onto) ==> onto !in t.dead))
  }

  lemma {:induction false} RenamedTemplates(db: Db, renames: seq<(string, string)>)
    requires NoLoops(renames)
    ensures var ts := RenamedAll(db, renames).templates;
      && |ts| == |db.templates|
      && forall i :: 0 <= i < |ts| ==>
           ts[i] == db.templates[i].(cls := ts[i].cls) && NameLands(renames, db.templates[i].cls, ts[i].cls)
  {
    if renames != [] {
      var init, last := renames[..|renames| - 1], renames[|renames| - 1];
      RenamedTemplates(db, init);
      var mid, ts := RenamedAll(db, init).templates, RenamedAll(db, renames).templates;
      assert ts == RenamedRows(mid, last.0, last.1);
      assert renames == init + [last];
      forall i | 0 <= i < |ts| ensures NameLands(renames, db.templates[i].cls, ts[i].cls) {
        var name := db.templates[i].cls;
        assert NameLands(init, name, mid[i].cls);
        if (name, mid[i].cls) in init { assert (name, mid[i].cls).1 != last.0; }
      }
    }
  }

  lemma {:induction false} KeptPlaces(ts: seq<Template>, dead: set<string>) returns (places: seq<nat>)
    ensures |places| == |KeptRows(ts, dead)|
    ensures forall i, j :: 0 <= i < j < |places| ==> places[i] < places[j]
    ensures forall k :: 0 <= k < |places| ==> places[k] < |ts| && KeptRows(ts, dead)[k] == ts[places[k]]
    ensures forall i :: 0 <= i < |ts| ==> (i in places <==> ts[i].cls !in dead)
  {
    places := [];
    if ts != [] {
      var n := |ts| - 1;
      var init := KeptPlaces(ts[..n], dead);
      ghost var was, kept := KeptRows(ts[..n], dead), KeptRows(ts, dead);
      assert kept == was + if ts[n].cls in dead then [] else [ts[n]];
      hide KeptRows;
      if ts[n].cls in dead {
        places := init;
      } else {
        places := init + [n];
        assert forall i :: i in places <==> i in init || i == n;
      }
      assert forall i :: 0 <= i < n ==> ts[..n][i] == ts[i];
    }
  }

  lemma LandsAlive(t: Tables, name: string, onto: string)
    requires t.Sound() && NameLands(t.renames, name, onto)
    ensures onto !in t.dead <==> forall other :: NameLands(t.renames, name, other) ==> other !in t.dead
  {
  }

  /** A boot keeps every template but those whose landing name is retired, retagged as the lists declare. */
  lemma TemplatesAreKept(db: Db, t: Tables, now: real, selected: seq<ClassKey>) returns (places: seq<nat>)
    requires t.Sound() && Selects(selected, Upkept(db, t, now))
    ensures TemplatesLand(db.templates, Migrated(db, t, now, selected).templates, t, places)
  {
    var ts := RenamedAll(db, t.renames).templates;
    RenamedTemplates(db, t.renames);
    places := KeptPlaces(ts, t.dead);
    assert Migrated(db, t, now, selected).templates == KeptRows(ts, t.dead);
    hide RenamedAll, KeptRows, Migrated, NameLands, t.Sound;
    forall i | 0 <= i < |db.templates|
      ensures i in places <==> forall onto :: NameLands(t.renames, db.templates[i].cls, onto) ==> onto !in t.dead
    {
      LandsAlive(t, db.templates[i].cls, ts[i].cls);
    }
  }

  /** Classes that land outside the default list keep their relative order. */
  lemma CustomsFollowInOrder(db: Db, t: Tables, now: real, selected: seq<ClassKey>, lib: LibId,
                             a: string, aOnto: string, b: string, bOnto: string)
    requires t.Sound() && Selects(selected, Upkept(db, t, now))
    requires Lands(db, t, (lib, a), aOnto) && Lands(db, t, (lib, b), bOnto)
    requires aOnto !in t.defaults && bOnto !in t.defaults
    requires ShownBefore(db.classes[(lib, a)], db.classes[(lib, b)])
    ensures var after := Migrated(db, t, now, selected);
      && (lib, aOnto) in after.classes && (lib, bOnto) in after.classes
      && after.classes[(lib, aOnto)].rank < after.classes[(lib, bOnto)].rank
  {
    var up := Upkept(db, t, now);
    LandedUpkeep(db, t, now, (lib, a), aOnto);
    LandedUpkeep(db, t, now, (lib, b), bOnto);
    hide Upkept, Selects, t.Sound, Lands;
    CustomsKeepOrder(up, selected, lib, t.defaults, aOnto, bOnto);
    RerankedRow(up, selected, t.defaults, lib, aOnto);
    RerankedRow(up, selected, t.defaults, lib, bOnto);
    hide Reranked, Ranking;
  }

  lemma UpkeptHasDefaults(db: Db, t: Tables, now: real, lib: LibId)
    requires t.Sound() && lib in db.revisions
    ensures forall name :: name in t.defaults ==> (lib, name) in Upkept(db, t, now).classes
  {
    RevisionsStay(db, t, now);
    UpkeptIsClean(db, t, now);
    hide Upkept, t.Sound, t.IsLegacy;
  }

  /** Every class that is not a default ranks after all of them. */
  lemma CustomsComeLast(db: Db, t: Tables, now: real, selected: seq<ClassKey>, lib: LibId, name: string)
    requires t.Sound() && Selects(selected, Upkept(db, t, now)) && lib in db.revisions
    requires (lib, name) in Migrated(db, t, now, selected).classes && name !in t.defaults
    ensures |t.defaults| <= Migrated(db, t, now, selected).classes[(lib, name)].rank
  {
    var up := Upkept(db, t, now);
    RerankedRow(up, selected, t.defaults, lib, name);
    hide Upkept, RankOrder, Sorted, t.IsLegacy;
    UpkeptHasDefaults(db, t, now, lib);
    DefaultsLead(up, selected, lib, t.defaults, |t.defaults|);
    RankingFacts(up, selected, lib, t.defaults);
    hide Ranking, Reranked, Selects, t.Sound;
    assert name in Ranking(up, selected, lib, t.defaults);
  }

  /** No legacy or retired class is left, in the class rows or on a template. */
  lemma LegacyIsGone(db: Db, t: Tables, now: real, selected: seq<ClassKey>)
    requires t.Sound() && Selects(selected, Upkept(db, t, now))
    ensures var after := Migrated(db, t, now, selected);
      && (forall key :: key in after.classes ==> !t.IsLegacy(key.1))
      && (forall i :: 0 <= i < |after.templates| ==> !t.IsLegacy(after.templates[i].cls))
  {
    UpkeptIsClean(db, t, now);
    hide Upkept, Ranking;
  }
}
