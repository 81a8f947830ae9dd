/** The class lists app/library.py declares, and why the migration and key laws apply to them. */
module LibraryConstants {
  import opened Wrappers
  import opened LibraryTables
  import opened Migration
  import opened MatchKeys
  import ClassTables

  const DEFAULT_CLASSES: seq<string> := [
    "Substrate", "Pin-1", "RingOuter", "RingInner", "LidOuter", "LidInner", "Lid(SideView)", "NovelLidOuter",
    "NovelLidFP", "DieArea", "DAM1", "DAM2", "FiducialCircle", "FiducialCross", "FiducialSquare", "SMD-2T",
    "C4Ball", "BGABall", "Protrusion", "2DBarcode", "SMD-3T", "SMD-8T", "SMD-14T"
  ]

  const DEPRECATED_CLASSES: set<string> := {"FiducialMark", "Side", "DAM"}

  const LEGACY_CLASS_RENAME: seq<(string, string)> := [
    ("smd", "SMD-2T"), ("substrate", "Substrate"), ("die_area", "DieArea"), ("lid_outer", "LidOuter"),
    ("lid_inner", "LidInner"), ("bga_ball", "BGABall"), ("pin_mark", "Pin-1"), ("2d_barcode", "2DBarcode")
  ]

  const LARGE_OUTLINE := Config("signature", Some(0.0001))
  const SMALL_MARK := Config("signature", Some(0.0005))

  const CLASS_DEFAULT_MATCH_CONFIG: map<string, Config> := map[
    "Substrate" := LARGE_OUTLINE, "RingOuter" := LARGE_OUTLINE, "RingInner" := LARGE_OUTLINE,
    "LidOuter" := LARGE_OUTLINE, "LidInner" := LARGE_OUTLINE, "Lid(SideView)" := LARGE_OUTLINE,
    "NovelLidOuter" := LARGE_OUTLINE, "NovelLidFP" := LARGE_OUTLINE, "Pin-1" := SMALL_MARK,
    "DieArea" := SMALL_MARK, "DAM1" := SMALL_MARK, "DAM2" := SMALL_MARK
  ]

  const DECLARED := Tables(LEGACY_CLASS_RENAME, DEPRECATED_CLASSES, DEFAULT_CLASSES, CLASS_DEFAULT_MATCH_CONFIG)

  /** The place of a default class in the list, told from its length and two letters; -1 for the retired names. */
  function PlaceOf(s: string): int {
    if |s| < 4 then -1
    else if |s| == 4 then if s[3] == '1' then 10 else if s[3] == '2' then 11 else -1
    else if |s| == 5 then 1
    else if |s| == 6 then if s[4] == '2' then 15 else if s[4] == 'l' then 16 else if s[4] == '3' then 20 else 21
    else if |s| == 7 then if s[4] == 'r' then 9 else if s[4] == 'a' then 17 else 22
    else if |s| == 8 then if s[4] == 'u' then 4 else if s[4] == 'n' then 5 else -1
    else if |s| == 9 then
      if s[4] == 'O' then 2 else if s[4] == 'I' then 3 else if s[4] == 'r' then 19 else if s[0] == 'S' then 0 else -1
    else if |s| == 10 then if s[4] == 'l' then 8 else if s[4] == 'r' then 18 else -1
    else if |s| == 13 then if s[4] == 'S' then 6 else if s[4] == 'l' then 7 else 13
    else if |s| == 14 then if s[12] == 'l' then 12 else 14
    else -1
  }

  lemma DefaultPlaces()
    ensures forall i :: 0 <= i < |DEFAULT_CLASSES| ==> PlaceOf(DEFAULT_CLASSES[i]) == i
  {
  }

  lemma RenamePlaces()
    ensures forall i :: 0 <= i < |LEGACY_CLASS_RENAME| ==>
      PlaceOf(LEGACY_CLASS_RENAME[i].0) == -1 && PlaceOf(LEGACY_CLASS_RENAME[i].1) >= 0
  {
  }

  lemma DeadPlaces()
    ensures forall name :: name in DEPRECATED_CLASSES ==> PlaceOf(name) == -1
  {
    assert PlaceOf("FiducialMark") == -1 && PlaceOf("Side") == -1 && PlaceOf("DAM") == -1;
    hide PlaceOf;
  }

  lemma DefaultsAreApart()
    ensures forall i, j :: 0 <= i < j < |DEFAULT_CLASSES| ==> DEFAULT_CLASSES[i] != DEFAULT_CLASSES[j]
    ensures forall i :: 0 <= i < |DEFAULT_CLASSES| ==> DEFAULT_CLASSES[i] !in DEPRECATED_CLASSES
  {
    DefaultPlaces();
    DeadPlaces();
    hide PlaceOf;
  }

  lemma RenamesAreApart()
    ensures forall r :: r in LEGACY_CLASS_RENAME ==> PlaceOf(r.0) == -1 && PlaceOf(r.1) >= 0 && r.0 !in DEFAULT_CLASSES
  {
    DefaultPlaces();
    RenamePlaces();
    hide PlaceOf;
  }

  lemma ConfigsAreExplicit()
    ensures forall name :: name in CLASS_DEFAULT_MATCH_CONFIG ==>
      CLASS_DEFAULT_MATCH_CONFIG[name] in {LARGE_OUTLINE, SMALL_MARK}
    ensures LARGE_OUTLINE != PRISTINE && SMALL_MARK != PRISTINE
  {
  }

  /** The place of a legacy name in the rename list. */
  function OldPlace(s: string): int {
    if |s| < 3 then -1
    else if s[0] == 's' then if s[1] == 'm' then 0 else 1
    else if s[0] == 'd' then 2
    else if s[0] == 'l' then if |s| > 4 && s[4] == 'o' then 3 else 4
    else if s[0] == 'b' then 5
    else if s[0] == 'p' then 6
    else 7
  }

  lemma OldNamesAreApart()
    ensures RenamedOnce(LEGACY_CLASS_RENAME)
  {
    assert forall i :: 0 <= i < |LEGACY_CLASS_RENAME| ==> OldPlace(LEGACY_CLASS_RENAME[i].0) == i;
    hide OldPlace;
  }

  /** The declared lists meet what the migration laws ask of them. */
  lemma DeclaredTablesAreSound()
    ensures DECLARED.Sound()
  {
    hide PlaceOf;
    OldNamesAreApart();
    DefaultsAreApart();
    RenamesAreApart();
    ConfigsAreExplicit();
  }

  /** A boot with the declared lists. */
  ghost function UpkeptAsDeclared(db: Db, now: real): Db {
    DeclaredTablesAreSound();
    Upkept(db, DECLARED, now)
  }

  ghost function MigratedAsDeclared(db: Db, now: real, selected: seq<ClassKey>): Db
    requires Selects(selected, UpkeptAsDeclared(db, now))
  {
    DeclaredTablesAreSound();
    Migrated(db, DECLARED, now, selected)
  }

  /**
   With the declared lists an explicit configuration can be lost: "smd" is set to signature
   mode, and the library already has an untouched "SMD-2T", which keeps its default.
   */
  lemma BlockedRenameLosesConfig(lib: LibId, explicit: Config, db: Db, now: real, selected: seq<ClassKey>)
    requires explicit != PRISTINE && Selects(selected, UpkeptAsDeclared(db, now))
    requires (lib, "smd") in db.classes && db.classes[(lib, "smd")].config == explicit
    requires (lib, "SMD-2T") in db.classes && db.classes[(lib, "SMD-2T")].config == PRISTINE
    ensures var after := MigratedAsDeclared(db, now, selected).classes;
      (lib, "smd") !in after && (lib, "SMD-2T") in after && after[(lib, "SMD-2T")].config == PRISTINE
  {
    hide PlaceOf, Migrated, Upkept, Selects, DECLARED.Sound, Converted;
    DeclaredTablesAreSound();
    SmdIsRenamed();
    TakenNameWins(db, DECLARED, now, selected, lib, "smd", "SMD-2T");
    assert Converted(db.classes[(lib, "SMD-2T")], "SMD-2T", DECLARED.configs).config == PRISTINE by {
      UnlistedIsKept(db.classes[(lib, "SMD-2T")], "SMD-2T", DECLARED.configs);
    }
  }

  lemma UnlistedIsKept(row: ClassRow, name: string, configs: map<string, Config>)
    requires name !in configs
    ensures Converted(row, name, configs) == row
  {
  }

  lemma SmdIsRenamed()
    ensures ("smd", "SMD-2T") in DECLARED.renames && "SMD-2T" !in DECLARED.dead && "SMD-2T" !in DECLARED.configs
  {
    assert LEGACY_CLASS_RENAME[0] == ("smd", "SMD-2T");
    DeadPlaces();
    assert PlaceOf("SMD-2T") == 15;
  }

  // ---- key texts -----------------------------------------------------------------------------

  /** The key text of each default class, in the order of the list. */
  const SNAKE_KEYS: seq<string> := [
    "substrate", "pin_1", "ring_outer", "ring_inner", "lid_outer", "lid_inner", "lid_side_view", "novel_lid_outer",
    "novel_lid_fp", "die_area", "dam1", "dam2", "fiducial_circle", "fiducial_cross", "fiducial_square", "smd_2t",
    "c4_ball", "bga_ball", "protrusion", "2d_barcode", "smd_3t", "smd_8t", "smd_14t"
  ]

  const CLASS_JSON_KEY: map<string, string> :=
    map cls | cls in DEFAULT_CLASSES :: SNAKE_KEYS[IndexIn(DEFAULT_CLASSES, cls)]

  const TOP_ONLY := {TopView}
  const TOP_OR_BOTTOM := {TopView, BottomView}

  const CLASS_VIEW_CONSTRAINTS: map<string, set<View>> := map[
    "C4Ball" := TOP_ONLY, "BGABall" := {BottomView}, "FiducialCircle" := TOP_ONLY,
    "FiducialCross" := TOP_OR_BOTTOM, "FiducialSquare" := TOP_OR_BOTTOM, "SMD-2T" := TOP_OR_BOTTOM,
    "SMD-3T" := TOP_OR_BOTTOM, "SMD-8T" := TOP_OR_BOTTOM, "SMD-14T" := TOP_OR_BOTTOM
  ]

  const DECLARED_KEYS := ClassTables.Tables(CLASS_VIEW_CONSTRAINTS, CLASS_JSON_KEY)

  /** The place of a key text in the list, told from its length and one or two letters. */
  function SnakePlace(s: string): int {
    if |s| < 4 then -1
    else if |s| == 4 then if s[3] == '1' then 10 else 11
    else if |s| == 5 then 1
    else if |s| == 6 then if s[4] == '2' then 15 else if s[4] == '3' then 20 else 21
    else if |s| == 7 then if s[0] == 'c' then 16 else 22
    else if |s| == 8 then if s[0] == 'd' then 9 else 17
    else if |s| == 9 then if s[0] == 's' then 0 else if s[4] == 'o' then 4 else 5
    else if |s| == 10 then
      if s[0] == 'p' then 18 else if s[0] == '2' then 19 else if s[5] == 'o' then 2 else 3
    else if |s| == 12 then 8
    else if |s| == 13 then 6
    else if |s| == 14 then 13
    else if s[0] == 'n' then 7 else if s[9] == 'c' then 12 else 14
  }

  lemma SnakePlaces()
    ensures forall i :: 0 <= i < |SNAKE_KEYS| ==> SnakePlace(SNAKE_KEYS[i]) == i
  {
  }

  /** No two declared classes share a key text. */
  lemma DeclaredKeysAreApart()
    ensures DECLARED_KEYS.Valid()
  {
    forall c, d | c in CLASS_JSON_KEY && d in CLASS_JSON_KEY && CLASS_JSON_KEY[c] == CLASS_JSON_KEY[d] ensures c == d {
      var i := KeyPlace(c);
      var j := KeyPlace(d);
    }
  }

  lemma KeyPlace(c: string) returns (i: nat)
    requires c in CLASS_JSON_KEY
    ensures i < |DEFAULT_CLASSES| && DEFAULT_CLASSES[i] == c && SnakePlace(CLASS_JSON_KEY[c]) == i
  {
    SnakePlaces();
    i := IndexIn(DEFAULT_CLASSES, c);
  }
}
