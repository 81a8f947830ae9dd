/**
 What the two pipelines owe each other: the overlay of a live scan is what the
 persisted Match JSON collapses to, and it shows exactly the admitted matches.
 */
module PipelineAgreement {
  import opened Wrappers
  import opened MatchKeys
  import opened ListDicts
  import opened Filing
  import opened Suppression
  import opened ClassTables
  import opened SideViews
  import opened MatchPipeline

  /** A key whose instances are shown under display class `d`. */
  ghost predicate ShownAs(tables: Tables, key: string, d: string)
    requires tables.Valid()
  {
    ParseMatchKey(key).Some? && tables.Display(ParseMatchKey(key).value.snake) == d
  }

  ghost predicate ShowsClass(tables: Tables, out: MatchJson, d: string)
    requires tables.Valid()
  {
    exists k :: k in out.at && ShownAs(tables, k, d)
  }

  ghost predicate ShowsHandle(tables: Tables, out: MatchJson, d: string, h: string)
    requires tables.Valid()
  {
    exists k, i :: k in out.at && ShownAs(tables, k, d) && 0 <= i < |out.at[k]| && h in out.at[k][i]
  }

  /** The collapse loop shows a class exactly when some key does, with exactly the handles its keys hold. */
  lemma {:induction false} ByClassShows(tables: Tables, out: MatchJson, n: nat, d: string, h: string)
    requires tables.Valid() && n <= |out.keys|
    ensures var m := ByClass(tables, out, n);
            && (d in m <==> exists i :: 0 <= i < n && ShownAs(tables, out.keys[i], d))
            && (d in m ==> (h in m[d] <==> exists i :: 0 <= i < n && ShownAs(tables, out.keys[i], d)
                                                     && h in Handles(Get(out, out.keys[i]))))
  {
    hide ParseMatchKey, Handles, Tables.Display, Get;
    if n > 0 {
      ByClassShows(tables, out, n - 1, d, h);
      assert ByClass(tables, out, n) ==
        var before := ByClass(tables, out, n - 1);
        var key := out.keys[n - 1];
        if ParseMatchKey(key).None? then before
        else
          var c := tables.Display(ParseMatchKey(key).value.snake);
          before[c := (if c in before then before[c] else {}) + Handles(Get(out, key))];
    }
  }

  lemma ByClassIs(tables: Tables, out: MatchJson, d: string, h: string)
    requires tables.Valid() && out.Valid()
    ensures var m := ByClass(tables, out, |out.keys|);
            && (d in m <==> ShowsClass(tables, out, d))
            && (d in m ==> (h in m[d] <==> ShowsHandle(tables, out, d, h)))
  {
    hide ShownAs, ByClass;
    ByClassShows(tables, out, |out.keys|, d, h);
    assert forall i :: 0 <= i < |out.keys| ==> out.keys[i] in out.at;
    if ShowsClass(tables, out, d) {
      var k :| k in out.at && ShownAs(tables, k, d);
      var i :| 0 <= i < |out.keys| && out.keys[i] == k;
    }
    if ShowsHandle(tables, out, d, h) {
      var k, j :| k in out.at && ShownAs(tables, k, d) && 0 <= j < |out.at[k]| && h in out.at[k][j];
      var i :| 0 <= i < |out.keys| && out.keys[i] == k;
      assert h in Handles(Get(out, out.keys[i]));
    }
  }

  // ---- suppression is invisible after the collapse --------------------------------------

  /** What a scan files: no key without instances. */
  ghost predicate NoEmptyList(out: MatchJson) {
    forall k :: k in out.at ==> out.at[k] != []
  }

  lemma SuppressionShowsHandle(tables: Tables, out: MatchJson, d: string, h: string)
    requires tables.Valid() && out.Valid()
    ensures ShowsHandle(tables, Suppressed(out), d, h) <==> ShowsHandle(tables, out, d, h)
  {
    if ShowsHandle(tables, out, d, h) {
      var k, i :| k in out.at && ShownAs(tables, k, d) && 0 <= i < |out.at[k]| && h in out.at[k][i];
      var s := Slot(k, i);
      assert Pooled(out, s);
      var t := EveryInstanceIsCovered(out, s);
      assert h in HandleSet(out.at[s.key][s.pos]);
      var r := SurvivorIsKept(out, t);
      assert h in Suppressed(out).at[r.key][r.pos];
    }
    if ShowsHandle(tables, Suppressed(out), d, h) {
      var k, i :| k in Suppressed(out).at && ShownAs(tables, k, d)
                && 0 <= i < |Suppressed(out).at[k]| && h in Suppressed(out).at[k][i];
      var o := KeptWasThere(out, Slot(k, i));
      assert h in out.at[o.key][o.pos];
    }
  }

  /** A class with an instance, not only with a key. */
  ghost predicate HoldsInstance(tables: Tables, out: MatchJson, d: string)
    requires tables.Valid()
  {
    exists k :: k in out.at && ShownAs(tables, k, d) && out.at[k] != []
  }

  /** A pass that removes something also removes the keys without instances. */
  lemma SuppressionShowsClass(tables: Tables, out: MatchJson, d: string)
    requires tables.Valid() && out.Valid() && RedundantSlots(out) != {}
    ensures ShowsClass(tables, Suppressed(out), d) <==> HoldsInstance(tables, out, d)
  {
    if HoldsInstance(tables, out, d) {
      var k :| k in out.at && ShownAs(tables, k, d) && out.at[k] != [];
      var t := Slot(k, 0);
      if Redundant(out, t) {
        t := EveryInstanceIsCovered(out, t);
      }
      var r := SurvivorIsKept(out, t);
      assert ShownAs(tables, r.key, d);
    }
    if ShowsClass(tables, Suppressed(out), d) {
      var k :| k in Suppressed(out).at && ShownAs(tables, k, d);
      SuppressedKeysHeld(out, k);
    }
  }

  lemma SuppressedKeysHeld(out: MatchJson, k: string)
    requires out.Valid() && RedundantSlots(out) != {} && k in Suppressed(out).at
    ensures k in out.at && out.at[k] != []
  {
  }

  /**
   Suppression leaves the handles per class alone if and only if it removes nothing, or no class of
   the dict has only keys without instances. A scan never files an empty list.
   */
  lemma SuppressionKeepsByClass(tables: Tables, out: MatchJson)
    requires tables.Valid() && out.Valid()
    ensures ByClass(tables, Suppressed(out), |Suppressed(out).keys|) == ByClass(tables, out, |out.keys|) <==>
            RedundantSlots(out) == {} || forall d :: ShowsClass(tables, out, d) ==> HoldsInstance(tables, out, d)
  {
    hide ByClass, ShowsClass, ShowsHandle, HoldsInstance;
    if RedundantSlots(out) != {} {
      var a, b := ByClass(tables, Suppressed(out), |Suppressed(out).keys|), ByClass(tables, out, |out.keys|);
      hide Suppressed, RedundantSlots;
      forall d ensures d in a <==> HoldsInstance(tables, out, d)
        ensures d in b <==> ShowsClass(tables, out, d)
        ensures d in a && d in b ==> a[d] == b[d]
      {
        ByClassIs(tables, out, d, "");
        ByClassIs(tables, Suppressed(out), d, "");
        SuppressionShowsClass(tables, out, d);
        if d in a && d in b { SameHandles(tables, out, d); }
      }
      forall d | HoldsInstance(tables, out, d) ensures ShowsClass(tables, out, d) { HeldIsShown(tables, out, d); }
      if forall d :: ShowsClass(tables, out, d) ==> HoldsInstance(tables, out, d) { assert a.Keys == b.Keys; }
    }
  }

  lemma HeldIsShown(tables: Tables, out: MatchJson, d: string)
    requires tables.Valid() && HoldsInstance(tables, out, d)
    ensures ShowsClass(tables, out, d)
  {
  }

  lemma SameHandles(tables: Tables, out: MatchJson, d: string)
    requires tables.Valid() && out.Valid()
    requires d in ByClass(tables, out, |out.keys|) && d in ByClass(tables, Suppressed(out), |Suppressed(out).keys|)
    ensures ByClass(tables, Suppressed(out), |Suppressed(out).keys|)[d] == ByClass(tables, out, |out.keys|)[d]
  {
    hide ByClass, ShowsClass, ShowsHandle, Suppressed;
    var a, b := ByClass(tables, Suppressed(out), |Suppressed(out).keys|), ByClass(tables, out, |out.keys|);
    forall h ensures h in a[d] <==> h in b[d] {
      ByClassIs(tables, out, d, h);
      ByClassIs(tables, Suppressed(out), d, h);
      SuppressionShowsHandle(tables, out, d, h);
    }
  }

  // ---- the dict of a scan ------------------------------------------------------------------

  lemma {:induction false} AddAllHolds(es: seq<Emission<string, Instance>>, k: string, m: Instance)
    ensures var out := AddAll(Empty<string, Instance>(), es);
            && NoEmptyList(out)
            && (m in Get(out, k) <==> Emission(k, m) in es)
    decreases |es|
  {
    if es != [] {
      var last := es[|es| - 1];
      AddAllHolds(es[..|es| - 1], k, m);
      ExtendAt(AddAll(Empty<string, Instance>(), es[..|es| - 1]), last.key, [last.inst], k);
      assert es == es[..|es| - 1] + [last];
    }
  }

  /**
   Collapsing what save-match persists gives exactly what scan-all shows, for every
   library, drawing, matcher and set of rectangles, with suppression on or off.
   */
  lemma SaveCollapsesToScan<T>(sc: Scan<T>, enabled: bool)
    requires sc.tables.Valid()
    ensures ByClass(sc.tables, Persisted(sc, enabled), |Persisted(sc, enabled).keys|)
         == ByClass(sc.tables, Collected(sc), |Collected(sc).keys|)
  {
    hide ByClass, Suppressed, EmitClasses;
    AddAllHolds(EmitClasses(sc, true, |sc.lib.classes|), "", []);
    SuppressionKeepsByClass(sc.tables, Collected(sc));
    forall d | ShowsClass(sc.tables, Collected(sc), d) ensures HoldsInstance(sc.tables, Collected(sc), d) {
      var k :| k in Collected(sc).at && ShownAs(sc.tables, k, d);
      assert Collected(sc).at[k] != [];
    }
  }

  // ---- what the overlay means -----------------------------------------------------------------

  /** Template `idx` of a class of the library matched `m`, and its view is allowed. */
  ghost predicate Admitted<T>(sc: Scan<T>, cls: string, idx: nat, m: Instance) {
    && cls in sc.lib.classes
    && idx < |sc.lib.TemplatesOf(cls)|
    && m in sc.MatchesOf(cls, idx)
    && sc.Admits(cls, m)
  }

  /** An admitted match, told from the library, the matcher and the constraints. */
  lemma AdmittedMeans<T>(sc: Scan<T>, cls: string, idx: nat, m: Instance)
    ensures Admitted(sc, cls, idx, m) <==>
      && cls in sc.lib.classes && cls in sc.lib.templates && idx < |sc.lib.templates[cls]|
      && (var explicit := cls in sc.lib.configs && sc.lib.configs[cls].strategy.Some?
            && sc.lib.configs[cls].strategy.value != "";
          m in sc.find(sc.lib.templates[cls][idx],
                       if explicit then sc.lib.configs[cls].strategy.value else "chamfer",
                       if cls in sc.lib.configs then sc.lib.configs[cls].bboxRatio else None))
      && (cls in sc.tables.constraints ==>
            exists v :: v in sc.tables.constraints[cls] && SidePrefix(m, sc.shapes, sc.views) == Some(v))
  {
    hide SidePrefix;
  }

  lemma {:induction false} EmitTemplatesHold<T>(sc: Scan<T>, cls: string, n: nat, e: Emission<string, Instance>)
    requires n <= |sc.lib.TemplatesOf(cls)|
    ensures e in EmitTemplates(sc, cls, n) <==>
            exists idx: nat :: idx < n && e.inst in sc.MatchesOf(cls, idx) && sc.KeyOf(cls, idx, e.inst) == Some(e.key)
  {
    hide Scan.KeyOf, Scan.MatchesOf;
    if n > 0 {
      EmitTemplatesHold(sc, cls, n - 1, e);
      EmissionsHold(sc.Keyer(cls, n - 1), sc.MatchesOf(cls, n - 1), e);
      assert sc.Keyer(cls, n - 1)(e.inst) == sc.KeyOf(cls, n - 1, e.inst);
      assert EmitTemplates(sc, cls, n)
          == EmitTemplates(sc, cls, n - 1) + Emissions(sc.Keyer(cls, n - 1), sc.MatchesOf(cls, n - 1));
    }
  }

  lemma {:induction false} EmitClassesHold<T>(sc: Scan<T>, n: nat, e: Emission<string, Instance>)
    requires n <= |sc.lib.classes|
    ensures e in EmitClasses(sc, false, n) <==> exists i :: 0 <= i < n && e in EmitClass(sc, sc.lib.classes[i])
  {
    hide EmitClass;
    if n > 0 {
      EmitClassesHold(sc, n - 1, e);
    }
  }

  lemma ClassFiles<T>(sc: Scan<T>, cls: string, k: string, m: Instance)
    requires cls in sc.lib.classes
    ensures Emission(k, m) in EmitClass(sc, cls) <==>
            exists idx: nat :: Admitted(sc, cls, idx, m) && sc.KeyOf(cls, idx, m) == Some(k)
  {
    hide EmitTemplates, Scan.MatchesOf;
    EmitTemplatesHold(sc, cls, |sc.lib.TemplatesOf(cls)|, Emission(k, m));
  }

  /** The scan files `m` under `k` exactly when some admitted match of some template has that key. */
  lemma CollectedHolds<T>(sc: Scan<T>, k: string, m: Instance)
    ensures m in Get(Collected(sc), k) <==>
            exists cls, idx: nat :: Admitted(sc, cls, idx, m) && sc.KeyOf(cls, idx, m) == Some(k)
  {
    var n, e := |sc.lib.classes|, Emission(k, m);
    GateLosesNothing(sc, n);
    AddAllHolds(EmitClasses(sc, true, n), k, m);
    EmitClassesHold(sc, n, e);
    CollectedIs(sc);
    hide EmitClasses, EmitClass, Collected, AddAll, Scan.MatchesOf, Scan.KeyOf, Scan.Admits;
    forall cls | cls in sc.lib.classes
      ensures e in EmitClass(sc, cls) <==>
              exists idx: nat :: Admitted(sc, cls, idx, m) && sc.KeyOf(cls, idx, m) == Some(k)
    {
      ClassFiles(sc, cls, k, m);
    }
    if cls, idx: nat :| Admitted(sc, cls, idx, m) && sc.KeyOf(cls, idx, m) == Some(k) {
      var i :| 0 <= i < n && sc.lib.classes[i] == cls;
      assert e in EmitClass(sc, sc.lib.classes[i]);
    }
    if e in EmitClasses(sc, false, n) {
      var i :| 0 <= i < n && e in EmitClass(sc, sc.lib.classes[i]);
      assert sc.lib.classes[i] in sc.lib.classes;
    }
  }

  lemma CollectedIs<T>(sc: Scan<T>)
    ensures Collected(sc) == AddAll(Empty(), EmitClasses(sc, true, |sc.lib.classes|))
  {
  }

  /** The class a match is shown under: by its key text, less a view name in front when it lies in no view. */
  function ShownClass<T>(sc: Scan<T>, cls: string, m: Instance): string
    requires sc.tables.Valid()
  {
    sc.tables.Display(ParsedText(sc.ViewOf(m), sc.tables.JsonKey(cls)))
  }

  /** An emitted key is shown under one class. */
  lemma EmittedKeyShows<T>(sc: Scan<T>, cls: string, idx: nat, m: Instance, d: string)
    requires sc.tables.Valid() && sc.KeyOf(cls, idx, m).Some?
    ensures ShownAs(sc.tables, sc.KeyOf(cls, idx, m).value, d) <==> ShownClass(sc, cls, m) == d
  {
    hide ParseMatchKey, EmitKey, ParsedText, SidePrefix, Tables.Display, Tables.JsonKey;
    ParsedTextIs(sc.ViewOf(m), sc.tables.JsonKey(cls), idx);
  }

  /**
   That class is the display class of the match's own key text, unless the match lies in no view and
   the key text begins with a view name and a dot.
   */
  lemma ShownUnderOwnText<T>(sc: Scan<T>, cls: string, m: Instance)
    requires sc.tables.Valid()
    ensures ParsedText(sc.ViewOf(m), sc.tables.JsonKey(cls)) == sc.tables.JsonKey(cls) <==>
            sc.ViewOf(m).Some? || !LooksPrefixed(ViewNamed, sc.tables.JsonKey(cls))
  {
    hide LooksPrefixed, SidePrefix;
    var text := sc.tables.JsonKey(cls);
    BareStrips(text);
    if LooksPrefixed(ViewNamed, text) {
      var v :| text == Prefixed(Some(v), Bare(text));
      assert |text| > |Bare(text)|;
    }
  }

  /**
   The overlay shows handle `h` under class `d` exactly when an admitted match that is shown as `d`
   consumed it.
   */
  lemma OverlayMeaning<T>(sc: Scan<T>, d: string, h: string)
    requires sc.tables.Valid()
    ensures ShowsHandle(sc.tables, Collected(sc), d, h) <==>
            exists cls, idx: nat, m :: Admitted(sc, cls, idx, m) && h in m && ShownClass(sc, cls, m) == d
  {
    hide Collected, ShownAs, ShownClass, SidePrefix, EmitKey, Scan.MatchesOf;
    var out := Collected(sc);
    if ShowsHandle(sc.tables, out, d, h) {
      var k, i :| k in out.at && ShownAs(sc.tables, k, d) && 0 <= i < |out.at[k]| && h in out.at[k][i];
      var m := out.at[k][i];
      assert m in Get(out, k);
      CollectedHolds(sc, k, m);
      var cls, idx: nat :| Admitted(sc, cls, idx, m) && sc.KeyOf(cls, idx, m) == Some(k);
      EmittedKeyShows(sc, cls, idx, m, d);
    }
    if cls, idx: nat, m :| Admitted(sc, cls, idx, m) && h in m && ShownClass(sc, cls, m) == d {
      var k := sc.KeyOf(cls, idx, m).value;
      CollectedHolds(sc, k, m);
      EmittedKeyShows(sc, cls, idx, m, d);
      var i :| 0 <= i < |Get(out, k)| && Get(out, k)[i] == m;
      assert k in out.at && h in out.at[k][i];
    }
  }
}
