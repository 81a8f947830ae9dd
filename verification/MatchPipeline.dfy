/**
 The two users of the view split: `scan_all` (app/main.py) and the save-match worker
 (app/jobs.py). Both run every template, file each instance under a view-prefixed
 key, and differ in what they do with the dict: one collapses it to handles per class,
 the other suppresses contained instances, recounts and persists it.
 */
module MatchPipeline {
  import opened Wrappers
  import opened Sorting
  import opened MatchKeys
  import opened ListDicts
  import opened Filing
  import opened Suppression
  import opened SuppressionPass
  import opened ClassTables
  import opened SideViews

  datatype Config = Config(strategy: Option<string>, bboxRatio: Option<real>)

  /** What `load_library` returns. */
  datatype Library<T> = Library(classes: seq<string>, configs: map<string, Config>, templates: map<string, seq<T>>) {
    function TemplatesOf(cls: string): seq<T> {
      if cls in templates then templates[cls] else []
    }

    function StrategyOf(cls: string): string {
      if cls in configs && configs[cls].strategy.Some? && configs[cls].strategy.value != ""
      then configs[cls].strategy.value else "chamfer"
    }

    function RatioOf(cls: string): Option<real> {
      if cls in configs then configs[cls].bboxRatio else None
    }
  }

  /** The matcher, a function of template, strategy and ratio over one fixed drawing. */
  type Matcher<!T> = (T, string, Option<real>) -> seq<Instance>

  /** Everything one scan is a function of. */
  datatype Scan<!T> = Scan(tables: Tables, lib: Library<T>, find: Matcher<T>, shapes: Shapes, views: Views) {
    function MatchesOf(cls: string, idx: nat): seq<Instance>
      requires idx < |lib.TemplatesOf(cls)|
    {
      find(lib.TemplatesOf(cls)[idx], lib.StrategyOf(cls), lib.RatioOf(cls))
    }

    function ViewOf(m: Instance): Option<View> { SidePrefix(m, shapes, views) }

    /** The key an instance is filed under, None when its view is not allowed for the class. */
    function KeyOf(cls: string, idx: nat, m: Instance): Option<string> {
      if Admits(cls, m) then Some(EmitKey(ViewOf(m), tables.JsonKey(cls), idx)) else None
    }

    function Keyer(cls: string, idx: nat): Instance -> Option<string> { m => KeyOf(cls, idx, m) }

    function Viewer(): Instance -> Option<View> { m => ViewOf(m) }

    predicate Admits(cls: string, m: Instance) { tables.IsAllowedView(cls, ViewOf(m)) }

    /** The skip-when-impossible gate: constrained, and none of the allowed rectangles is set. */
    predicate Gated(cls: string) {
      cls in tables.constraints && forall v :: v in tables.constraints[cls] ==> views.RectOf(v).None?
    }
  }

  type Filed = Emission<string, Instance>

  // ---- what a scan files, instance by instance ------------------------------------

  function EmitMatches<T>(sc: Scan<T>, cls: string, idx: nat, ms: seq<Instance>): seq<Filed> {
    Emissions(sc.Keyer(cls, idx), ms)
  }

  /** The first `n` templates of a class. */
  function EmitTemplates<T>(sc: Scan<T>, cls: string, n: nat): seq<Filed>
    requires n <= |sc.lib.TemplatesOf(cls)|
  {
    if n == 0 then []
    else EmitTemplates(sc, cls, n - 1) + EmitMatches(sc, cls, n - 1, sc.MatchesOf(cls, n - 1))
  }

  function EmitClass<T>(sc: Scan<T>, cls: string): seq<Filed> {
    EmitTemplates(sc, cls, |sc.lib.TemplatesOf(cls)|)
  }

  /** The first `n` classes, with or without the skip-when-impossible gate. */
  function EmitClasses<T>(sc: Scan<T>, gate: bool, n: nat): seq<Filed>
    requires n <= |sc.lib.classes|
  {
    if n == 0 then []
    else
      var cls := sc.lib.classes[n - 1];
      EmitClasses(sc, gate, n - 1) + if gate && sc.Gated(cls) then [] else EmitClass(sc, cls)
  }

  /** The prefixed-key dict both pipelines build. */
  function Collected<T>(sc: Scan<T>): (out: MatchJson)
    ensures out.Valid()
  {
    AddAllIsValid(Empty<string, Instance>(), EmitClasses(sc, true, |sc.lib.classes|));
    AddAll(Empty(), EmitClasses(sc, true, |sc.lib.classes|))
  }

  // ---- the gate loses nothing --------------------------------------------------------

  lemma GatedAdmitsNothing<T>(sc: Scan<T>, cls: string, m: Instance)
    requires sc.Gated(cls)
    ensures !sc.Admits(cls, m)
  {
  }

  lemma GatedEmitsNothing<T>(sc: Scan<T>, cls: string, idx: nat, ms: seq<Instance>)
    requires sc.Gated(cls)
    ensures EmitMatches(sc, cls, idx, ms) == []
  {
    var es := EmitMatches(sc, cls, idx, ms);
    if es != [] {
      EmissionsHold(sc.Keyer(cls, idx), ms, es[0]);
      GatedAdmitsNothing(sc, cls, es[0].inst);
    }
  }

  lemma {:induction false} GatedClassEmitsNothing<T>(sc: Scan<T>, cls: string, n: nat)
    requires sc.Gated(cls) && n <= |sc.lib.TemplatesOf(cls)|
    ensures EmitTemplates(sc, cls, n) == []
  {
    if n > 0 {
      GatedClassEmitsNothing(sc, cls, n - 1);
      GatedEmitsNothing(sc, cls, n - 1, sc.MatchesOf(cls, n - 1));
    }
  }

  /** Skipping impossible classes files exactly what scanning them would have filed. */
  lemma {:induction false} GateLosesNothing<T>(sc: Scan<T>, n: nat)
    requires n <= |sc.lib.classes|
    ensures EmitClasses(sc, true, n) == EmitClasses(sc, false, n)
  {
    if n > 0 {
      GateLosesNothing(sc, n - 1);
      var cls := sc.lib.classes[n - 1];
      if sc.Gated(cls) { GatedClassEmitsNothing(sc, cls, |sc.lib.TemplatesOf(cls)|); }
    }
  }

  // ---- the loops ----------------------------------------------------------------------

  /** The raw number of matches of the first `n` templates of a class. */
  function FoundInClass<T>(sc: Scan<T>, cls: string, n: nat): nat
    requires n <= |sc.lib.TemplatesOf(cls)|
  {
    if n == 0 then 0 else FoundInClass(sc, cls, n - 1) + |sc.MatchesOf(cls, n - 1)|
  }

  /** The raw number of matches of the first `n` classes that pass the gate. */
  function FoundInAll<T>(sc: Scan<T>, n: nat): nat
    requires n <= |sc.lib.classes|
  {
    if n == 0 then 0
    else
      var cls := sc.lib.classes[n - 1];
      FoundInAll(sc, n - 1) + if sc.Gated(cls) then 0 else FoundInClass(sc, cls, |sc.lib.TemplatesOf(cls)|)
  }

  /** Appends every group to the list under its key. */
  method MergeGroups(out0: MatchJson, grouped: MatchJson) returns (out: MatchJson)
    requires grouped.Valid()
    ensures out == ExtendAll(out0, grouped, |grouped.keys|)
  {
    out := out0;
    var i := 0;
    while i < |grouped.keys|
      invariant i <= |grouped.keys| && out == ExtendAll(out0, grouped, i)
    {
      out := Extend(out, grouped.keys[i], grouped.at[grouped.keys[i]]);
      i := i + 1;
    }
  }

  lemma EmitIs<T>(sc: Scan<T>, cls: string, idx: nat, ms: seq<Instance>)
    ensures EmitMatches(sc, cls, idx, ms) == Emissions(sc.Keyer(cls, idx), ms)
  {
  }

  /** The template loop both pipelines run for one class. */
  method ScanClass<T>(sc: Scan<T>, cls: string, out0: MatchJson, counts0: Counts, ghost before: seq<Filed>)
    returns (out: MatchJson, found: nat, counts: Counts)
    requires out0.Valid() && CountsViews(counts0, sc.Viewer(), before)
    ensures out == AddAll(out0, EmitClass(sc, cls))
    ensures found == FoundInClass(sc, cls, |sc.lib.TemplatesOf(cls)|)
    ensures found == |EmitClass(sc, cls)| + counts.dropped - counts0.dropped
    ensures CountsViews(counts, sc.Viewer(), before + EmitClass(sc, cls))
  {
    hide EmitMatches, Emissions, Extend, ExtendAll, CountsViews, Counts.Plus, Scan.Keyer, Scan.Viewer;
    out, found, counts := out0, 0, counts0;
    var templates := sc.lib.TemplatesOf(cls);
    var idx := 0;
    assert before + EmitTemplates(sc, cls, 0) == before;
    while idx < |templates|
      invariant idx <= |templates|
      invariant out == AddAll(out0, EmitTemplates(sc, cls, idx))
      invariant found == FoundInClass(sc, cls, idx)
      invariant found == |EmitTemplates(sc, cls, idx)| + counts.dropped - counts0.dropped
      invariant CountsViews(counts, sc.Viewer(), before + EmitTemplates(sc, cls, idx))
    {
      var ms := sc.MatchesOf(cls, idx);
      var grouped, more := SplitMatchesBySide(sc.Keyer(cls, idx), sc.Viewer(), ms);
      ghost var es, sofar := EmitMatches(sc, cls, idx, ms), EmitTemplates(sc, cls, idx);
      EmitIs(sc, cls, idx, ms);
      AddAllIsValid(Empty<string, Instance>(), es);
      MergeOfGroups(out, es);
      AddAllConcat(out0, sofar, es);
      CountsAdd(counts, more, sc.Keyer(cls, idx), sc.Viewer(), before + sofar, ms);
      assert before + sofar + es == before + (sofar + es);
      PlusDrops(counts, more);
      out := MergeGroups(out, grouped);
      counts := counts.Plus(more);
      found := found + |ms|;
      idx := idx + 1;
    }
  }

  lemma PlusDrops(a: Counts, b: Counts)
    ensures a.Plus(b).dropped == a.dropped + b.dropped
  {
  }

  lemma CollectStep<T>(sc: Scan<T>, i: nat)
    requires i < |sc.lib.classes|
    ensures var cls := sc.lib.classes[i];
            var before, after := EmitClasses(sc, true, i), EmitClasses(sc, true, i + 1);
            if sc.Gated(cls) then after == before
            else
              && after == before + EmitClass(sc, cls)
              && AddAll(Empty(), after) == AddAll(AddAll(Empty(), before), EmitClass(sc, cls))
    ensures AddAll<string, Instance>(Empty(), EmitClasses(sc, true, i)).Valid()
    ensures FoundInAll(sc, i + 1) == FoundInAll(sc, i)
          + if sc.Gated(sc.lib.classes[i]) then 0
            else FoundInClass(sc, sc.lib.classes[i], |sc.lib.TemplatesOf(sc.lib.classes[i])|)
  {
    hide EmitTemplates, Extend;
    var before := EmitClasses(sc, true, i);
    assert before + [] == before;
    AddAllConcat(Empty(), before, EmitClass(sc, sc.lib.classes[i]));
    AddAllIsValid(Empty<string, Instance>(), before);
  }

  lemma NothingCounted(viewOf: Instance -> Option<View>)
    ensures CountsViews<string, Instance>(ZERO, viewOf, [])
  {
  }

  /** What the loop over the classes has built after `n` of them. */
  ghost predicate CollectedUpTo<T>(sc: Scan<T>, n: nat, out: MatchJson, found: nat, counts: Counts)
    requires n <= |sc.lib.classes|
  {
    var es := EmitClasses(sc, true, n);
    && out == AddAll(Empty(), es)
    && found == FoundInAll(sc, n) == |es| + counts.dropped
    && CountsViews(counts, sc.Viewer(), es)
  }

  /** One class: skipped when its view constraint cannot be met, scanned otherwise. */
  method CollectClass<T>(sc: Scan<T>, n: nat, out0: MatchJson, found0: nat, counts0: Counts)
    returns (out: MatchJson, found: nat, counts: Counts)
    requires n < |sc.lib.classes| && CollectedUpTo(sc, n, out0, found0, counts0)
    ensures CollectedUpTo(sc, n + 1, out, found, counts)
  {
    hide EmitClasses, EmitClass, EmitTemplates, AddAll, FoundInAll, FoundInClass, CountsViews, Scan.Viewer;
    out, found, counts := out0, found0, counts0;
    var cls := sc.lib.classes[n];
    var skip := cls in sc.tables.constraints
             && !exists v :: v in sc.tables.constraints[cls] && sc.views.RectOf(v).Some?;
    CollectStep(sc, n);
    if !skip {
      var f;
      out, f, counts := ScanClass(sc, cls, out, counts, EmitClasses(sc, true, n));
      found := found + f;
    }
  }

  method CollectAll<T>(sc: Scan<T>) returns (out: MatchJson, found: nat, counts: Counts)
    ensures out == Collected(sc)
    ensures found == FoundInAll(sc, |sc.lib.classes|)
    ensures found == |EmitClasses(sc, true, |sc.lib.classes|)| + counts.dropped
    ensures CountsViews(counts, sc.Viewer(), EmitClasses(sc, true, |sc.lib.classes|))
  {
    out, found, counts := Empty(), 0, ZERO;
    NothingCounted(sc.Viewer());
    var i := 0;
    while i < |sc.lib.classes|
      invariant i <= |sc.lib.classes| && CollectedUpTo(sc, i, out, found, counts)
    {
      hide CollectedUpTo;
      out, found, counts := CollectClass(sc, i, out, found, counts);
      i := i + 1;
    }
  }

  // ---- collapsing to handles per class ---------------------------------------------------

  function Handles(insts: seq<Instance>): set<string> {
    set i, h | 0 <= i < |insts| && h in insts[i] :: h
  }

  /** The handles under the first `n` keys, united per display class. */
  function ByClass(tables: Tables, out: MatchJson, n: nat): map<string, set<string>>
    requires tables.Valid() && n <= |out.keys|
  {
    if n == 0 then map[]
    else
      var before := ByClass(tables, out, n - 1);
      var key := out.keys[n - 1];
      var parsed := ParseMatchKey(key);
      if parsed.None? then before
      else
        var d := tables.Display(parsed.value.snake);
        before[d := (if d in before then before[d] else {}) + Handles(Get(out, key))]
  }

  /** Adds the handles of every instance to a bucket. */
  method Updated(bucket0: set<string>, insts: seq<Instance>) returns (bucket: set<string>)
    ensures bucket == bucket0 + Handles(insts)
  {
    bucket := bucket0;
    var i := 0;
    while i < |insts|
      invariant i <= |insts| && bucket == bucket0 + Handles(insts[..i])
    {
      assert insts[..i + 1] == insts[..i] + [insts[i]];
      bucket := bucket + HandleSet(insts[i]);
      i := i + 1;
    }
    assert insts[..i] == insts;
  }

  method CollapseByClass(tables: Tables, out: MatchJson) returns (byClass: map<string, set<string>>)
    requires tables.Valid() && out.Valid()
    ensures byClass == ByClass(tables, out, |out.keys|)
  {
    hide ParseMatchKey, Handles;
    byClass := map[];
    var displayBySnake := tables.Reversed();
    var n := 0;
    while n < |out.keys|
      invariant n <= |out.keys| && byClass == ByClass(tables, out, n)
    {
      var key := out.keys[n];
      var parsed := ParseMatchKey(key);
      if parsed.Some? {
        var snake := parsed.value.snake;
        var d := if snake in displayBySnake then displayBySnake[snake] else snake;
        var bucket := Updated(if d in byClass then byClass[d] else {}, out.at[key]);
        byClass := byClass[d := bucket];
      }
      n := n + 1;
    }
  }

  /** The response of `scan_all`: sorted handles per class, and how many there are. */
  datatype Overlay = Overlay(byClass: map<string, seq<string>>, total: nat)

  lemma StrLeIsOrder()
    ensures TotalPreorder(StrLe)
  {
    forall a, b ensures StrLe(a, b) || StrLe(b, a) { LexLeTotal(CharLt, a, b); }
    forall a, b, c | StrLe(a, b) && StrLe(b, c) ensures StrLe(a, c) { LexLeTransitive(CharLt, a, b, c); }
  }

  method SortedHandles(handles: set<string>) returns (sorted: seq<string>)
    ensures Sorted(StrLe, sorted) && multiset(sorted) == multiset(handles)
  {
    var listed: seq<string> := [];
    var todo := handles;
    while todo != {}
      invariant todo <= handles && multiset(listed) == multiset(handles - todo)
      decreases todo
    {
      var h :| h in todo;
      todo := todo - {h};
      assert handles - todo == (handles - (todo + {h})) + {h};
      listed := listed + [h];
    }
    assert handles - todo == handles;
    sorted := Sort(StrLe, listed);
    StrLeIsOrder();
    SortIsSortedPermutation(StrLe, listed);
  }

  /** Every handle shown, under each class that shows it. */
  function Shown(byClass: map<string, set<string>>): set<(string, string)> {
    set c, h | c in byClass && h in byClass[c] :: (c, h)
  }

  function Only(byClass: map<string, set<string>>, classes: set<string>): map<string, set<string>> {
    map c | c in byClass && c in classes :: byClass[c]
  }

  lemma {:induction false} PairsWith(c: string, hs: set<string>)
    ensures |set h | h in hs :: (c, h)| == |hs|
    decreases |hs|
  {
    if hs != {} {
      var h :| h in hs;
      PairsWith(c, hs - {h});
      assert (set g | g in hs :: (c, g)) == (set g | g in hs - {h} :: (c, g)) + {(c, h)};
    } else {
      assert (set h | h in hs :: (c, h)) == {};
    }
  }

  lemma ShowOneMore(byClass: map<string, set<string>>, done: set<string>, c: string)
    requires c in byClass && c !in done && done <= byClass.Keys
    ensures |Shown(Only(byClass, done + {c}))| == |Shown(Only(byClass, done))| + |byClass[c]|
  {
    var before, mine := Shown(Only(byClass, done)), set h | h in byClass[c] :: (c, h);
    assert Shown(Only(byClass, done + {c})) == before + mine;
    assert before !! mine;
    PairsWith(c, byClass[c]);
  }

  /** The overlay lists exactly these handles per class, sorted and each once, and counts them. */
  ghost predicate IsOverlayOf(o: Overlay, sets: map<string, set<string>>) {
    && o.byClass.Keys == sets.Keys
    && (forall c :: c in sets ==> Sorted(StrLe, o.byClass[c]) && multiset(o.byClass[c]) == multiset(sets[c]))
    && o.total == |Shown(sets)|
  }

  lemma SameLength(listed: seq<string>, handles: set<string>)
    requires multiset(listed) == multiset(handles)
    ensures |listed| == |handles|
  {
    assert |multiset(listed)| == |listed| && |multiset(handles)| == |handles|;
  }

  /** The overlay of the classes in `done`. */
  ghost predicate OverlayUpTo(sets: map<string, set<string>>, done: set<string>, o: Overlay) {
    done <= sets.Keys && IsOverlayOf(o, Only(sets, done))
  }

  lemma OverlayOneMore(sets: map<string, set<string>>, done: set<string>, o: Overlay, c: string, sorted: seq<string>)
    requires OverlayUpTo(sets, done, o) && c in sets && c !in done
    requires Sorted(StrLe, sorted) && multiset(sorted) == multiset(sets[c])
    ensures OverlayUpTo(sets, done + {c}, Overlay(o.byClass[c := sorted], o.total + |sorted|))
  {
    hide Sorted, Shown;
    SameLength(sorted, sets[c]);
    ShowOneMore(sets, done, c);
    assert Only(sets, done + {c}).Keys == done + {c} && Only(sets, done).Keys == done;
  }

  method ToOverlay(sets: map<string, set<string>>) returns (overlay: Overlay)
    ensures IsOverlayOf(overlay, sets)
  {
    overlay := Overlay(map[], 0);
    var todo := sets.Keys;
    assert Shown(Only(sets, {})) == {} && sets.Keys - todo == {};
    while todo != {}
      invariant todo <= sets.Keys && OverlayUpTo(sets, sets.Keys - todo, overlay)
      decreases todo
    {
      hide OverlayUpTo;
      var c :| c in todo;
      var sorted := SortedHandles(sets[c]);
      OverlayOneMore(sets, sets.Keys - todo, overlay, c, sorted);
      assert sets.Keys - (todo - {c}) == sets.Keys - todo + {c};
      todo := todo - {c};
      overlay := Overlay(overlay.byClass[c := sorted], overlay.total + |sorted|);
    }
    assert Only(sets, sets.Keys - todo) == sets;
  }

  /** `scan_all`: the live overlay. */
  method ScanAll<T>(sc: Scan<T>) returns (overlay: Overlay)
    requires sc.tables.Valid()
    ensures IsOverlayOf(overlay, ByClass(sc.tables, Collected(sc), |Collected(sc).keys|))
  {
    var out, _, _ := CollectAll(sc);
    var sets := CollapseByClass(sc.tables, out);
    overlay := ToOverlay(sets);
  }

  // ---- save-match -----------------------------------------------------------------------

  /** The dict `_save_match_worker` persists. */
  ghost function Persisted<T>(sc: Scan<T>, enabled: bool): (out: MatchJson)
    ensures out.Valid()
  {
    if enabled then Suppressed(Collected(sc)) else Collected(sc)
  }

  function LabelOf(key: string): Option<View> {
    var parsed := ParseMatchKey(key);
    if parsed.Some? then parsed.value.view else None
  }

  /** Persisted instances filed under `view` by the first `n` keys. */
  function CountUnder(out: MatchJson, view: Option<View>, n: nat): nat
    requires n <= |out.keys|
  {
    if n == 0 then 0
    else CountUnder(out, view, n - 1) + if LabelOf(out.keys[n - 1]) == view then |Get(out, out.keys[n - 1])| else 0
  }

  ghost predicate CountsUpTo(out: MatchJson, counts: Counts, n: nat)
    requires n <= |out.keys|
  {
    && counts.top == CountUnder(out, Some(TopView), n)
    && counts.bottom == CountUnder(out, Some(BottomView), n)
    && counts.side == CountUnder(out, Some(SideView), n)
    && counts.unassigned == CountUnder(out, None, n)
  }

  lemma RecountStep(out: MatchJson, counts: Counts, n: nat)
    requires n < |out.keys| && CountsUpTo(out, counts, n)
    ensures var next := counts.Add(LabelOf(out.keys[n]), |Get(out, out.keys[n])|);
            CountsUpTo(out, next, n + 1) && next.dropped == counts.dropped
  {
    hide ParseMatchKey;
  }

  /** The four views partition the persisted instances. */
  lemma {:induction false} ViewsPartition(out: MatchJson, n: nat)
    requires n <= |out.keys|
    ensures SizeUpTo(out, n) == CountUnder(out, Some(TopView), n) + CountUnder(out, Some(BottomView), n)
                              + CountUnder(out, Some(SideView), n) + CountUnder(out, None, n)
  {
    hide ParseMatchKey;
    if n > 0 {
      ViewsPartition(out, n - 1);
      match LabelOf(out.keys[n - 1]) {
        case None =>
        case Some(TopView) =>
        case Some(BottomView) =>
        case Some(SideView) =>
      }
    }
  }

  method Recount(out: MatchJson, dropped: nat) returns (counts: Counts)
    requires out.Valid()
    ensures CountsUpTo(out, counts, |out.keys|) && counts.dropped == dropped
  {
    counts := ZERO.(dropped := dropped);
    var n := 0;
    while n < |out.keys|
      invariant n <= |out.keys| && CountsUpTo(out, counts, n) && counts.dropped == dropped
    {
      hide CountsUpTo, LabelOf, Counts.Add;
      var key := out.keys[n];
      RecountStep(out, counts, n);
      counts := counts.Add(LabelOf(key), |out.at[key]|);
      n := n + 1;
    }
  }

  method TotalInstances(out: MatchJson) returns (size: nat)
    requires out.Valid()
    ensures size == Size(out)
  {
    size := 0;
    var n := 0;
    while n < |out.keys|
      invariant n <= |out.keys| && size == SizeUpTo(out, n)
    {
      size := size + |out.at[out.keys[n]]|;
      n := n + 1;
    }
  }

  /**
   The save-match worker: scan, suppress, recount. Every raw match is accounted for once,
   as a survivor of one view, a view violation, or a suppressed instance.
   */
  method SaveMatch<T>(sc: Scan<T>, enabled: bool)
    returns (persisted: MatchJson, total: nat, counts: Counts, suppressed: int)
    ensures persisted == Persisted(sc, enabled)
    ensures total == FoundInAll(sc, |sc.lib.classes|)
    ensures CountsUpTo(persisted, counts, |persisted.keys|)
    ensures suppressed == if enabled then |RedundantSlots(Collected(sc))| else 0
    ensures total == counts.top + counts.bottom + counts.side + counts.unassigned + counts.dropped + suppressed
    ensures counts.dropped == total - |EmitClasses(sc, true, |sc.lib.classes|)|
  {
    hide EmitClasses, Suppressed, RedundantSlots, Size, SizeUpTo, CountUnder;
    var out, found, split := CollectAll(sc);
    total := found;
    SizeOfCollected(sc);
    SizeOfSuppressed(out);
    var before := TotalInstances(out);
    persisted := SuppressContainedMatches(enabled, out);
    var after := TotalInstances(persisted);
    suppressed := before - after;
    counts := Recount(persisted, split.dropped);
    SizeIsSizeUpTo(persisted);
    ViewsPartition(persisted, |persisted.keys|);
  }

  lemma SizeOfCollected<T>(sc: Scan<T>)
    ensures Size(Collected(sc)) == |EmitClasses(sc, true, |sc.lib.classes|)|
  {
    SizeOfAddAll(Empty<string, Instance>(), EmitClasses(sc, true, |sc.lib.classes|));
  }

  lemma SizeIsSizeUpTo(out: MatchJson)
    ensures Size(out) == SizeUpTo(out, |out.keys|)
  {
  }
}
