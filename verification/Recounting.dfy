/**
 The view counts of save-match (app/jobs.py): the recount by parsed key against the counts the
 split reported, and which classes of one library share a key or a pool.
 */
module Recounting {
  import opened Wrappers
  import opened MatchKeys
  import opened ListDicts
  import opened Filing
  import opened Suppression
  import opened SideViews
  import opened MatchPipeline
  import opened PipelineAgreement

  // ---- the recount, filing by filing -----------------------------------------------------------

  /** How many filings carry a key that parses to `view`. */
  function Labelled(view: Option<View>, es: seq<Filed>): nat
    decreases |es|
  {
    if es == [] then 0
    else Labelled(view, es[..|es| - 1]) + if LabelOf(es[|es| - 1].key) == view then 1 else 0
  }

  lemma {:induction false} CountUnderExtend(out: MatchJson, key: string, more: seq<Instance>, view: Option<View>,
                                            n: nat)
    requires n <= |out.keys| && DistinctKeys(out)
    ensures |Extend(out, key, more).keys| >= n
    ensures CountUnder(Extend(out, key, more), view, n) ==
            CountUnder(out, view, n) + if Among(out.keys, n, key) && LabelOf(key) == view then |more| else 0
  {
    hide LabelOf;
    if n > 0 {
      CountUnderExtend(out, key, more, view, n - 1);
      AmongIffIn(out.keys, n - 1, out.keys[n - 1]);
    }
  }

  lemma CountOfExtend(out: MatchJson, key: string, more: seq<Instance>, view: Option<View>)
    requires out.Valid()
    ensures var r := Extend(out, key, more);
      CountUnder(r, view, |r.keys|) == CountUnder(out, view, |out.keys|) + if LabelOf(key) == view then |more| else 0
  {
    hide LabelOf;
    var r, n := Extend(out, key, more), |out.keys|;
    CountUnderExtend(out, key, more, view, n);
    AmongIffIn(out.keys, n, key);
    assert out.keys[..n] == out.keys;
    if key !in out.at {
      assert r.keys[n] == key && Get(r, key) == [] + more;
      assert CountUnder(r, view, n + 1) == CountUnder(r, view, n) + if LabelOf(key) == view then |more| else 0;
    }
  }

  lemma {:induction false} CountOfAddAll(es: seq<Filed>, view: Option<View>)
    ensures var out := AddAll(Empty<string, Instance>(), es);
      CountUnder(out, view, |out.keys|) == Labelled(view, es)
    decreases |es|
  {
    hide LabelOf, Extend;
    if es != [] {
      var init, last := es[..|es| - 1], es[|es| - 1];
      CountOfAddAll(init, view);
      AddAllIsValid(Empty<string, Instance>(), init);
      CountOfExtend(AddAll(Empty(), init), last.key, [last.inst], view);
    }
  }

  /** A filing whose key parses to another view than the one its instance lies in. */
  predicate Misread(viewOf: Instance -> Option<View>, e: Filed) { LabelOf(e.key) != viewOf(e.inst) }

  lemma {:induction false} LabelsAreViews(viewOf: Instance -> Option<View>, view: Option<View>, es: seq<Filed>)
    requires forall e :: e in es ==> !Misread(viewOf, e)
    ensures Labelled(view, es) == InView(viewOf, view, es)
    decreases |es|
  {
    hide LabelOf;
    if es != [] {
      LabelsAreViews(viewOf, view, es[..|es| - 1]);
      assert !Misread(viewOf, es[|es| - 1]);
    }
  }

  /** When only unassigned instances are misread, each of them is missing from the unassigned recount. */
  lemma {:induction false} MisreadIsMissing(viewOf: Instance -> Option<View>, es: seq<Filed>)
    requires forall e :: e in es && Misread(viewOf, e) ==> viewOf(e.inst).None?
    ensures Labelled(None, es) <= InView(viewOf, None, es)
    ensures (exists e :: e in es && Misread(viewOf, e)) ==> Labelled(None, es) < InView(viewOf, None, es)
    decreases |es|
  {
    hide LabelOf;
    if es != [] {
      MisreadIsMissing(viewOf, es[..|es| - 1]);
      assert es == es[..|es| - 1] + [es[|es| - 1]];
    }
  }

  // ---- which keys are misread -------------------------------------------------------------------

  lemma LabelOfEmitted(view: Option<View>, snake: string, idx: nat)
    ensures LabelOf(EmitKey(view, snake, idx)) == view <==> view.Some? || !LooksPrefixed(ViewNamed, snake)
  {
    hide ParseMatchKey, EmitKey, LooksPrefixed;
    ParseInvertsEmit(view, snake, idx);
  }

  /** An admitted instance in no view, of a class whose key text begins with a view name and a dot. */
  ghost predicate HasMisread<T>(sc: Scan<T>) {
    exists cls, idx: nat, m :: Admitted(sc, cls, idx, m)
      && sc.ViewOf(m).None? && LooksPrefixed(ViewNamed, sc.tables.JsonKey(cls))
  }

  /** Every filing of a scan is an admitted match under the key emitted for it, and the other way round. */
  lemma FilingsHold<T>(sc: Scan<T>, e: Filed)
    ensures e in EmitClasses(sc, true, |sc.lib.classes|) <==>
            exists cls, idx: nat :: Admitted(sc, cls, idx, e.inst) && sc.KeyOf(cls, idx, e.inst) == Some(e.key)
  {
    hide EmitClasses, Collected, Scan.KeyOf;
    CollectedHolds(sc, e.key, e.inst);
    AddAllHolds(EmitClasses(sc, true, |sc.lib.classes|), e.key, e.inst);
    CollectedIs(sc);
    assert e == Emission(e.key, e.inst);
  }

  lemma MisreadFilings<T>(sc: Scan<T>, e: Filed)
    requires e in EmitClasses(sc, true, |sc.lib.classes|) && Misread(sc.Viewer(), e)
    ensures sc.ViewOf(e.inst).None? && HasMisread(sc)
  {
    FilingsHold(sc, e);
    hide EmitClasses, LabelOf, EmitKey, LooksPrefixed, SidePrefix;
    var cls, idx: nat :| Admitted(sc, cls, idx, e.inst) && sc.KeyOf(cls, idx, e.inst) == Some(e.key);
    LabelOfEmitted(sc.ViewOf(e.inst), sc.tables.JsonKey(cls), idx);
  }

  lemma MisreadIsFiled<T>(sc: Scan<T>) returns (e: Filed)
    requires HasMisread(sc)
    ensures e in EmitClasses(sc, true, |sc.lib.classes|) && Misread(sc.Viewer(), e)
  {
    hide EmitClasses, LabelOf, EmitKey, LooksPrefixed, SidePrefix;
    var cls, idx: nat, m :| Admitted(sc, cls, idx, m) && sc.ViewOf(m).None?
      && LooksPrefixed(ViewNamed, sc.tables.JsonKey(cls));
    LabelOfEmitted(sc.ViewOf(m), sc.tables.JsonKey(cls), idx);
    e := Emission(sc.KeyOf(cls, idx, m).value, m);
    FilingsHold(sc, e);
  }

  /**
   With suppression off, the recount by parsed key gives back the view counts the split reported if
   and only if no unassigned instance belongs to a class whose key text itself begins with a view
   name and a dot.
   */
  lemma RecountIsSplitIff<T>(sc: Scan<T>, split: Counts, recount: Counts)
    requires CountsViews(split, sc.Viewer(), EmitClasses(sc, true, |sc.lib.classes|))
    requires CountsUpTo(Collected(sc), recount, |Collected(sc).keys|)
    ensures (forall view :: recount.Of(view) == split.Of(view)) <==> !HasMisread(sc)
  {
    var es := EmitClasses(sc, true, |sc.lib.classes|);
    forall view ensures recount.Of(view) == Labelled(view, es) {
      CountOfAddAll(es, view);
      RecountOf(Collected(sc), recount, view);
    }
    forall e | e in es && Misread(sc.Viewer(), e) ensures sc.Viewer()(e.inst).None? && HasMisread(sc) {
      MisreadFilings(sc, e);
    }
    hide EmitClasses, Collected, CountsUpTo, HasMisread, Misread, Labelled, InView;
    if HasMisread(sc) {
      var e := MisreadIsFiled(sc);
      MisreadIsMissing(sc.Viewer(), es);
      assert recount.Of(None) < split.Of(None);
    } else {
      forall view ensures recount.Of(view) == split.Of(view) {
        LabelsAreViews(sc.Viewer(), view, es);
      }
    }
  }

  lemma RecountOf(out: MatchJson, counts: Counts, view: Option<View>)
    requires CountsUpTo(out, counts, |out.keys|)
    ensures counts.Of(view) == CountUnder(out, view, |out.keys|)
  {
    hide CountUnder;
  }

  // ---- which classes share a key --------------------------------------------------------------------

  /** Neither text is the other, with or without a view name and a dot in front. */
  ghost predicate KeyTextsApart(a: string, b: string) {
    a != b && forall v :: Prefixed(Some(v), a) != b && Prefixed(Some(v), b) != a
  }

  /** The texts and what is left of them without a view name in front are all different. */
  predicate PoolTextsApart(a: string, b: string) {
    a != b && Bare(a) != b && a != Bare(b) && Bare(a) != Bare(b)
  }

  /** Pools of their own mean keys of their own, and for plain texts both just mean different texts. */
  lemma PlainTextsApart(a: string, b: string)
    ensures PoolTextsApart(a, b) ==> KeyTextsApart(a, b)
    ensures !LooksPrefixed(ViewNamed, a) && !LooksPrefixed(ViewNamed, b) ==>
      (KeyTextsApart(a, b) <==> a != b) && (PoolTextsApart(a, b) <==> a != b)
  {
    hide LooksPrefixed, Prefixed, Bare;
    BareStrips(a);
    BareStrips(b);
    assert a != b && !LooksPrefixed(ViewNamed, a) && !LooksPrefixed(ViewNamed, b) ==> KeyTextsApart(a, b) by {
      forall v ensures LooksPrefixed(ViewNamed, Prefixed(Some(v), a))
        && LooksPrefixed(ViewNamed, Prefixed(Some(v), b)) {
        PrefixedLooksSo(v, a);
        PrefixedLooksSo(v, b);
      }
    }
  }

  lemma PrefixedLooksSo(v: View, text: string)
    ensures LooksPrefixed(ViewNamed, Prefixed(Some(v), text))
  {
    assert ViewNamed(ViewName(v)).Some? && ViewName(v) + "." <= Prefixed(Some(v), text);
  }

  /** No key one class may emit is a key of another class. */
  ghost predicate KeysApart<T>(sc: Scan<T>) {
    forall c, d, v, w, i: nat, j: nat :: c in sc.lib.classes && d in sc.lib.classes && c != d ==>
      EmitKey(v, sc.tables.JsonKey(c), i) != EmitKey(w, sc.tables.JsonKey(d), j)
  }

  /** Suppression never compares instances of two classes. */
  ghost predicate PoolsApart<T>(sc: Scan<T>) {
    forall c, d, v, w, i: nat, j: nat :: c in sc.lib.classes && d in sc.lib.classes && c != d ==>
      var k, l := EmitKey(v, sc.tables.JsonKey(c), i), EmitKey(w, sc.tables.JsonKey(d), j);
      ParseMatchKey(k).Some? && ParseMatchKey(l).Some? ==> ClassOf(k) != ClassOf(l)
  }

  lemma PrefixedApart(v: Option<View>, a: string, w: Option<View>, b: string)
    requires KeyTextsApart(a, b)
    ensures Prefixed(v, a) != Prefixed(w, b)
  {
    if v.Some? && w.Some? {
      BareStrips(a);
      BareStrips(b);
      assert Bare(Prefixed(Some(v.value), a)) == a && Bare(Prefixed(Some(w.value), b)) == b;
    }
  }

  lemma KeyClash(a: string, b: string) returns (v: Option<View>, w: Option<View>)
    requires !KeyTextsApart(a, b)
    ensures EmitKey(v, a, 0) == EmitKey(w, b, 0)
  {
    v, w := None, None;
    if a != b {
      var u :| Prefixed(Some(u), a) == b || Prefixed(Some(u), b) == a;
      if Prefixed(Some(u), a) == b { v := Some(u); } else { w := Some(u); }
    }
    SameKeyIff(v, a, 0, w, b, 0);
  }

  lemma PoolOf(v: Option<View>, a: string, i: nat)
    ensures ParseMatchKey(EmitKey(v, a, i)).Some? && ClassOf(EmitKey(v, a, i)) == ParsedText(v, a)
  {
    ParsedTextIs(v, a, i);
  }

  lemma PoolClash(a: string, b: string) returns (v: Option<View>, w: Option<View>)
    requires !PoolTextsApart(a, b)
    ensures ParsedText(v, a) == ParsedText(w, b)
  {
    if a == b {
      v, w := Some(TopView), Some(TopView);
    } else if Bare(a) == b {
      v, w := None, Some(TopView);
    } else if a == Bare(b) {
      v, w := Some(TopView), None;
    } else {
      v, w := None, None;
    }
  }

  /** All the classes of the library are apart, two by two. */
  ghost predicate Pairwise<T>(sc: Scan<T>, apart: (string, string) -> bool) {
    forall c, d :: c in sc.lib.classes && d in sc.lib.classes && c != d ==>
      apart(sc.tables.JsonKey(c), sc.tables.JsonKey(d))
  }

  /** The classes of a library have keys of their own if and only if their key texts are apart as keys. */
  lemma KeysApartIff<T>(sc: Scan<T>)
    ensures KeysApart(sc) <==> Pairwise(sc, (a, b) => KeyTextsApart(a, b))
  {
    hide EmitKey, KeyTextsApart, Prefixed;
    if Pairwise(sc, (a, b) => KeyTextsApart(a, b)) {
      forall c, d, v, w, i: nat, j: nat | c in sc.lib.classes && d in sc.lib.classes && c != d
        ensures EmitKey(v, sc.tables.JsonKey(c), i) != EmitKey(w, sc.tables.JsonKey(d), j)
      {
        PrefixedApart(v, sc.tables.JsonKey(c), w, sc.tables.JsonKey(d));
        SameKeyIff(v, sc.tables.JsonKey(c), i, w, sc.tables.JsonKey(d), j);
      }
    } else {
      var c, d :| c in sc.lib.classes && d in sc.lib.classes && c != d
        && !KeyTextsApart(sc.tables.JsonKey(c), sc.tables.JsonKey(d));
      var v, w := KeyClash(sc.tables.JsonKey(c), sc.tables.JsonKey(d));
    }
  }

  /** They have pools of their own if and only if their key texts are apart as pools. */
  lemma PoolsApartIff<T>(sc: Scan<T>)
    ensures PoolsApart(sc) <==> Pairwise(sc, PoolTextsApart)
  {
    hide EmitKey, ParseMatchKey, ClassOf, Bare;
    if Pairwise(sc, PoolTextsApart) {
      forall c, d, v, w, i: nat, j: nat | c in sc.lib.classes && d in sc.lib.classes && c != d
        ensures var k, l := EmitKey(v, sc.tables.JsonKey(c), i), EmitKey(w, sc.tables.JsonKey(d), j);
          ParseMatchKey(k).Some? && ParseMatchKey(l).Some? ==> ClassOf(k) != ClassOf(l)
      {
        PoolOf(v, sc.tables.JsonKey(c), i);
        PoolOf(w, sc.tables.JsonKey(d), j);
      }
    } else {
      var c, d :| c in sc.lib.classes && d in sc.lib.classes && c != d
        && !PoolTextsApart(sc.tables.JsonKey(c), sc.tables.JsonKey(d));
      var v, w := PoolClash(sc.tables.JsonKey(c), sc.tables.JsonKey(d));
      PoolOf(v, sc.tables.JsonKey(c), 0);
      PoolOf(w, sc.tables.JsonKey(d), 0);
    }
  }

  ghost predicate TextsApart<T>(sc: Scan<T>) {
    forall c, d :: c in sc.lib.classes && d in sc.lib.classes && c != d ==>
      sc.tables.JsonKey(c) != sc.tables.JsonKey(d)
  }

  /** With sound tables the texts differ unless a class outside the table is named like the key text of one in it. */
  lemma TextsApartIff<T>(sc: Scan<T>)
    requires sc.tables.Valid()
    ensures TextsApart(sc) <==>
            forall c, d :: c in sc.lib.classes && c in sc.tables.jsonKey && d in sc.lib.classes
              && d !in sc.tables.jsonKey
              ==> d != sc.tables.jsonKey[c]
  {
  }
}
