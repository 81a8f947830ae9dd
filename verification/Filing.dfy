/**
 `split_matches_by_side` (app/side_regions.py): file each instance of one template
 under its key, count it under its view, or drop it.
 */
module Filing {
  import opened Wrappers
  import opened MatchKeys
  import opened ListDicts

  /** The five counters. */
  datatype Counts = Counts(top: nat, bottom: nat, side: nat, unassigned: nat, dropped: nat) {
    /** Adds to the counter of a view. */
    function Add(view: Option<View>, n: nat): Counts {
      match view
      case None => this.(unassigned := unassigned + n)
      case Some(TopView) => this.(top := top + n)
      case Some(BottomView) => this.(bottom := bottom + n)
      case Some(SideView) => this.(side := side + n)
    }

    /** Counter by counter. */
    function Plus(more: Counts): Counts {
      Counts(top + more.top, bottom + more.bottom, side + more.side, unassigned + more.unassigned,
             dropped + more.dropped)
    }

    function Of(view: Option<View>): nat {
      match view
      case None => unassigned
      case Some(TopView) => top
      case Some(BottomView) => bottom
      case Some(SideView) => side
    }
  }

  const ZERO := Counts(0, 0, 0, 0, 0)

  /** What one template's instances file, in order; `keyOf` is None for a view the class may not have. */
  function Emissions<K, V>(keyOf: V -> Option<K>, ms: seq<V>): seq<Emission<K, V>>
    decreases |ms|
  {
    if ms == [] then []
    else
      var m := ms[|ms| - 1];
      var before := Emissions(keyOf, ms[..|ms| - 1]);
      if keyOf(m).Some? then before + [Emission(keyOf(m).value, m)] else before
  }

  lemma {:induction false} EmissionsHold<K, V>(keyOf: V -> Option<K>, ms: seq<V>, e: Emission<K, V>)
    ensures e in Emissions(keyOf, ms) <==> e.inst in ms && keyOf(e.inst) == Some(e.key)
    decreases |ms|
  {
    if ms != [] {
      EmissionsHold(keyOf, ms[..|ms| - 1], e);
      assert ms == ms[..|ms| - 1] + [ms[|ms| - 1]];
    }
  }

  /** How many instances are filed under `view`. */
  function FiledUnder<K, V>(keyOf: V -> Option<K>, viewOf: V -> Option<View>, view: Option<View>, ms: seq<V>): nat
    decreases |ms|
  {
    if ms == [] then 0
    else
      var m := ms[|ms| - 1];
      FiledUnder(keyOf, viewOf, view, ms[..|ms| - 1]) + if keyOf(m).Some? && viewOf(m) == view then 1 else 0
  }

  ghost predicate CountsFiled<K, V>(counts: Counts, keyOf: V -> Option<K>, viewOf: V -> Option<View>, ms: seq<V>) {
    && counts.top == FiledUnder(keyOf, viewOf, Some(TopView), ms)
    && counts.bottom == FiledUnder(keyOf, viewOf, Some(BottomView), ms)
    && counts.side == FiledUnder(keyOf, viewOf, Some(SideView), ms)
    && counts.unassigned == FiledUnder(keyOf, viewOf, None, ms)
  }

  lemma CountOneMore<K, V>(counts: Counts, keyOf: V -> Option<K>, viewOf: V -> Option<View>, ms: seq<V>, m: V)
    requires CountsFiled(counts, keyOf, viewOf, ms)
    ensures CountsFiled(if keyOf(m).Some? then counts.Add(viewOf(m), 1) else counts, keyOf, viewOf, ms + [m])
  {
    assert (ms + [m])[..|ms|] == ms;
  }

  lemma EmitOneMore<K, V>(keyOf: V -> Option<K>, ms: seq<V>, m: V)
    ensures var before := Emissions(keyOf, ms);
            Emissions(keyOf, ms + [m]) == if keyOf(m).Some? then before + [Emission(keyOf(m).value, m)] else before
  {
    assert (ms + [m])[..|ms|] == ms;
  }

  method SplitMatchesBySide<K(!new, ==), V>(keyOf: V -> Option<K>, viewOf: V -> Option<View>, ms: seq<V>)
    returns (out: ListDict<K, V>, counts: Counts)
    ensures out == AddAll(Empty(), Emissions(keyOf, ms))
    ensures CountsFiled(counts, keyOf, viewOf, ms)
    ensures counts.dropped == |ms| - |Emissions(keyOf, ms)|
    ensures counts.top + counts.bottom + counts.side + counts.unassigned + counts.dropped == |ms|
  {
    hide AddAll, Extend;
    out, counts := Empty(), ZERO;
    AddAllNothing<K, V>();
    var i := 0;
    while i < |ms|
      invariant i <= |ms|
      invariant out == AddAll(Empty(), Emissions(keyOf, ms[..i]))
      invariant CountsFiled(counts, keyOf, viewOf, ms[..i])
      invariant counts.dropped == i - |Emissions(keyOf, ms[..i])|
    {
      var m := ms[i];
      var key := keyOf(m);
      hide CountsFiled, Emissions, Counts.Add;
      assert ms[..i + 1] == ms[..i] + [m];
      CountOneMore(counts, keyOf, viewOf, ms[..i], m);
      EmitOneMore(keyOf, ms[..i], m);
      if key.None? {
        DropKeepsCounts(counts, keyOf, viewOf, ms[..i + 1]);
        counts := counts.(dropped := counts.dropped + 1);
      } else {
        AddAllStep(Empty(), Emissions(keyOf, ms[..i]), key.value, m);
        AddKeepsDropped(counts, viewOf(m));
        out := Extend(out, key.value, [m]);
        counts := counts.Add(viewOf(m), 1);
      }
      i := i + 1;
    }
    assert ms[..i] == ms;
    FiledInSomeView(keyOf, viewOf, ms);
  }

  /** The four views share out what is filed. */
  lemma {:induction false} FiledInSomeView<K, V>(keyOf: V -> Option<K>, viewOf: V -> Option<View>, ms: seq<V>)
    ensures FiledUnder(keyOf, viewOf, Some(TopView), ms) + FiledUnder(keyOf, viewOf, Some(BottomView), ms)
          + FiledUnder(keyOf, viewOf, Some(SideView), ms) + FiledUnder(keyOf, viewOf, None, ms)
         == |Emissions(keyOf, ms)|
    decreases |ms|
  {
    if ms != [] {
      FiledInSomeView(keyOf, viewOf, ms[..|ms| - 1]);
      match viewOf(ms[|ms| - 1]) {
        case None =>
        case Some(TopView) =>
        case Some(BottomView) =>
        case Some(SideView) =>
      }
    }
  }

  lemma DropKeepsCounts<K, V>(counts: Counts, keyOf: V -> Option<K>, viewOf: V -> Option<View>, ms: seq<V>)
    requires CountsFiled(counts, keyOf, viewOf, ms)
    ensures CountsFiled(counts.(dropped := counts.dropped + 1), keyOf, viewOf, ms)
  {
  }

  lemma AddKeepsDropped(counts: Counts, view: Option<View>)
    ensures counts.Add(view, 1).dropped == counts.dropped
  {
  }

  // ---- where each instance is filed --------------------------------------------------------------

  /** The list under `k` is the instances at the places that have that key, in order; no place, no list. */
  ghost predicate FiledAt<K(!new), V>(out: ListDict<K, V>, keyOf: V -> Option<K>, ms: seq<V>, k: K, places: seq<nat>) {
    && (forall i, j :: 0 <= i < j < |places| ==> places[i] < places[j])
    && (forall i :: 0 <= i < |places| ==> places[i] < |ms|)
    && (forall p: nat :: p < |ms| ==> (p in places <==> keyOf(ms[p]) == Some(k)))
    && (k in out.at <==> places != [])
    && (k in out.at ==> |out.at[k]| == |places| && forall i :: 0 <= i < |places| ==> out.at[k][i] == ms[places[i]])
  }

  lemma FiledOneMore<K(!new), V>(out: ListDict<K, V>, keyOf: V -> Option<K>, ms: seq<V>, k: K, places: seq<nat>)
    requires ms != [] && FiledAt(out, keyOf, ms[..|ms| - 1], k, places)
    ensures var n := |ms| - 1; var key := keyOf(ms[n]);
      FiledAt(if key.Some? then Extend(out, key.value, [ms[n]]) else out, keyOf, ms, k,
              if key == Some(k) then places + [n] else places)
  {
    var n := |ms| - 1;
    var next := if keyOf(ms[n]) == Some(k) then places + [n] else places;
    forall p: nat | p < |ms| ensures p in next <==> keyOf(ms[p]) == Some(k) {
      if p < n { assert ms[..n][p] == ms[p]; }
    }
  }

  /** Each key lists its instances in the order they came. */
  lemma {:induction false} FiledInOrder<K(!new), V>(keyOf: V -> Option<K>, ms: seq<V>, k: K)
    returns (places: seq<nat>)
    ensures FiledAt(AddAll(Empty(), Emissions(keyOf, ms)), keyOf, ms, k, places)
    decreases |ms|
  {
    places := [];
    if ms != [] {
      var n := |ms| - 1;
      var es, key := Emissions(keyOf, ms[..n]), keyOf(ms[n]);
      assert Emissions(keyOf, ms) == if key.Some? then es + [Emission(key.value, ms[n])] else es;
      hide FiledAt, Extend, AddAll, Emissions;
      places := FiledInOrder(keyOf, ms[..n], k);
      FiledOneMore(AddAll(Empty(), es), keyOf, ms, k, places);
      if key.Some? { AddAllStep(Empty(), es, key.value, ms[n]); }
      if key == Some(k) { places := places + [n]; }
    }
  }

  /** The keys stand in the order of the first instance filed under each. */
  ghost predicate FirstSeen<K(!new), V>(out: ListDict<K, V>, keyOf: V -> Option<K>, ms: seq<V>, places: seq<nat>) {
    && |places| == |out.keys|
    && (forall i, j :: 0 <= i < j < |places| ==> places[i] < places[j])
    && (forall i :: 0 <= i < |places| ==>
          && places[i] < |ms| && keyOf(ms[places[i]]) == Some(out.keys[i])
          && forall p :: 0 <= p < places[i] ==> keyOf(ms[p]) != Some(out.keys[i]))
  }

  lemma {:induction false} KeysAreFirstSeen<K(!new), V>(keyOf: V -> Option<K>, ms: seq<V>) returns (places: seq<nat>)
    ensures FirstSeen(AddAll(Empty(), Emissions(keyOf, ms)), keyOf, ms, places)
    decreases |ms|
  {
    places := [];
    if ms != [] {
      var n := |ms| - 1;
      var es := Emissions(keyOf, ms[..n]);
      places := KeysAreFirstSeen(keyOf, ms[..n]);
      if keyOf(ms[n]).Some? {
        var k := keyOf(ms[n]).value;
        var at := FiledInOrder(keyOf, ms[..n], k);
        AddAllStep(Empty(), es, k, ms[n]);
        FirstSeenOneMore(AddAll(Empty(), es), keyOf, ms, at, places);
        if k !in AddAll(Empty(), es).at { places := places + [n]; }
      } else {
        SeenStays(AddAll(Empty(), es), keyOf, ms, places);
      }
      hide FirstSeen, AddAll, Extend, FiledAt;
    }
  }

  lemma SeenStays<K(!new), V>(out: ListDict<K, V>, keyOf: V -> Option<K>, ms: seq<V>, places: seq<nat>)
    requires ms != [] && FirstSeen(out, keyOf, ms[..|ms| - 1], places)
    ensures FirstSeen(out, keyOf, ms, places)
  {
    assert forall p :: 0 <= p < |ms| - 1 ==> ms[..|ms| - 1][p] == ms[p];
  }

  lemma FirstSeenOneMore<K(!new), V>(out: ListDict<K, V>, keyOf: V -> Option<K>, ms: seq<V>, at: seq<nat>,
                                     places: seq<nat>)
    requires ms != [] && keyOf(ms[|ms| - 1]).Some? && FirstSeen(out, keyOf, ms[..|ms| - 1], places)
    requires FiledAt(out, keyOf, ms[..|ms| - 1], keyOf(ms[|ms| - 1]).value, at)
    ensures var n := |ms| - 1; var k := keyOf(ms[n]).value;
      FirstSeen(Extend(out, k, [ms[n]]), keyOf, ms, if k in out.at then places else places + [n])
  {
    SeenStays(out, keyOf, ms, places);
    var n := |ms| - 1;
    if keyOf(ms[n]).value !in out.at {
      forall p | 0 <= p < n ensures keyOf(ms[p]) != keyOf(ms[n]) { assert ms[..n][p] == ms[p] && p !in at; }
    }
  }

  // ---- counting what was filed -------------------------------------------------------------------

  /** How many of the filed instances lie in `view`. */
  function InView<K, V>(viewOf: V -> Option<View>, view: Option<View>, es: seq<Emission<K, V>>): nat
    decreases |es|
  {
    if es == [] then 0
    else InView(viewOf, view, es[..|es| - 1]) + if viewOf(es[|es| - 1].inst) == view then 1 else 0
  }

  lemma {:induction false} InViewOfConcat<K, V>(viewOf: V -> Option<View>, view: Option<View>,
                                                a: seq<Emission<K, V>>, b: seq<Emission<K, V>>)
    ensures InView(viewOf, view, a + b) == InView(viewOf, view, a) + InView(viewOf, view, b)
    decreases |b|
  {
    if b == [] {
      assert a + b == a;
    } else {
      assert (a + b)[..|a + b| - 1] == a + b[..|b| - 1];
      InViewOfConcat(viewOf, view, a, b[..|b| - 1]);
    }
  }

  lemma {:induction false} FiledIsInView<K, V>(keyOf: V -> Option<K>, viewOf: V -> Option<View>, view: Option<View>,
                                               ms: seq<V>)
    ensures FiledUnder(keyOf, viewOf, view, ms) == InView(viewOf, view, Emissions(keyOf, ms))
    decreases |ms|
  {
    if ms != [] {
      var m, before := ms[|ms| - 1], Emissions(keyOf, ms[..|ms| - 1]);
      FiledIsInView(keyOf, viewOf, view, ms[..|ms| - 1]);
      if keyOf(m).Some? { assert (before + [Emission(keyOf(m).value, m)])[..|before|] == before; }
    }
  }

  /** The four view counters count the filed instances by view. */
  ghost predicate CountsViews<K, V>(counts: Counts, viewOf: V -> Option<View>, es: seq<Emission<K, V>>) {
    forall view :: counts.Of(view) == InView(viewOf, view, es)
  }

  lemma CountsAdd<K, V>(a: Counts, b: Counts, keyOf: V -> Option<K>, viewOf: V -> Option<View>,
                        es: seq<Emission<K, V>>, ms: seq<V>)
    requires CountsViews(a, viewOf, es) && CountsFiled(b, keyOf, viewOf, ms)
    ensures CountsViews(a.Plus(b), viewOf, es + Emissions(keyOf, ms))
  {
    forall view ensures a.Plus(b).Of(view) == InView(viewOf, view, es + Emissions(keyOf, ms)) {
      InViewOfConcat(viewOf, view, es, Emissions(keyOf, ms));
      FiledIsInView(keyOf, viewOf, view, ms);
      hide InView, Emissions, FiledUnder;
    }
  }
}
