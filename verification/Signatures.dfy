/**
 The canonical deduplication key of a template (app/library.py, `template_signature`), over
 real coordinates: centred on the mean, bucketed with half-even rounding, sorted inside each
 entity and across entities.
 */
module Signatures {
  import opened Rounding
  import opened Sorting

  type Point = (real, real)
  type PointSets = seq<seq<Point>>
  type Bucket = (int, int)
  type EntityKey = seq<Bucket>

  const TEMPLATE_DEDUP_BUCKET: real := 10000.0

  // ---- the key ----------------------------------------------------------------------------

  function Sum(xs: seq<real>): real { if xs == [] then 0.0 else xs[0] + Sum(xs[1..]) }

  function Map<S, T>(f: S -> T, xs: seq<S>): (ys: seq<T>)
    ensures |ys| == |xs| && forall i :: 0 <= i < |xs| ==> ys[i] == f(xs[i])
  {
    seq(|xs|, i requires 0 <= i < |xs| => f(xs[i]))
  }

  function Count(t: PointSets): nat { if t == [] then 0 else |t[0]| + Count(t[1..]) }

  function SumX(pts: seq<Point>): real { Sum(Map((p: Point) => p.0, pts)) }

  function SumY(pts: seq<Point>): real { Sum(Map((p: Point) => p.1, pts)) }

  function TotalX(t: PointSets): real { Sum(Map(SumX, t)) }

  function TotalY(t: PointSets): real { Sum(Map(SumY, t)) }

  function Centre(t: PointSets): Point
    requires Count(t) > 0
  {
    (TotalX(t) / Count(t) as real, TotalY(t) / Count(t) as real)
  }

  function BucketOf(g: Point): Point -> Bucket {
    (p: Point) => (RoundHalfEven((p.0 - g.0) * TEMPLATE_DEDUP_BUCKET),
      RoundHalfEven((p.1 - g.1) * TEMPLATE_DEDUP_BUCKET))
  }

  predicate BucketLt(a: Bucket, b: Bucket) { a.0 < b.0 || (a.0 == b.0 && a.1 < b.1) }

  predicate BucketLe(a: Bucket, b: Bucket) { a == b || BucketLt(a, b) }

  predicate KeyLe(a: EntityKey, b: EntityKey) { LexLe(BucketLt, a, b) }

  function Bucketed(g: Point): seq<Point> -> seq<Bucket> { (pts: seq<Point>) => Map(BucketOf(g), pts) }

  function KeyOf(buckets: seq<Bucket>): EntityKey { Sort(BucketLe, buckets) }

  function EntityKeys(t: PointSets, g: Point): seq<EntityKey> { Map(KeyOf, Map(Bucketed(g), t)) }

  function Signature(t: PointSets): seq<EntityKey> {
    if Count(t) == 0 then [] else Sort(KeyLe, EntityKeys(t, Centre(t)))
  }

  method TemplateSignature(t: PointSets) returns (key: seq<EntityKey>)
    ensures key == Signature(t)
  {
    if Count(t) == 0 { return []; }
    var g := Centre(t);
    var keys: seq<EntityKey> := [];
    for i := 0 to |t|
      invariant keys == EntityKeys(t[..i], g)
    {
      var bucketed := Sort(BucketLe, Map(BucketOf(g), t[i]));
      keys := keys + [bucketed];
      assert keys == EntityKeys(t[..i + 1], g);
    }
    assert t[..|t|] == t;
    return Sort(KeyLe, keys);
  }

  // ---- orders -----------------------------------------------------------------------------

  lemma BucketOrder()
    ensures TotalPreorder(BucketLe) && Antisymmetric(BucketLe) && StrictTotal(BucketLt)
  {
  }

  lemma KeyOrder()
    ensures TotalPreorder(KeyLe) && Antisymmetric(KeyLe)
  {
    BucketOrder();
    forall a, b ensures (KeyLe(a, b) || KeyLe(b, a)) && (KeyLe(a, b) && KeyLe(b, a) ==> a == b) {
      LexLeTotal(BucketLt, a, b);
    }
    forall a, b, c | KeyLe(a, b) && KeyLe(b, c) ensures KeyLe(a, c) {
      LexLeTransitive(BucketLt, a, b, c);
    }
  }

  // ---- canonicity -----------------------------------------------------------------------------

  /** A sequence of sequences with both orders forgotten. */
  function Bag<T>(xs: seq<seq<T>>): multiset<multiset<T>> {
    if xs == [] then multiset{} else multiset{multiset(xs[0])} + Bag(xs[1..])
  }

  /** The unordered content the key stands for. */
  function Content(t: PointSets): multiset<multiset<Bucket>>
    requires Count(t) > 0
  {
    Bag(Map(Bucketed(Centre(t)), t))
  }

  /** Sorting each part does not change the bag. */
  lemma {:induction false} BagOfKeys(bs: seq<seq<Bucket>>)
    ensures Bag(Map(KeyOf, bs)) == Bag(bs)
  {
    if bs != [] {
      BucketOrder();
      SortIsSortedPermutation(BucketLe, bs[0]);
      BagOfKeys(bs[1..]);
      assert Map(KeyOf, bs)[1..] == Map(KeyOf, bs[1..]);
    }
  }

  ghost predicate AllSorted(ks: seq<EntityKey>) { forall i :: 0 <= i < |ks| ==> Sorted(BucketLe, ks[i]) }

  /** Among sorted parts, a part occurs as often as its multiset does. */
  lemma {:induction false} BagCounts(ks: seq<EntityKey>, k: EntityKey)
    requires AllSorted(ks) && Sorted(BucketLe, k)
    ensures multiset(ks)[k] == Bag(ks)[multiset(k)]
  {
    if ks != [] {
      assert ks == [ks[0]] + ks[1..];
      assert AllSorted(ks[1..]);
      BagCounts(ks[1..], k);
      BucketOrder();
      if multiset(ks[0]) == multiset(k) { SortedFormIsUnique(BucketLe, ks[0], k); }
    }
  }

  lemma {:induction false} BagHasOnlyParts<T>(ks: seq<seq<T>>, m: multiset<T>)
    requires Bag(ks)[m] > 0
    ensures exists i :: 0 <= i < |ks| && multiset(ks[i]) == m
  {
    if multiset(ks[0]) != m {
      BagHasOnlyParts(ks[1..], m);
      var i :| 0 <= i < |ks[1..]| && multiset(ks[1..][i]) == m;
      assert multiset(ks[i + 1]) == m;
    }
  }

  lemma BagNotAbove(a: seq<EntityKey>, b: seq<EntityKey>, m: multiset<Bucket>)
    requires AllSorted(a) && AllSorted(b) && multiset(a) == multiset(b)
    ensures Bag(a)[m] <= Bag(b)[m]
  {
    if Bag(a)[m] > 0 {
      BagHasOnlyParts(a, m);
      var i :| 0 <= i < |a| && multiset(a[i]) == m;
      BagCounts(a, a[i]);
      BagCounts(b, a[i]);
    }
  }

  /** For sorted parts, equal bags and equal multisets of parts are the same thing. */
  lemma SortedPartsFromBag(a: seq<EntityKey>, b: seq<EntityKey>)
    requires AllSorted(a) && AllSorted(b)
    ensures multiset(a) == multiset(b) <==> Bag(a) == Bag(b)
  {
    if multiset(a) == multiset(b) {
      forall m ensures Bag(a)[m] == Bag(b)[m] {
        BagNotAbove(a, b, m);
        BagNotAbove(b, a, m);
      }
      assert Bag(a) == Bag(b);
    }
    if Bag(a) == Bag(b) {
      forall k ensures multiset(a)[k] == multiset(b)[k] {
        if Sorted(BucketLe, k) {
          BagCounts(a, k);
          BagCounts(b, k);
        } else {
          assert k !in multiset(a) && k !in multiset(b);
        }
      }
      assert multiset(a) == multiset(b);
    }
  }

  lemma KeysAreSorted(t: PointSets, g: Point)
    ensures AllSorted(EntityKeys(t, g))
  {
    BucketOrder();
    forall i | 0 <= i < |t| ensures Sorted(BucketLe, EntityKeys(t, g)[i]) {
      SortIsSortedPermutation(BucketLe, Map(BucketOf(g), t[i]));
    }
  }

  /**
   The key is canonical: two nonempty templates get equal keys exactly when their
   multisets of per-entity multisets of bucketed centred points are equal.
   */
  lemma SignatureIsCanonical(t: PointSets, u: PointSets)
    requires Count(t) > 0 && Count(u) > 0
    ensures Signature(t) == Signature(u) <==> Content(t) == Content(u)
  {
    var kt, ku := EntityKeys(t, Centre(t)), EntityKeys(u, Centre(u));
    KeyOrder();
    SortIsCanonical(KeyLe, kt, ku);
    KeysAreSorted(t, Centre(t));
    KeysAreSorted(u, Centre(u));
    SortedPartsFromBag(kt, ku);
    BagOfKeys(Map(Bucketed(Centre(t)), t));
    BagOfKeys(Map(Bucketed(Centre(u)), u));
  }

  /** A template without points shares its key with no template that has one. */
  lemma EmptyKeyIsApart(t: PointSets)
    ensures Signature(t) == [] <==> Count(t) == 0
  {
    if Count(t) > 0 {
      KeyOrder();
      SortIsSortedPermutation(KeyLe, EntityKeys(t, Centre(t)));
      assert |t| > 0;
    }
  }

  // ---- translation -------------------------------------------------------------------------------

  function Shifted(d: Point): Point -> Point { (p: Point) => (p.0 + d.0, p.1 + d.1) }

  function ShiftedEntity(d: Point): seq<Point> -> seq<Point> { (pts: seq<Point>) => Map(Shifted(d), pts) }

  function Translated(t: PointSets, d: Point): PointSets { Map(ShiftedEntity(d), t) }

  function Times(n: nat, d: real): real { n as real * d }

  lemma TimesAdds(m: nat, n: nat, d: real)
    ensures Times(m + n, d) == Times(m, d) + Times(n, d)
    ensures Times(0, d) == 0.0 && Times(1, d) == d
  {
  }

  lemma SumMapFirst<S>(f: S -> real, xs: seq<S>)
    requires xs != []
    ensures Sum(Map(f, xs)) == f(xs[0]) + Sum(Map(f, xs[1..]))
  {
    assert Map(f, xs)[1..] == Map(f, xs[1..]);
  }

  lemma {:induction false} SumOfShifted(f: Point -> real, pts: seq<Point>, d: Point, dv: real)
    requires forall p :: f(Shifted(d)(p)) == f(p) + dv
    ensures Sum(Map(f, ShiftedEntity(d)(pts))) == Sum(Map(f, pts)) + Times(|pts|, dv)
  {
    hide Times, Shifted;
    TimesAdds(1, if pts == [] then 0 else |pts| - 1, dv);
    if pts != [] {
      var moved := ShiftedEntity(d)(pts);
      SumOfShifted(f, pts[1..], d, dv);
      assert moved[1..] == ShiftedEntity(d)(pts[1..]);
      assert moved[0] == Shifted(d)(pts[0]);
      SumMapFirst(f, pts);
      SumMapFirst(f, moved);
    }
  }

  lemma {:induction false} ShiftedTotal(f: seq<Point> -> real, t: PointSets, d: Point, dv: real)
    requires forall i :: 0 <= i < |t| ==> f(ShiftedEntity(d)(t[i])) == f(t[i]) + Times(|t[i]|, dv)
    ensures Sum(Map(f, Translated(t, d))) == Sum(Map(f, t)) + Times(Count(t), dv)
  {
    hide ShiftedEntity, Times;
    TimesAdds(if t == [] then 0 else |t[0]|, if t == [] then 0 else Count(t[1..]), dv);
    if t != [] {
      var moved := Translated(t, d);
      assert moved[1..] == Translated(t[1..], d) && moved[0] == ShiftedEntity(d)(t[0]);
      SumMapFirst(f, t);
      SumMapFirst(f, moved);
      hide Sum, Map, Translated;
      ShiftedTotal(f, t[1..], d, dv);
    }
  }

  lemma {:induction false} TranslatedCount(t: PointSets, d: Point)
    ensures Count(Translated(t, d)) == Count(t)
  {
    if t != [] {
      TranslatedCount(t[1..], d);
      assert Translated(t, d)[1..] == Translated(t[1..], d);
    }
  }

  lemma TranslatedTotals(t: PointSets, d: Point)
    ensures TotalX(Translated(t, d)) == TotalX(t) + Times(Count(t), d.0)
    ensures TotalY(Translated(t, d)) == TotalY(t) + Times(Count(t), d.1)
  {
    forall i | 0 <= i < |t|
      ensures SumX(ShiftedEntity(d)(t[i])) == SumX(t[i]) + Times(|t[i]|, d.0)
      ensures SumY(ShiftedEntity(d)(t[i])) == SumY(t[i]) + Times(|t[i]|, d.1)
    {
      SumOfShifted((p: Point) => p.0, t[i], d, d.0);
      SumOfShifted((p: Point) => p.1, t[i], d, d.1);
    }
    hide Times, SumX, SumY, ShiftedEntity, Translated, Count;
    ShiftedTotal(SumX, t, d, d.0);
    ShiftedTotal(SumY, t, d, d.1);
  }

  lemma CentreShifts(t: PointSets, d: Point)
    requires Count(t) > 0
    ensures Count(Translated(t, d)) == Count(t)
    ensures Centre(Translated(t, d)) == (Centre(t).0 + d.0, Centre(t).1 + d.1)
  {
    TranslatedCount(t, d);
    TranslatedTotals(t, d);
    hide TotalX, TotalY, Translated, Times;
    MeanShifts(TotalX(t), Count(t), d.0);
    MeanShifts(TotalY(t), Count(t), d.1);
  }

  lemma MeanShifts(total: real, n: nat, d: real)
    requires n > 0
    ensures (total + Times(n, d)) / n as real == total / n as real + d
  {
  }

  lemma ShiftKeepsBuckets(pts: seq<Point>, g: Point, d: Point)
    ensures Bucketed((g.0 + d.0, g.1 + d.1))(ShiftedEntity(d)(pts)) == Bucketed(g)(pts)
  {
    var h := (g.0 + d.0, g.1 + d.1);
    forall p ensures BucketOf(h)(Shifted(d)(p)) == BucketOf(g)(p) {
      assert p.0 + d.0 - h.0 == p.0 - g.0 && p.1 + d.1 - h.1 == p.1 - g.1;
    }
    hide BucketOf, Shifted;
    assert Map(BucketOf(h), Map(Shifted(d), pts)) == Map(BucketOf(g), pts);
  }

  /** Moving a template does not change its key. */
  lemma TranslationKeepsSignature(t: PointSets, d: Point)
    ensures Signature(Translated(t, d)) == Signature(t)
  {
    TranslatedCount(t, d);
    if Count(t) > 0 {
      var g, h := Centre(t), Centre(Translated(t, d));
      CentreShifts(t, d);
      forall i | 0 <= i < |t| ensures Bucketed(h)(Translated(t, d)[i]) == Bucketed(g)(t[i]) {
        ShiftKeepsBuckets(t[i], g, d);
      }
      hide Centre, Bucketed, KeyOf, Sort;
      assert Map(Bucketed(h), Translated(t, d)) == Map(Bucketed(g), t);
    }
  }

  // ---- entity and vertex order ---------------------------------------------------------------------

  lemma {:induction false} SumSplits(xs: seq<real>, k: nat)
    requires k < |xs|
    ensures Sum(xs) == xs[k] + Sum(xs[..k] + xs[k + 1..])
  {
    var ys := xs[..k] + xs[k + 1..];
    if k == 0 {
      assert ys == xs[1..];
    } else {
      SumSplits(xs[1..], k - 1);
      assert xs[1..][..k - 1] + xs[1..][k..] == ys[1..];
    }
  }

  lemma TakenOut<T>(ys: seq<T>, k: nat)
    requires k < |ys|
    ensures multiset(ys) == multiset{ys[k]} + multiset(ys[..k] + ys[k + 1..])
  {
    assert ys == ys[..k] + ([ys[k]] + ys[k + 1..]);
  }

  /** In a permutation of `xs`, the place of its first element, and what is left around it. */
  lemma FirstElsewhere<T>(xs: seq<T>, ys: seq<T>) returns (k: nat)
    requires xs != [] && multiset(xs) == multiset(ys)
    ensures k < |ys| && ys[k] == xs[0]
    ensures multiset(xs[1..]) == multiset(ys[..k] + ys[k + 1..])
  {
    assert xs[0] in multiset(ys);
    k :| 0 <= k < |ys| && ys[k] == xs[0];
    TakenOut(ys, k);
    TakenOut(xs, 0);
    assert xs[..0] + xs[1..] == xs[1..];
    assert multiset(xs[1..]) == multiset(xs) - multiset{xs[0]};
    assert multiset(ys[..k] + ys[k + 1..]) == multiset(ys) - multiset{ys[k]};
  }

  /** A sum does not depend on the order of its terms. */
  lemma {:induction false} SumOfPermutation(xs: seq<real>, ys: seq<real>)
    requires multiset(xs) == multiset(ys)
    ensures Sum(xs) == Sum(ys)
  {
    if xs == [] {
      assert |multiset(ys)| == 0;
    } else {
      var k := FirstElsewhere(xs, ys);
      SumSplits(ys, k);
      SumOfPermutation(xs[1..], ys[..k] + ys[k + 1..]);
    }
  }

  lemma MapSplits<S, T>(f: S -> T, ys: seq<S>, k: nat)
    requires k < |ys|
    ensures multiset(Map(f, ys)) == multiset{f(ys[k])} + multiset(Map(f, ys[..k] + ys[k + 1..]))
  {
    TakenOut(Map(f, ys), k);
    assert Map(f, ys[..k] + ys[k + 1..]) == Map(f, ys)[..k] + Map(f, ys)[k + 1..];
  }

  lemma MapFirst<S, T>(f: S -> T, xs: seq<S>)
    requires xs != []
    ensures multiset(Map(f, xs)) == multiset{f(xs[0])} + multiset(Map(f, xs[1..]))
  {
    MapSplits(f, xs, 0);
    assert xs[..0] + xs[1..] == xs[1..];
  }

  lemma {:induction false} MapOfPermutation<S, T>(f: S -> T, xs: seq<S>, ys: seq<S>)
    requires multiset(xs) == multiset(ys)
    ensures multiset(Map(f, xs)) == multiset(Map(f, ys))
  {
    hide Map;
    if xs == [] {
      assert |multiset(ys)| == 0 && Map(f, xs) == Map(f, ys);
    } else {
      var k := FirstElsewhere(xs, ys);
      MapOfPermutation(f, xs[1..], ys[..k] + ys[k + 1..]);
      MapFirst(f, xs);
      MapSplits(f, ys, k);
    }
  }

  /** `u` is `t` with the vertices of each entity reordered. */
  ghost predicate SameVertices(t: PointSets, u: PointSets) {
    |t| == |u| && forall i :: 0 <= i < |t| ==> multiset(t[i]) == multiset(u[i])
  }

  lemma {:induction false} VertexOrderKeepsTotals(t: PointSets, u: PointSets)
    requires SameVertices(t, u)
    ensures Count(t) == Count(u) && TotalX(t) == TotalX(u) && TotalY(t) == TotalY(u)
  {
    if t != [] {
      VertexOrderKeepsTotals(t[1..], u[1..]);
      var x, y := (p: Point) => p.0, (p: Point) => p.1;
      assert |multiset(t[0])| == |multiset(u[0])|;
      MapOfPermutation(x, t[0], u[0]);
      SumOfPermutation(Map(x, t[0]), Map(x, u[0]));
      MapOfPermutation(y, t[0], u[0]);
      SumOfPermutation(Map(y, t[0]), Map(y, u[0]));
      assert Map(SumX, t)[1..] == Map(SumX, t[1..]) && Map(SumX, u)[1..] == Map(SumX, u[1..]);
      assert Map(SumY, t)[1..] == Map(SumY, t[1..]) && Map(SumY, u)[1..] == Map(SumY, u[1..]);
    }
  }

  /** Reordering the vertices of entities does not change the key. */
  lemma VertexOrderKeepsSignature(t: PointSets, u: PointSets)
    requires SameVertices(t, u)
    ensures Signature(t) == Signature(u)
  {
    VertexOrderKeepsTotals(t, u);
    if Count(t) > 0 {
      var g := Centre(t);
      BucketOrder();
      forall i | 0 <= i < |t| ensures EntityKeys(t, g)[i] == EntityKeys(u, g)[i] {
        MapOfPermutation(BucketOf(g), t[i], u[i]);
        SortIsCanonical(BucketLe, Map(BucketOf(g), t[i]), Map(BucketOf(g), u[i]));
      }
      assert EntityKeys(t, g) == EntityKeys(u, g);
    }
  }

  lemma {:induction false} CountIsSum(t: PointSets)
    ensures Count(t) as real == Sum(Map((pts: seq<Point>) => |pts| as real, t))
  {
    if t != [] {
      CountIsSum(t[1..]);
      var size := (pts: seq<Point>) => |pts| as real;
      assert Map(size, t)[1..] == Map(size, t[1..]);
    }
  }

  /** Reordering the entities does not change the key. */
  lemma EntityOrderKeepsSignature(t: PointSets, u: PointSets)
    requires multiset(t) == multiset(u)
    ensures Signature(t) == Signature(u)
  {
    var size := (pts: seq<Point>) => |pts| as real;
    CountIsSum(t);
    CountIsSum(u);
    MapOfPermutation(size, t, u);
    SumOfPermutation(Map(size, t), Map(size, u));
    MapOfPermutation(SumX, t, u);
    SumOfPermutation(Map(SumX, t), Map(SumX, u));
    MapOfPermutation(SumY, t, u);
    SumOfPermutation(Map(SumY, t), Map(SumY, u));
    assert Count(t) == Count(u);
    if Count(t) > 0 {
      var g := Centre(t);
      MapOfPermutation(Bucketed(g), t, u);
      MapOfPermutation(KeyOf, Map(Bucketed(g), t), Map(Bucketed(g), u));
      KeyOrder();
      SortIsCanonical(KeyLe, EntityKeys(t, g), EntityKeys(u, g));
    }
  }

  // ---- what the centre and the buckets say about the points ------------------------------------------

  /** A bucket is the offset from the centre in ten-thousandths, rounded to the nearest. */
  lemma BucketIs(g: Point, p: Point, b: Bucket)
    ensures BucketOf(g)(p) == b <==>
      IsNearest((p.0 - g.0) * 10000.0, b.0) && IsNearest((p.1 - g.1) * 10000.0, b.1)
  {
    RoundIsNearest((p.0 - g.0) * 10000.0, b.0);
    RoundIsNearest((p.1 - g.1) * 10000.0, b.1);
  }

  /** All points, entity after entity. */
  function Flat(t: PointSets): seq<Point> { if t == [] then [] else t[0] + Flat(t[1..]) }

  lemma {:induction false} SumOfConcat(f: Point -> real, a: seq<Point>, b: seq<Point>)
    ensures Sum(Map(f, a + b)) == Sum(Map(f, a)) + Sum(Map(f, b))
  {
    if a == [] {
      assert a + b == b;
    } else {
      SumOfConcat(f, a[1..], b);
      assert (a + b)[1..] == a[1..] + b;
      SumMapFirst(f, a);
      SumMapFirst(f, a + b);
    }
  }

  lemma {:induction false} TotalsAreFlat(t: PointSets)
    ensures |Flat(t)| == Count(t)
    ensures TotalX(t) == Sum(Map((p: Point) => p.0, Flat(t))) && TotalY(t) == Sum(Map((p: Point) => p.1, Flat(t)))
  {
    if t != [] {
      TotalsAreFlat(t[1..]);
      SumOfConcat((p: Point) => p.0, t[0], Flat(t[1..]));
      SumOfConcat((p: Point) => p.1, t[0], Flat(t[1..]));
      SumMapFirst(SumX, t);
      SumMapFirst(SumY, t);
    }
  }

  lemma {:induction false} SumOfOffsets(f: Point -> real, pts: seq<Point>, c: real)
    ensures Sum(Map((p: Point) => f(p) - c, pts)) == Sum(Map(f, pts)) - Times(|pts|, c)
  {
    var off := (p: Point) => f(p) - c;
    hide Times;
    TimesAdds(1, if pts == [] then 0 else |pts| - 1, c);
    if pts != [] {
      SumOfOffsets(f, pts[1..], c);
      SumMapFirst(f, pts);
      SumMapFirst(off, pts);
    }
  }

  /** The centre is the point from which all offsets add up to nothing. */
  lemma CentreBalances(t: PointSets)
    requires Count(t) > 0
    ensures Sum(Map((p: Point) => p.0 - Centre(t).0, Flat(t))) == 0.0
    ensures Sum(Map((p: Point) => p.1 - Centre(t).1, Flat(t))) == 0.0
  {
    TotalsAreFlat(t);
    var c := Centre(t);
    SumOfOffsets((p: Point) => p.0, Flat(t), c.0);
    SumOfOffsets((p: Point) => p.1, Flat(t), c.1);
    assert Map((p: Point) => p.0 - c.0, Flat(t)) == Map((p: Point) => ((q: Point) => q.0)(p) - c.0, Flat(t));
    assert Map((p: Point) => p.1 - c.1, Flat(t)) == Map((p: Point) => ((q: Point) => q.1)(p) - c.1, Flat(t));
    MeanTimes(TotalX(t), Count(t));
    MeanTimes(TotalY(t), Count(t));
    hide TotalX, TotalY, Sum, Flat, Count, Times;
  }

  lemma MeanTimes(total: real, n: nat)
    requires n > 0
    ensures Times(n, total / n as real) == total
  {
  }

  /** Offsets from the two centres differ by at most one bucket. */
  ghost predicate OffsetsAgree(p: Point, g: Point, q: Point, h: Point) {
    && -0.0001 <= (p.0 - g.0) - (q.0 - h.0) <= 0.0001
    && -0.0001 <= (p.1 - g.1) - (q.1 - h.1) <= 0.0001
  }

  lemma SameBucketAgrees(p: Point, g: Point, q: Point, h: Point)
    requires BucketOf(g)(p) == BucketOf(h)(q)
    ensures OffsetsAgree(p, g, q, h)
  {
    BucketIs(g, p, BucketOf(g)(p));
    BucketIs(h, q, BucketOf(g)(p));
    hide BucketOf;
  }

  /** In entities of equal bags of buckets, every point has its counterpart. */
  lemma EqualBagsAgree(pts: seq<Point>, g: Point, qts: seq<Point>, h: Point, j: nat) returns (l: nat)
    requires multiset(Bucketed(g)(pts)) == multiset(Bucketed(h)(qts)) && j < |pts|
    ensures l < |qts| && OffsetsAgree(pts[j], g, qts[l], h)
  {
    hide BucketOf, OffsetsAgree;
    var a, b := Bucketed(g)(pts), Bucketed(h)(qts);
    assert a[j] in multiset(b);
    l :| 0 <= l < |b| && b[l] == a[j];
    SameBucketAgrees(pts[j], g, qts[l], h);
  }

  lemma {:induction false} PartIsInBag<T>(xs: seq<seq<T>>, i: nat)
    requires i < |xs|
    ensures Bag(xs)[multiset(xs[i])] > 0
  {
    if i > 0 { PartIsInBag(xs[1..], i - 1); }
  }

  /**
   Templates with one key have one shape up to the bucket: to every entity of one corresponds an
   entity of the other with as many points, and to every point of it one within a ten-thousandth.
   */
  lemma EqualKeysAreClose(t: PointSets, u: PointSets, i: nat) returns (k: nat)
    requires Count(t) > 0 && Count(u) > 0 && Signature(t) == Signature(u) && i < |t|
    ensures k < |u| && |u[k]| == |t[i]|
    ensures forall j: nat :: j < |t[i]| ==>
      exists l: nat :: l < |u[k]| && OffsetsAgree(t[i][j], Centre(t), u[k][l], Centre(u))
  {
    SignatureIsCanonical(t, u);
    var g, h := Centre(t), Centre(u);
    var a, b := Map(Bucketed(g), t), Map(Bucketed(h), u);
    hide Signature, Centre, BucketOf, OffsetsAgree;
    PartIsInBag(a, i);
    BagHasOnlyParts(b, multiset(a[i]));
    k :| 0 <= k < |b| && multiset(b[k]) == multiset(a[i]);
    assert |multiset(b[k])| == |multiset(a[i])|;
    forall j: nat | j < |t[i]| ensures exists l: nat :: l < |u[k]| && OffsetsAgree(t[i][j], g, u[k][l], h) {
      var l := EqualBagsAgree(t[i], g, u[k], h, j);
    }
  }
}
