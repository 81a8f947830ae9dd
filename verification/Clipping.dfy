/** Segment against rectangle: the clipping loop finds a common point exactly when there is one. */
module Clipping {
  import opened Shapes

  /** The four half-planes of a rectangle along a segment: `Slope(i) * t <= Bound(i)`. */
  function Slope(a: Pt, b: Pt, i: nat): real
    requires i < 4
  {
    if i == 0 then -(b.x - a.x) else if i == 1 then b.x - a.x else if i == 2 then -(b.y - a.y) else b.y - a.y
  }

  function Bound(a: Pt, r: Rect, i: nat): real
    requires i < 4
  {
    if i == 0 then a.x - r.xmin else if i == 1 then r.xmax - a.x else if i == 2 then a.y - r.ymin else r.ymax - a.y
  }

  /** The point at parameter `t` is on the segment and in the first `n` half-planes. */
  predicate Within(a: Pt, b: Pt, r: Rect, n: nat, t: real) {
    var c := At(a, b, t);
    && 0.0 <= t <= 1.0
    && (n > 0 ==> r.xmin <= c.x) && (n > 1 ==> c.x <= r.xmax)
    && (n > 2 ==> r.ymin <= c.y) && (n > 3 ==> c.y <= r.ymax)
  }

  lemma NextHalfPlane(a: Pt, b: Pt, r: Rect, i: nat, t: real)
    requires i < 4
    ensures Within(a, b, r, i + 1, t) <==> Within(a, b, r, i, t) && Slope(a, b, i) * t <= Bound(a, r, i)
  {
    if i == 0 {
      assert Slope(a, b, i) * t == -(t * (b.x - a.x));
    } else if i == 1 {
      assert Slope(a, b, i) * t == t * (b.x - a.x);
    } else if i == 2 {
      assert Slope(a, b, i) * t == -(t * (b.y - a.y));
    } else {
      assert Slope(a, b, i) * t == t * (b.y - a.y);
    }
  }

  lemma BelowQuotient(p: real, q: real, c: real, t: real)
    requires p != 0.0 && c == q / p
    ensures p > 0.0 ==> (p * t <= q <==> t <= c)
    ensures p < 0.0 ==> (p * t <= q <==> t >= c)
  {
    assert p * c == q;
    assert p * t - q == p * (t - c);
    if t > c { Sign(p, t - c); } else if t < c { Sign(p, c - t); assert p * (t - c) == -(p * (c - t)); }
  }

  lemma Sign(p: real, d: real)
    requires d > 0.0
    ensures p > 0.0 ==> p * d > 0.0
    ensures p < 0.0 ==> p * d < 0.0
  {
    if p < 0.0 { assert (-p) * d > 0.0; }
  }

  /** Half-plane `p * t <= q` of a slope `p` other than zero, cut at `c == q / p`. */
  predicate OnSide(p: real, c: real, t: real) { if p < 0.0 then t >= c else t <= c }

  lemma Narrowed(a: Pt, b: Pt, r: Rect, i: nat, n: nat, c: real)
    requires i < 4 && n == i + 1 && Slope(a, b, i) != 0.0 && c == Bound(a, r, i) / Slope(a, b, i)
    ensures forall t :: Within(a, b, r, n, t) <==> Within(a, b, r, i, t) && OnSide(Slope(a, b, i), c, t)
  {
    forall t ensures Within(a, b, r, n, t) <==> Within(a, b, r, i, t) && OnSide(Slope(a, b, i), c, t) {
      NextHalfPlane(a, b, r, i, t);
      BelowQuotient(Slope(a, b, i), Bound(a, r, i), c, t);
    }
  }

  lemma Parallel(a: Pt, b: Pt, r: Rect, i: nat, n: nat)
    requires i < 4 && n == i + 1 && Slope(a, b, i) == 0.0
    ensures forall t :: Within(a, b, r, n, t) <==> Within(a, b, r, i, t) && Bound(a, r, i) >= 0.0
  {
    forall t ensures Within(a, b, r, n, t) <==> Within(a, b, r, i, t) && Bound(a, r, i) >= 0.0 {
      NextHalfPlane(a, b, r, i, t);
      assert Slope(a, b, i) * t == 0.0;
    }
  }

  lemma AllowedIsCommon(a: Pt, b: Pt, r: Rect)
    ensures (exists t :: Within(a, b, r, 4, t)) <==> exists c :: r.Has(c) && OnSegment(a, b, c)
  {
    if t :| Within(a, b, r, 4, t) {
      assert r.Has(At(a, b, t)) && OnSegment(a, b, At(a, b, t));
    }
    if c :| r.Has(c) && OnSegment(a, b, c) {
      var t: real :| 0.0 <= t <= 1.0 && c == At(a, b, t);
      assert Within(a, b, r, 4, t);
    }
  }

  lemma OnlyShrinks(a: Pt, b: Pt, r: Rect, n: nat, t: real)
    requires n <= 4 && Within(a, b, r, 4, t)
    ensures Within(a, b, r, n, t)
  {
  }

  /** No condition on the rectangle: for `xmin > xmax` no point is inside it and none is found. */
  method SegmentIntersectsRect(a: Pt, b: Pt, r: Rect) returns (hit: bool)
    ensures hit <==> exists c :: r.Has(c) && OnSegment(a, b, c)
  {
    var t0, t1 := 0.0, 1.0;
    AllowedIsCommon(a, b, r);
    for i := 0 to 4
      invariant 0.0 <= t0 <= t1 <= 1.0
      invariant forall t :: Within(a, b, r, i, t) <==> t0 <= t <= t1
    {
      var n := i + 1;
      forall t | Within(a, b, r, 4, t) ensures Within(a, b, r, n, t) { OnlyShrinks(a, b, r, n, t); }
      hide Within, OnSegment, Slope, Bound, Lerp;
      var p, q := Slope(a, b, i), Bound(a, r, i);
      if p == 0.0 {
        Parallel(a, b, r, i, n);
        if q < 0.0 { return false; }
      } else {
        var t := q / p;
        Narrowed(a, b, r, i, n, t);
        if p < 0.0 {
          if t > t1 { return false; }
          if t > t0 { t0 := t; }
        } else {
          if t < t0 { return false; }
          if t < t1 { t1 := t; }
        }
      }
    }
    assert Within(a, b, r, 4, t0);
    return true;
  }
}
