/**
 The even-odd rule (app/static/canvas.js, `pointInRing`): a closed ring crosses a line an
 even number of times, so parity is false outside the bounding box and constant over any
 rectangle that no edge touches.
 */
module EvenOdd {
  import opened Shapes

  // ---- arithmetic ---------------------------------------------------------------------------

  lemma Product(a: real, b: real)
    requires a >= 0.0 && b >= 0.0
    ensures a * b >= 0.0
  {
  }

  lemma Distribute(a: real, b: real, c: real)
    ensures (a - b) * c == a * c - b * c
  {
  }

  lemma FractionIn(a: real, b: real)
    requires 0.0 <= a <= b && 0.0 < b
    ensures 0.0 <= a / b <= 1.0 && a / b * b == a
  {
    var c := a / b;
    assert c * b == a;
    Distribute(1.0, c, b);
  }

  /** The same fraction of the same interval, measured from either end. */
  lemma Fractions(a: real, b: real, y: real, d: real)
    requires a <= y <= b && a < b
    ensures var t := (y - a) / (b - a);
            && 0.0 <= t <= 1.0 && t * (b - a) == y - a
            && Quot(d, y - b, a - b) == d * (1.0 - t)
            && Quot(d, y - a, b - a) == d * t
  {
    hide Quot;
    FractionIn(y - a, b - a);
    var t := (y - a) / (b - a);
    Distribute(1.0, t, b - a);
    QuotientOf(d, t, b - a, y - a);
    Opposite(1.0 - t, b - a);
    QuotientOf(d, 1.0 - t, a - b, y - b);
  }

  lemma Opposite(t: real, h: real)
    ensures t * (-h) == -(t * h)
  {
  }

  lemma QuotientOf(d: real, t: real, h: real, n: real)
    requires h != 0.0 && n == t * h
    ensures Quot(d, n, h) == d * t
  {
    assert d * n == (d * t) * h;
  }

  lemma Between(a: real, b: real, l: real)
    requires 0.0 <= l <= 1.0
    ensures a <= b ==> a <= Lerp(a, b, l) <= b
    ensures b <= a ==> b <= Lerp(a, b, l) <= a
  {
    Distribute(1.0, l, b - a);
    if a <= b {
      Product(l, b - a);
      Product(1.0 - l, b - a);
    } else {
      Product(l, a - b);
      Product(1.0 - l, a - b);
      Distribute(0.0, l, b - a);
      Distribute(1.0, l, a - b);
    }
  }

  // ---- points of an edge ------------------------------------------------------------------

  /** The crossing the ray test computes is a point of the edge. */
  lemma CrossingIsOnEdge(y: real, i: Pt, j: Pt)
    requires Straddles(y, i, j)
    ensures OnSegment(j, i, Pt(CrossX(y, i, j), y))
  {
    hide Quot;
    var t: real;
    if j.y < i.y {
      t := (y - j.y) / (i.y - j.y);
      Fractions(j.y, i.y, y, j.x - i.x);
      EdgePoint(y, i, j, t);
    } else {
      var s := (y - i.y) / (j.y - i.y);
      t := 1.0 - s;
      Fractions(i.y, j.y, y, j.x - i.x);
      EdgePoint(y, i, j, t);
    }
  }

  lemma EdgePoint(y: real, i: Pt, j: Pt, t: real)
    requires Straddles(y, i, j) && 0.0 <= t <= 1.0
    requires t * (i.y - j.y) == y - j.y
    requires CrossX(y, i, j) == (j.x - i.x) * (1.0 - t) + i.x
    ensures OnSegment(j, i, Pt(CrossX(y, i, j), y))
  {
    assert (j.x - i.x) * (1.0 - t) == (j.x - i.x) + t * (i.x - j.x);
    assert At(j, i, t) == Pt(CrossX(y, i, j), y);
  }

  lemma EndsOnEdge(i: Pt, j: Pt)
    ensures OnSegment(j, i, i) && OnSegment(j, i, j)
  {
    assert At(j, i, 1.0) == i && At(j, i, 0.0) == j;
  }

  lemma LerpOfLerps(a: real, b: real, t: real, u: real, l: real)
    ensures Lerp(Lerp(a, b, t), Lerp(a, b, u), l) == Lerp(a, b, Lerp(t, u, l))
  {
    var d := b - a;
    assert Lerp(a, b, u) - Lerp(a, b, t) == (u - t) * d by { Distribute(u, t, d); }
    assert l * ((u - t) * d) == (l * (u - t)) * d;
    Distribute(t, -(l * (u - t)), d);
  }

  lemma SegmentIsConvex(j: Pt, i: Pt, p: Pt, q: Pt, l: real)
    requires OnSegment(j, i, p) && OnSegment(j, i, q) && 0.0 <= l <= 1.0
    ensures OnSegment(j, i, At(p, q, l))
  {
    hide Lerp;
    var t: real :| 0.0 <= t <= 1.0 && p == At(j, i, t);
    var u: real :| 0.0 <= u <= 1.0 && q == At(j, i, u);
    Between(t, u, l);
    LerpOfLerps(j.x, i.x, t, u, l);
    LerpOfLerps(j.y, i.y, t, u, l);
    assert At(p, q, l) == At(j, i, Lerp(t, u, l));
  }

  lemma LerpHits(a: real, b: real, x: real)
    requires a <= x < b
    ensures exists l: real :: 0.0 <= l <= 1.0 && Lerp(a, b, l) == x
  {
    FractionIn(x - a, b - a);
    assert Lerp(a, b, (x - a) / (b - a)) == x;
  }

  /**
   Two points of an edge on opposite sides of a vertical line, both in a band: the edge meets the
   line in the band.
   */
  lemma MeetsLine(j: Pt, i: Pt, p: Pt, q: Pt, x: real, lo: real, hi: real)
    requires OnSegment(j, i, p) && OnSegment(j, i, q)
    requires q.x <= x < p.x && lo <= p.y <= hi && lo <= q.y <= hi
    ensures exists c: Pt :: c.x == x && lo <= c.y <= hi && OnSegment(j, i, c)
  {
    hide Lerp, OnSegment;
    LerpHits(q.x, p.x, x);
    var l: real :| 0.0 <= l <= 1.0 && Lerp(q.x, p.x, l) == x;
    SegmentIsConvex(j, i, q, p, l);
    Between(q.y, p.y, l);
    assert At(q, p, l).x == x && lo <= At(q, p, l).y <= hi;
  }

  lemma SegmentInRect(a: Pt, b: Pt, r: Rect, p: Pt)
    requires r.Has(a) && r.Has(b) && OnSegment(a, b, p)
    ensures r.Has(p)
  {
    hide Lerp;
    var t: real :| 0.0 <= t <= 1.0 && p == At(a, b, t);
    Between(a.x, b.x, t);
    Between(a.y, b.y, t);
  }

  // ---- parity along a vertical line ---------------------------------------------------------

  /** In the half-strip right of `x`, above `lo` and up to `hi`. */
  predicate InStrip(v: Pt, x: real, lo: real, hi: real) { lo < v.y <= hi && x < v.x }

  ghost predicate Misses(i: Pt, j: Pt, x: real, lo: real, hi: real) {
    forall c: Pt :: c.x == x && lo <= c.y <= hi ==> !OnSegment(j, i, c)
  }

  /** An edge off the strip's left side crosses its other two sides once for each change of side. */
  lemma EdgeParity(i: Pt, j: Pt, x: real, lo: real, hi: real)
    requires lo <= hi && Misses(i, j, x, lo, hi)
    ensures (CrossesRay(Pt(x, lo), i, j) != CrossesRay(Pt(x, hi), i, j)) ==
            (InStrip(i, x, lo, hi) != InStrip(j, x, lo, hi))
  {
    EndsOnEdge(i, j);
    if Straddles(lo, i, j) { CrossingIsOnEdge(lo, i, j); }
    if Straddles(hi, i, j) { CrossingIsOnEdge(hi, i, j); }
    forall p, q | OnSegment(j, i, p) && OnSegment(j, i, q) && lo <= p.y <= hi && lo <= q.y <= hi
      ensures x < p.x <==> x < q.x
    {
      if q.x <= x < p.x { MeetsLine(j, i, p, q, x, lo, hi); }
      if p.x <= x < q.x { MeetsLine(j, i, q, p, x, lo, hi); }
    }
    hide OnSegment, Misses;
    if i.y > hi && j.y > hi {
    } else if i.y <= lo && j.y <= lo {
    } else if i.y <= lo && j.y > hi {
      var a, b := Pt(CrossX(lo, i, j), lo), Pt(CrossX(hi, i, j), hi);
      assert x < a.x <==> x < b.x;
    } else if j.y <= lo && i.y > hi {
      var a, b := Pt(CrossX(lo, i, j), lo), Pt(CrossX(hi, i, j), hi);
      assert x < a.x <==> x < b.x;
    } else if i.y <= lo {
      assert x < Pt(CrossX(lo, i, j), lo).x <==> x < j.x;
    } else if j.y <= lo {
      assert x < Pt(CrossX(lo, i, j), lo).x <==> x < i.x;
    } else if i.y > hi {
      assert x < Pt(CrossX(hi, i, j), hi).x <==> x < j.x;
    } else if j.y > hi {
      assert x < Pt(CrossX(hi, i, j), hi).x <==> x < i.x;
    } else {
      assert x < i.x <==> x < j.x;
    }
  }

  ghost predicate RingMisses(ring: seq<Pt>, x: real, lo: real, hi: real) {
    forall k :: 0 <= k < |ring| ==> Misses(ring[k], Prev(ring, k), x, lo, hi)
  }

  predicate Odd(n: nat) { n % 2 == 1 }

  function One(b: bool): nat { if b then 1 else 0 }

  lemma OddStep(m: nat, n: nat, c: bool, d: bool)
    ensures Odd(m + One(c) + (n + One(d))) == (Odd(m + n) != (c != d))
  {
  }

  lemma OneMoreEdge(p: Pt, q: Pt, ring: seq<Pt>, n: nat)
    requires 0 < n <= |ring|
    ensures var i, j := ring[n - 1], Prev(ring, n - 1);
            Odd(Crossings(p, ring, n) + Crossings(q, ring, n)) ==
            (Odd(Crossings(p, ring, n - 1) + Crossings(q, ring, n - 1)) != (CrossesRay(p, i, j) != CrossesRay(q, i, j)))
  {
    hide CrossesRay, Odd;
    var i, j := ring[n - 1], Prev(ring, n - 1);
    OddStep(Crossings(p, ring, n - 1), Crossings(q, ring, n - 1), CrossesRay(p, i, j), CrossesRay(q, i, j));
  }

  lemma NoEdges(p: Pt, q: Pt, ring: seq<Pt>)
    ensures !Odd(Crossings(p, ring, 0) + Crossings(q, ring, 0))
  {
  }

  lemma RingEdgeParity(ring: seq<Pt>, n: nat, x: real, lo: real, hi: real)
    requires lo <= hi && RingMisses(ring, x, lo, hi) && 0 < n <= |ring|
    ensures Odd(Crossings(Pt(x, lo), ring, n) + Crossings(Pt(x, hi), ring, n)) ==
            (Odd(Crossings(Pt(x, lo), ring, n - 1) + Crossings(Pt(x, hi), ring, n - 1))
             != (InStrip(ring[n - 1], x, lo, hi) != InStrip(Prev(ring, n - 1), x, lo, hi)))
  {
    assert Misses(ring[n - 1], Prev(ring, n - 1), x, lo, hi);
    hide CrossesRay, InStrip, RingMisses, Odd, Crossings, Misses;
    EdgeParity(ring[n - 1], Prev(ring, n - 1), x, lo, hi);
    OneMoreEdge(Pt(x, lo), Pt(x, hi), ring, n);
  }

  lemma {:induction false} CrossingsTelescope(ring: seq<Pt>, n: nat, x: real, lo: real, hi: real)
    requires lo <= hi && RingMisses(ring, x, lo, hi) && 0 < n <= |ring|
    ensures Odd(Crossings(Pt(x, lo), ring, n) + Crossings(Pt(x, hi), ring, n)) ==
            (InStrip(ring[|ring| - 1], x, lo, hi) != InStrip(ring[n - 1], x, lo, hi))
  {
    hide CrossesRay, InStrip, RingMisses, Odd, Crossings;
    RingEdgeParity(ring, n, x, lo, hi);
    if n > 1 {
      CrossingsTelescope(ring, n - 1, x, lo, hi);
    } else {
      NoEdges(Pt(x, lo), Pt(x, hi), ring);
    }
  }

  lemma VerticalKeepsParity(ring: seq<Pt>, x: real, lo: real, hi: real)
    requires lo <= hi && RingMisses(ring, x, lo, hi)
    ensures InRing(Pt(x, lo), ring) == InRing(Pt(x, hi), ring)
  {
    if ring != [] {
      hide RingMisses, InStrip, CrossesRay, Crossings;
      CrossingsTelescope(ring, |ring|, x, lo, hi);
      OddSum(Crossings(Pt(x, lo), ring, |ring|), Crossings(Pt(x, hi), ring, |ring|));
    }
  }

  lemma OddSum(m: nat, n: nat)
    requires !Odd(m + n)
    ensures m % 2 == 1 <==> n % 2 == 1
  {
  }

  // ---- parity along a horizontal line ---------------------------------------------------------

  lemma EdgeRow(i: Pt, j: Pt, y: real, left: real, right: real)
    requires left <= right
    requires forall c: Pt :: c.y == y && left <= c.x <= right ==> !OnSegment(j, i, c)
    ensures CrossesRay(Pt(left, y), i, j) == CrossesRay(Pt(right, y), i, j)
  {
    if Straddles(y, i, j) { CrossingIsOnEdge(y, i, j); }
  }

  lemma {:induction false} HorizontalKeepsCrossings(ring: seq<Pt>, n: nat, y: real, left: real, right: real)
    requires left <= right && n <= |ring|
    requires forall c: Pt :: c.y == y && left <= c.x <= right ==> !OnRing(c, ring)
    ensures Crossings(Pt(left, y), ring, n) == Crossings(Pt(right, y), ring, n)
  {
    if n > 0 {
      HorizontalKeepsCrossings(ring, n - 1, y, left, right);
      EdgeRow(ring[n - 1], Prev(ring, n - 1), y, left, right);
    }
  }

  // ---- parity over a rectangle --------------------------------------------------------------

  lemma SameOnRow(ring: seq<Pt>, r: Rect, p: Pt, q: Pt)
    requires forall c :: r.Has(c) ==> !OnRing(c, ring)
    requires r.Has(p) && r.Has(q) && p.y == q.y
    ensures InRing(p, ring) == InRing(q, ring)
  {
    var left, right := if p.x <= q.x then p else q, if p.x <= q.x then q else p;
    forall c: Pt | c.y == p.y && left.x <= c.x <= right.x ensures !OnRing(c, ring) { assert r.Has(c); }
    HorizontalKeepsCrossings(ring, |ring|, p.y, left.x, right.x);
    assert left == Pt(left.x, p.y) && right == Pt(right.x, p.y);
  }

  lemma SameOnColumn(ring: seq<Pt>, r: Rect, p: Pt, q: Pt)
    requires forall c :: r.Has(c) ==> !OnRing(c, ring)
    requires r.Has(p) && r.Has(q) && p.x == q.x
    ensures InRing(p, ring) == InRing(q, ring)
  {
    var lo, hi := if p.y <= q.y then p else q, if p.y <= q.y then q else p;
    forall k, c: Pt | 0 <= k < |ring| && c.x == p.x && lo.y <= c.y <= hi.y
      ensures !OnSegment(Prev(ring, k), ring[k], c)
    {
      assert r.Has(c);
    }
    VerticalKeepsParity(ring, p.x, lo.y, hi.y);
    assert lo == Pt(p.x, lo.y) && hi == Pt(p.x, hi.y);
  }

  /** If no edge touches a rectangle, the whole rectangle is inside the ring or outside it. */
  lemma ParityIsConstant(ring: seq<Pt>, r: Rect, p: Pt, q: Pt)
    requires forall c :: r.Has(c) ==> !OnRing(c, ring)
    requires r.Has(p) && r.Has(q)
    ensures InRing(p, ring) == InRing(q, ring)
  {
    SameOnRow(ring, r, p, Pt(q.x, p.y));
    SameOnColumn(ring, r, Pt(q.x, p.y), q);
  }

  lemma {:induction false} InsideIsConstant(rings: seq<seq<Pt>>, n: nat, r: Rect, p: Pt, q: Pt)
    requires n <= |rings| && r.Has(p) && r.Has(q)
    requires forall k, c :: 0 <= k < |rings| && r.Has(c) ==> !OnRing(c, rings[k])
    ensures RingsAround(p, rings, n) == RingsAround(q, rings, n)
  {
    if n > 0 {
      InsideIsConstant(rings, n - 1, r, p, q);
      ParityIsConstant(rings[n - 1], r, p, q);
    }
  }

  // ---- outside the bounding box ---------------------------------------------------------------

  ghost predicate Encloses(r: Rect, ring: seq<Pt>) { forall v :: v in ring ==> r.Has(v) }

  /** West of every vertex a ray crosses exactly the edges that straddle it: an even number. */
  lemma {:induction false} StraddlesTelescope(ring: seq<Pt>, n: nat, p: Pt, r: Rect)
    requires Encloses(r, ring) && p.x < r.xmin && 0 < n <= |ring|
    ensures Crossings(p, ring, n) % 2 == if (ring[|ring| - 1].y > p.y) != (ring[n - 1].y > p.y) then 1 else 0
  {
    var i, j := ring[n - 1], Prev(ring, n - 1);
    if Straddles(p.y, i, j) {
      CrossingIsOnEdge(p.y, i, j);
      SegmentInRect(j, i, r, Pt(CrossX(p.y, i, j), p.y));
    }
    if n > 1 {
      StraddlesTelescope(ring, n - 1, p, r);
    } else {
      assert Crossings(p, ring, 0) == 0;
    }
  }

  lemma {:induction false} NoCrossings(ring: seq<Pt>, n: nat, p: Pt, r: Rect)
    requires Encloses(r, ring) && (p.x > r.xmax || p.y > r.ymax || p.y < r.ymin) && n <= |ring|
    ensures Crossings(p, ring, n) == 0
  {
    if n > 0 {
      var i, j := ring[n - 1], Prev(ring, n - 1);
      if Straddles(p.y, i, j) {
        CrossingIsOnEdge(p.y, i, j);
        SegmentInRect(j, i, r, Pt(CrossX(p.y, i, j), p.y));
      }
      NoCrossings(ring, n - 1, p, r);
    }
  }

  lemma InRingIsInBox(ring: seq<Pt>, p: Pt, r: Rect)
    requires Encloses(r, ring) && InRing(p, ring)
    ensures r.Has(p)
  {
    if p.x < r.xmin {
      StraddlesTelescope(ring, |ring|, p, r);
    } else if !r.Has(p) {
      NoCrossings(ring, |ring|, p, r);
    }
  }

  lemma {:induction false} InsideIsInBox(rings: seq<seq<Pt>>, n: nat, p: Pt, r: Rect)
    requires n <= |rings| && RingsAround(p, rings, n) > 0
    requires forall k :: 0 <= k < |rings| ==> Encloses(r, rings[k])
    ensures r.Has(p)
  {
    if InRing(p, rings[n - 1]) {
      InRingIsInBox(rings[n - 1], p, r);
    } else {
      InsideIsInBox(rings, n - 1, p, r);
    }
  }

  // ---- the loop ---------------------------------------------------------------------------------

  lemma CrossesRayIs(p: Pt, i: Pt, j: Pt)
    ensures CrossesRay(p, i, j) <==>
      (i.y > p.y) != (j.y > p.y) && p.x < (j.x - i.x) * (p.y - i.y) / (j.y - i.y) + i.x
  {
  }

  method PointInRing(p: Pt, ring: seq<Pt>) returns (inside: bool)
    ensures inside == InRing(p, ring)
  {
    hide CrossesRay;
    inside := false;
    var i, j := 0, |ring| - 1;
    while i < |ring|
      invariant 0 <= i <= |ring|
      invariant i < |ring| ==> 0 <= j < |ring| && ring[j] == Prev(ring, i)
      invariant inside <==> Crossings(p, ring, i) % 2 == 1
    {
      CrossesRayIs(p, ring[i], ring[j]);
      if (ring[i].y > p.y) != (ring[j].y > p.y) {
        if p.x < (ring[j].x - ring[i].x) * (p.y - ring[i].y) / (ring[j].y - ring[i].y) + ring[i].x {
          inside := !inside;
        }
      }
      j := i;
      i := i + 1;
    }
  }
}
