/**
 Bounding boxes and rectangle tests of every primitive kind (app/static/canvas.js): a
 crossing test holds exactly when the rectangle contains a drawn point, and rejecting on
 the bounding box first never changes the answer.
 */
module BoxSelect {
  import opened Shapes
  import opened Clipping
  import opened EvenOdd
  import opened Rounding

  // ---- bounding boxes -------------------------------------------------------------------

  ghost predicate Tight(vertex: Pt -> bool, box: Box) {
    match box
    case Nothing => forall v :: !vertex(v)
    case Around(r) =>
      && (forall v :: vertex(v) ==> r.Has(v))
      && (exists v: Pt :: vertex(v) && v.x == r.xmin) && (exists v: Pt :: vertex(v) && v.x == r.xmax)
      && (exists v: Pt :: vertex(v) && v.y == r.ymin) && (exists v: Pt :: vertex(v) && v.y == r.ymax)
  }

  /** `box` is the least box around the vertices of `s`. */
  ghost predicate IsBoxOf(s: Shape, box: Box) { Tight(v => IsVertex(s, v), box) }

  /** One step of `acc`. */
  function Grown(box: Box, p: Pt): Box {
    match box
    case Nothing => Around(Rect(p.x, p.y, p.x, p.y))
    case Around(r) =>
      Around(Rect(if p.x < r.xmin then p.x else r.xmin, if p.y < r.ymin then p.y else r.ymin,
                  if p.x > r.xmax then p.x else r.xmax, if p.y > r.ymax then p.y else r.ymax))
  }

  lemma GrownIsTight(vertex: Pt -> bool, box: Box, p: Pt, more: Pt -> bool)
    requires Tight(vertex, box) && forall v :: more(v) <==> vertex(v) || v == p
    ensures Tight(more, Grown(box, p))
  {
    assert more(p);
    if box.Around? {
      var r := box.rect;
      var w: Pt :| vertex(w) && w.x == r.xmin;
      var e: Pt :| vertex(e) && e.x == r.xmax;
      var s: Pt :| vertex(s) && s.y == r.ymin;
      var n: Pt :| vertex(n) && n.y == r.ymax;
      assert more(w) && more(e) && more(s) && more(n);
    }
  }

  lemma TightOfSame(a: Pt -> bool, b: Pt -> bool, box: Box)
    requires Tight(a, box) && forall v :: a(v) <==> b(v)
    ensures Tight(b, box)
  {
    if box.Around? {
      var r := box.rect;
      var w: Pt :| a(w) && w.x == r.xmin;
      var e: Pt :| a(e) && e.x == r.xmax;
      var s: Pt :| a(s) && s.y == r.ymin;
      var n: Pt :| a(n) && n.y == r.ymax;
      assert b(w) && b(e) && b(s) && b(n);
    }
  }

  method GrowBy(box: Box, points: seq<Pt>, ghost vertex: Pt -> bool, ghost more: Pt -> bool) returns (grown: Box)
    requires Tight(vertex, box) && forall v :: more(v) <==> vertex(v) || v in points
    ensures Tight(more, grown)
  {
    grown := box;
    ghost var seen := v => vertex(v) || v in points[..0];
    TightOfSame(vertex, seen, box);
    for i := 0 to |points|
      invariant Tight(seen, grown)
      invariant forall v :: seen(v) <==> vertex(v) || v in points[..i]
    {
      hide Tight;
      ghost var next := v => vertex(v) || v in points[..i + 1];
      GrownIsTight(seen, grown, points[i], next);
      grown := Grown(grown, points[i]);
      seen := next;
    }
    assert points[..|points|] == points;
    TightOfSame(seen, more, grown);
  }

  method BboxOf(s: Shape) returns (box: Box)
    ensures IsBoxOf(s, box)
  {
    box := Nothing;
    ghost var none: Pt -> bool := _ => false;
    ghost var vertex := v => IsVertex(s, v);
    match s {
      case Line(a, b) => box := GrowBy(box, [a, b], none, vertex);
      case Polyline(points, _) => box := GrowBy(box, points, none, vertex);
      case FilledPolygon(rings) =>
        ghost var seen := none;
        for k := 0 to |rings|
          invariant Tight(seen, box)
          invariant forall v :: seen(v) <==> exists m :: 0 <= m < k && v in rings[m]
        {
          hide Tight;
          ghost var next := v => exists m :: 0 <= m < k + 1 && v in rings[m];
          box := GrowBy(box, rings[k], seen, next);
          seen := next;
        }
        TightOfSame(seen, vertex, box);
      case Point(pos) => box := GrowBy(box, [pos], none, vertex);
      case Circle(c, r) =>
        box := GrowBy(box, [Pt(c.x - r, c.y - r), Pt(c.x + r, c.y + r)], none, vertex);
      case Other =>
    }
  }

  // ---- every drawn point is in the box ------------------------------------------------------

  lemma RootOrder(a: real, b: real)
    requires a >= 0.0 && b >= 0.0 && a * a <= b * b
    ensures a <= b
  {
    assert (a - b) * (a + b) == a * a - b * b;
    if a > b { Sign(a - b, a + b); }
  }

  lemma SquareBound(d: real, r: real)
    requires d * d <= r * r
    ensures AbsReal(d) <= AbsReal(r)
  {
    assert AbsReal(d) * AbsReal(d) == d * d && AbsReal(r) * AbsReal(r) == r * r;
    RootOrder(AbsReal(d), AbsReal(r));
  }

  lemma DiskInBox(c: Pt, r: real, p: Pt, box: Rect)
    requires Dist2(p, c) <= r * r && box.Has(Pt(c.x - r, c.y - r)) && box.Has(Pt(c.x + r, c.y + r))
    ensures box.Has(p)
  {
    var dx, dy := c.x - p.x, c.y - p.y;
    assert dx * dx >= 0.0 && dy * dy >= 0.0;
    SquareBound(dx, r);
    SquareBound(dy, r);
  }

  ghost predicate AllVerticesIn(s: Shape, r: Rect) { forall v :: IsVertex(s, v) ==> r.Has(v) }

  /** Whatever a shape draws lies in any rectangle around its vertices. */
  lemma DrawnIsInBox(s: Shape, r: Rect, p: Pt)
    requires AllVerticesIn(s, r) && Covers(s, p)
    ensures r.Has(p)
  {
    match s {
      case Line(a, b) =>
        assert IsVertex(s, a) && IsVertex(s, b);
        SegmentInRect(a, b, r, p);
      case Polyline(points, closed) =>
        assert forall i :: 0 <= i < |points| ==> IsVertex(s, points[i]);
        if i :| 0 < i < |points| && OnSegment(points[i - 1], points[i], p) {
          SegmentInRect(points[i - 1], points[i], r, p);
        } else {
          SegmentInRect(points[|points| - 1], points[0], r, p);
        }
      case FilledPolygon(rings) => PolygonIsInBox(rings, r, p);
      case Point(pos) => assert IsVertex(s, pos);
      case Circle(c, rad) =>
        assert IsVertex(s, Pt(c.x - rad, c.y - rad)) && IsVertex(s, Pt(c.x + rad, c.y + rad));
        DiskInBox(c, rad, p, r);
    }
  }

  lemma PolygonIsInBox(rings: seq<seq<Pt>>, r: Rect, p: Pt)
    requires AllVerticesIn(FilledPolygon(rings), r) && Covers(FilledPolygon(rings), p)
    ensures r.Has(p)
  {
    forall k | 0 <= k < |rings| ensures Encloses(r, rings[k]) {
      forall v | v in rings[k] ensures r.Has(v) { assert IsVertex(FilledPolygon(rings), v); }
    }
    if k :| 0 <= k < |rings| && OnRing(p, rings[k]) {
      var i :| 0 <= i < |rings[k]| && OnSegment(Prev(rings[k], i), rings[k][i], p);
      SegmentInRect(Prev(rings[k], i), rings[k][i], r, p);
    } else {
      InsideIsInBox(rings, |rings|, p, r);
    }
  }

  // ---- crossing ---------------------------------------------------------------------------------

  ghost predicate Touches(s: Shape, r: Rect) { exists p :: r.Has(p) && Covers(s, p) }

  predicate Apart(box: Box, r: Rect) {
    box.Around? ==>
      box.rect.xmax < r.xmin || box.rect.xmin > r.xmax || box.rect.ymax < r.ymin || box.rect.ymin > r.ymax
  }

  lemma BoxHasVertices(s: Shape, box: Box)
    requires IsBoxOf(s, box)
    ensures forall v :: IsVertex(s, v) ==> box.Has(v)
  {
    var vertex := v => IsVertex(s, v);
    assert Tight(vertex, box);
    forall v | IsVertex(s, v) ensures box.Has(v) { assert vertex(v); }
  }

  /** The quick reject never changes the answer, for any primitive kind. */
  lemma QuickRejectIsSound(s: Shape, box: Box, r: Rect)
    requires IsBoxOf(s, box) && Apart(box, r)
    ensures !Touches(s, r)
  {
    if p :| r.Has(p) && Covers(s, p) {
      if box.Nothing? {
        BoxHasVertices(s, box);
        NothingDrawn(s, p);
      } else {
        BoxHasVertices(s, box);
        DrawnIsInBox(s, box.rect, p);
      }
    }
  }

  lemma NothingDrawn(s: Shape, p: Pt)
    requires forall v :: !IsVertex(s, v)
    ensures !Covers(s, p)
  {
    if Covers(s, p) {
      DrawnIsInBox(s, Rect(p.x + 1.0, p.y, p.x + 1.0, p.y), p);
    }
  }

  method RingTouches(ring: seq<Pt>, r: Rect) returns (hit: bool)
    ensures hit <==> exists p :: r.Has(p) && OnRing(p, ring)
  {
    var i, j := 0, |ring| - 1;
    while i < |ring|
      invariant 0 <= i <= |ring|
      invariant i < |ring| ==> 0 <= j < |ring| && ring[j] == Prev(ring, i)
      invariant forall k, p :: 0 <= k < i && r.Has(p) ==> !OnSegment(Prev(ring, k), ring[k], p)
    {
      hide OnSegment;
      var edge := SegmentIntersectsRect(ring[j], ring[i], r);
      if edge {
        ghost var p :| r.Has(p) && OnSegment(ring[j], ring[i], p);
        assert OnRing(p, ring);
        return true;
      }
      j := i;
      i := i + 1;
    }
    return false;
  }

  method PolylineTouches(points: seq<Pt>, closed: bool, r: Rect) returns (hit: bool)
    ensures hit <==> Touches(Polyline(points, closed), r)
  {
    hide OnSegment;
    var i := 1;
    while i < |points|
      invariant 1 <= i && (i <= |points| || i == 1)
      invariant forall k, p :: 0 < k < i && r.Has(p) ==> !OnSegment(points[k - 1], points[k], p)
    {
      var edge := SegmentIntersectsRect(points[i - 1], points[i], r);
      if edge {
        ghost var p :| r.Has(p) && OnSegment(points[i - 1], points[i], p);
        assert Covers(Polyline(points, closed), p);
        return true;
      }
      i := i + 1;
    }
    if closed && |points| > 2 {
      hit := SegmentIntersectsRect(points[|points| - 1], points[0], r);
      if hit {
        ghost var p :| r.Has(p) && OnSegment(points[|points| - 1], points[0], p);
        assert Covers(Polyline(points, closed), p);
      }
    } else {
      hit := false;
    }
  }

  /**
   What the tests for filled shapes take for a hit when the corners are out of order, so that the
   rectangle holds no point: the first corner inside a polygon, the clamped point inside a disk.
   */
  ghost predicate HitsCorner(s: Shape, r: Rect) {
    match s
    case FilledPolygon(rings) => Inside(Pt(r.xmin, r.ymin), rings)
    case Circle(c, rad) => Dist2(Nearest(c, r), c) <= rad * rad
    case _ => false
  }

  /** Boundary first; without a boundary hit one corner decides for the whole rectangle. */
  method PolygonTouches(rings: seq<seq<Pt>>, r: Rect) returns (hit: bool)
    ensures hit <==> Touches(FilledPolygon(rings), r) || (!r.Ordered() && HitsCorner(FilledPolygon(rings), r))
  {
    for k := 0 to |rings|
      invariant forall m, p :: 0 <= m < k && r.Has(p) ==> !OnRing(p, rings[m])
    {
      hide OnRing;
      var edge := RingTouches(rings[k], r);
      if edge {
        ghost var p :| r.Has(p) && OnRing(p, rings[k]);
        assert Covers(FilledPolygon(rings), p);
        return true;
      }
    }
    var corner := Pt(r.xmin, r.ymin);
    hit := false;
    for k := 0 to |rings|
      invariant hit <==> RingsAround(corner, rings, k) % 2 == 1
    {
      hide InRing;
      var inside := PointInRing(corner, rings[k]);
      if inside { hit := !hit; }
    }
    if r.Ordered() { CornerDecides(rings, r); }
  }

  lemma CornerDecides(rings: seq<seq<Pt>>, r: Rect)
    requires r.Ordered()
    requires forall m, p :: 0 <= m < |rings| && r.Has(p) ==> !OnRing(p, rings[m])
    ensures Touches(FilledPolygon(rings), r) <==> Inside(Pt(r.xmin, r.ymin), rings)
  {
    hide OnRing, RingsAround;
    var corner := Pt(r.xmin, r.ymin);
    if Inside(corner, rings) {
      assert r.Has(corner) && Covers(FilledPolygon(rings), corner);
    }
    if p :| r.Has(p) && Covers(FilledPolygon(rings), p) {
      InsideIsConstant(rings, |rings|, r, p, corner);
    }
  }

  function Clamp(v: real, lo: real, hi: real): real { if v < lo then lo else if v > hi then hi else v }

  lemma ClampIsNearest(c: real, lo: real, hi: real, v: real)
    requires lo <= v <= hi
    ensures (c - Clamp(c, lo, hi)) * (c - Clamp(c, lo, hi)) <= (c - v) * (c - v)
  {
    var d, e := c - Clamp(c, lo, hi), c - v;
    if c < lo {
      Square(-d, -e);
    } else if c > hi {
      Square(d, e);
    } else {
      assert d == 0.0 && e * e >= 0.0;
    }
  }

  lemma Square(d: real, e: real)
    requires 0.0 <= d <= e
    ensures d * d <= e * e && (-d) * (-d) == d * d && (-e) * (-e) == e * e
  {
    Product(e - d, e + d);
    assert (e - d) * (e + d) == e * e - d * d;
  }

  function Nearest(c: Pt, r: Rect): Pt { Pt(Clamp(c.x, r.xmin, r.xmax), Clamp(c.y, r.ymin, r.ymax)) }

  lemma NearestIsNearest(c: Pt, r: Rect, p: Pt)
    requires r.Has(p)
    ensures r.Has(Nearest(c, r)) && Dist2(Nearest(c, r), c) <= Dist2(p, c)
  {
    ClampIsNearest(c.x, r.xmin, r.xmax, p.x);
    ClampIsNearest(c.y, r.ymin, r.ymax, p.y);
  }

  lemma CircleTouches(c: Pt, rad: real, r: Rect)
    requires r.Ordered()
    ensures Touches(Circle(c, rad), r) <==> Dist2(Nearest(c, r), c) <= rad * rad
  {
    hide Dist2;
    assert r.Has(Nearest(c, r));
    assert Dist2(Nearest(c, r), c) <= rad * rad ==> Covers(Circle(c, rad), Nearest(c, r));
    if p :| r.Has(p) && Covers(Circle(c, rad), p) { NearestIsNearest(c, r, p); }
  }

  /** Exact for every kind: true iff some drawn point lies in the rectangle, when its corners are in order. */
  method PrimCrossesRect(s: Shape, r: Rect) returns (hit: bool)
    ensures hit <==> Touches(s, r) || (!r.Ordered() && HitsCorner(s, r))
  {
    match s {
      case Line(a, b) =>
        hit := SegmentIntersectsRect(a, b, r);
        assert forall p :: Covers(s, p) <==> OnSegment(a, b, p);
      case Polyline(points, closed) => hit := PolylineTouches(points, closed, r);
      case FilledPolygon(rings) => hit := PolygonTouches(rings, r);
      case Point(pos) =>
        hit := pos.x >= r.xmin && pos.x <= r.xmax && pos.y >= r.ymin && pos.y <= r.ymax;
        assert Covers(s, pos);
      case Circle(c, rad) =>
        var qx := if c.x < r.xmin then r.xmin else if c.x > r.xmax then r.xmax else c.x;
        var qy := if c.y < r.ymin then r.ymin else if c.y > r.ymax then r.ymax else c.y;
        var dx, dy := c.x - qx, c.y - qy;
        hit := dx * dx + dy * dy <= rad * rad;
        if r.Ordered() { CircleTouches(c, rad, r); }
      case Other => hit := false;
    }
  }

  // ---- window -----------------------------------------------------------------------------------

  predicate BoxInside(box: Box, r: Rect) {
    box.Around? ==>
      box.rect.xmin >= r.xmin && box.rect.ymin >= r.ymin && box.rect.xmax <= r.xmax && box.rect.ymax <= r.ymax
  }

  lemma BoxInsideMeansVertices(s: Shape, box: Box, r: Rect)
    requires IsBoxOf(s, box)
    ensures BoxInside(box, r) <==> AllVerticesIn(s, r)
  {
    BoxHasVertices(s, box);
    if BoxInside(box, r) {
      forall v | IsVertex(s, v) ensures r.Has(v) { assert box.Has(v); }
    }
    if box.Around? && AllVerticesIn(s, r) {
      var vertex := v => IsVertex(s, v);
      assert Tight(vertex, box);
      var b := box.rect;
      var w: Pt :| vertex(w) && w.x == b.xmin;
      var e: Pt :| vertex(e) && e.x == b.xmax;
      var v: Pt :| vertex(v) && v.y == b.ymin;
      var n: Pt :| vertex(n) && n.y == b.ymax;
      assert r.Has(w) && r.Has(e) && r.Has(v) && r.Has(n);
    }
  }

  /** A polyline of one point draws nothing; its vertex still counts. */
  predicate IsLonePoint(s: Shape) { s.Polyline? && |s.points| == 1 }

  /** Window selection takes exactly the shapes drawn inside the rectangle, and a lone point that lies in it. */
  lemma WindowMeansDrawnInside(s: Shape, r: Rect)
    ensures AllVerticesIn(s, r) <==>
            (forall p :: Covers(s, p) ==> r.Has(p)) && (IsLonePoint(s) ==> r.Has(s.points[0]))
  {
    if AllVerticesIn(s, r) {
      forall p | Covers(s, p) ensures r.Has(p) { DrawnIsInBox(s, r, p); }
    }
    if IsLonePoint(s) {
      assert forall v :: IsVertex(s, v) <==> v == s.points[0];
    } else if forall p :: Covers(s, p) ==> r.Has(p) {
      if s.Circle? {
        var c, rad := s.center, s.r;
        assert Covers(s, Pt(c.x - rad, c.y)) && Covers(s, Pt(c.x + rad, c.y));
        assert Covers(s, Pt(c.x, c.y - rad)) && Covers(s, Pt(c.x, c.y + rad));
      } else {
        forall v | IsVertex(s, v) ensures r.Has(v) { VertexIsDrawn(s, v); }
      }
    }
  }

  lemma VertexIsDrawn(s: Shape, v: Pt)
    requires IsVertex(s, v) && !s.Circle? && !IsLonePoint(s)
    ensures Covers(s, v)
  {
    match s {
      case Line(a, b) => EndsOnEdge(b, a);
      case Polyline(points, closed) =>
        var i :| 0 <= i < |points| && points[i] == v;
        if i > 0 {
          EndsOnEdge(points[i], points[i - 1]);
        } else {
          EndsOnEdge(points[1], points[0]);
          assert OnSegment(points[1 - 1], points[1], v);
        }
      case FilledPolygon(rings) =>
        var k :| 0 <= k < |rings| && v in rings[k];
        var i :| 0 <= i < |rings[k]| && rings[k][i] == v;
        EndsOnEdge(rings[k][i], Prev(rings[k], i));
        assert OnRing(v, rings[k]);
      case Point(pos) =>
    }
  }
}
