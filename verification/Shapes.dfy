/** The drawing primitives of the viewer (app/static/canvas.js) and the points each one covers. */
module Shapes {
  datatype Pt = Pt(x: real, y: real)

  datatype Shape =
    | Line(start: Pt, end: Pt)
    | Polyline(points: seq<Pt>, closed: bool)
    | FilledPolygon(rings: seq<seq<Pt>>)
    | Point(pos: Pt)
    | Circle(center: Pt, r: real)
    | Other

  datatype Prim = Prim(handle: string, layer: string, decorative: bool, shape: Shape)

  datatype Rect = Rect(xmin: real, ymin: real, xmax: real, ymax: real) {
    predicate Has(p: Pt) { xmin <= p.x <= xmax && ymin <= p.y <= ymax }

    predicate Ordered() { xmin <= xmax && ymin <= ymax }
  }

  // ---- segments and rings ---------------------------------------------------------------

  function Lerp(a: real, b: real, t: real): real { a + t * (b - a) }

  function At(a: Pt, b: Pt, t: real): Pt { Pt(Lerp(a.x, b.x, t), Lerp(a.y, b.y, t)) }

  ghost predicate OnSegment(a: Pt, b: Pt, p: Pt) {
    exists t: real :: 0.0 <= t <= 1.0 && p == At(a, b, t)
  }

  /** Vertex `i` is joined to the vertex before it, the first one to the last. */
  function Prev(ring: seq<Pt>, i: nat): Pt
    requires i < |ring|
  {
    if i == 0 then ring[|ring| - 1] else ring[i - 1]
  }

  predicate Straddles(y: real, i: Pt, j: Pt) { (i.y > y) != (j.y > y) }

  /** `d * n / h`. */
  function Quot(d: real, n: real, h: real): real
    requires h != 0.0
  {
    d * n / h
  }

  /** Where the edge between `i` and `j` has height `y`. */
  function CrossX(y: real, i: Pt, j: Pt): real
    requires Straddles(y, i, j)
  {
    Quot(j.x - i.x, y - i.y, j.y - i.y) + i.x
  }

  /** The east-going ray from `p` crosses the edge between `i` and `j`. */
  predicate CrossesRay(p: Pt, i: Pt, j: Pt) { Straddles(p.y, i, j) && p.x < CrossX(p.y, i, j) }

  function Crossings(p: Pt, ring: seq<Pt>, n: nat): nat
    requires n <= |ring|
  {
    if n == 0 then 0
    else Crossings(p, ring, n - 1) + if CrossesRay(p, ring[n - 1], Prev(ring, n - 1)) then 1 else 0
  }

  predicate InRing(p: Pt, ring: seq<Pt>) { Crossings(p, ring, |ring|) % 2 == 1 }

  function RingsAround(p: Pt, rings: seq<seq<Pt>>, n: nat): nat
    requires n <= |rings|
  {
    if n == 0 then 0 else RingsAround(p, rings, n - 1) + if InRing(p, rings[n - 1]) then 1 else 0
  }

  /** The even-odd rule over all rings. */
  predicate Inside(p: Pt, rings: seq<seq<Pt>>) { RingsAround(p, rings, |rings|) % 2 == 1 }

  // ---- what a shape covers ----------------------------------------------------------------

  ghost predicate OnRing(p: Pt, ring: seq<Pt>) {
    exists i :: 0 <= i < |ring| && OnSegment(Prev(ring, i), ring[i], p)
  }

  ghost predicate OnPolyline(p: Pt, points: seq<Pt>, closed: bool) {
    || (exists i :: 0 < i < |points| && OnSegment(points[i - 1], points[i], p))
    || (closed && |points| > 2 && OnSegment(points[|points| - 1], points[0], p))
  }

  function Dist2(a: Pt, b: Pt): real { (b.x - a.x) * (b.x - a.x) + (b.y - a.y) * (b.y - a.y) }

  /** The points a shape draws: strokes, a filled polygon's interior, a circle's disk. */
  ghost predicate Covers(s: Shape, p: Pt) {
    match s
    case Line(a, b) => OnSegment(a, b, p)
    case Polyline(points, closed) => OnPolyline(p, points, closed)
    case FilledPolygon(rings) => (exists k :: 0 <= k < |rings| && OnRing(p, rings[k])) || Inside(p, rings)
    case Point(pos) => p == pos
    case Circle(c, r) => Dist2(p, c) <= r * r
    case Other => false
  }

  // ---- bounding boxes ---------------------------------------------------------------------

  /** `Nothing` is the box of infinities an empty shape gets. */
  datatype Box = Nothing | Around(rect: Rect) {
    predicate Has(p: Pt) { Around? && rect.Has(p) }
  }

  /** The points `bboxOf` accumulates. */
  ghost predicate IsVertex(s: Shape, p: Pt) {
    match s
    case Line(a, b) => p == a || p == b
    case Polyline(points, _) => p in points
    case FilledPolygon(rings) => exists k :: 0 <= k < |rings| && p in rings[k]
    case Point(pos) => p == pos
    case Circle(c, r) => p == Pt(c.x - r, c.y - r) || p == Pt(c.x + r, c.y + r)
    case Other => false
  }
}
