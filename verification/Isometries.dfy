/** Plane isometries between orthonormal frames, and why they keep distances. */
module Isometries {
  import opened Entities

  function Dot(a: Vec, b: Vec): real { a.x * b.x + a.y * b.y }

  function Sq(x: real): real { x * x }

  function Minus(a: Vec, b: Vec): Vec { Vec(a.x - b.x, a.y - b.y) }

  function Scaled(k: real, a: Vec): Vec { Vec(k * a.x, k * a.y) }

  function Plus(a: Vec, b: Vec): Vec { Vec(a.x + b.x, a.y + b.y) }

  /** `s * a + t * b`. */
  function Combine(s: real, a: Vec, t: real, b: Vec): Vec { Vec(s * a.x + t * b.x, s * a.y + t * b.y) }

  function Dist2(a: Vec, b: Vec): real { Dot(Minus(a, b), Minus(a, b)) }

  predicate Orthonormal(a: Vec, b: Vec) { Dot(a, a) == 1.0 && Dot(b, b) == 1.0 && Dot(a, b) == 0.0 }

  /** The map that carries frame `(p0, p1)` at `origin` to frame `(q0, q1)` at `target`. */
  datatype Pose = Pose(origin: Vec, p0: Vec, p1: Vec, target: Vec, q0: Vec, q1: Vec) {
    predicate IsRigid() { Orthonormal(p0, p1) && Orthonormal(q0, q1) }

    function Linear(v: Vec): Vec { Combine(Dot(v, p0), q0, Dot(v, p1), q1) }

    function Apply(c: Vec): Vec { Plus(target, Linear(Minus(c, origin))) }
  }

  /** The columns of an orthonormal pair are orthonormal too. */
  lemma TransposeIsOrthonormal(a: Vec, b: Vec)
    requires Orthonormal(a, b)
    ensures a.x * a.x + b.x * b.x == 1.0
    ensures a.y * a.y + b.y * b.y == 1.0
    ensures a.x * a.y + b.x * b.y == 0.0
  {
    var p, q, r, s := a.x * a.x, a.y * a.y, b.x * b.x, b.y * b.y;
    assert p + q == 1.0 && r + s == 1.0;
    SquaresAgree(a.x, a.y, b.x, b.y);
    assert p * r == q * s;
    Solve(p, q, r, s);
    assert p + r == 1.0 && q + s == 1.0;
    CrossVanishes(a.x, a.y, b.x, b.y);
  }

  lemma SquaresAgree(u: real, v: real, w: real, z: real)
    requires u * w + v * z == 0.0
    ensures (u * u) * (w * w) == (v * v) * (z * z)
  {
    var m, n := u * w, v * z;
    assert m == -n;
    assert m * m == n * n;
    assert m * m == (u * u) * (w * w) by { Square(u, w); }
    assert n * n == (v * v) * (z * z) by { Square(v, z); }
  }

  lemma Square(u: real, w: real)
    ensures (u * w) * (u * w) == (u * u) * (w * w)
  {
    assert (u * w) * (u * w) == u * (w * (u * w));
    assert w * (u * w) == u * (w * w);
  }

  lemma Solve(p: real, q: real, r: real, s: real)
    requires p + q == 1.0 && r + s == 1.0 && p * r == q * s
    ensures p + r == 1.0 && q + s == 1.0
  {
    assert q * s == (1.0 - p) * (1.0 - r);
    assert (1.0 - p) * (1.0 - r) == 1.0 - p - r + p * r;
  }

  /** With equal squares across, the mixed products cancel. */
  lemma CrossVanishes(u: real, v: real, w: real, z: real)
    requires u * w + v * z == 0.0
    requires u * u + w * w == 1.0 && v * v + z * z == 1.0 && u * u + v * v == 1.0
    ensures u * v + w * z == 0.0
  {
    var c := u * v + w * z;
    assert v * v == w * w && z * z == u * u;
    // c * c == (uv)² + 2 (uw)(vz) + (wz)², and uw == -vz
    assert c * c == (u * v) * (u * v) + 2.0 * ((u * v) * (w * z)) + (w * z) * (w * z) by { Expand(u * v, w * z); }
    Square(u, v);
    Square(w, z);
    assert (u * v) * (w * z) == (u * w) * (v * z) by { Swap(u, v, w, z); }
    assert u * w == -(v * z);
    assert (u * w) * (v * z) == -((v * z) * (v * z));
    Square(v, z);
    assert (u * u) * (v * v) == (v * v) * (z * z);
    assert (w * w) * (z * z) == (v * v) * (z * z);
    assert Sq(c) == 0.0;
    SqFacts(c);
  }

  lemma Expand(a: real, b: real)
    ensures (a + b) * (a + b) == a * a + 2.0 * (a * b) + b * b
  {
  }

  lemma Swap(u: real, v: real, w: real, z: real)
    ensures (u * v) * (w * z) == (u * w) * (v * z)
  {
    assert (u * v) * (w * z) == u * (v * (w * z));
    assert v * (w * z) == w * (v * z);
    assert u * (w * (v * z)) == (u * w) * (v * z);
  }

  lemma ProductPositive(x: real, y: real, s: real)
    requires s == x * y && x > 0.0 && y > 0.0
    ensures s > 0.0
  {
  }

  lemma SqFacts(c: real)
    ensures Sq(c) >= 0.0 && (c != 0.0 ==> Sq(c) > 0.0)
  {
    if c > 0.0 { ProductPositive(c, c, Sq(c)); } else if c < 0.0 { ProductPositive(-c, -c, Sq(c)); }
  }

  /** Coordinates in an orthonormal frame keep the squared length. */
  lemma CoordinatesKeepLength(v: Vec, a: Vec, b: Vec)
    requires Orthonormal(a, b)
    ensures Dot(v, a) * Dot(v, a) + Dot(v, b) * Dot(v, b) == Dot(v, v)
  {
    TransposeIsOrthonormal(a, b);
    SquareOfSum(v.x, a.x, v.y, a.y);
    SquareOfSum(v.x, b.x, v.y, b.y);
    var xx, yy, xy := v.x * v.x, v.y * v.y, v.x * v.y;
    assert xx * (a.x * a.x) + xx * (b.x * b.x) == xx * (a.x * a.x + b.x * b.x);
    assert yy * (a.y * a.y) + yy * (b.y * b.y) == yy * (a.y * a.y + b.y * b.y);
    assert xy * (a.x * a.y) + xy * (b.x * b.y) == xy * (a.x * a.y + b.x * b.y);
  }

  lemma SquareOfSum(p: real, a: real, q: real, b: real)
    ensures (p * a + q * b) * (p * a + q * b) == (p * p) * (a * a) + 2.0 * ((p * q) * (a * b)) + (q * q) * (b * b)
  {
    Expand(p * a, q * b);
    Square(p, a);
    Square(q, b);
    Swap(p, a, q, b);
  }

  lemma Collect(ss: real, tt: real, st: real, ax: real, ay: real, bx: real, bz: real, cx: real, cy: real)
    requires ax + ay == 1.0 && bx + bz == 1.0 && cx + cy == 0.0
    ensures (ss * ax + 2.0 * (st * cx) + tt * bx) + (ss * ay + 2.0 * (st * cy) + tt * bz) == ss + tt
  {
    assert ss * ax + ss * ay == ss * (ax + ay);
    assert tt * bx + tt * bz == tt * (bx + bz);
    assert st * cx + st * cy == st * (cx + cy);
  }

  /** A combination of orthonormal vectors has the length of its coordinates. */
  lemma CombinationKeepsLength(s: real, t: real, a: Vec, b: Vec)
    requires Orthonormal(a, b)
    ensures Dot(Combine(s, a, t, b), Combine(s, a, t, b)) == s * s + t * t
  {
    SquareOfSum(s, a.x, t, b.x);
    SquareOfSum(s, a.y, t, b.y);
    Collect(s * s, t * t, s * t, a.x * a.x, a.y * a.y, b.x * b.x, b.y * b.y, a.x * b.x, a.y * b.y);
  }

  lemma ProductsMinus(a: real, b: real, c: real, d: real, p: real, q: real)
    ensures (a - c) * p + (b - d) * q == (a * p + b * q) - (c * p + d * q)
  {
  }

  lemma CombineMinus(a: real, b: real, c: real, d: real, p: Vec, q: Vec)
    ensures Combine(a - c, p, b - d, q) == Minus(Combine(a, p, b, q), Combine(c, p, d, q))
  {
    ProductsMinus(a, b, c, d, p.x, q.x);
    ProductsMinus(a, b, c, d, p.y, q.y);
  }

  lemma LinearIsLinear(pose: Pose, u: Vec, v: Vec)
    ensures pose.Linear(Minus(u, v)) == Minus(pose.Linear(u), pose.Linear(v))
  {
    hide Dot, Combine, Minus;
    DotMinus(u, v, pose.p0);
    DotMinus(u, v, pose.p1);
    CombineMinus(Dot(u, pose.p0), Dot(u, pose.p1), Dot(v, pose.p0), Dot(v, pose.p1), pose.q0, pose.q1);
  }

  lemma DotMinus(u: Vec, v: Vec, p: Vec)
    ensures Dot(Minus(u, v), p) == Dot(u, p) - Dot(v, p)
  {
  }

  /** A rigid pose keeps every distance: it is a rotation or a mirror with a translation. */
  lemma RigidKeepsDistance(pose: Pose, a: Vec, b: Vec)
    requires pose.IsRigid()
    ensures Dist2(pose.Apply(a), pose.Apply(b)) == Dist2(a, b)
  {
    hide Dot, Orthonormal, Combine;
    var u, v := Minus(a, pose.origin), Minus(b, pose.origin);
    LinearIsLinear(pose, u, v);
    var w := Minus(u, v);
    assert w == Minus(a, b);
    assert Minus(pose.Apply(a), pose.Apply(b)) == pose.Linear(w);
    CombinationKeepsLength(Dot(w, pose.p0), Dot(w, pose.p1), pose.q0, pose.q1);
    CoordinatesKeepLength(w, pose.p0, pose.p1);
  }
}
