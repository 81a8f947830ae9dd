/**
 The two-point alignment of isotropic seeds (app/matching.py): a pose from the line between
 the seed and one other entity, mirrored or not.
 */
module PairAlignment {
  import opened Wrappers
  import opened Entities
  import opened Isometries
  import opened MultiMatch

  /** 90 degrees counter-clockwise. */
  function Perp(v: Vec): Vec { Vec(-v.y, v.x) }

  function Over(v: Vec, n: real): Vec
    requires n != 0.0
  {
    Vec(v.x / n, v.y / n)
  }

  function Mul(a: real, b: real): real { a * b }

  lemma SqOfProduct(a: real, b: real)
    ensures Sq(Mul(a, b)) == Mul(Sq(a), Sq(b))
  {
    Square(a, b);
  }

  lemma SqOfQuotient(a: real, n: real, c: real)
    requires n != 0.0 && c == a / n
    ensures Mul(Sq(c), Sq(n)) == Sq(a)
  {
    SqOfProduct(c, n);
    hide Sq;
    assert Mul(c, n) == a;
  }

  lemma DotIsSquares(v: Vec)
    ensures Dot(v, v) == Sq(v.x) + Sq(v.y)
  {
  }

  lemma Cancel(p: real, q: real, k: real)
    requires Mul(p, k) + Mul(q, k) == k && k > 0.0
    ensures p + q == 1.0
  {
    assert (p + q - 1.0) * k == 0.0;
  }

  /** A vector over its length, with its perpendicular on either side, is an orthonormal frame. */
  lemma UnitFrame(v: Vec, n: real)
    requires n > 0.0 && Sq(n) == Dot(v, v)
    ensures var u := Over(v, n); Orthonormal(u, Perp(u)) && Orthonormal(u, Scaled(-1.0, Perp(u)))
  {
    hide Sq, Dot, Orthonormal, Scaled, Perp, Mul;
    var u := Over(v, n);
    SqOfQuotient(v.x, n, u.x);
    SqOfQuotient(v.y, n, u.y);
    hide Over;
    SqFacts(n);
    DotIsSquares(v);
    DotIsSquares(u);
    Cancel(Sq(u.x), Sq(u.y), Sq(n));
    PerpFrame(u);
  }

  lemma PerpFrame(u: Vec)
    requires Dot(u, u) == 1.0
    ensures Orthonormal(u, Perp(u)) && Orthonormal(u, Scaled(-1.0, Perp(u)))
  {
  }

  /** In its own frame a vector is its length along the first axis. */
  lemma OwnCoordinates(v: Vec, n: real)
    requires n > 0.0 && Sq(n) == Dot(v, v)
    ensures Dot(v, Over(v, n)) == n && Dot(v, Perp(Over(v, n))) == 0.0
    ensures v == Scaled(n, Over(v, n))
  {
    hide Dot, Sq;
    var u := Over(v, n);
    assert u.x * n == v.x && u.y * n == v.y;
    UnitFrame(v, n);
    DotScaled(u, n, u);
    DotScaled(u, n, Perp(u));
    assert v == Vec(u.x * n, u.y * n);
    assert Dot(u, u) == 1.0 && Dot(u, Perp(u)) == 0.0;
  }

  lemma DotScaled(u: Vec, n: real, w: Vec)
    ensures Dot(Vec(u.x * n, u.y * n), w) == n * Dot(u, w)
  {
    assert (u.x * n) * w.x == n * (u.x * w.x) && (u.y * n) * w.y == n * (u.y * w.y);
  }

  // ---- the pose -----------------------------------------------------------------------------

  /** The frame of the candidate pair; for coincident centroids any frame will do. */
  function Direction(v: Vec, n: real): Vec { if n == 0.0 then Vec(1.0, 0.0) else Over(v, n) }

  function PairPose(ts: seq<Entity>, seed: nat, tx: Vec, cand: Entity, dx: Vec, mirror: bool): Pose
    requires seed < |ts|
  {
    Pose(ts[seed].centroid, tx, Perp(tx), cand.centroid, dx, if mirror then Scaled(-1.0, Perp(dx)) else Perp(dx))
  }

  /** The local place of role `r` in the frame along the candidate pair, mirrored or not. */
  function PairPredicted(ts: seq<Entity>, seed: nat, tx: Vec, cand: Entity, dx: Vec, mirror: bool, r: nat): Vec
    requires seed < |ts| && r < |ts|
  {
    var off := Minus(ts[r].centroid, ts[seed].centroid);
    var x, y := Dot(off, tx), Dot(off, Perp(tx));
    var yEff := if mirror then -y else y;
    Predicted(Vec(x, yEff), dx, Perp(dx), cand.centroid)
  }

  lemma PairPredicts(ts: seq<Entity>, seed: nat, tx: Vec, cand: Entity, dx: Vec, mirror: bool, r: nat)
    requires seed < |ts| && r < |ts|
    ensures PairPose(ts, seed, tx, cand, dx, mirror).Apply(ts[r].centroid) ==
      PairPredicted(ts, seed, tx, cand, dx, mirror, r)
  {
    hide Dot, Perp, Combine, Plus, Scaled, Minus;
    var off := Minus(ts[r].centroid, ts[seed].centroid);
    MirrorTwice(Dot(off, tx), dx, Dot(off, Perp(tx)), Perp(dx));
  }

  lemma MirrorTwice(x: real, a: Vec, y: real, b: Vec)
    ensures Combine(x, a, y, Scaled(-1.0, b)) == Combine(x, a, -y, b)
  {
    assert y * (-1.0 * b.x) == (-y) * b.x && y * (-1.0 * b.y) == (-y) * b.y;
  }

  lemma SquareWithin(a: real, b: real)
    requires -b <= a <= b
    ensures Sq(a) <= Sq(b)
  {
    NonNegative(b - a, b + a);
    assert (b - a) * (b + a) == b * b - a * a;
  }

  lemma NonNegative(a: real, b: real)
    requires a >= 0.0 && b >= 0.0
    ensures a * b >= 0.0
  {
  }

  lemma Weighted(k: real, p: real, q: real)
    requires p + q == 1.0
    ensures Mul(k, p) + Mul(k, q) == k
  {
    assert k * p + k * q == k * (p + q);
  }

  lemma ScaledParts(k: real, u: Vec)
    ensures Scaled(k, u).x == Mul(k, u.x) && Scaled(k, u).y == Mul(k, u.y)
  {
  }

  lemma ScaledDot(k: real, u: Vec)
    requires Dot(u, u) == 1.0
    ensures Dot(Scaled(k, u), Scaled(k, u)) == Sq(k)
  {
    hide Sq, Dot, Mul, Scaled;
    DotIsSquares(u);
    DotIsSquares(Scaled(k, u));
    ScaledParts(k, u);
    SqOfProduct(k, u.x);
    SqOfProduct(k, u.y);
    Weighted(Sq(k), Sq(u.x), Sq(u.y));
  }

  lemma DirectionIsUnit(w: Vec, cn: real)
    requires cn >= 0.0 && Sq(cn) == Dot(w, w)
    ensures var dx := Direction(w, cn);
      Orthonormal(dx, Perp(dx)) && Orthonormal(dx, Scaled(-1.0, Perp(dx))) && w == Scaled(cn, dx)
  {
    hide Over, Dot, Perp, Sq, Orthonormal;
    if cn > 0.0 {
      UnitFrame(w, cn);
      OwnCoordinates(w, cn);
    } else {
      UnitX();
      ZeroSquare();
      ZeroVector(w);
    }
  }

  lemma ZeroSquare()
    ensures Sq(0.0) == 0.0
  {
  }

  lemma UnitX()
    ensures var u := Vec(1.0, 0.0); Orthonormal(u, Perp(u)) && Orthonormal(u, Scaled(-1.0, Perp(u)))
  {
    UnitLengthOfX();
    hide Dot, Orthonormal, Scaled, Perp;
    PerpFrame(Vec(1.0, 0.0));
  }

  lemma UnitLengthOfX()
    ensures Dot(Vec(1.0, 0.0), Vec(1.0, 0.0)) == 1.0
  {
  }

  /** The other entity of the pair lands within the tolerance when the two distances agree to it. */
  lemma PairLandsClose(ts: seq<Entity>, seed: nat, first: nat, tn: real, c: Entity, o: Entity, cn: real, mirror: bool)
    requires seed < |ts| && first < |ts|
    requires var v := Minus(ts[first].centroid, ts[seed].centroid); tn > 0.0 && Sq(tn) == Dot(v, v)
    requires var w := Minus(o.centroid, c.centroid); cn >= 0.0 && Sq(cn) == Dot(w, w)
    requires -CENTROID_NOISE_TOL <= cn - tn <= CENTROID_NOISE_TOL
    ensures var v, w := Minus(ts[first].centroid, ts[seed].centroid), Minus(o.centroid, c.centroid);
      Dist2(o.centroid, PairPose(ts, seed, Over(v, tn), c, Direction(w, cn), mirror).Apply(ts[first].centroid))
      <= CENTROID_NOISE_TOL * CENTROID_NOISE_TOL
  {
    hide Over, Direction, Dot, Sq, Orthonormal, Perp, Scaled, Minus;
    var v, w := Minus(ts[first].centroid, ts[seed].centroid), Minus(o.centroid, c.centroid);
    var dx := Direction(w, cn);
    var pose := PairPose(ts, seed, Over(v, tn), c, dx, mirror);
    var at := pose.Apply(ts[first].centroid);
    OwnCoordinates(v, tn);
    DirectionIsUnit(w, cn);
    AlongFirstAxis(pose, v, tn, ts[first].centroid);
    DifferenceAlong(c.centroid, o.centroid, at, dx, cn, tn);
    UnitLength(dx);
    ScaledDot(cn - tn, dx);
    SquareWithin(cn - tn, CENTROID_NOISE_TOL);
    SqOfTolerance();
  }

  lemma UnitLength(u: Vec)
    requires Orthonormal(u, Perp(u))
    ensures Dot(u, u) == 1.0
  {
  }

  lemma SqOfTolerance()
    ensures Sq(CENTROID_NOISE_TOL) == CENTROID_NOISE_TOL * CENTROID_NOISE_TOL
  {
  }

  lemma DifferenceAlong(c: Vec, o: Vec, at: Vec, dx: Vec, cn: real, tn: real)
    requires Minus(o, c) == Scaled(cn, dx) && at == Vec(c.x + tn * dx.x, c.y + tn * dx.y)
    ensures Minus(o, at) == Scaled(cn - tn, dx)
  {
    assert cn * dx.x - tn * dx.x == (cn - tn) * dx.x && cn * dx.y - tn * dx.y == (cn - tn) * dx.y;
  }

  lemma AlongFirstAxis(pose: Pose, v: Vec, n: real, c: Vec)
    requires Minus(c, pose.origin) == v && Dot(v, pose.p0) == n && Dot(v, pose.p1) == 0.0
    ensures pose.Apply(c) == Vec(pose.target.x + n * pose.q0.x, pose.target.y + n * pose.q0.y)
  {
    hide Dot, Minus, Combine;
    FirstOnly(n, pose.q0, pose.q1);
  }

  lemma FirstOnly(n: real, a: Vec, b: Vec)
    ensures Combine(n, a, 0.0, b) == Vec(n * a.x, n * a.y)
  {
  }

  lemma ZeroVector(w: Vec)
    requires Dot(w, w) == 0.0
    ensures w == Vec(0.0, 0.0)
  {
    DotIsSquares(w);
    SqFacts(w.x);
    SqFacts(w.y);
    hide Sq, Dot;
  }

  lemma PairPoseIsRigid(ts: seq<Entity>, seed: nat, v: Vec, tn: real, cand: Entity, w: Vec, cn: real, mirror: bool)
    requires seed < |ts| && tn > 0.0 && Sq(tn) == Dot(v, v) && cn >= 0.0 && Sq(cn) == Dot(w, w)
    ensures var pose := PairPose(ts, seed, Over(v, tn), cand, Direction(w, cn), mirror);
      pose.IsRigid() && pose.Apply(ts[seed].centroid) == cand.centroid
  {
    UnitFrame(v, tn);
    DirectionIsUnit(w, cn);
    var pose := PairPose(ts, seed, Over(v, tn), cand, Direction(w, cn), mirror);
    hide Dot, Over, Perp, Scaled, Orthonormal, Direction;
    PoseFixesSeed(pose);
    hide pose.Apply, pose.Linear;
  }

  /** The pose one candidate pair gives, from the distances `tn` in the template and `cn` in the drawing. */
  function PoseOfPair(d: Drawing, ts: seq<Entity>, norm: Vec -> real, seed: nat, first: nat, c: nat, o: nat,
                      mirror: bool): Pose
    requires seed < |ts| && first < |ts| && c < |d| && o < |d|
    requires norm(Minus(ts[first].centroid, ts[seed].centroid)) != 0.0
  {
    var v, w := Minus(ts[first].centroid, ts[seed].centroid), Minus(d[o].centroid, d[c].centroid);
    PairPose(ts, seed, Over(v, norm(v)), d[c], Direction(w, norm(w)), mirror)
  }

  /** One pose of a candidate pair: every role at its place, or some role has no entity of its own there. */
  method TryMirror(d: Drawing, ts: seq<Entity>, skip: set<Handle>, nearby: Vec -> seq<nat>, norm: Vec -> real,
                   seed: nat, roles: seq<nat>, c: nat, o: nat, mirror: bool) returns (m: Option<RawMatch>)
    requires IsBallQuery(d, nearby) && IsNorm(norm) && seed < |ts| && roles == OthersThan(seed, |ts|) && |roles| > 0
    requires norm(Minus(ts[roles[0]].centroid, ts[seed].centroid)) >= CENTROID_NOISE_TOL
    requires c < |d| && o < |d| && c != o && d[c].handle !in skip && d[o].handle !in skip
    requires FingerprintMatches(FingerprintOf(d[c]), FingerprintOf(ts[seed]))
    requires FingerprintMatches(FingerprintOf(d[o]), FingerprintOf(ts[roles[0]]))
    requires -CENTROID_NOISE_TOL <= norm(Minus(d[o].centroid, d[c].centroid))
                                    - norm(Minus(ts[roles[0]].centroid, ts[seed].centroid)) <= CENTROID_NOISE_TOL
    ensures m.Some? ==> HasWitness(m.value, d, ts, skip) && |m.value| > 0 && m.value[0] == (c, seed)
    ensures m.None? ==>
      !Unmistaken(d, ts, skip, PoseOfPair(d, ts, norm, seed, roles[0], c, o, mirror), {c, o}, roles[1..])
  {
    hide IsBallQuery, FingerprintMatches, FingerprintOf, Dist2, OthersThan, Witnessed, Fits, Unmistaken, Crowded,
      Direction, Pose.Apply;
    var v, w := Minus(ts[roles[0]].centroid, ts[seed].centroid), Minus(d[o].centroid, d[c].centroid);
    var tn, cn := norm(v), norm(w);
    var tx, dx := Over(v, tn), Direction(w, cn);
    var rest, head := roles[1..], [(c, seed), (o, roles[0])];
    var expected := seq(|rest|, k requires 0 <= k < |rest| => PairPredicted(ts, seed, tx, d[c], dx, mirror, rest[k]));
    ghost var pose := PairPose(ts, seed, tx, d[c], dx, mirror);
    forall k | 0 <= k < |rest| ensures expected[k] == pose.Apply(ts[rest[k]].centroid) {
      PairPredicts(ts, seed, tx, d[c], dx, mirror, rest[k]);
    }
    m := FillRoles(d, ts, skip, nearby, head, rest, expected);
    hide PairPredicted, PairPose;
    if m.Some? {
      assert m.value[0] == m.value[..2][0];
      PairMatchIsWitnessed(m.value, d, ts, skip, seed, roles, c, o, tn, cn, mirror, expected);
    } else {
      ghost var k :| 0 <= k < |rest| && Crowded(d, ts, skip, rest, expected, Places(head), k);
      HeadPlaces(c, seed, o, roles[0]);
      CrowdedIsMistaken(d, ts, skip, pose, {c, o}, rest, expected, k);
    }
  }

  lemma HeadPlaces(c: nat, seed: nat, o: nat, first: nat)
    ensures Places([(c, seed), (o, first)]) == {c, o}
  {
    var head := [(c, seed), (o, first)];
    assert head[0] in head && head[1] in head;
  }

  /** One candidate pair: the identity and, for three or more entities, the mirrored pose. */
  method TryMirrors(d: Drawing, ts: seq<Entity>, skip: set<Handle>, nearby: Vec -> seq<nat>, norm: Vec -> real,
                    seed: nat, roles: seq<nat>, c: nat, o: nat) returns (m: Option<RawMatch>)
    requires IsBallQuery(d, nearby) && IsNorm(norm) && seed < |ts| && roles == OthersThan(seed, |ts|) && |roles| > 0
    requires norm(Minus(ts[roles[0]].centroid, ts[seed].centroid)) >= CENTROID_NOISE_TOL
    requires c < |d| && o < |d| && c != o && d[c].handle !in skip && d[o].handle !in skip
    requires FingerprintMatches(FingerprintOf(d[c]), FingerprintOf(ts[seed]))
    requires FingerprintMatches(FingerprintOf(d[o]), FingerprintOf(ts[roles[0]]))
    ensures m.Some? ==> HasWitness(m.value, d, ts, skip) && |m.value| > 0 && m.value[0] == (c, seed)
    ensures m.None? ==>
      var tn, cn := norm(Minus(ts[roles[0]].centroid, ts[seed].centroid)), norm(Minus(d[o].centroid, d[c].centroid));
      -CENTROID_NOISE_TOL <= cn - tn <= CENTROID_NOISE_TOL ==>
        forall mirror: bool :: (mirror ==> |ts| > 2) ==>
          !Unmistaken(d, ts, skip, PoseOfPair(d, ts, norm, seed, roles[0], c, o, mirror), {c, o}, roles[1..])
  {
    hide IsBallQuery, IsNorm, FingerprintMatches, FingerprintOf, Dist2, OthersThan, HasWitness, Unmistaken, PoseOfPair;
    var tn, cn := norm(Minus(ts[roles[0]].centroid, ts[seed].centroid)), norm(Minus(d[o].centroid, d[c].centroid));
    if cn - tn > CENTROID_NOISE_TOL || tn - cn > CENTROID_NOISE_TOL { return None; }
    for v := 0 to (if |ts| <= 2 then 1 else 2)
      invariant forall mirror: bool :: (if mirror then 1 else 0) < v ==>
        !Unmistaken(d, ts, skip, PoseOfPair(d, ts, norm, seed, roles[0], c, o, mirror), {c, o}, roles[1..])
    {
      m := TryMirror(d, ts, skip, nearby, norm, seed, roles, c, o, v == 1);
      if m.Some? { return m; }
    }
    return None;
  }

  lemma PairMatchIsWitnessed(m: RawMatch, d: Drawing, ts: seq<Entity>, skip: set<Handle>, seed: nat, roles: seq<nat>,
                             c: nat, o: nat, tn: real, cn: real, mirror: bool, expected: seq<Vec>)
    requires seed < |ts| && roles == OthersThan(seed, |ts|) && |roles| > 0
    requires c < |d| && o < |d| && c != o && d[c].handle !in skip && d[o].handle !in skip
    requires FingerprintMatches(FingerprintOf(d[c]), FingerprintOf(ts[seed]))
    requires FingerprintMatches(FingerprintOf(d[o]), FingerprintOf(ts[roles[0]]))
    requires var v := Minus(ts[roles[0]].centroid, ts[seed].centroid); tn > 0.0 && Sq(tn) == Dot(v, v)
    requires var w := Minus(d[o].centroid, d[c].centroid); cn >= 0.0 && Sq(cn) == Dot(w, w)
    requires -CENTROID_NOISE_TOL <= cn - tn <= CENTROID_NOISE_TOL
    requires |expected| == |roles| - 1
    requires var v, w := Minus(ts[roles[0]].centroid, ts[seed].centroid), Minus(d[o].centroid, d[c].centroid);
      forall k :: 0 <= k < |expected| ==>
        expected[k] == PairPredicted(ts, seed, Over(v, tn), d[c], Direction(w, cn), mirror, roles[1..][k])
    requires |m| == 2 + |expected| && m[..2] == [(c, seed), (o, roles[0])] && DistinctPlaces(m)
    requires forall k :: 0 <= k < |expected| ==>
      m[2 + k].1 == roles[1..][k] && Fits(d, ts, skip, m[2 + k].0, roles[1..][k], expected[k])
    ensures var v, w := Minus(ts[roles[0]].centroid, ts[seed].centroid), Minus(d[o].centroid, d[c].centroid);
      Witnessed(m, PairPose(ts, seed, Over(v, tn), d[c], Direction(w, cn), mirror), d, ts, skip)
  {
    hide FingerprintMatches, FingerprintOf, Dist2, OthersThan, PairPose, PairPredicted, Pose.Apply, Pose.IsRigid, Dot,
      Over, Minus, Direction, Fits;
    var v, w := Minus(ts[roles[0]].centroid, ts[seed].centroid), Minus(d[o].centroid, d[c].centroid);
    var pose := PairPose(ts, seed, Over(v, tn), d[c], Direction(w, cn), mirror);
    var rest, head := roles[1..], [(c, seed), (o, roles[0])];
    PairPoseIsRigid(ts, seed, v, tn, d[c], w, cn, mirror);
    PairLandsClose(ts, seed, roles[0], tn, d[c], d[o], cn, mirror);
    forall k | 0 <= k < |rest| ensures expected[k] == pose.Apply(ts[rest[k]].centroid) {
      PairPredicts(ts, seed, Over(v, tn), d[c], Direction(w, cn), mirror, rest[k]);
    }
    SeedFits(d, ts, skip, c, seed, pose.Apply(ts[seed].centroid));
    OtherFits(d, ts, skip, o, roles[0], pose.Apply(ts[roles[0]].centroid));
    hide Witnessed;
    FilledIsWitnessed(m, head, rest, expected, pose, d, ts, skip);
  }

  lemma OtherFits(d: Drawing, ts: seq<Entity>, skip: set<Handle>, o: nat, r: nat, at: Vec)
    requires r < |ts| && o < |d| && d[o].handle !in skip
    requires Dist2(d[o].centroid, at) <= CENTROID_NOISE_TOL * CENTROID_NOISE_TOL
    requires FingerprintMatches(FingerprintOf(d[o]), FingerprintOf(ts[r]))
    ensures Fits(d, ts, skip, o, r, at)
  {
  }
}
