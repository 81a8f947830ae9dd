/**
 Entity shapes as the matcher sees them (app/matching.py): the scalars it compares, the
 centroid, and the principal axes as a given pair of vectors.
 */
module Entities {
  import opened Rounding

  datatype Vec = Vec(x: real, y: real)

  /** DXF handles, compared for equality. */
  type Handle = nat

  /** `axes` are the rows of the PCA matrix of the entity's points. */
  datatype Entity = Entity(
    handle: Handle,
    isCircle: bool,
    vertexCount: nat,
    pointCount: nat,
    pathLength: real,
    radius: real,
    sigma1: real,
    sigma2: real,
    centroid: Vec,
    axes: (Vec, Vec))

  /** A drawing in dict order; handles are its keys. */
  type Drawing = seq<Entity>

  ghost predicate DistinctHandles(d: Drawing) {
    forall i, j :: 0 <= i < j < |d| ==> d[i].handle != d[j].handle
  }

  function SigmaRatio(e: Entity): real { if e.sigma1 > 0.0 then e.sigma2 / e.sigma1 else 0.0 }

  // ---- keys ----------------------------------------------------------------------------------

  const RADIUS_KEY_SCALE: real := 10000.0
  const FINGERPRINT_SCALE: real := 1000.0
  const FINGERPRINT_NEIGHBOR: int := 1
  const CENTROID_NOISE_TOL: real := 0.001

  type Fingerprint = (int, int, int)

  function RadiusKey(r: real): int { RoundHalfEven(r * RADIUS_KEY_SCALE) }

  function FingerprintOf(e: Entity): Fingerprint {
    (RoundHalfEven(e.pathLength * FINGERPRINT_SCALE),
     RoundHalfEven(e.radius * FINGERPRINT_SCALE),
     RoundHalfEven(SigmaRatio(e) * FINGERPRINT_SCALE))
  }

  function Abs(n: int): nat { if n < 0 then -n else n }

  predicate FingerprintMatches(a: Fingerprint, b: Fingerprint) {
    && Abs(a.0 - b.0) <= FINGERPRINT_NEIGHBOR
    && Abs(a.1 - b.1) <= FINGERPRINT_NEIGHBOR
    && Abs(a.2 - b.2) <= FINGERPRINT_NEIGHBOR
  }

  /** `_cluster_key`: entities stacked at one place with one fingerprint. */
  type ClusterKey = (int, int, Fingerprint)

  function ClusterOf(e: Entity): ClusterKey {
    (RoundHalfEven(e.centroid.x / CENTROID_NOISE_TOL), RoundHalfEven(e.centroid.y / CENTROID_NOISE_TOL),
      FingerprintOf(e))
  }

  // ---- what keys say about the entities ------------------------------------------------------

  /** Path length, radius and the ratio of the sigmas each differ by at most `tol`. */
  ghost predicate Alike(a: Entity, b: Entity, tol: real) {
    && -tol <= a.pathLength - b.pathLength <= tol
    && -tol <= a.radius - b.radius <= tol
    && -tol <= (if a.sigma1 > 0.0 then a.sigma2 / a.sigma1 else 0.0)
               - (if b.sigma1 > 0.0 then b.sigma2 / b.sigma1 else 0.0) <= tol
  }

  /** A fingerprint match means the scalars differ by at most 2e-3, and differences below 1e-3 always match. */
  lemma FingerprintErrorIsBounded(a: Entity, b: Entity)
    ensures FingerprintMatches(FingerprintOf(a), FingerprintOf(b)) ==> Alike(a, b, 0.002)
    ensures (exists tol :: tol < 0.001 && Alike(a, b, tol)) ==> FingerprintMatches(FingerprintOf(a), FingerprintOf(b))
  {
    RoundSteps(a.pathLength * FINGERPRINT_SCALE, b.pathLength * FINGERPRINT_SCALE);
    RoundSteps(a.radius * FINGERPRINT_SCALE, b.radius * FINGERPRINT_SCALE);
    RoundSteps(SigmaRatio(a) * FINGERPRINT_SCALE, SigmaRatio(b) * FINGERPRINT_SCALE);
    hide RoundHalfEven;
  }

  /** The cluster key is the centroid in thousandths and the scalars in thousandths, each rounded to the nearest. */
  lemma ClusterIs(e: Entity, key: ClusterKey)
    ensures ClusterOf(e) == key <==>
      && IsNearest(e.centroid.x / 0.001, key.0) && IsNearest(e.centroid.y / 0.001, key.1)
      && IsNearest(e.pathLength * 1000.0, key.2.0) && IsNearest(e.radius * 1000.0, key.2.1)
      && IsNearest((if e.sigma1 > 0.0 then e.sigma2 / e.sigma1 else 0.0) * 1000.0, key.2.2)
  {
    RoundIsNearest(e.centroid.x / 0.001, key.0);
    RoundIsNearest(e.centroid.y / 0.001, key.1);
    RoundIsNearest(e.pathLength * 1000.0, key.2.0);
    RoundIsNearest(e.radius * 1000.0, key.2.1);
    RoundIsNearest(SigmaRatio(e) * 1000.0, key.2.2);
    hide RoundHalfEven, IsNearest;
  }

  /** Entities of one cluster lie within 1e-3 of each other and differ by at most 1e-3. */
  lemma ClusterErrorIsBounded(a: Entity, b: Entity)
    requires ClusterOf(a) == ClusterOf(b)
    ensures Alike(a, b, 0.001)
    ensures -0.001 <= a.centroid.x - b.centroid.x <= 0.001 && -0.001 <= a.centroid.y - b.centroid.y <= 0.001
  {
    ClusterIs(a, ClusterOf(b));
    ClusterIs(b, ClusterOf(b));
    hide ClusterOf;
  }
}
