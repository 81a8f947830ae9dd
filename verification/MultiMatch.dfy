/**
 Multi-entity matching (app/matching.py, `_match_multi`): every reported group comes from a
 raw match witnessed by a plane isometry, expanded by stacked duplicates.
 */
module MultiMatch {
  import opened Wrappers
  import opened Entities
  import opened Isometries

  const ISOTROPIC_SIGMA_RATIO_THRESHOLD: real := 0.95

  /** A drawing position and the template entity it stands for. */
  type RawMatch = seq<(nat, nat)>

  predicate IsNear(d: Drawing, i: nat, at: Vec) {
    i < |d| && Dist2(d[i].centroid, at) <= CENTROID_NOISE_TOL * CENTROID_NOISE_TOL
  }

  /** The ball query of the spatial index: every position within the tolerance, in some order. */
  ghost predicate IsBallQuery(d: Drawing, nearby: Vec -> seq<nat>) {
    forall at, i: nat :: i in nearby(at) <==> IsNear(d, i, at)
  }

  ghost predicate IsNorm(norm: Vec -> real) {
    forall v :: norm(v) >= 0.0 && Sq(norm(v)) == Dot(v, v)
  }

  // ---- template preparation ------------------------------------------------------------

  /** The first entity of each cluster key, in order. */
  function FirstOfEach(ts: seq<Entity>): (unique: seq<Entity>)
    ensures forall i, j :: 0 <= i < j < |unique| ==> ClusterOf(unique[i]) != ClusterOf(unique[j])
    ensures forall t :: t in unique ==> t in ts
    ensures forall t :: t in ts ==> exists i :: 0 <= i < |unique| && ClusterOf(unique[i]) == ClusterOf(t)
  {
    if ts == [] then []
    else
      var init, last := ts[..|ts| - 1], ts[|ts| - 1];
      assert ts == init + [last];
      var before := FirstOfEach(init);
      LastOrNot(init, last, before);
      if HasCluster(before, ClusterOf(last)) then before else before + [last]
  }

  ghost predicate OneOfEach(ts: seq<Entity>, unique: seq<Entity>) {
    && (forall i, j :: 0 <= i < j < |unique| ==> ClusterOf(unique[i]) != ClusterOf(unique[j]))
    && (forall t :: t in unique ==> t in ts)
    && (forall t :: t in ts ==> exists i :: 0 <= i < |unique| && ClusterOf(unique[i]) == ClusterOf(t))
  }

  lemma LastOrNot(init: seq<Entity>, last: Entity, before: seq<Entity>)
    requires OneOfEach(init, before)
    ensures OneOfEach(init + [last], if HasCluster(before, ClusterOf(last)) then before else before + [last])
  {
    hide ClusterOf;
    if !HasCluster(before, ClusterOf(last)) {
      assert (before + [last])[|before|] == last;
      assert forall i :: 0 <= i < |before| ==> (before + [last])[i] == before[i];
    }
  }

  predicate HasCluster(es: seq<Entity>, key: ClusterKey) {
    exists i :: 0 <= i < |es| && ClusterOf(es[i]) == key
  }

  method DedupeTemplateShapes(ts: seq<Entity>) returns (unique: seq<Entity>)
    ensures unique == FirstOfEach(ts)
  {
    assert FirstOfEach(ts[..0]) == [];
    hide ClusterOf, FirstOfEach;
    unique := [];
    var seen: set<ClusterKey> := {};
    for k := 0 to |ts|
      invariant unique == FirstOfEach(ts[..k])
      invariant forall key :: key in seen <==> HasCluster(unique, key)
    {
      var key := ClusterOf(ts[k]);
      FirstOneMore(ts, k);
      if key !in seen {
        seen := seen + {key};
        ghost var before := unique;
        unique := unique + [ts[k]];
        OneMoreCluster(before, ts[k]);
      }
    }
    assert ts[..|ts|] == ts;
  }

  lemma FirstOneMore(ts: seq<Entity>, k: nat)
    requires k < |ts|
    ensures var before := FirstOfEach(ts[..k]);
      FirstOfEach(ts[..k + 1]) == if HasCluster(before, ClusterOf(ts[k])) then before else before + [ts[k]]
  {
    assert ts[..k + 1][..k] == ts[..k];
    hide ClusterOf, HasCluster;
  }

  lemma OneMoreCluster(es: seq<Entity>, e: Entity)
    ensures forall key :: HasCluster(es + [e], key) <==> HasCluster(es, key) || key == ClusterOf(e)
  {
    hide ClusterOf;
    assert (es + [e])[|es|] == e;
    forall key | HasCluster(es, key) ensures HasCluster(es + [e], key) {
      var i :| 0 <= i < |es| && ClusterOf(es[i]) == key;
      assert (es + [e])[i] == es[i];
    }
  }

  // ---- raw matches ------------------------------------------------------------------------

  /** Position `i` can stand for template `r` predicted at `at`. */
  ghost predicate Fits(d: Drawing, ts: seq<Entity>, skip: set<Handle>, i: nat, r: nat, at: Vec)
    requires r < |ts|
  {
    && IsNear(d, i, at) && d[i].handle !in skip
    && FingerprintMatches(FingerprintOf(d[i]), FingerprintOf(ts[r]))
  }

  ghost predicate DistinctPlaces(m: RawMatch) { forall i, j :: 0 <= i < j < |m| ==> m[i].0 != m[j].0 }

  /** Each template entity once. */
  ghost predicate CoversRoles(m: RawMatch, n: nat) {
    && |m| == n
    && (forall k :: 0 <= k < n ==> m[k].1 < n)
    && (forall i, j :: 0 <= i < j < n ==> m[i].1 != m[j].1)
  }

  /**
   The rigid pose sends every template centroid to within the tolerance of a distinct,
   non-skipped drawing entity whose fingerprint matches.
   */
  ghost predicate Witnessed(m: RawMatch, pose: Pose, d: Drawing, ts: seq<Entity>, skip: set<Handle>) {
    && pose.IsRigid() && CoversRoles(m, |ts|) && DistinctPlaces(m)
    && forall k :: 0 <= k < |m| ==> Fits(d, ts, skip, m[k].0, m[k].1, pose.Apply(ts[m[k].1].centroid))
  }

  ghost predicate HasWitness(m: RawMatch, d: Drawing, ts: seq<Entity>, skip: set<Handle>) {
    exists pose :: Witnessed(m, pose, d, ts, skip)
  }

  /** An unskipped entity within 1e-3 of the place, whose scalars are within 2e-3 of the template entity's. */
  ghost predicate StandsFor(e: Entity, t: Entity, skip: set<Handle>, at: Vec) {
    && e.handle !in skip && Alike(e, t, 0.002)
    && (e.centroid.x - at.x) * (e.centroid.x - at.x) + (e.centroid.y - at.y) * (e.centroid.y - at.y) <= 0.000001
  }

  /** `a` and `b` are as far apart as `p` and `q`. */
  ghost predicate SameGap(a: Vec, b: Vec, p: Vec, q: Vec) {
    (a.x - b.x) * (a.x - b.x) + (a.y - b.y) * (a.y - b.y) == (p.x - q.x) * (p.x - q.x) + (p.y - q.y) * (p.y - q.y)
  }

  /**
   A match in fields and distances alone: each template entity once, each at a different entity of
   the drawing, which stands for it at one of the places `at`, and these are as far apart as the
   template's centroids.
   */
  ghost predicate Congruent(m: RawMatch, d: Drawing, ts: seq<Entity>, skip: set<Handle>, at: seq<Vec>) {
    && |m| == |ts| && |at| == |m|
    && (forall i, j :: 0 <= i < j < |m| ==> m[i].0 != m[j].0 && m[i].1 != m[j].1)
    && (forall k :: 0 <= k < |m| ==>
          m[k].0 < |d| && m[k].1 < |ts| && StandsFor(d[m[k].0], ts[m[k].1], skip, at[k]))
    && (forall k, l :: 0 <= k < |m| && 0 <= l < |m| ==>
          m[k].1 < |ts| && m[l].1 < |ts| && SameGap(at[k], at[l], ts[m[k].1].centroid, ts[m[l].1].centroid))
  }

  ghost predicate IsCongruent(m: RawMatch, d: Drawing, ts: seq<Entity>, skip: set<Handle>) {
    exists at :: Congruent(m, d, ts, skip, at)
  }

  lemma FittingStandsFor(d: Drawing, ts: seq<Entity>, skip: set<Handle>, i: nat, r: nat, at: Vec)
    requires r < |ts| && Fits(d, ts, skip, i, r, at)
    ensures i < |d| && StandsFor(d[i], ts[r], skip, at)
  {
    FingerprintErrorIsBounded(d[i], ts[r]);
    hide FingerprintOf, FingerprintMatches, Alike;
  }

  lemma PoseKeepsGaps(pose: Pose, p: Vec, q: Vec)
    requires pose.IsRigid()
    ensures SameGap(pose.Apply(p), pose.Apply(q), p, q)
  {
    RigidKeepsDistance(pose, p, q);
    hide pose.Apply, pose.IsRigid;
  }

  /** A witnessed match is congruent to the template. */
  lemma WitnessedIsCongruent(m: RawMatch, d: Drawing, ts: seq<Entity>, skip: set<Handle>)
    requires HasWitness(m, d, ts, skip)
    ensures IsCongruent(m, d, ts, skip)
  {
    var pose :| Witnessed(m, pose, d, ts, skip);
    hide pose.Apply, Fits, StandsFor, SameGap;
    var at := seq(|m|, k requires 0 <= k < |m| => pose.Apply(ts[m[k].1].centroid));
    forall k | 0 <= k < |m| ensures m[k].0 < |d| && StandsFor(d[m[k].0], ts[m[k].1], skip, at[k]) {
      FittingStandsFor(d, ts, skip, m[k].0, m[k].1, at[k]);
    }
    forall k, l | 0 <= k < |m| && 0 <= l < |m|
      ensures SameGap(at[k], at[l], ts[m[k].1].centroid, ts[m[l].1].centroid)
    {
      PoseKeepsGaps(pose, ts[m[k].1].centroid, ts[m[l].1].centroid);
    }
    assert Congruent(m, d, ts, skip, at);
  }

  /** The first acceptable position near `at` that is not used yet. */
  method FindRole(d: Drawing, ts: seq<Entity>, skip: set<Handle>, nearby: Vec -> seq<nat>, used: set<nat>, r: nat,
                  at: Vec)
    returns (found: Option<nat>)
    requires IsBallQuery(d, nearby) && r < |ts|
    ensures found.Some? ==> Fits(d, ts, skip, found.value, r, at) && found.value !in used
    ensures found.None? ==> forall i: nat :: i < |d| && i !in used ==> !Fits(d, ts, skip, i, r, at)
  {
    hide FingerprintOf, FingerprintMatches, Dist2;
    var ball := nearby(at);
    var fp := FingerprintOf(ts[r]);
    for k := 0 to |ball|
      invariant forall n :: 0 <= n < k ==> ball[n] in used || !Fits(d, ts, skip, ball[n], r, at)
    {
      var i := ball[k];
      assert i in nearby(at) && IsNear(d, i, at);
      if !(d[i].handle in skip || i in used) {
        if FingerprintMatches(FingerprintOf(d[i]), fp) { return Some(i); }
      }
    }
    forall i: nat | i < |d| && i !in used ensures !Fits(d, ts, skip, i, r, at) {
      if i in nearby(at) { assert exists n :: 0 <= n < |ball| && ball[n] == i; }
    }
    return None;
  }

  function Places(m: RawMatch): set<nat> { set p | p in m :: p.0 }

  /** Whatever fits the `k`-th role is taken, or fits an earlier role too. */
  ghost predicate Crowded(d: Drawing, ts: seq<Entity>, skip: set<Handle>, roles: seq<nat>, expected: seq<Vec>,
                          taken: set<nat>, k: nat)
    requires k < |roles| == |expected| && forall n :: 0 <= n < |roles| ==> roles[n] < |ts|
  {
    forall i: nat :: Fits(d, ts, skip, i, roles[k], expected[k]) ==>
      i in taken || exists n :: 0 <= n < k && Fits(d, ts, skip, i, roles[n], expected[n])
  }

  /** Something not taken fits the `k`-th role in this pose, and fits no other role. */
  ghost predicate HasOwnFit(d: Drawing, ts: seq<Entity>, skip: set<Handle>, pose: Pose, taken: set<nat>,
                            roles: seq<nat>, k: nat)
    requires k < |roles| && forall n :: 0 <= n < |roles| ==> roles[n] < |ts|
  {
    exists i: nat :: i !in taken && Fits(d, ts, skip, i, roles[k], pose.Apply(ts[roles[k]].centroid))
      && forall n :: 0 <= n < |roles| && n != k ==>
           !Fits(d, ts, skip, i, roles[n], pose.Apply(ts[roles[n]].centroid))
  }

  /** In this pose every role has an entity of its own. */
  ghost predicate Unmistaken(d: Drawing, ts: seq<Entity>, skip: set<Handle>, pose: Pose, taken: set<nat>,
                             roles: seq<nat>)
    requires forall n :: 0 <= n < |roles| ==> roles[n] < |ts|
  {
    forall k :: 0 <= k < |roles| ==> HasOwnFit(d, ts, skip, pose, taken, roles, k)
  }

  lemma CrowdedIsMistaken(d: Drawing, ts: seq<Entity>, skip: set<Handle>, pose: Pose, taken: set<nat>, roles: seq<nat>,
                          expected: seq<Vec>, k: nat)
    requires k < |roles| == |expected| && forall n :: 0 <= n < |roles| ==> roles[n] < |ts|
    requires forall n :: 0 <= n < |roles| ==> expected[n] == pose.Apply(ts[roles[n]].centroid)
    requires Crowded(d, ts, skip, roles, expected, taken, k)
    ensures !Unmistaken(d, ts, skip, pose, taken, roles)
  {
    hide Fits, pose.Apply;
    assert !HasOwnFit(d, ts, skip, pose, taken, roles, k);
  }

  /**
   Fills the roles one by one at their predicted places; all or nothing, and nothing only when some
   role finds whatever fits it taken.
   */
  method FillRoles(d: Drawing, ts: seq<Entity>, skip: set<Handle>, nearby: Vec -> seq<nat>, start: RawMatch,
                   roles: seq<nat>, expected: seq<Vec>) returns (m: Option<RawMatch>)
    requires IsBallQuery(d, nearby) && DistinctPlaces(start)
    requires |expected| == |roles| && forall k :: 0 <= k < |roles| ==> roles[k] < |ts|
    ensures m.Some? ==>
      && |m.value| == |start| + |roles| && m.value[..|start|] == start && DistinctPlaces(m.value)
      && forall k :: 0 <= k < |roles| ==>
           && m.value[|start| + k].1 == roles[k]
           && Fits(d, ts, skip, m.value[|start| + k].0, roles[k], expected[k])
    ensures m.None? ==>
      exists k :: 0 <= k < |roles| && Crowded(d, ts, skip, roles, expected, Places(start), k)
  {
    hide Fits, Crowded, FilledUpTo;
    var matched := start;
    var used := Places(start);
    NothingFilled(d, ts, skip, start, roles, expected);
    for k := 0 to |roles|
      invariant FilledUpTo(d, ts, skip, start, roles, expected, k, matched, used)
    {
      var found := FindRole(d, ts, skip, nearby, used, roles[k], expected[k]);
      if found.None? {
        NoneIsCrowded(d, ts, skip, start, roles, expected, k, matched, used);
        return None;
      }
      FillOneMore(d, ts, skip, start, roles, expected, k, matched, used, found.value);
      matched := matched + [(found.value, roles[k])];
      used := used + {found.value};
    }
    AllFilled(d, ts, skip, start, roles, expected, matched, used);
    return Some(matched);
  }

  /** The first `k` roles are filled, after `start`, and what is used is taken or fits one of them. */
  ghost predicate FilledUpTo(d: Drawing, ts: seq<Entity>, skip: set<Handle>, start: RawMatch, roles: seq<nat>,
                             expected: seq<Vec>, k: nat, matched: RawMatch, used: set<nat>)
    requires k <= |roles| == |expected| && forall n :: 0 <= n < |roles| ==> roles[n] < |ts|
  {
    && |matched| == |start| + k && matched[..|start|] == start && DistinctPlaces(matched)
    && (forall p :: p in matched ==> p.0 in used)
    && (forall i :: i in used ==>
          i in Places(start) || exists n :: 0 <= n < k && Fits(d, ts, skip, i, roles[n], expected[n]))
    && (forall n :: 0 <= n < k ==>
          && matched[|start| + n].1 == roles[n]
          && Fits(d, ts, skip, matched[|start| + n].0, roles[n], expected[n]))
  }

  lemma NothingFilled(d: Drawing, ts: seq<Entity>, skip: set<Handle>, start: RawMatch, roles: seq<nat>,
                      expected: seq<Vec>)
    requires DistinctPlaces(start) && |roles| == |expected| && forall n :: 0 <= n < |roles| ==> roles[n] < |ts|
    ensures FilledUpTo(d, ts, skip, start, roles, expected, 0, start, Places(start))
  {
  }

  lemma AllFilled(d: Drawing, ts: seq<Entity>, skip: set<Handle>, start: RawMatch, roles: seq<nat>,
                  expected: seq<Vec>, matched: RawMatch, used: set<nat>)
    requires |roles| == |expected| && forall n :: 0 <= n < |roles| ==> roles[n] < |ts|
    requires FilledUpTo(d, ts, skip, start, roles, expected, |roles|, matched, used)
    ensures |matched| == |start| + |roles| && matched[..|start|] == start && DistinctPlaces(matched)
    ensures forall k :: 0 <= k < |roles| ==>
      matched[|start| + k].1 == roles[k] && Fits(d, ts, skip, matched[|start| + k].0, roles[k], expected[k])
  {
    hide Fits, Places;
  }

  lemma NoneIsCrowded(d: Drawing, ts: seq<Entity>, skip: set<Handle>, start: RawMatch, roles: seq<nat>,
                      expected: seq<Vec>, k: nat, matched: RawMatch, used: set<nat>)
    requires k < |roles| == |expected| && forall n :: 0 <= n < |roles| ==> roles[n] < |ts|
    requires FilledUpTo(d, ts, skip, start, roles, expected, k, matched, used)
    requires forall i: nat :: i < |d| && i !in used ==> !Fits(d, ts, skip, i, roles[k], expected[k])
    ensures Crowded(d, ts, skip, roles, expected, Places(start), k)
  {
    forall i: nat | Fits(d, ts, skip, i, roles[k], expected[k]) ensures i in used { assert i < |d|; }
    hide Fits, DistinctPlaces, Places;
  }

  lemma FillOneMore(d: Drawing, ts: seq<Entity>, skip: set<Handle>, start: RawMatch, roles: seq<nat>,
                    expected: seq<Vec>, k: nat, matched: RawMatch, used: set<nat>, i: nat)
    requires k < |roles| == |expected| && forall n :: 0 <= n < |roles| ==> roles[n] < |ts|
    requires FilledUpTo(d, ts, skip, start, roles, expected, k, matched, used)
    requires i !in used && Fits(d, ts, skip, i, roles[k], expected[k])
    ensures FilledUpTo(d, ts, skip, start, roles, expected, k + 1, matched + [(i, roles[k])], used + {i})
  {
    hide Fits, Places;
    var next := matched + [(i, roles[k])];
    assert next[..|start|] == start;
    assert DistinctPlaces(next) by {
      forall a, b | 0 <= a < b < |next| ensures next[a].0 != next[b].0 {
        assert next[a] == matched[a] && matched[a] in matched;
      }
    }
    forall j | j in used + {i}
      ensures j in Places(start) || exists n :: 0 <= n < k + 1 && Fits(d, ts, skip, j, roles[n], expected[n])
    {
      if j in used && j !in Places(start) {
        var n :| 0 <= n < k && Fits(d, ts, skip, j, roles[n], expected[n]);
      }
    }
  }

  /** The template entities other than the seed, in order. */
  function OthersThan(seed: nat, n: nat): (rs: seq<nat>)
    ensures forall k :: 0 <= k < |rs| ==> rs[k] < n && rs[k] != seed
    ensures forall i, j :: 0 <= i < j < |rs| ==> rs[i] != rs[j]
    ensures |rs| == if seed < n then n - 1 else n
  {
    if n == 0 then []
    else OthersThan(seed, n - 1) + if n - 1 == seed then [] else [n - 1]
  }

  function FindHandle(d: Drawing, h: Handle): (i: Option<nat>)
    ensures i.Some? ==> i.value < |d| && d[i.value].handle == h
    ensures i.None? ==> forall k :: 0 <= k < |d| ==> d[k].handle != h
  {
    if d == [] then None else if d[|d| - 1].handle == h then Some(|d| - 1) else FindHandle(d[..|d| - 1], h)
  }

  // ---- the anisotropic path ---------------------------------------------------------------

  /** Place in the seed's principal frame. */
  function LocalOf(ts: seq<Entity>, seed: nat, r: nat): Vec
    requires seed < |ts| && r < |ts|
  {
    var off := Minus(ts[r].centroid, ts[seed].centroid);
    Vec(Dot(off, ts[seed].axes.0), Dot(off, ts[seed].axes.1))
  }

  /** A place in a frame, carried to the frame `a`, `b` at `at`. */
  function Predicted(local: Vec, a: Vec, b: Vec, at: Vec): Vec { Plus(at, Combine(local.x, a, local.y, b)) }

  function AxisPose(ts: seq<Entity>, seed: nat, cand: Entity, sx: real, sy: real): Pose
    requires seed < |ts|
  {
    Pose(ts[seed].centroid, ts[seed].axes.0, ts[seed].axes.1, cand.centroid, Scaled(sx, cand.axes.0),
      Scaled(sy, cand.axes.1))
  }

  lemma AxisPredicts(ts: seq<Entity>, seed: nat, cand: Entity, sx: real, sy: real, r: nat)
    requires seed < |ts| && r < |ts|
    ensures AxisPose(ts, seed, cand, sx, sy).Apply(ts[r].centroid) ==
            Predicted(LocalOf(ts, seed, r), Scaled(sx, cand.axes.0), Scaled(sy, cand.axes.1), cand.centroid)
  {
    hide Dot, Scaled, Plus, Combine, Minus;
  }

  lemma SignedFrame(a: Vec, b: Vec, sx: real, sy: real)
    requires Orthonormal(a, b) && (sx == 1.0 || sx == -1.0) && (sy == 1.0 || sy == -1.0)
    ensures Orthonormal(Scaled(sx, a), Scaled(sy, b))
  {
  }

  lemma PoseFixesSeed(pose: Pose)
    ensures pose.Apply(pose.origin) == pose.target
  {
    var z := Minus(pose.origin, pose.origin);
    ZeroDot(pose.p0);
    ZeroDot(pose.p1);
    ZeroCombine(pose.q0, pose.q1);
    assert z == Vec(0.0, 0.0);
    hide Dot, Combine;
  }

  lemma ZeroDot(p: Vec)
    ensures Dot(Vec(0.0, 0.0), p) == 0.0
  {
  }

  lemma ZeroCombine(a: Vec, b: Vec)
    ensures Combine(0.0, a, 0.0, b) == Vec(0.0, 0.0)
  {
  }

  /** Seed first, the others in order: each template entity once. */
  lemma SeedAndOthersCover(m: RawMatch, head: RawMatch, roles: seq<nat>, n: nat)
    requires |m| == |head| + |roles| == n && m[..|head|] == head
    requires forall k :: 0 <= k < |head| ==> head[k].1 < n && head[k].1 !in roles
    requires forall i, j :: 0 <= i < j < |head| ==> head[i].1 != head[j].1
    requires forall k :: 0 <= k < |roles| ==> roles[k] < n && m[|head| + k].1 == roles[k]
    requires forall i, j :: 0 <= i < j < |roles| ==> roles[i] != roles[j]
    ensures CoversRoles(m, n)
  {
    forall k | 0 <= k < n
      ensures m[k].1 < n && (k < |head| ==> m[k] == head[k]) && (k >= |head| ==> m[k].1 == roles[k - |head|])
    {
      if k >= |head| { assert m[|head| + (k - |head|)].1 == roles[k - |head|]; }
    }
    forall i, j | 0 <= i < j < n ensures m[i].1 != m[j].1 {
      if i < |head| <= j { assert roles[j - |head|] in roles; }
    }
  }

  /** A match filled at the predictions of a rigid pose, from a head that fits, is witnessed by it. */
  lemma FilledIsWitnessed(m: RawMatch, head: RawMatch, roles: seq<nat>, expected: seq<Vec>, pose: Pose,
                          d: Drawing, ts: seq<Entity>, skip: set<Handle>)
    requires pose.IsRigid() && DistinctPlaces(m)
    requires |m| == |head| + |roles| == |ts| && m[..|head|] == head && |expected| == |roles|
    requires forall k :: 0 <= k < |head| ==> head[k].1 < |ts| && head[k].1 !in roles
    requires forall i, j :: 0 <= i < j < |head| ==> head[i].1 != head[j].1
    requires forall k :: 0 <= k < |head| ==> Fits(d, ts, skip, head[k].0, head[k].1, pose.Apply(ts[head[k].1].centroid))
    requires forall k :: 0 <= k < |roles| ==> roles[k] < |ts| && m[|head| + k].1 == roles[k]
    requires forall i, j :: 0 <= i < j < |roles| ==> roles[i] != roles[j]
    requires forall k :: 0 <= k < |roles| ==>
      expected[k] == pose.Apply(ts[roles[k]].centroid) && Fits(d, ts, skip, m[|head| + k].0, roles[k], expected[k])
    ensures Witnessed(m, pose, d, ts, skip)
  {
    hide Fits, pose.Apply, pose.IsRigid;
    SeedAndOthersCover(m, head, roles, |ts|);
    forall k | 0 <= k < |m| ensures Fits(d, ts, skip, m[k].0, m[k].1, pose.Apply(ts[m[k].1].centroid)) {
      if k < |head| {
        assert m[k] == head[k];
      } else {
        var n := k - |head|;
        assert m[k] == m[|head| + n] && m[k].1 == roles[n];
      }
    }
  }

  ghost predicate AxesGiven(es: seq<Entity>) { forall e :: e in es ==> Orthonormal(e.axes.0, e.axes.1) }

  /** One sign variant: every role at its place in the pose, or some role has no entity of its own there. */
  method TrySign(d: Drawing, ts: seq<Entity>, skip: set<Handle>, nearby: Vec -> seq<nat>, seed: nat, c: nat,
                 sx: real, sy: real) returns (m: Option<RawMatch>)
    requires IsBallQuery(d, nearby) && AxesGiven(d) && AxesGiven(ts) && seed < |ts| && c < |d|
    requires d[c].handle !in skip && FingerprintMatches(FingerprintOf(d[c]), FingerprintOf(ts[seed]))
    requires (sx == 1.0 || sx == -1.0) && (sy == 1.0 || sy == -1.0)
    ensures m.Some? ==> HasWitness(m.value, d, ts, skip) && |m.value| > 0 && m.value[0] == (c, seed)
    ensures m.None? ==> !Unmistaken(d, ts, skip, AxisPose(ts, seed, d[c], sx, sy), {c}, OthersThan(seed, |ts|))
  {
    hide Fits, IsBallQuery, FingerprintMatches, FingerprintOf, HasWitness, Unmistaken, Crowded, Predicted, LocalOf,
      Scaled, AxisPose, Orthonormal;
    var roles, cand := OthersThan(seed, |ts|), d[c];
    var a, b := Scaled(sx, cand.axes.0), Scaled(sy, cand.axes.1);
    var expected := seq(|roles|, k requires 0 <= k < |roles| =>
      Predicted(LocalOf(ts, seed, roles[k]), a, b, cand.centroid));
    SignPredicts(ts, seed, cand, sx, sy, roles, expected);
    m := FillRoles(d, ts, skip, nearby, [(c, seed)], roles, expected);
    if m.Some? {
      assert m.value[0] == m.value[..1][0];
      assert cand in d && ts[seed] in ts;
      AxisPoseParts(ts, seed, cand, sx, sy);
      SeedMatchIsWitnessed(m.value, d, ts, skip, seed, c, AxisPose(ts, seed, cand, sx, sy), roles, expected);
    } else {
      SignIsMistaken(d, ts, skip, seed, c, AxisPose(ts, seed, cand, sx, sy), roles, expected);
    }
  }

  lemma SignPredicts(ts: seq<Entity>, seed: nat, cand: Entity, sx: real, sy: real, roles: seq<nat>, expected: seq<Vec>)
    requires seed < |ts| && |expected| == |roles| && forall k :: 0 <= k < |roles| ==> roles[k] < |ts|
    requires var a, b := Scaled(sx, cand.axes.0), Scaled(sy, cand.axes.1);
      forall k :: 0 <= k < |roles| ==> expected[k] == Predicted(LocalOf(ts, seed, roles[k]), a, b, cand.centroid)
    ensures var pose := AxisPose(ts, seed, cand, sx, sy);
      forall k :: 0 <= k < |roles| ==> expected[k] == pose.Apply(ts[roles[k]].centroid)
  {
    hide Predicted, LocalOf, Scaled, AxisPose, Pose.Apply;
    forall k | 0 <= k < |roles|
      ensures expected[k] == AxisPose(ts, seed, cand, sx, sy).Apply(ts[roles[k]].centroid)
    {
      AxisPredicts(ts, seed, cand, sx, sy, roles[k]);
    }
  }

  lemma SignIsMistaken(d: Drawing, ts: seq<Entity>, skip: set<Handle>, seed: nat, c: nat, pose: Pose, roles: seq<nat>,
                       expected: seq<Vec>)
    requires |expected| == |roles| && forall n :: 0 <= n < |roles| ==> roles[n] < |ts|
    requires forall n :: 0 <= n < |roles| ==> expected[n] == pose.Apply(ts[roles[n]].centroid)
    requires exists k :: 0 <= k < |roles| && Crowded(d, ts, skip, roles, expected, Places([(c, seed)]), k)
    ensures !Unmistaken(d, ts, skip, pose, {c}, roles)
  {
    hide Crowded, Unmistaken, pose.Apply;
    var k :| 0 <= k < |roles| && Crowded(d, ts, skip, roles, expected, Places([(c, seed)]), k);
    assert Places([(c, seed)]) == {c};
    CrowdedIsMistaken(d, ts, skip, pose, {c}, roles, expected, k);
  }

  /** Tries the four sign variants of one candidate seed; the first that fits every role wins. */
  method TrySigns(d: Drawing, ts: seq<Entity>, skip: set<Handle>, nearby: Vec -> seq<nat>, seed: nat, c: nat)
    returns (m: Option<RawMatch>)
    requires IsBallQuery(d, nearby) && AxesGiven(d) && AxesGiven(ts) && seed < |ts| && c < |d|
    requires d[c].handle !in skip && FingerprintMatches(FingerprintOf(d[c]), FingerprintOf(ts[seed]))
    ensures m.Some? ==> HasWitness(m.value, d, ts, skip) && |m.value| > 0 && m.value[0] == (c, seed)
    ensures m.None? ==> forall sx: real, sy: real :: (sx == 1.0 || sx == -1.0) && (sy == 1.0 || sy == -1.0) ==>
      !Unmistaken(d, ts, skip, AxisPose(ts, seed, d[c], sx, sy), {c}, OthersThan(seed, |ts|))
  {
    hide Unmistaken, HasWitness, AxisPose, IsBallQuery, AxesGiven, FingerprintOf, FingerprintMatches;
    var signs := [(1.0, 1.0), (1.0, -1.0), (-1.0, 1.0), (-1.0, -1.0)];
    for v := 0 to 4
      invariant forall u :: 0 <= u < v ==>
        !Unmistaken(d, ts, skip, AxisPose(ts, seed, d[c], signs[u].0, signs[u].1), {c}, OthersThan(seed, |ts|))
    {
      m := TrySign(d, ts, skip, nearby, seed, c, signs[v].0, signs[v].1);
      if m.Some? { return m; }
    }
    assert signs[0] == (1.0, 1.0) && signs[1] == (1.0, -1.0) && signs[2] == (-1.0, 1.0) && signs[3] == (-1.0, -1.0);
    return None;
  }

  /** A match of a seed candidate filled at the predictions of a pose that fixes the seed is witnessed. */
  lemma SeedMatchIsWitnessed(m: RawMatch, d: Drawing, ts: seq<Entity>, skip: set<Handle>, seed: nat, c: nat, pose: Pose,
                             roles: seq<nat>, expected: seq<Vec>)
    requires seed < |ts| && c < |d| && d[c].handle !in skip
    requires FingerprintMatches(FingerprintOf(d[c]), FingerprintOf(ts[seed]))
    requires pose.IsRigid() && pose.Apply(ts[seed].centroid) == d[c].centroid
    requires roles == OthersThan(seed, |ts|) && |expected| == |roles|
    requires |m| == 1 + |roles| && m[..1] == [(c, seed)] && DistinctPlaces(m)
    requires forall k :: 0 <= k < |roles| ==>
      m[1 + k].1 == roles[k] && Fits(d, ts, skip, m[1 + k].0, roles[k], expected[k])
    requires forall k :: 0 <= k < |roles| ==> expected[k] == pose.Apply(ts[roles[k]].centroid)
    ensures HasWitness(m, d, ts, skip)
  {
    hide FingerprintMatches, FingerprintOf, Pose.Apply, Pose.IsRigid, Fits;
    SeedFits(d, ts, skip, c, seed, pose.Apply(ts[seed].centroid));
    FilledIsWitnessed(m, [(c, seed)], roles, expected, pose, d, ts, skip);
    hide Witnessed;
  }

  lemma SeedFits(d: Drawing, ts: seq<Entity>, skip: set<Handle>, c: nat, seed: nat, at: Vec)
    requires seed < |ts| && c < |d| && d[c].handle !in skip && at == d[c].centroid
    requires FingerprintMatches(FingerprintOf(d[c]), FingerprintOf(ts[seed]))
    ensures Fits(d, ts, skip, c, seed, at)
  {
    assert Dist2(at, at) == 0.0;
  }

  lemma AxisPoseParts(ts: seq<Entity>, seed: nat, cand: Entity, sx: real, sy: real)
    requires seed < |ts| && Orthonormal(ts[seed].axes.0, ts[seed].axes.1) && Orthonormal(cand.axes.0, cand.axes.1)
    requires (sx == 1.0 || sx == -1.0) && (sy == 1.0 || sy == -1.0)
    ensures var pose := AxisPose(ts, seed, cand, sx, sy);
      pose.IsRigid() && pose.Apply(ts[seed].centroid) == cand.centroid
  {
    hide Scaled, Orthonormal, Dot, Combine, Plus;
    SignedFrame(cand.axes.0, cand.axes.1, sx, sy);
    PoseFixesSeed(AxisPose(ts, seed, cand, sx, sy));
  }
}
