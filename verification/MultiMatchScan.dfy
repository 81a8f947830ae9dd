/**
 The whole multi-entity scan (app/matching.py, `_match_multi`): candidate seeds, raw
 matches without repeated groups, and their expansion by stacked duplicates.
 */
module MultiMatchScan {
  import opened Wrappers
  import opened Entities
  import opened BucketLookups
  import opened Isometries
  import opened MultiMatch
  import opened PairAlignment
  import opened SingleMatch

  predicate InDrawing(m: RawMatch, d: Drawing) { forall p :: p in m ==> p.0 < |d| }

  predicate InTemplate(m: RawMatch, ts: seq<Entity>) { forall p :: p in m ==> p.1 < |ts| }

  function GroupOf(m: RawMatch, d: Drawing): set<Handle>
    requires InDrawing(m, d)
  {
    set p | p in m :: d[p.0].handle
  }

  /** Every raw match is witnessed by an isometry, and no two are the same group of handles. */
  ghost predicate AllWitnessed(raw: seq<RawMatch>, d: Drawing, ts: seq<Entity>, skip: set<Handle>) {
    && (forall i :: 0 <= i < |raw| ==> HasWitness(raw[i], d, ts, skip) && InDrawing(raw[i], d))
    && (forall i, j :: 0 <= i < j < |raw| ==> GroupOf(raw[i], d) != GroupOf(raw[j], d))
  }

  /** Raw matches found so far, with their groups noted. */
  ghost predicate SoundRaw(raw: seq<RawMatch>, seen: set<set<Handle>>, d: Drawing, ts: seq<Entity>, skip: set<Handle>) {
    && AllWitnessed(raw, d, ts, skip)
    && (forall i :: 0 <= i < |raw| ==> GroupOf(raw[i], d) in seen)
    && (forall g :: g in seen ==> exists i :: 0 <= i < |raw| && GroupOf(raw[i], d) == g)
  }

  lemma WitnessedIsInDrawing(m: RawMatch, d: Drawing, ts: seq<Entity>, skip: set<Handle>)
    requires HasWitness(m, d, ts, skip)
    ensures InDrawing(m, d)
  {
    var pose :| Witnessed(m, pose, d, ts, skip);
    hide pose.Apply, FingerprintMatches, FingerprintOf, pose.IsRigid;
    forall p | p in m ensures p.0 < |d| {
      var k :| 0 <= k < |m| && m[k] == p;
      assert Fits(d, ts, skip, m[k].0, m[k].1, pose.Apply(ts[m[k].1].centroid));
    }
  }

  /** Keeps a match unless its group was seen. */
  method Keep(raw0: seq<RawMatch>, seen0: set<set<Handle>>, m: RawMatch,
              d: Drawing, ghost ts: seq<Entity>, ghost skip: set<Handle>)
    returns (raw: seq<RawMatch>, seen: set<set<Handle>>)
    requires SoundRaw(raw0, seen0, d, ts, skip) && InDrawing(m, d) && HasWitness(m, d, ts, skip)
    ensures SoundRaw(raw, seen, d, ts, skip)
    ensures seen == seen0 + {GroupOf(m, d)}
  {
    hide HasWitness;
    raw, seen := raw0, seen0;
    var group := GroupOf(m, d);
    hide GroupOf;
    if group !in seen {
      seen := seen + {group};
      raw := raw + [m];
      assert raw[|raw0|] == m && forall i :: 0 <= i < |raw0| ==> raw[i] == raw0[i];
    }
  }

  /** The position of an accepted handle, and that it fits the template's fingerprint. */
  lemma AcceptedPosition(d: Drawing, fp: Fingerprint, h: Handle)
    requires DistinctHandles(d) && Accepts(d, fp, h)
    ensures FindHandle(d, h).Some? && FingerprintMatches(FingerprintOf(d[FindHandle(d, h).value]), fp)
  {
    hide FingerprintOf;
    var i :| 0 <= i < |d| && d[i].handle == h && !d[i].isCircle && FingerprintMatches(fp, FingerprintOf(d[i]));
    assert FindHandle(d, h).value == i;
  }

  /** A candidate that is neither skipped nor on the template's own position. */
  predicate IsCandidate(d: Drawing, skip: set<Handle>, keys: set<ClusterKey>, h: Handle) {
    h !in skip && FindHandle(d, h).Some? && ClusterOf(d[FindHandle(d, h).value]) !in keys
  }

  /** The entity at position `c` belongs to a raw match. */
  ghost predicate Covered(raw: seq<RawMatch>, d: Drawing, c: nat) {
    c < |d| && exists i :: 0 <= i < |raw| && InDrawing(raw[i], d) && d[c].handle in GroupOf(raw[i], d)
  }

  /** Free to be matched: not skipped, and not at a place in `keys`. */
  ghost predicate IsFree(d: Drawing, skip: set<Handle>, keys: set<ClusterKey>, c: nat) {
    c < |d| && d[c].handle !in skip && ClusterOf(d[c]) !in keys
  }

  /** With the seed's axes carried to those of `c`, some signs give every other role an entity of its own. */
  ghost predicate AxesAgree(d: Drawing, ts: seq<Entity>, skip: set<Handle>, seed: nat, c: nat)
    requires seed < |ts| && c < |d|
  {
    exists sx: real, sy: real :: (sx == 1.0 || sx == -1.0) && (sy == 1.0 || sy == -1.0)
      && Unmistaken(d, ts, skip, AxisPose(ts, seed, d[c], sx, sy), {c}, OthersThan(seed, |ts|))
  }

  /** A group seen so far holds the handle. */
  ghost predicate Seen(seen: set<set<Handle>>, h: Handle) { exists g :: g in seen && h in g }

  lemma FirstInGroup(m: RawMatch, d: Drawing, c: nat)
    requires InDrawing(m, d) && |m| > 0 && m[0].0 == c
    ensures c < |d| && d[c].handle in GroupOf(m, d)
  {
    assert m[0] in m;
  }

  lemma SeenIsCovered(raw: seq<RawMatch>, seen: set<set<Handle>>, d: Drawing, ts: seq<Entity>, skip: set<Handle>,
                      c: nat)
    requires SoundRaw(raw, seen, d, ts, skip) && c < |d| && Seen(seen, d[c].handle)
    ensures Covered(raw, d, c)
  {
    hide GroupOf, HasWitness;
  }

  method AnisotropicMatches(d: Drawing, ts: seq<Entity>, skip: set<Handle>, nearby: Vec -> seq<nat>, seed: nat,
                            keys: set<ClusterKey>, bucket: seq<Handle>) returns (raw: seq<RawMatch>)
    requires DistinctHandles(d) && IsBallQuery(d, nearby) && AxesGiven(d) && AxesGiven(ts) && seed < |ts|
    requires forall h :: h in bucket ==> Accepts(d, FingerprintOf(ts[seed]), h)
    ensures AllWitnessed(raw, d, ts, skip)
    ensures forall c: nat :: IsFree(d, skip, keys, c) && d[c].handle in bucket && AxesAgree(d, ts, skip, seed, c) ==>
      Covered(raw, d, c)
  {
    hide Accepts, DistinctHandles, IsBallQuery, AxesGiven, HasWitness, SoundRaw, AllWitnessed, FingerprintMatches,
      FingerprintOf, ClusterOf, FindHandle, Unmistaken, GroupOf, Covered, AxisPose;
    raw := [];
    var seen: set<set<Handle>> := {};
    NothingRaw(d, ts, skip);
    for n := 0 to |bucket|
      invariant SoundRaw(raw, seen, d, ts, skip)
      invariant forall k, c: nat ::
        (&& 0 <= k < n && IsFree(d, skip, keys, c) && d[c].handle == bucket[k]
         && AxesAgree(d, ts, skip, seed, c)) ==> Seen(seen, d[c].handle)
    {
      var h := bucket[n];
      assert h in bucket;
      AcceptedPosition(d, FingerprintOf(ts[seed]), h);
      OnlyPosition(d, h);
      if IsCandidate(d, skip, keys, h) {
        var c := FindHandle(d, h).value;
        var m := TrySigns(d, ts, skip, nearby, seed, c);
        if m.Some? {
          WitnessedIsInDrawing(m.value, d, ts, skip);
          FirstInGroup(m.value, d, c);
          raw, seen := Keep(raw, seen, m.value, d, ts, skip);
        }
      }
    }
    SoundIsWitnessed(raw, seen, d, ts, skip);
    forall c: nat | IsFree(d, skip, keys, c) && d[c].handle in bucket && AxesAgree(d, ts, skip, seed, c)
      ensures Covered(raw, d, c)
    {
      SeenIsCovered(raw, seen, d, ts, skip, c);
    }
  }

  lemma OnlyPosition(d: Drawing, h: Handle)
    requires DistinctHandles(d)
    ensures forall c: nat :: c < |d| && d[c].handle == h ==> FindHandle(d, h) == Some(c)
  {
    hide FindHandle;
  }

  lemma SoundIsWitnessed(raw: seq<RawMatch>, seen: set<set<Handle>>, d: Drawing, ts: seq<Entity>, skip: set<Handle>)
    requires SoundRaw(raw, seen, d, ts, skip)
    ensures AllWitnessed(raw, d, ts, skip)
  {
  }

  lemma NothingRaw(d: Drawing, ts: seq<Entity>, skip: set<Handle>)
    ensures SoundRaw([], {}, d, ts, skip)
  {
  }

  /** The pair at `c` and `o` is as far apart as in the template, and some pose gives the rest entities of their own. */
  ghost predicate PairAgrees(d: Drawing, ts: seq<Entity>, skip: set<Handle>, norm: Vec -> real, seed: nat, c: nat,
                             o: nat)
    requires seed < |ts| && |ts| >= 2 && c < |d| && o < |d|
    requires norm(Minus(ts[OthersThan(seed, |ts|)[0]].centroid, ts[seed].centroid)) != 0.0
  {
    var roles := OthersThan(seed, |ts|);
    var tn, cn := norm(Minus(ts[roles[0]].centroid, ts[seed].centroid)), norm(Minus(d[o].centroid, d[c].centroid));
    && -CENTROID_NOISE_TOL <= cn - tn <= CENTROID_NOISE_TOL
    && exists mirror: bool :: (mirror ==> |ts| > 2)
         && Unmistaken(d, ts, skip, PoseOfPair(d, ts, norm, seed, roles[0], c, o, mirror), {c, o}, roles[1..])
  }

  /** The candidate pairs of one seed candidate, each tried in both mirrorings. */
  method PairsWith(d: Drawing, ts: seq<Entity>, skip: set<Handle>, nearby: Vec -> seq<nat>, norm: Vec -> real,
                   seed: nat, keys: set<ClusterKey>, roles: seq<nat>, others: seq<Handle>, c: nat,
                   raw0: seq<RawMatch>, seen0: set<set<Handle>>)
    returns (raw: seq<RawMatch>, seen: set<set<Handle>>)
    requires DistinctHandles(d) && IsBallQuery(d, nearby) && IsNorm(norm) && seed < |ts| && |ts| >= 2
    requires roles == OthersThan(seed, |ts|)
    requires norm(Minus(ts[roles[0]].centroid, ts[seed].centroid)) >= CENTROID_NOISE_TOL
    requires IsFree(d, skip, keys, c) && FingerprintMatches(FingerprintOf(d[c]), FingerprintOf(ts[seed]))
    requires forall h :: h in others ==> Accepts(d, FingerprintOf(ts[roles[0]]), h)
    requires SoundRaw(raw0, seen0, d, ts, skip)
    ensures SoundRaw(raw, seen, d, ts, skip) && seen0 <= seen
    ensures forall o: nat ::
      (&& IsFree(d, skip, keys, o) && o != c && d[o].handle in others
       && PairAgrees(d, ts, skip, norm, seed, c, o)) ==> Seen(seen, d[c].handle)
  {
    hide Accepts, DistinctHandles, IsBallQuery, IsNorm, HasWitness, SoundRaw, FingerprintMatches, FingerprintOf,
      ClusterOf, FindHandle, Unmistaken, GroupOf, PoseOfPair, OthersThan;
    raw, seen := raw0, seen0;
    OnlyPosition(d, d[c].handle);
    for k := 0 to |others|
      invariant SoundRaw(raw, seen, d, ts, skip) && seen0 <= seen
      invariant forall n, o: nat ::
        (&& 0 <= n < k && IsFree(d, skip, keys, o) && o != c && d[o].handle == others[n]
         && PairAgrees(d, ts, skip, norm, seed, c, o)) ==> Seen(seen, d[c].handle)
    {
      var g := others[k];
      assert g in others;
      AcceptedPosition(d, FingerprintOf(ts[roles[0]]), g);
      OnlyPosition(d, g);
      if g != d[c].handle && IsCandidate(d, skip, keys, g) {
        var o := FindHandle(d, g).value;
        var m := TryMirrors(d, ts, skip, nearby, norm, seed, roles, c, o);
        if m.Some? {
          WitnessedIsInDrawing(m.value, d, ts, skip);
          FirstInGroup(m.value, d, c);
          raw, seen := Keep(raw, seen, m.value, d, ts, skip);
        }
      }
    }
  }

  method IsotropicMatches(d: Drawing, ts: seq<Entity>, skip: set<Handle>, nearby: Vec -> seq<nat>, norm: Vec -> real,
                          seed: nat, keys: set<ClusterKey>, bucket: seq<Handle>, roles: seq<nat>, others: seq<Handle>)
    returns (raw: seq<RawMatch>)
    requires DistinctHandles(d) && IsBallQuery(d, nearby) && IsNorm(norm) && seed < |ts| && |ts| >= 2
    requires roles == OthersThan(seed, |ts|)
    requires norm(Minus(ts[roles[0]].centroid, ts[seed].centroid)) >= CENTROID_NOISE_TOL
    requires forall h :: h in bucket ==> Accepts(d, FingerprintOf(ts[seed]), h)
    requires forall h :: h in others ==> Accepts(d, FingerprintOf(ts[roles[0]]), h)
    ensures AllWitnessed(raw, d, ts, skip)
    ensures forall c: nat, o: nat ::
      (&& IsFree(d, skip, keys, c) && IsFree(d, skip, keys, o) && o != c
       && d[c].handle in bucket && d[o].handle in others
       && PairAgrees(d, ts, skip, norm, seed, c, o)) ==> Covered(raw, d, c)
  {
    hide Accepts, DistinctHandles, IsBallQuery, IsNorm, HasWitness, SoundRaw, AllWitnessed, FingerprintMatches,
      FingerprintOf, ClusterOf, FindHandle, PairAgrees, GroupOf, Covered;
    raw := [];
    var seen: set<set<Handle>> := {};
    NothingRaw(d, ts, skip);
    for n := 0 to |bucket|
      invariant SoundRaw(raw, seen, d, ts, skip)
      invariant forall k, c: nat, o: nat ::
        (&& 0 <= k < n && IsFree(d, skip, keys, c) && IsFree(d, skip, keys, o) && o != c
         && d[c].handle == bucket[k] && d[o].handle in others
         && PairAgrees(d, ts, skip, norm, seed, c, o)) ==> Seen(seen, d[c].handle)
    {
      var h := bucket[n];
      assert h in bucket;
      AcceptedPosition(d, FingerprintOf(ts[seed]), h);
      OnlyPosition(d, h);
      if IsCandidate(d, skip, keys, h) {
        var c := FindHandle(d, h).value;
        raw, seen := PairsWith(d, ts, skip, nearby, norm, seed, keys, roles, others, c, raw, seen);
      }
    }
    SoundIsWitnessed(raw, seen, d, ts, skip);
    forall c: nat, o: nat | IsFree(d, skip, keys, c) && IsFree(d, skip, keys, o) && o != c
      && d[c].handle in bucket && d[o].handle in others && PairAgrees(d, ts, skip, norm, seed, c, o)
      ensures Covered(raw, d, c)
    {
      SeenIsCovered(raw, seen, d, ts, skip, c);
    }
  }

  /** The places the template itself occupies, when they are to be left out. */
  ghost function TemplatePlaces(ts: seq<Entity>, exclude: bool): set<ClusterKey> {
    if exclude then set t | t in ts :: ClusterOf(t) else {}
  }

  /** A free entity, not a circle, whose fingerprint matches that of role `r`. */
  ghost predicate CanStandFor(d: Drawing, ts: seq<Entity>, skip: set<Handle>, exclude: bool, r: nat, c: nat)
    requires r < |ts|
  {
    && IsFree(d, skip, TemplatePlaces(ts, exclude), c)
    && !d[c].isCircle && FingerprintMatches(FingerprintOf(ts[r]), FingerprintOf(d[c]))
  }

  /**
   The entity at `c` can stand for the seed in a pose that gives every other role an entity of its
   own: by its axes, or for a round seed by a second entity at the right distance.
   */
  ghost predicate SeedsMatch(d: Drawing, ts: seq<Entity>, skip: set<Handle>, norm: Vec -> real, exclude: bool,
                             seed: nat, c: nat)
    requires seed < |ts| && |ts| >= 2
  {
    var first := OthersThan(seed, |ts|)[0];
    && CanStandFor(d, ts, skip, exclude, seed, c)
    && if SigmaRatio(ts[seed]) > ISOTROPIC_SIGMA_RATIO_THRESHOLD
          && norm(Minus(ts[first].centroid, ts[seed].centroid)) >= CENTROID_NOISE_TOL
       then exists o: nat :: o != c && CanStandFor(d, ts, skip, exclude, first, o)
              && PairAgrees(d, ts, skip, norm, seed, c, o)
       else AxesAgree(d, ts, skip, seed, c)
  }

  /** All raw matches, by whichever path suits the seed. */
  method RawMatches(d: Drawing, ts: seq<Entity>, skip: set<Handle>, nearby: Vec -> seq<nat>, norm: Vec -> real,
                    seed: nat, exclude: bool)
    returns (raw: seq<RawMatch>)
    requires DistinctHandles(d) && IsBallQuery(d, nearby) && IsNorm(norm) && AxesGiven(d) && AxesGiven(ts)
    requires seed < |ts| && |ts| >= 2
    ensures AllWitnessed(raw, d, ts, skip)
    ensures forall i :: 0 <= i < |raw| ==> IsCongruent(raw[i], d, ts, skip)
    ensures forall c: nat :: SeedsMatch(d, ts, skip, norm, exclude, seed, c) ==> Covered(raw, d, c)
  {
    hide DistinctHandles, IsBallQuery, AxesGiven, IsNorm, AllWitnessed, FingerprintOf, FingerprintMatches, ClusterOf,
      AxesAgree, PairAgrees, Covered;
    var keys := if exclude then set t | t in ts :: ClusterOf(t) else {};
    assert keys == TemplatePlaces(ts, exclude);
    hide TemplatePlaces;
    var buckets := BuildBuckets(d, FingerprintKeyOf);
    var bucket := NeighbourHandles(d, buckets, FingerprintOf(ts[seed]));
    var roles := OthersThan(seed, |ts|);
    var dist := norm(Minus(ts[roles[0]].centroid, ts[seed].centroid));
    if SigmaRatio(ts[seed]) > ISOTROPIC_SIGMA_RATIO_THRESHOLD && dist >= CENTROID_NOISE_TOL {
      var others := NeighbourHandles(d, buckets, FingerprintOf(ts[roles[0]]));
      raw := IsotropicMatches(d, ts, skip, nearby, norm, seed, keys, bucket, roles, others);
    } else {
      raw := AnisotropicMatches(d, ts, skip, nearby, seed, keys, bucket);
    }
    AllCongruent(raw, d, ts, skip);
  }

  lemma AllCongruent(raw: seq<RawMatch>, d: Drawing, ts: seq<Entity>, skip: set<Handle>)
    requires AllWitnessed(raw, d, ts, skip)
    ensures forall i :: 0 <= i < |raw| ==> IsCongruent(raw[i], d, ts, skip)
  {
    hide HasWitness, IsCongruent;
    forall i | 0 <= i < |raw| ensures IsCongruent(raw[i], d, ts, skip) {
      WitnessedIsCongruent(raw[i], d, ts, skip);
    }
  }

  // ---- expansion -------------------------------------------------------------------------------

  function CountSkipped(d: Drawing, skip: set<Handle>, key: ClusterKey): nat {
    if d == [] then 0
    else
      var last := d[|d| - 1];
      CountSkipped(d[..|d| - 1], skip, key) + if last.handle in skip && ClusterOf(last) == key then 1 else 0
  }

  /** How many handles the user picked at a template cluster; one when none were. */
  function Multiplicity(d: Drawing, skip: set<Handle>, key: ClusterKey): nat {
    var n := CountSkipped(d, skip, key);
    if n == 0 then 1 else n
  }

  /** The roles' multiplicities, added up. */
  function TotalMultiplicity(m: RawMatch, d: Drawing, ts: seq<Entity>, skip: set<Handle>): nat
    requires InTemplate(m, ts)
  {
    if m == [] then 0
    else TotalMultiplicity(m[..|m| - 1], d, ts, skip) + Multiplicity(d, skip, ClusterOf(ts[m[|m| - 1].1]))
  }

  function ClusterKeyOf(e: Entity): Option<ClusterKey> { Some(ClusterOf(e)) }

  /** Stacked on the entity at position `i`. */
  ghost predicate StackedOn(d: Drawing, i: nat, h: Handle)
    requires i < |d|
  {
    exists j :: 0 <= j < |d| && d[j].handle == h && ClusterOf(d[j]) == ClusterOf(d[i])
  }

  /** The matched handle, topped up with unskipped cluster mates to the role's multiplicity. */
  method PickStack(d: Drawing, skip: set<Handle>, i: nat, members: seq<Handle>, target: nat)
    returns (picked: set<Handle>)
    requires i < |d| && d[i].handle !in skip && target >= 1
    requires forall h :: h in members ==> StackedOn(d, i, h)
    ensures d[i].handle in picked && |picked| <= target && picked * skip == {}
    ensures forall h :: h in picked ==> StackedOn(d, i, h)
    ensures |picked| == target || forall h :: h in members ==> h in skip || h in picked
  {
    hide ClusterOf;
    picked := {d[i].handle};
    assert StackedOn(d, i, d[i].handle);
    hide StackedOn;
    for k := 0 to |members|
      invariant d[i].handle in picked && |picked| <= target && picked * skip == {}
      invariant forall h :: h in picked ==> StackedOn(d, i, h)
      invariant forall n :: 0 <= n < k ==> members[n] in skip || members[n] in picked
    {
      if |picked| >= target { break; }
      var h := members[k];
      assert h in members;
      if h !in picked && h !in skip { picked := picked + {h}; }
    }
  }

  /** Stacked on one of the matched entities. */
  ghost predicate StackedOnSome(d: Drawing, m: RawMatch, h: Handle) {
    exists p :: p in m && p.0 < |d| && StackedOn(d, p.0, h)
  }

  ghost predicate OnlyStacked(d: Drawing, m: RawMatch, full: set<Handle>) {
    forall h :: h in full ==> StackedOnSome(d, m, h)
  }

  /** The place of a role holds as many as its multiplicity, or everything unskipped that is stacked there. */
  ghost predicate ToppedUp(full: set<Handle>, d: Drawing, ts: seq<Entity>, skip: set<Handle>, p: (nat, nat))
    requires p.0 < |d| && p.1 < |ts|
  {
    || (forall h :: StackedOn(d, p.0, h) ==> h in skip || h in full)
    || exists picked: set<Handle> :: picked <= full && |picked| == Multiplicity(d, skip, ClusterOf(ts[p.1]))
         && forall h :: h in picked ==> StackedOn(d, p.0, h)
  }

  ghost predicate AllToppedUp(full: set<Handle>, m: RawMatch, d: Drawing, ts: seq<Entity>, skip: set<Handle>)
    requires InDrawing(m, d) && InTemplate(m, ts)
  {
    forall p :: p in m ==> ToppedUp(full, d, ts, skip, p)
  }

  /**
   What an expanded group is: every matched handle, only stacked mates, none skipped, bounded in
   number, and short of a role's multiplicity only where nothing more is stacked.
   */
  ghost predicate Expands(full: set<Handle>, m: RawMatch, d: Drawing, ts: seq<Entity>, skip: set<Handle>)
    requires InDrawing(m, d) && InTemplate(m, ts)
  {
    && GroupOf(m, d) <= full
    && OnlyStacked(d, m, full)
    && full * skip == {}
    && |full| <= TotalMultiplicity(m, d, ts, skip)
    && AllToppedUp(full, m, d, ts, skip)
  }

  lemma UnionIsBounded(a: set<Handle>, b: set<Handle>)
    ensures |a + b| <= |a| + |b|
  {
    assert |a + b| == |a| + |b - a|;
    assert |b - a| <= |b| by {
      assert b == (b - a) + (b * a);
      assert |b| == |b - a| + |b * a|;
    }
  }

  lemma StillStacked(full: set<Handle>, picked: set<Handle>, m: RawMatch, last: (nat, nat), d: Drawing)
    requires last.0 < |d| && OnlyStacked(d, m, full) && (forall h :: h in picked ==> StackedOn(d, last.0, h))
    ensures OnlyStacked(d, m + [last], full + picked)
  {
    hide StackedOn;
    forall h | h in full + picked ensures StackedOnSome(d, m + [last], h) {
      if h in full {
        var p :| p in m && p.0 < |d| && StackedOn(d, p.0, h);
        assert p in m + [last];
      } else {
        assert last in m + [last];
      }
    }
  }

  lemma TotalOneMore(m: RawMatch, last: (nat, nat), d: Drawing, ts: seq<Entity>, skip: set<Handle>)
    requires InTemplate(m, ts) && last.1 < |ts| && InTemplate(m + [last], ts)
    ensures TotalMultiplicity(m + [last], d, ts, skip) ==
      TotalMultiplicity(m, d, ts, skip) + Multiplicity(d, skip, ClusterOf(ts[last.1]))
  {
    hide Multiplicity, ClusterOf;
    assert (m + [last])[..|m|] == m;
  }

  lemma StillApart(a: set<Handle>, b: set<Handle>, c: set<Handle>)
    requires a * c == {} && b * c == {}
    ensures (a + b) * c == {}
  {
  }

  lemma ExpandOneMore(full: set<Handle>, picked: set<Handle>, m: RawMatch, last: (nat, nat), d: Drawing,
                      ts: seq<Entity>, skip: set<Handle>)
    requires InDrawing(m, d) && InTemplate(m, ts) && last.0 < |d| && last.1 < |ts|
    requires Expands(full, m, d, ts, skip)
    requires d[last.0].handle in picked && picked * skip == {}
      && |picked| <= Multiplicity(d, skip, ClusterOf(ts[last.1]))
    requires forall h :: h in picked ==> StackedOn(d, last.0, h)
    requires ToppedUp(picked, d, ts, skip, last)
    ensures InDrawing(m + [last], d) && InTemplate(m + [last], ts)
    ensures Expands(full + picked, m + [last], d, ts, skip)
  {
    assert InDrawing(m + [last], d) && InTemplate(m + [last], ts);
    ToppedOneMore(full, picked, m, last, d, ts, skip);
    hide StackedOn, OnlyStacked, Multiplicity, ClusterOf, InDrawing, InTemplate, TotalMultiplicity, GroupOf,
      AllToppedUp, ToppedUp;
    GroupOneMore(m, last, d);
    StillStacked(full, picked, m, last, d);
    UnionIsBounded(full, picked);
    TotalOneMore(m, last, d, ts, skip);
    StillApart(full, picked, skip);
  }

  lemma MoreIsToppedUp(full: set<Handle>, more: set<Handle>, d: Drawing, ts: seq<Entity>, skip: set<Handle>,
                       p: (nat, nat))
    requires p.0 < |d| && p.1 < |ts| && full <= more && ToppedUp(full, d, ts, skip, p)
    ensures ToppedUp(more, d, ts, skip, p)
  {
    hide StackedOn, Multiplicity, ClusterOf;
  }

  lemma ToppedOneMore(full: set<Handle>, picked: set<Handle>, m: RawMatch, last: (nat, nat), d: Drawing,
                      ts: seq<Entity>, skip: set<Handle>)
    requires InDrawing(m, d) && InTemplate(m, ts) && last.0 < |d| && last.1 < |ts|
    requires InDrawing(m + [last], d) && InTemplate(m + [last], ts)
    requires AllToppedUp(full, m, d, ts, skip) && ToppedUp(picked, d, ts, skip, last)
    ensures AllToppedUp(full + picked, m + [last], d, ts, skip)
  {
    hide ToppedUp;
    forall p | p in m + [last] ensures ToppedUp(full + picked, d, ts, skip, p) {
      MoreIsToppedUp(if p in m then full else picked, full + picked, d, ts, skip, p);
    }
  }

  lemma GroupOneMore(m: RawMatch, last: (nat, nat), d: Drawing)
    requires InDrawing(m, d) && last.0 < |d| && InDrawing(m + [last], d)
    ensures GroupOf(m + [last], d) == GroupOf(m, d) + {d[last.0].handle}
  {
    forall h | h in GroupOf(m + [last], d) ensures h in GroupOf(m, d) + {d[last.0].handle} {
      var p :| p in m + [last] && d[p.0].handle == h;
    }
    forall h | h in GroupOf(m, d) ensures h in GroupOf(m + [last], d) {
      var p :| p in m && d[p.0].handle == h;
      assert p in m + [last];
    }
    assert last in m + [last];
  }

  lemma NothingExpands(d: Drawing, ts: seq<Entity>, skip: set<Handle>)
    ensures Expands({}, [], d, ts, skip)
  {
  }

  /** The handles that stand for one role of a match. */
  method PickFor(d: Drawing, ts: seq<Entity>, skip: set<Handle>, clusters: map<ClusterKey, seq<Handle>>, i: nat, r: nat)
    returns (picked: set<Handle>)
    requires AreBuckets(clusters, d, ClusterKeyOf) && i < |d| && r < |ts| && d[i].handle !in skip
    ensures d[i].handle in picked && picked * skip == {} && |picked| <= Multiplicity(d, skip, ClusterOf(ts[r]))
    ensures forall h :: h in picked ==> StackedOn(d, i, h)
    ensures ToppedUp(picked, d, ts, skip, (i, r))
  {
    hide ClusterOf, CountSkipped, Multiplicity, StackedOn, Members;
    var key := ClusterOf(d[i]);
    var members := if key in clusters then clusters[key] else [d[i].handle];
    ClusterMembersAreStacked(d, i);
    MultiplicityIsPositive(d, skip, ClusterOf(ts[r]));
    picked := PickStack(d, skip, i, members, Multiplicity(d, skip, ClusterOf(ts[r])));
  }

  lemma PrefixOk(m: RawMatch, k: nat, d: Drawing, ts: seq<Entity>)
    requires k < |m| && InDrawing(m, d) && InTemplate(m, ts)
    ensures m[k].0 < |d| && m[k].1 < |ts| && m[k] in m && InDrawing(m[..k], d) && InTemplate(m[..k], ts)
    ensures m[..k] + [m[k]] == m[..k + 1]
  {
  }

  method ExpandMatch(d: Drawing, ts: seq<Entity>, skip: set<Handle>, clusters: map<ClusterKey, seq<Handle>>,
                     m: RawMatch)
    returns (full: set<Handle>)
    requires AreBuckets(clusters, d, ClusterKeyOf) && InDrawing(m, d)
    requires InTemplate(m, ts) && forall p :: p in m ==> d[p.0].handle !in skip
    ensures Expands(full, m, d, ts, skip)
  {
    full := {};
    NothingExpands(d, ts, skip);
    for k := 0 to |m|
      invariant InDrawing(m[..k], d) && InTemplate(m[..k], ts)
      invariant Expands(full, m[..k], d, ts, skip)
    {
      hide Expands, ClusterOf, InDrawing, InTemplate, Multiplicity, StackedOn, AreBuckets;
      PrefixOk(m, k, d, ts);
      var picked := PickFor(d, ts, skip, clusters, m[k].0, m[k].1);
      ExpandOneMore(full, picked, m[..k], m[k], d, ts, skip);
      full := full + picked;
    }
    assert m[..|m|] == m;
  }

  lemma MultiplicityIsPositive(d: Drawing, skip: set<Handle>, key: ClusterKey)
    ensures Multiplicity(d, skip, key) >= 1
  {
  }

  lemma ClusterMembersAreStacked(d: Drawing, i: nat)
    requires i < |d|
    ensures forall h :: h in Members(d, ClusterKeyOf, ClusterOf(d[i])) <==> StackedOn(d, i, h)
    ensures d[i].handle in Members(d, ClusterKeyOf, ClusterOf(d[i]))
  {
    hide ClusterOf, Members;
    MembersAre(d, ClusterKeyOf, ClusterOf(d[i]));
    assert StackedOn(d, i, d[i].handle);
  }

  /** The multiplicity counts the handles the user picked at a cluster. */
  lemma {:induction false} CountSkippedIs(d: Drawing, skip: set<Handle>, key: ClusterKey)
    requires DistinctHandles(d)
    ensures CountSkipped(d, skip, key) ==
      |set i | 0 <= i < |d| && d[i].handle in skip && ClusterOf(d[i]) == key :: d[i].handle|
  {
    hide ClusterOf;
    var all := set i | 0 <= i < |d| && d[i].handle in skip && ClusterOf(d[i]) == key :: d[i].handle;
    if d == [] {
      assert all == {};
    } else {
      var init, last := d[..|d| - 1], d[|d| - 1];
      CountSkippedIs(init, skip, key);
      var before := set i | 0 <= i < |init| && init[i].handle in skip && ClusterOf(init[i]) == key :: init[i].handle;
      assert forall i :: 0 <= i < |init| ==> init[i] == d[i];
      assert last.handle !in before;
      assert all == before + if last.handle in skip && ClusterOf(last) == key then {last.handle} else {};
    }
  }

  function ClusterBag(d: Drawing, full: set<Handle>): multiset<ClusterKey> {
    if d == [] then multiset{}
    else
      var last := d[|d| - 1];
      ClusterBag(d[..|d| - 1], full) + if last.handle in full then multiset{ClusterOf(last)} else multiset{}
  }

  ghost function PlacedAt(d: Drawing, full: set<Handle>, key: ClusterKey): set<int> {
    set i | 0 <= i < |d| && d[i].handle in full && ClusterOf(d[i]) == key
  }

  lemma PlacedOneMore(d: Drawing, full: set<Handle>, key: ClusterKey)
    requires d != []
    ensures var n := |d| - 1;
      PlacedAt(d, full, key) == PlacedAt(d[..n], full, key) +
        if d[n].handle in full && ClusterOf(d[n]) == key then {n} else {}
  {
    hide ClusterOf;
    assert forall i :: 0 <= i < |d| - 1 ==> d[..|d| - 1][i] == d[i];
  }

  /** The places of a group: a cluster key as often as entities of the group have it. */
  lemma {:induction false} BagCounts(d: Drawing, full: set<Handle>, key: ClusterKey)
    ensures ClusterBag(d, full)[key] == |set i | 0 <= i < |d| && d[i].handle in full && ClusterOf(d[i]) == key|
  {
    hide ClusterOf;
    if d == [] {
      assert PlacedAt(d, full, key) == {};
    } else {
      BagCounts(d[..|d| - 1], full, key);
      PlacedOneMore(d, full, key);
      var before := PlacedAt(d[..|d| - 1], full, key);
      assert |d| - 1 !in before;
      assert ClusterBag(d[..|d| - 1], full)[key] == |before|;
    }
    assert |PlacedAt(d, full, key)| == |set i | 0 <= i < |d| && d[i].handle in full && ClusterOf(d[i]) == key|;
  }

  /** A reported group: some raw match, witnessed and congruent to the template, expanded. */
  ghost predicate Reported(full: set<Handle>, d: Drawing, ts: seq<Entity>, skip: set<Handle>) {
    exists m: RawMatch :: HasWitness(m, d, ts, skip) && IsCongruent(m, d, ts, skip) && InDrawing(m, d)
      && InTemplate(m, ts) && Expands(full, m, d, ts, skip)
  }

  lemma WitnessedRoles(m: RawMatch, d: Drawing, ts: seq<Entity>, skip: set<Handle>)
    requires HasWitness(m, d, ts, skip) && InDrawing(m, d)
    ensures |m| == |ts| && InTemplate(m, ts) && forall p :: p in m ==> d[p.0].handle !in skip
  {
    var pose :| Witnessed(m, pose, d, ts, skip);
    hide pose.Apply, FingerprintMatches, FingerprintOf, pose.IsRigid;
    forall p | p in m ensures p.1 < |ts| && d[p.0].handle !in skip {
      var k :| 0 <= k < |m| && m[k] == p;
      assert Fits(d, ts, skip, m[k].0, m[k].1, pose.Apply(ts[m[k].1].centroid));
    }
  }

  method ExpandWitnessed(d: Drawing, ts: seq<Entity>, skip: set<Handle>, clusters: map<ClusterKey, seq<Handle>>,
                         m: RawMatch)
    returns (full: set<Handle>)
    requires AreBuckets(clusters, d, ClusterKeyOf) && HasWitness(m, d, ts, skip) && InDrawing(m, d)
    ensures Reported(full, d, ts, skip) && GroupOf(m, d) <= full
  {
    hide AreBuckets, HasWitness, IsCongruent, AllToppedUp, OnlyStacked;
    WitnessedRoles(m, d, ts, skip);
    WitnessedIsCongruent(m, d, ts, skip);
    full := ExpandMatch(d, ts, skip, clusters, m);
  }

  /** An entity of some group is stacked on the one at position `c`. */
  ghost predicate Shown(groups: seq<set<Handle>>, d: Drawing, c: nat) {
    c < |d| && exists i, h :: 0 <= i < |groups| && h in groups[i] && StackedOn(d, c, h)
  }

  /** The places noted include those of a group with the handle. */
  ghost predicate Placed(places: set<multiset<ClusterKey>>, d: Drawing, h: Handle) {
    exists full :: h in full && ClusterBag(d, full) in places
  }

  lemma PlacedIsShown(groups: seq<set<Handle>>, places: set<multiset<ClusterKey>>, d: Drawing, c: nat)
    requires Apart(groups, places, d) && c < |d| && Placed(places, d, d[c].handle)
    ensures Shown(groups, d, c)
  {
    hide ClusterBag, ClusterOf;
    var full :| d[c].handle in full && ClusterBag(d, full) in places;
    var i :| 0 <= i < |groups| && ClusterBag(d, groups[i]) == ClusterBag(d, full);
    var key := ClusterOf(d[c]);
    BagCounts(d, full, key);
    BagCounts(d, groups[i], key);
    assert c in PlacedAt(d, full, key);
    assert |PlacedAt(d, full, key)| > 0;
    var j :| j in PlacedAt(d, groups[i], key);
    assert StackedOn(d, c, d[j].handle);
  }

  /**
   The rigid scan. Soundness: every group reported expands a raw match that a plane isometry
   witnesses, and no two groups occupy the same places. Completeness: every entity that seeds an
   unmistaken match is in a reported group, or stacked on one that is.
   */
  method RigidGroups(d: Drawing, ts: seq<Entity>, skip: set<Handle>, nearby: Vec -> seq<nat>, norm: Vec -> real,
                     seed: nat, exclude: bool)
    returns (groups: seq<set<Handle>>)
    requires DistinctHandles(d) && IsBallQuery(d, nearby) && IsNorm(norm) && AxesGiven(d) && AxesGiven(ts)
    requires seed < |ts| && |ts| >= 2
    ensures forall i :: 0 <= i < |groups| ==> Reported(groups[i], d, ts, skip)
    ensures forall i, j :: 0 <= i < j < |groups| ==> ClusterBag(d, groups[i]) != ClusterBag(d, groups[j])
    ensures forall c: nat :: SeedsMatch(d, ts, skip, norm, exclude, seed, c) ==> Shown(groups, d, c)
  {
    hide DistinctHandles, IsBallQuery, AxesGiven, IsNorm, AreBuckets, HasWitness, Reported, SeedsMatch, Shown,
      IsCongruent, Apart, Placed;
    var raw := RawMatches(d, ts, skip, nearby, norm, seed, exclude);
    var clusters := BuildBuckets(d, ClusterKeyOf);
    groups := [];
    var places: set<multiset<ClusterKey>> := {};
    NothingApart(d);
    for n := 0 to |raw|
      invariant forall i :: 0 <= i < |groups| ==> Reported(groups[i], d, ts, skip)
      invariant Apart(groups, places, d)
      invariant forall k, h :: 0 <= k < n && h in GroupOf(raw[k], d) ==> Placed(places, d, h)
    {
      var full := ExpandWitnessed(d, ts, skip, clusters, raw[n]);
      groups, places := KeepPlace(groups, places, full, d);
    }
    forall c: nat | SeedsMatch(d, ts, skip, norm, exclude, seed, c) ensures Shown(groups, d, c) {
      assert Covered(raw, d, c);
      PlacedIsShown(groups, places, d, c);
    }
    ApartIs(groups, places, d);
  }

  /** Groups on different places, all of them noted. */
  ghost predicate Apart(groups: seq<set<Handle>>, places: set<multiset<ClusterKey>>, d: Drawing) {
    && (forall i :: 0 <= i < |groups| ==> ClusterBag(d, groups[i]) in places)
    && (forall b :: b in places ==> exists i :: 0 <= i < |groups| && ClusterBag(d, groups[i]) == b)
    && (forall i, j :: 0 <= i < j < |groups| ==> ClusterBag(d, groups[i]) != ClusterBag(d, groups[j]))
  }

  lemma NothingApart(d: Drawing)
    ensures Apart([], {}, d)
  {
  }

  lemma ApartIs(groups: seq<set<Handle>>, places: set<multiset<ClusterKey>>, d: Drawing)
    requires Apart(groups, places, d)
    ensures forall i, j :: 0 <= i < j < |groups| ==> ClusterBag(d, groups[i]) != ClusterBag(d, groups[j])
  {
  }

  /** Keeps a group unless its places are taken. */
  method KeepPlace(groups0: seq<set<Handle>>, places0: set<multiset<ClusterKey>>, full: set<Handle>, d: Drawing)
    returns (groups: seq<set<Handle>>, places: set<multiset<ClusterKey>>)
    requires Apart(groups0, places0, d)
    ensures Apart(groups, places, d)
    ensures groups == groups0 || groups == groups0 + [full]
    ensures forall h :: h in full || Placed(places0, d, h) ==> Placed(places, d, h)
  {
    hide ClusterBag;
    groups, places := groups0, places0;
    if full != {} {
      var bag := ClusterBag(d, full);
      if bag !in places {
        places := places + {bag};
        groups := groups + [full];
        assert groups[|groups0|] == full && forall i :: 0 <= i < |groups0| ==> groups[i] == groups0[i];
      }
    }
  }

  // ---- the whole call ----------------------------------------------------------------------------

  ghost function AcceptedHandles(d: Drawing, fp: Fingerprint): set<Handle> {
    set i | 0 <= i < |d| && Accepts(d, fp, d[i].handle) :: d[i].handle
  }

  lemma AcceptedAre(d: Drawing, fp: Fingerprint, found: seq<Handle>)
    requires NoRepeats(found) && forall h :: h in found <==> Accepts(d, fp, h)
    ensures |found| == |AcceptedHandles(d, fp)|
  {
    hide FingerprintMatches, FingerprintOf;
    ListedOnce(found, AcceptedHandles(d, fp));
  }

  lemma {:induction false} ListedOnce(hs: seq<Handle>, all: set<Handle>)
    requires NoRepeats(hs) && forall h :: h in hs <==> h in all
    ensures |hs| == |all|
  {
    if hs == [] {
      assert all == {};
    } else {
      var init, last := hs[..|hs| - 1], hs[|hs| - 1];
      assert hs == init + [last];
      assert forall i :: 0 <= i < |init| ==> init[i] == hs[i];
      ListedOnce(init, all - {last});
    }
  }

  /** The rarest template entity: the first with the fewest drawing handles in its fingerprint neighbourhood. */
  method RarestSeed(d: Drawing, ts: seq<Entity>) returns (seed: nat)
    requires ts != []
    ensures seed < |ts|
    ensures forall r :: 0 <= r < |ts| ==>
      |AcceptedHandles(d, FingerprintOf(ts[seed]))| <= |AcceptedHandles(d, FingerprintOf(ts[r]))|
  {
    hide FingerprintOf, Accepts, AcceptedHandles;
    var buckets := BuildBuckets(d, FingerprintKeyOf);
    seed := 0;
    var first := NeighbourHandles(d, buckets, FingerprintOf(ts[0]));
    AcceptedAre(d, FingerprintOf(ts[0]), first);
    var least := |first|;
    for k := 1 to |ts|
      invariant seed < k && least == |AcceptedHandles(d, FingerprintOf(ts[seed]))|
      invariant forall r :: 0 <= r < k ==> least <= |AcceptedHandles(d, FingerprintOf(ts[r]))|
    {
      var found := NeighbourHandles(d, buckets, FingerprintOf(ts[k]));
      AcceptedAre(d, FingerprintOf(ts[k]), found);
      if |found| < least { seed, least := k, |found|; }
    }
  }

  /** For a rarest seed, every entity that seeds an unmistaken match is shown in a group. */
  ghost predicate AllShown(groups: seq<set<Handle>>, d: Drawing, ts: seq<Entity>, skip: set<Handle>,
                           norm: Vec -> real, exclude: bool)
    requires |ts| >= 2
  {
    exists seed: nat :: seed < |ts|
      && (forall r :: 0 <= r < |ts| ==>
            |AcceptedHandles(d, FingerprintOf(ts[seed]))| <= |AcceptedHandles(d, FingerprintOf(ts[r]))|)
      && forall c: nat :: SeedsMatch(d, ts, skip, norm, exclude, seed, c) ==> Shown(groups, d, c)
  }

  /** Groups, or the single-entity scan's lists, or the error of stacking no centroids. */
  datatype Found = Groups(groups: seq<set<Handle>>) | Single(output: Output) | NothingToStack

  /**
   `_match_multi`, which its callers run on templates of at least two entities: one that collapses
   to a single entity is scanned as such, any other gives witnessed groups on distinct places.
   */
  method MatchMulti(d: Drawing, given: seq<Entity>, skip: set<Handle>, nearby: Vec -> seq<nat>, norm: Vec -> real,
                    exclude: bool, g: Geometry, tol: real, s: Settings, nJobs: int) returns (found: Found)
    requires DistinctHandles(d) && IsBallQuery(d, nearby) && IsNorm(norm) && AxesGiven(d) && AxesGiven(given)
    requires |given| >= 2
    ensures |FirstOfEach(given)| == 1 ==> found == Single(Serial(g, FirstOfEach(given)[0], d, skip, tol, s))
    ensures |FirstOfEach(given)| > 1 && d == [] ==> found == NothingToStack
    ensures |FirstOfEach(given)| > 1 && d != [] ==>
      && found.Groups?
      && (forall i :: 0 <= i < |found.groups| ==> Reported(found.groups[i], d, FirstOfEach(given), skip))
      && (forall i, j :: 0 <= i < j < |found.groups| ==>
            ClusterBag(d, found.groups[i]) != ClusterBag(d, found.groups[j]))
      && AllShown(found.groups, d, FirstOfEach(given), skip, norm, exclude)
  {
    hide DistinctHandles, IsBallQuery, IsNorm, Reported, Serial, ClusterOf, ClusterBag, SeedsMatch, Shown,
      AcceptedHandles, FirstOfEach, FingerprintOf, Orthonormal;
    var ts := DedupeTemplateShapes(given);
    assert given[0] in given;
    if |ts| == 1 {
      var output := MatchSingle(g, ts[0], d, skip, tol, s, nJobs);
      return Single(output);
    }
    if d == [] { return NothingToStack; }
    var seed := RarestSeed(d, ts);
    var groups := RigidGroups(d, ts, skip, nearby, norm, seed, exclude);
    return Groups(groups);
  }

  /** At least one handle per role and at most the sum of the role multiplicities. */
  lemma GroupSize(full: set<Handle>, m: RawMatch, d: Drawing, ts: seq<Entity>, skip: set<Handle>)
    requires DistinctHandles(d) && HasWitness(m, d, ts, skip) && InDrawing(m, d) && InTemplate(m, ts)
    requires Expands(full, m, d, ts, skip)
    ensures |ts| <= |full| <= TotalMultiplicity(m, d, ts, skip)
    ensures full * skip == {} && GroupOf(m, d) <= full
  {
    WitnessedRoles(m, d, ts, skip);
    var pose :| Witnessed(m, pose, d, ts, skip);
    forall p | p in m ensures d[p.0].handle in full { assert d[p.0].handle in GroupOf(m, d); }
    DistinctPlacesGiveHandles(m, d, full);
  }

  lemma {:induction false} DistinctPlacesGiveHandles(m: RawMatch, d: Drawing, full: set<Handle>)
    requires DistinctHandles(d) && InDrawing(m, d) && DistinctPlaces(m) && forall p :: p in m ==> d[p.0].handle in full
    ensures |m| <= |full|
  {
    if m != [] {
      var init, last := m[..|m| - 1], m[|m| - 1];
      var h := d[last.0].handle;
      forall p | p in init ensures d[p.0].handle in full - {h} {
        var k :| 0 <= k < |init| && init[k] == p;
        assert m[k] == p && m[k].0 != last.0;
      }
      DistinctPlacesGiveHandles(init, d, full - {h});
      assert last in m;
    }
  }
}
