/**
 Single-entity matching (app/matching.py): the vectorised gate, the scan with its early
 break, and the scan split over worker processes.
 */
module SingleMatch {
  import opened Wrappers
  import opened Entities
  import opened Rounding

  /** Module-level tolerances, read at call time. */
  datatype Settings = Settings(pathLengthRatio: real, radiusRatio: real, sigmaTol: real, scaleMin: real, scaleMax: real)

  /** Resampled clouds, given: the mean radius of one, and the score of a pair under each sign variant. */
  datatype Geometry = Geometry(norm: Entity -> real, score: (Entity, Entity, nat) -> real)

  const SIGN_VARIANTS: nat := 4
  const MIN_ITEMS_PER_WORKER: nat := 200
  const DEGENERATE: real := 0.000000001

  datatype Reason = ScaleReason | ShapeReason

  datatype Verdict =
    | Match(handle: Handle, score: real, scale: real)
    | NearMiss(handle: Handle, score: real, scale: real, reason: Reason)

  datatype Output = Output(matches: seq<Verdict>, near: seq<Verdict>)

  const NOTHING := Output([], [])

  // ---- the gate -------------------------------------------------------------------------

  predicate OutsideRatio(a: real, b: real, ratio: real) {
    a > 0.0 && b > 0.0 && (a / b < 1.0 - ratio || a / b > 1.0 + ratio)
  }

  predicate SignaturesCompatible(a: Entity, b: Entity, s: Settings) {
    && a.vertexCount >= 2 && b.vertexCount >= 2
    && !OutsideRatio(a.pathLength, b.pathLength, s.pathLengthRatio)
    && !OutsideRatio(a.radius, b.radius, s.radiusRatio)
    && AbsReal(SigmaRatio(a) - SigmaRatio(b)) <= s.sigmaTol
  }

  /** The entities of a drawing compatible with a template, in drawing order. */
  function Compatible(t: Entity, d: Drawing, s: Settings): seq<Entity> {
    if d == [] then []
    else
      var before := Compatible(t, d[..|d| - 1], s);
      if SignaturesCompatible(t, d[|d| - 1], s) then before + [d[|d| - 1]] else before
  }

  /** Narrows the mask by one dimension: keep where the drawing's value is unset or in ratio. */
  method NarrowByRatio(mask: array<bool>, values: seq<real>, t: real, ratio: real)
    requires mask.Length == |values|
    modifies mask
    ensures forall i :: 0 <= i < mask.Length ==> (mask[i] <==> old(mask[i]) && !OutsideRatio(t, values[i], ratio))
  {
    if t > 0.0 {
      for i := 0 to mask.Length
        invariant forall k :: 0 <= k < i ==> (mask[k] <==> old(mask[k]) && !OutsideRatio(t, values[k], ratio))
        invariant forall k :: i <= k < mask.Length ==> mask[k] == old(mask[k])
      {
        mask[i] := mask[i] && (values[i] <= 0.0 || (t / values[i] >= 1.0 - ratio && t / values[i] <= 1.0 + ratio));
      }
    }
  }

  lemma CompatibleOneMore(t: Entity, d: Drawing, n: nat, s: Settings)
    requires n < |d|
    ensures Compatible(t, d[..n + 1], s) ==
            if SignaturesCompatible(t, d[n], s) then Compatible(t, d[..n], s) + [d[n]] else Compatible(t, d[..n], s)
  {
    assert d[..n + 1][..n] == d[..n];
  }

  /** The vectorised gate lets through exactly what `signatures_compatible` accepts, in order. */
  method GateCandidates(t: Entity, d: Drawing, s: Settings) returns (candidates: seq<Entity>)
    ensures candidates == Compatible(t, d, s)
  {
    if t.vertexCount < 2 {
      NoneCompatible(t, d, s);
      return [];
    }
    var mask := new bool[|d|](i requires 0 <= i < |d| => d[i].vertexCount >= 2);
    NarrowByRatio(mask, seq(|d|, i requires 0 <= i < |d| => d[i].pathLength), t.pathLength, s.pathLengthRatio);
    NarrowByRatio(mask, seq(|d|, i requires 0 <= i < |d| => d[i].radius), t.radius, s.radiusRatio);
    ghost var ratios := mask[..];
    for i := 0 to |d|
      invariant forall k :: 0 <= k < i ==> (mask[k] <==> SignaturesCompatible(t, d[k], s))
      invariant forall k :: i <= k < |d| ==> mask[k] == ratios[k]
    {
      mask[i] := mask[i] && AbsReal(SigmaRatio(t) - SigmaRatio(d[i])) <= s.sigmaTol;
    }
    candidates := [];
    for i := 0 to |d|
      invariant candidates == Compatible(t, d[..i], s)
      invariant forall k :: 0 <= k < |d| ==> (mask[k] <==> SignaturesCompatible(t, d[k], s))
    {
      hide SignaturesCompatible;
      CompatibleOneMore(t, d, i, s);
      if mask[i] { candidates := candidates + [d[i]]; }
    }
    assert d[..|d|] == d;
  }

  lemma {:induction false} NoneCompatible(t: Entity, d: Drawing, s: Settings)
    requires t.vertexCount < 2
    ensures Compatible(t, d, s) == []
  {
    if d != [] {
      NoneCompatible(t, d[..|d| - 1], s);
      assert !SignaturesCompatible(t, d[|d| - 1], s);
    }
  }

  // ---- the best sign variant ----------------------------------------------------------------

  /** Variants tried from `k` on, stopping at the first good enough. */
  function BestFrom(g: Geometry, t: Entity, e: Entity, tol: real, k: nat, best: real): real
    requires k <= SIGN_VARIANTS
    decreases SIGN_VARIANTS - k
  {
    if k == SIGN_VARIANTS then best
    else
      var d := g.score(t, e, k);
      if d < best then (if d <= tol then d else BestFrom(g, t, e, tol, k + 1, d))
        else BestFrom(g, t, e, tol, k + 1, best)
  }

  function Best(g: Geometry, t: Entity, e: Entity, tol: real): real {
    if g.score(t, e, 0) <= tol then g.score(t, e, 0) else BestFrom(g, t, e, tol, 1, g.score(t, e, 0))
  }

  lemma {:induction false} BestFromDecides(g: Geometry, t: Entity, e: Entity, tol: real, k: nat, best: real)
    requires k <= SIGN_VARIANTS && best > tol
    ensures BestFrom(g, t, e, tol, k, best) <= tol <==>
      exists v: nat :: k <= v < SIGN_VARIANTS && g.score(t, e, v) <= tol
    ensures BestFrom(g, t, e, tol, k, best) > tol ==>
      BestFrom(g, t, e, tol, k, best) <= best && forall v: nat :: k <= v < SIGN_VARIANTS ==>
        BestFrom(g, t, e, tol, k, best) <= g.score(t, e, v)
    decreases SIGN_VARIANTS - k
  {
    if k < SIGN_VARIANTS {
      var d := g.score(t, e, k);
      if d < best {
        if d > tol { BestFromDecides(g, t, e, tol, k + 1, d); }
      } else {
        BestFromDecides(g, t, e, tol, k + 1, best);
      }
    }
  }

  /**
   The early break never changes a verdict: the score is within tolerance exactly when some
   variant's is, and a near miss carries the least score of all four.
   */
  lemma EarlyBreakKeepsVerdict(g: Geometry, t: Entity, e: Entity, tol: real)
    ensures Best(g, t, e, tol) <= tol <==> exists v: nat :: v < SIGN_VARIANTS && g.score(t, e, v) <= tol
    ensures Best(g, t, e, tol) > tol ==> forall v: nat :: v < SIGN_VARIANTS ==> Best(g, t, e, tol) <= g.score(t, e, v)
  {
    if g.score(t, e, 0) > tol { BestFromDecides(g, t, e, tol, 1, g.score(t, e, 0)); }
  }

  method BestVariant(g: Geometry, t: Entity, e: Entity, tol: real) returns (best: real)
    ensures best == Best(g, t, e, tol)
  {
    best := g.score(t, e, 0);
    if best <= tol { return; }
    var k := 1;
    while k < SIGN_VARIANTS
      invariant 1 <= k <= SIGN_VARIANTS && BestFrom(g, t, e, tol, k, best) == Best(g, t, e, tol)
    {
      var d := g.score(t, e, k);
      if d < best {
        best := d;
        if best <= tol { break; }
      }
      k := k + 1;
    }
  }

  // ---- the serial scan ------------------------------------------------------------------------

  /** What one candidate contributes. */
  function Judged(g: Geometry, t: Entity, e: Entity, tol: real, s: Settings): Option<Verdict> {
    if e.pointCount < 2 || g.norm(e) < DEGENERATE then None
    else
      var scale := g.norm(t) / g.norm(e);
      if scale < s.scaleMin || scale > s.scaleMax then Some(NearMiss(e.handle, 0.0, scale, ScaleReason))
      else
        var best := Best(g, t, e, tol);
        Some(if best <= tol then Match(e.handle, best, scale) else NearMiss(e.handle, best, scale, ShapeReason))
  }

  function Added(out: Output, v: Option<Verdict>): Output {
    match v
    case None => out
    case Some(m) => if m.Match? then out.(matches := out.matches + [m]) else out.(near := out.near + [m])
  }

  function Scanned(g: Geometry, t: Entity, d: Drawing, skip: set<Handle>, tol: real, s: Settings): Output {
    if d == [] then NOTHING
    else
      var e := d[|d| - 1];
      var before := Scanned(g, t, d[..|d| - 1], skip, tol, s);
      if SignaturesCompatible(t, e, s) && e.handle !in skip then Added(before, Judged(g, t, e, tol, s)) else before
  }

  /** The serial result: nothing for a degenerate template. */
  function Serial(g: Geometry, t: Entity, d: Drawing, skip: set<Handle>, tol: real, s: Settings): Output {
    if t.vertexCount < 2 || g.norm(t) < DEGENERATE then NOTHING else Scanned(g, t, d, skip, tol, s)
  }

  function ScanList(g: Geometry, t: Entity, cs: seq<Entity>, skip: set<Handle>, tol: real, s: Settings): Output {
    if cs == [] then NOTHING
    else
      var e := cs[|cs| - 1];
      var before := ScanList(g, t, cs[..|cs| - 1], skip, tol, s);
      if e.handle in skip then before else Added(before, Judged(g, t, e, tol, s))
  }

  /** Gating first and scanning the candidates is scanning the drawing. */
  lemma {:induction false} GateThenScan(g: Geometry, t: Entity, d: Drawing, skip: set<Handle>, tol: real, s: Settings)
    ensures ScanList(g, t, Compatible(t, d, s), skip, tol, s) == Scanned(g, t, d, skip, tol, s)
  {
    hide Judged, Added, SignaturesCompatible;
    if d != [] {
      GateThenScan(g, t, d[..|d| - 1], skip, tol, s);
      var init := Compatible(t, d[..|d| - 1], s);
      assert (init + [d[|d| - 1]])[..|init|] == init;
    }
  }

  method MatchSingleSerial(g: Geometry, t: Entity, d: Drawing, skip: set<Handle>, tol: real, s: Settings)
    returns (out: Output)
    ensures out == Serial(g, t, d, skip, tol, s)
  {
    out := NOTHING;
    if t.vertexCount < 2 { return; }
    var tNorm := g.norm(t);
    if tNorm < DEGENERATE { return; }
    var candidates := GateCandidates(t, d, s);
    for i := 0 to |candidates|
      invariant out == ScanList(g, t, candidates[..i], skip, tol, s)
    {
      var e := candidates[i];
      assert candidates[..i + 1][..i] == candidates[..i];
      if e.handle in skip { continue; }
      if e.pointCount < 2 { continue; }
      var cNorm := g.norm(e);
      if cNorm < DEGENERATE { continue; }
      var scale := tNorm / cNorm;
      if scale < s.scaleMin || scale > s.scaleMax {
        out := out.(near := out.near + [NearMiss(e.handle, 0.0, scale, ScaleReason)]);
        continue;
      }
      var best := BestVariant(g, t, e, tol);
      if best <= tol {
        out := out.(matches := out.matches + [Match(e.handle, best, scale)]);
      } else {
        out := out.(near := out.near + [NearMiss(e.handle, best, scale, ShapeReason)]);
      }
    }
    assert candidates[..|candidates|] == candidates;
    GateThenScan(g, t, d, skip, tol, s);
  }

  // ---- the sharded scan --------------------------------------------------------------------------

  function Joined(a: Output, b: Output): Output { Output(a.matches + b.matches, a.near + b.near) }

  lemma {:induction false} ScanOfConcat(g: Geometry, t: Entity, a: Drawing, b: Drawing, skip: set<Handle>, tol: real,
                                        s: Settings)
    ensures Scanned(g, t, a + b, skip, tol, s) == Joined(Scanned(g, t, a, skip, tol, s), Scanned(g, t, b, skip, tol, s))
  {
    hide Judged, SignaturesCompatible;
    if b == [] {
      assert a + b == a;
    } else {
      ScanOfConcat(g, t, a, b[..|b| - 1], skip, tol, s);
      assert (a + b)[..|a + b| - 1] == a + b[..|b| - 1];
    }
  }

  function Unskipped(d: Drawing, skip: set<Handle>): Drawing {
    if d == [] then []
    else
      var before := Unskipped(d[..|d| - 1], skip);
      if d[|d| - 1].handle in skip then before else before + [d[|d| - 1]]
  }

  lemma {:induction false} SkippingFirst(g: Geometry, t: Entity, d: Drawing, skip: set<Handle>, tol: real, s: Settings)
    ensures Scanned(g, t, Unskipped(d, skip), {}, tol, s) == Scanned(g, t, d, skip, tol, s)
  {
    hide Judged, SignaturesCompatible, Added;
    if d != [] {
      SkippingFirst(g, t, d[..|d| - 1], skip, tol, s);
      var init := Unskipped(d[..|d| - 1], skip);
      assert (init + [d[|d| - 1]])[..|init|] == init;
    }
  }

  // ---- what the lists say about the entities ------------------------------------------------------

  /** Where both are positive, `a` is `b` up to the given share. */
  predicate InRatio(a: real, b: real, share: real) {
    a > 0.0 && b > 0.0 ==> 1.0 - share <= a / b <= 1.0 + share
  }

  /** Unskipped, two points at least on both sides, scalars in tolerance, neither cloud degenerate. */
  ghost predicate IsTried(g: Geometry, t: Entity, e: Entity, skip: set<Handle>, s: Settings) {
    && e.handle !in skip
    && t.vertexCount >= 2 && e.vertexCount >= 2 && e.pointCount >= 2
    && InRatio(t.pathLength, e.pathLength, s.pathLengthRatio) && InRatio(t.radius, e.radius, s.radiusRatio)
    && -s.sigmaTol <= (if t.sigma1 > 0.0 then t.sigma2 / t.sigma1 else 0.0)
                      - (if e.sigma1 > 0.0 then e.sigma2 / e.sigma1 else 0.0) <= s.sigmaTol
    && g.norm(t) >= 0.000000001 && g.norm(e) >= 0.000000001
  }

  /** The score is the first within the tolerance. */
  ghost predicate IsFirstGood(g: Geometry, t: Entity, e: Entity, tol: real, score: real) {
    exists k: nat :: k < 4 && score == g.score(t, e, k) <= tol && forall u: nat :: u < k ==> g.score(t, e, u) > tol
  }

  /** No score is within the tolerance and this is the least. */
  ghost predicate IsLeastBad(g: Geometry, t: Entity, e: Entity, tol: real, score: real) {
    && (forall u: nat :: u < 4 ==> g.score(t, e, u) > tol && score <= g.score(t, e, u))
    && exists k: nat :: k < 4 && score == g.score(t, e, k)
  }

  /** A match has a scale in the window and a score in tolerance; a near miss says which of the two it lacks. */
  ghost predicate IsVerdict(v: Verdict, g: Geometry, t: Entity, e: Entity, tol: real, s: Settings)
    requires g.norm(e) > 0.0
  {
    var scale := g.norm(t) / g.norm(e);
    && v.handle == e.handle && v.scale == scale
    && if scale < s.scaleMin || scale > s.scaleMax then v.NearMiss? && v.reason == ScaleReason && v.score == 0.0
       else if exists u: nat :: u < 4 && g.score(t, e, u) <= tol then v.Match? && IsFirstGood(g, t, e, tol, v.score)
       else v.NearMiss? && v.reason == ShapeReason && IsLeastBad(g, t, e, tol, v.score)
  }

  lemma {:induction false} BestFromIs(g: Geometry, t: Entity, e: Entity, tol: real, k: nat, at: nat)
    requires 0 < k <= 4 && at < k
    requires forall u: nat :: u < k ==> g.score(t, e, u) > tol && g.score(t, e, at) <= g.score(t, e, u)
    ensures var best := BestFrom(g, t, e, tol, k, g.score(t, e, at));
      IsFirstGood(g, t, e, tol, best) || IsLeastBad(g, t, e, tol, best)
    decreases 4 - k
  {
    if k < 4 {
      if g.score(t, e, k) < g.score(t, e, at) {
        if g.score(t, e, k) > tol { BestFromIs(g, t, e, tol, k + 1, k); }
      } else {
        BestFromIs(g, t, e, tol, k + 1, at);
      }
    }
  }

  lemma BestIs(g: Geometry, t: Entity, e: Entity, tol: real)
    ensures var best := Best(g, t, e, tol);
      if exists u: nat :: u < 4 && g.score(t, e, u) <= tol then best <= tol && IsFirstGood(g, t, e, tol, best)
      else best > tol && IsLeastBad(g, t, e, tol, best)
  {
    EarlyBreakKeepsVerdict(g, t, e, tol);
    if g.score(t, e, 0) > tol { BestFromIs(g, t, e, tol, 1, 0); }
    hide BestFrom;
  }

  /** One entity: a verdict when it is tried, nothing otherwise. */
  lemma JudgedMeans(g: Geometry, t: Entity, e: Entity, skip: set<Handle>, tol: real, s: Settings)
    requires t.vertexCount >= 2 && g.norm(t) >= DEGENERATE
    ensures SignaturesCompatible(t, e, s) && e.handle !in skip && Judged(g, t, e, tol, s).Some? <==>
            IsTried(g, t, e, skip, s)
    ensures IsTried(g, t, e, skip, s) ==>
      Judged(g, t, e, tol, s).Some? && IsVerdict(Judged(g, t, e, tol, s).value, g, t, e, tol, s)
  {
    BestIs(g, t, e, tol);
    hide Best, IsFirstGood, IsLeastBad;
  }

  ghost predicate Increasing(places: seq<nat>, n: nat) {
    (forall i :: 0 <= i < |places| ==> places[i] < n) && forall i, j :: 0 <= i < j < |places| ==> places[i] < places[j]
  }

  /** The verdicts on the entities at these places, in order. */
  ghost predicate AreVerdicts(vs: seq<Verdict>, places: seq<nat>, g: Geometry, t: Entity, d: Drawing,
                              skip: set<Handle>, tol: real, s: Settings)
  {
    && |vs| == |places| && Increasing(places, |d|)
    && forall i :: 0 <= i < |vs| ==>
         places[i] < |d| && IsTried(g, t, d[places[i]], skip, s) && IsVerdict(vs[i], g, t, d[places[i]], tol, s)
  }

  /**
   The two lists from the drawing alone: the verdicts on exactly the entities that are tried, in
   drawing order, matches in one list and near misses in the other.
   */
  ghost predicate IsScan(out: Output, hits: seq<nat>, misses: seq<nat>, g: Geometry, t: Entity, d: Drawing,
                         skip: set<Handle>, tol: real, s: Settings)
  {
    && AreVerdicts(out.matches, hits, g, t, d, skip, tol, s) && AreVerdicts(out.near, misses, g, t, d, skip, tol, s)
    && (forall v :: v in out.matches ==> v.Match?) && (forall v :: v in out.near ==> v.NearMiss?)
    && forall p: nat :: p < |d| && IsTried(g, t, d[p], skip, s) ==> p in hits || p in misses
  }

  lemma OnePlaceMore(vs: seq<Verdict>, places: seq<nat>, v: Verdict, g: Geometry, t: Entity, d: Drawing,
                     skip: set<Handle>, tol: real, s: Settings)
    requires d != [] && AreVerdicts(vs, places, g, t, d[..|d| - 1], skip, tol, s)
    ensures AreVerdicts(vs, places, g, t, d, skip, tol, s)
    ensures var e := d[|d| - 1];
      IsTried(g, t, e, skip, s) && IsVerdict(v, g, t, e, tol, s) ==>
        AreVerdicts(vs + [v], places + [|d| - 1], g, t, d, skip, tol, s)
  {
    hide IsTried, IsVerdict;
    forall i | 0 <= i < |vs| ensures d[places[i]] == d[..|d| - 1][places[i]] {}
  }

  lemma {:induction false} ScannedMeans(g: Geometry, t: Entity, d: Drawing, skip: set<Handle>, tol: real, s: Settings)
    returns (hits: seq<nat>, misses: seq<nat>)
    requires t.vertexCount >= 2 && g.norm(t) >= DEGENERATE
    ensures IsScan(Scanned(g, t, d, skip, tol, s), hits, misses, g, t, d, skip, tol, s)
  {
    hits, misses := [], [];
    if d != [] {
      var n := |d| - 1;
      var init, last := d[..n], d[n];
      hits, misses := ScannedMeans(g, t, init, skip, tol, s);
      JudgedMeans(g, t, last, skip, tol, s);
      var before, out := Scanned(g, t, init, skip, tol, s), Scanned(g, t, d, skip, tol, s);
      var tried := IsTried(g, t, last, skip, s);
      var v := Judged(g, t, last, tol, s);
      assert out == if tried then Added(before, v) else before;
      hide Scanned, IsTried, Judged, SignaturesCompatible, AreVerdicts, IsVerdict;
      OnePlaceMore(before.matches, hits, if v.Some? then v.value else Match(0, 0.0, 0.0), g, t, d, skip, tol, s);
      OnePlaceMore(before.near, misses, if v.Some? then v.value else Match(0, 0.0, 0.0), g, t, d, skip, tol, s);
      forall p: nat | p < n && IsTried(g, t, d[p], skip, s) ensures p in hits || p in misses { assert init[p] == d[p]; }
      if tried {
        if v.value.Match? { hits := hits + [n]; } else { misses := misses + [n]; }
      }
    }
  }

  /** The serial result, told from the drawing alone. */
  lemma SerialMeans(g: Geometry, t: Entity, d: Drawing, skip: set<Handle>, tol: real, s: Settings)
    returns (hits: seq<nat>, misses: seq<nat>)
    ensures IsScan(Serial(g, t, d, skip, tol, s), hits, misses, g, t, d, skip, tol, s)
  {
    if t.vertexCount >= 2 && g.norm(t) >= DEGENERATE {
      hits, misses := ScannedMeans(g, t, d, skip, tol, s);
    } else {
      hits, misses := [], [];
    }
  }

  /** However many workers, the match and near-miss lists are the serial ones, in the same order. */
  method MatchSingle(g: Geometry, t: Entity, d: Drawing, skip: set<Handle>, tol: real, s: Settings, nJobs: int)
    returns (out: Output)
    ensures out == Serial(g, t, d, skip, tol, s)
    ensures exists hits, misses :: IsScan(out, hits, misses, g, t, d, skip, tol, s)
  {
    ghost var _, _ := SerialMeans(g, t, d, skip, tol, s);
    hide IsScan;
    if nJobs <= 1 {
      out := MatchSingleSerial(g, t, d, skip, tol, s);
      return;
    }
    var items := Unskipped(d, skip);
    if |items| < nJobs * MIN_ITEMS_PER_WORKER {
      out := MatchSingleSerial(g, t, d, skip, tol, s);
      return;
    }
    var chunk := (|items| + nJobs - 1) / nJobs;
    assert chunk >= 1 by { AtLeastOne(|items|, nJobs); }
    out := NOTHING;
    var i := 0;
    while i < |items|
      invariant 0 <= i <= |items|
      invariant out == Serial(g, t, items[..i], {}, tol, s)
    {
      hide Scanned, Unskipped;
      var end := if i + chunk < |items| then i + chunk else |items|;
      var part := MatchSingleSerial(g, t, items[i..end], {}, tol, s);
      ScanOfConcat(g, t, items[..i], items[i..end], {}, tol, s);
      assert items[..i] + items[i..end] == items[..end];
      out := Joined(out, part);
      i := end;
    }
    assert items[..|items|] == items;
    SkippingFirst(g, t, d, skip, tol, s);
  }

  lemma AtLeastOne(n: nat, jobs: int)
    requires jobs > 1 && n >= jobs * MIN_ITEMS_PER_WORKER
    ensures (n + jobs - 1) / jobs >= 1
  {
    assert n + jobs - 1 >= jobs;
  }
}
