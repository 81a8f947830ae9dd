/**
 The matcher's bucket indexes (app/matching.py): what a lookup in neighbouring buckets can
 return, which for circles bounds the radius error and for fingerprints is exactly the ±1 test.
 */
module BucketLookups {
  import opened Wrappers
  import opened Rounding
  import opened Entities

  // ---- buckets -----------------------------------------------------------------------------

  /** The handles filed under `k`, in drawing order. */
  function Members<K(==)>(d: Drawing, key: Entity -> Option<K>, k: K): seq<Handle> {
    if d == [] then []
    else Members(d[..|d| - 1], key, k) + if key(d[|d| - 1]) == Some(k) then [d[|d| - 1].handle] else []
  }

  ghost predicate AreBuckets<K(!new)>(buckets: map<K, seq<Handle>>, d: Drawing, key: Entity -> Option<K>) {
    && (forall k :: k in buckets <==> Members(d, key, k) != [])
    && (forall k :: k in buckets ==> buckets[k] == Members(d, key, k))
  }

  lemma FileOneMore<K(!new)>(buckets: map<K, seq<Handle>>, d: Drawing, i: nat, key: Entity -> Option<K>)
    requires i < |d| && AreBuckets(buckets, d[..i], key)
    ensures AreBuckets(match key(d[i])
                       case None => buckets
                       case Some(k) => buckets[k := (if k in buckets then buckets[k] else []) + [d[i].handle]],
                       d[..i + 1], key)
  {
    assert d[..i + 1][..i] == d[..i];
  }

  /** Files the handle of every entity that has a key under it. */
  method BuildBuckets<K(!new, ==)>(d: Drawing, key: Entity -> Option<K>) returns (buckets: map<K, seq<Handle>>)
    ensures AreBuckets(buckets, d, key)
  {
    buckets := map[];
    for i := 0 to |d|
      invariant AreBuckets(buckets, d[..i], key)
    {
      FileOneMore(buckets, d, i, key);
      match key(d[i]) {
        case None =>
        case Some(k) => buckets := buckets[k := (if k in buckets then buckets[k] else []) + [d[i].handle]];
      }
    }
    assert d[..|d|] == d;
  }

  ghost predicate NoRepeats(hs: seq<Handle>) { forall i, j :: 0 <= i < j < |hs| ==> hs[i] != hs[j] }

  lemma {:induction false} MembersAre<K>(d: Drawing, key: Entity -> Option<K>, k: K)
    ensures forall h :: h in Members(d, key, k) <==>
      exists i :: 0 <= i < |d| && d[i].handle == h && key(d[i]) == Some(k)
  {
    if d != [] {
      var init := d[..|d| - 1];
      MembersAre(init, key, k);
      forall h ensures h in Members(d, key, k) <==>
        exists i :: 0 <= i < |d| && d[i].handle == h && key(d[i]) == Some(k)
      {
        if h in Members(init, key, k) {
          var i :| 0 <= i < |init| && init[i].handle == h && key(init[i]) == Some(k);
          assert d[i] == init[i];
        }
        if i :| 0 <= i < |d| && d[i].handle == h && key(d[i]) == Some(k) {
          if i < |init| { assert init[i] == d[i]; }
        }
      }
    }
  }

  lemma JoinedDoNotRepeat(a: seq<Handle>, b: seq<Handle>)
    requires NoRepeats(a) && NoRepeats(b) && forall h :: h in a ==> h !in b
    ensures NoRepeats(a + b)
  {
    forall i, j | 0 <= i < j < |a + b| ensures (a + b)[i] != (a + b)[j] {
      assert i < |a| <= j ==> a[i] in a && b[j - |a|] in b;
    }
  }

  lemma {:induction false} MembersDoNotRepeat<K>(d: Drawing, key: Entity -> Option<K>, k: K)
    requires DistinctHandles(d)
    ensures NoRepeats(Members(d, key, k))
  {
    if d != [] {
      var init, last := d[..|d| - 1], d[|d| - 1];
      MembersDoNotRepeat(init, key, k);
      MembersAre(init, key, k);
      assert last.handle !in Members(init, key, k);
      JoinedDoNotRepeat(Members(init, key, k), [last.handle]);
    }
  }

  /** A handle is filed under one key only. */
  lemma OneKey<K>(d: Drawing, key: Entity -> Option<K>, k: K, m: K, h: Handle)
    requires DistinctHandles(d) && h in Members(d, key, k) && h in Members(d, key, m)
    ensures k == m
  {
    MembersAre(d, key, k);
    MembersAre(d, key, m);
  }

  // ---- circles by radius ---------------------------------------------------------------------

  function RadiusKeyOf(e: Entity): Option<int> {
    if !e.isCircle || e.radius <= 0.0 then None else Some(RadiusKey(e.radius))
  }

  function Bucket<K(==)>(buckets: map<K, seq<Handle>>, k: K): seq<Handle> { if k in buckets then buckets[k] else [] }

  /** A circle of the drawing whose bucket is the template's or one next to it. */
  ghost predicate IsNearCircle(d: Drawing, radius: real, h: Handle) {
    exists i :: 0 <= i < |d| && d[i].handle == h && d[i].isCircle && d[i].radius > 0.0
      && -1 <= RadiusKey(d[i].radius) - RadiusKey(radius) <= 1
  }

  /** Filed under one of the keys from `lo` up to, not including, `hi`. */
  ghost predicate InRange(d: Drawing, lo: int, hi: int, h: Handle) {
    exists k :: lo <= k < hi && h in Members(d, RadiusKeyOf, k)
  }

  lemma NextBucket(d: Drawing, lo: int, k: int, hits: seq<Handle>)
    requires DistinctHandles(d) && lo <= k && NoRepeats(hits) && forall h :: h in hits <==> InRange(d, lo, k, h)
    ensures NoRepeats(hits + Members(d, RadiusKeyOf, k))
    ensures forall h :: h in hits + Members(d, RadiusKeyOf, k) <==> InRange(d, lo, k + 1, h)
  {
    hide Members, DistinctHandles;
    var more := Members(d, RadiusKeyOf, k);
    MembersDoNotRepeat(d, RadiusKeyOf, k);
    forall h | h in hits ensures h !in more {
      var m :| lo <= m < k && h in Members(d, RadiusKeyOf, m);
      if h in more { OneKey(d, RadiusKeyOf, m, k, h); }
    }
    JoinedDoNotRepeat(hits, more);
    forall h ensures h in hits + more <==> InRange(d, lo, k + 1, h) {
      if h in hits { assert InRange(d, lo, k, h); }
    }
  }

  method LookUpCircles(d: Drawing, radius: real) returns (hits: seq<Handle>)
    requires DistinctHandles(d)
    ensures NoRepeats(hits) && forall h :: h in hits <==> IsNearCircle(d, radius, h)
  {
    hide InRange, NoRepeats, IsNearCircle, Members;
    var key := RadiusKey(radius);
    var buckets := BuildBuckets(d, RadiusKeyOf);
    hits := [];
    NothingYet(d, key - 1);
    for k := key - 1 to key + 2
      invariant NoRepeats(hits)
      invariant forall h :: h in hits <==> InRange(d, key - 1, k, h)
    {
      NextBucket(d, key - 1, k, hits);
      assert Bucket(buckets, k) == Members(d, RadiusKeyOf, k);
      hits := hits + Bucket(buckets, k);
    }
    forall h ensures IsNearCircle(d, radius, h) <==> InRange(d, key - 1, key + 2, h) { NearCirclesAre(d, radius, h); }
  }

  lemma NothingYet(d: Drawing, lo: int)
    ensures NoRepeats([]) && forall h :: !InRange(d, lo, lo, h)
  {
  }

  lemma NearCirclesAre(d: Drawing, radius: real, h: Handle)
    ensures IsNearCircle(d, radius, h) <==> InRange(d, RadiusKey(radius) - 1, RadiusKey(radius) + 2, h)
  {
    hide RadiusKey, Members;
    var key := RadiusKey(radius);
    if IsNearCircle(d, radius, h) {
      var i :| 0 <= i < |d| && d[i].handle == h && d[i].isCircle && d[i].radius > 0.0
        && -1 <= RadiusKey(d[i].radius) - RadiusKey(radius) <= 1;
      var k := RadiusKey(d[i].radius);
      MembersAre(d, RadiusKeyOf, k);
      assert RadiusKeyOf(d[i]) == Some(k);
      assert key - 1 <= k < key + 2 && h in Members(d, RadiusKeyOf, k);
    }
    if InRange(d, key - 1, key + 2, h) {
      var k :| key - 1 <= k < key + 2 && h in Members(d, RadiusKeyOf, k);
      MembersAre(d, RadiusKeyOf, k);
      var i :| 0 <= i < |d| && d[i].handle == h && RadiusKeyOf(d[i]) == Some(k);
      assert d[i].isCircle && d[i].radius > 0.0 && RadiusKey(d[i].radius) == k;
    }
  }

  method MatchSingleCircle(d: Drawing, radius: real, skip: set<Handle>) returns (matches: seq<Handle>)
    requires DistinctHandles(d)
    ensures NoRepeats(matches)
    ensures forall h :: h in matches <==> h !in skip && IsNearCircle(d, radius, h)
  {
    var hits := LookUpCircles(d, radius);
    matches := [];
    for i := 0 to |hits|
      invariant NoRepeats(matches)
      invariant forall h :: h in matches <==> h !in skip && h in hits[..i]
    {
      hide IsNearCircle;
      if hits[i] !in skip { matches := matches + [hits[i]]; }
    }
    assert hits[..|hits|] == hits;
  }

  /** Bucketing bounds the error: under 1e-4 always a hit, and no hit is off by more than 2e-4. */
  lemma CircleErrorIsBounded(r: real, t: real)
    ensures -0.0001 < r - t < 0.0001 ==> -1 <= RadiusKey(r) - RadiusKey(t) <= 1
    ensures -1 <= RadiusKey(r) - RadiusKey(t) <= 1 ==> -0.0002 <= r - t <= 0.0002
  {
    RoundSteps(r * RADIUS_KEY_SCALE, t * RADIUS_KEY_SCALE);
  }

  /** The same for a whole lookup: every circle closer than 1e-4 is found, every one found is within 2e-4. */
  lemma CircleLookupIsSound(d: Drawing, t: real, i: nat)
    requires DistinctHandles(d) && i < |d| && d[i].isCircle && d[i].radius > 0.0
    ensures -0.0001 < d[i].radius - t < 0.0001 ==> IsNearCircle(d, t, d[i].handle)
    ensures IsNearCircle(d, t, d[i].handle) ==> -0.0002 <= d[i].radius - t <= 0.0002
  {
    CircleErrorIsBounded(d[i].radius, t);
    hide RadiusKey;
  }

  // ---- fingerprints ----------------------------------------------------------------------------

  function FingerprintKeyOf(e: Entity): Option<Fingerprint> { if e.isCircle then None else Some(FingerprintOf(e)) }

  /** The cells of the box around `fp` that come before the offset `(a, b, c)` in loop order. */
  predicate Before(fp: Fingerprint, cell: Fingerprint, a: int, b: int, c: int) {
    var (x, y, z) := (cell.0 - fp.0, cell.1 - fp.1, cell.2 - fp.2);
    && FingerprintMatches(fp, cell)
    && (x < a || (x == a && (y < b || (y == b && z < c))))
  }

  /** The 27 cells within one step in each dimension. */
  method FingerprintNeighbours(fp: Fingerprint) returns (cells: seq<Fingerprint>)
    ensures forall cell :: cell in cells <==> FingerprintMatches(fp, cell)
    ensures forall i, j :: 0 <= i < j < |cells| ==> cells[i] != cells[j]
    ensures |cells| == 27
  {
    cells := [];
    for a := -FINGERPRINT_NEIGHBOR to FINGERPRINT_NEIGHBOR + 1
      invariant forall cell :: cell in cells <==> Before(fp, cell, a, -1, -1)
      invariant forall i, j :: 0 <= i < j < |cells| ==> cells[i] != cells[j]
      invariant |cells| == (a + 1) * 9
    {
      for b := -FINGERPRINT_NEIGHBOR to FINGERPRINT_NEIGHBOR + 1
        invariant forall cell :: cell in cells <==> Before(fp, cell, a, b, -1)
        invariant forall i, j :: 0 <= i < j < |cells| ==> cells[i] != cells[j]
        invariant |cells| == (a + 1) * 9 + (b + 1) * 3
      {
        for c := -FINGERPRINT_NEIGHBOR to FINGERPRINT_NEIGHBOR + 1
          invariant forall cell :: cell in cells <==> Before(fp, cell, a, b, c)
          invariant forall i, j :: 0 <= i < j < |cells| ==> cells[i] != cells[j]
          invariant |cells| == (a + 1) * 9 + (b + 1) * 3 + (c + 1)
        {
          var cell := (fp.0 + a, fp.1 + b, fp.2 + c);
          assert !Before(fp, cell, a, b, c) && Before(fp, cell, a, b, c + 1);
          cells := cells + [cell];
        }
      }
    }
  }

  /** A non-circle entity the fingerprint test accepts. */
  ghost predicate Accepts(d: Drawing, fp: Fingerprint, h: Handle) {
    exists i :: 0 <= i < |d| && d[i].handle == h && !d[i].isCircle && FingerprintMatches(fp, FingerprintOf(d[i]))
  }

  /** Filed under one of the first `m` cells. */
  ghost predicate InCells(d: Drawing, cells: seq<Fingerprint>, m: nat, h: Handle)
    requires m <= |cells|
  {
    exists k :: 0 <= k < m && h in Members(d, FingerprintKeyOf, cells[k])
  }

  /** Appends the handles of a bucket that are not there yet. */
  method AppendUnseen(found0: seq<Handle>, bucket: seq<Handle>) returns (found: seq<Handle>)
    requires NoRepeats(found0)
    ensures NoRepeats(found) && forall h :: h in found <==> h in found0 || h in bucket
  {
    found := found0;
    for n := 0 to |bucket|
      invariant NoRepeats(found)
      invariant forall h :: h in found <==> h in found0 || h in bucket[..n]
    {
      if bucket[n] !in found { found := found + [bucket[n]]; }
    }
    assert bucket[..|bucket|] == bucket;
  }

  /** Enumerating the neighbour buckets yields, without repeats, exactly what the ±1 test accepts. */
  method NeighbourHandles(d: Drawing, buckets: map<Fingerprint, seq<Handle>>, fp: Fingerprint)
    returns (found: seq<Handle>)
    requires AreBuckets(buckets, d, FingerprintKeyOf)
    ensures NoRepeats(found) && forall h :: h in found <==> Accepts(d, fp, h)
  {
    hide Members, FingerprintMatches, Accepts, NoRepeats;
    var cells := FingerprintNeighbours(fp);
    found := [];
    NothingYet(d, 0);
    for m := 0 to |cells|
      invariant NoRepeats(found)
      invariant forall h :: h in found <==> InCells(d, cells, m, h)
    {
      assert Bucket(buckets, cells[m]) == Members(d, FingerprintKeyOf, cells[m]);
      found := AppendUnseen(found, Bucket(buckets, cells[m]));
    }
    AcceptedAreMembers(d, fp, cells);
  }

  lemma AcceptedAreMembers(d: Drawing, fp: Fingerprint, cells: seq<Fingerprint>)
    requires forall cell :: cell in cells <==> FingerprintMatches(fp, cell)
    ensures forall h :: Accepts(d, fp, h) <==> InCells(d, cells, |cells|, h)
  {
    hide FingerprintMatches, FingerprintOf, Members;
    forall h ensures Accepts(d, fp, h) <==> InCells(d, cells, |cells|, h) {
      if Accepts(d, fp, h) {
        var i :| 0 <= i < |d| && d[i].handle == h && !d[i].isCircle && FingerprintMatches(fp, FingerprintOf(d[i]));
        MembersAre(d, FingerprintKeyOf, FingerprintOf(d[i]));
        var k :| 0 <= k < |cells| && cells[k] == FingerprintOf(d[i]);
        assert h in Members(d, FingerprintKeyOf, cells[k]);
      }
      if k :| 0 <= k < |cells| && h in Members(d, FingerprintKeyOf, cells[k]) {
        MembersAre(d, FingerprintKeyOf, cells[k]);
        assert cells[k] in cells;
      }
    }
  }
}
