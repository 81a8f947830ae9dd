/**
 The endpoint graph of Chain mode (app/static/canvas.js, `buildConnectivity`): a spatial
 hash of endpoints, joined over 3×3 cells, is exactly the relation "distinct eligible
 primitives with endpoints within the tolerance".
 */
module Connectivity {
  import opened Shapes

  const CONNECT_TOL: real := 0.01

  datatype Endpoint = Endpoint(idx: nat, at: Pt)

  type Cell = (int, int)

  // ---- the relation ------------------------------------------------------------------------

  function LayerOf(p: Prim): string { if p.layer == "" then "0" else p.layer }

  predicate Visible(p: Prim, hidden: set<string>) { !p.decorative && LayerOf(p) !in hidden }

  /** The endpoints a primitive offers: visible lines and visible open polylines of two or more points. */
  function Ends(p: Prim, hidden: set<string>): seq<Pt> {
    if !Visible(p, hidden) then []
    else
      match p.shape
      case Line(a, b) => [a, b]
      case Polyline(points, closed) =>
        if !closed && |points| >= 2 then [points[0], points[|points| - 1]] else []
      case _ => []
  }

  predicate Near(a: Pt, b: Pt) { Dist2(a, b) <= CONNECT_TOL * CONNECT_TOL }

  ghost predicate Connected(prims: seq<Prim>, hidden: set<string>, i: nat, j: nat) {
    && i < |prims| && j < |prims| && i != j
    && exists a, b :: a in Ends(prims[i], hidden) && b in Ends(prims[j], hidden) && Near(a, b)
  }

  /** A point at which the primitive can be joined, told from its fields. */
  ghost predicate Offers(p: Prim, hidden: set<string>, a: Pt) {
    && !p.decorative && (if p.layer == "" then "0" else p.layer) !in hidden
    && match p.shape
       case Line(x, y) => a == x || a == y
       case Polyline(points, closed) =>
         !closed && |points| >= 2 && (a == points[0] || a == points[|points| - 1])
       case _ => false
  }

  /** At most 0.01 apart. */
  ghost predicate IsClose(a: Pt, b: Pt) { (a.x - b.x) * (a.x - b.x) + (a.y - b.y) * (a.y - b.y) <= 0.0001 }

  /** Two primitives with joining points that are close. */
  ghost predicate Linked(prims: seq<Prim>, hidden: set<string>, i: nat, j: nat) {
    && i < |prims| && j < |prims| && i != j
    && exists a, b :: Offers(prims[i], hidden, a) && Offers(prims[j], hidden, b) && IsClose(a, b)
  }

  lemma NearMeansClose(a: Pt, b: Pt)
    ensures Near(a, b) <==> IsClose(a, b)
  {
    var dx, dy := a.x - b.x, a.y - b.y;
    assert (-dx) * (-dx) == dx * dx && (-dy) * (-dy) == dy * dy;
  }

  lemma EndsMeanOffers(p: Prim, hidden: set<string>)
    ensures forall a :: a in Ends(p, hidden) <==> Offers(p, hidden, a)
  {
  }

  /** The relation, told from the fields of the primitives. */
  lemma ConnectedMeansLinked(prims: seq<Prim>, hidden: set<string>, i: nat, j: nat)
    ensures Connected(prims, hidden, i, j) <==> Linked(prims, hidden, i, j)
  {
    if i < |prims| && j < |prims| {
      EndsMeanOffers(prims[i], hidden);
      EndsMeanOffers(prims[j], hidden);
      forall a, b ensures Near(a, b) <==> IsClose(a, b) { NearMeansClose(a, b); }
      hide Ends, Offers, Near, IsClose;
    }
  }

  lemma ConnectedIsSymmetric(prims: seq<Prim>, hidden: set<string>, i: nat, j: nat)
    requires Connected(prims, hidden, i, j)
    ensures Connected(prims, hidden, j, i)
  {
    var a, b :| a in Ends(prims[i], hidden) && b in Ends(prims[j], hidden) && Near(a, b);
    NearIsSymmetric(a, b);
  }

  lemma NearIsSymmetric(a: Pt, b: Pt)
    requires Near(a, b)
    ensures Near(b, a)
  {
    var dx, dy := b.x - a.x, b.y - a.y;
    assert (-dx) * (-dx) == dx * dx && (-dy) * (-dy) == dy * dy;
  }

  // ---- cells ----------------------------------------------------------------------------------

  /** `Math.round`: halves go up. */
  function Round(v: real): int { (v + 0.5).Floor }

  function CellOf(p: Pt): Cell { (Round(p.x / CONNECT_TOL), Round(p.y / CONNECT_TOL)) }

  lemma RoundSteps(u: real, v: real)
    requires -1.0 <= v - u <= 1.0
    ensures -1 <= Round(v) - Round(u) <= 1
  {
  }

  lemma AxisBound(d: real, e: real)
    requires d * d + e * e <= CONNECT_TOL * CONNECT_TOL
    ensures -CONNECT_TOL <= d <= CONNECT_TOL
  {
    assert e * e >= 0.0 && (-d) * (-d) == d * d;
    if d > CONNECT_TOL {
      Larger(d, CONNECT_TOL);
    } else if d < -CONNECT_TOL {
      Larger(-d, CONNECT_TOL);
    }
  }

  lemma Larger(a: real, b: real)
    requires a > b > 0.0
    ensures a * a > b * b
  {
    assert (a - b) * (a + b) > 0.0 by { assert a - b > 0.0 && a + b > 0.0; }
    assert (a - b) * (a + b) == a * a - b * b;
  }

  /** The 3×3 block of cells around an endpoint holds every endpoint within the tolerance. */
  lemma NearIsInBlock(a: Pt, b: Pt)
    requires Near(a, b)
    ensures -1 <= CellOf(b).0 - CellOf(a).0 <= 1 && -1 <= CellOf(b).1 - CellOf(a).1 <= 1
  {
    AxisBound(b.x - a.x, b.y - a.y);
    AxisBound(b.y - a.y, b.x - a.x);
    assert b.x / CONNECT_TOL - a.x / CONNECT_TOL == (b.x - a.x) / CONNECT_TOL;
    assert b.y / CONNECT_TOL - a.y / CONNECT_TOL == (b.y - a.y) / CONNECT_TOL;
    RoundSteps(a.x / CONNECT_TOL, b.x / CONNECT_TOL);
    RoundSteps(a.y / CONNECT_TOL, b.y / CONNECT_TOL);
  }

  // ---- collecting endpoints ----------------------------------------------------------------------

  /** `endpoints` lists exactly the ends of the first `n` primitives. */
  ghost predicate ListsEnds(prims: seq<Prim>, hidden: set<string>, n: nat, endpoints: seq<Endpoint>) {
    forall e :: e in endpoints <==> e.idx < n && e.idx < |prims| && e.at in Ends(prims[e.idx], hidden)
  }

  /** Each endpoint is in the cell of its position and nowhere else. */
  ghost predicate Hashed(cells: map<Cell, seq<Endpoint>>, endpoints: seq<Endpoint>) {
    forall c, e :: (c in cells && e in cells[c]) <==> (e in endpoints && c == CellOf(e.at))
  }

  function Filed(cells: map<Cell, seq<Endpoint>>, e: Endpoint): map<Cell, seq<Endpoint>> {
    var c := CellOf(e.at);
    cells[c := (if c in cells then cells[c] else []) + [e]]
  }

  lemma FiledIsHashed(cells: map<Cell, seq<Endpoint>>, endpoints: seq<Endpoint>, e: Endpoint)
    requires Hashed(cells, endpoints)
    ensures Hashed(Filed(cells, e), endpoints + [e])
  {
    hide CellOf;
    var c := CellOf(e.at);
    forall d, f ensures (d in Filed(cells, e) && f in Filed(cells, e)[d]) <==>
      (f in endpoints + [e] && d == CellOf(f.at))
    {
      assert (d in cells && f in cells[d]) <==> (f in endpoints && d == CellOf(f.at));
    }
  }

  method CollectEndpoints(prims: seq<Prim>, hidden: set<string>)
    returns (cells: map<Cell, seq<Endpoint>>, endpoints: seq<Endpoint>)
    ensures ListsEnds(prims, hidden, |prims|, endpoints) && Hashed(cells, endpoints)
  {
    cells, endpoints := map[], [];
    for i := 0 to |prims|
      invariant ListsEnds(prims, hidden, i, endpoints) && Hashed(cells, endpoints)
    {
      hide CellOf, Hashed, Filed;
      var p := prims[i];
      if Visible(p, hidden) {
        match p.shape {
          case Line(a, b) =>
            FiledIsHashed(cells, endpoints, Endpoint(i, a));
            cells, endpoints := Filed(cells, Endpoint(i, a)), endpoints + [Endpoint(i, a)];
            FiledIsHashed(cells, endpoints, Endpoint(i, b));
            cells, endpoints := Filed(cells, Endpoint(i, b)), endpoints + [Endpoint(i, b)];
          case Polyline(points, closed) =>
            if !closed && |points| >= 2 {
              var a, b := points[0], points[|points| - 1];
              FiledIsHashed(cells, endpoints, Endpoint(i, a));
              cells, endpoints := Filed(cells, Endpoint(i, a)), endpoints + [Endpoint(i, a)];
              FiledIsHashed(cells, endpoints, Endpoint(i, b));
              cells, endpoints := Filed(cells, Endpoint(i, b)), endpoints + [Endpoint(i, b)];
            }
          case _ =>
        }
      }
    }
  }

  // ---- joining --------------------------------------------------------------------------------------

  /** Every recorded pair is connected. */
  ghost predicate Sound(adj: seq<set<nat>>, prims: seq<Prim>, hidden: set<string>) {
    && |adj| == |prims|
    && forall i, j :: 0 <= i < |adj| && j in adj[i] ==> Connected(prims, hidden, i, j)
  }

  ghost predicate Grew(before: seq<set<nat>>, after: seq<set<nat>>) {
    && |after| == |before|
    && forall i :: 0 <= i < |before| ==> before[i] <= after[i]
  }

  /** Both directions of every near pair of `ep` with one of `others` are recorded. */
  ghost predicate Joined(adj: seq<set<nat>>, ep: Endpoint, others: seq<Endpoint>) {
    forall o :: o in others && o.idx != ep.idx && Near(o.at, ep.at) && ep.idx < |adj| ==> o.idx in adj[ep.idx]
  }

  lemma LinkIsConnected(prims: seq<Prim>, hidden: set<string>, endpoints: seq<Endpoint>, a: Endpoint, b: Endpoint)
    requires ListsEnds(prims, hidden, |prims|, endpoints) && a in endpoints && b in endpoints
    requires a.idx != b.idx && Near(b.at, a.at)
    ensures Connected(prims, hidden, a.idx, b.idx) && Connected(prims, hidden, b.idx, a.idx)
  {
    NearIsSymmetric(b.at, a.at);
    assert a.at in Ends(prims[a.idx], hidden) && b.at in Ends(prims[b.idx], hidden);
  }

  method JoinCell(adj: array<set<nat>>, ep: Endpoint, cell: seq<Endpoint>,
                  ghost prims: seq<Prim>, ghost hidden: set<string>, ghost endpoints: seq<Endpoint>)
    requires ListsEnds(prims, hidden, |prims|, endpoints) && ep in endpoints
    requires forall o :: o in cell ==> o in endpoints
    requires Sound(adj[..], prims, hidden)
    modifies adj
    ensures Sound(adj[..], prims, hidden) && Grew(old(adj[..]), adj[..]) && Joined(adj[..], ep, cell)
  {
    hide Near, Connected;
    for k := 0 to |cell|
      invariant Sound(adj[..], prims, hidden) && Grew(old(adj[..]), adj[..]) && Joined(adj[..], ep, cell[..k])
    {
      var other := cell[k];
      if other.idx != ep.idx && Near(other.at, ep.at) {
        LinkIsConnected(prims, hidden, endpoints, ep, other);
        ConnectedInRange(prims, hidden, ep.idx, other.idx);
        ghost var was := adj[..];
        adj[ep.idx] := adj[ep.idx] + {other.idx};
        adj[other.idx] := adj[other.idx] + {ep.idx};
        Recorded(was, adj[..], prims, hidden, ep.idx, other.idx);
      }
    }
    assert cell[..|cell|] == cell;
  }

  lemma ConnectedInRange(prims: seq<Prim>, hidden: set<string>, i: nat, j: nat)
    requires Connected(prims, hidden, i, j)
    ensures i < |prims| && j < |prims|
  {
  }

  lemma Recorded(was: seq<set<nat>>, now: seq<set<nat>>, prims: seq<Prim>, hidden: set<string>, i: nat, j: nat)
    requires Sound(was, prims, hidden) && i < |was| && j < |was| && i != j
    requires Connected(prims, hidden, i, j) && Connected(prims, hidden, j, i)
    requires now == was[i := was[i] + {j}][j := was[j] + {i}]
    ensures Sound(now, prims, hidden) && Grew(was, now) && j in now[i]
  {
  }

  /** One endpoint against its 3×3 block. */
  method JoinBlock(adj: array<set<nat>>, ep: Endpoint, cells: map<Cell, seq<Endpoint>>,
                   ghost prims: seq<Prim>, ghost hidden: set<string>, ghost endpoints: seq<Endpoint>)
    requires ListsEnds(prims, hidden, |prims|, endpoints) && ep in endpoints && Hashed(cells, endpoints)
    requires Sound(adj[..], prims, hidden)
    modifies adj
    ensures Sound(adj[..], prims, hidden) && Grew(old(adj[..]), adj[..]) && Joined(adj[..], ep, endpoints)
  {
    var (qx, qy) := CellOf(ep.at);
    for dx := -1 to 2
      invariant Sound(adj[..], prims, hidden) && Grew(old(adj[..]), adj[..])
      invariant forall c: Cell :: c in cells && qx - 1 <= c.0 < qx + dx && qy - 1 <= c.1 <= qy + 1 ==>
        Joined(adj[..], ep, cells[c])
    {
      for dy := -1 to 2
        invariant Sound(adj[..], prims, hidden) && Grew(old(adj[..]), adj[..])
        invariant forall c: Cell :: c in cells && qx - 1 <= c.0 < qx + dx && qy - 1 <= c.1 <= qy + 1 ==>
          Joined(adj[..], ep, cells[c])
        invariant forall c: Cell :: c in cells && c.0 == qx + dx && qy - 1 <= c.1 < qy + dy ==>
          Joined(adj[..], ep, cells[c])
      {
        hide ListsEnds, Sound, CellOf;
        var key := (qx + dx, qy + dy);
        if key in cells {
          ghost var was := adj[..];
          JoinCell(adj, ep, cells[key], prims, hidden, endpoints);
          forall c | c in cells && Joined(was, ep, cells[c]) ensures Joined(adj[..], ep, cells[c]) {
            JoinedStays(was, adj[..], ep, cells[c]);
          }
        }
      }
    }
    forall o | o in endpoints && o.idx != ep.idx && Near(o.at, ep.at) && ep.idx < adj.Length
      ensures o.idx in adj[ep.idx]
    {
      NearIsSymmetric(o.at, ep.at);
      NearIsInBlock(ep.at, o.at);
      assert CellOf(o.at) in cells && o in cells[CellOf(o.at)];
      assert Joined(adj[..], ep, cells[CellOf(o.at)]);
    }
  }

  lemma JoinedStays(was: seq<set<nat>>, now: seq<set<nat>>, ep: Endpoint, others: seq<Endpoint>)
    requires Grew(was, now) && Joined(was, ep, others)
    ensures Joined(now, ep, others)
  {
  }

  // ---- the whole graph ----------------------------------------------------------------------------------

  /** The adjacency sets are exactly the relation. */
  ghost predicate IsGraph(adj: seq<set<nat>>, prims: seq<Prim>, hidden: set<string>) {
    && |adj| == |prims|
    && forall i, j: nat :: 0 <= i < |adj| ==> (j in adj[i] <==> Connected(prims, hidden, i, j))
  }

  lemma CompleteIsGraph(adj: seq<set<nat>>, prims: seq<Prim>, hidden: set<string>, endpoints: seq<Endpoint>)
    requires Sound(adj, prims, hidden) && ListsEnds(prims, hidden, |prims|, endpoints)
    requires forall e :: e in endpoints ==> Joined(adj, e, endpoints)
    ensures IsGraph(adj, prims, hidden)
  {
    forall i, j: nat | 0 <= i < |adj| && Connected(prims, hidden, i, j) ensures j in adj[i] {
      var a, b :| a in Ends(prims[i], hidden) && b in Ends(prims[j], hidden) && Near(a, b);
      NearIsSymmetric(a, b);
      assert Endpoint(i, a) in endpoints && Endpoint(j, b) in endpoints;
      assert Joined(adj, Endpoint(i, a), endpoints);
    }
  }

  method BuildConnectivity(prims: seq<Prim>, hidden: set<string>) returns (adj: array<set<nat>>)
    ensures fresh(adj) && IsGraph(adj[..], prims, hidden)
    ensures adj.Length == |prims|
    ensures forall i, j: nat :: 0 <= i < adj.Length ==> (j in adj[i] <==> Linked(prims, hidden, i, j))
  {
    var cells, endpoints := CollectEndpoints(prims, hidden);
    adj := new set<nat>[|prims|](_ => {});
    for m := 0 to |endpoints|
      invariant Sound(adj[..], prims, hidden)
      invariant forall k :: 0 <= k < m ==> Joined(adj[..], endpoints[k], endpoints)
    {
      hide Sound, Joined, Hashed, ListsEnds, Grew;
      ghost var was := adj[..];
      JoinBlock(adj, endpoints[m], cells, prims, hidden, endpoints);
      forall k | 0 <= k < m ensures Joined(adj[..], endpoints[k], endpoints) {
        JoinedStays(was, adj[..], endpoints[k], endpoints);
      }
    }
    CompleteIsGraph(adj[..], prims, hidden, endpoints);
    GraphMeansLinked(adj[..], prims, hidden);
  }

  lemma GraphMeansLinked(adj: seq<set<nat>>, prims: seq<Prim>, hidden: set<string>)
    requires IsGraph(adj, prims, hidden)
    ensures forall i, j: nat :: 0 <= i < |adj| ==> (j in adj[i] <==> Linked(prims, hidden, i, j))
  {
    forall i, j: nat | 0 <= i < |adj| ensures j in adj[i] <==> Linked(prims, hidden, i, j) {
      ConnectedMeansLinked(prims, hidden, i, j);
    }
  }

  // ---- chains ---------------------------------------------------------------------------------------------

  ghost predicate IsPath(prims: seq<Prim>, hidden: set<string>, path: seq<nat>, from: nat, to: nat) {
    && path != [] && path[0] == from && path[|path| - 1] == to
    && forall k :: 0 <= k < |path| - 1 ==> Connected(prims, hidden, path[k], path[k + 1])
  }

  ghost predicate Reachable(prims: seq<Prim>, hidden: set<string>, from: nat, to: nat) {
    exists path :: IsPath(prims, hidden, path, from, to)
  }

  lemma ReachableStart(prims: seq<Prim>, hidden: set<string>, from: nat)
    ensures Reachable(prims, hidden, from, from)
  {
    assert IsPath(prims, hidden, [from], from, from);
  }

  lemma ReachableNext(prims: seq<Prim>, hidden: set<string>, from: nat, mid: nat, to: nat)
    requires Reachable(prims, hidden, from, mid) && Connected(prims, hidden, mid, to)
    ensures Reachable(prims, hidden, from, to)
  {
    hide Connected;
    var path :| IsPath(prims, hidden, path, from, mid);
    assert IsPath(prims, hidden, path + [to], from, to);
  }

  /** A set with the start that is closed under the relation holds everything reachable. */
  lemma {:induction false} ClosedHoldsReachable(prims: seq<Prim>, hidden: set<string>, visited: set<nat>,
                                                path: seq<nat>, from: nat, to: nat)
    requires from in visited && IsPath(prims, hidden, path, from, to)
    requires forall i, j :: i in visited && Connected(prims, hidden, i, j) ==> j in visited
    ensures to in visited
    decreases |path|
  {
    hide Connected;
    if |path| > 1 {
      var prior := path[..|path| - 1];
      ClosedHoldsReachable(prims, hidden, visited, prior, from, prior[|prior| - 1]);
      assert Connected(prims, hidden, path[|path| - 2], path[|path| - 2 + 1]);
    }
  }
}
