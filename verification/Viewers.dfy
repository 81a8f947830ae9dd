/** The viewer's selection state (app/static/canvas.js): chain expansion, click and box selection. */
module Viewers {
  import opened Wrappers
  import opened Shapes
  import opened BoxSelect
  import opened Connectivity

  // ---- layers -----------------------------------------------------------------------------

  function LayersOf(prims: seq<Prim>): set<string> { set p | p in prims :: LayerOf(p) }

  /** How many primitives are on a layer. */
  function OnLayer(prims: seq<Prim>, name: string): nat {
    if prims == [] then 0
    else OnLayer(prims[..|prims| - 1], name) + if LayerOf(prims[|prims| - 1]) == name then 1 else 0
  }

  ghost predicate CountsLayers(counts: map<string, nat>, prims: seq<Prim>) {
    && counts.Keys == LayersOf(prims)
    && forall name :: name in counts ==> counts[name] == OnLayer(prims, name) > 0
  }

  lemma CountLayer(counts: map<string, nat>, prims: seq<Prim>, p: Prim)
    requires CountsLayers(counts, prims)
    ensures var n := if LayerOf(p) in counts then counts[LayerOf(p)] else 0;
      CountsLayers(counts[LayerOf(p) := n + 1], prims + [p])
  {
    assert (prims + [p])[..|prims|] == prims;
    AbsentLayer(prims, LayerOf(p));
    assert LayersOf(prims + [p]) == LayersOf(prims) + {LayerOf(p)};
  }

  lemma {:induction false} AbsentLayer(prims: seq<Prim>, name: string)
    ensures name !in LayersOf(prims) ==> OnLayer(prims, name) == 0
  {
    if prims != [] {
      var init, last := prims[..|prims| - 1], prims[|prims| - 1];
      AbsentLayer(init, name);
      assert last in prims && forall p :: p in init ==> p in prims;
    }
  }

  /** The graph depends on the hidden layers only through what is visible. */
  lemma SameVisibleSameGraph(adj: seq<set<nat>>, prims: seq<Prim>, hidden: set<string>, now: set<string>)
    requires IsGraph(adj, prims, hidden)
    requires forall p :: p in prims ==> (Visible(p, hidden) <==> Visible(p, now))
    ensures IsGraph(adj, prims, now)
  {
    forall i | 0 <= i < |prims| ensures Ends(prims[i], now) == Ends(prims[i], hidden) {
      assert prims[i] in prims;
    }
    forall i, j: nat ensures Connected(prims, now, i, j) <==> Connected(prims, hidden, i, j) {
    }
  }

  class Viewer {
    const primitives: seq<Prim>
    var layerCounts: map<string, nat>
    var boxes: seq<Box>
    var hiddenLayers: set<string>
    var graph: Option<seq<set<nat>>>
    var selection: set<string>

    ghost predicate Valid()
      reads this
    {
      Drawn() && CountsLayers(layerCounts, primitives)
    }

    /** Boxes are the primitives' boxes, and a cached graph is the graph of what is visible now. */
    ghost predicate Drawn()
      reads this
    {
      && |boxes| == |primitives|
      && (forall i :: 0 <= i < |primitives| ==> IsBoxOf(primitives[i].shape, boxes[i]))
      && (graph.Some? ==> IsGraph(graph.value, primitives, hiddenLayers))
    }

    /** Loads a drawing; `stored` holds the layers the session kept hidden. */
    constructor (primitives: seq<Prim>, stored: set<string>)
      ensures Valid() && this.primitives == primitives && selection == {}
      ensures hiddenLayers == stored * LayersOf(primitives)
    {
      var bs: seq<Box> := [];
      for i := 0 to |primitives|
        invariant |bs| == i
        invariant forall k :: 0 <= k < i ==> IsBoxOf(primitives[k].shape, bs[k])
      {
        hide IsBoxOf;
        var b := BboxOf(primitives[i].shape);
        bs := bs + [b];
      }
      this.primitives := primitives;
      boxes, hiddenLayers, graph, selection, layerCounts := bs, stored, None, {}, map[];
      new;
      CollectAvailableLayers();
    }

    // ---- layers ---------------------------------------------------------------------------

    /**
     Counts the primitives of each layer and forgets hidden layers the drawing does not have. A
     cached graph is kept, and stays the graph of what is visible.
     */
    method CollectAvailableLayers()
      requires Drawn()
      modifies this`hiddenLayers, this`layerCounts
      ensures Valid() && hiddenLayers == old(hiddenLayers) * LayersOf(primitives)
      ensures forall i :: 0 <= i < |primitives| ==>
        (Visible(primitives[i], hiddenLayers) <==> Visible(primitives[i], old(hiddenLayers)))
    {
      layerCounts := map[];
      for i := 0 to |primitives|
        invariant CountsLayers(layerCounts, primitives[..i])
        invariant hiddenLayers == old(hiddenLayers)
      {
        hide CountsLayers;
        assert primitives[..i + 1] == primitives[..i] + [primitives[i]];
        CountLayer(layerCounts, primitives[..i], primitives[i]);
        var name := LayerOf(primitives[i]);
        layerCounts := layerCounts[name := (if name in layerCounts then layerCounts[name] else 0) + 1];
      }
      assert primitives[..|primitives|] == primitives;
      hiddenLayers := hiddenLayers * layerCounts.Keys;
      forall i | 0 <= i < |primitives|
        ensures Visible(primitives[i], hiddenLayers) <==> Visible(primitives[i], old(hiddenLayers))
      {
        assert LayerOf(primitives[i]) in LayersOf(primitives);
      }
      if graph.Some? { SameVisibleSameGraph(graph.value, primitives, old(hiddenLayers), hiddenLayers); }
    }

    /** Hides every layer of the drawing that shows, and shows the others. */
    method InvertLayerVisibility()
      requires Valid()
      modifies this`hiddenLayers, this`graph
      ensures Valid() && hiddenLayers == LayersOf(primitives) - old(hiddenLayers)
      ensures forall i :: 0 <= i < |primitives| && !primitives[i].decorative ==>
        (Visible(primitives[i], hiddenLayers) <==> !Visible(primitives[i], old(hiddenLayers)))
    {
      var next := {};
      var todo := layerCounts.Keys;
      while todo != {}
        invariant todo <= layerCounts.Keys && next == layerCounts.Keys - todo - hiddenLayers
        decreases todo
      {
        var name :| name in todo;
        todo := todo - {name};
        if name !in hiddenLayers { next := next + {name}; }
      }
      hiddenLayers := next;
      graph := None;
      forall i | 0 <= i < |primitives| ensures LayerOf(primitives[i]) in LayersOf(primitives) {
        assert primitives[i] in primitives;
      }
    }

    method ToggleLayer(name: string)
      requires Valid()
      modifies this`hiddenLayers, this`graph
      ensures Valid()
      ensures hiddenLayers == if name in old(hiddenLayers) then old(hiddenLayers) - {name}
        else old(hiddenLayers) + {name}
    {
      if name in hiddenLayers { hiddenLayers := hiddenLayers - {name}; } else { hiddenLayers := hiddenLayers + {name}; }
      graph := None;
    }

    method ShowAllLayers()
      requires Valid()
      modifies this`hiddenLayers, this`graph
      ensures Valid() && hiddenLayers == {}
    {
      if hiddenLayers != {} {
        hiddenLayers := {};
        graph := None;
      }
    }

    // ---- chains -----------------------------------------------------------------------------

    method EnsureConnectivity() returns (adj: seq<set<nat>>)
      requires Valid()
      modifies this`graph
      ensures Valid() && IsGraph(adj, primitives, hiddenLayers)
    {
      if graph.None? {
        var built := BuildConnectivity(primitives, hiddenLayers);
        graph := Some(built[..]);
      }
      return graph.value;
    }

    /** Breadth first; returns exactly what is reachable from the start. */
    method ExpandChain(start: nat) returns (visited: set<nat>)
      requires Valid() && start < |primitives|
      modifies this`graph
      ensures Valid()
      ensures forall v :: v in visited <==> Reachable(primitives, hiddenLayers, start, v)
    {
      var adj := EnsureConnectivity();
      visited := Expand(adj, primitives, hiddenLayers, start);
    }

    // ---- selection ------------------------------------------------------------------------------

    /** What a rectangle picks: window takes shapes within it, crossing takes shapes that touch it. */
    ghost predicate Picks(p: Prim, r: Rect, window: bool)
      reads this`hiddenLayers
    {
      && !p.decorative && (if p.layer == "" then "0" else p.layer) !in hiddenLayers
      && if window then AllVerticesIn(p.shape, r) else Touches(p.shape, r)
    }

    method SelectByBox(x1: real, y1: real, x2: real, y2: real, window: bool, additive: bool)
      requires Valid()
      modifies this`selection
      ensures Valid()
      ensures forall h :: h in selection <==>
        || (additive && h in old(selection))
        || exists i :: 0 <= i < |primitives| && primitives[i].handle == h
              && Picks(primitives[i], Spanned(x1, y1, x2, y2), window)
    {
      var r := Rect(Least(x1, x2), Least(y1, y2), Most(x1, x2), Most(y1, y2));
      if !additive { selection := {}; }
      for i := 0 to |primitives|
        invariant Valid()
        invariant forall h :: h in selection <==>
          || (additive && h in old(selection))
          || exists k :: 0 <= k < i && primitives[k].handle == h && Picks(primitives[k], r, window)
      {
        hide IsBoxOf, Touches, AllVerticesIn, IsGraph;
        var p, box := primitives[i], boxes[i];
        ghost var taken := Picks(p, r, window);
        ghost var was := selection;
        if Visible(p, hiddenLayers) {
          var hit := false;
          if window {
            BoxInsideMeansVertices(p.shape, box, r);
            hit := BoxInside(box, r);
          } else if Apart(box, r) {
            QuickRejectIsSound(p.shape, box, r);
          } else {
            hit := PrimCrossesRect(p.shape, r);
          }
          if hit { selection := selection + {p.handle}; }
        }
        assert selection == if taken then was + {p.handle} else was;
      }
    }

    /** Handles of a set of primitives. */
    method HandlesOf(indices: set<nat>) returns (handles: set<string>)
      requires forall i :: i in indices ==> i < |primitives|
      ensures handles == set i | i in indices :: primitives[i].handle
    {
      handles := {};
      var todo := indices;
      while todo != {}
        invariant todo <= indices
        invariant handles == set i | i in indices - todo :: primitives[i].handle
        decreases todo
      {
        var i :| i in todo;
        todo := todo - {i};
        handles := handles + {primitives[i].handle};
      }
      assert indices - todo == indices;
    }

    /** A click on primitive `hit`, or on nothing; shift toggles the whole chain. */
    method ClickSelect(hit: Option<nat>, chainMode: bool, shift: bool)
      requires Valid() && (hit.Some? ==> hit.value < |primitives|)
      modifies this`selection, this`graph
      ensures Valid()
      ensures hit.None? ==> selection == if shift then old(selection) else {}
      ensures hit.Some? ==> exists handles: set<string> ::
        && IsChain(handles, hit.value, chainMode)
        && selection == if !shift then handles
                        else if handles <= old(selection) then old(selection) - handles
                        else old(selection) + handles
    {
      if hit.Some? {
        var indices := {hit.value};
        if chainMode {
          indices := ExpandChain(hit.value);
          ReachableStart(primitives, hiddenLayers, hit.value);
          forall i | i in indices ensures i < |primitives| { ReachableInRange(primitives, hiddenLayers, hit.value, i); }
        }
        var handles := HandlesOf(indices);
        if shift {
          if handles <= selection { selection := selection - handles; } else { selection := selection + handles; }
        } else {
          selection := handles;
        }
        HandlesAreChain(handles, indices, hit.value, chainMode);
      } else {
        if !shift { selection := {}; }
      }
    }

    lemma HandlesAreChain(handles: set<string>, indices: set<nat>, from: nat, chainMode: bool)
      requires from < |primitives| && forall i :: i in indices ==> i < |primitives|
      requires handles == set i | i in indices :: primitives[i].handle
      requires forall i :: i in indices <==> i == from || (chainMode && Reachable(primitives, hiddenLayers, from, i))
      ensures IsChain(handles, from, chainMode)
    {
    }

    ghost predicate IsChain(handles: set<string>, from: nat, chainMode: bool)
      reads this`hiddenLayers
      requires from < |primitives|
    {
      forall h :: h in handles <==>
        exists i :: 0 <= i < |primitives| && primitives[i].handle == h
          && (i == from || (chainMode && Reachable(primitives, hiddenLayers, from, i)))
    }
  }

  /** The rectangle between two opposite corners, whichever comes first. */
  ghost function Spanned(x1: real, y1: real, x2: real, y2: real): (r: Rect)
    ensures r.xmin <= x1 <= r.xmax && r.xmin <= x2 <= r.xmax && (r.xmin, r.xmax) in {(x1, x2), (x2, x1)}
    ensures r.ymin <= y1 <= r.ymax && r.ymin <= y2 <= r.ymax && (r.ymin, r.ymax) in {(y1, y2), (y2, y1)}
  {
    Rect(Least(x1, x2), Least(y1, y2), Most(x1, x2), Most(y1, y2))
  }

  function Least(a: real, b: real): real { if a <= b then a else b }

  function Most(a: real, b: real): real { if a <= b then b else a }

  ghost function Below(n: nat): (s: set<nat>)
    ensures forall i: nat :: i in s <==> i < n
  {
    if n == 0 then {} else Below(n - 1) + {n - 1}
  }

  /** Closed under the graph, except for what is still queued. */
  ghost predicate ClosedBut(adj: seq<set<nat>>, visited: set<nat>, pending: seq<nat>) {
    forall i :: i in visited && i < |adj| && i !in pending ==> adj[i] <= visited
  }

  ghost predicate AllReachable(prims: seq<Prim>, hidden: set<string>, start: nat, visited: set<nat>) {
    forall v :: v in visited ==> v < |prims| && Reachable(prims, hidden, start, v)
  }

  /** Visits the neighbours of `cur`, queueing the new ones. */
  method Visit(adj: seq<set<nat>>, ghost prims: seq<Prim>, ghost hidden: set<string>, start: nat,
               visited0: set<nat>, queue0: seq<nat>, cur: nat)
    returns (visited: set<nat>, queue: seq<nat>)
    requires IsGraph(adj, prims, hidden) && cur in visited0 && AllReachable(prims, hidden, start, visited0)
    requires ClosedBut(adj, visited0, [cur] + queue0)
    requires forall v :: v in queue0 ==> v in visited0
    ensures visited0 <= visited && AllReachable(prims, hidden, start, visited)
    ensures ClosedBut(adj, visited, queue)
    ensures forall v :: v in queue ==> v in visited
    ensures if visited == visited0 then queue == queue0 else visited0 < visited
  {
    hide Connected, Reachable;
    visited, queue := visited0, queue0;
    var todo := adj[cur];
    while todo != {}
      invariant todo <= adj[cur] <= visited + todo
      invariant visited0 <= visited && AllReachable(prims, hidden, start, visited)
      invariant ClosedBut(adj, visited, [cur] + queue)
      invariant forall v :: v in queue ==> v in visited
      invariant if visited == visited0 then queue == queue0 else visited0 < visited
      decreases todo
    {
      hide IsGraph;
      var nb :| nb in todo;
      todo := todo - {nb};
      if nb !in visited {
        GraphEdge(adj, prims, hidden, cur, nb);
        ReachableNext(prims, hidden, start, cur, nb);
        visited := visited + {nb};
        queue := queue + [nb];
      }
    }
  }

  method Expand(adj: seq<set<nat>>, ghost prims: seq<Prim>, ghost hidden: set<string>, start: nat)
    returns (visited: set<nat>)
    requires IsGraph(adj, prims, hidden) && start < |prims|
    ensures forall v :: v in visited <==> Reachable(prims, hidden, start, v)
  {
    hide Connected, Reachable;
    visited := {start};
    var queue := [start];
    ReachableStart(prims, hidden, start);
    while queue != []
      invariant start in visited && AllReachable(prims, hidden, start, visited)
      invariant forall v :: v in queue ==> v in visited
      invariant ClosedBut(adj, visited, queue)
      decreases Below(|prims|) - visited, |queue|
    {
      var cur := queue[0];
      assert queue == [cur] + queue[1..];
      ghost var was := visited;
      visited, queue := Visit(adj, prims, hidden, start, visited, queue[1..], cur);
      if visited != was {
        assert !(visited <= was);
        var v :| v in visited && v !in was;
        assert v in Below(|prims|) - was;
      }
    }
    ClosedIsAll(adj, prims, hidden, visited, start);
  }

  lemma GraphEdge(adj: seq<set<nat>>, prims: seq<Prim>, hidden: set<string>, i: nat, j: nat)
    requires IsGraph(adj, prims, hidden) && i < |adj| && j in adj[i]
    ensures Connected(prims, hidden, i, j) && j < |prims|
  {
  }

  lemma ReachableInRange(prims: seq<Prim>, hidden: set<string>, from: nat, to: nat)
    requires from < |prims| && Reachable(prims, hidden, from, to)
    ensures to < |prims|
  {
    var path :| IsPath(prims, hidden, path, from, to);
    if |path| > 1 { assert Connected(prims, hidden, path[|path| - 2], path[|path| - 2 + 1]); }
  }

  lemma ClosedIsAll(adj: seq<set<nat>>, prims: seq<Prim>, hidden: set<string>, visited: set<nat>, start: nat)
    requires IsGraph(adj, prims, hidden) && start in visited
    requires forall i :: i in visited ==> i < |adj|
    requires forall i, j :: i in visited && j in adj[i] ==> j in visited
    requires forall v :: v in visited ==> Reachable(prims, hidden, start, v)
    ensures forall v :: v in visited <==> Reachable(prims, hidden, start, v)
  {
    hide Connected;
    forall v | Reachable(prims, hidden, start, v) ensures v in visited {
      var path :| IsPath(prims, hidden, path, start, v);
      ClosedHoldsReachable(prims, hidden, visited, path, start, v);
    }
  }
}
