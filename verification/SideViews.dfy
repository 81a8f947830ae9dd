/**
 Which view an instance lies in (app/side_regions.py): the centre of the combined
 bounding box of its entities, tested against the three painted rectangles.
 */
module SideViews {
  import opened Wrappers
  import opened MatchKeys

  type Pt = (real, real)
  type Shapes = map<string, seq<Pt>>

  datatype Rect = Rect(x0: real, y0: real, x1: real, y1: real) {
    predicate Contains(p: Pt) {
      x0 <= p.0 <= x1 && y0 <= p.1 <= y1
    }
  }

  /** The three optional rectangles of a binding. */
  datatype Views = Views(top: Option<Rect>, bottom: Option<Rect>, side: Option<Rect>) {
    function RectOf(view: View): Option<Rect> {
      match view
      case TopView => top
      case BottomView => bottom
      case SideView => side
    }
  }

  predicate PointInRect(p: Pt, rect: Option<Rect>) {
    rect.Some? && rect.value.Contains(p)
  }

  datatype Box = Box(xmin: real, ymin: real, xmax: real, ymax: real)

  function Min(a: real, b: real): real { if b < a then b else a }
  function Max(a: real, b: real): real { if b > a then b else a }

  function Merge(a: Box, b: Box): Box {
    Box(Min(a.xmin, b.xmin), Min(a.ymin, b.ymin), Max(a.xmax, b.xmax), Max(a.ymax, b.ymax))
  }

  /** The tight box of a nonempty point sequence: numpy's column minima and maxima. */
  function BoxOf(pts: seq<Pt>): Box
    requires pts != []
  {
    var p := pts[|pts| - 1];
    var here := Box(p.0, p.1, p.0, p.1);
    if |pts| == 1 then here else Merge(BoxOf(pts[..|pts| - 1]), here)
  }

  /** The box holds every point and each of its sides touches one. */
  lemma {:induction false} BoxIsTight(pts: seq<Pt>)
    requires pts != []
    ensures var b := BoxOf(pts);
            && (forall p :: p in pts ==> b.xmin <= p.0 <= b.xmax && b.ymin <= p.1 <= b.ymax)
            && (exists p :: p in pts && p.0 == b.xmin) && (exists p :: p in pts && p.0 == b.xmax)
            && (exists p :: p in pts && p.1 == b.ymin) && (exists p :: p in pts && p.1 == b.ymax)
  {
    var p := pts[|pts| - 1];
    assert p in pts;
    if |pts| > 1 {
      var rest := pts[..|pts| - 1];
      assert pts == rest + [p];
      BoxIsTight(rest);
      assert forall q :: q in rest ==> q in pts;
    }
  }

  lemma {:induction false} BoxOfConcat(a: seq<Pt>, b: seq<Pt>)
    requires a != [] && b != []
    ensures BoxOf(a + b) == Merge(BoxOf(a), BoxOf(b))
  {
    assert (a + b)[..|a + b| - 1] == a + b[..|b| - 1];
    if |b| == 1 {
      assert a + b[..0] == a;
    } else {
      BoxOfConcat(a, b[..|b| - 1]);
    }
  }

  /** Every point of every handle that resolves to a shape. */
  function PointsOf(handles: seq<string>, shapes: Shapes): seq<Pt> {
    if handles == [] then []
    else
      var h := handles[|handles| - 1];
      PointsOf(handles[..|handles| - 1], shapes) + if h in shapes then shapes[h] else []
  }

  /** A point of a handle that resolves to a shape. */
  ghost predicate IsPoint(handles: seq<string>, shapes: Shapes, p: Pt) {
    exists h :: h in handles && h in shapes && p in shapes[h]
  }

  /** The least and greatest coordinates of the points of the handles. */
  ghost predicate Spans(handles: seq<string>, shapes: Shapes, x0: real, x1: real, y0: real, y1: real) {
    && (forall p :: IsPoint(handles, shapes, p) ==> x0 <= p.0 <= x1 && y0 <= p.1 <= y1)
    && (exists p :: IsPoint(handles, shapes, p) && p.0 == x0) && (exists p :: IsPoint(handles, shapes, p) && p.0 == x1)
    && (exists p :: IsPoint(handles, shapes, p) && p.1 == y0) && (exists p :: IsPoint(handles, shapes, p) && p.1 == y1)
  }

  lemma {:induction false} PointsAre(handles: seq<string>, shapes: Shapes)
    ensures forall p :: p in PointsOf(handles, shapes) <==> IsPoint(handles, shapes, p)
  {
    if handles != [] {
      var init, last := handles[..|handles| - 1], handles[|handles| - 1];
      PointsAre(init, shapes);
      assert handles == init + [last];
    }
  }

  /** The box of the points is the one they span, and no other. */
  lemma BoxSpans(handles: seq<string>, shapes: Shapes)
    requires PointsOf(handles, shapes) != []
    ensures var b := BoxOf(PointsOf(handles, shapes));
      && Spans(handles, shapes, b.xmin, b.xmax, b.ymin, b.ymax)
      && forall x0, x1, y0, y1 :: Spans(handles, shapes, x0, x1, y0, y1) ==> b == Box(x0, y0, x1, y1)
  {
    PointsAre(handles, shapes);
    BoxIsTight(PointsOf(handles, shapes));
    hide PointsOf, BoxOf, IsPoint;
  }

  lemma NoPoints(handles: seq<string>, shapes: Shapes)
    ensures PointsOf(handles, shapes) == [] <==> forall p :: !IsPoint(handles, shapes, p)
  {
    PointsAre(handles, shapes);
    hide PointsOf, IsPoint;
    var pts := PointsOf(handles, shapes);
    if pts != [] { assert pts[0] in pts; }
  }

  function Center(b: Box): Pt {
    ((b.xmin + b.xmax) * 0.5, (b.ymin + b.ymax) * 0.5)
  }

  /** `_bbox_center`: running extents over the handles, None when no point was found. */
  method BboxCenter(handles: seq<string>, shapes: Shapes) returns (center: Option<Pt>)
    ensures var pts := PointsOf(handles, shapes);
            center == if pts == [] then None else Some(Center(BoxOf(pts)))
    ensures center.None? <==> forall p :: !IsPoint(handles, shapes, p)
    ensures center.Some? ==>
      exists x0, x1, y0, y1 :: Spans(handles, shapes, x0, x1, y0, y1)
        && 2.0 * center.value.0 == x0 + x1 && 2.0 * center.value.1 == y0 + y1
  {
    var found, extent := false, Box(0.0, 0.0, 0.0, 0.0);
    var i := 0;
    while i < |handles|
      invariant i <= |handles|
      invariant found <==> PointsOf(handles[..i], shapes) != []
      invariant found ==> extent == BoxOf(PointsOf(handles[..i], shapes))
    {
      var h := handles[i];
      assert handles[..i + 1][..i] == handles[..i];
      ghost var sofar := PointsOf(handles[..i], shapes);
      assert sofar + [] == sofar;
      if h in shapes && shapes[h] != [] {
        if found {
          BoxOfConcat(sofar, shapes[h]);
          extent := Merge(extent, BoxOf(shapes[h]));
        } else {
          assert sofar + shapes[h] == shapes[h];
          extent := BoxOf(shapes[h]);
        }
        found := true;
      }
      i := i + 1;
    }
    assert handles[..i] == handles;
    NoPoints(handles, shapes);
    if found { BoxSpans(handles, shapes); }
    return if found then Some(Center(extent)) else None;
  }

  /** The view an instance is filed under: top before bottom before side. */
  function SidePrefix(handles: seq<string>, shapes: Shapes, views: Views): (v: Option<View>)
    ensures v.Some? ==> views.RectOf(v.value).Some?
  {
    var pts := PointsOf(handles, shapes);
    if pts == [] then None
    else
      var c := Center(BoxOf(pts));
      if PointInRect(c, views.top) then Some(TopView)
      else if PointInRect(c, views.bottom) then Some(BottomView)
      else if PointInRect(c, views.side) then Some(SideView)
      else None
  }

  /** The middle of the span lies in the rectangle, its sides included. */
  ghost predicate MiddleIn(rect: Option<Rect>, x0: real, x1: real, y0: real, y1: real) {
    && rect.Some?
    && 2.0 * rect.value.x0 <= x0 + x1 <= 2.0 * rect.value.x1
    && 2.0 * rect.value.y0 <= y0 + y1 <= 2.0 * rect.value.y1
  }

  /** Top when the middle lies there, else bottom when it lies there, else side, else no view. */
  ghost predicate IsFiled(v: Option<View>, views: Views, x0: real, x1: real, y0: real, y1: real) {
    var top, bottom, side :=
      MiddleIn(views.top, x0, x1, y0, y1), MiddleIn(views.bottom, x0, x1, y0, y1), MiddleIn(views.side, x0, x1, y0, y1);
    && (v == Some(TopView) <==> top)
    && (v == Some(BottomView) <==> bottom && !top)
    && (v == Some(SideView) <==> side && !top && !bottom)
    && (v == None <==> !top && !bottom && !side)
  }

  /** The view of an instance, from the points of its handles alone. */
  lemma ViewIsOfMiddle(handles: seq<string>, shapes: Shapes, views: Views)
    ensures (forall p :: !IsPoint(handles, shapes, p)) ==> SidePrefix(handles, shapes, views) == None
    ensures (exists p :: IsPoint(handles, shapes, p)) ==>
      exists x0, x1, y0, y1 :: Spans(handles, shapes, x0, x1, y0, y1)
    ensures forall x0, x1, y0, y1 :: Spans(handles, shapes, x0, x1, y0, y1) ==>
      IsFiled(SidePrefix(handles, shapes, views), views, x0, x1, y0, y1)
  {
    NoPoints(handles, shapes);
    if PointsOf(handles, shapes) != [] { BoxSpans(handles, shapes); }
    hide PointsOf, IsPoint, BoxOf;
  }

  method SidePrefixFor(handles: seq<string>, shapes: Shapes, views: Views) returns (v: Option<View>)
    ensures v == SidePrefix(handles, shapes, views)
    ensures (forall p :: !IsPoint(handles, shapes, p)) ==> v == None
    ensures forall x0, x1, y0, y1 :: Spans(handles, shapes, x0, x1, y0, y1) ==> IsFiled(v, views, x0, x1, y0, y1)
  {
    ViewIsOfMiddle(handles, shapes, views);
    hide Spans, IsFiled, IsPoint;
    if views.top.None? && views.bottom.None? && views.side.None? { return None; }
    var center := BboxCenter(handles, shapes);
    if center.None? { return None; }
    var c := center.value;
    if PointInRect(c, views.top) { return Some(TopView); }
    if PointInRect(c, views.bottom) { return Some(BottomView); }
    if PointInRect(c, views.side) { return Some(SideView); }
    return None;
  }
}
