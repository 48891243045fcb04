// frontend/src/utils/coordinateUtils.js: the screen/canvas transforms, the
// distance between points and the bounding box of the drawing.
module Coordinates {
  import opened Wrappers
  import opened Drawing

  // ---------------------------------------------------------------------
  // Transforms; a missing point gives null.

  function ScreenToCanvas(p: Option<RPoint>, pan: RPoint, zoom: real): (r: Option<RPoint>)
    requires zoom != 0.0
    ensures r.None? <==> p.None?
    ensures r.Some? ==> r.value.x * zoom + pan.x == p.value.x && r.value.y * zoom + pan.y == p.value.y
  {
    if p.None? then None
    else Some(RPoint((p.value.x - pan.x) / zoom, (p.value.y - pan.y) / zoom))
  }

  function CanvasToScreen(p: Option<RPoint>, pan: RPoint, zoom: real): (r: Option<RPoint>)
    ensures r.None? <==> p.None?
  {
    if p.None? then None
    else Some(RPoint(p.value.x * zoom + pan.x, p.value.y * zoom + pan.y))
  }

  // For a non-zero zoom the two transforms undo each other.
  lemma TransformsAreInverse(p: Option<RPoint>, pan: RPoint, zoom: real)
    requires zoom != 0.0
    ensures CanvasToScreen(ScreenToCanvas(p, pan, zoom), pan, zoom) == p
    ensures ScreenToCanvas(CanvasToScreen(p, pan, zoom), pan, zoom) == p
  {
    if p.Some? {
      var q := p.value;
      var c := ScreenToCanvas(p, pan, zoom);
      var back := CanvasToScreen(c, pan, zoom);
      assert back.value.x == q.x && back.value.y == q.y;
      assert back.value == RPoint(back.value.x, back.value.y);
      var s := CanvasToScreen(p, pan, zoom);
      var ax, ay := q.x * zoom, q.y * zoom;
      assert s.value.x == ax + pan.x && s.value.y == ay + pan.y;
      assert (ax + pan.x) - pan.x == ax && ax / zoom == q.x;
      assert (ay + pan.y) - pan.y == ay && ay / zoom == q.y;
      var there := ScreenToCanvas(s, pan, zoom);
      assert there.value.x == q.x && there.value.y == q.y;
      assert there.value == RPoint(there.value.x, there.value.y);
    }
  }

  // ---------------------------------------------------------------------
  // getDistance, squared: the square root is monotone and is not modelled.

  function SquaredDistance(p1: Option<RPoint>, p2: Option<RPoint>): (r: real)
    ensures r >= 0.0
    ensures p1.None? || p2.None? ==> r == 0.0
    ensures p1.Some? && p1 == p2 ==> r == 0.0
  {
    if p1.None? || p2.None? then 0.0
    else
      var dx, dy := p2.value.x - p1.value.x, p2.value.y - p1.value.y;
      Square(dx);
      Square(dy);
      dx * dx + dy * dy
  }

  lemma Square(v: real)
    ensures v * v >= 0.0
  {
    if v < 0.0 { assert v * v == (-v) * (-v); }
  }

  lemma DistanceSymmetric(p1: Option<RPoint>, p2: Option<RPoint>)
    ensures SquaredDistance(p1, p2) == SquaredDistance(p2, p1)
  {
    if p1.Some? && p2.Some? {
      var dx, dy := p2.value.x - p1.value.x, p2.value.y - p1.value.y;
      assert (-dx) * (-dx) == dx * dx && (-dy) * (-dy) == dy * dy;
    }
  }

  // The canvas is infinite.
  function IsWithinPaperBounds(p: RPoint): (r: bool)
    ensures r
  {
    true
  }

  // ---------------------------------------------------------------------
  // calculateContentBounds

  datatype Bounds = Bounds(minX: real, minY: real, maxX: real, maxY: real, width: real, height: real)

  const Padding: real := 50.0
  const DefaultBounds := Bounds(0.0, 0.0, 1000.0, 1000.0, 1000.0, 1000.0)

  datatype Axis = X | Y

  function Coord(p: RPoint, a: Axis): real {
    if a == X then p.x else p.y
  }

  // The smallest and the largest coordinate over the start and end points,
  // folded in wall order as the loop does.
  function Lowest(walls: seq<FWall>, a: Axis): real
    requires |walls| > 0
  {
    var w := walls[|walls| - 1];
    var here := RMin(Coord(w.start, a), Coord(w.end, a));
    if |walls| == 1 then here else RMin(Lowest(walls[..|walls| - 1], a), here)
  }

  function Highest(walls: seq<FWall>, a: Axis): real
    requires |walls| > 0
  {
    var w := walls[|walls| - 1];
    var here := RMax(Coord(w.start, a), Coord(w.end, a));
    if |walls| == 1 then here else RMax(Highest(walls[..|walls| - 1], a), here)
  }

  function ContentBounds(walls: seq<FWall>): Bounds {
    if |walls| == 0 then DefaultBounds
    else
      var lx, ly, hx, hy := Lowest(walls, X), Lowest(walls, Y), Highest(walls, X), Highest(walls, Y);
      Bounds(lx - Padding, ly - Padding, hx + Padding, hy + Padding,
             (hx - lx) + Padding * 2.0, (hy - ly) + Padding * 2.0)
  }

  // An endpoint of some wall.
  predicate IsEndpoint(walls: seq<FWall>, p: RPoint) {
    exists k :: 0 <= k < |walls| && (walls[k].start == p || walls[k].end == p)
  }

  // The extremes bound every endpoint ...
  lemma {:induction false} ExtremesBound(walls: seq<FWall>, a: Axis)
    requires |walls| > 0
    ensures forall k :: 0 <= k < |walls| ==>
      Lowest(walls, a) <= Coord(walls[k].start, a) <= Highest(walls, a) &&
      Lowest(walls, a) <= Coord(walls[k].end, a) <= Highest(walls, a)
  {
    var n := |walls|;
    if n > 1 {
      var init := walls[..n - 1];
      ExtremesBound(init, a);
      assert forall k :: 0 <= k < n - 1 ==> init[k] == walls[k];
    }
  }

  // ... and are attained by one.
  lemma {:induction false} ExtremesAttained(walls: seq<FWall>, a: Axis)
    requires |walls| > 0
    ensures exists p :: IsEndpoint(walls, p) && Coord(p, a) == Lowest(walls, a)
    ensures exists p :: IsEndpoint(walls, p) && Coord(p, a) == Highest(walls, a)
  {
    var n := |walls|;
    var w := walls[n - 1];
    var lo := if Coord(w.start, a) <= Coord(w.end, a) then w.start else w.end;
    var hi := if Coord(w.start, a) >= Coord(w.end, a) then w.start else w.end;
    assert IsEndpoint(walls, lo) && IsEndpoint(walls, hi);
    if n > 1 {
      var init := walls[..n - 1];
      ExtremesAttained(init, a);
      var p :| IsEndpoint(init, p) && Coord(p, a) == Lowest(init, a);
      var q :| IsEndpoint(init, q) && Coord(q, a) == Highest(init, a);
      var kp :| 0 <= kp < |init| && (init[kp].start == p || init[kp].end == p);
      var kq :| 0 <= kq < |init| && (init[kq].start == q || init[kq].end == q);
      assert walls[kp] == init[kp] && walls[kq] == init[kq];
      assert IsEndpoint(walls, p) && IsEndpoint(walls, q);
    }
  }

  // Every endpoint lies at least the padding inside the box, which is the
  // tightest such box; width and height are its extents.  No walls give the
  // default 1000 by 1000 box at the origin.
  lemma ContentBoundsContain(walls: seq<FWall>)
    ensures |walls| == 0 ==> ContentBounds(walls) == Bounds(0.0, 0.0, 1000.0, 1000.0, 1000.0, 1000.0)
    ensures var b := ContentBounds(walls);
      b.width == b.maxX - b.minX && b.height == b.maxY - b.minY
    ensures var b := ContentBounds(walls);
      forall k :: 0 <= k < |walls| ==>
        b.minX + 50.0 <= walls[k].start.x <= b.maxX - 50.0 && b.minY + 50.0 <= walls[k].start.y <= b.maxY - 50.0 &&
        b.minX + 50.0 <= walls[k].end.x <= b.maxX - 50.0 && b.minY + 50.0 <= walls[k].end.y <= b.maxY - 50.0
    ensures |walls| > 0 ==> var b := ContentBounds(walls);
      (exists p :: IsEndpoint(walls, p) && p.x == b.minX + 50.0) &&
      (exists p :: IsEndpoint(walls, p) && p.x == b.maxX - 50.0) &&
      (exists p :: IsEndpoint(walls, p) && p.y == b.minY + 50.0) &&
      (exists p :: IsEndpoint(walls, p) && p.y == b.maxY - 50.0)
  {
    if |walls| > 0 {
      ExtremesBound(walls, X);
      ExtremesBound(walls, Y);
      ExtremesAttained(walls, X);
      ExtremesAttained(walls, Y);
    }
  }

  // The forEach over the walls with Math.min and Math.max.  The running
  // extremes start at the first start point rather than at +/-Infinity: the
  // first two updates give the same values either way.
  method CalculateContentBounds(walls: seq<FWall>) returns (b: Bounds)
    ensures b == ContentBounds(walls)
  {
    if |walls| == 0 {
      return DefaultBounds;
    }
    var minX, minY, maxX, maxY := walls[0].start.x, walls[0].start.y, walls[0].start.x, walls[0].start.y;
    var i := 0;
    while i < |walls|
      invariant 0 <= i <= |walls|
      invariant i == 0 ==> minX == maxX == walls[0].start.x && minY == maxY == walls[0].start.y
      invariant i > 0 ==> minX == Lowest(walls[..i], X) && minY == Lowest(walls[..i], Y)
      invariant i > 0 ==> maxX == Highest(walls[..i], X) && maxY == Highest(walls[..i], Y)
    {
      var wall := walls[i];
      minX := RMin(minX, wall.start.x);
      minY := RMin(minY, wall.start.y);
      maxX := RMax(maxX, wall.start.x);
      maxY := RMax(maxY, wall.start.y);
      minX := RMin(minX, wall.end.x);
      minY := RMin(minY, wall.end.y);
      maxX := RMax(maxX, wall.end.x);
      maxY := RMax(maxY, wall.end.y);
      assert walls[..i + 1][..i] == walls[..i];
      i := i + 1;
    }
    assert walls[..i] == walls;
    b := Bounds(minX - Padding, minY - Padding, maxX + Padding, maxY + Padding,
                (maxX - minX) + Padding * 2.0, (maxY - minY) + Padding * 2.0);
  }
}
