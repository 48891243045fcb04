// Wall classification and the wall predicates of the floor-plan engine
// (backend_project/src/new_room_maain.py).  Coordinates are whole numbers of
// hundredths: the engine truncates every coordinate to two decimals, so on
// this model truncation is the identity.
module Geometry {
  import opened Wrappers

  datatype Point = Point(x: int, y: int)
  datatype Wall = Wall(start: Point, end: Point)

  datatype WallType = Vertical | Horizontal | Diagonal
  datatype Direction = North | South | East | West | Unknown

  function Min(a: int, b: int): int { if a <= b then a else b }
  function Max(a: int, b: int): int { if a <= b then b else a }
  function Abs(a: int): int { if a < 0 then -a else a }

  function Reversed(w: Wall): Wall { Wall(w.end, w.start) }

  // Python's ordering of two-element coordinate lists: by x, then by y.
  predicate PointLe(p: Point, q: Point) { p.x < q.x || (p.x == q.x && p.y <= q.y) }

  // sorted([start, end]): the wall with its lexicographically smaller point first.
  function Sorted(w: Wall): (r: Wall)
    ensures PointLe(r.start, r.end)
    ensures (r.start == w.start && r.end == w.end) || (r.start == w.end && r.end == w.start)
  {
    if PointLe(w.start, w.end) then w else Reversed(w)
  }

  function WallMinX(w: Wall): int { Min(w.start.x, w.end.x) }
  function WallMaxX(w: Wall): int { Max(w.start.x, w.end.x) }
  function WallMinY(w: Wall): int { Min(w.start.y, w.end.y) }
  function WallMaxY(w: Wall): int { Max(w.start.y, w.end.y) }

  // All four x coordinates (all four y coordinates) of the two walls agree.
  predicate SameX(w1: Wall, w2: Wall) {
    w1.start.x == w1.end.x == w2.start.x == w2.end.x
  }
  predicate SameY(w1: Wall, w2: Wall) {
    w1.start.y == w1.end.y == w2.start.y == w2.end.y
  }

  // Open intervals (lo1, hi1) and (lo2, hi2) share a point.
  predicate StrictOverlap(lo1: int, hi1: int, lo2: int, hi2: int) {
    lo2 < hi1 && lo1 < hi2
  }

  // determine_wall_type: vertical when the x coordinates agree, otherwise
  // horizontal when the y coordinates agree, otherwise diagonal.
  function DetermineWallType(w: Wall): (t: WallType)
    ensures t == Vertical <==> w.start.x == w.end.x
    ensures t == Horizontal <==> w.start.x != w.end.x && w.start.y == w.end.y
    ensures t == Diagonal <==> w.start.x != w.end.x && w.start.y != w.end.y
  {
    if w.start.x == w.end.x then Vertical
    else if w.start.y == w.end.y then Horizontal
    else Diagonal
  }

  // The length of an axis-aligned wall: |dx| + |dy|, one of which is zero.
  function AxisLength(w: Wall): (len: int)
    ensures len >= 0
    ensures DetermineWallType(w) == Vertical ==> len == WallMaxY(w) - WallMinY(w)
    ensures DetermineWallType(w) == Horizontal ==> len == WallMaxX(w) - WallMinX(w)
  {
    Abs(w.end.x - w.start.x) + Abs(w.end.y - w.start.y)
  }

  // check_overlap: after sorting each wall's two points, collinear walls
  // overlap when their open extents on the shared axis intersect.
  function CheckOverlap(w1: Wall, w2: Wall): (r: bool)
    ensures r <==>
      (SameX(w1, w2) && StrictOverlap(WallMinY(w1), WallMaxY(w1), WallMinY(w2), WallMaxY(w2))) ||
      (!SameX(w1, w2) && SameY(w1, w2) && StrictOverlap(WallMinX(w1), WallMaxX(w1), WallMinX(w2), WallMaxX(w2)))
  {
    var a := Sorted(w1);
    var b := Sorted(w2);
    if a.start.x == a.end.x == b.start.x == b.end.x then
      !(a.end.y <= b.start.y || b.end.y <= a.start.y)
    else if a.start.y == a.end.y == b.start.y == b.end.y then
      !(a.end.x <= b.start.x || b.end.x <= a.start.x)
    else
      false
  }

  // is_overlapping_or_touching: max of the minima below min of the maxima on
  // the shared axis, without sorting.
  function IsOverlappingOrTouching(w1: Wall, w2: Wall): (r: bool)
    ensures r ==> SameX(w1, w2) || SameY(w1, w2)
  {
    if SameX(w1, w2) then
      Max(WallMinY(w1), WallMinY(w2)) < Min(WallMaxY(w1), WallMaxY(w2))
    else if SameY(w1, w2) then
      Max(WallMinX(w1), WallMinX(w2)) < Min(WallMaxX(w1), WallMaxX(w2))
    else
      false
  }

  lemma CheckOverlapSymmetric(w1: Wall, w2: Wall)
    ensures CheckOverlap(w1, w2) == CheckOverlap(w2, w1)
  {
  }

  lemma OverlappingOrTouchingSymmetric(w1: Wall, w2: Wall)
    ensures IsOverlappingOrTouching(w1, w2) == IsOverlappingOrTouching(w2, w1)
  {
  }

  // Neither predicate holds for walls that do not lie on one common line.
  lemma NotCollinearNeverOverlaps(w1: Wall, w2: Wall)
    requires !SameX(w1, w2) && !SameY(w1, w2)
    ensures !CheckOverlap(w1, w2) && !IsOverlappingOrTouching(w1, w2)
  {
  }

  // Two collinear walls that meet only end to end (w1 lies below and left of
  // where w2 begins) neither overlap nor touch: the interval tests are strict.
  lemma EndToEndIsNotOverlap(w1: Wall, w2: Wall)
    requires WallMaxX(w1) <= WallMinX(w2) && WallMaxY(w1) <= WallMinY(w2)
    ensures !CheckOverlap(w1, w2) && !CheckOverlap(w2, w1)
    ensures !IsOverlappingOrTouching(w1, w2) && !IsOverlappingOrTouching(w2, w1)
  {
  }

  // On walls of positive length the two predicates agree; they differ only
  // in that is_overlapping_or_touching rejects a wall of length zero.
  lemma OverlapPredicatesAgree(w1: Wall, w2: Wall)
    ensures IsOverlappingOrTouching(w1, w2) <==>
      CheckOverlap(w1, w2) && AxisLength(w1) > 0 && AxisLength(w2) > 0
  {
  }

  // get_direction: the side of the room's bounding box the wall lies on.  The
  // horizontal test comes first, so a wall of length zero counts as horizontal.
  function GetDirection(w: Wall, minX: int, maxX: int, minY: int, maxY: int): (d: Direction)
    ensures d == North <==> w.start.y == w.end.y && w.start.y == maxY
    ensures d == South <==> w.start.y == w.end.y && w.start.y != maxY && w.start.y == minY
    ensures d == West <==> w.start.y != w.end.y && w.start.x == w.end.x && w.start.x == minX
    ensures d == East <==>
      w.start.y != w.end.y && w.start.x == w.end.x && w.start.x != minX && w.start.x == maxX
  {
    if w.start.y == w.end.y then
      if w.start.y == maxY then North
      else if w.start.y == minY then South
      else Unknown
    else if w.start.x == w.end.x then
      if w.start.x == minX then West
      else if w.start.x == maxX then East
      else Unknown
    else Unknown
  }

  // A wall's type and side do not depend on which end is its start.
  lemma ClassificationIgnoresOrientation(w: Wall, minX: int, maxX: int, minY: int, maxY: int)
    ensures DetermineWallType(Reversed(w)) == DetermineWallType(w)
    ensures GetDirection(Reversed(w), minX, maxX, minY, maxY) == GetDirection(w, minX, maxX, minY, maxY)
  {
  }

  // opposite_direction: a dictionary lookup that fails for 'Unknown'.
  function OppositeDirection(d: Direction): (r: Option<Direction>)
    ensures r.None? <==> d == Unknown
  {
    match d
    case North => Some(South)
    case South => Some(North)
    case East => Some(West)
    case West => Some(East)
    case Unknown => None
  }

  lemma OppositeIsInvolution(d: Direction)
    requires d != Unknown
    ensures OppositeDirection(d).Some? && OppositeDirection(d).value != d
    ensures OppositeDirection(OppositeDirection(d).value) == Some(d)
  {
  }

  // --- the segment-intersection helpers of new_room_maain.py ---

  // on_segment(p, q, r): q lies in the bounding box of p and r, that is,
  // between them on each axis; both endpoints lie on the segment.
  predicate OnSegment(p: Point, q: Point, r: Point): (b: bool)
    ensures b <==> (p.x <= q.x <= r.x || r.x <= q.x <= p.x) && (p.y <= q.y <= r.y || r.y <= q.y <= p.y)
    ensures q == p || q == r ==> b
  {
    q.x <= Max(p.x, r.x) && q.x >= Min(p.x, r.x) && q.y <= Max(p.y, r.y) && q.y >= Min(p.y, r.y)
  }

  function OrientationValue(p: Point, q: Point, r: Point): int {
    (q.y - p.y) * (r.x - q.x) - (q.x - p.x) * (r.y - q.y)
  }

  // orientation: 0 collinear, 1 clockwise, 2 counterclockwise.
  function Orientation(p: Point, q: Point, r: Point): (o: int)
    ensures 0 <= o <= 2
  {
    var v := OrientationValue(p, q, r);
    if v == 0 then 0 else if v > 0 then 1 else 2
  }

  // The three points lie on one line: the cross product of q - p and r - p is zero.
  predicate Collinear(p: Point, q: Point, r: Point) {
    (q.x - p.x) * (r.y - p.y) == (q.y - p.y) * (r.x - p.x)
  }

  lemma {:induction false} OrientationValueIsNegatedCross(p: Point, q: Point, r: Point)
    ensures OrientationValue(p, q, r) == (q.y - p.y) * (r.x - p.x) - (q.x - p.x) * (r.y - p.y)
  {
    var a, b := q.x - p.x, q.y - p.y;
    var c, e := r.x - p.x, r.y - p.y;
    assert r.x - q.x == c - a && r.y - q.y == e - b;
    calc {
      OrientationValue(p, q, r);
      b * (c - a) - a * (e - b);
      { assert b * (c - a) == b * c - b * a; assert a * (e - b) == a * e - a * b; }
      b * c - a * e;
    }
  }

  lemma OrientationZeroIffCollinear(p: Point, q: Point, r: Point)
    ensures Orientation(p, q, r) == 0 <==> Collinear(p, q, r)
  {
    OrientationValueIsNegatedCross(p, q, r);
  }

  // Exchanging q and r turns clockwise into counterclockwise and back.
  lemma OrientationSwap(p: Point, q: Point, r: Point)
    ensures Orientation(p, r, q) == 0 <==> Orientation(p, q, r) == 0
    ensures Orientation(p, r, q) == 1 <==> Orientation(p, q, r) == 2
    ensures Orientation(p, r, q) == 2 <==> Orientation(p, q, r) == 1
  {
    OrientationValueIsNegatedCross(p, q, r);
    OrientationValueIsNegatedCross(p, r, q);
  }

  // do_intersect: the general orientation test and the four collinear cases.
  // Two segments with an endpoint in common always intersect.
  function DoIntersect(p1: Point, q1: Point, p2: Point, q2: Point): (r: bool)
    ensures p1 == p2 || p1 == q2 || q1 == p2 || q1 == q2 ==> r
  {
    OrientationValueIsNegatedCross(p1, q1, p1);
    OrientationValueIsNegatedCross(p2, q2, p2);
    var o1 := Orientation(p1, q1, p2);
    var o2 := Orientation(p1, q1, q2);
    var o3 := Orientation(p2, q2, p1);
    var o4 := Orientation(p2, q2, q1);
    if o1 != o2 && o3 != o4 then true
    else if o1 == 0 && OnSegment(p1, p2, q1) then true
    else if o2 == 0 && OnSegment(p1, q2, q1) then true
    else if o3 == 0 && OnSegment(p2, p1, q2) then true
    else o4 == 0 && OnSegment(p2, q1, q2)
  }

  lemma DoIntersectSymmetric(p1: Point, q1: Point, p2: Point, q2: Point)
    ensures DoIntersect(p1, q1, p2, q2) == DoIntersect(p2, q2, p1, q1)
  {
  }

  // A segment meets itself; a segment meets any segment starting on it.
  lemma DoIntersectSharedEndpoint(p1: Point, q1: Point, q2: Point)
    ensures DoIntersect(p1, q1, p1, q2)
  {
    assert OrientationValue(p1, q1, p1) == 0 by {
      OrientationValueIsNegatedCross(p1, q1, p1);
    }
  }
}
