// The values the drawing canvas of frontend/src works on: points on the
// infinite canvas and the wall objects of the wall list.  JavaScript numbers
// are modelled as exact reals.
module Drawing {
  import opened Wrappers

  datatype RPoint = RPoint(x: real, y: real)

  // A wall object { start, end, originalStart, originalEnd, thickness,
  // lineweightId }; the original points and the lineweight may be missing.
  datatype FWall = FWall(start: RPoint, end: RPoint, originalStart: Option<RPoint>,
                         originalEnd: Option<RPoint>, thickness: real, lineweightId: Option<string>)

  function RAbs(v: real): (r: real)
    ensures r >= 0.0 && (r == v || r == -v)
  {
    if v < 0.0 then -v else v
  }

  function RMin(a: real, b: real): (r: real)
    ensures r <= a && r <= b && (r == a || r == b)
  {
    if a <= b then a else b
  }

  function RMax(a: real, b: real): (r: real)
    ensures r >= a && r >= b && (r == a || r == b)
  {
    if a >= b then a else b
  }
}
