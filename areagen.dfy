// The entry of the area-driven generator in backend_project/src/test_area.py:
// the area gate of generate_floorplan_main and the per-room rescaling of
// recalculate_coordinates.
module AreaGen {
  import opened Wrappers
  import opened Geometry
  import opened FloorPlan
  import Segments

  // ---------------------------------------------------------------------
  // generate_floorplan_main

  // The smallest total area each flat type accepts, in hundredths of a
  // square unit (300 and 525 square units).
  function MinimumArea(flatType: string): (r: Option<int>)
    ensures r.Some? <==> flatType == "1BHK" || flatType == "2BHK"
    ensures flatType == "1BHK" ==> r == Some(30000)
    ensures flatType == "2BHK" ==> r == Some(52500)
  {
    if flatType == "1BHK" then Some(30000)
    else if flatType == "2BHK" then Some(52500)
    else None
  }

  predicate Eligible(flatType: string, area: int) {
    MinimumArea(flatType).Some? && area >= MinimumArea(flatType).value
  }

  // A larger area never closes the gate.
  lemma EligibleMonotone(flatType: string, a: int, b: int)
    requires Eligible(flatType, a) && a <= b
    ensures Eligible(flatType, b)
  {
  }

  // The gate, then the layout of dynamic_area_calculater (the parameter
  // layout) converted to wall segments; `{}` otherwise.
  function GenerateFloorplanMain(coords: Plan, flatType: string, area: int,
                                 layout: (Plan, int) -> Plan, euclid: Wall -> int): (r: Segments.WallData)
    ensures !Eligible(flatType, area) ==> r == []
    ensures Eligible(flatType, area) ==> Segments.WallSegmentsToRooms(r) == layout(coords, area)
    ensures Eligible(flatType, area) ==> Segments.AllFresh(r, Segments.DefaultThickness, euclid)
  {
    if Eligible(flatType, area) then
      var plan := layout(coords, area);
      Segments.RoundTrip(plan, Segments.DefaultThickness, euclid);
      Segments.RoundTripBack(Segments.ConvertAllRoomsToWalls(plan, Segments.DefaultThickness, euclid),
                             Segments.DefaultThickness, euclid);
      Segments.ConvertAllRoomsToWalls(plan, Segments.DefaultThickness, euclid)
    else []
  }

  // ---------------------------------------------------------------------
  // recalculate_coordinates

  // round(n / d) to an integer, ties to even, as Python's round does (on
  // exact rationals).
  function RoundRatio(n: int, d: int): (r: int)
    requires d != 0
    ensures 2 * Abs(n - r * d) <= Abs(d)
    ensures 2 * Abs(n - r * d) == Abs(d) ==> r % 2 == 0
  {
    if d > 0 then RoundPositive(n, d)
    else
      var r := RoundPositive(-n, -d);
      assert r * -d == -(r * d);
      r
  }

  function RoundPositive(n: int, d: int): (r: int)
    requires d > 0
    ensures 2 * Abs(n - r * d) <= d
    ensures 2 * Abs(n - r * d) == d ==> r % 2 == 0
  {
    var q, rem := n / d, n % d;
    assert (q + 1) * d == q * d + d;
    if 2 * rem < d then q
    else if 2 * rem > d then q + 1
    else if q % 2 == 0 then q
    else q + 1
  }

  // |a * d| is at least |d| for a non-zero a.
  lemma ProductBound(a: int, d: int)
    requires a != 0
    ensures Abs(a * d) >= Abs(d)
  {
    if a > 0 {
      if d > 0 { assert a * d >= d; } else { assert a * d <= d; }
    } else {
      if d > 0 { assert a * d <= -d; } else { assert a * d >= -d; }
    }
  }

  lemma Distribute(x: int, r: int, d: int)
    ensures x * d - r * d == (x - r) * d
  {
  }

  // A ratio that is an integer is that integer.
  lemma RoundExact(x: int, d: int)
    requires d != 0
    ensures RoundRatio(x * d, d) == x
  {
    var r := RoundRatio(x * d, d);
    Distribute(x, r, d);
    if x != r {
      ProductBound(x - r, d);
    }
  }

  // dimensions[room]: the extents of the room and the extents it is
  // scaled to, in hundredths.
  datatype Scale = Scale(width: int, height: int, scaledWidth: int, scaledHeight: int)

  // x * (scaled_width / width) and y * (scaled_height / height), rounded to
  // two decimals: to whole hundredths here.
  function ScalePoint(p: Point, s: Scale): Point
    requires s.width != 0 && s.height != 0
  {
    Point(RoundRatio(p.x * s.scaledWidth, s.width), RoundRatio(p.y * s.scaledHeight, s.height))
  }

  function ScaleWalls(walls: seq<Wall>, s: Scale): (r: seq<Wall>)
    requires s.width != 0 && s.height != 0
    ensures |r| == |walls|
    ensures forall k :: 0 <= k < |walls| ==> r[k] == Wall(ScalePoint(walls[k].start, s), ScalePoint(walls[k].end, s))
  {
    seq(|walls|, k requires 0 <= k < |walls| => Wall(ScalePoint(walls[k].start, s), ScalePoint(walls[k].end, s)))
  }

  // The lookup dimensions[room] and the divisions x_scale, y_scale.
  function ScaleOf(name: string, dims: map<string, Scale>): (r: Result<Scale>)
    ensures r.Err? <==> name !in dims || dims[name].width == 0 || dims[name].height == 0
    ensures name !in dims ==> r == Err(KeyError(name))
    ensures name in dims && r.Err? ==> r == Err(ZeroDivisionError)
    ensures r.Ok? ==> r.value == dims[name]
  {
    if name !in dims then Err(KeyError(name))
    else if dims[name].width == 0 || dims[name].height == 0 then Err(ZeroDivisionError)
    else Ok(dims[name])
  }

  // Every room in dictionary order; the first room without usable
  // dimensions raises.
  function RecalculateCoordinates(rooms: Plan, dims: map<string, Scale>): (r: Result<Plan>)
    ensures r.Ok? <==> forall i :: 0 <= i < |rooms| ==> ScaleOf(rooms[i].name, dims).Ok?
    ensures r.Err? ==> r.error.KeyError? || r.error == ZeroDivisionError
    ensures r.Ok? ==>
      |r.value| == |rooms| &&
      forall i :: 0 <= i < |rooms| ==> r.value[i].name == rooms[i].name && |r.value[i].walls| == |rooms[i].walls|
  {
    if |rooms| == 0 then Ok([])
    else match ScaleOf(rooms[0].name, dims)
      case Err(e) => Err(e)
      case Ok(s) =>
        match RecalculateCoordinates(rooms[1..], dims)
        case Err(e) => Err(e)
        case Ok(rest) => Ok([Room(rooms[0].name, ScaleWalls(rooms[0].walls, s))] + rest)
  }

  // The result fails exactly when some room has no usable dimensions, with
  // the error of the first such room; otherwise it has the same rooms in
  // the same order, each with its walls scaled by its own factors.
  lemma {:induction false} RecalculateAt(rooms: Plan, dims: map<string, Scale>)
    ensures RecalculateCoordinates(rooms, dims).Err? <==> exists i :: 0 <= i < |rooms| && ScaleOf(rooms[i].name, dims).Err?
    ensures RecalculateCoordinates(rooms, dims).Err? ==>
      exists i :: 0 <= i < |rooms| && ScaleOf(rooms[i].name, dims) == Err(RecalculateCoordinates(rooms, dims).error) &&
        forall j :: 0 <= j < i ==> ScaleOf(rooms[j].name, dims).Ok?
    ensures RecalculateCoordinates(rooms, dims).Ok? ==>
      var q := RecalculateCoordinates(rooms, dims).value;
      |q| == |rooms| &&
      forall i :: 0 <= i < |rooms| ==>
        q[i].name == rooms[i].name && ScaleOf(rooms[i].name, dims).Ok? &&
        q[i].walls == ScaleWalls(rooms[i].walls, dims[rooms[i].name])
  {
    if |rooms| > 0 {
      RecalculateAt(rooms[1..], dims);
      assert forall i :: 1 <= i < |rooms| ==> rooms[1..][i - 1] == rooms[i];
      var r := RecalculateCoordinates(rooms, dims);
      if ScaleOf(rooms[0].name, dims).Ok? {
        var rest := RecalculateCoordinates(rooms[1..], dims);
        if rest.Err? {
          var i :| 0 <= i < |rooms[1..]| && ScaleOf(rooms[1..][i].name, dims) == Err(rest.error) &&
            forall j :: 0 <= j < i ==> ScaleOf(rooms[1..][j].name, dims).Ok?;
          assert ScaleOf(rooms[i + 1].name, dims) == Err(r.error);
        } else {
          var q := r.value;
          assert forall i :: 1 <= i < |rooms| ==> q[i] == rest.value[i - 1];
        }
      } else {
        assert ScaleOf(rooms[0].name, dims) == Err(r.error);
      }
    }
  }

  // Every new coordinate is within half a hundredth of the exact product:
  // |x' - x * sw / w| <= 1/2, and likewise for y.
  lemma ScaledPointIsClose(p: Point, s: Scale)
    requires s.width != 0 && s.height != 0
    ensures var q := ScalePoint(p, s);
      2 * Abs(p.x * s.scaledWidth - q.x * s.width) <= Abs(s.width) &&
      2 * Abs(p.y * s.scaledHeight - q.y * s.height) <= Abs(s.height)
  {
  }

  // A room scaled to its own extents comes back unchanged.
  lemma {:induction false} UnitScaleKeepsRoom(walls: seq<Wall>, s: Scale)
    requires s.width != 0 && s.height != 0
    requires s.scaledWidth == s.width && s.scaledHeight == s.height
    ensures ScaleWalls(walls, s) == walls
  {
    forall k | 0 <= k < |walls| ensures ScaleWalls(walls, s)[k] == walls[k] {
      RoundExact(walls[k].start.x, s.width);
      RoundExact(walls[k].start.y, s.height);
      RoundExact(walls[k].end.x, s.width);
      RoundExact(walls[k].end.y, s.height);
    }
  }
}
