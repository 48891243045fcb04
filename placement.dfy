// Placing a new room against an existing one: add_new_room_main of
// backend_project/src/new_room_placement.py and add_new_room of
// backend_project/src/new_room_maain.py, with the helpers both files define
// (is_side_free, get_wall_coordinates, shift_coordinates,
// select_coordinate_pair).
module Placement {
  import opened Wrappers
  import opened Geometry
  import opened FloorPlan
  import opened RoomData
  import Snap
  import Adjacency
  import Resize
  import Segments

  // The snap thresholds of add_new_room_main (0.2) and of the
  // find_adjacent_rooms of new_room_placement.py (0.3), in hundredths.
  const PlacementSnap := 20
  const NeighbourSnap := 30

  // --- the requested side ---

  const SideError := "Invalid direction. Choose from 'Top', 'Bottom', 'Left', 'Right'."

  // The check of given_direction followed by map_direction.
  function SideDirection(given: string): (r: Result<Direction>)
    ensures r.Err? <==> given !in {"Top", "Bottom", "Left", "Right"}
    ensures r.Err? ==> r.error == ValueError(SideError)
    ensures r.Ok? ==> r.value != Unknown
  {
    if given == "Top" then Ok(North)
    else if given == "Bottom" then Ok(South)
    else if given == "Left" then Ok(West)
    else if given == "Right" then Ok(East)
    else Err(ValueError(SideError))
  }

  // Top and Bottom, Left and Right name opposite sides, and the four names
  // name four different sides.
  lemma SideDirectionsOpposite()
    ensures OppositeDirection(SideDirection("Top").value) == Some(SideDirection("Bottom").value)
    ensures OppositeDirection(SideDirection("Left").value) == Some(SideDirection("Right").value)
  {
  }

  lemma SideDirectionInjective(a: string, b: string)
    requires SideDirection(a).Ok? && SideDirection(a) == SideDirection(b)
    ensures a == b
  {
  }

  // possible_directions: the axis of the requested side.
  function PossibleDirections(given: string): (r: seq<Direction>)
    ensures SideDirection(given).Ok? ==>
      var d := SideDirection(given).value;
      (r == [North, South] || r == [East, West]) &&
      d in r && OppositeDirection(d).value in r
  {
    if given == "Top" || given == "Bottom" then [North, South] else [East, West]
  }

  // --- is_side_free ---

  predicate FreeFacing(e: WallInfo, d: Direction) {
    e.direction == d && e.isFree
  }

  // The loop of is_side_free: true at the first free wall facing d.
  function AnyFreeFacing(ws: seq<WallInfo>, d: Direction): (b: bool)
    ensures b <==> exists k :: 0 <= k < |ws| && FreeFacing(ws[k], d)
  {
    if |ws| == 0 then false
    else if FreeFacing(ws[0], d) then true
    else
      var rest := AnyFreeFacing(ws[1..], d);
      assert forall k :: 1 <= k < |ws| ==> ws[k] == ws[1..][k - 1];
      rest
  }

  // is_side_free: some wall of the room facing d is free; metadata[room]
  // fails for a room without metadata.
  function SideFree(md: Metadata, room: string, d: Direction): (r: Result<bool>)
    ensures r.Err? <==> FindMeta(md, room).None?
    ensures r.Err? ==> r.error == KeyError(room)
    ensures r.Ok? ==> var ws := md[FindMeta(md, room).value].walls;
      (r.value <==> exists k :: 0 <= k < |ws| && FreeFacing(ws[k], d))
  {
    match FindMeta(md, room)
    case None => Err(KeyError(room))
    case Some(i) => Ok(AnyFreeFacing(md[i].walls, d))
  }

  method IsSideFree(md: Metadata, room: string, d: Direction) returns (r: Result<bool>)
    ensures r == SideFree(md, room, d)
  {
    var m := FindMeta(md, room);
    if m.None? {
      return Err(KeyError(room));
    }
    var ws := md[m.value].walls;
    var k := 0;
    while k < |ws|
      invariant 0 <= k <= |ws|
      invariant forall j :: 0 <= j < k ==> !FreeFacing(ws[j], d)
    {
      if ws[k].direction == d && ws[k].isFree {
        return Ok(true);
      }
      k := k + 1;
    }
    return Ok(false);
  }

  // is_side_free asks for one free wall, the is_direction_free of
  // new_room_maain.py for every facing wall to be free: the second implies
  // the first whenever some wall faces d, and holds alone when none does.
  lemma SideFreeVersusDirectionFree(md: Metadata, room: string, d: Direction)
    requires FindMeta(md, room).Some?
    ensures var ws := md[FindMeta(md, room).value].walls;
      var facing := exists k :: 0 <= k < |ws| && ws[k].direction == d;
      (Resize.DirectionFree(md, room, Resize.DirectionName(d)) == Ok(true) && facing ==> SideFree(md, room, d) == Ok(true)) &&
      (!facing ==> Resize.DirectionFree(md, room, Resize.DirectionName(d)) == Ok(true) && SideFree(md, room, d) == Ok(false))
  {
    var ws := md[FindMeta(md, room).value].walls;
    forall k | 0 <= k < |ws| ensures Resize.DirectionName(ws[k].direction) == Resize.DirectionName(d) <==> ws[k].direction == d {
      DirectionNamesDistinct(ws[k].direction, d);
    }
  }

  lemma DirectionNamesDistinct(a: Direction, b: Direction)
    ensures Resize.DirectionName(a) == Resize.DirectionName(b) <==> a == b
  {
  }

  // --- get_wall_coordinates ---

  // str.lower on the letters of the direction names.
  function LowerChar(c: char): char {
    if 'A' <= c <= 'Z' then (c as int + 32) as char else c
  }

  function Lower(s: string): (r: string)
    ensures |r| == |s|
  {
    seq(|s|, k requires 0 <= k < |s| => LowerChar(s[k]))
  }

  // Comparing lower-cased direction names is comparing directions.
  lemma LowerDirectionNames(a: Direction, b: Direction)
    ensures Lower(Resize.DirectionName(a)) == Lower(Resize.DirectionName(b)) <==> a == b
  {
    var la, lb := Lower(Resize.DirectionName(a)), Lower(Resize.DirectionName(b));
    if a != b && |la| == |lb| {
      assert la[0] != lb[0];
    }
  }

  // get_wall_coordinates returns a wall, or a message string in its place.
  datatype Lookup = Coordinates(wall: Wall) | Message(text: string)

  predicate Named(e: WallInfo, direction: string) {
    Lower(Resize.DirectionName(e.direction)) == Lower(direction)
  }

  // The first wall whose lower-cased direction matches.
  function FirstNamed(ws: seq<WallInfo>, direction: string): (r: Option<nat>)
    ensures r.Some? ==> (r.value < |ws| && Named(ws[r.value], direction) &&
      forall j :: 0 <= j < r.value ==> !Named(ws[j], direction))
    ensures r.None? ==> forall j :: 0 <= j < |ws| ==> !Named(ws[j], direction)
  {
    if |ws| == 0 then None
    else if Named(ws[0], direction) then Some(0)
    else
      assert forall j :: 1 <= j < |ws| ==> ws[j] == ws[1..][j - 1];
      match FirstNamed(ws[1..], direction)
      case None => None
      case Some(k) => Some(k + 1)
  }

  function WallCoordinates(md: Metadata, room: string, direction: string): (r: Lookup)
    ensures FindMeta(md, room).None? ==> r == Message("Room '" + room + "' not found in metadata.")
    ensures FindMeta(md, room).Some? ==> var ws := md[FindMeta(md, room).value].walls;
      (r.Coordinates? ==> exists k :: (0 <= k < |ws| && Named(ws[k], direction) && r.wall == ws[k].coords &&
        forall j :: 0 <= j < k ==> !Named(ws[j], direction))) &&
      (r.Message? ==> (r.text == "No wall with direction '" + direction + "' found in room '" + room + "'." &&
        forall k :: 0 <= k < |ws| ==> !Named(ws[k], direction)))
  {
    match FindMeta(md, room)
    case None => Message("Room '" + room + "' not found in metadata.")
    case Some(i) =>
      match FirstNamed(md[i].walls, direction)
      case None => Message("No wall with direction '" + direction + "' found in room '" + room + "'.")
      case Some(k) =>
        assert 0 <= k < |md[i].walls| && Named(md[i].walls[k], direction);
        Coordinates(md[i].walls[k].coords)
  }

  // Looked up by the name of a direction, the wall found is the first wall
  // of the room facing that direction, and a message comes back only when no
  // wall faces it.
  lemma WallCoordinatesFacing(md: Metadata, room: string, d: Direction)
    requires FindMeta(md, room).Some?
    ensures var ws := md[FindMeta(md, room).value].walls;
      var r := WallCoordinates(md, room, Resize.DirectionName(d));
      (r.Message? <==> forall k :: 0 <= k < |ws| ==> ws[k].direction != d) &&
      (r.Coordinates? ==> exists k :: (0 <= k < |ws| && ws[k].direction == d && r.wall == ws[k].coords &&
        forall j :: 0 <= j < k ==> ws[j].direction != d))
  {
    var ws := md[FindMeta(md, room).value].walls;
    forall k | 0 <= k < |ws| ensures Named(ws[k], Resize.DirectionName(d)) <==> ws[k].direction == d {
      LowerDirectionNames(ws[k].direction, d);
    }
  }

  // A free side has a wall to place the new room against.
  lemma FreeSideHasWall(md: Metadata, room: string, d: Direction)
    requires SideFree(md, room, d) == Ok(true)
    ensures WallCoordinates(md, room, Resize.DirectionName(d)).Coordinates?
  {
    WallCoordinatesFacing(md, room, d);
  }

  // --- select_coordinate_pair ---

  // min(coords, key=...) and max(coords, key=...) over the two endpoints of
  // a wall: Python keeps the first of equal keys.
  function MinByX(w: Wall): (p: Point)
    ensures p == w.start || p == w.end
    ensures p.x == WallMinX(w) && (p != w.start ==> w.end.x < w.start.x)
  {
    if w.end.x < w.start.x then w.end else w.start
  }

  function MaxByX(w: Wall): (p: Point)
    ensures p == w.start || p == w.end
    ensures p.x == WallMaxX(w) && (p != w.start ==> w.end.x > w.start.x)
  {
    if w.end.x > w.start.x then w.end else w.start
  }

  function MinByY(w: Wall): (p: Point)
    ensures p == w.start || p == w.end
    ensures p.y == WallMinY(w) && (p != w.start ==> w.end.y < w.start.y)
  {
    if w.end.y < w.start.y then w.end else w.start
  }

  function MaxByY(w: Wall): (p: Point)
    ensures p == w.start || p == w.end
    ensures p.y == WallMaxY(w) && (p != w.start ==> w.end.y > w.start.y)
  {
    if w.end.y > w.start.y then w.end else w.start
  }

  // The chosen endpoint and the check flag of select_coordinate_pair; the
  // point is absent when the wall lookup gave a message and the choice was
  // made by c[0], since the choice is then a character of the message.
  datatype Pick = Pick(point: Option<Point>, check: bool)

  function Endpoint(coords: Lookup, choose: Wall -> Point): (r: Option<Point>)
    ensures r.Some? <==> coords.Coordinates?
  {
    match coords
    case Coordinates(w) => Some(choose(w))
    case Message(_) => None
  }

  // min or max over coords with key c[1].  On a message every element is a
  // one-character string, so c[1] raises IndexError.
  function EndpointByY(coords: Lookup, choose: Wall -> Point, check: bool): (r: Result<Pick>)
    ensures r.Err? <==> coords.Message?
    ensures r.Err? ==> r.error == IndexError
    ensures r.Ok? ==> r.value == Pick(Some(choose(coords.wall)), check)
  {
    match coords
    case Coordinates(w) => Ok(Pick(Some(choose(w)), check))
    case Message(_) => Err(IndexError)
  }

  // select_coordinate_pair of new_room_placement.py: the west end of a
  // North or South wall, the north end of an East or West wall; the flag is
  // always set.  Any other direction returns None (the outer None); the
  // inner result is what the call returns or raises.
  function SelectCoordinatePair(coords: Lookup, d: Direction): (r: Option<Result<Pick>>)
    ensures r.None? <==> d == Unknown
    ensures r.Some? ==> (r.value.Err? <==> (d == East || d == West) && coords.Message?)
    ensures r.Some? && r.value.Err? ==> r.value.error == IndexError
    ensures r.Some? && r.value.Ok? ==> r.value.value.check && (r.value.value.point.Some? <==> coords.Coordinates?)
    ensures r.Some? && coords.Coordinates? ==> r.value.Ok? && var p := r.value.value.point.value;
      (d == North || d == South ==> p.x == WallMinX(coords.wall)) &&
      (d == East || d == West ==> p.y == WallMaxY(coords.wall))
  {
    match d
    case North => Some(Ok(Pick(Endpoint(coords, MinByX), true)))
    case South => Some(Ok(Pick(Endpoint(coords, MinByX), true)))
    case East => Some(EndpointByY(coords, MaxByY, true))
    case West => Some(EndpointByY(coords, MaxByY, true))
    case Unknown => None
  }

  // select_coordinate_pair of new_room_maain.py: for a North or South wall
  // the east end when the room's West side is free, otherwise the west end;
  // for an East or West wall the south end when the North side is free,
  // otherwise the north end.  The flag tells whether the first choice was
  // not taken.  After the side tests, an East or West choice on a message
  // raises IndexError (key c[1]).  Unpacking the None of any other
  // direction is a TypeError.
  function SelectCheckedPair(coords: Lookup, d: Direction, md: Metadata, room: string): (r: Result<Pick>)
    ensures r.Err? <==> d == Unknown || FindMeta(md, room).None? || ((d == East || d == West) && coords.Message?)
    ensures r.Err? && d != Unknown && FindMeta(md, room).Some? ==> r.error == IndexError
    ensures r.Err? && d != Unknown && FindMeta(md, room).None? ==> r.error == KeyError(room)
    ensures r.Ok? ==> (r.value.point.Some? <==> coords.Coordinates?)
    ensures r.Ok? && coords.Coordinates? ==>
      r.value.point == Some(coords.wall.start) || r.value.point == Some(coords.wall.end)
    ensures r.Ok? && (d == North || d == South) ==>
      (r.value.check <==> SideFree(md, room, West) == Ok(false)) &&
      (coords.Coordinates? ==>
        r.value.point.value.x == (if r.value.check then WallMinX(coords.wall) else WallMaxX(coords.wall)))
    ensures r.Ok? && (d == East || d == West) ==>
      (r.value.check <==> SideFree(md, room, North) == Ok(false)) &&
      (coords.Coordinates? ==>
        r.value.point.value.y == (if r.value.check then WallMaxY(coords.wall) else WallMinY(coords.wall)))
  {
    if d == North || d == South then
      match SideFree(md, room, West)
      case Err(e) => Err(e)
      case Ok(westFree) =>
        if westFree then Ok(Pick(Endpoint(coords, MaxByX), false))
        else match SideFree(md, room, East)
          case Err(e) => Err(e)
          case Ok(_) => Ok(Pick(Endpoint(coords, MinByX), true))
    else if d == East || d == West then
      match SideFree(md, room, North)
      case Err(e) => Err(e)
      case Ok(northFree) =>
        if northFree then EndpointByY(coords, MinByY, false)
        else match SideFree(md, room, South)
          case Err(e) => Err(e)
          case Ok(_) => EndpointByY(coords, MaxByY, true)
    else
      assert d == Unknown;
      Err(TypeError("cannot unpack non-iterable NoneType object"))
  }

  // --- the new room's top-left corner ---

  // Flush: the new room goes against the wall as it stands; AfterShift: the
  // existing room was moved away first and the new room fills the space.
  datatype Kind = Flush | AfterShift

  // new_top_left from the chosen endpoint p and the check flag.  The
  // direction is always one of the four sides here; any other gives p.
  function TopLeft(kind: Kind, d: Direction, p: Point, check: bool, length: int, width: int): Point {
    match (kind, check)
    case (Flush, true) =>
      (match d
       case North => Point(p.x, p.y + width)
       case West => Point(p.x - length, p.y)
       case _ => p)
    case (Flush, false) =>
      (match d
       case North => Point(p.x - length, p.y + width)
       case South => Point(p.x - length, p.y)
       case East => Point(p.x, p.y + width)
       case West => Point(p.x - length, p.y + width)
       case Unknown => p)
    case (AfterShift, true) =>
      (match d
       case South => Point(p.x, p.y + width)
       case East => Point(p.x - length, p.y)
       case _ => p)
    case (AfterShift, false) =>
      (match d
       case North => Point(p.x - length, p.y)
       case South => Point(p.x - length, p.y + width)
       case East => Point(p.x - length, p.y + width)
       case West => Point(p.x, p.y + width)
       case Unknown => p)
  }

  // The x of new_top_left is coord_pair[0] - length.
  predicate SubtractsLength(kind: Kind, d: Direction, check: bool) {
    match (kind, check)
    case (Flush, true) => d == West
    case (Flush, false) => d != East && d != Unknown
    case (AfterShift, true) => d == East
    case (AfterShift, false) => d != West && d != Unknown
  }

  const StrMinusInt := "unsupported operand type(s) for -: 'str' and 'int'"

  // new_top_left from what select_coordinate_pair returned, or the error
  // it raised, or the error of computing the corner from a character of the
  // message: coord_pair[0] - length is a TypeError, otherwise coord_pair[1]
  // is an IndexError.
  function Corner(kind: Kind, d: Direction, sel: Result<Pick>, length: int, width: int): (r: Result<Point>)
    ensures sel.Err? ==> r == Err(sel.error)
    ensures sel.Ok? ==> (r.Err? <==> sel.value.point.None?)
    ensures sel.Ok? && r.Ok? ==> r.value == TopLeft(kind, d, sel.value.point.value, sel.value.check, length, width)
    ensures sel.Ok? && r.Err? ==> (r.error == TypeError(StrMinusInt) <==> SubtractsLength(kind, d, sel.value.check))
    ensures sel.Ok? && r.Err? ==> (r.error == IndexError <==> !SubtractsLength(kind, d, sel.value.check))
  {
    match sel
    case Err(e) => Err(e)
    case Ok(pick) =>
      match pick.point
      case None => Err(if SubtractsLength(kind, d, pick.check) then TypeError(StrMinusInt) else IndexError)
      case Some(p) => Ok(TopLeft(kind, d, p, pick.check, length, width))
  }

  // --- shift_coordinates ---

  datatype Offset = Offset(dx: int, dy: int)

  function Moved(p: Point, o: Offset): Point {
    Point(p.x + o.dx, p.y + o.dy)
  }

  function Negated(o: Offset): Offset {
    Offset(-o.dx, -o.dy)
  }

  // shift_coordinates: every point of every wall moved by the offset.
  function ShiftCoordinates(walls: seq<Wall>, o: Offset): (r: seq<Wall>)
    ensures |r| == |walls|
    ensures forall k :: 0 <= k < |walls| ==> r[k] == Wall(Moved(walls[k].start, o), Moved(walls[k].end, o))
  {
    seq(|walls|, k requires 0 <= k < |walls| => Wall(Moved(walls[k].start, o), Moved(walls[k].end, o)))
  }

  // Shifting back undoes a shift, and two shifts are one.
  lemma ShiftCoordinatesInverse(walls: seq<Wall>, o: Offset)
    ensures ShiftCoordinates(ShiftCoordinates(walls, o), Negated(o)) == walls
  {
    var back := ShiftCoordinates(ShiftCoordinates(walls, o), Negated(o));
    assert forall k :: 0 <= k < |walls| ==> back[k] == walls[k];
  }

  lemma ShiftCoordinatesAdditive(walls: seq<Wall>, a: Offset, b: Offset)
    ensures ShiftCoordinates(ShiftCoordinates(walls, a), b) == ShiftCoordinates(walls, Offset(a.dx + b.dx, a.dy + b.dy))
  {
    var l, r := ShiftCoordinates(ShiftCoordinates(walls, a), b), ShiftCoordinates(walls, Offset(a.dx + b.dx, a.dy + b.dy));
    assert forall k :: 0 <= k < |walls| ==> l[k] == r[k];
  }

  // The bounding box moves with the room.
  lemma {:induction false} ShiftedBox(walls: seq<Wall>, o: Offset)
    requires |walls| > 0
    ensures var r := ShiftCoordinates(walls, o);
      MinX(r) == MinX(walls) + o.dx && MaxX(r) == MaxX(walls) + o.dx &&
      MinY(r) == MinY(walls) + o.dy && MaxY(r) == MaxY(walls) + o.dy
    decreases |walls|
  {
    if |walls| > 1 {
      assert ShiftCoordinates(walls, o)[1..] == ShiftCoordinates(walls[1..], o);
      ShiftedBox(walls[1..], o);
    }
  }

  // room_data[room] = shift_coordinates(room_data[room], ...) for each room
  // named; a name without an entry is passed over (every name comes from
  // the plan itself where this is used).
  function ShiftRooms(p: Plan, names: set<string>, o: Offset): (r: Plan)
    ensures |r| == |p|
    ensures forall i :: 0 <= i < |p| ==> r[i].name == p[i].name
    ensures forall i :: 0 <= i < |p| && p[i].name !in names ==> r[i] == p[i]
    ensures forall i :: 0 <= i < |p| && p[i].name in names ==> r[i].walls == ShiftCoordinates(p[i].walls, o)
  {
    seq(|p|, i requires 0 <= i < |p| =>
      if p[i].name in names then Room(p[i].name, ShiftCoordinates(p[i].walls, o)) else p[i])
  }

  // room_data[existing_room] = shift_coordinates(...): a KeyError for a
  // room missing from the plan.
  function ShiftExisting(p: Plan, existing: string, o: Offset): (r: Result<Plan>)
    ensures r.Err? <==> !HasRoom(p, existing)
    ensures r.Ok? ==> r.value == ShiftRooms(p, {existing}, o)
  {
    if HasRoom(p, existing) then Ok(ShiftRooms(p, {existing}, o)) else Err(KeyError(existing))
  }

  // How far the rooms move.  The existing room (with the neighbours on the
  // opposite side) moves away from side d by the new room's size.
  function ExistingShift(d: Direction, length: int, width: int): Offset {
    match d
    case North => Offset(0, -width)
    case South => Offset(0, width)
    case East => Offset(-length, 0)
    case West => Offset(length, 0)
    case Unknown => Offset(0, 0)
  }

  // The neighbours on side d itself, as new_room_placement.py moves them:
  // North and South both by +width, East and West both by +length.
  function NeighbourShiftAsWritten(d: Direction, length: int, width: int): Offset {
    match d
    case North => Offset(0, width)
    case South => Offset(0, width)
    case East => Offset(length, 0)
    case West => Offset(length, 0)
    case Unknown => Offset(0, 0)
  }

  // ... and as new_room_maain.py moves them: toward d, away from the
  // existing room.
  function NeighbourShift(d: Direction, length: int, width: int): (o: Offset)
    ensures o.dx == -ExistingShift(d, length, width).dx && o.dy == -ExistingShift(d, length, width).dy
  {
    match d
    case North => Offset(0, width)
    case South => Offset(0, -width)
    case East => Offset(length, 0)
    case West => Offset(-length, 0)
    case Unknown => Offset(0, 0)
  }

  // The shift of the neighbours on side d: as written or as intended.
  function NeighbourOffset(asWritten: bool, d: Direction, length: int, width: int): Offset {
    if asWritten then NeighbourShiftAsWritten(d, length, width) else NeighbourShift(d, length, width)
  }

  // --- where the new room lands ---

  // The rectangle placed flush against a wall through p touches that wall's
  // line with the side facing the existing room, and has the corner at p:
  // with the flag set, at the west end of a North or South edge and the
  // north end of an East or West edge; without it, at the east and the
  // south end.
  lemma FlushTouches(d: Direction, p: Point, check: bool, length: nat, width: nat)
    ensures var r := RectangleWalls(TopLeft(Flush, d, p, check, length, width), length, width);
      (d == North ==> MinY(r) == p.y) && (d == South ==> MaxY(r) == p.y) &&
      (d == East ==> MinX(r) == p.x) && (d == West ==> MaxX(r) == p.x) &&
      (d == North || d == South ==> (if check then MinX(r) else MaxX(r)) == p.x) &&
      (d == East || d == West ==> (if check then MaxY(r) else MinY(r)) == p.y)
  {
    RectangleExtent(TopLeft(Flush, d, p, check, length, width), length, width);
  }

  // After the existing room was moved, the new room is placed exactly as if
  // flush against the moved wall.
  lemma AfterShiftIsFlushAgainstMoved(d: Direction, p: Point, check: bool, length: int, width: int)
    ensures TopLeft(AfterShift, d, p, check, length, width) ==
      TopLeft(Flush, d, Moved(p, ExistingShift(d, length, width)), check, length, width)
  {
  }

  // Moved toward d, the neighbours' edge that touched the existing room's
  // wall lands on the far edge of the new room placed flush against it.
  lemma NeighboursClearNewRoom(d: Direction, p: Point, check: bool, length: nat, width: nat)
    ensures var r := RectangleWalls(TopLeft(Flush, d, p, check, length, width), length, width);
      var q := Moved(p, NeighbourShift(d, length, width));
      (d == North ==> q.y == MaxY(r)) && (d == South ==> q.y == MinY(r)) &&
      (d == East ==> q.x == MaxX(r)) && (d == West ==> q.x == MinX(r))
  {
    var tl := TopLeft(Flush, d, p, check, length, width);
    RectangleExtent(tl, length, width);
    var o := NeighbourShift(d, length, width);
    match d
    case North => assert o == Offset(0, width);
    case South => assert o == Offset(0, -(width as int));
    case East => assert o == Offset(length, 0);
    case West => assert o == Offset(-(length as int), 0);
    case Unknown =>
  }

  // As written, the South and West neighbours move toward the existing
  // room instead: their touching edge ends up past the wall, on the existing
  // room's side, while the new room is placed on the other side of it.
  lemma NeighboursAsWrittenMoveTheWrongWay(d: Direction, p: Point, check: bool, length: nat, width: nat)
    requires d == South || d == West
    requires (d == South ==> width > 0) && (d == West ==> length > 0)
    ensures var r := RectangleWalls(TopLeft(Flush, d, p, check, length, width), length, width);
      var q := Moved(p, NeighbourShiftAsWritten(d, length, width));
      (d == South ==> MaxY(r) == p.y < q.y) && (d == West ==> MaxX(r) == p.x < q.x) &&
      NeighbourShiftAsWritten(d, length, width) == ExistingShift(d, length, width) != NeighbourShift(d, length, width)
  {
    RectangleExtent(TopLeft(Flush, d, p, check, length, width), length, width);
  }

  // --- the metadata they read ---

  // Walls facing North or South are horizontal, walls facing East or West
  // vertical.
  predicate FacesAlong(e: WallInfo) {
    (e.direction == North || e.direction == South ==> e.coords.start.y == e.coords.end.y) &&
    (e.direction == East || e.direction == West ==> e.coords.start.x == e.coords.end.x)
  }

  predicate Oriented(md: Metadata) {
    forall m, k :: 0 <= m < |md| && 0 <= k < |md[m].walls| ==> FacesAlong(md[m].walls[k])
  }

  // get_direction only names a side for a wall lying along it.
  lemma MetadataOriented(p: Plan)
    requires Rectilinear(p)
    ensures Oriented(MakeRoomDataSpec(p).value)
  {
    var md := MakeRoomDataSpec(p).value;
    forall m, k | 0 <= m < |md| && 0 <= k < |md[m].walls| ensures FacesAlong(md[m].walls[k]) {
      MetaWallOriented(p, m, k);
    }
  }

  lemma MetaWallOriented(p: Plan, m: nat, k: nat)
    requires Rectilinear(p)
    requires m < |MakeRoomDataSpec(p).value| && k < |MakeRoomDataSpec(p).value[m].walls|
    ensures FacesAlong(MakeRoomDataSpec(p).value[m].walls[k])
  {
    var i := MetaOfRoom(p, m);
    RoomInfosAt(p[i], p, 1 + WallsBefore(p, i), k);
  }

  // --- the neighbours ---

  // The find_adjacent_rooms of new_room_placement.py.
  method FindNeighbours(name: string, rooms: Plan, unique: seq<int>) returns (snapped: Plan, r: Result<Adjacency.Sides>)
    requires Snap.IsUniqueOrder(unique, rooms)
    ensures (snapped, r) == Adjacency.SnappedAdjacencyAt(name, rooms, NeighbourSnap, unique)
  {
    snapped, r := Adjacency.FindAdjacentRoomsSnappedAt(name, rooms, NeighbourSnap, unique);
  }

  // is_direction_free holds for every neighbour on side dir that has
  // metadata: in new_room_placement.py it asks for one free wall facing dir
  // (the test of is_side_free), in new_room_maain.py for every wall facing
  // dir to be free.
  predicate NeighboursPass(md: Metadata, adj: Adjacency.Sides, dir: Direction, everyWall: bool) {
    forall a :: a in Adjacency.Side(adj, dir) && FindMeta(md, a).Some? ==>
      (if everyWall then Resize.DirectionFree(md, a, Resize.DirectionName(dir)) == Ok(true)
       else SideFree(md, a, dir) == Ok(true))
  }

  // A side contributes entries to adjacent_rooms_directions.
  predicate Passes(md: Metadata, adj: Adjacency.Sides, dir: Direction, everyWall: bool) {
    Adjacency.Side(adj, dir) != {} && NeighboursPass(md, adj, dir, everyWall)
  }

  // The direction of adjacent_rooms_directions[0].
  function FirstPassing(md: Metadata, adj: Adjacency.Sides, possible: seq<Direction>, everyWall: bool): (r: Option<Direction>)
    ensures r.None? <==> forall k :: 0 <= k < |possible| ==> !Passes(md, adj, possible[k], everyWall)
    ensures r.Some? ==> exists k :: (0 <= k < |possible| && possible[k] == r.value &&
      Passes(md, adj, possible[k], everyWall) &&
      forall j :: 0 <= j < k ==> !Passes(md, adj, possible[j], everyWall))
  {
    if |possible| == 0 then None
    else if Passes(md, adj, possible[0], everyWall) then Some(possible[0])
    else
      var rest := FirstPassing(md, adj, possible[1..], everyWall);
      assert forall k :: 1 <= k < |possible| ==> possible[k] == possible[1..][k - 1];
      if rest.Some? then
        var k :| (0 <= k < |possible[1..]| && possible[1..][k] == rest.value &&
          Passes(md, adj, possible[1..][k], everyWall) &&
          forall j :: 0 <= j < k ==> !Passes(md, adj, possible[1..][j], everyWall));
        assert possible[k + 1] == rest.value;
        rest
      else rest
  }

  function ExitMessage(d: Direction, opp: Direction, existing: string): string {
    "Neither the " + Resize.DirectionName(d) + " nor the " + Resize.DirectionName(opp) + " side of " +
    existing + " and adjancent room is free so shifting is not possible."
  }

  // --- the placement ---

  // room_data[new_room] = new_coords: the rectangle from the corner.
  function PlaceRoom(p: Plan, newRoom: string, corner: Result<Point>, length: int, width: int): (r: Result<Plan>)
    ensures r.Err? <==> corner.Err?
    ensures r.Err? ==> r.error == corner.error
    ensures r.Ok? ==> r.value == SetRoom(p, newRoom, RectangleWalls(corner.value, length, width))
  {
    match corner
    case Err(e) => Err(e)
    case Ok(tl) => Ok(SetRoom(p, newRoom, RectangleWalls(tl, length, width)))
  }

  // The branch where the side is blocked and the opposite side free: the
  // existing room moves away from d and the new room takes its place.
  function MoveExisting(rd: Plan, newRoom: string, length: int, width: int, existing: string,
                        d: Direction, pick: Result<Pick>): Result<Plan>
  {
    // select_coordinate_pair runs before the move.
    match pick
    case Err(e) => Err(e)
    case Ok(_) =>
      match ShiftExisting(rd, existing, ExistingShift(d, length, width))
      case Err(e) => Err(e)
      case Ok(shifted) => PlaceRoom(shifted, newRoom, Corner(AfterShift, d, pick, length, width), length, width)
  }

  // The branch where both the side and the opposite side of the existing
  // room are blocked: the neighbours on the first passing side move, with
  // the existing room when that side is the opposite one.  asWritten picks
  // the shifts of new_room_placement.py for the neighbours on side d.
  function ShiftNeighbours(asWritten: bool, adjacency: (Plan, Result<Adjacency.Sides>), md: Metadata,
                           newRoom: string, length: int, width: int, existing: string, given: string,
                           d: Direction, opp: Direction, pick: Result<Pick>, everyWall: bool): Result<Plan>
  {
    var (rd, adj) := adjacency;
    match adj
    case Err(e) => Err(e)
    case Ok(sides) =>
      match FirstPassing(md, sides, PossibleDirections(given), everyWall)
      case None => Err(Exit(ExitMessage(d, opp, existing)))
      case Some(first) =>
        var same := Adjacency.Side(sides, first);
        if first == opp then
          PlaceRoom(ShiftRooms(rd, same + {existing}, ExistingShift(d, length, width)), newRoom,
                    Corner(AfterShift, d, pick, length, width), length, width)
        else
          PlaceRoom(ShiftRooms(rd, same, NeighbourOffset(asWritten, d, length, width)), newRoom, Corner(Flush, d, pick, length, width), length, width)
  }

  // add_new_room_main of new_room_placement.py from the snapped plan and its
  // metadata on.
  function PlaceAgainst(asWritten: bool, rd: Plan, md: Metadata, newRoom: string, length: int, width: int,
                        existing: string, given: string, u2: seq<int>): Result<Plan>
  {
    match SideDirection(given)
    case Err(e) => Err(e)
    case Ok(d) =>
      match SideFree(md, existing, d)
      case Err(e) => Err(e)
      case Ok(isFree) =>
        var opp := OppositeDirection(d).value;
        var pick := SelectCoordinatePair(WallCoordinates(md, existing, Resize.DirectionName(d)), d).value;
        if isFree then PlaceRoom(rd, newRoom, Corner(Flush, d, pick, length, width), length, width)
        else if SideFree(md, existing, opp).value then MoveExisting(rd, newRoom, length, width, existing, d, pick)
        else
          ShiftNeighbours(asWritten, Adjacency.SnappedAdjacencyAt(existing, rd, NeighbourSnap, u2), md,
                          newRoom, length, width, existing, given, d, opp, pick, false)
  }

  // add_new_room_main: the plan is snapped with threshold 0.2 and its
  // metadata built before anything else; u1 and u2 are the orders of the
  // two snaps' value sets.
  function AddNewRoomMainWith(asWritten: bool, roomData: Plan, newRoom: string, length: int, width: int,
                              existing: string, given: string, u1: seq<int>, u2: seq<int>): Result<Plan>
  {
    var rd := Snap.SnapPlan(roomData, PlacementSnap, u1);
    match MakeRoomDataSpec(rd)
    case Err(e) => Err(e)
    case Ok(md) => PlaceAgainst(asWritten, rd, md, newRoom, length, width, existing, given, u2)
  }

  function AddNewRoomMainAsWritten(roomData: Plan, newRoom: string, length: int, width: int,
                                   existing: string, given: string, u1: seq<int>, u2: seq<int>): Result<Plan>
  {
    AddNewRoomMainWith(true, roomData, newRoom, length, width, existing, given, u1, u2)
  }

  // With the neighbour shifts of new_room_maain.py.
  function AddNewRoomMainSpec(roomData: Plan, newRoom: string, length: int, width: int,
                              existing: string, given: string, u1: seq<int>, u2: seq<int>): Result<Plan>
  {
    AddNewRoomMainWith(false, roomData, newRoom, length, width, existing, given, u1, u2)
  }

  method AddNewRoomMain(roomData: Plan, newRoom: string, length: int, width: int,
                        existing: string, given: string, u1: seq<int>, u2: seq<int>) returns (r: Result<Plan>)
    requires Snap.IsUniqueOrder(u1, roomData)
    requires Snap.IsUniqueOrder(u2, Snap.SnapPlan(roomData, PlacementSnap, u1))
    ensures r == AddNewRoomMainAsWritten(roomData, newRoom, length, width, existing, given, u1, u2)
  {
    var rd := Snap.ReplaceNearValues(roomData, PlacementSnap, u1);
    var metadata := MakeRoomData(rd);
    if metadata.Err? {
      return Err(metadata.error);
    }
    var md := metadata.value;
    var side := SideDirection(given);
    if side.Err? {
      return Err(side.error);
    }
    var d := side.value;
    var isFree := IsSideFree(md, existing, d);
    if isFree.Err? {
      return Err(isFree.error);
    }
    var coords := WallCoordinates(md, existing, Resize.DirectionName(d));
    var opp := OppositeDirection(d).value;
    var oppFree := IsSideFree(md, existing, opp);
    var pick := SelectCoordinatePair(coords, d).value;
    if isFree.value {
      r := PlaceRoom(rd, newRoom, Corner(Flush, d, pick, length, width), length, width);
    } else if oppFree.value {
      r := MoveExisting(rd, newRoom, length, width, existing, d, pick);
    } else {
      var snapped, adj := FindNeighbours(existing, rd, u2);
      r := ShiftNeighbours(true, (snapped, adj), md, newRoom, length, width, existing, given, d, opp, pick, false);
    }
  }

  // --- add_new_room of new_room_maain.py ---

  // The rooms after a move, or, after a placement flush against a free
  // side, their wall segments.
  datatype Placed = Rooms(plan: Plan) | WallSegments(data: Segments.WallData)

  function AsRooms(r: Result<Plan>): (q: Result<Placed>)
    ensures q.Ok? <==> r.Ok?
    ensures q.Ok? ==> q.value == Rooms(r.value)
    ensures q.Err? ==> q.error == r.error
  {
    match r
    case Err(e) => Err(e)
    case Ok(p) => Ok(Rooms(p))
  }

  // The flush placement of new_room_maain.py returns the segments.
  function FlushSegments(roomData: Plan, newRoom: string, length: int, width: int, d: Direction,
                         pick: Result<Pick>, euclid: Wall -> int): (r: Result<Placed>)
    ensures r.Ok? ==> r.value.WallSegments?
  {
    match PlaceRoom(roomData, newRoom, Corner(Flush, d, pick, length, width), length, width)
    case Err(e) => Err(e)
    case Ok(p) => Ok(WallSegments(Segments.ConvertAllRoomsToWalls(p, Segments.DefaultThickness, euclid)))
  }

  // add_new_room of new_room_maain.py, named after its checked choice of
  // endpoint (SelectCheckedPair).  The metadata comes from the caller, the plan is not snapped first, the
  // corner depends on the flag of select_coordinate_pair, and the
  // neighbours are those of the effective find_adjacent_rooms (threshold
  // 0.2, unique the order of its value set).  euclid gives the segment
  // lengths.
  function AddNewRoomChecked(roomData: Plan, newRoom: string, length: int, width: int, existing: string,
                           given: string, md: Metadata, unique: seq<int>, euclid: Wall -> int): (r: Result<Placed>)
    ensures SideDirection(given).Err? ==> r == Err(ValueError(SideError))
    ensures SideDirection(given).Ok? && FindMeta(md, existing).None? ==> r == Err(KeyError(existing))
  {
    match SideDirection(given)
    case Err(e) => Err(e)
    case Ok(d) =>
      match SideFree(md, existing, d)
      case Err(e) => Err(e)
      case Ok(isFree) =>
        var opp := OppositeDirection(d).value;
        var pick := SelectCheckedPair(WallCoordinates(md, existing, Resize.DirectionName(d)), d, md, existing);
        if isFree then FlushSegments(roomData, newRoom, length, width, d, pick, euclid)
        else if SideFree(md, existing, opp).value then
          AsRooms(MoveExisting(roomData, newRoom, length, width, existing, d, pick))
        else
          AsRooms(ShiftNeighbours(false, Adjacency.SnappedAdjacencySpec(existing, roomData, unique), md,
                                  newRoom, length, width, existing, given, d, opp, pick, true))
  }

  // --- what the placements promise ---

  // The walls of a room, none for a missing room.
  function RoomWalls(p: Plan, name: string): seq<Wall> {
    match IndexOf(p, name)
    case None => []
    case Some(i) => p[i].walls
  }

  lemma SetRoomWalls(p: Plan, name: string, walls: seq<Wall>)
    ensures RoomWalls(SetRoom(p, name, walls), name) == walls
  {
    var r := SetRoom(p, name, walls);
    if HasRoom(p, name) {
      var i := IndexOf(p, name).value;
      assert r[i].name == name;
    } else {
      assert r[|p|].name == name;
    }
  }

  // Every room of p not named is in q unchanged, at the same position.
  predicate Unchanged(p: Plan, q: Plan, names: set<string>) {
    |p| <= |q| && forall i :: 0 <= i < |p| && p[i].name !in names ==> q[i] == p[i]
  }

  // The new room's side facing the existing room lies on the line of the
  // wall w on side d.
  predicate Touches(nw: seq<Wall>, w: Wall, d: Direction) {
    |nw| > 0 &&
    match d
    case North => MinY(nw) == w.start.y
    case South => MaxY(nw) == w.start.y
    case East => MinX(nw) == w.start.x
    case West => MaxX(nw) == w.start.x
    case Unknown => false
  }

  // ... and the new room is a length by width rectangle, flush with the
  // wall's west end (North, South) or north end (East, West).
  predicate Against(nw: seq<Wall>, w: Wall, d: Direction, length: int, width: int) {
    |nw| == 4 && Touches(nw, w, d) &&
    MaxX(nw) - MinX(nw) == length && MaxY(nw) - MinY(nw) == width &&
    (d == North || d == South ==> MinX(nw) == WallMinX(w)) &&
    (d == East || d == West ==> MaxY(nw) == WallMaxY(w))
  }

  // A wall lying along side d.
  predicate Along(w: Wall, d: Direction) {
    (d == North || d == South ==> w.start.y == w.end.y) && (d == East || d == West ==> w.start.x == w.end.x)
  }

  // The rectangle that the flush corner of new_room_placement.py gives is
  // against the wall.
  lemma FlushIsAgainst(w: Wall, d: Direction, length: nat, width: nat)
    requires d != Unknown && Along(w, d)
    ensures var p := SelectCoordinatePair(Coordinates(w), d).value.value.point.value;
      Against(RectangleWalls(TopLeft(Flush, d, p, true, length, width), length, width), w, d, length, width)
  {
    var p := SelectCoordinatePair(Coordinates(w), d).value.value.point.value;
    RectangleExtent(TopLeft(Flush, d, p, true, length, width), length, width);
    FlushTouches(d, p, true, length, width);
  }

  function MovedWall(w: Wall, o: Offset): Wall {
    Wall(Moved(w.start, o), Moved(w.end, o))
  }

  // The corner after the existing room moved is against the moved wall.
  lemma AfterShiftIsAgainst(w: Wall, d: Direction, length: nat, width: nat)
    requires d != Unknown && Along(w, d)
    ensures var p := SelectCoordinatePair(Coordinates(w), d).value.value.point.value;
      Against(RectangleWalls(TopLeft(AfterShift, d, p, true, length, width), length, width),
              MovedWall(w, ExistingShift(d, length, width)), d, length, width)
  {
    var o := ExistingShift(d, length, width);
    var p := SelectCoordinatePair(Coordinates(w), d).value.value.point.value;
    var q := SelectCoordinatePair(Coordinates(MovedWall(w, o)), d).value.value.point.value;
    assert q == Moved(p, o);
    AfterShiftIsFlushAgainstMoved(d, p, true, length, width);
    FlushIsAgainst(MovedWall(w, o), d, length, width);
  }

  // The wall found on side d lies along that side.
  lemma FoundWallIsAlong(rd: Plan, existing: string, d: Direction)
    requires Rectilinear(rd)
    ensures var md := MakeRoomDataSpec(rd).value;
      var c := WallCoordinates(md, existing, Resize.DirectionName(d));
      c.Coordinates? ==> Along(c.wall, d)
  {
    var md := MakeRoomDataSpec(rd).value;
    MetadataOriented(rd);
    OrientedWallIsAlong(md, existing, d);
  }

  lemma OrientedWallIsAlong(md: Metadata, existing: string, d: Direction)
    requires Oriented(md)
    ensures var c := WallCoordinates(md, existing, Resize.DirectionName(d));
      c.Coordinates? ==> Along(c.wall, d)
  {
    if FindMeta(md, existing).Some? {
      WallCoordinatesFacing(md, existing, d);
    }
  }

  // The lemmas below hold for the code as written (asWritten) and for the
  // corrected neighbour shift alike.

  // A side name other than Top, Bottom, Left and Right is a ValueError once
  // the metadata is built.
  lemma InvalidSideIsValueError(asWritten: bool, roomData: Plan, newRoom: string, length: int, width: int,
                                existing: string, given: string, u1: seq<int>, u2: seq<int>)
    requires Rectilinear(Snap.SnapPlan(roomData, PlacementSnap, u1))
    requires given !in {"Top", "Bottom", "Left", "Right"}
    ensures AddNewRoomMainWith(asWritten, roomData, newRoom, length, width, existing, given, u1, u2) == Err(ValueError(SideError))
  {
    var rd := Snap.SnapPlan(roomData, PlacementSnap, u1);
    assert PlaceAgainst(asWritten, rd, MakeRoomDataSpec(rd).value, newRoom, length, width, existing, given, u2) == Err(ValueError(SideError));
  }

  // ... and so it is in new_room_maain.py, before anything else.
  lemma CheckedInvalidSideIsValueError(roomData: Plan, newRoom: string, length: int, width: int, existing: string,
                                     given: string, md: Metadata, unique: seq<int>, euclid: Wall -> int)
    requires given !in {"Top", "Bottom", "Left", "Right"}
    ensures AddNewRoomChecked(roomData, newRoom, length, width, existing, given, md, unique, euclid) == Err(ValueError(SideError))
  {
  }

  // Every room with metadata is a room of the plan.
  lemma MetadataRoomsExist(p: Plan, name: string)
    requires Rectilinear(p) && FindMeta(MakeRoomDataSpec(p).value, name).Some?
    ensures HasRoom(p, name)
  {
    var md := MakeRoomDataSpec(p).value;
    var m := FindMeta(md, name).value;
    var i := MetaOfRoom(p, m);
  }

  // With side d of the existing room free, only the new room is written: a
  // length by width rectangle against the first wall facing d.
  lemma FreeSidePlacesFlush(asWritten: bool, roomData: Plan, newRoom: string, length: nat, width: nat,
                            existing: string, given: string, u1: seq<int>, u2: seq<int>)
    requires Rectilinear(Snap.SnapPlan(roomData, PlacementSnap, u1))
    requires SideDirection(given).Ok?
    requires SideFree(MakeRoomDataSpec(Snap.SnapPlan(roomData, PlacementSnap, u1)).value, existing,
                      SideDirection(given).value) == Ok(true)
    ensures var rd := Snap.SnapPlan(roomData, PlacementSnap, u1);
      var d := SideDirection(given).value;
      var c := WallCoordinates(MakeRoomDataSpec(rd).value, existing, Resize.DirectionName(d));
      var r := AddNewRoomMainWith(asWritten, roomData, newRoom, length, width, existing, given, u1, u2);
      r.Ok? && c.Coordinates? && Unchanged(rd, r.value, {newRoom}) &&
      Against(RoomWalls(r.value, newRoom), c.wall, d, length, width)
  {
    var rd := Snap.SnapPlan(roomData, PlacementSnap, u1);
    var md := MakeRoomDataSpec(rd).value;
    var d := SideDirection(given).value;
    var c := WallCoordinates(md, existing, Resize.DirectionName(d));
    FreeSideHasWall(md, existing, d);
    FoundWallIsAlong(rd, existing, d);
    var p := SelectCoordinatePair(c, d).value.value.point.value;
    var nw := RectangleWalls(TopLeft(Flush, d, p, true, length, width), length, width);
    assert AddNewRoomMainWith(asWritten, roomData, newRoom, length, width, existing, given, u1, u2) == Ok(SetRoom(rd, newRoom, nw));
    SetRoomWalls(rd, newRoom, nw);
    FlushIsAgainst(c.wall, d, length, width);
  }

  // With side d blocked and the opposite side free, the existing room moves
  // away from d by the new room's size, the new room goes against the moved
  // wall, and nothing else changes.
  lemma BlockedSideMovesExisting(asWritten: bool, roomData: Plan, newRoom: string, length: nat, width: nat,
                                 existing: string, given: string, u1: seq<int>, u2: seq<int>)
    requires Rectilinear(Snap.SnapPlan(roomData, PlacementSnap, u1))
    requires SideDirection(given).Ok? && existing != newRoom
    requires var md := MakeRoomDataSpec(Snap.SnapPlan(roomData, PlacementSnap, u1)).value;
      var d := SideDirection(given).value;
      SideFree(md, existing, d) == Ok(false) && SideFree(md, existing, OppositeDirection(d).value) == Ok(true) &&
      WallCoordinates(md, existing, Resize.DirectionName(d)).Coordinates?
    ensures var rd := Snap.SnapPlan(roomData, PlacementSnap, u1);
      var d := SideDirection(given).value;
      var o := ExistingShift(d, length, width);
      var c := WallCoordinates(MakeRoomDataSpec(rd).value, existing, Resize.DirectionName(d));
      var r := AddNewRoomMainWith(asWritten, roomData, newRoom, length, width, existing, given, u1, u2);
      r.Ok? && Unchanged(rd, r.value, {newRoom, existing}) &&
      RoomWalls(r.value, existing) == ShiftCoordinates(RoomWalls(rd, existing), o) &&
      Against(RoomWalls(r.value, newRoom), MovedWall(c.wall, o), d, length, width)
  {
    var rd := Snap.SnapPlan(roomData, PlacementSnap, u1);
    var md := MakeRoomDataSpec(rd).value;
    var d := SideDirection(given).value;
    var c := WallCoordinates(md, existing, Resize.DirectionName(d));
    FoundWallIsAlong(rd, existing, d);
    MetadataRoomsExist(rd, existing);
    var pick := SelectCoordinatePair(c, d).value;
    assert AddNewRoomMainWith(asWritten, roomData, newRoom, length, width, existing, given, u1, u2) ==
      MoveExisting(rd, newRoom, length, width, existing, d, pick);
    MoveExistingAgainst(rd, newRoom, length, width, existing, d, c.wall);
  }

  lemma MoveExistingAgainst(rd: Plan, newRoom: string, length: nat, width: nat, existing: string,
                            d: Direction, w: Wall)
    requires d != Unknown && Along(w, d) && HasRoom(rd, existing) && existing != newRoom
    ensures var o := ExistingShift(d, length, width);
      var r := MoveExisting(rd, newRoom, length, width, existing, d, SelectCoordinatePair(Coordinates(w), d).value);
      r.Ok? && Unchanged(rd, r.value, {newRoom, existing}) &&
      RoomWalls(r.value, existing) == ShiftCoordinates(RoomWalls(rd, existing), o) &&
      Against(RoomWalls(r.value, newRoom), MovedWall(w, o), d, length, width)
  {
    var o := ExistingShift(d, length, width);
    var shifted := ShiftRooms(rd, {existing}, o);
    var sel := SelectCoordinatePair(Coordinates(w), d).value;
    var p := sel.value.point.value;
    var nw := RectangleWalls(TopLeft(AfterShift, d, p, true, length, width), length, width);
    var r := SetRoom(shifted, newRoom, nw);
    assert MoveExisting(rd, newRoom, length, width, existing, d, sel) == Ok(r);
    SetRoomWalls(shifted, newRoom, nw);
    AfterShiftIsAgainst(w, d, length, width);
    var i := IndexOf(rd, existing).value;
    IndexOfByNames(rd, shifted, existing, i);
    IndexOfByNames(shifted, r, existing, i);
  }

  // With both sides blocked and the neighbours on side d itself first to
  // pass, those neighbours move by the neighbour offset (as written, +width
  // or +length whatever the side; as intended, on toward d), the new room
  // goes against the existing room's wall, and nothing else changes.
  lemma BlockedSidesMoveNeighbours(asWritten: bool, roomData: Plan, newRoom: string, length: nat, width: nat,
                                   existing: string, given: string, u1: seq<int>, u2: seq<int>)
    requires Rectilinear(Snap.SnapPlan(roomData, PlacementSnap, u1))
    requires SideDirection(given).Ok?
    requires var rd := Snap.SnapPlan(roomData, PlacementSnap, u1);
      var md := MakeRoomDataSpec(rd).value;
      var d := SideDirection(given).value;
      var adj := Adjacency.SnappedAdjacencyAt(existing, rd, NeighbourSnap, u2).1;
      SideFree(md, existing, d) == Ok(false) && SideFree(md, existing, OppositeDirection(d).value) == Ok(false) &&
      WallCoordinates(md, existing, Resize.DirectionName(d)).Coordinates? &&
      adj.Ok? && FirstPassing(md, adj.value, PossibleDirections(given), false) == Some(d) &&
      newRoom !in Adjacency.Side(adj.value, d)
    ensures var rd := Snap.SnapPlan(roomData, PlacementSnap, u1);
      var d := SideDirection(given).value;
      var (moved, adj) := Adjacency.SnappedAdjacencyAt(existing, rd, NeighbourSnap, u2);
      var same := Adjacency.Side(adj.value, d);
      var c := WallCoordinates(MakeRoomDataSpec(rd).value, existing, Resize.DirectionName(d));
      var r := AddNewRoomMainWith(asWritten, roomData, newRoom, length, width, existing, given, u1, u2);
      r.Ok? && Unchanged(moved, r.value, same + {newRoom}) &&
      (forall i :: 0 <= i < |moved| && moved[i].name in same ==>
        r.value[i] == Room(moved[i].name, ShiftCoordinates(moved[i].walls, NeighbourOffset(asWritten, d, length, width)))) &&
      Against(RoomWalls(r.value, newRoom), c.wall, d, length, width)
  {
    var rd := Snap.SnapPlan(roomData, PlacementSnap, u1);
    var md := MakeRoomDataSpec(rd).value;
    var d := SideDirection(given).value;
    var (moved, adj) := Adjacency.SnappedAdjacencyAt(existing, rd, NeighbourSnap, u2);
    var same := Adjacency.Side(adj.value, d);
    var c := WallCoordinates(md, existing, Resize.DirectionName(d));
    FoundWallIsAlong(rd, existing, d);
    var pick := SelectCoordinatePair(c, d).value;
    assert d != OppositeDirection(d).value;
    assert AddNewRoomMainWith(asWritten, roomData, newRoom, length, width, existing, given, u1, u2) ==
      PlaceRoom(ShiftRooms(moved, same, NeighbourOffset(asWritten, d, length, width)), newRoom,
                Corner(Flush, d, pick, length, width), length, width);
    NeighboursMoveAgainst(moved, same, newRoom, length, width, d, c.wall, NeighbourOffset(asWritten, d, length, width));
  }

  lemma NeighboursMoveAgainst(moved: Plan, same: set<string>, newRoom: string, length: nat, width: nat,
                              d: Direction, w: Wall, o: Offset)
    requires d != Unknown && Along(w, d) && newRoom !in same
    ensures var r := PlaceRoom(ShiftRooms(moved, same, o), newRoom,
                               Corner(Flush, d, SelectCoordinatePair(Coordinates(w), d).value, length, width), length, width);
      r.Ok? && Unchanged(moved, r.value, same + {newRoom}) &&
      (forall i :: 0 <= i < |moved| && moved[i].name in same ==>
        r.value[i] == Room(moved[i].name, ShiftCoordinates(moved[i].walls, o))) &&
      Against(RoomWalls(r.value, newRoom), w, d, length, width)
  {
    var shifted := ShiftRooms(moved, same, o);
    var p := SelectCoordinatePair(Coordinates(w), d).value.value.point.value;
    var nw := RectangleWalls(TopLeft(Flush, d, p, true, length, width), length, width);
    SetRoomWalls(shifted, newRoom, nw);
    FlushIsAgainst(w, d, length, width);
  }

  // The two neighbour shifts differ only for the South and West sides, so
  // the code as written places Top and Right rooms as intended.
  lemma AsWrittenAgreesOnTopAndRight(roomData: Plan, newRoom: string, length: int, width: int,
                                     existing: string, given: string, u1: seq<int>, u2: seq<int>)
    requires given == "Top" || given == "Right"
    ensures AddNewRoomMainAsWritten(roomData, newRoom, length, width, existing, given, u1, u2) ==
      AddNewRoomMainSpec(roomData, newRoom, length, width, existing, given, u1, u2)
  {
    var rd := Snap.SnapPlan(roomData, PlacementSnap, u1);
    if MakeRoomDataSpec(rd).Ok? {
      PlaceAgainstAgrees(rd, MakeRoomDataSpec(rd).value, newRoom, length, width, existing, given, u2);
    }
  }

  lemma PlaceAgainstAgrees(rd: Plan, md: Metadata, newRoom: string, length: int, width: int,
                           existing: string, given: string, u2: seq<int>)
    requires given == "Top" || given == "Right"
    ensures PlaceAgainst(true, rd, md, newRoom, length, width, existing, given, u2) ==
      PlaceAgainst(false, rd, md, newRoom, length, width, existing, given, u2)
  {
    var d := SideDirection(given).value;
    if SideFree(md, existing, d).Ok? {
      var opp := OppositeDirection(d).value;
      var pick := SelectCoordinatePair(WallCoordinates(md, existing, Resize.DirectionName(d)), d).value;
      var adjacency := Adjacency.SnappedAdjacencyAt(existing, rd, NeighbourSnap, u2);
      ShiftNeighboursAgree(adjacency, md, newRoom, length, width, existing, given, d, opp, pick);
    }
  }

  lemma ShiftNeighboursAgree(adjacency: (Plan, Result<Adjacency.Sides>), md: Metadata, newRoom: string,
                             length: int, width: int, existing: string, given: string,
                             d: Direction, opp: Direction, pick: Result<Pick>)
    requires d == North || d == East
    ensures ShiftNeighbours(true, adjacency, md, newRoom, length, width, existing, given, d, opp, pick, false) ==
      ShiftNeighbours(false, adjacency, md, newRoom, length, width, existing, given, d, opp, pick, false)
  {
    assert NeighbourShiftAsWritten(d, length, width) == NeighbourShift(d, length, width);
  }

  // Left or Right against a room with no wall facing that side, the
  // opposite side free: select_coordinate_pair raises IndexError (key c[1]
  // on the characters of the lookup's message) before the move, as written
  // and corrected alike.
  lemma MissingSideWallIsIndexError(asWritten: bool, rd: Plan, md: Metadata, newRoom: string, length: int, width: int,
                                    existing: string, given: string, u2: seq<int>)
    requires given == "Left" || given == "Right"
    requires FindMeta(md, existing).Some?
    requires var ws := md[FindMeta(md, existing).value].walls;
      forall k :: 0 <= k < |ws| ==> ws[k].direction != SideDirection(given).value
    requires SideFree(md, existing, OppositeDirection(SideDirection(given).value).value) == Ok(true)
    ensures PlaceAgainst(asWritten, rd, md, newRoom, length, width, existing, given, u2) == Err(IndexError)
  {
    WallCoordinatesFacing(md, existing, SideDirection(given).value);
  }

  // ... and so it is in new_room_maain.py, after the side tests.
  lemma CheckedMissingSideWallIsIndexError(roomData: Plan, newRoom: string, length: int, width: int, existing: string,
                                           given: string, md: Metadata, unique: seq<int>, euclid: Wall -> int)
    requires given == "Left" || given == "Right"
    requires FindMeta(md, existing).Some?
    requires var ws := md[FindMeta(md, existing).value].walls;
      forall k :: 0 <= k < |ws| ==> ws[k].direction != SideDirection(given).value
    requires SideFree(md, existing, OppositeDirection(SideDirection(given).value).value) == Ok(true)
    ensures AddNewRoomChecked(roomData, newRoom, length, width, existing, given, md, unique, euclid) == Err(IndexError)
  {
    var d := SideDirection(given).value;
    WallCoordinatesFacing(md, existing, d);
    var c := WallCoordinates(md, existing, Resize.DirectionName(d));
    assert SelectCheckedPair(c, d, md, existing) == Err(IndexError);
  }

  // With both sides blocked and no side of neighbours that can move, the
  // call stops with the exit message.
  lemma NoFreeSideExits(asWritten: bool, roomData: Plan, newRoom: string, length: int, width: int,
                        existing: string, given: string, u1: seq<int>, u2: seq<int>)
    requires Rectilinear(Snap.SnapPlan(roomData, PlacementSnap, u1))
    requires SideDirection(given).Ok?
    requires var rd := Snap.SnapPlan(roomData, PlacementSnap, u1);
      var md := MakeRoomDataSpec(rd).value;
      var d := SideDirection(given).value;
      var adj := Adjacency.SnappedAdjacencyAt(existing, rd, NeighbourSnap, u2).1;
      SideFree(md, existing, d) == Ok(false) && SideFree(md, existing, OppositeDirection(d).value) == Ok(false) &&
      adj.Ok? && forall dir :: dir in PossibleDirections(given) ==> !Passes(md, adj.value, dir, false)
    ensures var d := SideDirection(given).value;
      AddNewRoomMainWith(asWritten, roomData, newRoom, length, width, existing, given, u1, u2) ==
      Err(Exit(ExitMessage(d, OppositeDirection(d).value, existing)))
  {
  }

  // new_room_maain.py hands back wall segments exactly when the requested
  // side was free.
  lemma CheckedSegmentsIffFree(roomData: Plan, newRoom: string, length: int, width: int, existing: string,
                             given: string, md: Metadata, unique: seq<int>, euclid: Wall -> int)
    requires SideDirection(given).Ok?
    ensures var r := AddNewRoomChecked(roomData, newRoom, length, width, existing, given, md, unique, euclid);
      r.Ok? ==> (r.value.WallSegments? <==> SideFree(md, existing, SideDirection(given).value) == Ok(true))
  {
  }

  // After a flush placement the segments convert back to the plan with the
  // new room touching the wall and every other room unchanged.
  lemma CheckedFlushPlacement(roomData: Plan, newRoom: string, length: nat, width: nat, existing: string,
                            given: string, md: Metadata, unique: seq<int>, euclid: Wall -> int)
    requires SideDirection(given).Ok?
    requires SideFree(md, existing, SideDirection(given).value) == Ok(true)
    requires Oriented(md)
    ensures var r := AddNewRoomChecked(roomData, newRoom, length, width, existing, given, md, unique, euclid);
      var d := SideDirection(given).value;
      var c := WallCoordinates(md, existing, Resize.DirectionName(d));
      r.Ok? && r.value.WallSegments? && c.Coordinates? &&
      var back := Segments.WallSegmentsToRooms(r.value.data);
      Unchanged(roomData, back, {newRoom}) && Touches(RoomWalls(back, newRoom), c.wall, d)
  {
    var d := SideDirection(given).value;
    var c := WallCoordinates(md, existing, Resize.DirectionName(d));
    FreeSideHasWall(md, existing, d);
    OrientedWallIsAlong(md, existing, d);
    var pick := SelectCheckedPair(c, d, md, existing).value;
    assert AddNewRoomChecked(roomData, newRoom, length, width, existing, given, md, unique, euclid) ==
      FlushSegments(roomData, newRoom, length, width, d, Ok(pick), euclid);
    FlushSegmentsTouch(roomData, newRoom, length, width, d, c.wall, pick, euclid);
  }

  lemma FlushSegmentsTouch(roomData: Plan, newRoom: string, length: nat, width: nat, d: Direction,
                           w: Wall, pick: Pick, euclid: Wall -> int)
    requires d != Unknown && Along(w, d)
    requires pick.point == Some(w.start) || pick.point == Some(w.end)
    ensures var r := FlushSegments(roomData, newRoom, length, width, d, Ok(pick), euclid);
      r.Ok? && r.value.WallSegments? &&
      var back := Segments.WallSegmentsToRooms(r.value.data);
      Unchanged(roomData, back, {newRoom}) && Touches(RoomWalls(back, newRoom), w, d)
  {
    var p := pick.point.value;
    var nw := RectangleWalls(TopLeft(Flush, d, p, pick.check, length, width), length, width);
    var placed := SetRoom(roomData, newRoom, nw);
    Segments.RoundTrip(placed, Segments.DefaultThickness, euclid);
    SetRoomWalls(roomData, newRoom, nw);
    FlushTouches(d, p, pick.check, length, width);
  }
}
