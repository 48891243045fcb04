// The add-room flow of backend_project/src/add_new_room.py: the minimum
// sizes, the validation of the existing rooms, the insertion that pushes
// conflicting rooms out of the new room's way along one axis, the new
// rectangle itself and the overlap repair that moves the new room right.
module AddRoom {
  import opened Wrappers
  import opened Geometry
  import opened FloorPlan
  import Placement
  import Segments

  // The minimum sizes of the module, in hundredths.
  const Constraints: map<string, map<string, int>> := map[
    "Master Bedroom" := map["min_width" := 689, "min_height" := 689],
    "Kitchen" := map["min_width" := 591, "min_height" := 591],
    "Living Room" := map["min_width" := 689, "min_height" := 689],
    "Bedroom" := map["min_width" := 689, "min_height" := 689],
    "Dining Room" := map["min_width" := 500, "min_height" := 500],
    "Foyer" := map["min_width" := 330, "min_height" := 330],
    "En suite Washroom" := map["min_width" := 330, "min_height" := 330],
    "Common Washroom" := map["min_width" := 330, "min_height" := 330],
    "Passage" := map["min_width" := 330, "min_height" := 330],
    "Bathroom" := map["min_width" := 330, "min_height" := 330],
    "Washroom" := map["min_width" := 330, "min_height" := 330],
    "Study" := map["min_width" := 500, "min_height" := 500]
  ]

  // The messages of the exceptions raised on the way.
  const EmptyMax := "max() arg is an empty sequence"
  const EmptyMin := "min() arg is an empty sequence"
  const FlowSideError := "Direction must be one of: right, left, top, bottom"
  const PlaceSideError := "Direction must be one of 'left', 'right', 'top', 'bottom'."

  // constraints.get(room, {}).get(key, 0): only the keys min_width and
  // min_height exist, so every other key reads as 0.
  function Limit(room: string, key: string): (r: int)
    ensures r >= 0
    ensures room !in Constraints ==> r == 0
    ensures key != "min_width" && key != "min_height" ==> r == 0
  {
    if room in Constraints && key in Constraints[room] then Constraints[room][key] else 0
  }

  datatype Dimensions = Dimensions(width: int, height: int)

  // get_room_dimensions: the extents of the bounding box; max() of no
  // values raises.
  function GetRoomDimensions(walls: seq<Wall>): (r: Result<Dimensions>)
    ensures r.Err? <==> |walls| == 0
    ensures r.Err? ==> r.error == ValueError(EmptyMax)
    ensures r.Ok? ==> r.value.width >= 0 && r.value.height >= 0
    ensures r.Ok? ==> forall k :: 0 <= k < |walls| ==>
      WallMaxX(walls[k]) - WallMinX(walls[k]) <= r.value.width &&
      WallMaxY(walls[k]) - WallMinY(walls[k]) <= r.value.height
  {
    if |walls| == 0 then Err(ValueError(EmptyMax))
    else
      BoxContainsWalls(walls);
      Ok(Dimensions(MaxX(walls) - MinX(walls), MaxY(walls) - MinY(walls)))
  }

  // ---------------------------------------------------------------------
  // validate_existing_rooms

  // The message of a failed validation, by its parts.
  datatype Verdict = Valid | Violation(room: string, width: int, height: int, minWidth: int, minHeight: int)

  predicate TooSmall(name: string, d: Dimensions) {
    d.width < Limit(name, "min_width") || d.height < Limit(name, "min_height")
  }

  // One room of the loop: None lets the loop go on, otherwise it stops
  // with the value given.
  function CheckRoom(room: Room): (r: Option<Result<Verdict>>)
    ensures r.None? <==> GetRoomDimensions(room.walls).Ok? && !TooSmall(room.name, GetRoomDimensions(room.walls).value)
    ensures r.Some? && r.value.Err? ==> |room.walls| == 0 && r.value.error == ValueError(EmptyMax)
    ensures r.Some? && r.value.Ok? ==>
      (r.value.value.Violation? && r.value.value.room == room.name &&
       (r.value.value.width < r.value.value.minWidth || r.value.value.height < r.value.value.minHeight))
    ensures room.name !in Constraints && |room.walls| > 0 ==> r.None?
  {
    match GetRoomDimensions(room.walls)
    case Err(e) => Some(Err(e))
    case Ok(d) =>
      if TooSmall(room.name, d) then
        Some(Ok(Violation(room.name, d.width, d.height, Limit(room.name, "min_width"), Limit(room.name, "min_height"))))
      else None
  }

  function Validation(rooms: Plan): Result<Verdict>
  {
    if |rooms| == 0 then Ok(Valid)
    else match CheckRoom(rooms[0])
      case Some(v) => v
      case None => Validation(rooms[1..])
  }

  // The rooms pass iff every room passes; otherwise the result is the one
  // of the first room that does not.
  lemma {:induction false} ValidationFindsFirst(rooms: Plan)
    ensures Validation(rooms) == Ok(Valid) <==> forall i :: 0 <= i < |rooms| ==> CheckRoom(rooms[i]).None?
    ensures Validation(rooms) != Ok(Valid) ==>
      exists i :: 0 <= i < |rooms| && CheckRoom(rooms[i]) == Some(Validation(rooms)) &&
        forall j :: 0 <= j < i ==> CheckRoom(rooms[j]).None?
  {
    if |rooms| > 0 && CheckRoom(rooms[0]).None? {
      ValidationFindsFirst(rooms[1..]);
      assert forall i :: 1 <= i < |rooms| ==> rooms[1..][i - 1] == rooms[i];
      if Validation(rooms) != Ok(Valid) {
        var i :| 0 <= i < |rooms[1..]| && CheckRoom(rooms[1..][i]) == Some(Validation(rooms)) &&
          forall j :: 0 <= j < i ==> CheckRoom(rooms[1..][j]).None?;
        assert CheckRoom(rooms[i + 1]) == Some(Validation(rooms));
      }
    } else if |rooms| > 0 {
      assert CheckRoom(rooms[0]) == Some(Validation(rooms));
    }
  }

  // validate_existing_rooms: a loop that returns at the first room that
  // fails.
  method ValidateExistingRooms(rooms: Plan) returns (r: Result<Verdict>)
    ensures r == Validation(rooms)
  {
    var i := 0;
    while i < |rooms|
      invariant 0 <= i <= |rooms|
      invariant Validation(rooms) == Validation(rooms[i..])
    {
      assert rooms[i..][1..] == rooms[i + 1..];
      var c := CheckRoom(rooms[i]);
      if c.Some? {
        return c.value;
      }
      i := i + 1;
    }
    return Ok(Valid);
  }

  // ---------------------------------------------------------------------
  // The direction and the existing room's box

  datatype Side = Right | Left | Top | Bottom

  function SideName(s: Side): string {
    match s
    case Right => "right"
    case Left => "left"
    case Top => "top"
    case Bottom => "bottom"
  }

  // direction.lower() compared with the four names; anything else raises a
  // ValueError with the caller's message.
  function ParseSide(direction: string, message: string): (r: Result<Side>)
    ensures r.Err? <==> Placement.Lower(direction) !in {"right", "left", "top", "bottom"}
    ensures r.Err? ==> r.error == ValueError(message)
    ensures r.Ok? ==> SideName(r.value) == Placement.Lower(direction)
  {
    var d := Placement.Lower(direction);
    if d == "right" then Ok(Right)
    else if d == "left" then Ok(Left)
    else if d == "top" then Ok(Top)
    else if d == "bottom" then Ok(Bottom)
    else Err(ValueError(message))
  }

  lemma LowerIdempotent(s: string)
    ensures Placement.Lower(Placement.Lower(s)) == Placement.Lower(s)
  {
    var l := Placement.Lower(s);
    assert forall k :: 0 <= k < |s| ==> Placement.Lower(l)[k] == l[k];
  }

  // The direction is matched without regard to case, and each side is
  // recognised by its own name.
  lemma ParseSideIgnoresCase(direction: string, message: string)
    ensures ParseSide(Placement.Lower(direction), message) == ParseSide(direction, message)
  {
    LowerIdempotent(direction);
  }

  lemma ParseSideName(s: Side, message: string)
    ensures ParseSide(SideName(s), message) == Ok(s)
  {
    var n := SideName(s);
    assert Placement.Lower(n) == n by {
      assert forall k :: 0 <= k < |n| ==> Placement.Lower(n)[k] == n[k];
    }
  }

  datatype Box = Box(minX: int, maxX: int, minY: int, maxY: int)

  function BoxOf(walls: seq<Wall>): (b: Box)
    requires |walls| > 0
    ensures b.minX <= b.maxX && b.minY <= b.maxY
  {
    BoxContainsWalls(walls);
    Box(MinX(walls), MaxX(walls), MinY(walls), MaxY(walls))
  }

  // ---------------------------------------------------------------------
  // add_new_room

  // The corner (x0, y0): the new room's lower-left point.
  function Corner(s: Side, b: Box, width: int, height: int): Point {
    match s
    case Left => Point(b.minX - width, b.minY)
    case Right => Point(b.maxX, b.minY)
    case Top => Point(b.minX, b.maxY)
    case Bottom => Point(b.minX, b.minY - height)
  }

  // The new rectangle: four walls from the lower-left corner, counter-
  // clockwise (right, up, left, down).
  function NewRoomWalls(c: Point, width: int, height: int): (walls: seq<Wall>)
    ensures |walls| == 4
    ensures forall k :: 0 <= k < 3 ==> walls[k].end == walls[k + 1].start
    ensures walls[3].end == walls[0].start == c
  {
    var br := Point(c.x + width, c.y);
    var tr := Point(c.x + width, c.y + height);
    var tl := Point(c.x, c.y + height);
    [Wall(c, br), Wall(br, tr), Wall(tr, tl), Wall(tl, c)]
  }

  // The rectangle spans [x0, x0 + width] by [y0, y0 + height].
  lemma NewRoomExtent(c: Point, width: nat, height: nat)
    ensures var w := NewRoomWalls(c, width, height);
      MinX(w) == c.x && MaxX(w) == c.x + width && MinY(w) == c.y && MaxY(w) == c.y + height
  {
    var w := NewRoomWalls(c, width, height);
    BoxIs(w, (c.x, c.x + width, c.y, c.y + height), 0, 0, 0, 1);
  }

  // The exception min() or max() raises first for an empty existing room.
  function EmptyMessage(s: Side): string {
    if s == Right then EmptyMax else EmptyMin
  }

  // add_new_room: rooms[existing_room], the direction, the corner, then
  // rooms[new_room_name] = the rectangle.
  function AddNewRoom(rooms: Plan, newRoom: string, width: int, height: int,
                      existing: string, direction: string): (r: Result<Plan>)
    ensures r.Err? <==> !HasRoom(rooms, existing) || ParseSide(direction, PlaceSideError).Err? ||
                        |Placement.RoomWalls(rooms, existing)| == 0
    ensures !HasRoom(rooms, existing) ==> r == Err(KeyError(existing))
    ensures r.Ok? ==> Placement.Unchanged(rooms, r.value, {newRoom})
    ensures r.Ok? ==> forall k :: 0 <= k < |rooms| ==> r.value[k].name == rooms[k].name
  {
    if !HasRoom(rooms, existing) then Err(KeyError(existing))
    else
      var walls := Placement.RoomWalls(rooms, existing);
      match ParseSide(direction, PlaceSideError)
      case Err(e) => Err(e)
      case Ok(s) =>
        if |walls| == 0 then Err(ValueError(EmptyMessage(s)))
        else Ok(SetRoom(rooms, newRoom, NewRoomWalls(Corner(s, BoxOf(walls), width, height), width, height)))
  }

  // The new room is width by height, set against the chosen side of the
  // existing room's box and level with its lower (left/right) or left
  // (top/bottom) edge.
  lemma AddNewRoomFlush(rooms: Plan, newRoom: string, width: nat, height: nat, existing: string, direction: string)
    requires AddNewRoom(rooms, newRoom, width, height, existing, direction).Ok?
    ensures var b := BoxOf(Placement.RoomWalls(rooms, existing));
      var nw := Placement.RoomWalls(AddNewRoom(rooms, newRoom, width, height, existing, direction).value, newRoom);
      |nw| == 4 && MaxX(nw) - MinX(nw) == width && MaxY(nw) - MinY(nw) == height &&
      match ParseSide(direction, PlaceSideError).value
      case Left => MaxX(nw) == b.minX && MinY(nw) == b.minY
      case Right => MinX(nw) == b.maxX && MinY(nw) == b.minY
      case Top => MinY(nw) == b.maxY && MinX(nw) == b.minX
      case Bottom => MaxY(nw) == b.minY && MinX(nw) == b.minX
  {
    var walls := Placement.RoomWalls(rooms, existing);
    var s := ParseSide(direction, PlaceSideError).value;
    var nw := NewRoomWalls(Corner(s, BoxOf(walls), width, height), width, height);
    Placement.SetRoomWalls(rooms, newRoom, nw);
    NewRoomExtent(Corner(s, BoxOf(walls), width, height), width, height);
  }

  // ---------------------------------------------------------------------
  // The shift loop of add_new_room_flow

  datatype Axis = X | Y

  // new_room_box, shift_axis and shift_direction (forward for +1).
  datatype Insertion = Insertion(lo: int, hi: int, axis: Axis, forward: bool)

  function InsertionFor(s: Side, b: Box, width: int, height: int): Insertion {
    match s
    case Right => Insertion(b.maxX, b.maxX + width, X, true)
    case Left => Insertion(b.minX - width, b.minX, X, false)
    case Top => Insertion(b.maxY, b.maxY + height, Y, true)
    case Bottom => Insertion(b.minY - height, b.minY, Y, false)
  }

  // The insertion interval is exactly the new room's extent along the
  // shift axis: the loop clears the ground add_new_room then builds on.
  lemma InsertionIsNewRoom(s: Side, b: Box, width: nat, height: nat)
    ensures var ins := InsertionFor(s, b, width, height);
      var nw := NewRoomWalls(Corner(s, b, width, height), width, height);
      (ins.axis == X ==> MinX(nw) == ins.lo && MaxX(nw) == ins.hi) &&
      (ins.axis == Y ==> MinY(nw) == ins.lo && MaxY(nw) == ins.hi) &&
      (ins.axis == X <==> s == Left || s == Right) &&
      (ins.forward <==> s == Right || s == Top)
  {
    NewRoomExtent(Corner(s, b, width, height), width, height);
  }

  function AxisMin(walls: seq<Wall>, axis: Axis): int
    requires |walls| > 0
  {
    if axis == X then MinX(walls) else MinY(walls)
  }

  function AxisMax(walls: seq<Wall>, axis: Axis): int
    requires |walls| > 0
  {
    if axis == X then MaxX(walls) else MaxY(walls)
  }

  function AxisName(axis: Axis): string {
    if axis == X then "x" else "y"
  }

  function AlongAxis(axis: Axis, delta: int): Placement.Offset {
    if axis == X then Placement.Offset(delta, 0) else Placement.Offset(0, delta)
  }

  // max(new_room_box[0], min_val) < min(new_room_box[1], max_val)
  predicate OverlapsInsertion(ins: Insertion, lo: int, hi: int) {
    Max(ins.lo, lo) < Min(ins.hi, hi)
  }

  // delta: forward, the room's low end goes to the box's high end; backward,
  // its high end goes to the box's low end.
  function Delta(ins: Insertion, lo: int, hi: int): int {
    if ins.forward then ins.hi - lo else ins.lo - hi
  }

  // delta * shift_direction
  function Signed(delta: int, forward: bool): int {
    if forward then delta else -delta
  }

  // A room the loop moves: not the existing room, and its interval on the
  // shift axis strictly overlaps the insertion interval.
  predicate Moves(room: Room, existing: string, ins: Insertion) {
    room.name != existing && |room.walls| > 0 &&
    OverlapsInsertion(ins, AxisMin(room.walls, ins.axis), AxisMax(room.walls, ins.axis))
  }

  function MovedBy(room: Room, ins: Insertion): int
    requires |room.walls| > 0
  {
    Delta(ins, AxisMin(room.walls, ins.axis), AxisMax(room.walls, ins.axis))
  }

  // One room of the loop: an error, None for the guard's `return {}`, or
  // the room as the loop leaves it.  The guard compares against 'min_x' or
  // 'min_y', which no constraint has, so it never fires.
  function ClearRoom(room: Room, existing: string, ins: Insertion): (r: Result<Option<Room>>)
    ensures r.Err? <==> room.name != existing && |room.walls| == 0
    ensures r.Err? ==> r.error == ValueError(EmptyMin)
    ensures r != Ok(None)
    ensures r.Ok? && !Moves(room, existing, ins) ==> r == Ok(Some(room))
    ensures Moves(room, existing, ins) ==>
      r == Ok(Some(Room(room.name, Placement.ShiftCoordinates(room.walls, AlongAxis(ins.axis, MovedBy(room, ins))))))
  {
    if room.name == existing then Ok(Some(room))
    else if |room.walls| == 0 then Err(ValueError(EmptyMin))
    else
      var lo, hi := AxisMin(room.walls, ins.axis), AxisMax(room.walls, ins.axis);
      if OverlapsInsertion(ins, lo, hi) then
        var size := hi - lo;
        var allowed := Limit(room.name, "min_" + AxisName(ins.axis));
        var delta := Delta(ins, lo, hi);
        BoxContainsWalls(room.walls);
        assert "min_" + AxisName(ins.axis) != "min_width";
        if size + Signed(delta, ins.forward) < allowed then Ok(None)
        else Ok(Some(Room(room.name, Placement.ShiftCoordinates(room.walls, AlongAxis(ins.axis, delta)))))
      else Ok(Some(room))
  }

  lemma ShiftedAxis(walls: seq<Wall>, axis: Axis, delta: int)
    requires |walls| > 0
    ensures var q := Placement.ShiftCoordinates(walls, AlongAxis(axis, delta));
      AxisMin(q, axis) == AxisMin(walls, axis) + delta && AxisMax(q, axis) == AxisMax(walls, axis) + delta
  {
    Placement.ShiftedBox(walls, AlongAxis(axis, delta));
  }

  // A moved room keeps every coordinate off the shift axis, and ends up
  // just clear of the insertion interval: its low end on the box's high
  // end when pushed forward, its high end on the box's low end otherwise.
  lemma MovedRoomClears(room: Room, existing: string, ins: Insertion)
    requires Moves(room, existing, ins)
    ensures var q := ClearRoom(room, existing, ins).value.value.walls;
      |q| == |room.walls| &&
      (forall k :: 0 <= k < |q| ==>
        (ins.axis == X ==> q[k].start.y == room.walls[k].start.y && q[k].end.y == room.walls[k].end.y) &&
        (ins.axis == Y ==> q[k].start.x == room.walls[k].start.x && q[k].end.x == room.walls[k].end.x)) &&
      !OverlapsInsertion(ins, AxisMin(q, ins.axis), AxisMax(q, ins.axis)) &&
      (ins.forward ==> AxisMin(q, ins.axis) == ins.hi) &&
      (!ins.forward ==> AxisMax(q, ins.axis) == ins.lo)
  {
    ShiftedAxis(room.walls, ins.axis, MovedBy(room, ins));
    BoxContainsWalls(room.walls);
  }

  // The loop over the rooms in dictionary order: the first error or
  // `return {}` ends it.
  function MakeRoomFor(rooms: Plan, existing: string, ins: Insertion): Result<Option<Plan>>
  {
    if |rooms| == 0 then Ok(Some([]))
    else match ClearRoom(rooms[0], existing, ins)
      case Err(e) => Err(e)
      case Ok(None) => Ok(None)
      case Ok(Some(head)) => Prefixed([head], MakeRoomFor(rooms[1..], existing, ins))
  }

  function Prefixed(out: Plan, r: Result<Option<Plan>>): Result<Option<Plan>> {
    match r
    case Ok(Some(q)) => Ok(Some(out + q))
    case _ => r
  }

  lemma PrefixedEmpty(r: Result<Option<Plan>>)
    ensures Prefixed([], r) == r
  {
    if r.Ok? && r.value.Some? {
      assert [] + r.value.value == r.value.value;
    }
  }

  lemma PrefixedAssoc(out: Plan, room: Room, r: Result<Option<Plan>>)
    ensures Prefixed(out, Prefixed([room], r)) == Prefixed(out + [room], r)
  {
    if r.Ok? && r.value.Some? {
      assert out + ([room] + r.value.value) == (out + [room]) + r.value.value;
    }
  }

  // The loop never stops at the guard; it fails exactly on an empty room
  // other than the existing one; otherwise every room is as ClearRoom
  // leaves it, in the same place.
  lemma {:induction false} MakeRoomForAt(rooms: Plan, existing: string, ins: Insertion)
    ensures MakeRoomFor(rooms, existing, ins) != Ok(None)
    ensures MakeRoomFor(rooms, existing, ins).Err? <==>
      exists k :: 0 <= k < |rooms| && rooms[k].name != existing && |rooms[k].walls| == 0
    ensures MakeRoomFor(rooms, existing, ins).Ok? ==>
      var q := MakeRoomFor(rooms, existing, ins).value.value;
      |q| == |rooms| && forall k :: 0 <= k < |rooms| ==> ClearRoom(rooms[k], existing, ins) == Ok(Some(q[k]))
  {
    if |rooms| > 0 {
      MakeRoomForAt(rooms[1..], existing, ins);
      assert forall k :: 1 <= k < |rooms| ==> rooms[1..][k - 1] == rooms[k];
      if ClearRoom(rooms[0], existing, ins).Ok? && MakeRoomFor(rooms[1..], existing, ins).Ok? {
        var q := MakeRoomFor(rooms, existing, ins).value.value;
        var rest := MakeRoomFor(rooms[1..], existing, ins).value.value;
        assert q == [ClearRoom(rooms[0], existing, ins).value.value] + rest;
      }
      if MakeRoomFor(rooms[1..], existing, ins).Err? {
        var k :| 0 <= k < |rooms[1..]| && rooms[1..][k].name != existing && |rooms[1..][k].walls| == 0;
        assert rooms[k + 1] == rooms[1..][k];
      }
    }
  }

  // The loop as written: it updates each room's points in place.
  method ShiftConflictingRooms(rooms: Plan, existing: string, ins: Insertion) returns (r: Result<Option<Plan>>)
    ensures r == MakeRoomFor(rooms, existing, ins)
  {
    var out: Plan := [];
    var i := 0;
    assert rooms[i..] == rooms;
    PrefixedEmpty(MakeRoomFor(rooms, existing, ins));
    while i < |rooms|
      invariant 0 <= i <= |rooms|
      invariant MakeRoomFor(rooms, existing, ins) == Prefixed(out, MakeRoomFor(rooms[i..], existing, ins))
    {
      assert rooms[i..][1..] == rooms[i + 1..];
      var room := rooms[i];
      if room.name != existing {
        if |room.walls| == 0 {
          return Err(ValueError(EmptyMin));
        }
        var lo, hi := AxisMin(room.walls, ins.axis), AxisMax(room.walls, ins.axis);
        if OverlapsInsertion(ins, lo, hi) {
          var size := hi - lo;
          var allowed := Limit(room.name, "min_" + AxisName(ins.axis));
          var delta := Delta(ins, lo, hi);
          if size + Signed(delta, ins.forward) < allowed {
            return Ok(None);
          }
          room := Room(room.name, Placement.ShiftCoordinates(room.walls, AlongAxis(ins.axis, delta)));
        }
      }
      assert ClearRoom(rooms[i], existing, ins) == Ok(Some(room));
      PrefixedAssoc(out, room, MakeRoomFor(rooms[i + 1..], existing, ins));
      out := out + [room];
      i := i + 1;
    }
    assert rooms[i..] == [];
    assert out + [] == out;
    return Ok(Some(out));
  }

  // ---------------------------------------------------------------------
  // solving_overlap_problem

  predicate Involves(pair: (string, string), newRoom: string) {
    pair.0 == newRoom || pair.1 == newRoom
  }

  // main_room = r1 if r1 != new_room else r2
  function MainRoom(pair: (string, string), newRoom: string): string {
    if pair.0 != newRoom then pair.0 else pair.1
  }

  // dx: how far the new room moves right, so that its left edge reaches
  // the main room's right edge if it was short of it.
  function RepairShift(newWalls: seq<Wall>, mainWalls: seq<Wall>): (dx: int)
    requires |newWalls| > 0 && |mainWalls| > 0
    ensures dx >= 0
    ensures MinX(newWalls) + dx == Max(MinX(newWalls), MaxX(mainWalls))
  {
    if MinX(newWalls) < MaxX(mainWalls) then MaxX(mainWalls) - MinX(newWalls) else 0
  }

  // One overlap pair.  The lookups of the new and the main room and the
  // max() over their x values can raise, in that order.
  function RepairStep(rooms: Plan, pair: (string, string), newRoom: string): (r: Result<Plan>)
    ensures !Involves(pair, newRoom) ==> r == Ok(rooms)
    ensures r.Err? <==>
      (Involves(pair, newRoom) &&
       (!HasRoom(rooms, newRoom) || !HasRoom(rooms, MainRoom(pair, newRoom)) ||
        |Placement.RoomWalls(rooms, newRoom)| == 0 || |Placement.RoomWalls(rooms, MainRoom(pair, newRoom))| == 0))
  {
    if !Involves(pair, newRoom) then Ok(rooms)
    else
      var main := MainRoom(pair, newRoom);
      if !HasRoom(rooms, newRoom) then Err(KeyError(newRoom))
      else if !HasRoom(rooms, main) then Err(KeyError(main))
      else
        var nw, mw := Placement.RoomWalls(rooms, newRoom), Placement.RoomWalls(rooms, main);
        if |nw| == 0 || |mw| == 0 then Err(ValueError(EmptyMax))
        else Ok(SetRoom(rooms, newRoom, Placement.ShiftCoordinates(nw, Placement.Offset(RepairShift(nw, mw), 0))))
  }

  // The pairs in the order of the overlaps dictionary.
  function OverlapRepair(overlaps: seq<(string, string)>, rooms: Plan, newRoom: string): Result<Plan>
  {
    if |overlaps| == 0 then Ok(rooms)
    else match RepairStep(rooms, overlaps[0], newRoom)
      case Err(e) => Err(e)
      case Ok(q) => OverlapRepair(overlaps[1..], q, newRoom)
  }

  // The loop as written: the new room's x values are updated in place.
  method SolvingOverlapProblem(overlaps: seq<(string, string)>, rooms: Plan, newRoom: string) returns (r: Result<Plan>)
    ensures r == OverlapRepair(overlaps, rooms, newRoom)
  {
    var updated := rooms;
    var i := 0;
    while i < |overlaps|
      invariant 0 <= i <= |overlaps|
      invariant OverlapRepair(overlaps, rooms, newRoom) == OverlapRepair(overlaps[i..], updated, newRoom)
    {
      assert overlaps[i..][1..] == overlaps[i + 1..];
      var pair := overlaps[i];
      if Involves(pair, newRoom) {
        var main := MainRoom(pair, newRoom);
        if !HasRoom(updated, newRoom) {
          return Err(KeyError(newRoom));
        }
        if !HasRoom(updated, main) {
          return Err(KeyError(main));
        }
        var nw, mw := Placement.RoomWalls(updated, newRoom), Placement.RoomWalls(updated, main);
        if |nw| == 0 || |mw| == 0 {
          return Err(ValueError(EmptyMax));
        }
        var dx := 0;
        if MinX(nw) < MaxX(mw) {
          dx := MaxX(mw) - MinX(nw);
        }
        updated := SetRoom(updated, newRoom, Placement.ShiftCoordinates(nw, Placement.Offset(dx, 0)));
      }
      i := i + 1;
    }
    return Ok(updated);
  }

  // The walls after are the walls before moved right by some distance.
  predicate MovedRight(before: seq<Wall>, after: seq<Wall>) {
    |after| == |before| &&
    (|before| == 0 ||
     (after[0].start.x >= before[0].start.x &&
      after == Placement.ShiftCoordinates(before, Placement.Offset(after[0].start.x - before[0].start.x, 0))))
  }

  // The other rooms are as they were, in the same places.
  predicate OnlyMoved(p: Plan, q: Plan, newRoom: string) {
    |q| == |p| &&
    (forall k :: 0 <= k < |p| ==> q[k].name == p[k].name) &&
    (forall k :: 0 <= k < |p| && p[k].name != newRoom ==> q[k] == p[k])
  }

  // A lookup only depends on the names.
  lemma SameNamesSameWalls(p: Plan, q: Plan, newRoom: string, name: string)
    requires OnlyMoved(p, q, newRoom)
    ensures IndexOf(q, name) == IndexOf(p, name)
    ensures name != newRoom ==> Placement.RoomWalls(q, name) == Placement.RoomWalls(p, name)
  {
    if HasRoom(p, name) {
      var i := IndexOf(p, name).value;
      assert q[i].name == name;
      var j := IndexOf(q, name).value;
      assert p[j].name == name;
    }
  }

  lemma MovedRightStep(a: seq<Wall>, dx: int)
    requires dx >= 0
    ensures MovedRight(a, Placement.ShiftCoordinates(a, Placement.Offset(dx, 0)))
  {
  }

  lemma {:induction false} MovedRightTrans(a: seq<Wall>, b: seq<Wall>, c: seq<Wall>)
    requires MovedRight(a, b) && MovedRight(b, c)
    ensures MovedRight(a, c)
  {
    if |a| > 0 {
      var d1, d2 := b[0].start.x - a[0].start.x, c[0].start.x - b[0].start.x;
      Placement.ShiftCoordinatesAdditive(a, Placement.Offset(d1, 0), Placement.Offset(d2, 0));
    }
  }

  // One step moves only the new room, and only right.
  lemma RepairStepMoves(rooms: Plan, pair: (string, string), newRoom: string)
    requires RepairStep(rooms, pair, newRoom).Ok?
    ensures var q := RepairStep(rooms, pair, newRoom).value;
      OnlyMoved(rooms, q, newRoom) &&
      MovedRight(Placement.RoomWalls(rooms, newRoom), Placement.RoomWalls(q, newRoom))
  {
    var q := RepairStep(rooms, pair, newRoom).value;
    if Involves(pair, newRoom) {
      var nw, mw := Placement.RoomWalls(rooms, newRoom), Placement.RoomWalls(rooms, MainRoom(pair, newRoom));
      var moved := Placement.ShiftCoordinates(nw, Placement.Offset(RepairShift(nw, mw), 0));
      Placement.SetRoomWalls(rooms, newRoom, moved);
      MovedRightStep(nw, RepairShift(nw, mw));
    } else {
      MovedRightStep(Placement.RoomWalls(rooms, newRoom), 0);
      assert Placement.ShiftCoordinates(Placement.RoomWalls(rooms, newRoom), Placement.Offset(0, 0)) ==
        Placement.RoomWalls(rooms, newRoom);
    }
  }

  // The repair moves only the new room and only right (in x).
  lemma {:induction false} OverlapRepairMoves(overlaps: seq<(string, string)>, rooms: Plan, newRoom: string)
    requires OverlapRepair(overlaps, rooms, newRoom).Ok?
    ensures var q := OverlapRepair(overlaps, rooms, newRoom).value;
      OnlyMoved(rooms, q, newRoom) &&
      MovedRight(Placement.RoomWalls(rooms, newRoom), Placement.RoomWalls(q, newRoom))
  {
    if |overlaps| == 0 {
      MovedRightStep(Placement.RoomWalls(rooms, newRoom), 0);
      assert Placement.ShiftCoordinates(Placement.RoomWalls(rooms, newRoom), Placement.Offset(0, 0)) ==
        Placement.RoomWalls(rooms, newRoom);
    } else {
      var q1 := RepairStep(rooms, overlaps[0], newRoom).value;
      RepairStepMoves(rooms, overlaps[0], newRoom);
      OverlapRepairMoves(overlaps[1..], q1, newRoom);
      var q := OverlapRepair(overlaps, rooms, newRoom).value;
      MovedRightTrans(Placement.RoomWalls(rooms, newRoom), Placement.RoomWalls(q1, newRoom), Placement.RoomWalls(q, newRoom));
    }
  }

  // The step for a pair naming another room puts the new room's left edge
  // at or beyond that room's right edge, and exactly on it when it was
  // short of it.
  lemma RepairStepClears(rooms: Plan, pair: (string, string), newRoom: string)
    requires RepairStep(rooms, pair, newRoom).Ok? && Involves(pair, newRoom)
    ensures var q := RepairStep(rooms, pair, newRoom).value;
      var nw, mw := Placement.RoomWalls(rooms, newRoom), Placement.RoomWalls(rooms, MainRoom(pair, newRoom));
      |nw| > 0 && |mw| > 0 && |Placement.RoomWalls(q, newRoom)| > 0 &&
      MinX(Placement.RoomWalls(q, newRoom)) == Max(MinX(nw), MaxX(mw))
  {
    var nw, mw := Placement.RoomWalls(rooms, newRoom), Placement.RoomWalls(rooms, MainRoom(pair, newRoom));
    var moved := Placement.ShiftCoordinates(nw, Placement.Offset(RepairShift(nw, mw), 0));
    Placement.SetRoomWalls(rooms, newRoom, moved);
    Placement.ShiftedBox(nw, Placement.Offset(RepairShift(nw, mw), 0));
  }

  lemma MovedRightMinX(a: seq<Wall>, b: seq<Wall>)
    requires MovedRight(a, b) && |a| > 0
    ensures |b| > 0 && MinX(b) >= MinX(a)
  {
    Placement.ShiftedBox(a, Placement.Offset(b[0].start.x - a[0].start.x, 0));
  }

  // After the repair the new room lies at or right of the right edge of
  // every other room that an overlap pair names with it.
  lemma {:induction false} OverlapRepairClears(overlaps: seq<(string, string)>, rooms: Plan, newRoom: string, j: nat)
    requires OverlapRepair(overlaps, rooms, newRoom).Ok?
    requires j < |overlaps| && Involves(overlaps[j], newRoom) && MainRoom(overlaps[j], newRoom) != newRoom
    ensures var q := OverlapRepair(overlaps, rooms, newRoom).value;
      var mw := Placement.RoomWalls(rooms, MainRoom(overlaps[j], newRoom));
      |mw| > 0 && |Placement.RoomWalls(q, newRoom)| > 0 &&
      MinX(Placement.RoomWalls(q, newRoom)) >= MaxX(mw)
  {
    var q1 := RepairStep(rooms, overlaps[0], newRoom).value;
    var q := OverlapRepair(overlaps, rooms, newRoom).value;
    var main := MainRoom(overlaps[j], newRoom);
    RepairStepMoves(rooms, overlaps[0], newRoom);
    SameNamesSameWalls(rooms, q1, newRoom, main);
    OverlapRepairMoves(overlaps[1..], q1, newRoom);
    if j == 0 {
      RepairStepClears(rooms, overlaps[0], newRoom);
      MovedRightMinX(Placement.RoomWalls(q1, newRoom), Placement.RoomWalls(q, newRoom));
    } else {
      assert overlaps[1..][j - 1] == overlaps[j];
      OverlapRepairClears(overlaps[1..], q1, newRoom, j - 1);
    }
  }

  // ---------------------------------------------------------------------
  // add_new_room_flow

  // The existing room's box, with the errors of rooms[existing_room] and of
  // min() over its x values.
  function ExistingBox(rooms: Plan, existing: string): (r: Result<Box>)
    ensures r.Err? <==> !HasRoom(rooms, existing) || |Placement.RoomWalls(rooms, existing)| == 0
    ensures !HasRoom(rooms, existing) ==> r == Err(KeyError(existing))
    ensures r.Ok? ==> r.value == BoxOf(Placement.RoomWalls(rooms, existing))
  {
    if !HasRoom(rooms, existing) then Err(KeyError(existing))
    else if |Placement.RoomWalls(rooms, existing)| == 0 then Err(ValueError(EmptyMin))
    else Ok(BoxOf(Placement.RoomWalls(rooms, existing)))
  }

  // The size check on the new room: only a named room has a minimum.
  predicate NewRoomTooSmall(newRoom: string, width: int, height: int) {
    newRoom in Constraints && TooSmall(newRoom, Dimensions(width, height))
  }

  // The flow after the existing room was found: its box and the side.
  function PlaceAndRepair(s: Plan, newRoom: string, width: int, height: int, existing: string, direction: string,
                          snap: Plan -> Plan, overlapsOf: Plan -> seq<(string, string)>,
                          euclid: Wall -> int): Result<Segments.WallData>
  {
    match ExistingBox(s, existing)
    case Err(e) => Err(e)
    case Ok(b) =>
      match ParseSide(direction, FlowSideError)
      case Err(e) => Err(e)
      case Ok(side) =>
        match MakeRoomFor(s, existing, InsertionFor(side, b, width, height))
        case Err(e) => Err(e)
        case Ok(None) => Ok([])
        case Ok(Some(moved)) =>
          match AddNewRoom(moved, newRoom, width, height, existing, direction)
          case Err(e) => Err(e)
          case Ok(placed) =>
            var snapped := snap(placed);
            var overlaps := overlapsOf(snapped);
            var final := if |overlaps| == 0 then Ok(snapped) else OverlapRepair(overlaps, snapped, newRoom);
            match final
            case Err(e) => Err(e)
            case Ok(f) => Ok(Segments.ConvertAllRoomsToWalls(f, Segments.DefaultThickness, euclid))
  }

  // add_new_room_flow.  The point snap replace_near_values and the shapely
  // overlap search are the parameters snap and overlapsOf; `{}` is the
  // empty result.
  function AddNewRoomFlowSpec(rooms: Plan, newRoom: string, width: int, height: int, existing: string,
                              direction: string, snap: Plan -> Plan, overlapsOf: Plan -> seq<(string, string)>,
                              euclid: Wall -> int): Result<Segments.WallData>
  {
    var s := snap(rooms);
    match Validation(s)
    case Err(e) => Err(e)
    case Ok(Violation(_, _, _, _, _)) => Ok([])
    case Ok(Valid) =>
      if NewRoomTooSmall(newRoom, width, height) then Ok([])
      else PlaceAndRepair(s, newRoom, width, height, existing, direction, snap, overlapsOf, euclid)
  }

  method AddNewRoomFlow(rooms: Plan, newRoom: string, width: int, height: int, existing: string,
                        direction: string, snap: Plan -> Plan, overlapsOf: Plan -> seq<(string, string)>,
                        euclid: Wall -> int) returns (r: Result<Segments.WallData>)
    ensures r == AddNewRoomFlowSpec(rooms, newRoom, width, height, existing, direction, snap, overlapsOf, euclid)
  {
    var s := snap(rooms);
    var valid := ValidateExistingRooms(s);
    if valid.Err? {
      return Err(valid.error);
    }
    if valid.value.Violation? {
      return Ok([]);
    }
    if NewRoomTooSmall(newRoom, width, height) {
      return Ok([]);
    }
    var box := ExistingBox(s, existing);
    if box.Err? {
      return Err(box.error);
    }
    var side := ParseSide(direction, FlowSideError);
    if side.Err? {
      return Err(side.error);
    }
    var moved := ShiftConflictingRooms(s, existing, InsertionFor(side.value, box.value, width, height));
    if moved.Err? {
      return Err(moved.error);
    }
    if moved.value.None? {
      return Ok([]);
    }
    var placed := AddNewRoom(moved.value.value, newRoom, width, height, existing, direction);
    if placed.Err? {
      return Err(placed.error);
    }
    var snapped := snap(placed.value);
    var overlaps := overlapsOf(snapped);
    var final := Ok(snapped);
    if |overlaps| > 0 {
      final := SolvingOverlapProblem(overlaps, snapped, newRoom);
    }
    if final.Err? {
      return Err(final.error);
    }
    return Ok(Segments.ConvertAllRoomsToWalls(final.value, Segments.DefaultThickness, euclid));
  }

  // The flow gives `{}` when an existing room is below its minimum, and
  // when the new room is below its own named minimum.
  lemma FlowRefuses(rooms: Plan, newRoom: string, width: int, height: int, existing: string,
                    direction: string, snap: Plan -> Plan, overlapsOf: Plan -> seq<(string, string)>,
                    euclid: Wall -> int)
    ensures (exists i :: 0 <= i < |snap(rooms)| && CheckRoom(snap(rooms)[i]).Some? && CheckRoom(snap(rooms)[i]).value.Ok? &&
               forall j :: 0 <= j < i ==> CheckRoom(snap(rooms)[j]).None?) ==>
      AddNewRoomFlowSpec(rooms, newRoom, width, height, existing, direction, snap, overlapsOf, euclid) == Ok([])
    ensures Validation(snap(rooms)) == Ok(Valid) && NewRoomTooSmall(newRoom, width, height) ==>
      AddNewRoomFlowSpec(rooms, newRoom, width, height, existing, direction, snap, overlapsOf, euclid) == Ok([])
  {
    var s := snap(rooms);
    ValidationFindsFirst(s);
    if exists i :: 0 <= i < |s| && CheckRoom(s[i]).Some? && CheckRoom(s[i]).value.Ok? &&
                   forall j :: 0 <= j < i ==> CheckRoom(s[j]).None? {
      var i :| 0 <= i < |s| && CheckRoom(s[i]).Some? && CheckRoom(s[i]).value.Ok? &&
               forall j :: 0 <= j < i ==> CheckRoom(s[j]).None?;
      assert Validation(s) != Ok(Valid);
    }
  }

  // Once the existing rooms pass, a missing existing room is a KeyError and
  // a direction outside the four names is a ValueError; otherwise the flow
  // never stops at the guard of the shift loop, since every room has walls.
  lemma FlowErrors(rooms: Plan, newRoom: string, width: int, height: int, existing: string,
                   direction: string, snap: Plan -> Plan, overlapsOf: Plan -> seq<(string, string)>,
                   euclid: Wall -> int)
    requires Validation(snap(rooms)) == Ok(Valid) && !NewRoomTooSmall(newRoom, width, height)
    ensures !HasRoom(snap(rooms), existing) ==>
      AddNewRoomFlowSpec(rooms, newRoom, width, height, existing, direction, snap, overlapsOf, euclid) == Err(KeyError(existing))
    ensures HasRoom(snap(rooms), existing) && ParseSide(direction, FlowSideError).Err? ==>
      AddNewRoomFlowSpec(rooms, newRoom, width, height, existing, direction, snap, overlapsOf, euclid) == Err(ValueError(FlowSideError))
    ensures HasRoom(snap(rooms), existing) ==> ExistingBox(snap(rooms), existing).Ok?
    ensures HasRoom(snap(rooms), existing) && ParseSide(direction, FlowSideError).Ok? &&
            ExistingBox(snap(rooms), existing).Ok? ==>
      var side := ParseSide(direction, FlowSideError).value;
      var b := ExistingBox(snap(rooms), existing).value;
      MakeRoomFor(snap(rooms), existing, InsertionFor(side, b, width, height)).Ok? &&
      MakeRoomFor(snap(rooms), existing, InsertionFor(side, b, width, height)).value.Some?
  {
    var s := snap(rooms);
    ValidationFindsFirst(s);
    if HasRoom(s, existing) {
      var i := IndexOf(s, existing).value;
      assert CheckRoom(s[i]).None?;
      if ParseSide(direction, FlowSideError).Ok? {
        var side := ParseSide(direction, FlowSideError).value;
        var ins := InsertionFor(side, BoxOf(Placement.RoomWalls(s, existing)), width, height);
        MakeRoomForAt(s, existing, ins);
        forall k | 0 <= k < |s| ensures |s[k].walls| > 0 {
          assert CheckRoom(s[k]).None?;
        }
      }
    }
  }
}
