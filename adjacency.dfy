// Room adjacency: find_adjacent_rooms of backend_project/src/test_area.py
// (no snapping) and the effective find_adjacent_rooms of
// backend_project/src/new_room_maain.py (snap with threshold 0.2, metadata
// check, then the same search).
module Adjacency {
  import opened Wrappers
  import opened Geometry
  import opened FloorPlan
  import Snap
  import RoomData
  import SnapProperties

  // adjacent_rooms: the neighbours found on each side.  Each list of the
  // source is deduplicated with list(set(...)), whose order is unspecified,
  // so a side is a set.
  datatype Sides = Sides(north: set<string>, south: set<string>, east: set<string>, west: set<string>)

  const NoSides := Sides({}, {}, {}, {})

  function Side(s: Sides, d: Direction): set<string> {
    match d
    case North => s.north
    case South => s.south
    case East => s.east
    case West => s.west
    case Unknown => {}
  }

  // adjacent_rooms[d].append(name)
  function Add(s: Sides, d: Direction, name: string): (r: Sides)
    requires d != Unknown
    ensures forall e :: Side(r, e) == Side(s, e) + (if e == d then {name} else {})
  {
    match d
    case North => s.(north := s.north + {name})
    case South => s.(south := s.south + {name})
    case East => s.(east := s.east + {name})
    case West => s.(west := s.west + {name})
  }

  // The side on which other_wall makes its room a neighbour of the target
  // wall's room: a vertical contact is West when the target wall runs
  // upwards, else East; a horizontal contact is North when it runs to the
  // right, else South.
  function Facing(t: Wall, o: Wall): (r: Option<Direction>)
    ensures r.Some? <==> IsOverlappingOrTouching(t, o)
    ensures r.Some? ==> r.value != Unknown
  {
    if !IsOverlappingOrTouching(t, o) then None
    else if t.start.x == t.end.x == o.start.x == o.end.x then Some(if t.start.y < t.end.y then West else East)
    else Some(if t.start.x < t.end.x then North else South)
  }

  // Some wall of walls faces t on side d.
  predicate TouchesOn(t: Wall, walls: seq<Wall>, d: Direction) {
    |walls| > 0 && (TouchesOn(t, walls[..|walls| - 1], d) || Facing(t, walls[|walls| - 1]) == Some(d))
  }

  // The rooms other than name with a wall facing t on side d.
  function WallNeighbours(t: Wall, rooms: Plan, name: string, d: Direction): set<string> {
    if |rooms| == 0 then {}
    else
      var last := rooms[|rooms| - 1];
      WallNeighbours(t, rooms[..|rooms| - 1], name, d) +
        (if last.name != name && TouchesOn(t, last.walls, d) then {last.name} else {})
  }

  // The neighbours on side d of any of the target walls.
  function Neighbours(targets: seq<Wall>, rooms: Plan, name: string, d: Direction): set<string> {
    if |targets| == 0 then {}
    else Neighbours(targets[..|targets| - 1], rooms, name, d) + WallNeighbours(targets[|targets| - 1], rooms, name, d)
  }

  function SidesOf(targets: seq<Wall>, rooms: Plan, name: string): Sides {
    Sides(Neighbours(targets, rooms, name, North), Neighbours(targets, rooms, name, South),
          Neighbours(targets, rooms, name, East), Neighbours(targets, rooms, name, West))
  }

  // find_adjacent_rooms of test_area.py: rooms[room_name] fails for a
  // missing room.
  function AdjacentRoomsSpec(name: string, rooms: Plan): Result<Sides> {
    match IndexOf(rooms, name)
    case None => Err(KeyError(name))
    case Some(i) => Ok(SidesOf(rooms[i].walls, rooms, name))
  }

  // The innermost loop: the walls of one other room against one target wall.
  method TouchRoom(t: Wall, other: Room, name: string, s: Sides) returns (r: Sides)
    ensures forall d :: (Side(r, d) ==
      Side(s, d) + (if other.name != name && TouchesOn(t, other.walls, d) then {other.name} else {}))
  {
    r := s;
    if other.name == name {
      return;
    }
    var k := 0;
    while k < |other.walls|
      invariant 0 <= k <= |other.walls|
      invariant forall d :: Side(r, d) == Side(s, d) + (if TouchesOn(t, other.walls[..k], d) then {other.name} else {})
    {
      var o := other.walls[k];
      assert other.walls[..k + 1][..k] == other.walls[..k];
      if IsOverlappingOrTouching(t, o) {
        if t.start.x == t.end.x == o.start.x == o.end.x {
          if t.start.y < t.end.y {
            r := Add(r, West, other.name);
          } else {
            r := Add(r, East, other.name);
          }
        } else if t.start.y == t.end.y == o.start.y == o.end.y {
          if t.start.x < t.end.x {
            r := Add(r, North, other.name);
          } else {
            r := Add(r, South, other.name);
          }
        }
      }
      k := k + 1;
    }
    assert other.walls[..k] == other.walls;
  }

  // The middle loop: every other room against one target wall.
  method TouchRooms(t: Wall, rooms: Plan, name: string, s: Sides) returns (r: Sides)
    ensures forall d :: Side(r, d) == Side(s, d) + WallNeighbours(t, rooms, name, d)
  {
    r := s;
    var i := 0;
    while i < |rooms|
      invariant 0 <= i <= |rooms|
      invariant forall d :: Side(r, d) == Side(s, d) + WallNeighbours(t, rooms[..i], name, d)
    {
      assert rooms[..i + 1][..i] == rooms[..i];
      r := TouchRoom(t, rooms[i], name, r);
      i := i + 1;
    }
    assert rooms[..i] == rooms;
  }

  lemma SidesEqual(a: Sides, b: Sides)
    requires forall d :: Side(a, d) == Side(b, d)
    ensures a == b
  {
    assert Side(a, North) == Side(b, North) && Side(a, South) == Side(b, South);
    assert Side(a, East) == Side(b, East) && Side(a, West) == Side(b, West);
  }

  // find_adjacent_rooms (test_area.py).
  method FindAdjacentRooms(name: string, rooms: Plan) returns (r: Result<Sides>)
    ensures r == AdjacentRoomsSpec(name, rooms)
  {
    var idx := IndexOf(rooms, name);
    if idx.None? {
      return Err(KeyError(name));
    }
    var targets := rooms[idx.value].walls;
    var s := NoSides;
    var j := 0;
    while j < |targets|
      invariant 0 <= j <= |targets|
      invariant forall d :: Side(s, d) == Side(SidesOf(targets[..j], rooms, name), d)
    {
      assert targets[..j + 1][..j] == targets[..j];
      s := TouchRooms(targets[j], rooms, name, s);
      j := j + 1;
    }
    assert targets[..j] == targets;
    SidesEqual(s, SidesOf(targets, rooms, name));
    r := Ok(s);
  }

  // --- what the sides contain ---

  lemma {:induction false} TouchesOnIff(t: Wall, walls: seq<Wall>, d: Direction)
    ensures TouchesOn(t, walls, d) <==> exists k :: 0 <= k < |walls| && Facing(t, walls[k]) == Some(d)
    decreases |walls|
  {
    if |walls| > 0 {
      var n := |walls| - 1;
      TouchesOnIff(t, walls[..n], d);
      if TouchesOn(t, walls[..n], d) {
        var k :| 0 <= k < n && Facing(t, walls[..n][k]) == Some(d);
        assert walls[k] == walls[..n][k];
      }
      if exists k :: 0 <= k < |walls| && Facing(t, walls[k]) == Some(d) {
        var k :| 0 <= k < |walls| && Facing(t, walls[k]) == Some(d);
        if k < n {
          assert walls[..n][k] == walls[k];
        }
      }
    }
  }

  lemma {:induction false} WallNeighboursIff(t: Wall, rooms: Plan, name: string, d: Direction, x: string)
    ensures x in WallNeighbours(t, rooms, name, d) <==>
      exists i :: 0 <= i < |rooms| && rooms[i].name == x && x != name && TouchesOn(t, rooms[i].walls, d)
    decreases |rooms|
  {
    if |rooms| > 0 {
      var n := |rooms| - 1;
      WallNeighboursIff(t, rooms[..n], name, d, x);
      if x in WallNeighbours(t, rooms[..n], name, d) {
        var i :| 0 <= i < n && rooms[..n][i].name == x && x != name && TouchesOn(t, rooms[..n][i].walls, d);
        assert rooms[i] == rooms[..n][i];
      }
      if exists i :: 0 <= i < |rooms| && rooms[i].name == x && x != name && TouchesOn(t, rooms[i].walls, d) {
        var i :| 0 <= i < |rooms| && rooms[i].name == x && x != name && TouchesOn(t, rooms[i].walls, d);
        if i < n {
          assert rooms[..n][i] == rooms[i];
        }
      }
    }
  }

  lemma {:induction false} NeighboursIff(targets: seq<Wall>, rooms: Plan, name: string, d: Direction, x: string)
    ensures x in Neighbours(targets, rooms, name, d) <==>
      exists j :: 0 <= j < |targets| && x in WallNeighbours(targets[j], rooms, name, d)
    decreases |targets|
  {
    if |targets| > 0 {
      var n := |targets| - 1;
      NeighboursIff(targets[..n], rooms, name, d, x);
      if x in Neighbours(targets[..n], rooms, name, d) {
        var j :| 0 <= j < n && x in WallNeighbours(targets[..n][j], rooms, name, d);
        assert targets[j] == targets[..n][j];
      }
      if exists j :: 0 <= j < |targets| && x in WallNeighbours(targets[j], rooms, name, d) {
        var j :| 0 <= j < |targets| && x in WallNeighbours(targets[j], rooms, name, d);
        if j < n {
          assert targets[..n][j] == targets[j];
        }
      }
    }
  }

  // A wall pair of the target room and another room that faces on side d.
  ghost predicate Contact(rooms: Plan, name: string, targets: seq<Wall>, d: Direction, x: string) {
    exists j, i, k :: 0 <= j < |targets| && 0 <= i < |rooms| && 0 <= k < |rooms[i].walls| &&
      rooms[i].name == x && x != name && Facing(targets[j], rooms[i].walls[k]) == Some(d)
  }

  // x is a neighbour on side d exactly when a wall of the target room and a
  // wall of the room x (not the target itself) overlap on side d.
  lemma SidesIff(targets: seq<Wall>, rooms: Plan, name: string, d: Direction, x: string)
    ensures x in Side(SidesOf(targets, rooms, name), d) <==> Contact(rooms, name, targets, d, x)
  {
    if d == Unknown {
      forall j, i, k | 0 <= j < |targets| && 0 <= i < |rooms| && 0 <= k < |rooms[i].walls|
        ensures Facing(targets[j], rooms[i].walls[k]) != Some(Unknown)
      {
        var f := Facing(targets[j], rooms[i].walls[k]);
        assert f.Some? ==> f.value != Unknown;
      }
    } else {
      assert Side(SidesOf(targets, rooms, name), d) == Neighbours(targets, rooms, name, d);
      NeighboursIff(targets, rooms, name, d, x);
      if x in Neighbours(targets, rooms, name, d) {
        var j :| 0 <= j < |targets| && x in WallNeighbours(targets[j], rooms, name, d);
        WallNeighboursIff(targets[j], rooms, name, d, x);
        var i :| 0 <= i < |rooms| && rooms[i].name == x && x != name && TouchesOn(targets[j], rooms[i].walls, d);
        TouchesOnIff(targets[j], rooms[i].walls, d);
        var k :| 0 <= k < |rooms[i].walls| && Facing(targets[j], rooms[i].walls[k]) == Some(d);
      }
      if Contact(rooms, name, targets, d, x) {
        var j, i, k :| 0 <= j < |targets| && 0 <= i < |rooms| && 0 <= k < |rooms[i].walls| &&
          rooms[i].name == x && x != name && Facing(targets[j], rooms[i].walls[k]) == Some(d);
        TouchesOnIff(targets[j], rooms[i].walls, d);
        WallNeighboursIff(targets[j], rooms, name, d, x);
      }
    }
  }

  // A room never lists itself.
  lemma AdjacentRoomsNeverSelf(name: string, rooms: Plan)
    requires AdjacentRoomsSpec(name, rooms).Ok?
    ensures var s := AdjacentRoomsSpec(name, rooms).value;
      name !in s.north && name !in s.south && name !in s.east && name !in s.west
  {
    var targets := rooms[IndexOf(rooms, name).value].walls;
    SidesIff(targets, rooms, name, North, name);
    SidesIff(targets, rooms, name, South, name);
    SidesIff(targets, rooms, name, East, name);
    SidesIff(targets, rooms, name, West, name);
  }

  // A wall of the target room and a wall of room x (not the target itself)
  // overlap (is_overlapping_or_touching).
  ghost predicate Overlap(rooms: Plan, name: string, targets: seq<Wall>, x: string) {
    exists j, i, k :: 0 <= j < |targets| && 0 <= i < |rooms| && 0 <= k < |rooms[i].walls| &&
      rooms[i].name == x && x != name && IsOverlappingOrTouching(targets[j], rooms[i].walls[k])
  }

  lemma OverlapIffContact(rooms: Plan, name: string, targets: seq<Wall>, x: string)
    ensures Overlap(rooms, name, targets, x) <==>
      Contact(rooms, name, targets, North, x) || Contact(rooms, name, targets, South, x) ||
      Contact(rooms, name, targets, East, x) || Contact(rooms, name, targets, West, x)
  {
    if Overlap(rooms, name, targets, x) {
      var j, i, k :| 0 <= j < |targets| && 0 <= i < |rooms| && 0 <= k < |rooms[i].walls| &&
        rooms[i].name == x && x != name && IsOverlappingOrTouching(targets[j], rooms[i].walls[k]);
      var d := Facing(targets[j], rooms[i].walls[k]).value;
      assert Contact(rooms, name, targets, d, x);
    }
    forall d | Contact(rooms, name, targets, d, x) ensures Overlap(rooms, name, targets, x) {
      var j, i, k :| 0 <= j < |targets| && 0 <= i < |rooms| && 0 <= k < |rooms[i].walls| &&
        rooms[i].name == x && x != name && Facing(targets[j], rooms[i].walls[k]) == Some(d);
      assert IsOverlappingOrTouching(targets[j], rooms[i].walls[k]);
    }
  }

  lemma SidesAnyIff(targets: seq<Wall>, rooms: Plan, name: string, x: string)
    ensures var s := SidesOf(targets, rooms, name);
      (x in s.north || x in s.south || x in s.east || x in s.west) <==> Overlap(rooms, name, targets, x)
  {
    SidesIff(targets, rooms, name, North, x);
    SidesIff(targets, rooms, name, South, x);
    SidesIff(targets, rooms, name, East, x);
    SidesIff(targets, rooms, name, West, x);
    OverlapIffContact(rooms, name, targets, x);
  }

  // A room is a neighbour on some side exactly when one of its walls and one
  // of the target's walls overlap.
  lemma AdjacentRoomsMeaning(name: string, rooms: Plan, x: string)
    requires AdjacentRoomsSpec(name, rooms).Ok?
    ensures var s := AdjacentRoomsSpec(name, rooms).value;
      (x in s.north || x in s.south || x in s.east || x in s.west) <==>
      Overlap(rooms, name, rooms[IndexOf(rooms, name).value].walls, x)
  {
    SidesAnyIff(rooms[IndexOf(rooms, name).value].walls, rooms, name, x);
  }

  // --- the snapping search of new_room_maain.py ---

  // The snap threshold of the effective find_adjacent_rooms.
  const AdjacencySnap := 20

  // rooms is snapped in place (the caller sees the snapped plan), then
  // make_roomdata must succeed (its result is unused), then the search runs
  // on the snapped plan.  The find_adjacent_rooms of new_room_placement.py
  // does the same with threshold 0.3.
  function SnappedAdjacencyAt(name: string, rooms: Plan, threshold: int, unique: seq<int>): (r: (Plan, Result<Sides>))
    ensures r.0 == Snap.SnapPlan(rooms, threshold, unique)
    ensures r.1.Err? ==> !Rectilinear(r.0) || !HasRoom(r.0, name)
    ensures r.1.Ok? ==> r.1 == AdjacentRoomsSpec(name, r.0)
  {
    var snapped := Snap.SnapPlan(rooms, threshold, unique);
    (snapped, if !Rectilinear(snapped) then Err(KeyError("diagonal")) else AdjacentRoomsSpec(name, snapped))
  }

  function SnappedAdjacencySpec(name: string, rooms: Plan, unique: seq<int>): (Plan, Result<Sides>) {
    SnappedAdjacencyAt(name, rooms, AdjacencySnap, unique)
  }

  method FindAdjacentRoomsSnappedAt(name: string, rooms: Plan, threshold: int, unique: seq<int>) returns (snapped: Plan, r: Result<Sides>)
    requires Snap.IsUniqueOrder(unique, rooms)
    ensures (snapped, r) == SnappedAdjacencyAt(name, rooms, threshold, unique)
  {
    snapped := Snap.ReplaceNearValues(rooms, threshold, unique);
    var md := RoomData.MakeRoomData(snapped);
    if md.Err? {
      return snapped, Err(KeyError("diagonal"));
    }
    r := FindAdjacentRooms(name, snapped);
  }

  method FindAdjacentRoomsSnapped(name: string, rooms: Plan, unique: seq<int>) returns (snapped: Plan, r: Result<Sides>)
    requires Snap.IsUniqueOrder(unique, rooms)
    ensures (snapped, r) == SnappedAdjacencySpec(name, rooms, unique)
  {
    snapped, r := FindAdjacentRoomsSnappedAt(name, rooms, AdjacencySnap, unique);
  }

  // Calling the snapping search again on the plan it left behind, with any
  // order of that plan's values, leaves the plan as it is and gives the same
  // answer: the repeated calls of compare_floor_plans and of
  // find_adjacent_rooms_in_direction all see the plan of the first call.
  lemma SnappedAdjacencyStable(name: string, rooms: Plan, unique: seq<int>, unique2: seq<int>)
    requires Snap.IsUniqueOrder(unique, rooms)
    requires Snap.IsUniqueOrder(unique2, SnappedAdjacencySpec(name, rooms, unique).0)
    ensures var (snapped, r) := SnappedAdjacencySpec(name, rooms, unique);
      SnappedAdjacencySpec(name, snapped, unique2) == (snapped, r)
  {
    SnapProperties.SnapIdempotent(rooms, AdjacencySnap, unique, unique2);
  }
}
