// The resize-with-cascade procedure: adjust_dimension and
// update_wall_length_by_dimension of backend_project/src/adjust_dimension.py
// and adjust_dimension of backend_project/src/new_room_maain.py.  A room's
// walls of one type are brought to a new length, in the first free of two
// directions; failing that the neighbours on a side are shifted out of the
// way first, failing that the neighbours and the rooms beyond them are
// shifted, and failing that nothing is resized.
module Cascade {
  import opened Wrappers
  import opened Geometry
  import opened FloorPlan
  import opened RoomData
  import Snap
  import SnapProperties
  import opened Adjacency
  import Reach
  import opened Shift
  import opened Resize

  // The two copies of the procedure differ in the snap threshold of their
  // find_adjacent_rooms (0.3 and 0.2), in their shift_room and in which rooms
  // beyond the neighbours they shift.
  datatype Variant = StitchModule | PlacementModule

  function SnapThreshold(v: Variant): int {
    if v == StitchModule then 30 else 20
  }

  // The rooms one shift_room call moves.
  function Related(v: Variant, room: string, main: string): seq<string> {
    if v == StitchModule then RelatedRooms(room, main) else RelatedToMain(room, main)
  }

  // --- the coordinates the search sees ---

  // find_adjacent_rooms snaps the lists it is given in place, and those are
  // the lists of the metadata: every wall's coordinates are snapped, its
  // recorded length is left as it was.
  function SnapInfo(e: WallInfo, gs: seq<seq<int>>): WallInfo {
    e.(coords := Wall(Snap.SnapPoint(e.coords.start, gs), Snap.SnapPoint(e.coords.end, gs)))
  }

  function SnapMeta(md: Metadata, gs: seq<seq<int>>): (r: Metadata)
    ensures |r| == |md|
    ensures forall m :: 0 <= m < |md| ==> r[m].name == md[m].name && |r[m].walls| == |md[m].walls|
  {
    seq(|md|, m requires 0 <= m < |md| =>
      RoomMeta(md[m].name, seq(|md[m].walls|, k requires 0 <= k < |md[m].walls| => SnapInfo(md[m].walls[k], gs))))
  }

  // The plan read back from the snapped metadata is the snapped plan.
  lemma SnapMetaPlan(md: Metadata, gs: seq<seq<int>>)
    ensures PlanOf(SnapMeta(md, gs)) == Snap.SnapRooms(PlanOf(md), gs)
  {
    var a := PlanOf(SnapMeta(md, gs));
    var b := Snap.SnapRooms(PlanOf(md), gs);
    forall m | 0 <= m < |md| ensures a[m] == b[m] {
      Snap.SnapRoomsAt(PlanOf(md), gs, m);
      forall k | 0 <= k < |md[m].walls| ensures a[m].walls[k] == b[m].walls[k] {
        Snap.SnapWallsAt(PlanOf(md)[m].walls, gs, k);
      }
    }
  }

  // The snap changes coordinates only.
  lemma SnapMetaKeeps(md: Metadata, gs: seq<seq<int>>, m: nat, k: nat)
    requires m < |md| && k < |md[m].walls|
    ensures var e := md[m].walls[k];
      var n := SnapMeta(md, gs)[m].walls[k];
      n.id == e.id && n.length == e.length && n.wallType == e.wallType && n.parallel == e.parallel &&
      n.isFree == e.isFree && n.direction == e.direction && n.roomArea == e.roomArea
  {
  }

  // The later searches of one call snap the already snapped plan again;
  // whatever the order of its values, that changes nothing.
  lemma RepeatedSnapStable(md: Metadata, v: Variant, unique: seq<int>, unique2: seq<int>)
    requires Snap.IsUniqueOrder(unique, PlanOf(md))
    requires Snap.IsUniqueOrder(unique2, Snap.SnapPlan(PlanOf(md), SnapThreshold(v), unique))
    ensures var snapped := PlanOf(SnapMeta(md, Snap.Groups(unique, SnapThreshold(v))));
      Snap.SnapPlan(snapped, SnapThreshold(v), unique2) == snapped
  {
    SnapMetaPlan(md, Snap.Groups(unique, SnapThreshold(v)));
    SnapProperties.SnapIdempotent(PlanOf(md), SnapThreshold(v), unique, unique2);
  }

  // --- the rooms to shift ---

  // The names of a set of rooms, in the order of the metadata.  The Python
  // code walks list(set(...)) in an unspecified order; every shift is a
  // translation and translations commute, so only how often each room is
  // named matters (MoveRoomsAt).
  function InOrder(md: Metadata, s: set<string>): (r: seq<string>)
    ensures |r| <= |md|
  {
    if |md| == 0 then []
    else InOrder(md[..|md| - 1], s) + (if md[|md| - 1].name in s then [md[|md| - 1].name] else [])
  }

  // The rooms of all shift_room calls for the rooms given, with one main room.
  function RelatedAll(v: Variant, rooms: seq<string>, main: string): seq<string> {
    if |rooms| == 0 then []
    else RelatedAll(v, rooms[..|rooms| - 1], main) + Related(v, rooms[|rooms| - 1], main)
  }

  // The search direction of a direction key; the keys used here are always
  // one of the four sides.
  function DirOf(key: string): Direction {
    if key == "North" then North else if key == "South" then South else if key == "East" then East else West
  }

  // adjust_dimension.py shifts, for each neighbour, the rooms beyond every
  // neighbour (a loop over the whole dictionary of further rooms).
  function FurtherAll(md: Metadata, snapped: Plan, fs: seq<string>, adj: string, d: Direction): seq<string> {
    if |fs| == 0 then []
    else
      var f := fs[|fs| - 1];
      FurtherAll(md, snapped, fs[..|fs| - 1], adj, d) + RelatedAll(StitchModule, InOrder(md, Reach.Adj(snapped, f, d)), adj)
  }

  // new_room_maain.py shifts the rooms beyond this neighbour only.
  function FurtherOf(v: Variant, md: Metadata, snapped: Plan, order: seq<string>, adj: string, d: Direction): seq<string> {
    if v == StitchModule then FurtherAll(md, snapped, order, adj, d)
    else RelatedAll(v, InOrder(md, Reach.Adj(snapped, adj, d)), adj)
  }

  // The third step: each neighbour, then the rooms beyond, each shift with
  // that neighbour as main room.
  function Step3Names(v: Variant, md: Metadata, snapped: Plan, order: seq<string>, adjs: seq<string>, room: string, d: Direction): seq<string> {
    if |adjs| == 0 then []
    else
      var adj := adjs[|adjs| - 1];
      Step3Names(v, md, snapped, order, adjs[..|adjs| - 1], room, d) + Related(v, adj, room) + FurtherOf(v, md, snapped, order, adj, d)
  }

  // --- the checks ---

  // Room i faces the direction only through free walls.
  predicate Free(md: Metadata, i: nat, key: string)
    requires i < |md|
  {
    FreeToward(md, i, key)
  }

  // all(is_direction_free(r, direction) for r in rooms if r in metadata).
  predicate SideFree(md: Metadata, s: set<string>, key: string) {
    forall x :: x in s && HasMeta(md, x) ==> DirectionFree(md, x, key) == Ok(true)
  }

  // The keys of the dictionary find_adjacent_rooms returns.
  const SideKeys: set<string> := {"North", "South", "East", "West"}

  // How the third step tests the rooms beyond the neighbours.  As written
  // the generator walks further_adjacent_rooms[adj_room], a dictionary, and
  // so tests its keys, the four direction names, as if they were rooms;
  // evidently meant are the rooms further_adjacent_rooms[adj_room][direction].
  datatype FurtherCheck = KeysCheck | RoomsCheck

  predicate FurtherFree(check: FurtherCheck, md: Metadata, snapped: Plan, s: set<string>, key: string) {
    if check == KeysCheck then
      forall x, k :: x in s && k in SideKeys && HasMeta(md, k) ==> DirectionFree(md, k, key) == Ok(true)
    else
      forall x, f :: x in s && f in Reach.Adj(snapped, x, DirOf(key)) && HasMeta(md, f) ==> DirectionFree(md, f, key) == Ok(true)
  }

  // --- choosing the direction ---

  // The plan and the metadata after the first search has snapped them.
  function SnappedPlan(v: Variant, md: Metadata, unique: seq<int>): Plan {
    Snap.SnapRooms(PlanOf(md), Snap.Groups(unique, SnapThreshold(v)))
  }

  function SnappedMeta(v: Variant, md: Metadata, unique: seq<int>): (r: Metadata)
    ensures |r| == |md|
  {
    SnapMeta(md, Snap.Groups(unique, SnapThreshold(v)))
  }

  // The metadata once the direction is chosen, before any wall is resized,
  // and the direction (None: the procedure gives up).
  datatype Decision = Decision(md: Metadata, key: Option<string>)

  // The shifts of a step; delta is unbound when the room has no wall of the
  // type, which only matters once shift_room is called.
  function ShiftBy(md: Metadata, order: seq<string>, names: seq<string>, key: string, delta: Option<int>): (r: Result<Decision>)
    ensures r.Ok? ==> SameNames(md, r.value.md) && r.value.key == Some(key)
  {
    if delta.None? && |order| > 0 then Err(NameError("delta"))
    else
      var amount := if delta.Some? then delta.value else 0;
      MoveRoomsNames(md, names, key, amount);
      Ok(Decision(MoveRooms(md, names, key, amount), Some(key)))
  }

  predicate SameNames(a: Metadata, b: Metadata) {
    |a| == |b| && forall m :: 0 <= m < |a| ==> a[m].name == b[m].name
  }

  lemma {:induction false} MoveRoomsNames(md: Metadata, names: seq<string>, key: string, delta: int)
    ensures SameNames(md, MoveRooms(md, names, key, delta))
  {
    if |names| > 0 {
      var mid := MoveRooms(md, names[..|names| - 1], key, delta);
      MoveRoomsNames(md, names[..|names| - 1], key, delta);
      assert MoveRooms(md, names, key, delta) == MoveRoom(mid, names[|names| - 1], key, delta);
    }
  }

  function Decide(v: Variant, check: FurtherCheck, md: Metadata, i: nat, a: string, b: string, delta: Option<int>, unique: seq<int>): (r: Result<Decision>)
    requires i < |md|
    ensures r.Ok? ==> SameNames(md, r.value.md)
    ensures r.Ok? && r.value.key.None? ==> r.value.md == SnappedMeta(v, md, unique)
  {
    var room := md[i].name;
    if Free(md, i, a) then Ok(Decision(md, Some(a)))
    else if Free(md, i, b) then Ok(Decision(md, Some(b)))
    else
      var snapped := SnappedPlan(v, md, unique);
      var smd := SnappedMeta(v, md, unique);
      if !Rectilinear(snapped) then Err(KeyError("diagonal"))
      else match AdjacentRoomsSpec(room, snapped)
        case Err(e) => Err(e)
        case Ok(sides) =>
          var sa := Side(sides, DirOf(a));
          var sb := Side(sides, DirOf(b));
          var oa := InOrder(md, sa);
          var ob := InOrder(md, sb);
          if SideFree(smd, sa, a) then ShiftBy(smd, oa, RelatedAll(v, oa, room), a, delta)
          else if SideFree(smd, sb, b) then ShiftBy(smd, ob, RelatedAll(v, ob, room), b, delta)
          else if FurtherFree(check, smd, snapped, sa, a) then ShiftBy(smd, oa, Step3Names(v, md, snapped, oa, oa, room, DirOf(a)), a, delta)
          else if FurtherFree(check, smd, snapped, sb, b) then ShiftBy(smd, ob, Step3Names(v, md, snapped, ob, ob, room, DirOf(b)), b, delta)
          else Ok(Decision(smd, None))
  }

  // --- the final resize of the room's walls ---

  // The branches on direction_to_use: the chosen end of the wall moves by
  // delta along the axis.
  function InlineEnds(c: Wall, key: string, delta: int): Wall {
    var s := c.start;
    var e := c.end;
    if key == "North" then
      (if s.y > e.y then Wall(Point(s.x, s.y + delta), e) else Wall(s, Point(e.x, e.y + delta)))
    else if key == "South" then
      (if s.y < e.y then Wall(Point(s.x, s.y - delta), e) else Wall(s, Point(e.x, e.y - delta)))
    else if key == "East" then
      (if s.x < e.x then Wall(s, Point(e.x + delta, e.y)) else Wall(Point(s.x + delta, s.y), e))
    else if key == "West" then
      (if s.x < e.x then Wall(Point(s.x - delta, s.y), e) else Wall(s, Point(e.x - delta, e.y)))
    else c
  }

  // Wall k of room i is brought to the new length; every other wall of the
  // room has its first endpoint equal to an old endpoint moved along, with
  // no test for walls shared with other rooms, and its length recomputed.
  function InlineStep(md: Metadata, i: nat, k: nat, key: string, newLength: int): (r: Metadata)
    requires i < |md| && k < |md[i].walls|
    ensures SameShape(md, r, i)
  {
    var ws := md[i].walls;
    var e := ws[k];
    var c := InlineEnds(e.coords, key, newLength - AxisLength(e.coords));
    md[i := RoomMeta(md[i].name, seq(|ws|, j requires 0 <= j < |ws| =>
      if j == k then e.(coords := c, length := AxisLength(c))
      else if ws[j].id == e.id then ws[j]
      else RewireWall(ws[j], e.coords.start, e.coords.end, c.start, c.end)))]
  }

  function FinalRow(md: Metadata, i: nat, wn: nat, key: string, newLength: int, n: nat): (r: Metadata)
    requires i < |md| && n <= |md[i].walls|
    ensures SameShape(md, r, i)
  {
    if n == 0 then md
    else
      var mid := FinalRow(md, i, wn, key, newLength, n - 1);
      var r := if Picks(mid[i].walls[n - 1], wn) then InlineStep(mid, i, n - 1, key, newLength) else mid;
      SameShapeTrans(md, mid, r, i);
      r
  }

  function FinalRows(md: Metadata, i: nat, wns: seq<nat>, key: string, newLength: int): (r: Metadata)
    requires i < |md|
    ensures SameShape(md, r, i)
  {
    if |wns| == 0 then md
    else
      var mid := FinalRows(md, i, wns[..|wns| - 1], key, newLength);
      var r := FinalRow(mid, i, wns[|wns| - 1], key, newLength, |mid[i].walls|);
      SameShapeTrans(md, mid, r, i);
      r
  }

  // --- the whole procedure ---

  function DimType(dimension: string): WallType {
    if dimension == "height" then Vertical else Horizontal
  }

  function Possible(dimension: string): (string, string) {
    if dimension == "height" then ("North", "South") else ("East", "West")
  }

  // The index of the last wall that wall number wn selects.
  function LastPicking(ws: seq<WallInfo>, wn: nat): (r: Option<nat>)
    ensures r.Some? ==> r.value < |ws| && Picks(ws[r.value], wn)
    ensures r.None? ==> forall k :: 0 <= k < |ws| ==> !Picks(ws[k], wn)
  {
    if |ws| == 0 then None
    else if Picks(ws[|ws| - 1], wn) then Some(|ws| - 1)
    else LastPicking(ws[..|ws| - 1], wn)
  }

  // The first loop only leaves delta behind: that of the last wall it visits.
  function InitialDelta(ws: seq<WallInfo>, wns: seq<nat>, newLength: int): Option<int> {
    if |wns| == 0 then None
    else match LastPicking(ws, wns[|wns| - 1])
      case None => None
      case Some(k) => Some(newLength - AxisLength(ws[k].coords))
  }

  function AdjustDimensionWith(v: Variant, check: FurtherCheck, md: Metadata, room: string, dimension: string, newLength: int, unique: seq<int>): (r: Result<Metadata>)
    ensures r.Ok? ==> SameNames(md, r.value)
  {
    match FindMeta(md, room)
    case None => Err(KeyError(room))
    case Some(i) =>
      var wns := SameTypeIds(md[i].walls, DimType(dimension));
      var (a, b) := Possible(dimension);
      match Decide(v, check, md, i, a, b, InitialDelta(md[i].walls, wns, newLength), unique)
      case Err(e) => Err(e)
      case Ok(d) => if d.key.None? then Ok(d.md) else Ok(FinalRows(d.md, i, wns, d.key.value, newLength))
  }

  // The procedure as written, in both files: the third step walks the
  // direction keys.  The pipeline runs this one.
  function AdjustDimensionAsWritten(v: Variant, md: Metadata, room: string, dimension: string, newLength: int, unique: seq<int>): (r: Result<Metadata>)
    ensures r.Ok? ==> SameNames(md, r.value)
  {
    AdjustDimensionWith(v, KeysCheck, md, room, dimension, newLength, unique)
  }

  // The corrected procedure: the third step tests the rooms beyond the
  // neighbours.
  function AdjustDimension(v: Variant, md: Metadata, room: string, dimension: string, newLength: int, unique: seq<int>): (r: Result<Metadata>)
    ensures r.Ok? ==> SameNames(md, r.value)
  {
    AdjustDimensionWith(v, RoomsCheck, md, room, dimension, newLength, unique)
  }

  // --- properties ---

  // The chosen end moves: toward North or East the low end stays and the
  // high end ends newLength beyond it, toward South or West the high end
  // stays; the other axis is not touched and the wall gets the new length.
  lemma InlineEndsMeaning(c: Wall, key: string, newLength: int)
    requires key in SideKeys && newLength >= 0
    requires OnYAxis(key) ==> c.start.x == c.end.x
    requires !OnYAxis(key) ==> c.start.y == c.end.y
    ensures var n := InlineEnds(c, key, newLength - AxisLength(c));
      (key == "North" || key == "East" ==> AxisMin(n, key) == AxisMin(c, key) && AxisMax(n, key) == AxisMin(c, key) + newLength) &&
      (key == "South" || key == "West" ==> AxisMax(n, key) == AxisMax(c, key) && AxisMin(n, key) == AxisMax(c, key) - newLength) &&
      (OnYAxis(key) ==> n.start.x == c.start.x && n.end.x == c.end.x) &&
      (!OnYAxis(key) ==> n.start.y == c.start.y && n.end.y == c.end.y) &&
      AxisLength(n) == newLength
  {
  }

  // After one resize step every wall of the room has the length of its
  // coordinates (wall ids are the keys of a dictionary, so distinct).
  lemma InlineStepConsistent(md: Metadata, i: nat, k: nat, key: string, newLength: int)
    requires i < |md| && k < |md[i].walls| && DistinctIds(md[i].walls)
    ensures forall j :: 0 <= j < |md[i].walls| ==> Consistent(InlineStep(md, i, k, key, newLength)[i].walls[j])
  {
  }

  // What one resize step does to the other walls of the room.
  lemma InlineStepOthers(md: Metadata, i: nat, k: nat, key: string, newLength: int, j: nat)
    requires i < |md| && k < |md[i].walls| && j < |md[i].walls| && md[i].walls[j].id != md[i].walls[k].id
    ensures var c := md[i].walls[k].coords;
      var n := InlineEnds(c, key, newLength - AxisLength(c));
      InlineStep(md, i, k, key, newLength)[i].walls[j].coords == Reconnect(md[i].walls[j].coords, c.start, c.end, n.start, n.end)
  {
  }

  lemma SameShapeIds(a: Metadata, b: Metadata, i: nat)
    requires SameShape(a, b, i) && DistinctIds(a[i].walls)
    ensures DistinctIds(b[i].walls)
  {
    forall j, k | 0 <= j < k < |b[i].walls| ensures b[i].walls[j].id != b[i].walls[k].id {
      assert Skeleton(a[i].walls[j]) == Skeleton(b[i].walls[j]);
      assert Skeleton(a[i].walls[k]) == Skeleton(b[i].walls[k]);
    }
  }

  // Once consistent the room stays so; and a row that resizes some wall
  // (k0 is one it selects) leaves it consistent.
  lemma {:induction false} FinalRowConsistent(md: Metadata, i: nat, wn: nat, key: string, newLength: int, n: nat, k0: nat)
    requires i < |md| && n <= |md[i].walls| && DistinctIds(md[i].walls)
    requires RoomConsistent(md, i) || (k0 < n && Picks(md[i].walls[k0], wn))
    ensures RoomConsistent(FinalRow(md, i, wn, key, newLength, n), i)
  {
    if n > 0 {
      var mid := FinalRow(md, i, wn, key, newLength, n - 1);
      SameShapeIds(md, mid, i);
      if Picks(mid[i].walls[n - 1], wn) {
        PickedStepConsistent(md, i, wn, key, newLength, n);
      } else {
        assert Skeleton(md[i].walls[n - 1]) == Skeleton(mid[i].walls[n - 1]);
        SkeletonPicks(md[i].walls[n - 1], mid[i].walls[n - 1], wn);
        assert k0 < n && Picks(md[i].walls[k0], wn) ==> k0 < n - 1;
        FinalRowConsistent(md, i, wn, key, newLength, n - 1, k0);
        UnpickedStep(md, i, wn, key, newLength, n);
      }
    }
  }

  // A step that resizes no wall changes nothing.
  lemma UnpickedStep(md: Metadata, i: nat, wn: nat, key: string, newLength: int, n: nat)
    requires i < |md| && 0 < n <= |md[i].walls|
    requires !Picks(FinalRow(md, i, wn, key, newLength, n - 1)[i].walls[n - 1], wn)
    ensures FinalRow(md, i, wn, key, newLength, n) == FinalRow(md, i, wn, key, newLength, n - 1)
  {
  }

  // A step that resizes a wall leaves the room consistent.
  lemma PickedStepConsistent(md: Metadata, i: nat, wn: nat, key: string, newLength: int, n: nat)
    requires i < |md| && 0 < n <= |md[i].walls|
    requires var mid := FinalRow(md, i, wn, key, newLength, n - 1);
      DistinctIds(mid[i].walls) && Picks(mid[i].walls[n - 1], wn)
    ensures RoomConsistent(FinalRow(md, i, wn, key, newLength, n), i)
  {
    var mid := FinalRow(md, i, wn, key, newLength, n - 1);
    InlineStepConsistent(mid, i, n - 1, key, newLength);
  }

  lemma {:induction false} FinalRowsConsistent(md: Metadata, i: nat, wns: seq<nat>, key: string, newLength: int)
    requires i < |md| && DistinctIds(md[i].walls) && |wns| > 0
    requires exists k :: 0 <= k < |md[i].walls| && md[i].walls[k].id == wns[|wns| - 1]
    ensures RoomConsistent(FinalRows(md, i, wns, key, newLength), i)
  {
    var mid := FinalRows(md, i, wns[..|wns| - 1], key, newLength);
    var k :| 0 <= k < |md[i].walls| && md[i].walls[k].id == wns[|wns| - 1];
    SameShapeIds(md, mid, i);
    assert Skeleton(md[i].walls[k]) == Skeleton(mid[i].walls[k]);
    FinalRowConsistent(mid, i, wns[|wns| - 1], key, newLength, |mid[i].walls|, k);
  }

  lemma SameTypeIdsIn(ws: seq<WallInfo>, t: WallType, j: nat)
    requires j < |SameTypeIds(ws, t)|
    ensures exists k :: 0 <= k < |ws| && ws[k].id == SameTypeIds(ws, t)[j]
  {
    SameTypeIdsShape(ws, ws, t);
  }

  // When the room has a free side among the two, the first of them is used,
  // nothing is snapped, no other room moves, and every wall of the room ends
  // with the length of its coordinates.
  lemma FirstFreeDirection(v: Variant, check: FurtherCheck, md: Metadata, room: string, dimension: string, newLength: int, unique: seq<int>)
    requires FindMeta(md, room).Some?
    requires var i := FindMeta(md, room).value; Free(md, i, Possible(dimension).0) || Free(md, i, Possible(dimension).1)
    ensures var i := FindMeta(md, room).value;
      var (a, b) := Possible(dimension);
      var wns := SameTypeIds(md[i].walls, DimType(dimension));
      AdjustDimensionWith(v, check, md, room, dimension, newLength, unique) ==
        Ok(FinalRows(md, i, wns, if Free(md, i, a) then a else b, newLength))
    ensures var i := FindMeta(md, room).value;
      SameShape(md, AdjustDimensionWith(v, check, md, room, dimension, newLength, unique).value, i)
  {
  }

  lemma FreshRoomConsistent(v: Variant, check: FurtherCheck, md: Metadata, room: string, dimension: string, newLength: int, unique: seq<int>)
    requires FindMeta(md, room).Some?
    requires var i := FindMeta(md, room).value; Free(md, i, Possible(dimension).0) || Free(md, i, Possible(dimension).1)
    requires DistinctIds(md[FindMeta(md, room).value].walls)
    requires |SameTypeIds(md[FindMeta(md, room).value].walls, DimType(dimension))| > 0
    ensures RoomConsistent(AdjustDimensionWith(v, check, md, room, dimension, newLength, unique).value, FindMeta(md, room).value)
  {
    var i := FindMeta(md, room).value;
    var (a, b) := Possible(dimension);
    var wns := SameTypeIds(md[i].walls, DimType(dimension));
    FirstFreeDirection(v, check, md, room, dimension, newLength, unique);
    SameTypeIdsIn(md[i].walls, DimType(dimension), |wns| - 1);
    FinalRowsConsistent(md, i, wns, if Free(md, i, a) then a else b, newLength);
  }

  // When no direction is found the only change is the snap of the search:
  // the coordinates of the plan are the snapped ones, everything else is as
  // it was (the recorded lengths included).
  lemma GiveUpOnlySnaps(v: Variant, check: FurtherCheck, md: Metadata, i: nat, a: string, b: string, delta: Option<int>, unique: seq<int>)
    requires i < |md|
    requires Decide(v, check, md, i, a, b, delta, unique).Ok?
    requires Decide(v, check, md, i, a, b, delta, unique).value.key.None?
    ensures var r := Decide(v, check, md, i, a, b, delta, unique).value.md;
      r == SnappedMeta(v, md, unique) && PlanOf(r) == SnappedPlan(v, md, unique)
  {
    SnapMetaPlan(md, Snap.Groups(unique, SnapThreshold(v)));
  }

  // --- how often a room is shifted ---

  lemma {:induction false} InOrderCount(md: Metadata, s: set<string>, x: string)
    requires UniqueNames(md)
    ensures multiset(InOrder(md, s))[x] == if x in s && HasMeta(md, x) then 1 else 0
  {
    if |md| > 0 {
      var init := md[..|md| - 1];
      var last := md[|md| - 1].name;
      assert UniqueNames(init);
      InOrderCount(init, s, x);
      assert forall m :: 0 <= m < |init| ==> init[m] == md[m];
      if last == x {
        forall m | 0 <= m < |init| ensures init[m].name != x {
          assert md[m].name != md[|md| - 1].name;
        }
      }
      assert HasMeta(md, x) <==> HasMeta(init, x) || last == x;
    }
  }

  lemma {:induction false} RelatedAllPlacementCount(rooms: seq<string>, main: string, x: string)
    ensures multiset(RelatedAll(PlacementModule, rooms, main))[x] == if x == main then 0 else multiset(rooms)[x]
  {
    if |rooms| > 0 {
      var init, last := rooms[..|rooms| - 1], rooms[|rooms| - 1];
      RelatedAllPlacementCount(init, main, x);
      assert rooms == init + [last];
      assert multiset(rooms) == multiset(init) + multiset{last};
      var rel := RelatedToMain(last, main);
      assert RelatedAll(PlacementModule, rooms, main) == RelatedAll(PlacementModule, init, main) + rel;
    }
  }

  // The searched room is never one of its own neighbours.
  lemma NotOwnNeighbour(snapped: Plan, room: string, sides: Sides, d: Direction)
    requires AdjacentRoomsSpec(room, snapped) == Ok(sides)
    ensures room !in Side(sides, d)
  {
    AdjacentRoomsNeverSelf(room, snapped);
  }

  // The second step of new_room_maain.py: when the room's own sides are both
  // blocked and every neighbour on the first side is free there, each of
  // those neighbours is moved once by delta toward that side and every other
  // room keeps its snapped coordinates.  The second step does not depend on
  // the third step's test, so this holds as written and corrected alike.
  lemma SecondStepShiftsNeighbours(check: FurtherCheck, md: Metadata, i: nat, a: string, b: string, delta: int, unique: seq<int>, m: nat)
    requires i < |md| && m < |md| && UniqueNames(md)
    requires !Free(md, i, a) && !Free(md, i, b)
    requires Rectilinear(SnappedPlan(PlacementModule, md, unique))
    requires AdjacentRoomsSpec(md[i].name, SnappedPlan(PlacementModule, md, unique)).Ok?
    requires var sides := AdjacentRoomsSpec(md[i].name, SnappedPlan(PlacementModule, md, unique)).value;
      SideFree(SnappedMeta(PlacementModule, md, unique), Side(sides, DirOf(a)), a)
    ensures var sides := AdjacentRoomsSpec(md[i].name, SnappedPlan(PlacementModule, md, unique)).value;
      var smd := SnappedMeta(PlacementModule, md, unique);
      var r := Decide(PlacementModule, check, md, i, a, b, Some(delta), unique);
      r.Ok? && r.value.key == Some(a) &&
      r.value.md[m] == MovedBy(smd[m], a, delta, if md[m].name in Side(sides, DirOf(a)) then 1 else 0)
  {
    var sides := AdjacentRoomsSpec(md[i].name, SnappedPlan(PlacementModule, md, unique)).value;
    var smd := SnappedMeta(PlacementModule, md, unique);
    var sa := Side(sides, DirOf(a));
    var oa := InOrder(md, sa);
    var names := RelatedAll(PlacementModule, oa, md[i].name);
    SecondStepDecision(check, md, i, a, b, delta, unique);
    assert UniqueNames(smd);
    MoveRoomsAt(smd, names, a, delta, m);
    RelatedAllPlacementCount(oa, md[i].name, md[m].name);
    InOrderCount(md, sa, md[m].name);
    assert HasMeta(md, md[m].name);
    NotOwnNeighbour(SnappedPlan(PlacementModule, md, unique), md[i].name, sides, DirOf(a));
  }

  // With side a blocked for the room and free for its neighbours, the
  // neighbours on side a and the rooms related to them are moved toward a.
  lemma SecondStepDecision(check: FurtherCheck, md: Metadata, i: nat, a: string, b: string, delta: int, unique: seq<int>)
    requires i < |md|
    requires !Free(md, i, a) && !Free(md, i, b)
    requires Rectilinear(SnappedPlan(PlacementModule, md, unique))
    requires AdjacentRoomsSpec(md[i].name, SnappedPlan(PlacementModule, md, unique)).Ok?
    requires var sides := AdjacentRoomsSpec(md[i].name, SnappedPlan(PlacementModule, md, unique)).value;
      SideFree(SnappedMeta(PlacementModule, md, unique), Side(sides, DirOf(a)), a)
    ensures var sides := AdjacentRoomsSpec(md[i].name, SnappedPlan(PlacementModule, md, unique)).value;
      var smd := SnappedMeta(PlacementModule, md, unique);
      var oa := InOrder(md, Side(sides, DirOf(a)));
      Decide(PlacementModule, check, md, i, a, b, Some(delta), unique) ==
        Ok(Decision(MoveRooms(smd, RelatedAll(PlacementModule, oa, md[i].name), a, delta), Some(a)))
  {
  }

  // --- the third step as written ---

  // No room is called after a side.
  predicate NoSideNamedRoom(md: Metadata) {
    forall m :: 0 <= m < |md| ==> md[m].name !in SideKeys
  }

  // As written the third step's test holds whatever the rooms beyond are.
  lemma KeysCheckVacuous(md: Metadata, snapped: Plan, s: set<string>, key: string)
    requires NoSideNamedRoom(md)
    ensures FurtherFree(KeysCheck, md, snapped, s, key)
  {
    forall k | k in SideKeys ensures !HasMeta(md, k) {
      assert forall m :: 0 <= m < |md| ==> md[m].name != k;
    }
  }

  // So, as written, the procedure never gives up: once the first two steps
  // fail it always shifts toward the first side.
  lemma AsWrittenNeverGivesUp(v: Variant, md: Metadata, i: nat, a: string, b: string, delta: Option<int>, unique: seq<int>)
    requires i < |md| && NoSideNamedRoom(md)
    requires Decide(v, KeysCheck, md, i, a, b, delta, unique).Ok?
    ensures Decide(v, KeysCheck, md, i, a, b, delta, unique).value.key.Some?
  {
    var smd := SnappedMeta(v, md, unique);
    assert NoSideNamedRoom(smd);
    if !Free(md, i, a) && !Free(md, i, b) {
      var snapped := SnappedPlan(v, md, unique);
      if Rectilinear(snapped) && AdjacentRoomsSpec(md[i].name, snapped).Ok? {
        var sides := AdjacentRoomsSpec(md[i].name, snapped).value;
        KeysCheckVacuous(smd, snapped, Side(sides, DirOf(a)), a);
      }
    }
  }

  // The discrepancy: with a neighbour on the first side whose room beyond is
  // blocked toward that side, the written test still passes while the
  // intended one fails.
  lemma KeysCheckMissesBlockedRoom(md: Metadata, snapped: Plan, s: set<string>, key: string, x: string, f: string)
    requires NoSideNamedRoom(md)
    requires x in s && f in Reach.Adj(snapped, x, DirOf(key)) && HasMeta(md, f)
    requires DirectionFree(md, f, key) == Ok(false)
    ensures FurtherFree(KeysCheck, md, snapped, s, key)
    ensures !FurtherFree(RoomsCheck, md, snapped, s, key)
  {
    KeysCheckVacuous(md, snapped, s, key);
  }

  // The intended third step shifts toward a side only when every room
  // beyond the neighbours on that side is free there.
  lemma ThirdStepChecked(v: Variant, md: Metadata, i: nat, a: string, b: string, delta: Option<int>, unique: seq<int>)
    requires i < |md| && !Free(md, i, a) && !Free(md, i, b)
    requires Rectilinear(SnappedPlan(v, md, unique))
    requires AdjacentRoomsSpec(md[i].name, SnappedPlan(v, md, unique)).Ok?
    requires var sides := AdjacentRoomsSpec(md[i].name, SnappedPlan(v, md, unique)).value;
      var smd := SnappedMeta(v, md, unique);
      !SideFree(smd, Side(sides, DirOf(a)), a) && !SideFree(smd, Side(sides, DirOf(b)), b)
    requires Decide(v, RoomsCheck, md, i, a, b, delta, unique).Ok?
    ensures var sides := AdjacentRoomsSpec(md[i].name, SnappedPlan(v, md, unique)).value;
      var smd := SnappedMeta(v, md, unique);
      var key := Decide(v, RoomsCheck, md, i, a, b, delta, unique).value.key;
      key == Some(a) <==> FurtherFree(RoomsCheck, smd, SnappedPlan(v, md, unique), Side(sides, DirOf(a)), a)
  {
  }
}
