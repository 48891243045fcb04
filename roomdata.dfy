// Room metadata: make_roomdata, is_wall_free, calculate_area,
// calculate_total_area and is_direction_free of
// backend_project/src/new_room_maain.py.
module RoomData {
  import opened Wrappers
  import opened Geometry
  import opened FloorPlan

  // One entry of metadata[room][wall_id].
  datatype WallInfo = WallInfo(
    id: nat,
    length: int,
    wallType: WallType,
    coords: Wall,
    roomArea: int,
    parallel: seq<nat>,
    isFree: bool,
    direction: Direction)

  // metadata[room]: the wall entries of one room in insertion order.
  datatype RoomMeta = RoomMeta(name: string, walls: seq<WallInfo>)
  type Metadata = seq<RoomMeta>

  // --- area (shoelace formula) ---

  function Cross(p: Point, q: Point): int { p.x * q.y - q.x * p.y }

  // Sum of Cross(pts[i], pts[i + 1]) for i from k on, wrapping around at the end.
  function ShoelaceFrom(pts: seq<Point>, k: nat): int
    requires k <= |pts|
    decreases |pts| - k
  {
    if k == |pts| then 0
    else Cross(pts[k], pts[if k + 1 == |pts| then 0 else k + 1]) + ShoelaceFrom(pts, k + 1)
  }

  // calculate_area: half the absolute shoelace sum, truncated to hundredths.
  // With coordinates in hundredths the sum is in ten-thousandths, so the
  // area in hundredths of a square unit is |sum| / 200, rounded down.
  function CalculateArea(pts: seq<Point>): (a: int)
    ensures a >= 0
    ensures pts == [] ==> a == 0
  {
    Abs(ShoelaceFrom(pts, 0)) / 200
  }

  function Starts(walls: seq<Wall>): (pts: seq<Point>)
    ensures |pts| == |walls|
    ensures forall k :: 0 <= k < |walls| ==> pts[k] == walls[k].start
  {
    seq(|walls|, k requires 0 <= k < |walls| => walls[k].start)
  }

  // The area of a rectangle written as four clockwise walls is length * width.
  lemma {:induction false} RectangleArea(topLeft: Point, length: nat, width: nat)
    ensures CalculateArea(Starts(RectangleWalls(topLeft, length, width))) == length * width / 100
  {
    var pts := Starts(RectangleWalls(topLeft, length, width));
    var x, y, l, w: int := topLeft.x, topLeft.y, length, width;
    assert pts == [Point(x, y), Point(x + l, y), Point(x + l, y - w), Point(x, y - w)];
    var c0, c1, c2, c3 := Cross(pts[0], pts[1]), Cross(pts[1], pts[2]), Cross(pts[2], pts[3]), Cross(pts[3], pts[0]);
    assert c0 == x * y - (x + l) * y;
    assert c1 == (x + l) * (y - w) - (x + l) * y;
    assert c2 == (x + l) * (y - w) - x * (y - w);
    assert c3 == x * y - x * (y - w);
    assert ShoelaceFrom(pts, 3) == c3;
    assert ShoelaceFrom(pts, 2) == c2 + c3;
    assert ShoelaceFrom(pts, 1) == c1 + c2 + c3;
    assert ShoelaceFrom(pts, 0) == c0 + c1 + c2 + c3;
    assert c0 + c1 + c2 + c3 == -2 * (l * w) by {
      assert (x + l) * y == x * y + l * y;
      assert (x + l) * (y - w) == x * y - x * w + l * y - l * w;
      assert x * (y - w) == x * y - x * w;
    }
  }

  // --- is_wall_free ---

  // No wall of any other room overlaps w (check_overlap).
  predicate WallFree(w: Wall, name: string, p: Plan) {
    forall i, j :: 0 <= i < |p| && 0 <= j < |p[i].walls| && p[i].name != name ==>
      !CheckOverlap(w, p[i].walls[j])
  }

  method IsWallFree(w: Wall, name: string, p: Plan) returns (free: bool)
    ensures free <==> WallFree(w, name, p)
    ensures free == !Blocked(w, name, p)
  {
    BlockedIffNotFree(w, name, p);
    var i := 0;
    while i < |p|
      invariant 0 <= i <= |p|
      invariant forall i', j :: 0 <= i' < i && 0 <= j < |p[i'].walls| && p[i'].name != name ==>
        !CheckOverlap(w, p[i'].walls[j])
    {
      if p[i].name != name {
        var j := 0;
        while j < |p[i].walls|
          invariant 0 <= j <= |p[i].walls|
          invariant forall j' :: 0 <= j' < j ==> !CheckOverlap(w, p[i].walls[j'])
        {
          if CheckOverlap(w, p[i].walls[j]) {
            return false;
          }
          j := j + 1;
        }
      }
      i := i + 1;
    }
    return true;
  }

  // The same test as a recursion over the plan: some other room has a wall
  // that overlaps w.
  function OverlapsSome(w: Wall, walls: seq<Wall>): bool {
    |walls| > 0 && (CheckOverlap(w, walls[0]) || OverlapsSome(w, walls[1..]))
  }

  function Blocked(w: Wall, name: string, rooms: Plan): bool {
    |rooms| > 0 && ((rooms[0].name != name && OverlapsSome(w, rooms[0].walls)) || Blocked(w, name, rooms[1..]))
  }

  lemma {:induction false} OverlapsSomeIff(w: Wall, walls: seq<Wall>)
    ensures OverlapsSome(w, walls) <==> exists j :: 0 <= j < |walls| && CheckOverlap(w, walls[j])
    decreases |walls|
  {
    if |walls| > 0 {
      OverlapsSomeIff(w, walls[1..]);
      if OverlapsSome(w, walls[1..]) {
        var j :| 0 <= j < |walls[1..]| && CheckOverlap(w, walls[1..][j]);
        assert walls[j + 1] == walls[1..][j];
      }
      if j :| 1 <= j < |walls| && CheckOverlap(w, walls[j]) {
        assert walls[1..][j - 1] == walls[j];
      }
    }
  }

  lemma {:induction false} BlockedIffNotFree(w: Wall, name: string, p: Plan)
    ensures Blocked(w, name, p) <==> !WallFree(w, name, p)
    decreases |p|
  {
    if |p| > 0 {
      BlockedIffNotFree(w, name, p[1..]);
      OverlapsSomeIff(w, p[0].walls);
      if !WallFree(w, name, p[1..]) {
        var i, j :| 0 <= i < |p[1..]| && 0 <= j < |p[1..][i].walls| && p[1..][i].name != name &&
          CheckOverlap(w, p[1..][i].walls[j]);
        assert p[i + 1] == p[1..][i];
      }
      if !WallFree(w, name, p) {
        var i, j :| 0 <= i < |p| && 0 <= j < |p[i].walls| && p[i].name != name && CheckOverlap(w, p[i].walls[j]);
        if i > 0 {
          assert p[1..][i - 1] == p[i];
        }
      }
    }
  }

  // --- make_roomdata ---

  // The ids counter, counter + 1, ... of the walls of type t among walls.
  function ParallelIds(walls: seq<Wall>, counter: nat, t: WallType): seq<nat>
    decreases |walls|
  {
    if |walls| == 0 then []
    else
      var n := |walls| - 1;
      ParallelIds(walls[..n], counter, t) + (if DetermineWallType(walls[n]) == t then [counter + n] else [])
  }

  // The ids of the entries of type t, in order: what parallel_walls means.
  function SameTypeIds(infos: seq<WallInfo>, t: WallType): (ids: seq<nat>)
    ensures forall id :: id in ids <==> exists k :: 0 <= k < |infos| && infos[k].wallType == t && infos[k].id == id
  {
    if |infos| == 0 then []
    else
      var n := |infos| - 1;
      var rest := SameTypeIds(infos[..n], t);
      assert forall k :: 0 <= k < n ==> infos[..n][k] == infos[k];
      rest + (if infos[n].wallType == t then [infos[n].id] else [])
  }

  datatype Box = Box(minX: int, maxX: int, minY: int, maxY: int)

  // The room's bounding box, computed over all of its walls.
  function RoomBox(walls: seq<Wall>): Box {
    if |walls| == 0 then Box(0, 0, 0, 0) else Box(MinX(walls), MaxX(walls), MinY(walls), MaxY(walls))
  }

  // room_area: the shoelace area of the polygon through the walls' start points.
  function RoomArea(walls: seq<Wall>): (a: int)
    ensures a >= 0
    ensures walls == [] ==> a == 0
  {
    CalculateArea(Starts(walls))
  }

  // What make_roomdata knows of a room before it numbers the room's walls:
  // its area, its bounding box and the id lists of its horizontal and
  // vertical walls.
  datatype RoomCtx = RoomCtx(room: Room, all: Plan, counter: nat, area: int, box: Box,
                             horizontal: seq<nat>, vertical: seq<nat>)

  function Ctx(room: Room, all: Plan, counter: nat): RoomCtx {
    RoomCtx(room, all, counter, RoomArea(room.walls), RoomBox(room.walls),
            ParallelIds(room.walls, counter, Horizontal), ParallelIds(room.walls, counter, Vertical))
  }

  // The entry the first pass of make_roomdata writes for the k-th wall of a
  // room: everything but parallel_walls, which is still empty.
  function Numbered(c: RoomCtx, k: nat): WallInfo
    requires k < |c.room.walls|
  {
    var w := c.room.walls[k];
    WallInfo(c.counter + k, AxisLength(w), DetermineWallType(w), w, c.area, [],
             !Blocked(w, c.room.name, c.all), GetDirection(w, c.box.minX, c.box.maxX, c.box.minY, c.box.maxY))
  }

  // The finished entry: the second pass hands it the ids of its type.
  function WallInfoOf(c: RoomCtx, k: nat): WallInfo
    requires k < |c.room.walls|
  {
    var e := Numbered(c, k);
    e.(parallel := if e.wallType == Horizontal then c.horizontal else c.vertical)
  }

  // The first-pass entries of walls 0 .. j - 1.
  function NumberedUpTo(c: RoomCtx, j: nat): (infos: seq<WallInfo>)
    requires j <= |c.room.walls|
    ensures |infos| == j
  {
    if j == 0 then [] else NumberedUpTo(c, j - 1) + [Numbered(c, j - 1)]
  }

  lemma {:induction false} NumberedUpToAt(c: RoomCtx, j: nat, k: nat)
    requires k < j <= |c.room.walls|
    ensures NumberedUpTo(c, j)[k] == Numbered(c, k)
    decreases j
  {
    if k < j - 1 {
      NumberedUpToAt(c, j - 1, k);
    }
  }

  // metadata[room]: the entries of all walls of the room, in order, the
  // walls numbered from counter.
  function RoomInfos(room: Room, all: Plan, counter: nat): (infos: seq<WallInfo>)
    ensures |infos| == |room.walls|
  {
    var c := Ctx(room, all, counter);
    seq(|room.walls|, k requires 0 <= k < |room.walls| => WallInfoOf(c, k))
  }

  // The metadata of rooms, numbering walls from counter, with the entries of
  // each room given by entries.  A room without walls gets no entry:
  // make_roomdata creates metadata[room] on the room's first wall.
  function Build(rooms: Plan, counter: nat, entries: (Room, nat) -> seq<WallInfo>): Metadata
    decreases |rooms|
  {
    if |rooms| == 0 then []
    else
      var head := if |rooms[0].walls| == 0 then [] else [RoomMeta(rooms[0].name, entries(rooms[0], counter))];
      head + Build(rooms[1..], counter + |rooms[0].walls|, entries)
  }

  function EntriesOf(all: Plan): (Room, nat) -> seq<WallInfo> {
    (room: Room, counter: nat) => RoomInfos(room, all, counter)
  }

  // make_roomdata as a specification: the wall_numbers dictionary has no
  // 'diagonal' key, so a diagonal wall raises KeyError.
  function MakeRoomDataSpec(p: Plan): (r: Result<Metadata>)
    ensures r.Err? <==> !Rectilinear(p)
  {
    if Rectilinear(p) then Ok(Build(p, 1, EntriesOf(p))) else Err(KeyError("diagonal"))
  }

  lemma ParallelIdsSnoc(walls: seq<Wall>, counter: nat, t: WallType, j: nat)
    requires j < |walls|
    ensures ParallelIds(walls[..j + 1], counter, t) ==
      ParallelIds(walls[..j], counter, t) + (if DetermineWallType(walls[j]) == t then [counter + j] else [])
  {
    assert walls[..j + 1][..j] == walls[..j];
  }

  // The entry of the first pass for wall k of a room.
  method NumberWall(room: Room, p: Plan, start: nat, area: int, box: Box, k: nat) returns (e: WallInfo)
    requires k < |room.walls|
    ensures e == Numbered(RoomCtx(room, p, start, area, box, [], []), k)
  {
    var w := room.walls[k];
    var free := IsWallFree(w, room.name, p);
    var dir := GetDirection(w, box.minX, box.maxX, box.minY, box.maxY);
    e := WallInfo(start + k, AxisLength(w), DetermineWallType(w), w, area, [], free, dir);
  }

  // A horizontal or vertical wall joins the id list of its own type.
  lemma ParallelStep(walls: seq<Wall>, start: nat, j: nat)
    requires j < |walls| && DetermineWallType(walls[j]) != Diagonal
    ensures var t := DetermineWallType(walls[j]);
      ParallelIds(walls[..j + 1], start, Horizontal) ==
        ParallelIds(walls[..j], start, Horizontal) + (if t == Horizontal then [start + j] else []) &&
      ParallelIds(walls[..j + 1], start, Vertical) ==
        ParallelIds(walls[..j], start, Vertical) + (if t == Horizontal then [] else [start + j])
  {
    ParallelIdsSnoc(walls, start, Horizontal, j);
    ParallelIdsSnoc(walls, start, Vertical, j);
  }

  // The first pass of make_roomdata over one room: number its walls from
  // start and collect the ids of its horizontal and vertical walls.  None
  // when the room has a diagonal wall.
  method NumberWalls(room: Room, p: Plan, start: nat, area: int, box: Box)
    returns (r: Option<(seq<WallInfo>, seq<nat>, seq<nat>)>)
    ensures r.None? <==> !RoomRectilinear(room)
    ensures r.Some? ==> r.value.0 == NumberedUpTo(RoomCtx(room, p, start, area, box, [], []), |room.walls|)
    ensures r.Some? ==> r.value.1 == ParallelIds(room.walls, start, Horizontal)
    ensures r.Some? ==> r.value.2 == ParallelIds(room.walls, start, Vertical)
  {
    var walls := room.walls;
    ghost var c := RoomCtx(room, p, start, area, box, [], []);
    var infos: seq<WallInfo> := [];
    var horizontal: seq<nat> := [];
    var vertical: seq<nat> := [];
    var counter := start;
    var j := 0;
    while j < |walls|
      invariant 0 <= j <= |walls|
      invariant counter == start + j
      invariant FirstPass(c, j, infos, horizontal, vertical)
    {
      var w := walls[j];
      var t := DetermineWallType(w);
      if t == Diagonal {
        return None;
      }
      var e := NumberWall(room, p, start, area, box, j);
      ghost var h0, v0 := horizontal, vertical;
      if t == Horizontal {
        horizontal := horizontal + [counter];
      } else {
        vertical := vertical + [counter];
      }
      FirstPassStep(c, j, infos, h0, v0, e, horizontal, vertical);
      infos := infos + [e];
      counter := counter + 1;
      j := j + 1;
    }
    FirstPassDone(c, infos, horizontal, vertical);
    return Some((infos, horizontal, vertical));
  }

  // The state of the first pass after j walls: their entries, the ids of
  // the horizontal and the vertical ones, and no diagonal wall so far.
  ghost predicate FirstPass(c: RoomCtx, j: nat, infos: seq<WallInfo>, horizontal: seq<nat>, vertical: seq<nat>) {
    j <= |c.room.walls| &&
    infos == NumberedUpTo(c, j) &&
    horizontal == ParallelIds(c.room.walls[..j], c.counter, Horizontal) &&
    vertical == ParallelIds(c.room.walls[..j], c.counter, Vertical) &&
    forall k :: 0 <= k < j ==> DetermineWallType(c.room.walls[k]) != Diagonal
  }

  lemma FirstPassStep(c: RoomCtx, j: nat, infos: seq<WallInfo>, horizontal: seq<nat>, vertical: seq<nat>, e: WallInfo,
                      horizontal': seq<nat>, vertical': seq<nat>)
    requires FirstPass(c, j, infos, horizontal, vertical) && j < |c.room.walls|
    requires DetermineWallType(c.room.walls[j]) != Diagonal && e == Numbered(c, j)
    requires DetermineWallType(c.room.walls[j]) == Horizontal ==>
      horizontal' == horizontal + [c.counter + j] && vertical' == vertical
    requires DetermineWallType(c.room.walls[j]) != Horizontal ==>
      horizontal' == horizontal && vertical' == vertical + [c.counter + j]
    ensures FirstPass(c, j + 1, infos + [e], horizontal', vertical')
  {
    ParallelStep(c.room.walls, c.counter, j);
  }

  lemma FirstPassDone(c: RoomCtx, infos: seq<WallInfo>, horizontal: seq<nat>, vertical: seq<nat>)
    requires FirstPass(c, |c.room.walls|, infos, horizontal, vertical)
    ensures RoomRectilinear(c.room)
    ensures infos == NumberedUpTo(c, |c.room.walls|)
    ensures horizontal == ParallelIds(c.room.walls, c.counter, Horizontal)
    ensures vertical == ParallelIds(c.room.walls, c.counter, Vertical)
  {
    assert c.room.walls[..|c.room.walls|] == c.room.walls;
  }

  // The second pass: every entry gets the id list of its own type.
  method AssignParallel(infos: seq<WallInfo>, horizontal: seq<nat>, vertical: seq<nat>) returns (out: seq<WallInfo>)
    ensures |out| == |infos|
    ensures forall k :: 0 <= k < |infos| ==>
      out[k] == infos[k].(parallel := if infos[k].wallType == Horizontal then horizontal else vertical)
  {
    out := infos;
    var k := 0;
    while k < |out|
      invariant 0 <= k <= |out| == |infos|
      invariant forall k' :: 0 <= k' < k ==>
        out[k'] == infos[k'].(parallel := if infos[k'].wallType == Horizontal then horizontal else vertical)
      invariant forall k' :: k <= k' < |out| ==> out[k'] == infos[k']
    {
      var ids := if out[k].wallType == Horizontal then horizontal else vertical;
      out := out[k := out[k].(parallel := ids)];
      k := k + 1;
    }
  }

  // Both passes of make_roomdata over one room.
  method RoomEntries(room: Room, p: Plan, start: nat) returns (r: Option<seq<WallInfo>>)
    ensures r.None? <==> !RoomRectilinear(room)
    ensures r.Some? ==> r.value == RoomInfos(room, p, start)
  {
    var area := RoomArea(room.walls);
    var box := RoomBox(room.walls);
    var numbered := NumberWalls(room, p, start, area, box);
    if numbered.None? {
      return None;
    }
    var (infos, horizontal, vertical) := numbered.value;
    var out := AssignParallel(infos, horizontal, vertical);
    ghost var c0 := RoomCtx(room, p, start, area, box, [], []);
    ghost var c := Ctx(room, p, start);
    forall k | 0 <= k < |out| ensures out[k] == RoomInfos(room, p, start)[k] {
      NumberedUpToAt(c0, |room.walls|, k);
    }
    return Some(out);
  }

  lemma {:induction false} TotalWallsAppend(a: Plan, b: Plan)
    ensures TotalWalls(a + b) == TotalWalls(a) + TotalWalls(b)
    decreases |a|
  {
    if |a| == 0 {
      assert a + b == b;
    } else {
      assert (a + b)[1..] == a[1..] + b;
      TotalWallsAppend(a[1..], b);
    }
  }

  // Numbering the rooms of a + b is numbering a, then b from where a stopped.
  lemma {:induction false} BuildAppend(a: Plan, b: Plan, counter: nat, entries: (Room, nat) -> seq<WallInfo>)
    ensures Build(a + b, counter, entries) == Build(a, counter, entries) + Build(b, counter + TotalWalls(a), entries)
    decreases |a|
  {
    if |a| == 0 {
      assert a + b == b;
    } else {
      assert (a + b)[0] == a[0];
      assert (a + b)[1..] == a[1..] + b;
      BuildAppend(a[1..], b, counter + |a[0].walls|, entries);
    }
  }

  // One more room at the end of the plan adds its own entry, numbered from
  // where the rooms before it stopped.
  lemma BuildSnoc(p: Plan, i: nat, counter: nat, entries: (Room, nat) -> seq<WallInfo>)
    requires i < |p|
    ensures TotalWalls(p[..i + 1]) == TotalWalls(p[..i]) + |p[i].walls|
    ensures Build(p[..i + 1], counter, entries) == Build(p[..i], counter, entries) +
      (if |p[i].walls| == 0 then [] else [RoomMeta(p[i].name, entries(p[i], counter + TotalWalls(p[..i])))])
  {
    assert p[..i + 1] == p[..i] + [p[i]];
    BuildAppend(p[..i], [p[i]], counter, entries);
    TotalWallsAppend(p[..i], [p[i]]);
    assert [p[i]][1..] == [];
  }

  method MakeRoomData(p: Plan) returns (r: Result<Metadata>)
    ensures r == MakeRoomDataSpec(p)
  {
    var md: Metadata := [];
    var counter: nat := 1;
    var i := 0;
    while i < |p|
      invariant 0 <= i <= |p|
      invariant counter == 1 + TotalWalls(p[..i])
      invariant md == Build(p[..i], 1, EntriesOf(p))
      invariant Rectilinear(p[..i])
    {
      var entries := RoomEntries(p[i], p, counter);
      if entries.None? {
        DiagonalRoom(p, i);
        return Err(KeyError("diagonal"));
      }
      BuildStep(p, i, md, entries.value);
      if |p[i].walls| > 0 {
        md := md + [RoomMeta(p[i].name, entries.value)];
      }
      counter := counter + |p[i].walls|;
      i := i + 1;
    }
    RoomsDone(p, md);
    return Ok(md);
  }

  // One loop step of make_roomdata: the room's entries extend the metadata.
  lemma BuildStep(p: Plan, i: nat, md: Metadata, entries: seq<WallInfo>)
    requires i < |p| && md == Build(p[..i], 1, EntriesOf(p))
    requires entries == RoomInfos(p[i], p, 1 + TotalWalls(p[..i]))
    ensures TotalWalls(p[..i + 1]) == TotalWalls(p[..i]) + |p[i].walls|
    ensures Build(p[..i + 1], 1, EntriesOf(p)) ==
      if |p[i].walls| > 0 then md + [RoomMeta(p[i].name, entries)] else md
    ensures Rectilinear(p[..i]) && RoomRectilinear(p[i]) ==> Rectilinear(p[..i + 1])
  {
    BuildSnoc(p, i, 1, EntriesOf(p));
    EntriesOfIs(p, p[i], 1 + TotalWalls(p[..i]));
    RectilinearSnoc(p, i);
  }

  lemma RectilinearSnoc(p: Plan, i: nat)
    requires i < |p|
    ensures Rectilinear(p[..i]) && RoomRectilinear(p[i]) ==> Rectilinear(p[..i + 1])
  {
    assert p[..i + 1] == p[..i] + [p[i]];
  }

  // A room with a diagonal wall makes the whole plan fail.
  lemma DiagonalRoom(p: Plan, i: nat)
    requires i < |p| && !RoomRectilinear(p[i])
    ensures MakeRoomDataSpec(p) == Err(KeyError("diagonal"))
  {
  }

  // After the loop: every room was rectilinear, so the result is the
  // specification's.
  lemma RoomsDone(p: Plan, md: Metadata)
    requires md == Build(p[..|p|], 1, EntriesOf(p)) && Rectilinear(p[..|p|])
    ensures Ok(md) == MakeRoomDataSpec(p)
  {
    assert p[..|p|] == p;
  }

  // --- properties of the metadata ---

  // Entry k of a room's metadata describes wall k: its id, length, type,
  // coordinates, the room's area, whether it is free and which side of the
  // room's bounding box it lies on.
  lemma RoomInfosAt(room: Room, all: Plan, counter: nat, k: nat)
    requires k < |room.walls|
    ensures var e := RoomInfos(room, all, counter)[k];
      var w := room.walls[k];
      e.id == counter + k && e.coords == w && e.wallType == DetermineWallType(w) &&
      e.length == AxisLength(w) && e.roomArea == RoomArea(room.walls) &&
      (e.isFree <==> WallFree(w, room.name, all)) &&
      e.direction == GetDirection(w, MinX(room.walls), MaxX(room.walls), MinY(room.walls), MaxY(room.walls))
  {
    BlockedIffNotFree(room.walls[k], room.name, all);
  }

  lemma {:induction false} ParallelIdsAreSameTypeIds(walls: seq<Wall>, infos: seq<WallInfo>, counter: nat, t: WallType)
    requires |infos| == |walls|
    requires forall k :: 0 <= k < |walls| ==> infos[k].id == counter + k && infos[k].wallType == DetermineWallType(walls[k])
    ensures ParallelIds(walls, counter, t) == SameTypeIds(infos, t)
    decreases |walls|
  {
    if |walls| > 0 {
      var n := |walls| - 1;
      ParallelIdsAreSameTypeIds(walls[..n], infos[..n], counter, t);
    }
  }

  // parallel_walls of every wall is exactly the ids of the walls of the same
  // type in its own room, in order.
  lemma ParallelWallsExact(room: Room, all: Plan, counter: nat, k: nat)
    requires k < |room.walls| && DetermineWallType(room.walls[k]) != Diagonal
    ensures var infos := RoomInfos(room, all, counter);
      infos[k].parallel == SameTypeIds(infos, infos[k].wallType)
  {
    var infos := RoomInfos(room, all, counter);
    ParallelIdsAreSameTypeIds(room.walls, infos, counter, infos[k].wallType);
  }

  function IdsOf(infos: seq<WallInfo>): (ids: seq<nat>)
    ensures |ids| == |infos|
  {
    if |infos| == 0 then [] else [infos[0].id] + IdsOf(infos[1..])
  }

  // The wall ids of a metadata dictionary, room after room.
  function AllIds(md: Metadata): seq<nat> {
    if |md| == 0 then [] else IdsOf(md[0].walls) + AllIds(md[1..])
  }

  function Range(start: nat, n: nat): (r: seq<nat>)
    ensures |r| == n && forall k :: 0 <= k < n ==> r[k] == start + k
  {
    seq(n, k requires 0 <= k < n => start + k)
  }

  lemma {:induction false} IdsAreRange(infos: seq<WallInfo>, start: nat)
    requires forall k :: 0 <= k < |infos| ==> infos[k].id == start + k
    ensures IdsOf(infos) == Range(start, |infos|)
    decreases |infos|
  {
    if |infos| > 0 {
      IdsAreRange(infos[1..], start + 1);
    }
  }

  // A room's walls are numbered counter, counter + 1, ...
  lemma RoomIds(room: Room, all: Plan, counter: nat)
    ensures IdsOf(RoomInfos(room, all, counter)) == Range(counter, |room.walls|)
  {
    IdsAreRange(RoomInfos(room, all, counter), counter);
  }

  lemma {:induction false} RangeSplit(start: nat, n: nat, m: nat)
    ensures Range(start, n + m) == Range(start, n) + Range(start + n, m)
  {
  }

  // When every room's entries carry the ids counter, counter + 1, ..., the
  // ids are consecutive across rooms in order.
  lemma {:induction false} BuildIdsConsecutive(rooms: Plan, counter: nat, entries: (Room, nat) -> seq<WallInfo>)
    requires forall r: Room, c: nat :: IdsOf(entries(r, c)) == Range(c, |r.walls|)
    ensures AllIds(Build(rooms, counter, entries)) == Range(counter, TotalWalls(rooms))
    decreases |rooms|
  {
    if |rooms| > 0 {
      var n := |rooms[0].walls|;
      BuildIdsConsecutive(rooms[1..], counter + n, entries);
      var rest := Build(rooms[1..], counter + n, entries);
      RangeSplit(counter, n, TotalWalls(rooms[1..]));
      if n > 0 {
        var m := RoomMeta(rooms[0].name, entries(rooms[0], counter));
        assert Build(rooms, counter, entries) == [m] + rest;
        assert ([m] + rest)[1..] == rest;
      } else {
        assert Build(rooms, counter, entries) == rest;
      }
    }
  }

  // The ids in make_roomdata's result are exactly 1 .. N for N walls in all.
  lemma MetadataIds(p: Plan)
    requires Rectilinear(p)
    ensures AllIds(MakeRoomDataSpec(p).value) == Range(1, TotalWalls(p))
  {
    forall r: Room, c: nat ensures IdsOf(EntriesOf(p)(r, c)) == Range(c, |r.walls|) {
      RoomIds(r, p, c);
    }
    BuildIdsConsecutive(p, 1, EntriesOf(p));
  }

  // The number of walls of the rooms before room i.
  function WallsBefore(rooms: Plan, i: nat): nat
    requires i <= |rooms|
  {
    if i == 0 then 0 else |rooms[0].walls| + WallsBefore(rooms[1..], i - 1)
  }

  // Each room of make_roomdata's result describes a room of the plan.
  lemma MetaOfRoom(p: Plan, m: nat) returns (i: nat)
    requires Rectilinear(p) && m < |MakeRoomDataSpec(p).value|
    ensures i < |p| && MakeRoomDataSpec(p).value[m] == RoomMeta(p[i].name, RoomInfos(p[i], p, 1 + WallsBefore(p, i)))
  {
    var md := Build(p, 1, EntriesOf(p));
    assert MakeRoomDataSpec(p) == Ok(md);
    i := BuildEntryOf(p, 1, EntriesOf(p), m);
    EntriesOfIs(p, p[i], 1 + WallsBefore(p, i));
  }

  lemma BuildEntryOf(rooms: Plan, counter: nat, entries: (Room, nat) -> seq<WallInfo>, m: nat) returns (i: nat)
    requires m < |Build(rooms, counter, entries)|
    ensures i < |rooms| && Build(rooms, counter, entries)[m] == RoomMeta(rooms[i].name, entries(rooms[i], counter + WallsBefore(rooms, i)))
  {
    BuildDescribesRooms(rooms, counter, entries, m);
    i :| 0 <= i < |rooms| && |rooms[i].walls| > 0 &&
      Build(rooms, counter, entries)[m] == RoomMeta(rooms[i].name, entries(rooms[i], counter + WallsBefore(rooms, i)));
  }

  lemma EntriesOfIs(all: Plan, room: Room, counter: nat)
    ensures EntriesOf(all)(room, counter) == RoomInfos(room, all, counter)
  {
  }

  // Every entry of the result is the entry list of a room of the plan that
  // has walls, under that room's name and numbered from where the rooms
  // before it stopped.
  lemma {:induction false} BuildDescribesRooms(rooms: Plan, counter: nat, entries: (Room, nat) -> seq<WallInfo>, m: nat)
    requires m < |Build(rooms, counter, entries)|
    ensures exists i :: (0 <= i < |rooms| && |rooms[i].walls| > 0 &&
      Build(rooms, counter, entries)[m] == RoomMeta(rooms[i].name, entries(rooms[i], counter + WallsBefore(rooms, i))))
    decreases |rooms|
  {
    BuildFront(rooms, counter, entries, m);
    var n := |rooms[0].walls|;
    if n > 0 && m == 0 {
      assert WallsBefore(rooms, 0) == 0;
    } else {
      var skip := if n == 0 then 0 else 1;
      BuildDescribesRooms(rooms[1..], counter + n, entries, m - skip);
      LaterRoom(rooms, counter, entries, m);
    }
  }

  // The entry at m is the first room's, or one of the rest's.
  lemma BuildFront(rooms: Plan, counter: nat, entries: (Room, nat) -> seq<WallInfo>, m: nat)
    requires m < |Build(rooms, counter, entries)|
    ensures |rooms| > 0
    ensures var n := |rooms[0].walls|;
      var skip := if n == 0 then 0 else 1;
      var rest := Build(rooms[1..], counter + n, entries);
      (n > 0 && m == 0 ==> Build(rooms, counter, entries)[m] == RoomMeta(rooms[0].name, entries(rooms[0], counter))) &&
      (n == 0 || m > 0 ==> m - skip < |rest| && Build(rooms, counter, entries)[m] == rest[m - skip])
  {
  }

  // An entry of the rest is the entry of room i + 1 of the whole, numbered
  // after the first room's walls.
  lemma LaterRoom(rooms: Plan, counter: nat, entries: (Room, nat) -> seq<WallInfo>, m: nat)
    requires 0 < |rooms|
    requires var n := |rooms[0].walls|;
      var skip := if n == 0 then 0 else 1;
      var rest := Build(rooms[1..], counter + n, entries);
      m < |Build(rooms, counter, entries)| && m - skip >= 0 && m - skip < |rest| &&
      Build(rooms, counter, entries)[m] == rest[m - skip] &&
      exists i :: (0 <= i < |rooms[1..]| && |rooms[1..][i].walls| > 0 &&
        rest[m - skip] == RoomMeta(rooms[1..][i].name, entries(rooms[1..][i], counter + n + WallsBefore(rooms[1..], i))))
    ensures exists i :: (0 <= i < |rooms| && |rooms[i].walls| > 0 &&
      Build(rooms, counter, entries)[m] == RoomMeta(rooms[i].name, entries(rooms[i], counter + WallsBefore(rooms, i))))
  {
    var n := |rooms[0].walls|;
    var skip := if n == 0 then 0 else 1;
    var rest := Build(rooms[1..], counter + n, entries);
    var i :| 0 <= i < |rooms[1..]| && |rooms[1..][i].walls| > 0 &&
      rest[m - skip] == RoomMeta(rooms[1..][i].name, entries(rooms[1..][i], counter + n + WallsBefore(rooms[1..], i)));
    assert rooms[1..][i] == rooms[i + 1];
    assert WallsBefore(rooms, i + 1) == n + WallsBefore(rooms[1..], i);
  }

  // Conversely every room with walls has its entry.
  lemma {:induction false} BuildCoversRooms(rooms: Plan, counter: nat, entries: (Room, nat) -> seq<WallInfo>, i: nat)
    requires i < |rooms| && |rooms[i].walls| > 0
    ensures exists m :: (0 <= m < |Build(rooms, counter, entries)| &&
      Build(rooms, counter, entries)[m] == RoomMeta(rooms[i].name, entries(rooms[i], counter + WallsBefore(rooms, i))))
    decreases |rooms|
  {
    var n := |rooms[0].walls|;
    var rest := Build(rooms[1..], counter + n, entries);
    var head := if n == 0 then [] else [RoomMeta(rooms[0].name, entries(rooms[0], counter))];
    assert Build(rooms, counter, entries) == head + rest;
    if i == 0 {
      assert Build(rooms, counter, entries)[0] == RoomMeta(rooms[0].name, entries(rooms[0], counter));
    } else {
      BuildCoversRooms(rooms[1..], counter + n, entries, i - 1);
      var m :| 0 <= m < |rest| &&
        rest[m] == RoomMeta(rooms[1..][i - 1].name, entries(rooms[1..][i - 1], counter + n + WallsBefore(rooms[1..], i - 1)));
      assert Build(rooms, counter, entries)[|head| + m] == rest[m];
    }
  }

  // --- calculate_total_area ---

  // The room_area of the first wall entry of each room, summed.
  function TotalArea(md: Metadata): int {
    if |md| == 0 then 0
    else (if |md[0].walls| == 0 then 0 else md[0].walls[0].roomArea) + TotalArea(md[1..])
  }

  method CalculateTotalArea(md: Metadata) returns (total: int)
    ensures total == TotalArea(md)
  {
    total := 0;
    var i := 0;
    while i < |md|
      invariant 0 <= i <= |md|
      invariant total + TotalArea(md[i..]) == TotalArea(md)
    {
      assert md[i..][1..] == md[i + 1..];
      if |md[i].walls| > 0 {
        // only the first wall's entry is counted
        total := total + md[i].walls[0].roomArea;
      }
      i := i + 1;
    }
  }

  // The sum of the shoelace areas of all rooms of a plan.
  function PlanArea(p: Plan): (a: int)
    ensures a >= 0
  {
    if |p| == 0 then 0 else RoomArea(p[0].walls) + PlanArea(p[1..])
  }

  lemma {:induction false} TotalAreaIsPlanArea(rooms: Plan, counter: nat, entries: (Room, nat) -> seq<WallInfo>)
    requires forall r: Room, c: nat :: |r.walls| > 0 ==> |entries(r, c)| > 0 && entries(r, c)[0].roomArea == RoomArea(r.walls)
    ensures TotalArea(Build(rooms, counter, entries)) == PlanArea(rooms)
    decreases |rooms|
  {
    if |rooms| > 0 {
      var n := |rooms[0].walls|;
      var rest := Build(rooms[1..], counter + n, entries);
      TotalAreaIsPlanArea(rooms[1..], counter + n, entries);
      if n > 0 {
        var e0 := RoomMeta(rooms[0].name, entries(rooms[0], counter));
        assert Build(rooms, counter, entries) == [e0] + rest;
        assert ([e0] + rest)[1..] == rest;
      } else {
        assert Build(rooms, counter, entries) == rest;
        assert rooms[0].walls == [];
      }
    }
  }

  // calculate_total_area of make_roomdata's result is the plan's area.
  lemma MetadataArea(p: Plan)
    requires Rectilinear(p)
    ensures TotalArea(MakeRoomDataSpec(p).value) == PlanArea(p)
  {
    forall r: Room, c: nat | |r.walls| > 0
      ensures |EntriesOf(p)(r, c)| > 0 && EntriesOf(p)(r, c)[0].roomArea == RoomArea(r.walls)
    {
      RoomInfosAt(r, p, c, 0);
    }
    TotalAreaIsPlanArea(p, 1, EntriesOf(p));
  }

  // --- is_direction_free (the last of its three definitions) ---

  function FindMeta(md: Metadata, name: string): (r: Option<nat>)
    ensures r.Some? ==> r.value < |md| && md[r.value].name == name
    ensures r.None? <==> forall m :: 0 <= m < |md| ==> md[m].name != name
  {
    if |md| == 0 then None
    else if md[0].name == name then Some(0)
    else match FindMeta(md[1..], name)
      case None => None
      case Some(k) => Some(k + 1)
  }

  // False as soon as a wall facing the direction is not free; KeyError when
  // the room has no metadata.
  method IsDirectionFree(md: Metadata, room: string, d: Direction) returns (r: Result<bool>)
    ensures r.Err? <==> FindMeta(md, room).None?
    ensures r.Ok? ==> var walls := md[FindMeta(md, room).value].walls;
      (r.value <==> forall k :: 0 <= k < |walls| && walls[k].direction == d ==> walls[k].isFree)
  {
    var m := FindMeta(md, room);
    if m.None? {
      return Err(KeyError(room));
    }
    var walls := md[m.value].walls;
    var k := 0;
    while k < |walls|
      invariant 0 <= k <= |walls|
      invariant forall k' :: 0 <= k' < k && walls[k'].direction == d ==> walls[k'].isFree
    {
      if walls[k].direction == d && !walls[k].isFree {
        return Ok(false);
      }
      k := k + 1;
    }
    return Ok(true);
  }
}
