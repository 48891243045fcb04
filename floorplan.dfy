// A floor plan: room names, in the order the Python dictionary holds them,
// each with its ordered list of wall segments.
module FloorPlan {
  import opened Wrappers
  import opened Geometry

  datatype Room = Room(name: string, walls: seq<Wall>)
  type Plan = seq<Room>

  predicate DistinctNames(p: Plan) {
    forall i, j :: 0 <= i < j < |p| ==> p[i].name != p[j].name
  }

  predicate HasRoom(p: Plan, name: string) {
    exists i :: 0 <= i < |p| && p[i].name == name
  }

  // Position of a room name in the plan, the dictionary lookup.
  function IndexOf(p: Plan, name: string): (r: Option<nat>)
    ensures r.None? <==> !HasRoom(p, name)
    ensures r.Some? ==> r.value < |p| && p[r.value].name == name
    ensures r.Some? ==> forall k :: 0 <= k < r.value ==> p[k].name != name
  {
    if |p| == 0 then None
    else if p[0].name == name then Some(0)
    else match IndexOf(p[1..], name)
      case None => None
      case Some(k) => Some(k + 1)
  }

  // rooms[name] = walls: overwrite in place when the name is present,
  // otherwise insert at the end (dictionary insertion order).
  function SetRoom(p: Plan, name: string, walls: seq<Wall>): (r: Plan)
    ensures HasRoom(p, name) ==> |r| == |p|
    ensures !HasRoom(p, name) ==> r == p + [Room(name, walls)]
    ensures forall k :: 0 <= k < |p| && p[k].name != name ==> r[k] == p[k]
    ensures forall k :: 0 <= k < |p| ==> r[k].name == p[k].name
    ensures HasRoom(p, name) ==> r[IndexOf(p, name).value] == Room(name, walls)
  {
    match IndexOf(p, name)
    case None => p + [Room(name, walls)]
    case Some(i) => p[i := Room(name, walls)]
  }

  // The lookup only looks at the names up to the one found.
  lemma IndexOfByNames(p: Plan, q: Plan, name: string, i: nat)
    requires IndexOf(p, name) == Some(i) && i < |q|
    requires forall k :: 0 <= k <= i ==> q[k].name == p[k].name
    ensures IndexOf(q, name) == Some(i)
  {
    assert q[i].name == name;
    assert HasRoom(q, name);
    var r := IndexOf(q, name);
    var j := r.value;
    assert j <= i;
    assert q[j].name == p[j].name;
    assert j == i;
    assert r == Some(j);
  }

  lemma SetRoomKeepsDistinct(p: Plan, name: string, walls: seq<Wall>)
    requires DistinctNames(p)
    ensures DistinctNames(SetRoom(p, name, walls))
  {
    var r := SetRoom(p, name, walls);
    if !HasRoom(p, name) {
      forall i, j | 0 <= i < j < |r| ensures r[i].name != r[j].name {
        if j == |p| {
          assert r[j].name == name;
          assert r[i] == p[i];
        }
      }
    }
  }

  // The coordinates of all points of a list of walls, in order.
  function Points(walls: seq<Wall>): (pts: seq<Point>)
    ensures |pts| == 2 * |walls|
  {
    if |walls| == 0 then [] else [walls[0].start, walls[0].end] + Points(walls[1..])
  }

  // min/max of the coordinates of a non-empty list of walls: the bounding box.
  function MinX(walls: seq<Wall>): int
    requires |walls| > 0
  {
    if |walls| == 1 then WallMinX(walls[0])
    else
      var rest := MinX(walls[1..]);
      Min(WallMinX(walls[0]), rest)
  }

  function MaxX(walls: seq<Wall>): int
    requires |walls| > 0
  {
    if |walls| == 1 then WallMaxX(walls[0])
    else
      var rest := MaxX(walls[1..]);
      Max(WallMaxX(walls[0]), rest)
  }

  function MinY(walls: seq<Wall>): int
    requires |walls| > 0
  {
    if |walls| == 1 then WallMinY(walls[0])
    else
      var rest := MinY(walls[1..]);
      Min(WallMinY(walls[0]), rest)
  }

  function MaxY(walls: seq<Wall>): int
    requires |walls| > 0
  {
    if |walls| == 1 then WallMaxY(walls[0])
    else
      var rest := MaxY(walls[1..]);
      Max(WallMaxY(walls[0]), rest)
  }

  // Every wall of every room is axis-aligned.
  predicate RoomRectilinear(r: Room) {
    forall j :: 0 <= j < |r.walls| ==> DetermineWallType(r.walls[j]) != Diagonal
  }

  predicate Rectilinear(p: Plan) {
    forall i :: 0 <= i < |p| ==> RoomRectilinear(p[i])
  }

  function TotalWalls(p: Plan): nat
  {
    if |p| == 0 then 0 else |p[0].walls| + TotalWalls(p[1..])
  }

  // An axis-aligned rectangle as the engine writes it: four walls starting at
  // the top-left corner and running clockwise (right, down, left, up).
  function RectangleWalls(topLeft: Point, length: int, width: int): (walls: seq<Wall>)
    ensures |walls| == 4
    ensures forall k :: 0 <= k < 3 ==> walls[k].end == walls[k + 1].start
    ensures walls[3].end == walls[0].start == topLeft
  {
    var tl := topLeft;
    var tr := Point(tl.x + length, tl.y);
    var br := Point(tl.x + length, tl.y - width);
    var bl := Point(tl.x, tl.y - width);
    [Wall(tl, tr), Wall(tr, br), Wall(br, bl), Wall(bl, tl)]
  }

  // Every wall lies inside the bounding box.
  lemma {:induction false} BoxContainsWalls(walls: seq<Wall>)
    requires |walls| > 0
    ensures forall k :: 0 <= k < |walls| ==>
      MinX(walls) <= WallMinX(walls[k]) && WallMaxX(walls[k]) <= MaxX(walls) &&
      MinY(walls) <= WallMinY(walls[k]) && WallMaxY(walls[k]) <= MaxY(walls)
    decreases |walls|
  {
    if |walls| > 1 {
      BoxContainsWalls(walls[1..]);
      forall k | 1 <= k < |walls|
        ensures MinX(walls) <= WallMinX(walls[k]) && WallMaxX(walls[k]) <= MaxX(walls) &&
          MinY(walls) <= WallMinY(walls[k]) && WallMaxY(walls[k]) <= MaxY(walls)
      {
        assert walls[k] == walls[1..][k - 1];
      }
    }
  }

  // Each side of the bounding box is reached by some wall.
  lemma {:induction false} BoxIsAttained(walls: seq<Wall>)
    requires |walls| > 0
    ensures exists k :: 0 <= k < |walls| && MinX(walls) == WallMinX(walls[k])
    ensures exists k :: 0 <= k < |walls| && MaxX(walls) == WallMaxX(walls[k])
    ensures exists k :: 0 <= k < |walls| && MinY(walls) == WallMinY(walls[k])
    ensures exists k :: 0 <= k < |walls| && MaxY(walls) == WallMaxY(walls[k])
    decreases |walls|
  {
    if |walls| == 1 {
      assert MinX(walls) == WallMinX(walls[0]) && MaxX(walls) == WallMaxX(walls[0]);
      assert MinY(walls) == WallMinY(walls[0]) && MaxY(walls) == WallMaxY(walls[0]);
    } else {
      var rest := walls[1..];
      BoxIsAttained(rest);
      var a :| 0 <= a < |rest| && MinX(rest) == WallMinX(rest[a]);
      var b :| 0 <= b < |rest| && MaxX(rest) == WallMaxX(rest[b]);
      var c :| 0 <= c < |rest| && MinY(rest) == WallMinY(rest[c]);
      var d :| 0 <= d < |rest| && MaxY(rest) == WallMaxY(rest[d]);
      assert MinX(walls) == WallMinX(walls[if MinX(walls) == WallMinX(walls[0]) then 0 else a + 1]);
      assert MaxX(walls) == WallMaxX(walls[if MaxX(walls) == WallMaxX(walls[0]) then 0 else b + 1]);
      assert MinY(walls) == WallMinY(walls[if MinY(walls) == WallMinY(walls[0]) then 0 else c + 1]);
      assert MaxY(walls) == WallMaxY(walls[if MaxY(walls) == WallMaxY(walls[0]) then 0 else d + 1]);
    }
  }

  // The bounding box is pinned down by bounds that are attained.
  lemma BoxIs(walls: seq<Wall>, b: (int, int, int, int), i: nat, j: nat, k: nat, l: nat)
    requires i < |walls| && j < |walls| && k < |walls| && l < |walls|
    requires WallMinX(walls[i]) == b.0 && WallMaxX(walls[j]) == b.1
    requires WallMinY(walls[k]) == b.2 && WallMaxY(walls[l]) == b.3
    requires forall m :: 0 <= m < |walls| ==>
      b.0 <= WallMinX(walls[m]) && WallMaxX(walls[m]) <= b.1 &&
      b.2 <= WallMinY(walls[m]) && WallMaxY(walls[m]) <= b.3
    ensures MinX(walls) == b.0 && MaxX(walls) == b.1 && MinY(walls) == b.2 && MaxY(walls) == b.3
  {
    BoxContainsWalls(walls);
    BoxIsAttained(walls);
  }

  // The rectangle spans [x, x + length] by [y - width, y] for top-left (x, y).
  lemma RectangleExtent(topLeft: Point, length: nat, width: nat)
    ensures var w := RectangleWalls(topLeft, length, width);
      MinX(w) == topLeft.x && MaxX(w) == topLeft.x + length &&
      MinY(w) == topLeft.y - width && MaxY(w) == topLeft.y
  {
    var w := RectangleWalls(topLeft, length, width);
    BoxIs(w, (topLeft.x, topLeft.x + length, topLeft.y - width, topLeft.y), 0, 0, 1, 0);
  }
}
