// The resize operations of backend_project/src/adjust_dimension.py:
// adjust_coordinates_by_direction, update_adjacent_walls with
// is_connected_to_other_room, calculate_dimensions_from_metadata,
// update_wall_length_by_dimension2 and 3, update_shifts_based_on_wall_availability,
// stichFloorplan and validate_room_dimensions, and the constraint tables.
module Resize {
  import opened Wrappers
  import opened Geometry
  import opened FloorPlan
  import opened RoomData
  import opened Shift

  // --- adjust_coordinates_by_direction ---

  predicate OnYAxis(key: string) { key == "North" || key == "South" }

  // North and East move the endpoint with the greater axis value up by delta,
  // every other key the endpoint with the lesser axis value down by delta;
  // on a tie the start point moves.  A key other than North and South works
  // on the x axis.
  function Axis(p: Point, key: string): int { if OnYAxis(key) then p.y else p.x }

  function SetAxis(p: Point, key: string, v: int): Point {
    if OnYAxis(key) then Point(p.x, v) else Point(v, p.y)
  }

  function AdjustEnds(w: Wall, key: string, delta: int): Wall {
    var s := Axis(w.start, key);
    var e := Axis(w.end, key);
    if key == "North" || key == "East" then
      if s < e then Wall(w.start, SetAxis(w.end, key, e + delta))
      else Wall(SetAxis(w.start, key, s + delta), w.end)
    else
      if s > e then Wall(w.start, SetAxis(w.end, key, e - delta))
      else Wall(SetAxis(w.start, key, s - delta), w.end)
  }

  function AxisMin(w: Wall, key: string): int { Min(Axis(w.start, key), Axis(w.end, key)) }
  function AxisMax(w: Wall, key: string): int { Max(Axis(w.start, key), Axis(w.end, key)) }

  // Only the axis coordinate changes.  For North and East the far end of the
  // wall moves out by delta and the near end stays; for South and West the
  // near end moves back by delta and the far end stays (as long as the wall
  // does not pass through itself); a wall along the axis grows by delta.
  lemma AdjustEndsMoves(w: Wall, key: string, delta: int)
    requires AxisMax(w, key) - AxisMin(w, key) + delta >= 0
    ensures var r := AdjustEnds(w, key, delta);
      (OnYAxis(key) ==> r.start.x == w.start.x && r.end.x == w.end.x) &&
      (!OnYAxis(key) ==> r.start.y == w.start.y && r.end.y == w.end.y) &&
      (key == "North" || key == "East" ==>
        AxisMax(r, key) == AxisMax(w, key) + delta && AxisMin(r, key) == AxisMin(w, key)) &&
      (key != "North" && key != "East" ==>
        AxisMin(r, key) == AxisMin(w, key) - delta && AxisMax(r, key) == AxisMax(w, key))
  {
  }

  lemma AdjustEndsGrows(w: Wall, key: string, delta: int)
    requires AxisMax(w, key) - AxisMin(w, key) + delta >= 0
    requires OnYAxis(key) ==> w.start.x == w.end.x
    requires !OnYAxis(key) ==> w.start.y == w.end.y
    ensures AxisLength(AdjustEnds(w, key, delta)) == AxisLength(w) + delta
  {
    AdjustEndsMoves(w, key, delta);
  }

  // --- update_adjacent_walls and is_connected_to_other_room ---

  // The wall, either way round, is a wall of some other room.
  predicate ConnectedElsewhere(c: Wall, md: Metadata, room: string) {
    exists m, k :: 0 <= m < |md| && md[m].name != room && 0 <= k < |md[m].walls| &&
      (md[m].walls[k].coords == c || md[m].walls[k].coords == Reversed(c))
  }

  predicate Touches(c: Wall, os: Point, oe: Point) {
    c.start == os || c.start == oe || c.end == os || c.end == oe
  }

  // Only the first endpoint that matches, compared in the order start = old
  // start, start = old end, end = old start, end = old end, is replaced.
  function Reconnect(c: Wall, os: Point, oe: Point, ns: Point, ne: Point): Wall {
    if c.start == os then Wall(ns, c.end)
    else if c.start == oe then Wall(ne, c.end)
    else if c.end == os then Wall(c.start, ns)
    else if c.end == oe then Wall(c.start, ne)
    else c
  }

  // Whether wall e of the room is rewired after wall id moved from
  // (os, oe): another wall, sharing an old endpoint, not also a wall of
  // another room.
  predicate Rewired(e: WallInfo, md: Metadata, room: string, id: nat, os: Point, oe: Point) {
    e.id != id && Touches(e.coords, os, oe) && !ConnectedElsewhere(e.coords, md, room)
  }

  function RewireWall(e: WallInfo, os: Point, oe: Point, ns: Point, ne: Point): WallInfo {
    var c := Reconnect(e.coords, os, oe, ns, ne);
    e.(coords := c, length := AxisLength(c))
  }

  // Every other wall is checked against the metadata as it was when the loop
  // started: the loop only rewrites walls of this room, and the test only
  // looks at other rooms and at the wall's own, not yet rewritten, points.
  function UpdateAdjacent(md: Metadata, i: nat, id: nat, os: Point, oe: Point, ns: Point, ne: Point): (r: Metadata)
    requires i < |md|
    ensures |r| == |md|
  {
    var ws := md[i].walls;
    md[i := RoomMeta(md[i].name, seq(|ws|, k requires 0 <= k < |ws| =>
      if Rewired(ws[k], md, md[i].name, id, os, oe) then RewireWall(ws[k], os, oe, ns, ne) else ws[k]))]
  }

  // Two metadata that agree everywhere except on the coordinates and
  // lengths of the walls of room i.
  function Skeleton(e: WallInfo): WallInfo {
    e.(coords := Wall(Point(0, 0), Point(0, 0)), length := 0)
  }

  predicate SameShape(a: Metadata, b: Metadata, i: nat) {
    |a| == |b| && i < |a| &&
    (forall m :: 0 <= m < |a| && m != i ==> a[m] == b[m]) &&
    a[i].name == b[i].name && |a[i].walls| == |b[i].walls| &&
    (forall k :: 0 <= k < |a[i].walls| ==> Skeleton(a[i].walls[k]) == Skeleton(b[i].walls[k]))
  }

  lemma {:induction false} FindMetaNames(a: Metadata, b: Metadata, name: string)
    requires |a| == |b| && forall m :: 0 <= m < |a| ==> a[m].name == b[m].name
    ensures FindMeta(a, name) == FindMeta(b, name)
    decreases |a|
  {
    if |a| > 0 {
      FindMetaNames(a[1..], b[1..], name);
    }
  }

  lemma FindMetaShape(a: Metadata, b: Metadata, i: nat, name: string)
    requires SameShape(a, b, i)
    ensures FindMeta(a, name) == FindMeta(b, name)
  {
    FindMetaNames(a, b, name);
  }

  lemma SameShapeTrans(a: Metadata, b: Metadata, c: Metadata, i: nat)
    requires SameShape(a, b, i) && SameShape(b, c, i)
    ensures SameShape(a, c, i)
  {
  }

  // update_adjacent_walls changes only the coordinates and lengths of the
  // room's own walls, and of those only the walls it rewires: each keeps one
  // endpoint and has its first matching old endpoint moved to the matching
  // new one.
  lemma UpdateAdjacentMeaning(md: Metadata, i: nat, id: nat, os: Point, oe: Point, ns: Point, ne: Point, k: nat)
    requires i < |md| && k < |md[i].walls|
    ensures SameShape(md, UpdateAdjacent(md, i, id, os, oe, ns, ne), i)
    ensures var e := md[i].walls[k];
      var n := UpdateAdjacent(md, i, id, os, oe, ns, ne)[i].walls[k];
      (!Rewired(e, md, md[i].name, id, os, oe) ==> n == e) &&
      (Rewired(e, md, md[i].name, id, os, oe) ==>
        n.length == AxisLength(n.coords) &&
        (e.coords.start == os ==> n.coords == Wall(ns, e.coords.end)) &&
        (e.coords.start != os && e.coords.start == oe ==> n.coords == Wall(ne, e.coords.end)) &&
        (e.coords.start != os && e.coords.start != oe ==> (n.coords.start == e.coords.start &&
          n.coords.end == (if e.coords.end == os then ns else ne))))
  {
  }

  // is_connected_to_other_room looks only at rooms of other names, so it
  // answers alike before and after a change to room i.
  lemma ConnectedElsewhereOthers(a: Metadata, b: Metadata, i: nat, c: Wall, room: string)
    requires |a| == |b| && i < |a| && a[i].name == room && b[i].name == room
    requires forall m :: 0 <= m < |a| && m != i ==> a[m] == b[m]
    ensures ConnectedElsewhere(c, a, room) == ConnectedElsewhere(c, b, room)
  {
    if ConnectedElsewhere(c, a, room) {
      var m, k :| 0 <= m < |a| && a[m].name != room && 0 <= k < |a[m].walls| &&
        (a[m].walls[k].coords == c || a[m].walls[k].coords == Reversed(c));
      assert b[m] == a[m];
    }
    if ConnectedElsewhere(c, b, room) {
      var m, k :| 0 <= m < |b| && b[m].name != room && 0 <= k < |b[m].walls| &&
        (b[m].walls[k].coords == c || b[m].walls[k].coords == Reversed(c));
      assert b[m] == a[m];
    }
  }

  // --- calculate_dimensions_from_metadata ---

  function CoordsOf(ws: seq<WallInfo>): (r: seq<Wall>)
    ensures |r| == |ws|
  {
    seq(|ws|, k requires 0 <= k < |ws| => ws[k].coords)
  }

  // (width, height) of the box around every endpoint, (0, 0) with no walls.
  function Dimensions(ws: seq<WallInfo>): (int, int) {
    var c := CoordsOf(ws);
    if |c| == 0 then (0, 0) else (MaxX(c) - MinX(c), MaxY(c) - MinY(c))
  }

  // The extents are not negative, and for a non-empty room every endpoint
  // lies in a box of exactly that size, whose sides some endpoints reach.
  lemma DimensionsMeaning(ws: seq<WallInfo>)
    ensures Dimensions(ws).0 >= 0 && Dimensions(ws).1 >= 0
    ensures |ws| == 0 ==> Dimensions(ws) == (0, 0)
    ensures |ws| > 0 ==> var c := CoordsOf(ws);
      (forall k :: 0 <= k < |ws| ==>
        MinX(c) <= WallMinX(ws[k].coords) && WallMaxX(ws[k].coords) <= MinX(c) + Dimensions(ws).0 &&
        MinY(c) <= WallMinY(ws[k].coords) && WallMaxY(ws[k].coords) <= MinY(c) + Dimensions(ws).1) &&
      (exists k :: 0 <= k < |ws| && WallMaxX(ws[k].coords) == MinX(c) + Dimensions(ws).0) &&
      (exists k :: 0 <= k < |ws| && WallMaxY(ws[k].coords) == MinY(c) + Dimensions(ws).1)
  {
    var c := CoordsOf(ws);
    if |c| > 0 {
      BoxContainsWalls(c);
      BoxIsAttained(c);
      assert WallMinX(c[0]) <= WallMaxX(c[0]) && WallMinY(c[0]) <= WallMaxY(c[0]);
      assert forall k :: 0 <= k < |ws| ==> c[k] == ws[k].coords;
    }
  }

  // The dimensions of a room that may be missing (metadata.get(room, {})).
  function RoomDimensions(md: Metadata, room: string): (int, int) {
    match FindMeta(md, room)
    case None => (0, 0)
    case Some(i) => Dimensions(md[i].walls)
  }

  // --- the constraint tables (hundredths) ---

  datatype Bounds = Bounds(minWidth: Option<int>, maxWidth: Option<int>, minHeight: Option<int>, maxHeight: Option<int>)
  type Constraints = map<string, Bounds>

  function Min2(v: int): Bounds { Bounds(Some(v), None, Some(v), None) }

  const RoomConstraints: Constraints := map[
    "Master Bedroom" := Min2(689), "Kitchen" := Min2(591), "Living Room" := Min2(689),
    "Bedroom" := Min2(689), "Foyer" := Min2(330), "Dining Room" := Min2(500),
    "En suite Washroom" := Min2(330), "Common Washroom" := Min2(330), "Passage" := Min2(330),
    "Bathroom" := Min2(330), "Washroom" := Min2(330)]

  // The washroom maxima that gate update_wall_length_by_dimension2.
  const WashroomConstraints: Constraints := map[
    "En suite Washroom" := Bounds(Some(330), Some(800), Some(330), Some(800)),
    "Common Washroom" := Bounds(Some(330), Some(800), Some(330), Some(800)),
    "Bathroom" := Bounds(Some(330), Some(800), Some(330), Some(500)),
    "Washroom" := Bounds(Some(330), Some(800), Some(330), Some(500))]

  const PassageConstraints: Constraints := map[
    "Passage" := Bounds(Some(400), Some(700), Some(400), Some(700)),
    "MB Passage" := Bounds(Some(400), None, Some(400), None)]

  // --- update_wall_length_by_dimension2 and 3 ---

  datatype State = State(md: Metadata, updated: set<nat>)

  // A wall entry whose recorded length is that of its coordinates.
  predicate Consistent(e: WallInfo) { e.length == AxisLength(e.coords) }

  predicate RoomConsistent(md: Metadata, i: nat)
    requires i < |md|
  {
    forall j :: 0 <= j < |md[i].walls| ==> Consistent(md[i].walls[j])
  }

  // Wall ids are the keys of a dictionary, so distinct.
  predicate DistinctIds(ws: seq<WallInfo>) {
    forall j, k :: 0 <= j < k < |ws| ==> ws[j].id != ws[k].id
  }

  function TypeFor(key: string): WallType { if OnYAxis(key) then Vertical else Horizontal }

  predicate Picks(e: WallInfo, wn: nat) { e.id == wn || wn in e.parallel }

  // One turn of the inner loop: wall k of room i, for wall number wn.
  function Step(s: State, i: nat, key: string, delta: int, wn: nat, k: nat): (r: State)
    requires i < |s.md| && k < |s.md[i].walls|
    ensures SameShape(s.md, r.md, i)
  {
    var ws := s.md[i].walls;
    var e := ws[k];
    if Picks(e, wn) && e.id !in s.updated then
      var c := AdjustEnds(e.coords, key, delta);
      var md1 := s.md[i := RoomMeta(s.md[i].name, ws[k := e.(coords := c, length := AxisLength(c))])];
      var md2 := UpdateAdjacent(md1, i, e.id, e.coords.start, e.coords.end, c.start, c.end);
      assert SameShape(s.md, md1, i);
      UpdateAdjacentMeaning(md1, i, e.id, e.coords.start, e.coords.end, c.start, c.end, k);
      State(md2, s.updated + {e.id})
    else s
  }

  // What one turn does: a picked wall not yet updated is adjusted by delta
  // toward the direction (adjust_coordinates_by_direction), its length
  // recomputed and its id recorded, and the other walls of the room that
  // share one of its old endpoints are rewired onto the new ones; any other
  // turn changes nothing.
  lemma StepMeaning(s: State, i: nat, key: string, delta: int, wn: nat, k: nat)
    requires i < |s.md| && k < |s.md[i].walls|
    ensures var ws := s.md[i].walls;
      var e := ws[k];
      var r := Step(s, i, key, delta, wn, k);
      (!Picks(e, wn) || e.id in s.updated ==> r == s) &&
      (Picks(e, wn) && e.id !in s.updated ==>
        var c := AdjustEnds(e.coords, key, delta);
        r.updated == s.updated + {e.id} &&
        r.md[i].walls[k] == e.(coords := c, length := AxisLength(c)) &&
        forall j :: 0 <= j < |ws| && j != k ==>
          r.md[i].walls[j] ==
            if Rewired(ws[j], s.md, s.md[i].name, e.id, e.coords.start, e.coords.end)
            then RewireWall(ws[j], e.coords.start, e.coords.end, c.start, c.end)
            else ws[j])
  {
    var ws := s.md[i].walls;
    var e := ws[k];
    if Picks(e, wn) && e.id !in s.updated {
      var c := AdjustEnds(e.coords, key, delta);
      var md1 := s.md[i := RoomMeta(s.md[i].name, ws[k := e.(coords := c, length := AxisLength(c))])];
      forall j | 0 <= j < |ws| && j != k
        ensures Rewired(md1[i].walls[j], md1, md1[i].name, e.id, e.coords.start, e.coords.end) ==
                Rewired(ws[j], s.md, s.md[i].name, e.id, e.coords.start, e.coords.end)
      {
        ConnectedElsewhereOthers(md1, s.md, i, ws[j].coords, s.md[i].name);
      }
    }
  }

  // A picked wall along the direction's axis grows by exactly delta.
  lemma StepGrows(s: State, i: nat, key: string, delta: int, wn: nat, k: nat)
    requires i < |s.md| && k < |s.md[i].walls|
    requires var e := s.md[i].walls[k];
      Picks(e, wn) && e.id !in s.updated &&
      AxisMax(e.coords, key) - AxisMin(e.coords, key) + delta >= 0 &&
      (OnYAxis(key) ==> e.coords.start.x == e.coords.end.x) &&
      (!OnYAxis(key) ==> e.coords.start.y == e.coords.end.y)
    ensures Step(s, i, key, delta, wn, k).md[i].walls[k].length == AxisLength(s.md[i].walls[k].coords) + delta
  {
    StepMeaning(s, i, key, delta, wn, k);
    AdjustEndsGrows(s.md[i].walls[k].coords, key, delta);
  }

  // Every turn leaves the lengths recorded for the room's walls those of
  // their coordinates, when they were before.
  lemma StepConsistent(s: State, i: nat, key: string, delta: int, wn: nat, k: nat)
    requires i < |s.md| && k < |s.md[i].walls| && RoomConsistent(s.md, i)
    ensures RoomConsistent(Step(s, i, key, delta, wn, k).md, i)
  {
    StepMeaning(s, i, key, delta, wn, k);
  }

  // The inner loop over the first n walls of the room.
  function Row(s: State, i: nat, key: string, delta: int, wn: nat, n: nat): (r: State)
    requires i < |s.md| && n <= |s.md[i].walls|
    ensures SameShape(s.md, r.md, i)
  {
    if n == 0 then s
    else
      var mid := Row(s, i, key, delta, wn, n - 1);
      var r := Step(mid, i, key, delta, wn, n - 1);
      SameShapeTrans(s.md, mid.md, r.md, i);
      r
  }

  // The outer loop over the wall numbers.
  function Rows(s: State, i: nat, key: string, delta: int, wns: seq<nat>): (r: State)
    requires i < |s.md|
    ensures SameShape(s.md, r.md, i)
  {
    if |wns| == 0 then s
    else
      var mid := Rows(s, i, key, delta, wns[..|wns| - 1]);
      var r := Row(mid, i, key, delta, wns[|wns| - 1], |mid.md[i].walls|);
      SameShapeTrans(s.md, mid.md, r.md, i);
      r
  }

  lemma {:induction false} RowConsistent(s: State, i: nat, key: string, delta: int, wn: nat, n: nat)
    requires i < |s.md| && n <= |s.md[i].walls| && RoomConsistent(s.md, i)
    ensures RoomConsistent(Row(s, i, key, delta, wn, n).md, i)
  {
    if n > 0 {
      RowConsistent(s, i, key, delta, wn, n - 1);
      RowStepConsistent(s, i, key, delta, wn, n);
    }
  }

  lemma RowStepConsistent(s: State, i: nat, key: string, delta: int, wn: nat, n: nat)
    requires i < |s.md| && 0 < n <= |s.md[i].walls|
    requires RoomConsistent(Row(s, i, key, delta, wn, n - 1).md, i)
    ensures RoomConsistent(Row(s, i, key, delta, wn, n).md, i)
  {
    StepConsistent(Row(s, i, key, delta, wn, n - 1), i, key, delta, wn, n - 1);
  }

  lemma {:induction false} RowsConsistent(s: State, i: nat, key: string, delta: int, wns: seq<nat>)
    requires i < |s.md| && RoomConsistent(s.md, i)
    ensures RoomConsistent(Rows(s, i, key, delta, wns).md, i)
  {
    if |wns| > 0 {
      RowsConsistent(s, i, key, delta, wns[..|wns| - 1]);
      var mid := Rows(s, i, key, delta, wns[..|wns| - 1]);
      RowConsistent(mid, i, key, delta, wns[|wns| - 1], |mid.md[i].walls|);
    }
  }

  // update_wall_length_by_dimension3: the walls of the direction's type and
  // the walls parallel to them, each once unless already updated;
  // metadata[room] fails for a missing room.
  function Dimension3(md: Metadata, room: string, key: string, delta: int, updated: set<nat>): Result<State> {
    match FindMeta(md, room)
    case None => Err(KeyError(room))
    case Some(i) => Ok(Rows(State(md, updated), i, key, delta, SameTypeIds(md[i].walls, TypeFor(key))))
  }

  // Whether update_wall_length_by_dimension2 refuses: a washroom whose
  // dimension along the direction would pass its maximum.
  predicate Exceeds(md: Metadata, room: string, key: string, delta: int) {
    room in WashroomConstraints &&
    var (w, h) := RoomDimensions(md, room);
    var b := WashroomConstraints[room];
    (OnYAxis(key) && b.maxHeight.Some? && h + Abs(delta) > b.maxHeight.value) ||
    ((key == "East" || key == "West") && b.maxWidth.Some? && w + Abs(delta) > b.maxWidth.value)
  }

  function Dimension2(md: Metadata, room: string, key: string, delta: int, updated: set<nat>): Result<State> {
    if Exceeds(md, room, key, delta) then Ok(State(md, updated))
    else Dimension3(md, room, key, delta, updated)
  }

  // --- properties of the two resize procedures ---

  // The walls the outer and inner loops select.
  function Chosen(ws: seq<WallInfo>, wns: seq<nat>): set<nat> {
    set k, j | 0 <= k < |ws| && 0 <= j < |wns| && Picks(ws[k], wns[j]) :: ws[k].id
  }

  function RowChosen(ws: seq<WallInfo>, wn: nat, n: nat): set<nat> {
    set k | 0 <= k < n && k < |ws| && Picks(ws[k], wn) :: ws[k].id
  }

  lemma SkeletonPicks(a: WallInfo, b: WallInfo, wn: nat)
    requires Skeleton(a) == Skeleton(b)
    ensures a.id == b.id && Picks(a, wn) == Picks(b, wn)
  {
    assert a.id == Skeleton(a).id && b.id == Skeleton(b).id;
    assert a.parallel == Skeleton(a).parallel && b.parallel == Skeleton(b).parallel;
  }

  lemma StepUpdated(s: State, i: nat, key: string, delta: int, wn: nat, k: nat)
    requires i < |s.md| && k < |s.md[i].walls|
    ensures Step(s, i, key, delta, wn, k).updated ==
      s.updated + (if Picks(s.md[i].walls[k], wn) then {s.md[i].walls[k].id} else {})
  {
  }

  lemma {:induction false} RowUpdated(s: State, i: nat, key: string, delta: int, wn: nat, n: nat)
    requires i < |s.md| && n <= |s.md[i].walls|
    ensures Row(s, i, key, delta, wn, n).updated == s.updated + RowChosen(s.md[i].walls, wn, n)
  {
    if n > 0 {
      RowUpdated(s, i, key, delta, wn, n - 1);
      RowStepAdds(s, i, key, delta, wn, n);
      RowChosenSnoc(s.md[i].walls, wn, n);
      var w := s.md[i].walls[n - 1];
      UnionStep(s.updated, RowChosen(s.md[i].walls, wn, n - 1), if Picks(w, wn) then {w.id} else {},
                Row(s, i, key, delta, wn, n - 1).updated, Row(s, i, key, delta, wn, n).updated);
    }
  }

  // The n-th step of a row adds the id of the n-th wall when it picks it;
  // the earlier steps leave its id and type alone.
  lemma RowStepAdds(s: State, i: nat, key: string, delta: int, wn: nat, n: nat)
    requires i < |s.md| && 0 < n <= |s.md[i].walls|
    ensures var w := s.md[i].walls[n - 1];
      Row(s, i, key, delta, wn, n).updated == Row(s, i, key, delta, wn, n - 1).updated + (if Picks(w, wn) then {w.id} else {})
  {
    var mid := Row(s, i, key, delta, wn, n - 1);
    StepUpdated(mid, i, key, delta, wn, n - 1);
    SkeletonPicks(s.md[i].walls[n - 1], mid.md[i].walls[n - 1], wn);
  }

  lemma UnionStep(a: set<nat>, b: set<nat>, c: set<nat>, m: set<nat>, r: set<nat>)
    requires m == a + b && r == m + c
    ensures r == a + (b + c)
  {
  }

  lemma RowChosenSnoc(ws: seq<WallInfo>, wn: nat, n: nat)
    requires 0 < n <= |ws|
    ensures RowChosen(ws, wn, n) == RowChosen(ws, wn, n - 1) + (if Picks(ws[n - 1], wn) then {ws[n - 1].id} else {})
  {
  }

  lemma ChosenSnoc(ws: seq<WallInfo>, wns: seq<nat>)
    requires |wns| > 0
    ensures Chosen(ws, wns) == Chosen(ws, wns[..|wns| - 1]) + RowChosen(ws, wns[|wns| - 1], |ws|)
  {
    var init := wns[..|wns| - 1];
    forall id | id in Chosen(ws, wns) ensures id in Chosen(ws, init) + RowChosen(ws, wns[|wns| - 1], |ws|) {
      var k, j :| 0 <= k < |ws| && 0 <= j < |wns| && Picks(ws[k], wns[j]) && id == ws[k].id;
      if j < |init| {
        assert init[j] == wns[j];
      }
    }
    forall id | id in Chosen(ws, init) ensures id in Chosen(ws, wns) {
      var k, j :| 0 <= k < |ws| && 0 <= j < |init| && Picks(ws[k], init[j]) && id == ws[k].id;
      assert wns[j] == init[j];
    }
  }

  lemma ChosenShape(a: seq<WallInfo>, b: seq<WallInfo>, wns: seq<nat>, wn: nat, n: nat)
    requires |a| == |b| && n <= |a|
    requires forall k :: 0 <= k < |a| ==> Skeleton(a[k]) == Skeleton(b[k])
    ensures Chosen(a, wns) == Chosen(b, wns)
    ensures RowChosen(a, wn, n) == RowChosen(b, wn, n)
  {
    forall k, j | 0 <= k < |a| ensures a[k].id == b[k].id && Picks(a[k], j) == Picks(b[k], j) {
      SkeletonPicks(a[k], b[k], j);
    }
  }

  // The set of updated walls grows by exactly the selected walls.
  lemma {:induction false} RowsUpdated(s: State, i: nat, key: string, delta: int, wns: seq<nat>)
    requires i < |s.md|
    ensures Rows(s, i, key, delta, wns).updated == s.updated + Chosen(s.md[i].walls, wns)
  {
    if |wns| > 0 {
      var init := wns[..|wns| - 1];
      var wn := wns[|wns| - 1];
      RowsUpdated(s, i, key, delta, init);
      var mid := Rows(s, i, key, delta, init);
      RowUpdated(mid, i, key, delta, wn, |mid.md[i].walls|);
      ChosenShape(s.md[i].walls, mid.md[i].walls, wns, wn, |s.md[i].walls|);
      ChosenSnoc(s.md[i].walls, wns);
    }
  }

  // A turn whose wall is already updated changes nothing; so a pass whose
  // selected walls are all updated changes nothing at all.
  lemma {:induction false} RowUnchanged(s: State, i: nat, key: string, delta: int, wn: nat, n: nat)
    requires i < |s.md| && n <= |s.md[i].walls|
    requires forall k :: 0 <= k < n && Picks(s.md[i].walls[k], wn) ==> s.md[i].walls[k].id in s.updated
    ensures Row(s, i, key, delta, wn, n) == s
  {
    if n > 0 {
      RowUnchanged(s, i, key, delta, wn, n - 1);
    }
  }

  lemma {:induction false} RowsUnchanged(s: State, i: nat, key: string, delta: int, wns: seq<nat>)
    requires i < |s.md|
    requires Chosen(s.md[i].walls, wns) <= s.updated
    ensures Rows(s, i, key, delta, wns) == s
  {
    if |wns| > 0 {
      var init := wns[..|wns| - 1];
      var wn := wns[|wns| - 1];
      ChosenSnoc(s.md[i].walls, wns);
      RowsUnchanged(s, i, key, delta, init);
      var ws := s.md[i].walls;
      forall k | 0 <= k < |ws| && Picks(ws[k], wn) ensures ws[k].id in s.updated {
        assert ws[k].id in RowChosen(ws, wn, |ws|);
      }
      RowUnchanged(s, i, key, delta, wn, |ws|);
    }
  }

  // update_wall_length_by_dimension3 touches nothing outside the room and
  // only coordinates and lengths inside it; it adds exactly the selected
  // walls to the updated set; called again with the set it returned, for the
  // same room and a direction of the same axis, it changes nothing: each wall
  // is adjusted at most once per updated set.
  lemma Dimension3Meaning(md: Metadata, room: string, key: string, delta: int, updated: set<nat>)
    requires FindMeta(md, room).Some?
    ensures var i := FindMeta(md, room).value;
      var r := Dimension3(md, room, key, delta, updated);
      r.Ok? && SameShape(md, r.value.md, i) &&
      r.value.updated == updated + Chosen(md[i].walls, SameTypeIds(md[i].walls, TypeFor(key)))
  {
    var i := FindMeta(md, room).value;
    RowsUpdated(State(md, updated), i, key, delta, SameTypeIds(md[i].walls, TypeFor(key)));
  }

  // update_wall_length_by_dimension3 keeps the room's recorded lengths those
  // of its walls' coordinates.
  lemma Dimension3Consistent(md: Metadata, room: string, key: string, delta: int, updated: set<nat>)
    requires FindMeta(md, room).Some? && RoomConsistent(md, FindMeta(md, room).value)
    ensures var i := FindMeta(md, room).value;
      var r := Dimension3(md, room, key, delta, updated);
      r.Ok? && RoomConsistent(r.value.md, i)
  {
    var i := FindMeta(md, room).value;
    RowsConsistent(State(md, updated), i, key, delta, SameTypeIds(md[i].walls, TypeFor(key)));
  }

  lemma SameTypeIdsShape(a: seq<WallInfo>, b: seq<WallInfo>, t: WallType)
    requires |a| == |b|
    requires forall k :: 0 <= k < |a| ==> Skeleton(a[k]) == Skeleton(b[k])
    ensures SameTypeIds(a, t) == SameTypeIds(b, t)
    decreases |a|
  {
    if |a| > 0 {
      var n := |a| - 1;
      assert Skeleton(a[n]).wallType == a[n].wallType && Skeleton(b[n]).wallType == b[n].wallType;
      assert Skeleton(a[n]).id == a[n].id && Skeleton(b[n]).id == b[n].id;
      SameTypeIdsShape(a[..n], b[..n], t);
    }
  }

  lemma Dimension3Once(md: Metadata, room: string, key: string, key2: string, delta: int, delta2: int, updated: set<nat>)
    requires FindMeta(md, room).Some?
    requires OnYAxis(key) == OnYAxis(key2)
    ensures var r := Dimension3(md, room, key, delta, updated);
      r.Ok? && Dimension3(r.value.md, room, key2, delta2, r.value.updated) == r
  {
    var i := FindMeta(md, room).value;
    var wns := SameTypeIds(md[i].walls, TypeFor(key));
    var r := Rows(State(md, updated), i, key, delta, wns);
    RowsUpdated(State(md, updated), i, key, delta, wns);
    FindMetaShape(md, r.md, i, room);
    SameTypeIdsShape(md[i].walls, r.md[i].walls, TypeFor(key));
    ChosenShape(md[i].walls, r.md[i].walls, wns, 0, 0);
    RowsUnchanged(r, i, key2, delta2, wns);
  }

  // update_wall_length_by_dimension2 leaves a washroom alone when the
  // dimension along the direction plus |delta| passes the room's maximum.
  lemma Dimension2Gate(md: Metadata, room: string, key: string, delta: int, updated: set<nat>)
    requires room in WashroomConstraints
    requires OnYAxis(key) ==> RoomDimensions(md, room).1 + Abs(delta) > WashroomConstraints[room].maxHeight.value
    requires key == "East" || key == "West" || OnYAxis(key)
    requires key == "East" || key == "West" ==>
      RoomDimensions(md, room).0 + Abs(delta) > WashroomConstraints[room].maxWidth.value
    ensures Dimension2(md, room, key, delta, updated) == Ok(State(md, updated))
  {
  }

  // Without the gate it is update_wall_length_by_dimension3.
  lemma Dimension2Otherwise(md: Metadata, room: string, key: string, delta: int, updated: set<nat>)
    requires room !in WashroomConstraints || !Exceeds(md, room, key, delta)
    ensures Dimension2(md, room, key, delta, updated) == Dimension3(md, room, key, delta, updated)
  {
  }

  // --- is_direction_free, opposite_direction and the stitching strategy ---

  function DirectionName(d: Direction): string {
    match d
    case North => "North"
    case South => "South"
    case East => "East"
    case West => "West"
    case Unknown => "Unknown"
  }

  // No wall of the room facing the direction is blocked; metadata[room]
  // fails for a missing room.
  function DirectionFree(md: Metadata, room: string, key: string): (r: Result<bool>)
    ensures r.Err? <==> FindMeta(md, room).None?
  {
    match FindMeta(md, room)
    case None => Err(KeyError(room))
    case Some(i) =>
      var ws := md[i].walls;
      Ok(forall k :: 0 <= k < |ws| && DirectionName(ws[k].direction) == key ==> ws[k].isFree)
  }

  // The dictionary lookup of opposite_direction.
  function OppositeKey(key: string): (r: Result<string>)
    ensures r.Err? <==> key !in {"North", "South", "East", "West"}
  {
    if key == "North" then Ok("South")
    else if key == "South" then Ok("North")
    else if key == "East" then Ok("West")
    else if key == "West" then Ok("East")
    else Err(KeyError(key))
  }

  datatype Strategy = ShrinkShifted | GrowUnshifted | GrowShiftedOpposite(opposite: string) | NoStrategy

  function ChooseStrategy(md: Metadata, unshifted: string, shifted: string, key: string, overlap: bool): Result<Strategy> {
    if overlap then Ok(ShrinkShifted)
    else match DirectionFree(md, unshifted, key)
      case Err(e) => Err(e)
      case Ok(true) => Ok(GrowUnshifted)
      case Ok(false) =>
        match OppositeKey(key)
        case Err(e) => Err(e)
        case Ok(opp) =>
          match DirectionFree(md, shifted, opp)
          case Err(e) => Err(e)
          case Ok(true) => Ok(GrowShiftedOpposite(opp))
          case Ok(false) => Ok(NoStrategy)
  }

  // update_shifts_based_on_wall_availability.
  function UpdateShifts(s: State, unshifted: string, shifted: string, key: string, length: int, overlap: bool): Result<State> {
    match ChooseStrategy(s.md, unshifted, shifted, key, overlap)
    case Err(e) => Err(e)
    case Ok(strategy) => RunResize(s, strategy, unshifted, shifted, key, length)
  }

  // The resize a strategy runs.
  function RunResize(s: State, strategy: Strategy, unshifted: string, shifted: string, key: string, length: int): Result<State> {
    match strategy
    case ShrinkShifted => Dimension3(s.md, shifted, key, -length, s.updated)
    case GrowUnshifted => Dimension2(s.md, unshifted, key, length, s.updated)
    case GrowShiftedOpposite(opp) => Dimension2(s.md, shifted, opp, length, s.updated)
    case NoStrategy => Ok(s)
  }

  // The walls of a room facing a direction are all free.
  predicate FreeToward(md: Metadata, i: nat, key: string)
    requires i < |md|
  {
    forall k :: 0 <= k < |md[i].walls| && DirectionName(md[i].walls[k].direction) == key ==> md[i].walls[k].isFree
  }

  // The strategy order: with the overlap flag shrink the shifted room; else
  // grow the unshifted room toward the direction if that side is free; else
  // grow the shifted room the opposite way if that side is free; else
  // nothing.
  lemma StrategyOrder(md: Metadata, unshifted: string, shifted: string, key: string, overlap: bool)
    ensures overlap ==> ChooseStrategy(md, unshifted, shifted, key, overlap) == Ok(ShrinkShifted)
    ensures !overlap && FindMeta(md, unshifted).Some? ==>
      (ChooseStrategy(md, unshifted, shifted, key, overlap) == Ok(GrowUnshifted) <==>
        FreeToward(md, FindMeta(md, unshifted).value, key))
    ensures (!overlap && FindMeta(md, unshifted).Some? && !FreeToward(md, FindMeta(md, unshifted).value, key) &&
      OppositeKey(key).Ok? && FindMeta(md, shifted).Some?) ==>
      ChooseStrategy(md, unshifted, shifted, key, overlap) ==
        if FreeToward(md, FindMeta(md, shifted).value, OppositeKey(key).value)
        then Ok(GrowShiftedOpposite(OppositeKey(key).value)) else Ok(NoStrategy)
    ensures !overlap && FindMeta(md, unshifted).None? ==>
      ChooseStrategy(md, unshifted, shifted, key, overlap) == Err(KeyError(unshifted))
  {
  }

  lemma SameShapeOthers(a: Metadata, b: Metadata, i: nat, name: string, m: nat)
    requires SameShape(a, b, i) && a[i].name == name && m < |a| && a[m].name != name
    ensures b[m] == a[m]
  {
  }

  lemma Dimension3Frame(md: Metadata, room: string, key: string, delta: int, updated: set<nat>, m: nat)
    requires m < |md| && md[m].name != room
    requires Dimension3(md, room, key, delta, updated).Ok?
    ensures Dimension3(md, room, key, delta, updated).value.md[m] == md[m]
    ensures |Dimension3(md, room, key, delta, updated).value.md| == |md|
  {
    var i := FindMeta(md, room).value;
    SameShapeOthers(md, Dimension3(md, room, key, delta, updated).value.md, i, room, m);
  }

  // One stitching step changes only the two rooms of the pair.
  lemma UpdateShiftsFrame(s: State, unshifted: string, shifted: string, key: string, length: int, overlap: bool, m: nat)
    requires m < |s.md| && s.md[m].name != unshifted && s.md[m].name != shifted
    requires UpdateShifts(s, unshifted, shifted, key, length, overlap).Ok?
    ensures |UpdateShifts(s, unshifted, shifted, key, length, overlap).value.md| == |s.md|
    ensures UpdateShifts(s, unshifted, shifted, key, length, overlap).value.md[m] == s.md[m]
  {
    match ChooseStrategy(s.md, unshifted, shifted, key, overlap)
    case Ok(ShrinkShifted) => Dimension3Frame(s.md, shifted, key, -length, s.updated, m);
    case Ok(GrowUnshifted) =>
      if !Exceeds(s.md, unshifted, key, length) {
        Dimension3Frame(s.md, unshifted, key, length, s.updated, m);
      }
    case Ok(GrowShiftedOpposite(opp)) =>
      if !Exceeds(s.md, shifted, opp, length) {
        Dimension3Frame(s.md, shifted, opp, length, s.updated, m);
      }
    case Ok(NoStrategy) =>
  }

  // --- stichFloorplan ---

  datatype ShiftDetail = ShiftDetail(direction: string, length: int)
  // One entry of the shift analysis: the unshifted room and, per room of the
  // pair, its shift or nothing (an empty entry).
  datatype ShiftEntry = ShiftEntry(unshifted: string, shifted: seq<(string, Option<ShiftDetail>)>)
  datatype Task = Task(unshifted: string, shifted: string, direction: string, length: int)

  function EntryTasks(e: ShiftEntry): seq<Task>
    decreases |e.shifted|
  {
    if |e.shifted| == 0 then []
    else
      var init := ShiftEntry(e.unshifted, e.shifted[..|e.shifted| - 1]);
      var (room, d) := e.shifted[|e.shifted| - 1];
      EntryTasks(init) + (if d.Some? then [Task(e.unshifted, room, d.value.direction, d.value.length)] else [])
  }

  function Tasks(entries: seq<ShiftEntry>): seq<Task> {
    if |entries| == 0 then [] else Tasks(entries[..|entries| - 1]) + EntryTasks(entries[|entries| - 1])
  }

  function RunTasks(s: State, tasks: seq<Task>, overlap: bool): Result<State> {
    if |tasks| == 0 then Ok(s)
    else match RunTasks(s, tasks[..|tasks| - 1], overlap)
      case Err(e) => Err(e)
      case Ok(mid) =>
        var t := tasks[|tasks| - 1];
        UpdateShifts(mid, t.unshifted, t.shifted, t.direction, t.length, overlap)
  }

  // The rooms and their wall coordinates, read back from the metadata.
  function PlanOf(md: Metadata): (p: Plan)
    ensures |p| == |md|
  {
    seq(|md|, m requires 0 <= m < |md| => Room(md[m].name, CoordsOf(md[m].walls)))
  }

  // One set of updated walls is shared by the whole stitch.
  function Stitch(md: Metadata, entries: seq<ShiftEntry>, overlap: bool): Result<Metadata> {
    match RunTasks(State(md, {}), Tasks(entries), overlap)
    case Err(e) => Err(e)
    case Ok(s) => Ok(s.md)
  }

  predicate Named(tasks: seq<Task>, name: string) {
    exists j :: 0 <= j < |tasks| && (tasks[j].unshifted == name || tasks[j].shifted == name)
  }

  lemma {:induction false} RunTasksFrame(s: State, tasks: seq<Task>, overlap: bool, m: nat)
    requires m < |s.md| && !Named(tasks, s.md[m].name)
    requires RunTasks(s, tasks, overlap).Ok?
    ensures |RunTasks(s, tasks, overlap).value.md| == |s.md|
    ensures RunTasks(s, tasks, overlap).value.md[m] == s.md[m]
  {
    if |tasks| > 0 {
      var init := tasks[..|tasks| - 1];
      var t := tasks[|tasks| - 1];
      assert !Named(init, s.md[m].name) by {
        forall j | 0 <= j < |init| ensures init[j].unshifted != s.md[m].name && init[j].shifted != s.md[m].name {
          assert init[j] == tasks[j];
        }
      }
      RunTasksFrame(s, init, overlap, m);
      var mid := RunTasks(s, init, overlap).value;
      UpdateShiftsFrame(mid, t.unshifted, t.shifted, t.direction, t.length, overlap, m);
    }
  }

  // stichFloorplan leaves every room that no pair of the analysis names
  // exactly as it was; with no shifts at all it changes nothing.
  lemma StitchFrame(md: Metadata, entries: seq<ShiftEntry>, overlap: bool, m: nat)
    requires m < |md| && !Named(Tasks(entries), md[m].name)
    requires Stitch(md, entries, overlap).Ok?
    ensures |Stitch(md, entries, overlap).value| == |md|
    ensures Stitch(md, entries, overlap).value[m] == md[m]
  {
    RunTasksFrame(State(md, {}), Tasks(entries), overlap, m);
  }

  lemma StitchNothing(md: Metadata, entries: seq<ShiftEntry>, overlap: bool)
    requires Tasks(entries) == []
    ensures Stitch(md, entries, overlap) == Ok(md)
  {
  }

  // --- validate_room_dimensions ---

  datatype Dim = Width | Height
  datatype Violation = Violation(room: string, dim: Dim, value: int)

  const NoBounds := Bounds(None, None, None, None)

  function BoundsOf(cs: Constraints, room: string): Bounds {
    if room in cs then cs[room] else NoBounds
  }

  // min defaults to 0, max to infinity.
  predicate Within(v: int, lo: Option<int>, hi: Option<int>) {
    (if lo.Some? then lo.value else 0) <= v && (hi.None? || v <= hi.value)
  }

  function Measure(r: RoomMeta, dim: Dim): int {
    if dim == Width then Dimensions(r.walls).0 else Dimensions(r.walls).1
  }

  predicate OutOfBounds(r: RoomMeta, cs: Constraints, dim: Dim) {
    var b := BoundsOf(cs, r.name);
    if dim == Width then !Within(Measure(r, dim), b.minWidth, b.maxWidth)
    else !Within(Measure(r, dim), b.minHeight, b.maxHeight)
  }

  function RoomViolations(r: RoomMeta, cs: Constraints): seq<Violation> {
    (if OutOfBounds(r, cs, Width) then [Violation(r.name, Width, Measure(r, Width))] else []) +
    (if OutOfBounds(r, cs, Height) then [Violation(r.name, Height, Measure(r, Height))] else [])
  }

  function Violations(md: Metadata, cs: Constraints): seq<Violation> {
    if |md| == 0 then [] else Violations(md[..|md| - 1], cs) + RoomViolations(md[|md| - 1], cs)
  }

  // The room reports that violation.
  predicate Reports(r: RoomMeta, cs: Constraints, v: Violation) {
    r.name == v.room && OutOfBounds(r, cs, v.dim) && Measure(r, v.dim) == v.value
  }

  lemma RoomViolationsIff(r: RoomMeta, cs: Constraints, v: Violation)
    ensures v in RoomViolations(r, cs) <==> Reports(r, cs, v)
  {
  }

  // A message is reported exactly for each room and dimension out of bounds,
  // with the room's measured value.
  lemma {:induction false} ViolationsIff(md: Metadata, cs: Constraints, v: Violation)
    ensures v in Violations(md, cs) <==> exists m :: 0 <= m < |md| && Reports(md[m], cs, v)
  {
    if |md| > 0 {
      var init := md[..|md| - 1];
      ViolationsIff(init, cs, v);
      RoomViolationsIff(md[|md| - 1], cs, v);
      ReportsSplit(md, init, cs, v);
    }
  }

  // Some room reports v: one of the rooms before the last, or the last.
  lemma ReportsSplit(md: Metadata, init: Metadata, cs: Constraints, v: Violation)
    requires |md| > 0 && init == md[..|md| - 1]
    ensures (exists m :: 0 <= m < |md| && Reports(md[m], cs, v)) <==>
      (exists m :: 0 <= m < |init| && Reports(init[m], cs, v)) || Reports(md[|md| - 1], cs, v)
  {
    if exists m :: 0 <= m < |md| && Reports(md[m], cs, v) {
      var m :| 0 <= m < |md| && Reports(md[m], cs, v);
      if m < |init| {
        assert init[m] == md[m];
      }
    }
    if exists m :: 0 <= m < |init| && Reports(init[m], cs, v) {
      var m :| 0 <= m < |init| && Reports(init[m], cs, v);
      assert md[m] == init[m];
    }
  }

  // A room without constraints is never reported.
  lemma UnconstrainedNeverReported(md: Metadata, cs: Constraints, v: Violation)
    requires v.room !in cs
    ensures v !in Violations(md, cs)
  {
    ViolationsIff(md, cs, v);
    forall m | 0 <= m < |md| && md[m].name == v.room ensures !Reports(md[m], cs, v) {
      DimensionsMeaning(md[m].walls);
    }
  }
}
