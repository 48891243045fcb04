// shift_room: every wall of a room is translated by delta along the axis of
// the direction and its length is recomputed.  Three variants decide which
// rooms move: backend_project/src/new_room_maain.py (the room itself unless
// it is the main room), backend_project/src/adjust_dimension.py (a table of
// related rooms) and backend_project/src/test_area.py (a table guarded by
// which rooms exist).  Directions are the strings the engine passes around;
// a string other than the four sides moves nothing.
module Shift {
  import opened Wrappers
  import opened Geometry
  import opened RoomData

  // Room names of the metadata are dictionary keys: pairwise distinct.
  predicate UniqueNames(md: Metadata) {
    forall i, j :: 0 <= i < j < |md| ==> md[i].name != md[j].name
  }

  predicate HasMeta(md: Metadata, name: string) {
    FindMeta(md, name).Some?
  }

  lemma FindMetaUnique(md: Metadata, m: nat)
    requires UniqueNames(md) && m < |md|
    ensures FindMeta(md, md[m].name) == Some(m)
  {
  }

  function Translate(p: Point, key: string, delta: int): (q: Point)
    ensures key == "North" ==> q == Point(p.x, p.y + delta)
    ensures key == "South" ==> q == Point(p.x, p.y - delta)
    ensures key == "East" ==> q == Point(p.x + delta, p.y)
    ensures key == "West" ==> q == Point(p.x - delta, p.y)
    ensures key !in {"North", "South", "East", "West"} ==> q == p
  {
    if key == "North" then Point(p.x, p.y + delta)
    else if key == "South" then Point(p.x, p.y - delta)
    else if key == "East" then Point(p.x + delta, p.y)
    else if key == "West" then Point(p.x - delta, p.y)
    else p
  }

  // One wall entry after the shift: both endpoints translated, the length
  // recomputed from the new coordinates, every other field kept.
  function MoveWall(e: WallInfo, key: string, delta: int): WallInfo {
    var c := Wall(Translate(e.coords.start, key, delta), Translate(e.coords.end, key, delta));
    e.(coords := c, length := AxisLength(c))
  }

  function MoveWalls(ws: seq<WallInfo>, key: string, delta: int): (r: seq<WallInfo>)
    ensures |r| == |ws|
  {
    seq(|ws|, k requires 0 <= k < |ws| => MoveWall(ws[k], key, delta))
  }

  // The loop over the walls of one room, when the room is in the metadata.
  function MoveRoom(md: Metadata, name: string, key: string, delta: int): (r: Metadata)
    ensures |r| == |md|
  {
    match FindMeta(md, name)
    case None => md
    case Some(i) => md[i := RoomMeta(md[i].name, MoveWalls(md[i].walls, key, delta))]
  }

  // One shift_room call after another, each moving one room.
  function MoveRooms(md: Metadata, names: seq<string>, key: string, delta: int): (r: Metadata)
    ensures |r| == |md|
  {
    if |names| == 0 then md
    else MoveRoom(MoveRooms(md, names[..|names| - 1], key, delta), names[|names| - 1], key, delta)
  }

  // A room moved c times by delta: translated once by c * delta, or left
  // exactly as it was (lengths included) when it is never moved.
  function MovedBy(r: RoomMeta, key: string, delta: int, c: nat): RoomMeta {
    if c == 0 then r else RoomMeta(r.name, MoveWalls(r.walls, key, c * delta))
  }

  // --- the related-room tables ---

  // new_room_maain.py: the room alone, and nothing when it is the main room.
  function RelatedToMain(room: string, main: string): (r: seq<string>)
    ensures room == main ==> r == []
    ensures room != main ==> r == [room]
  {
    if room == main then [] else [room]
  }

  // adjust_dimension.py: the first test (main room 'En suite Washroom') is
  // always overwritten by the if/else that follows it.
  function RelatedRooms(room: string, main: string): (r: seq<string>)
    ensures main == "MB Passage" ==> r == ["Master Bedroom", "En suite Washroom"]
    ensures main != "MB Passage" && room == "Master Bedroom" ==>
      r == ["Master Bedroom", "MB Passage", "En suite Washroom"]
    ensures main != "MB Passage" && room != "Master Bedroom" ==> r == [room]
  {
    if main == "MB Passage" then ["Master Bedroom", "En suite Washroom"]
    else if room == "Master Bedroom" then ["Master Bedroom", "MB Passage", "En suite Washroom"]
    else [room]
  }

  function ShiftRoomMain(md: Metadata, room: string, key: string, delta: int, main: string): Metadata {
    MoveRooms(md, RelatedToMain(room, main), key, delta)
  }

  function ShiftRoomSpec(md: Metadata, room: string, key: string, delta: int, main: string): Metadata {
    MoveRooms(md, RelatedRooms(room, main), key, delta)
  }

  // test_area.py as written: the third test reads
  // room == 'Master Bedroom' and 'En suite Washroom' and 'MB Passage' in metadata,
  // where the middle operand is a non-empty string, always true.
  function RelatedTestAreaAsWritten(room: string, main: string, md: Metadata): seq<string> {
    if main == "En suite Washroom" then ["Master Bedroom", "MB Passage"]
    else if main == "MB Passage" then ["Master Bedroom", "En suite Washroom"]
    else if room == "Master Bedroom" && HasMeta(md, "MB Passage") then
      ["Master Bedroom", "MB Passage", "En suite Washroom"]
    else if room == "Master Bedroom" && HasMeta(md, "En suite Washroom") then
      ["Master Bedroom", "En suite Washroom"]
    else if room == "Master Bedroom" && HasMeta(md, "MB Passage") then
      ["Master Bedroom", "MB Passage"]
    else [room]
  }

  // The same table with the membership test the third branch evidently
  // means: both companion rooms present.
  function RelatedTestArea(room: string, main: string, md: Metadata): seq<string> {
    if main == "En suite Washroom" then ["Master Bedroom", "MB Passage"]
    else if main == "MB Passage" then ["Master Bedroom", "En suite Washroom"]
    else if room == "Master Bedroom" && HasMeta(md, "En suite Washroom") && HasMeta(md, "MB Passage") then
      ["Master Bedroom", "MB Passage", "En suite Washroom"]
    else if room == "Master Bedroom" && HasMeta(md, "En suite Washroom") then
      ["Master Bedroom", "En suite Washroom"]
    else if room == "Master Bedroom" && HasMeta(md, "MB Passage") then
      ["Master Bedroom", "MB Passage"]
    else [room]
  }

  // The first listed room that has no metadata, the key metadata[...] fails on.
  function FirstMissing(md: Metadata, names: seq<string>): (r: Option<string>)
    ensures r.None? <==> forall k :: 0 <= k < |names| ==> HasMeta(md, names[k])
    ensures r.Some? ==> r.value in names && !HasMeta(md, r.value)
  {
    if |names| == 0 then None
    else if !HasMeta(md, names[0]) then Some(names[0])
    else FirstMissing(md, names[1..])
  }

  // test_area.py's shift_room indexes metadata[related_room] without a
  // guard.  Moving a room changes no room name, so every lookup sees the key
  // set it started with and the call fails exactly on the first missing room.
  function ShiftTestAreaWith(md: Metadata, related: seq<string>, key: string, delta: int): Result<Metadata> {
    match FirstMissing(md, related)
    case Some(x) => Err(KeyError(x))
    case None => Ok(MoveRooms(md, related, key, delta))
  }

  // With the corrected table and a main room other than the companions, the
  // call fails exactly when the room itself has no metadata.
  function ShiftTestArea(md: Metadata, room: string, key: string, delta: int, main: string): (r: Result<Metadata>)
    ensures main != "En suite Washroom" && main != "MB Passage" ==> (r.Err? <==> !HasMeta(md, room))
    ensures r.Err? ==>
      exists k :: 0 <= k < |RelatedTestArea(room, main, md)| &&
        r.error == KeyError(RelatedTestArea(room, main, md)[k]) && !HasMeta(md, RelatedTestArea(room, main, md)[k])
    ensures r.Ok? ==> |r.value| == |md|
  {
    ShiftTestAreaWith(md, RelatedTestArea(room, main, md), key, delta)
  }

  // --- properties ---

  // Only the coordinate of the direction's axis changes, by exactly delta.
  lemma TranslateAxis(p: Point, key: string, delta: int)
    ensures key in {"North", "South"} ==> (Translate(p, key, delta).x == p.x &&
      Translate(p, key, delta).y == p.y + (if key == "North" then delta else -delta))
    ensures key in {"East", "West"} ==> (Translate(p, key, delta).y == p.y &&
      Translate(p, key, delta).x == p.x + (if key == "East" then delta else -delta))
  {
  }

  // Translation keeps the length of the wall; every field but the
  // coordinates and the length is kept.
  lemma MoveWallKeeps(e: WallInfo, key: string, delta: int)
    ensures var n := MoveWall(e, key, delta);
      n.length == AxisLength(e.coords) &&
      n.id == e.id && n.wallType == e.wallType && n.roomArea == e.roomArea &&
      n.parallel == e.parallel && n.isFree == e.isFree && n.direction == e.direction
    ensures e.length == AxisLength(e.coords) ==> MoveWall(e, key, delta).length == e.length
  {
  }

  lemma {:induction false} TranslateTwice(p: Point, key: string, a: int, b: int)
    ensures Translate(Translate(p, key, a), key, b) == Translate(p, key, a + b)
  {
  }

  lemma MoveWallsTwice(ws: seq<WallInfo>, key: string, a: int, b: int)
    ensures MoveWalls(MoveWalls(ws, key, a), key, b) == MoveWalls(ws, key, a + b)
  {
    var l := MoveWalls(MoveWalls(ws, key, a), key, b);
    var r := MoveWalls(ws, key, a + b);
    forall k | 0 <= k < |ws| ensures l[k] == r[k] {
      TranslateTwice(ws[k].coords.start, key, a, b);
      TranslateTwice(ws[k].coords.end, key, a, b);
    }
  }

  lemma MoveRoomAt(md: Metadata, name: string, key: string, delta: int, m: nat)
    requires UniqueNames(md) && m < |md|
    ensures MoveRoom(md, name, key, delta)[m] ==
      MovedBy(md[m], key, delta, if md[m].name == name then 1 else 0)
  {
    match FindMeta(md, name)
    case None =>
    case Some(i) =>
      if md[m].name == name {
        FindMetaUnique(md, m);
      }
  }

  lemma MovedByOnce(r: RoomMeta, key: string, delta: int, c: nat)
    ensures RoomMeta(r.name, MoveWalls(MovedBy(r, key, delta, c).walls, key, delta)) == MovedBy(r, key, delta, c + 1)
  {
    if c > 0 {
      MoveWallsTwice(r.walls, key, c * delta, delta);
      assert c * delta + delta == (c + 1) * delta;
    }
  }

  // After a sequence of moves, each room has moved as many times as its name
  // is listed: translated by that multiple of delta, or untouched.
  lemma {:induction false} MoveRoomsAt(md: Metadata, names: seq<string>, key: string, delta: int, m: nat)
    requires UniqueNames(md) && m < |md|
    ensures MoveRooms(md, names, key, delta)[m] == MovedBy(md[m], key, delta, multiset(names)[md[m].name])
  {
    if |names| > 0 {
      var init := names[..|names| - 1];
      var last := names[|names| - 1];
      assert names == init + [last];
      var mid := MoveRooms(md, init, key, delta);
      forall m' | 0 <= m' < |md| ensures mid[m'].name == md[m'].name {
        MoveRoomsAt(md, init, key, delta, m');
      }
      assert UniqueNames(mid);
      MoveRoomsAt(md, init, key, delta, m);
      MoveRoomAt(mid, last, key, delta, m);
      MoveCountStep(md[m], mid[m], key, delta, init, last);
    }
  }

  // One more move of the list adds one to the count of its room.
  lemma MoveCountStep(r0: RoomMeta, mid: RoomMeta, key: string, delta: int, init: seq<string>, last: string)
    requires mid == MovedBy(r0, key, delta, multiset(init)[r0.name])
    ensures MovedBy(mid, key, delta, if mid.name == last then 1 else 0) ==
      MovedBy(r0, key, delta, multiset(init + [last])[r0.name])
  {
    var c := multiset(init)[r0.name];
    assert multiset(init + [last]) == multiset(init) + multiset{last};
    if r0.name == last {
      MovedByOnce(r0, key, delta, c);
    }
  }

  lemma MoveRoomsKeepsNames(md: Metadata, names: seq<string>, key: string, delta: int)
    requires UniqueNames(md)
    ensures forall m :: 0 <= m < |md| ==> MoveRooms(md, names, key, delta)[m].name == md[m].name
    ensures UniqueNames(MoveRooms(md, names, key, delta))
  {
    forall m | 0 <= m < |md| ensures MoveRooms(md, names, key, delta)[m].name == md[m].name {
      MoveRoomsAt(md, names, key, delta, m);
    }
  }

  // new_room_maain.py's shift_room: the room, when present and not the main
  // room, has every wall translated along the axis only, with its length
  // kept; every other room, the main room and a missing room included, is
  // unchanged.
  lemma ShiftRoomMainMoves(md: Metadata, room: string, key: string, delta: int, main: string, m: nat, k: nat)
    requires UniqueNames(md) && m < |md| && k < |md[m].walls|
    requires md[m].name == room && room != main
    ensures |ShiftRoomMain(md, room, key, delta, main)[m].walls| == |md[m].walls|
    ensures var w := ShiftRoomMain(md, room, key, delta, main)[m].walls[k];
      var before := md[m].walls[k];
      w.coords == Wall(Translate(before.coords.start, key, delta), Translate(before.coords.end, key, delta)) &&
      w.length == AxisLength(before.coords)
  {
    MoveRoomsAt(md, [room], key, delta, m);
    assert multiset([room])[room] == 1;
  }

  lemma ShiftRoomMainFrame(md: Metadata, room: string, key: string, delta: int, main: string, m: nat)
    requires UniqueNames(md) && m < |md|
    requires md[m].name != room || room == main
    ensures ShiftRoomMain(md, room, key, delta, main)[m] == md[m]
  {
    MoveRoomsAt(md, RelatedToMain(room, main), key, delta, m);
  }

  lemma ShiftRoomMainMissing(md: Metadata, room: string, key: string, delta: int, main: string)
    requires !HasMeta(md, room)
    ensures ShiftRoomMain(md, room, key, delta, main) == md
  {
    if room != main {
      assert [room][..0] == [];
      assert MoveRooms(md, [room], key, delta) == MoveRoom(md, room, key, delta);
    }
  }

  // adjust_dimension.py's shift_room: each room of the table moves once
  // (the table has no repeated name), every other room is unchanged.
  lemma ShiftRoomSpecAt(md: Metadata, room: string, key: string, delta: int, main: string, m: nat)
    requires UniqueNames(md) && m < |md|
    ensures ShiftRoomSpec(md, room, key, delta, main)[m] ==
      MovedBy(md[m], key, delta, if md[m].name in RelatedRooms(room, main) then 1 else 0)
  {
    var rel := RelatedRooms(room, main);
    MoveRoomsAt(md, rel, key, delta, m);
    var x := md[m].name;
    assert multiset(rel)[x] == if x in rel then 1 else 0;
  }

  // The main room is moved along only when the table names it ('Master
  // Bedroom' moved for its passage, say): it is not excluded.
  lemma ShiftRoomSpecMovesMain(md: Metadata, key: string, delta: int, m: nat)
    requires UniqueNames(md) && m < |md| && md[m].name == "Master Bedroom"
    ensures ShiftRoomSpec(md, "Master Bedroom", key, delta, "Master Bedroom")[m] ==
      MovedBy(md[m], key, delta, 1)
  {
    ShiftRoomSpecAt(md, "Master Bedroom", key, delta, "Master Bedroom", m);
  }

  // test_area.py as written fails for the master bedroom whenever its passage
  // exists without its washroom.
  lemma TestAreaAsWrittenFails(md: Metadata, key: string, delta: int, main: string)
    requires main != "En suite Washroom" && main != "MB Passage"
    requires HasMeta(md, "Master Bedroom") && HasMeta(md, "MB Passage") && !HasMeta(md, "En suite Washroom")
    ensures ShiftTestAreaWith(md, RelatedTestAreaAsWritten("Master Bedroom", main, md), key, delta) ==
      Err(KeyError("En suite Washroom"))
  {
  }

  // The concrete plan: a master bedroom and its passage, no washroom.
  lemma TestAreaAsWrittenExample()
    ensures var w := WallInfo(1, 0, Horizontal, Wall(Point(0, 0), Point(0, 0)), 0, [], true, North);
      var md := [RoomMeta("Master Bedroom", [w]), RoomMeta("MB Passage", [w])];
      ShiftTestAreaWith(md, RelatedTestAreaAsWritten("Master Bedroom", "Kitchen", md), "North", 100) ==
        Err(KeyError("En suite Washroom"))
  {
    var w := WallInfo(1, 0, Horizontal, Wall(Point(0, 0), Point(0, 0)), 0, [], true, North);
    var md := [RoomMeta("Master Bedroom", [w]), RoomMeta("MB Passage", [w])];
    assert FindMeta(md, "MB Passage") == Some(1);
    assert FindMeta(md, "En suite Washroom").None?;
    TestAreaAsWrittenFails(md, "North", 100, "Kitchen");
  }

  // With the corrected guard, shifting a present room for any main room
  // other than the two companions never fails, and shifts exactly the rooms
  // of the table.
  lemma TestAreaShiftSucceeds(md: Metadata, room: string, key: string, delta: int, main: string)
    requires main != "En suite Washroom" && main != "MB Passage"
    requires HasMeta(md, room)
    ensures ShiftTestArea(md, room, key, delta, main) == Ok(MoveRooms(md, RelatedTestArea(room, main, md), key, delta))
  {
    var rel := RelatedTestArea(room, main, md);
    assert forall k :: 0 <= k < |rel| ==> HasMeta(md, rel[k]);
  }

  // The corrected table keeps the master bedroom's companions together: it
  // lists each companion only when it exists, and the room itself first.
  lemma TestAreaTable(md: Metadata, room: string, main: string)
    requires main != "En suite Washroom" && main != "MB Passage"
    ensures var rel := RelatedTestArea(room, main, md);
      |rel| > 0 && rel[0] == room &&
      ("En suite Washroom" in rel[1..] <==> room == "Master Bedroom" && HasMeta(md, "En suite Washroom")) &&
      ("MB Passage" in rel[1..] <==> room == "Master Bedroom" && HasMeta(md, "MB Passage"))
  {
  }
}
