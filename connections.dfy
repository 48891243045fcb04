// Broken connections and directional reach of
// backend_project/src/new_room_maain.py: compare_floor_plans,
// remove_duplicate_connections and find_adjacent_rooms_in_direction.  All
// three build on the effective (snapping) find_adjacent_rooms; the snapping
// happens in place on the first call, and every later call re-snaps a plan
// that is already snapped, which changes nothing
// (Adjacency.SnappedAdjacencyStable), so the model snaps once and then
// searches the snapped plan.
module Connections {
  import opened Wrappers
  import opened Geometry
  import opened FloorPlan
  import Snap
  import opened Adjacency

  // --- compare_floor_plans ---

  // (direction, list(original_set - updated_set))
  datatype LostSide = LostSide(direction: Direction, rooms: set<string>)
  // broken_connections[room]
  datatype BrokenRoom = BrokenRoom(room: string, lost: seq<LostSide>)

  // del rooms[name] when present.
  function RemoveRoom(p: Plan, name: string): (r: Plan)
    ensures !HasRoom(p, name) ==> r == p
    ensures HasRoom(p, name) ==> |r| == |p| - 1
  {
    match IndexOf(p, name)
    case None => p
    case Some(i) => p[..i] + p[i + 1..]
  }

  function LostOn(o: Sides, u: Sides, d: Direction): seq<LostSide> {
    if Side(o, d) != Side(u, d) then [LostSide(d, Side(o, d) - Side(u, d))] else []
  }

  // The sides, in the order North, South, East, West, whose neighbour sets differ.
  function LostSides(o: Sides, u: Sides): seq<LostSide> {
    LostOn(o, u, North) + LostOn(o, u, South) + LostOn(o, u, East) + LostOn(o, u, West)
  }

  // The loop of compare_floor_plans over the room names, with the
  // comparison of one room as a parameter: the first failing comparison
  // fails the whole loop, and a room with changed sides is appended.
  function Collect(names: seq<string>, cmp: string -> Result<seq<LostSide>>): Result<seq<BrokenRoom>> {
    if |names| == 0 then Ok([])
    else
      var room := names[|names| - 1];
      match Collect(names[..|names| - 1], cmp)
      case Err(e) => Err(e)
      case Ok(before) =>
        match cmp(room)
        case Err(e) => Err(e)
        case Ok(lost) => Ok(before + (if |lost| > 0 then [BrokenRoom(room, lost)] else []))
  }

  function RoomNames(p: Plan): (r: seq<string>)
    ensures |r| == |p| && forall k :: 0 <= k < |p| ==> r[k] == p[k].name
  {
    seq(|p|, k requires 0 <= k < |p| => p[k].name)
  }

  // The sides of room whose neighbours differ between the two plans.
  function RoomLost(room: string, orig: Plan, upd: Plan): Result<seq<LostSide>> {
    match AdjacentRoomsSpec(room, orig)
    case Err(e) => Err(e)
    case Ok(o) =>
      match AdjacentRoomsSpec(room, upd)
      case Err(e) => Err(e)
      case Ok(u) => Ok(LostSides(o, u))
  }

  function Comparison(orig: Plan, upd: Plan): string -> Result<seq<LostSide>> {
    room => RoomLost(room, orig, upd)
  }

  function BrokenRooms(b: seq<BrokenRoom>): set<string> {
    set k | 0 <= k < |b| :: b[k].room
  }

  // compare_floor_plans; unique1 and unique2 are the set orders of the two
  // snaps.
  function CompareSpec(original: Plan, updated: Plan, newRoom: string, unique1: seq<int>, unique2: seq<int>):
    Result<(seq<BrokenRoom>, set<string>)>
  {
    var orig := RemoveRoom(original, newRoom);
    if |orig| == 0 then Ok(([], {}))
    else
      var os := Snap.SnapPlan(orig, AdjacencySnap, unique1);
      var us := Snap.SnapPlan(updated, AdjacencySnap, unique2);
      if !Rectilinear(os) || !Rectilinear(us) then Err(KeyError("diagonal"))
      else
        match Collect(RoomNames(os), Comparison(os, us))
        case Err(e) => Err(e)
        case Ok(b) => Ok((b, BrokenRooms(b)))
  }

  // One room of the loop: compare its neighbours on every side.
  method CompareRoom(room: string, os: Plan, us: Plan) returns (r: Result<seq<LostSide>>)
    ensures r == Comparison(os, us)(room)
  {
    var o := FindAdjacentRooms(room, os);
    if o.Err? {
      return Err(o.error);
    }
    var u := FindAdjacentRooms(room, us);
    if u.Err? {
      return Err(u.error);
    }
    var lost: seq<LostSide> := [];
    var dirs := [North, South, East, West];
    var k := 0;
    while k < 4
      invariant 0 <= k <= 4
      invariant lost == (if k > 0 then LostOn(o.value, u.value, North) else []) +
        (if k > 1 then LostOn(o.value, u.value, South) else []) +
        (if k > 2 then LostOn(o.value, u.value, East) else []) +
        (if k > 3 then LostOn(o.value, u.value, West) else [])
    {
      var d := dirs[k];
      var originalSet := Side(o.value, d);
      var updatedSet := Side(u.value, d);
      if originalSet != updatedSet {
        lost := lost + [LostSide(d, originalSet - updatedSet)];
      }
      k := k + 1;
    }
    return Ok(lost);
  }

  method CompareFloorPlans(original: Plan, updated: Plan, newRoom: string, unique1: seq<int>, unique2: seq<int>)
    returns (r: Result<(seq<BrokenRoom>, set<string>)>)
    requires Snap.IsUniqueOrder(unique1, RemoveRoom(original, newRoom))
    requires Snap.IsUniqueOrder(unique2, updated)
    ensures r == CompareSpec(original, updated, newRoom, unique1, unique2)
  {
    var orig := RemoveRoom(original, newRoom);
    if |orig| == 0 {
      return Ok(([], {}));
    }
    var os, first := FindAdjacentRoomsSnapped(orig[0].name, orig, unique1);
    if first.Err? {
      return Err(KeyError("diagonal"));
    }
    var us, firstU := FindAdjacentRoomsSnapped(orig[0].name, updated, unique2);
    if !Rectilinear(us) {
      return Err(KeyError("diagonal"));
    }
    var b := CompareAll(os, us);
    if b.Err? {
      return Err(b.error);
    }
    r := Ok((b.value, BrokenRooms(b.value)));
  }

  // The loop of compare_floor_plans over the rooms of the original plan.
  method CompareAll(os: Plan, us: Plan) returns (r: Result<seq<BrokenRoom>>)
    ensures r == Collect(RoomNames(os), Comparison(os, us))
  {
    var broken: seq<BrokenRoom> := [];
    var i := 0;
    while i < |os|
      invariant 0 <= i <= |os|
      invariant Collect(RoomNames(os)[..i], Comparison(os, us)) == Ok(broken)
    {
      var lost := CompareRoom(os[i].name, os, us);
      CollectNext(RoomNames(os), Comparison(os, us), i, broken);
      if lost.Err? {
        ErrorPersists(RoomNames(os), Comparison(os, us), i + 1);
        return Err(lost.error);
      }
      var added := if |lost.value| > 0 then [BrokenRoom(os[i].name, lost.value)] else [];
      broken := broken + added;
      i := i + 1;
    }
    assert RoomNames(os)[..i] == RoomNames(os);
    r := Ok(broken);
  }

  // One step of the loop.
  lemma CollectNext(names: seq<string>, cmp: string -> Result<seq<LostSide>>, n: nat, broken: seq<BrokenRoom>)
    requires n < |names|
    requires Collect(names[..n], cmp) == Ok(broken)
    ensures Collect(names[..n + 1], cmp) ==
      match cmp(names[n])
      case Err(e) => Err(e)
      case Ok(lost) => Ok(broken + (if |lost| > 0 then [BrokenRoom(names[n], lost)] else []))
  {
    assert names[..n + 1][..n] == names[..n];
  }

  // Once a room fails, the whole loop fails with its error.
  lemma {:induction false} ErrorPersists(names: seq<string>, cmp: string -> Result<seq<LostSide>>, n: nat)
    requires 0 < n <= |names|
    requires Collect(names[..n], cmp).Err?
    ensures Collect(names, cmp) == Collect(names[..n], cmp)
    decreases |names| - n
  {
    if n < |names| {
      assert names[..n + 1][..n] == names[..n];
      ErrorPersists(names, cmp, n + 1);
    } else {
      assert names[..n] == names;
    }
  }

  // --- what compare_floor_plans reports ---

  // A side is reported exactly when its two neighbour sets differ, with
  // the neighbours it had in the original plan and lost in the updated one.
  lemma LostSidesMeaning(o: Sides, u: Sides, d: Direction, s: set<string>)
    ensures LostSide(d, s) in LostSides(o, u) <==>
      d != Unknown && Side(o, d) != Side(u, d) && s == Side(o, d) - Side(u, d)
  {
  }

  // Nothing is reported for a room exactly when its neighbours are the same.
  lemma LostSidesEmptyIff(o: Sides, u: Sides)
    ensures LostSides(o, u) == [] <==> o == u
  {
    if LostSides(o, u) == [] {
      assert |LostOn(o, u, North)| == 0 && |LostOn(o, u, South)| == 0;
      assert |LostOn(o, u, East)| == 0 && |LostOn(o, u, West)| == 0;
      SidesEqual(o, u);
    }
  }

  // The neighbour search succeeds exactly on the rooms of the plan.
  lemma AdjacentRoomsOk(name: string, rooms: Plan)
    ensures AdjacentRoomsSpec(name, rooms).Ok? <==> HasRoom(rooms, name)
  {
  }

  // The comparison of a room fails exactly when it is missing from one of
  // the plans.
  lemma RoomLostOk(room: string, orig: Plan, upd: Plan)
    ensures RoomLost(room, orig, upd).Ok? <==> HasRoom(orig, room) && HasRoom(upd, room)
  {
    AdjacentRoomsOk(room, orig);
    AdjacentRoomsOk(room, upd);
  }

  // The loop succeeds exactly when every comparison does.
  lemma {:induction false} CollectOk(names: seq<string>, cmp: string -> Result<seq<LostSide>>)
    ensures Collect(names, cmp).Ok? <==> forall k :: 0 <= k < |names| ==> cmp(names[k]).Ok?
  {
    if |names| > 0 {
      var m := names[..|names| - 1];
      CollectOk(m, cmp);
      assert forall k :: 0 <= k < |m| ==> m[k] == names[k];
    }
  }

  // Every reported room comes with the non-empty result of its comparison.
  lemma {:induction false} CollectEntries(names: seq<string>, cmp: string -> Result<seq<LostSide>>)
    requires Collect(names, cmp).Ok?
    ensures var b := Collect(names, cmp).value;
      forall j :: 0 <= j < |b| ==> b[j].lost != [] && cmp(b[j].room) == Ok(b[j].lost)
  {
    if |names| > 0 {
      CollectEntries(names[..|names| - 1], cmp);
    }
  }

  // A room is reported exactly when it is compared and its comparison
  // found a change.
  lemma {:induction false} CollectRooms(names: seq<string>, cmp: string -> Result<seq<LostSide>>, x: string)
    requires Collect(names, cmp).Ok?
    ensures x in BrokenRooms(Collect(names, cmp).value) <==> x in names && cmp(x) != Ok([])
  {
    if |names| > 0 {
      var m := names[..|names| - 1];
      var room := names[|names| - 1];
      CollectRooms(m, cmp, x);
      var before := Collect(m, cmp).value;
      var lost := cmp(room).value;
      var b := Collect(names, cmp).value;
      assert names == m + [room];
      assert b == before + (if |lost| > 0 then [BrokenRoom(room, lost)] else []);
      if x in BrokenRooms(b) {
        var j :| 0 <= j < |b| && b[j].room == x;
        if j < |before| {
          assert before[j].room == x;
        }
      }
      if x in BrokenRooms(before) {
        var j :| 0 <= j < |before| && before[j].room == x;
        assert b[j].room == x;
      }
      if |lost| > 0 && x == room {
        assert b[|before|].room == x;
      }
    }
  }

  // Snapping moves coordinates only: the room names stay as they are.
  lemma SnapKeepsNames(rooms: Plan, t: int, unique: seq<int>)
    ensures RoomNames(Snap.SnapPlan(rooms, t, unique)) == RoomNames(rooms)
  {
    var snapped := Snap.SnapPlan(rooms, t, unique);
    forall i | 0 <= i < |rooms| ensures snapped[i].name == rooms[i].name {
      Snap.SnapRoomsAt(rooms, Snap.Groups(unique, t), i);
    }
  }

  lemma HasRoomByNames(p: Plan, q: Plan, x: string)
    requires RoomNames(p) == RoomNames(q)
    ensures HasRoom(p, x) <==> HasRoom(q, x)
  {
    if HasRoom(p, x) {
      var i :| 0 <= i < |p| && p[i].name == x;
      assert RoomNames(q)[i] == x;
    }
    if HasRoom(q, x) {
      var i :| 0 <= i < |q| && q[i].name == x;
      assert RoomNames(p)[i] == x;
    }
  }

  // With distinct names, removing the new room removes every trace of it.
  lemma RemoveRoomGone(p: Plan, name: string)
    requires DistinctNames(p)
    ensures !HasRoom(RemoveRoom(p, name), name)
    ensures forall x :: x != name ==> (HasRoom(RemoveRoom(p, name), x) <==> HasRoom(p, x))
  {
    var r := RemoveRoom(p, name);
    if HasRoom(p, name) {
      var i := IndexOf(p, name).value;
      assert r == p[..i] + p[i + 1..];
      forall k | 0 <= k < |r| ensures r[k].name != name {
        if k < i {
          assert r[k] == p[k];
        } else {
          assert r[k] == p[k + 1];
        }
      }
      forall x | x != name && HasRoom(p, x) ensures HasRoom(r, x) {
        var k :| 0 <= k < |p| && p[k].name == x;
        if k < i {
          assert r[k] == p[k];
        } else {
          assert r[k - 1] == p[k];
        }
      }
      forall x | HasRoom(r, x) ensures HasRoom(p, x) {
        var k :| 0 <= k < |r| && r[k].name == x;
        if k < i {
          assert r[k] == p[k];
        } else {
          assert r[k] == p[k + 1];
        }
      }
    }
  }

  // compare_floor_plans fails exactly when a plan has a diagonal wall once
  // snapped, or a room of the original plan (other than the new room) is
  // missing from the updated plan.
  lemma CompareFails(original: Plan, updated: Plan, newRoom: string, unique1: seq<int>, unique2: seq<int>)
    ensures var orig := RemoveRoom(original, newRoom);
      CompareSpec(original, updated, newRoom, unique1, unique2).Err? <==>
      |orig| > 0 &&
      (!Rectilinear(Snap.SnapPlan(orig, AdjacencySnap, unique1)) ||
       !Rectilinear(Snap.SnapPlan(updated, AdjacencySnap, unique2)) ||
       exists k :: 0 <= k < |orig| && !HasRoom(updated, orig[k].name))
  {
    var orig := RemoveRoom(original, newRoom);
    if |orig| > 0 {
      var os := Snap.SnapPlan(orig, AdjacencySnap, unique1);
      var us := Snap.SnapPlan(updated, AdjacencySnap, unique2);
      SnapKeepsNames(orig, AdjacencySnap, unique1);
      SnapKeepsNames(updated, AdjacencySnap, unique2);
      var names := RoomNames(os);
      var cmp := Comparison(os, us);
      CollectOk(names, cmp);
      forall k | 0 <= k < |orig| ensures cmp(names[k]).Ok? <==> HasRoom(updated, orig[k].name) {
        RoomLostOk(names[k], os, us);
        assert HasRoom(os, names[k]);
        HasRoomByNames(us, updated, names[k]);
      }
    }
  }

  // On two snapped plans: a room is reported exactly when it is in the
  // first and its neighbours on some side differ between the two.
  lemma ReportedIff(os: Plan, us: Plan, x: string)
    requires Collect(RoomNames(os), Comparison(os, us)).Ok?
    ensures x in BrokenRooms(Collect(RoomNames(os), Comparison(os, us)).value) <==>
      HasRoom(os, x) && AdjacentRoomsSpec(x, os) != AdjacentRoomsSpec(x, us)
  {
    var names := RoomNames(os);
    var cmp := Comparison(os, us);
    CollectOk(names, cmp);
    CollectRooms(names, cmp, x);
    assert x in names <==> HasRoom(os, x) by {
      if x in names {
        var k :| 0 <= k < |names| && names[k] == x;
        assert os[k].name == x;
      }
    }
    if HasRoom(os, x) {
      var k :| 0 <= k < |os| && os[k].name == x;
      assert names[k] == x;
      assert cmp(names[k]).Ok?;
      RoomLostOk(x, os, us);
      LostSidesEmptyIff(AdjacentRoomsSpec(x, os).value, AdjacentRoomsSpec(x, us).value);
    }
  }

  // A room is reported exactly when it is in the original plan and its
  // neighbours on some side differ between the two snapped plans.
  lemma CompareMeaning(original: Plan, updated: Plan, newRoom: string, unique1: seq<int>, unique2: seq<int>, x: string)
    requires CompareSpec(original, updated, newRoom, unique1, unique2).Ok?
    ensures var orig := RemoveRoom(original, newRoom);
      var os := Snap.SnapPlan(orig, AdjacencySnap, unique1);
      var us := Snap.SnapPlan(updated, AdjacencySnap, unique2);
      x in CompareSpec(original, updated, newRoom, unique1, unique2).value.1 <==>
      HasRoom(orig, x) && AdjacentRoomsSpec(x, os) != AdjacentRoomsSpec(x, us)
  {
    var orig := RemoveRoom(original, newRoom);
    if |orig| > 0 {
      var os := Snap.SnapPlan(orig, AdjacencySnap, unique1);
      var us := Snap.SnapPlan(updated, AdjacencySnap, unique2);
      SnapKeepsNames(orig, AdjacencySnap, unique1);
      HasRoomByNames(os, orig, x);
      ReportedIff(os, us, x);
    }
  }

  // Each report lists the changed sides of its room, and at least one.
  lemma CompareEntries(original: Plan, updated: Plan, newRoom: string, unique1: seq<int>, unique2: seq<int>)
    requires CompareSpec(original, updated, newRoom, unique1, unique2).Ok?
    ensures var orig := RemoveRoom(original, newRoom);
      var os := Snap.SnapPlan(orig, AdjacencySnap, unique1);
      var us := Snap.SnapPlan(updated, AdjacencySnap, unique2);
      var b := CompareSpec(original, updated, newRoom, unique1, unique2).value.0;
      forall j :: 0 <= j < |b| ==> (b[j].lost != [] && RoomLost(b[j].room, os, us) == Ok(b[j].lost))
  {
    var orig := RemoveRoom(original, newRoom);
    if |orig| > 0 {
      var os := Snap.SnapPlan(orig, AdjacencySnap, unique1);
      var us := Snap.SnapPlan(updated, AdjacencySnap, unique2);
      CollectEntries(RoomNames(os), Comparison(os, us));
    }
  }

  // The new room itself is never reported.
  lemma CompareSkipsNewRoom(original: Plan, updated: Plan, newRoom: string, unique1: seq<int>, unique2: seq<int>)
    requires DistinctNames(original)
    requires CompareSpec(original, updated, newRoom, unique1, unique2).Ok?
    ensures newRoom !in CompareSpec(original, updated, newRoom, unique1, unique2).value.1
  {
    RemoveRoomGone(original, newRoom);
    CompareMeaning(original, updated, newRoom, unique1, unique2, newRoom);
  }
}
