// The in-place edit procedures of backend_project/src/adjust_dimension.py
// (and shift_room of backend_project/src/new_room_maain.py) on one metadata
// dictionary: the coordinates and lengths of wall entries are overwritten
// wall by wall, and one updated_walls set is shared by a whole stitch.  Each
// method is proved to leave exactly the state the value-level model of the
// Shift and Resize modules computes from the state before the call.
module Editor {
  import opened Wrappers
  import opened Geometry
  import opened FloorPlan
  import opened RoomData
  import opened Shift
  import opened Resize

  class MetadataEditor {
    // The metadata dictionary the procedures change in place.
    var md: Metadata
    // The updated_walls set of the resize procedures.
    var updatedWalls: set<nat>

    constructor (md0: Metadata)
      ensures md == md0 && updatedWalls == {}
    {
      md := md0;
      updatedWalls := {};
    }

    // --- shift_room ---

    // The wall loop of shift_room for room i: both endpoints translated,
    // the length recomputed.
    method MoveRoomWalls(i: nat, key: string, delta: int)
      requires i < |md|
      modifies this
      ensures md == old(md)[i := RoomMeta(old(md)[i].name, MoveWalls(old(md)[i].walls, key, delta))]
      ensures updatedWalls == old(updatedWalls)
    {
      var ws := md[i].walls;
      var k := 0;
      while k < |ws|
        invariant 0 <= k <= |ws|
        invariant |md| == |old(md)| && md[i].name == old(md)[i].name && |md[i].walls| == |ws|
        invariant forall m :: 0 <= m < |md| && m != i ==> md[m] == old(md)[m]
        invariant forall j :: 0 <= j < k ==> md[i].walls[j] == MoveWall(ws[j], key, delta)
        invariant forall j :: k <= j < |ws| ==> md[i].walls[j] == ws[j]
        invariant updatedWalls == old(updatedWalls)
      {
        var e := md[i].walls[k];
        var c := Wall(Translate(e.coords.start, key, delta), Translate(e.coords.end, key, delta));
        md := md[i := RoomMeta(md[i].name, md[i].walls[k := e.(coords := c, length := AxisLength(c))])];
        k := k + 1;
      }
      assert md[i].walls == MoveWalls(ws, key, delta);
    }

    // `if related_room in metadata`, then the wall loop.
    method MoveRoomByName(name: string, key: string, delta: int)
      modifies this
      ensures md == MoveRoom(old(md), name, key, delta)
      ensures updatedWalls == old(updatedWalls)
    {
      var found := FindMeta(md, name);
      if found.Some? {
        MoveRoomWalls(found.value, key, delta);
      }
    }

    // The loop over the related rooms, in order.
    method MoveRelated(names: seq<string>, key: string, delta: int)
      modifies this
      ensures md == MoveRooms(old(md), names, key, delta)
      ensures updatedWalls == old(updatedWalls)
    {
      var j := 0;
      while j < |names|
        invariant 0 <= j <= |names|
        invariant md == MoveRooms(old(md), names[..j], key, delta)
        invariant updatedWalls == old(updatedWalls)
      {
        assert names[..j + 1][..j] == names[..j];
        MoveRoomByName(names[j], key, delta);
        j := j + 1;
      }
      assert names[..j] == names;
    }

    // shift_room of adjust_dimension.py: the rooms of the related-room table.
    method ShiftRoom(room: string, key: string, delta: int, main: string)
      modifies this
      ensures md == ShiftRoomSpec(old(md), room, key, delta, main)
      ensures updatedWalls == old(updatedWalls)
    {
      MoveRelated(RelatedRooms(room, main), key, delta);
    }

    // shift_room of new_room_maain.py: the room itself unless it is the
    // main room.
    method ShiftRoomPlacement(room: string, key: string, delta: int, main: string)
      modifies this
      ensures md == Shift.ShiftRoomMain(old(md), room, key, delta, main)
      ensures updatedWalls == old(updatedWalls)
    {
      MoveRelated(RelatedToMain(room, main), key, delta);
    }

    // --- update_adjacent_walls and is_connected_to_other_room ---

    // The wall, either way round, is a wall of another room.
    method IsConnectedToOtherRoom(c: Wall, room: string) returns (b: bool)
      ensures b == ConnectedElsewhere(c, md, room)
    {
      var m := 0;
      while m < |md|
        invariant 0 <= m <= |md|
        invariant forall m', k :: 0 <= m' < m && md[m'].name != room && 0 <= k < |md[m'].walls| ==>
          md[m'].walls[k].coords != c && md[m'].walls[k].coords != Reversed(c)
      {
        if md[m].name != room {
          var k := 0;
          while k < |md[m].walls|
            invariant 0 <= k <= |md[m].walls|
            invariant forall k' :: 0 <= k' < k ==> md[m].walls[k'].coords != c && md[m].walls[k'].coords != Reversed(c)
          {
            if md[m].walls[k].coords == c || md[m].walls[k].coords == Reversed(c) {
              return true;
            }
            k := k + 1;
          }
        }
        m := m + 1;
      }
      return false;
    }

    // After wall id of room i moved from (os, oe) to (ns, ne): every other
    // wall of the room sharing an old endpoint, and not also a wall of
    // another room, gets its first matching endpoint moved.
    method UpdateAdjacentWalls(i: nat, id: nat, os: Point, oe: Point, ns: Point, ne: Point)
      requires i < |md|
      modifies this
      ensures md == UpdateAdjacent(old(md), i, id, os, oe, ns, ne)
      ensures updatedWalls == old(updatedWalls)
    {
      var ws := md[i].walls;
      var room := md[i].name;
      var k := 0;
      while k < |ws|
        invariant 0 <= k <= |ws|
        invariant |md| == |old(md)| && md[i].name == room && |md[i].walls| == |ws|
        invariant forall m :: 0 <= m < |md| && m != i ==> md[m] == old(md)[m]
        invariant forall j :: 0 <= j < k ==> md[i].walls[j] == (if Rewired(ws[j], old(md), room, id, os, oe) then RewireWall(ws[j], os, oe, ns, ne) else ws[j])
        invariant forall j :: k <= j < |ws| ==> md[i].walls[j] == ws[j]
        invariant updatedWalls == old(updatedWalls)
      {
        var e := md[i].walls[k];
        if e.id != id && Touches(e.coords, os, oe) {
          var connected := IsConnectedToOtherRoom(e.coords, room);
          ConnectedElsewhereOthers(old(md), md, i, e.coords, room);
          if !connected {
            var c := Reconnect(e.coords, os, oe, ns, ne);
            md := md[i := RoomMeta(room, md[i].walls[k := e.(coords := c, length := AxisLength(c))])];
          }
        }
        k := k + 1;
      }
      assert md[i] == UpdateAdjacent(old(md), i, id, os, oe, ns, ne)[i];
    }

    // --- update_wall_length_by_dimension2 and 3 ---

    // One turn of the inner loop: wall k of room i, when wall number wn
    // picks it and it was not updated before.
    method AdjustWall(i: nat, key: string, delta: int, wn: nat, k: nat)
      requires i < |md| && k < |md[i].walls|
      modifies this
      ensures State(md, updatedWalls) == Step(State(old(md), old(updatedWalls)), i, key, delta, wn, k)
    {
      var e := md[i].walls[k];
      if Picks(e, wn) && e.id !in updatedWalls {
        updatedWalls := updatedWalls + {e.id};
        var c := AdjustEnds(e.coords, key, delta);
        md := md[i := RoomMeta(md[i].name, md[i].walls[k := e.(coords := c, length := AxisLength(c))])];
        UpdateAdjacentWalls(i, e.id, e.coords.start, e.coords.end, c.start, c.end);
      }
    }

    // update_wall_length_by_dimension3(room, direction, delta,
    // updated_walls, metadata); a missing room raises KeyError with nothing
    // changed.
    method UpdateWallLengthByDimension3(room: string, key: string, delta: int) returns (err: Option<Error>)
      modifies this
      ensures Agrees(Dimension3(old(md), room, key, delta, old(updatedWalls)), err, State(md, updatedWalls))
      ensures err.Some? ==> md == old(md) && updatedWalls == old(updatedWalls)
    {
      var found := FindMeta(md, room);
      if found.None? {
        return Some(KeyError(room));
      }
      var i := found.value;
      RunRows(i, key, delta, SameTypeIds(md[i].walls, TypeFor(key)));
      return None;
    }

    // The outer loop, over the wall numbers of the direction's type.
    method RunRows(i: nat, key: string, delta: int, wns: seq<nat>)
      requires i < |md|
      modifies this
      ensures State(md, updatedWalls) == Rows(State(old(md), old(updatedWalls)), i, key, delta, wns)
    {
      ghost var s0 := State(md, updatedWalls);
      var j := 0;
      while j < |wns|
        invariant 0 <= j <= |wns|
        invariant State(md, updatedWalls) == Rows(s0, i, key, delta, wns[..j])
        invariant i < |md|
      {
        RunRow(i, key, delta, wns[j]);
        RowsSnoc(s0, i, key, delta, wns, j);
        j := j + 1;
      }
      assert wns[..j] == wns;
    }

    // The inner loop, over every wall of the room.
    method RunRow(i: nat, key: string, delta: int, wn: nat)
      requires i < |md|
      modifies this
      ensures State(md, updatedWalls) == Row(State(old(md), old(updatedWalls)), i, key, delta, wn, |old(md)[i].walls|)
    {
      ghost var s0 := State(md, updatedWalls);
      var n := |md[i].walls|;
      var k := 0;
      while k < n
        invariant 0 <= k <= n
        invariant State(md, updatedWalls) == Row(s0, i, key, delta, wn, k)
        invariant i < |md| && |md[i].walls| == n
      {
        AdjustWall(i, key, delta, wn, k);
        k := k + 1;
      }
    }

    // update_wall_length_by_dimension2: nothing for a washroom whose
    // dimension would pass its maximum, otherwise dimension3.
    method UpdateWallLengthByDimension2(room: string, key: string, delta: int) returns (err: Option<Error>)
      modifies this
      ensures Agrees(Dimension2(old(md), room, key, delta, old(updatedWalls)), err, State(md, updatedWalls))
      ensures err.Some? ==> md == old(md) && updatedWalls == old(updatedWalls)
    {
      if Exceeds(md, room, key, delta) {
        return None;
      }
      err := UpdateWallLengthByDimension3(room, key, delta);
    }

    // --- update_shifts_based_on_wall_availability and stichFloorplan ---

    method UpdateShiftsBasedOnWallAvailability(unshifted: string, shifted: string, key: string, length: int, overlap: bool)
      returns (err: Option<Error>)
      modifies this
      ensures var s := UpdateShifts(State(old(md), old(updatedWalls)), unshifted, shifted, key, length, overlap);
        (s.Ok? ==> err.None? && State(md, updatedWalls) == s.value) &&
        (s.Err? ==> err == Some(s.error))
    {
      // The tests of is_direction_free and opposite_direction, in order,
      // decide which resize runs.
      var strategy := ChooseStrategy(md, unshifted, shifted, key, overlap);
      if strategy.Err? {
        err := Some(strategy.error);
      } else {
        err := RunStrategy(strategy.value, unshifted, shifted, key, length);
      }
    }

    // The resize the chosen strategy runs.
    method RunStrategy(strategy: Strategy, unshifted: string, shifted: string, key: string, length: int)
      returns (err: Option<Error>)
      modifies this
      ensures Agrees(RunResize(State(old(md), old(updatedWalls)), strategy, unshifted, shifted, key, length), err, State(md, updatedWalls))
    {
      ghost var r := RunResize(State(md, updatedWalls), strategy, unshifted, shifted, key, length);
      match strategy
      case ShrinkShifted =>
        assert r == Dimension3(md, shifted, key, -length, updatedWalls);
        err := UpdateWallLengthByDimension3(shifted, key, -length);
      case GrowUnshifted =>
        assert r == Dimension2(md, unshifted, key, length, updatedWalls);
        err := UpdateWallLengthByDimension2(unshifted, key, length);
      case GrowShiftedOpposite(opp) =>
        assert r == Dimension2(md, shifted, opp, length, updatedWalls);
        err := UpdateWallLengthByDimension2(shifted, opp, length);
      case NoStrategy =>
        assert r == Ok(State(md, updatedWalls));
        err := None;
    }

    // stichFloorplan(shift_analysis_dict, metadata, overlap): a fresh
    // updated_walls set, then every shifted room with details, in order.
    method StichFloorplan(entries: seq<ShiftEntry>, overlap: bool) returns (err: Option<Error>)
      modifies this
      ensures var r := Stitch(old(md), entries, overlap);
        (r.Ok? ==> err.None? && md == r.value) && (r.Err? ==> err == Some(r.error))
    {
      ghost var s0 := State(md, {});
      updatedWalls := {};
      var j := 0;
      while j < |entries|
        invariant 0 <= j <= |entries|
        invariant RunTasks(s0, Tasks(entries[..j]), overlap) == Ok(State(md, updatedWalls))
      {
        assert entries[..j + 1][..j] == entries[..j];
        err := StitchEntry(s0, Tasks(entries[..j]), entries[j], overlap);
        if err.Some? {
          TasksPrefix(entries, j + 1);
          PrefixFails(s0, Tasks(entries[..j + 1]), Tasks(entries), overlap);
          return;
        }
        j := j + 1;
      }
      assert entries[..j] == entries;
      return None;
    }

    // One call of update_shifts_based_on_wall_availability, after the tasks
    // in before.
    method RunTask(ghost s0: State, ghost before: seq<Task>, task: Task, overlap: bool) returns (err: Option<Error>)
      requires RunTasks(s0, before, overlap) == Ok(State(md, updatedWalls))
      modifies this
      ensures err.None? ==> RunTasks(s0, before + [task], overlap) == Ok(State(md, updatedWalls))
      ensures err.Some? ==> RunTasks(s0, before + [task], overlap) == Err(err.value)
    {
      ghost var st := State(md, updatedWalls);
      err := UpdateShiftsBasedOnWallAvailability(task.unshifted, task.shifted, task.direction, task.length, overlap);
      if err.Some? {
        TaskFails(s0, before, before + [task], task, overlap, st, err.value);
      } else {
        TaskKeeps(s0, before, before + [task], task, overlap, st, State(md, updatedWalls));
      }
    }

    // The inner loop over the shifted rooms of one entry of the analysis,
    // after the entries in done.
    method StitchEntry(ghost s0: State, ghost done: seq<Task>, e: ShiftEntry, overlap: bool) returns (err: Option<Error>)
      requires RunTasks(s0, done, overlap) == Ok(State(md, updatedWalls))
      modifies this
      ensures err.None? ==> RunTasks(s0, done + EntryTasks(e), overlap) == Ok(State(md, updatedWalls))
      ensures err.Some? ==> RunTasks(s0, done + EntryTasks(e), overlap) == Err(err.value)
    {
      var t := 0;
      ghost var cur := done + EntryTasks(ShiftEntry(e.unshifted, e.shifted[..0]));
      EntryTasksNone(s0, done, e, overlap);
      while t < |e.shifted|
        invariant 0 <= t <= |e.shifted|
        invariant cur == done + EntryTasks(ShiftEntry(e.unshifted, e.shifted[..t]))
        invariant RunTasks(s0, cur, overlap) == Ok(State(md, updatedWalls))
      {
        var room, d := e.shifted[t].0, e.shifted[t].1;
        if d.Some? {
          var task := Task(e.unshifted, room, d.value.direction, d.value.length);
          EntryTaskAdded(done, e.unshifted, e.shifted, t);
          err := RunTask(s0, cur, task, overlap);
          cur := cur + [task];
          if err.Some? {
            EntryFails(s0, done, e, t, overlap);
            return;
          }
        } else {
          EntryTaskSkipped(done, e.unshifted, e.shifted, t);
        }
        t := t + 1;
      }
      EntryTasksAll(s0, done, e, overlap);
      return None;
    }

    // --- validate_room_dimensions ---

    method ValidateRoomDimensions(cs: Constraints) returns (messages: seq<Violation>)
      ensures messages == Violations(md, cs)
    {
      messages := [];
      var m := 0;
      while m < |md|
        invariant 0 <= m <= |md|
        invariant messages == Violations(md[..m], cs)
      {
        assert md[..m + 1][..m] == md[..m];
        var r := md[m];
        if OutOfBounds(r, cs, Width) {
          messages := messages + [Violation(r.name, Width, Measure(r, Width))];
        }
        if OutOfBounds(r, cs, Height) {
          messages := messages + [Violation(r.name, Height, Measure(r, Height))];
        }
        m := m + 1;
      }
      assert md[..m] == md;
    }
  }

  // A resize method's error status and new state agree with the result of
  // its specification function.
  predicate Agrees(r: Result<State>, err: Option<Error>, s: State) {
    match r
    case Ok(v) => err.None? && s == v
    case Err(e) => err == Some(e)
  }

  lemma RowsSnoc(s0: State, i: nat, key: string, delta: int, wns: seq<nat>, j: nat)
    requires i < |s0.md| && j < |wns|
    ensures var mid := Rows(s0, i, key, delta, wns[..j]);
      Rows(s0, i, key, delta, wns[..j + 1]) == Row(mid, i, key, delta, wns[j], |mid.md[i].walls|)
  {
    assert wns[..j + 1][..j] == wns[..j];
  }

  // The loop of StitchEntry over a prefix of the shifted rooms: nothing
  // before it, one task more for each room given a shift, and all of them at
  // the end.
  lemma EntryTasksNone(s0: State, done: seq<Task>, e: ShiftEntry, overlap: bool)
    ensures RunTasks(s0, done + EntryTasks(ShiftEntry(e.unshifted, e.shifted[..0])), overlap) == RunTasks(s0, done, overlap)
  {
    assert EntryTasks(ShiftEntry(e.unshifted, e.shifted[..0])) == [];
    assert done + [] == done;
  }

  lemma EntryTaskAdded(done: seq<Task>, u: string, sh: seq<(string, Option<ShiftDetail>)>, t: nat)
    requires t < |sh| && sh[t].1.Some?
    ensures done + EntryTasks(ShiftEntry(u, sh[..t + 1])) ==
      done + EntryTasks(ShiftEntry(u, sh[..t])) + [Task(u, sh[t].0, sh[t].1.value.direction, sh[t].1.value.length)]
  {
    assert sh[..t + 1][..t] == sh[..t];
  }

  lemma EntryTaskSkipped(done: seq<Task>, u: string, sh: seq<(string, Option<ShiftDetail>)>, t: nat)
    requires t < |sh| && sh[t].1.None?
    ensures done + EntryTasks(ShiftEntry(u, sh[..t + 1])) == done + EntryTasks(ShiftEntry(u, sh[..t]))
  {
    assert sh[..t + 1][..t] == sh[..t];
    assert EntryTasks(ShiftEntry(u, sh[..t + 1])) == EntryTasks(ShiftEntry(u, sh[..t])) + [];
  }

  lemma TaskKeeps(s0: State, before: seq<Task>, after: seq<Task>, task: Task, overlap: bool, st: State, st2: State)
    requires RunTasks(s0, before, overlap) == Ok(st) && after == before + [task]
    requires UpdateShifts(st, task.unshifted, task.shifted, task.direction, task.length, overlap) == Ok(st2)
    ensures RunTasks(s0, after, overlap) == Ok(st2)
  {
    RunTasksSnoc(s0, before, task, overlap);
  }

  lemma TaskFails(s0: State, before: seq<Task>, after: seq<Task>, task: Task, overlap: bool, st: State, err: Error)
    requires RunTasks(s0, before, overlap) == Ok(st) && after == before + [task]
    requires UpdateShifts(st, task.unshifted, task.shifted, task.direction, task.length, overlap) == Err(err)
    ensures RunTasks(s0, after, overlap) == Err(err)
  {
    RunTasksSnoc(s0, before, task, overlap);
  }

  lemma EntryTasksAll(s0: State, done: seq<Task>, e: ShiftEntry, overlap: bool)
    ensures RunTasks(s0, done + EntryTasks(ShiftEntry(e.unshifted, e.shifted[..|e.shifted|])), overlap) ==
            RunTasks(s0, done + EntryTasks(e), overlap)
  {
    assert e.shifted[..|e.shifted|] == e.shifted;
    assert ShiftEntry(e.unshifted, e.shifted) == e;
  }

  lemma EntryFails(s0: State, done: seq<Task>, e: ShiftEntry, t: nat, overlap: bool)
    requires t < |e.shifted|
    requires RunTasks(s0, done + EntryTasks(ShiftEntry(e.unshifted, e.shifted[..t + 1])), overlap).Err?
    ensures RunTasks(s0, done + EntryTasks(e), overlap) ==
            RunTasks(s0, done + EntryTasks(ShiftEntry(e.unshifted, e.shifted[..t + 1])), overlap)
  {
    EntryTasksPrefix(e.unshifted, e.shifted, t + 1);
    assert ShiftEntry(e.unshifted, e.shifted) == e;
    PrefixFails(s0, done + EntryTasks(ShiftEntry(e.unshifted, e.shifted[..t + 1])), done + EntryTasks(e), overlap);
  }

  // A failed prefix of a task list fails the whole run the same way.
  lemma {:induction false} RunTasksFailed(s: State, a: seq<Task>, b: seq<Task>, overlap: bool)
    requires RunTasks(s, a, overlap).Err?
    ensures RunTasks(s, a + b, overlap) == RunTasks(s, a, overlap)
    decreases |b|
  {
    if |b| > 0 {
      assert (a + b)[..|a + b| - 1] == a + b[..|b| - 1];
      RunTasksFailed(s, a, b[..|b| - 1], overlap);
    } else {
      assert a + b == a;
    }
  }

  lemma {:induction false} EntryTasksPrefix(u: string, sh: seq<(string, Option<ShiftDetail>)>, t: nat)
    requires t <= |sh|
    ensures EntryTasks(ShiftEntry(u, sh[..t])) <= EntryTasks(ShiftEntry(u, sh))
    decreases |sh| - t
  {
    if t < |sh| {
      EntryTasksPrefix(u, sh, t + 1);
      assert sh[..t + 1][..t] == sh[..t];
    } else {
      assert sh[..t] == sh;
    }
  }

  lemma {:induction false} TasksPrefix(entries: seq<ShiftEntry>, j: nat)
    requires j <= |entries|
    ensures Tasks(entries[..j]) <= Tasks(entries)
    decreases |entries| - j
  {
    if j < |entries| {
      TasksPrefix(entries, j + 1);
      assert entries[..j + 1][..j] == entries[..j];
    } else {
      assert entries[..j] == entries;
    }
  }

  lemma RunTasksSnoc(s: State, before: seq<Task>, t: Task, overlap: bool)
    requires RunTasks(s, before, overlap).Ok?
    ensures RunTasks(s, before + [t], overlap) ==
      UpdateShifts(RunTasks(s, before, overlap).value, t.unshifted, t.shifted, t.direction, t.length, overlap)
  {
    assert (before + [t])[..|before|] == before;
  }

  // A failed run fails every longer run the same way.
  lemma PrefixFails(s: State, p: seq<Task>, q: seq<Task>, overlap: bool)
    requires p <= q && RunTasks(s, p, overlap).Err?
    ensures RunTasks(s, q, overlap) == RunTasks(s, p, overlap)
  {
    assert q == p + q[|p|..];
    RunTasksFailed(s, p, q[|p|..], overlap);
  }
}
