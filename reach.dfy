// find_adjacent_rooms_in_direction of backend_project/src/new_room_maain.py:
// the rooms reached from a room by repeatedly stepping to a neighbour on the
// same side, a depth-first search that shares one growing set of found
// rooms.
module Reach {
  import opened Wrappers
  import opened Geometry
  import opened FloorPlan
  import Snap
  import opened Adjacency

  function Names(p: Plan): (r: set<string>)
    ensures forall x :: x in r <==> HasRoom(p, x)
  {
    set i | 0 <= i < |p| :: p[i].name
  }

  // adjacent_rooms[direction] as a set (the list is built from a set).
  function Adj(p: Plan, x: string, d: Direction): set<string> {
    match AdjacentRoomsSpec(x, p)
    case Ok(s) => Side(s, d)
    case Err(_) => {}
  }

  // The direction keys of find_adjacent_rooms; any other key fails.
  function DirectionOf(key: string): (r: Option<Direction>)
    ensures r.Some? ==> r.value != Unknown
  {
    if key == "North" then Some(North)
    else if key == "South" then Some(South)
    else if key == "East" then Some(East)
    else if key == "West" then Some(West)
    else None
  }

  // A sequence of rooms, each a neighbour of the one before on side d.
  ghost predicate Walk(p: Plan, d: Direction, path: seq<string>) {
    |path| >= 2 && forall i :: 0 <= i < |path| - 1 ==> path[i + 1] in Adj(p, path[i], d)
  }

  ghost predicate Reachable(p: Plan, d: Direction, x: string, y: string) {
    exists path :: Walk(p, d, path) && path[0] == x && path[|path| - 1] == y
  }

  // Neighbours are rooms of the plan.
  lemma AdjInPlan(p: Plan, x: string, d: Direction)
    ensures Adj(p, x, d) <= Names(p)
  {
    if AdjacentRoomsSpec(x, p).Ok? {
      var targets := p[IndexOf(p, x).value].walls;
      forall y | y in Adj(p, x, d) ensures HasRoom(p, y) {
        SidesIff(targets, p, x, d, y);
      }
    }
  }

  lemma ReachableStep(p: Plan, d: Direction, x: string, y: string)
    requires y in Adj(p, x, d)
    ensures Reachable(p, d, x, y)
  {
    assert Walk(p, d, [x, y]);
  }

  lemma ReachableThrough(p: Plan, d: Direction, x: string, y: string, z: string)
    requires y in Adj(p, x, d)
    requires Reachable(p, d, y, z)
    ensures Reachable(p, d, x, z)
  {
    var path :| Walk(p, d, path) && path[0] == y && path[|path| - 1] == z;
    var longer := [x] + path;
    forall i | 0 <= i < |longer| - 1 ensures longer[i + 1] in Adj(p, longer[i], d) {
      if i > 0 {
        assert longer[i] == path[i - 1] && longer[i + 1] == path[i];
      }
    }
    assert Walk(p, d, longer);
  }

  lemma SmallerRest(all: set<string>, found: set<string>, more: set<string>, y: string)
    requires found <= more && y in all && y !in more
    ensures |all - (more + {y})| < |all - found|
  {
    var a := all - (more + {y});
    var b := all - found;
    assert b == a + (b - a);
    assert a * (b - a) == {};
    assert y in b - a;
  }

  // Newly found rooms have all their neighbours on side d found.
  ghost predicate Closed(p: Plan, d: Direction, found: set<string>, r: set<string>) {
    forall y :: y in r - found ==> Adj(p, y, d) <= r
  }

  // Newly found rooms are reached from x.
  ghost predicate ReachedFrom(p: Plan, d: Direction, x: string, found: set<string>, r: set<string>) {
    forall y :: y in r - found ==> Reachable(p, d, x, y)
  }

  // One call of find_adjacent_rooms_in_direction with the set found so far:
  // every neighbour of x on side d ends up found, every newly found room has
  // all its neighbours on that side found, and is reached from x.
  method Explore(x: string, p: Plan, d: Direction, found: set<string>) returns (r: set<string>)
    requires HasRoom(p, x)
    requires found <= Names(p)
    ensures found <= r <= Names(p)
    ensures Adj(p, x, d) <= r
    ensures Closed(p, d, found, r)
    ensures ReachedFrom(p, d, x, found, r)
    decreases |Names(p) - found|, 1
  {
    var a := FindAdjacentRooms(x, p);
    AdjInPlan(p, x, d);
    var todo := Side(a.value, d);
    r := found;
    while todo != {}
      invariant todo <= Adj(p, x, d)
      invariant Adj(p, x, d) - todo <= r
      invariant found <= r <= Names(p)
      invariant Closed(p, d, found, r)
      invariant ReachedFrom(p, d, x, found, r)
      decreases |todo|
    {
      var y :| y in todo;
      r := ExploreNeighbour(x, y, p, d, found, r);
      todo := todo - {y};
    }
  }

  // One turn of the loop of that call: neighbour y of x is searched from
  // unless it is already found.
  method ExploreNeighbour(x: string, y: string, p: Plan, d: Direction, found: set<string>, r0: set<string>)
    returns (r: set<string>)
    requires y in Adj(p, x, d)
    requires found <= r0 <= Names(p)
    requires Closed(p, d, found, r0)
    requires ReachedFrom(p, d, x, found, r0)
    ensures r0 + {y} <= r <= Names(p)
    ensures Closed(p, d, found, r)
    ensures ReachedFrom(p, d, x, found, r)
    decreases |Names(p) - found|, 0
  {
    r := r0;
    if y !in r {
      AdjInPlan(p, x, d);
      SmallerRest(Names(p), found, r, y);
      r := Explore(y, p, d, r0 + {y});
      ClosedGrows(p, d, found, r0, y, r);
      ReachedGrows(p, d, x, found, r0, y, r);
    }
  }

  lemma ClosedGrows(p: Plan, d: Direction, found: set<string>, r0: set<string>, y: string, r: set<string>)
    requires Closed(p, d, found, r0) && r0 <= r
    requires Adj(p, y, d) <= r && Closed(p, d, r0 + {y}, r)
    ensures Closed(p, d, found, r)
  {
  }

  lemma ReachedGrows(p: Plan, d: Direction, x: string, found: set<string>, r0: set<string>, y: string, r: set<string>)
    requires y in Adj(p, x, d)
    requires ReachedFrom(p, d, x, found, r0)
    requires ReachedFrom(p, d, y, r0 + {y}, r)
    ensures ReachedFrom(p, d, x, found, r)
  {
    ReachableStep(p, d, x, y);
    forall z | z in r - found ensures Reachable(p, d, x, z) {
      if z !in r0 && z != y {
        ReachableThrough(p, d, x, y, z);
      }
    }
  }

  // The rooms found from x with nothing found before are exactly the rooms
  // that can be reached from x in one or more steps.
  lemma ExploreComplete(p: Plan, d: Direction, x: string, r: set<string>, path: seq<string>)
    requires Adj(p, x, d) <= r
    requires forall y :: y in r ==> Adj(p, y, d) <= r
    requires Walk(p, d, path) && path[0] == x
    ensures path[|path| - 1] in r
  {
    var i := 1;
    while i < |path| - 1
      invariant 1 <= i <= |path| - 1
      invariant path[i] in r
    {
      assert path[i + 1] in Adj(p, path[i], d);
      i := i + 1;
    }
  }

  // find_adjacent_rooms_in_direction(room_name, rooms, direction): the first
  // call snaps the plan in place (the repeated snaps of the recursive calls
  // change nothing); then the search fails for a diagonal wall or a missing
  // room, and the direction lookup fails for a key other than the four
  // sides.  unique is the set order of the snap.
  method FindAdjacentRoomsInDirection(name: string, rooms: Plan, key: string, unique: seq<int>)
    returns (snapped: Plan, r: Result<set<string>>)
    requires Snap.IsUniqueOrder(unique, rooms)
    ensures snapped == Snap.SnapPlan(rooms, AdjacencySnap, unique)
    ensures !Rectilinear(snapped) ==> r == Err(KeyError("diagonal"))
    ensures Rectilinear(snapped) && !HasRoom(snapped, name) ==> r == Err(KeyError(name))
    ensures Rectilinear(snapped) && HasRoom(snapped, name) && DirectionOf(key).None? ==> r == Err(KeyError(key))
    ensures r.Ok? ==> Rectilinear(snapped) && HasRoom(snapped, name) && DirectionOf(key).Some?
    ensures r.Ok? ==> forall y :: y in r.value <==> Reachable(snapped, DirectionOf(key).value, name, y)
  {
    var first;
    snapped, first := FindAdjacentRoomsSnapped(name, rooms, unique);
    if first.Err? {
      return snapped, Err(first.error);
    }
    var d := DirectionOf(key);
    if d.None? {
      return snapped, Err(KeyError(key));
    }
    var found := Explore(name, snapped, d.value, {});
    forall y ensures y in found <==> Reachable(snapped, d.value, name, y) {
      if Reachable(snapped, d.value, name, y) {
        var path :| Walk(snapped, d.value, path) && path[0] == name && path[|path| - 1] == y;
        ExploreComplete(snapped, d.value, name, found, path);
      }
    }
    r := Ok(found);
  }
}
