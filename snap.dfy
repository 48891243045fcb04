// Coordinate snapping: group_near_values, get_most_frequent_value and
// replace_near_values of backend_project/src/new_room_maain.py.  Every x and
// every y coordinate of the plan goes into one pool of values; values closer
// than the threshold to a group's first value join that group, and every
// coordinate is replaced by its group's most frequent value.
module Snap {
  import opened Geometry
  import opened FloorPlan

  predicate Near(a: int, b: int, threshold: int) { Abs(a - b) < threshold }

  // The values of s near base (resp. not near base), in order.
  function NearOf(s: seq<int>, base: int, threshold: int): (r: seq<int>)
    ensures |r| <= |s|
  {
    if |s| == 0 then []
    else NearOf(s[..|s| - 1], base, threshold) + (if Near(base, s[|s| - 1], threshold) then [s[|s| - 1]] else [])
  }

  function FarOf(s: seq<int>, base: int, threshold: int): (r: seq<int>)
    ensures |r| <= |s|
  {
    if |s| == 0 then []
    else FarOf(s[..|s| - 1], base, threshold) + (if Near(base, s[|s| - 1], threshold) then [] else [s[|s| - 1]])
  }

  // NearOf keeps exactly the values near base, FarOf exactly the others.
  lemma {:induction false} NearFarMembers(s: seq<int>, base: int, threshold: int)
    ensures forall v :: v in NearOf(s, base, threshold) <==> v in s && Near(base, v, threshold)
    ensures forall v :: v in FarOf(s, base, threshold) <==> v in s && !Near(base, v, threshold)
    decreases |s|
  {
    if |s| > 0 {
      var n := |s| - 1;
      NearFarMembers(s[..n], base, threshold);
      assert s == s[..n] + [s[n]];
    }
  }

  // group_near_values as a specification: the first remaining value opens a
  // group, the remaining values near it join the group, the others are
  // grouped in turn.
  function Groups(values: seq<int>, threshold: int): seq<seq<int>>
    decreases |values|
  {
    if |values| == 0 then []
    else
      var base := values[0];
      [[base] + NearOf(values[1..], base, threshold)] + Groups(FarOf(values[1..], base, threshold), threshold)
  }

  // list.remove: drop the first occurrence of v.
  function RemoveFirst(s: seq<int>, v: int): (r: seq<int>) {
    if |s| == 0 then []
    else if s[0] == v then s[1..]
    else [s[0]] + RemoveFirst(s[1..], v)
  }

  lemma {:induction false} RemoveFirstPast(a: seq<int>, v: int, b: seq<int>)
    requires v !in a
    ensures RemoveFirst(a + [v] + b, v) == a + b
    decreases |a|
  {
    if |a| == 0 {
      assert a + [v] + b == [v] + b;
    } else {
      assert (a + [v] + b)[1..] == a[1..] + [v] + b;
      RemoveFirstPast(a[1..], v, b);
      assert [a[0]] + (a[1..] + b) == a + b;
    }
  }

  lemma NearOfSnoc(s: seq<int>, k: nat, base: int, threshold: int)
    requires k < |s|
    ensures NearOf(s[..k + 1], base, threshold) ==
      NearOf(s[..k], base, threshold) + (if Near(base, s[k], threshold) then [s[k]] else [])
    ensures FarOf(s[..k + 1], base, threshold) ==
      FarOf(s[..k], base, threshold) + (if Near(base, s[k], threshold) then [] else [s[k]])
  {
    assert s[..k + 1][..k] == s[..k];
  }

  // One step of the sweep: a near value leaves the list...
  lemma SweepNearStep(copy: seq<int>, k: nat, base: int, threshold: int)
    requires k < |copy| && Near(base, copy[k], threshold)
    ensures NearOf(copy[..k + 1], base, threshold) == NearOf(copy[..k], base, threshold) + [copy[k]]
    ensures RemoveFirst(FarOf(copy[..k], base, threshold) + copy[k..], copy[k]) ==
      FarOf(copy[..k + 1], base, threshold) + copy[k + 1..]
  {
    var far := FarOf(copy[..k], base, threshold);
    NearOfSnoc(copy, k, base, threshold);
    NearFarMembers(copy[..k], base, threshold);
    assert far + copy[k..] == far + [copy[k]] + copy[k + 1..];
    RemoveFirstPast(far, copy[k], copy[k + 1..]);
  }

  // ... and a far one stays.
  lemma SweepFarStep(copy: seq<int>, k: nat, base: int, threshold: int)
    requires k < |copy| && !Near(base, copy[k], threshold)
    ensures NearOf(copy[..k + 1], base, threshold) == NearOf(copy[..k], base, threshold)
    ensures FarOf(copy[..k], base, threshold) + copy[k..] == FarOf(copy[..k + 1], base, threshold) + copy[k + 1..]
  {
    var far := FarOf(copy[..k], base, threshold);
    NearOfSnoc(copy, k, base, threshold);
    assert far + copy[k..] == (far + [copy[k]]) + copy[k + 1..];
  }

  // One sweep of group_near_values over a copy of the remaining values: every
  // value near base moves from the list into the group.
  method SweepNear(base: int, rest: seq<int>, threshold: int) returns (group: seq<int>, vs: seq<int>)
    ensures group == [base] + NearOf(rest, base, threshold)
    ensures vs == FarOf(rest, base, threshold)
  {
    vs := rest;
    group := [base];
    var copy := rest;
    var k := 0;
    while k < |copy|
      invariant 0 <= k <= |copy|
      invariant group == [base] + NearOf(copy[..k], base, threshold)
      invariant vs == FarOf(copy[..k], base, threshold) + copy[k..]
    {
      var v := copy[k];
      ghost var near := NearOf(copy[..k], base, threshold);
      if Abs(base - v) < threshold {
        SweepNearStep(copy, k, base, threshold);
        assert group + [v] == [base] + (near + [v]);
        group := group + [v];
        vs := RemoveFirst(vs, v);
      } else {
        SweepFarStep(copy, k, base, threshold);
      }
      k := k + 1;
    }
    assert copy[..k] == copy && copy[k..] == [];
    assert vs == FarOf(copy, base, threshold) + [];
  }

  // group_near_values: pop the first value and sweep the rest, until the
  // list is empty.
  method GroupNearValues(values: seq<int>, threshold: int) returns (groups: seq<seq<int>>)
    ensures groups == Groups(values, threshold)
  {
    var vs := values;
    groups := [];
    while |vs| > 0
      invariant groups + Groups(vs, threshold) == Groups(values, threshold)
      decreases |vs|
    {
      var base := vs[0];
      var group, far := SweepNear(base, vs[1..], threshold);
      assert Groups(vs, threshold) == [group] + Groups(far, threshold);
      groups := groups + [group];
      vs := far;
    }
  }

  // --- what the groups are ---

  function Flatten(groups: seq<seq<int>>): seq<int> {
    if |groups| == 0 then [] else groups[0] + Flatten(groups[1..])
  }

  lemma {:induction false} NearFarSplit(s: seq<int>, base: int, threshold: int)
    ensures multiset(NearOf(s, base, threshold)) + multiset(FarOf(s, base, threshold)) == multiset(s)
    decreases |s|
  {
    if |s| > 0 {
      var n := |s| - 1;
      NearFarSplit(s[..n], base, threshold);
      assert s == s[..n] + [s[n]];
    }
  }

  // The groups partition the values: together they hold every value exactly
  // as often as the input does.
  lemma {:induction false} GroupsPartition(values: seq<int>, threshold: int)
    ensures multiset(Flatten(Groups(values, threshold))) == multiset(values)
    decreases |values|
  {
    if |values| > 0 {
      var base := values[0];
      var far := FarOf(values[1..], base, threshold);
      GroupsPartition(far, threshold);
      NearFarSplit(values[1..], base, threshold);
      assert values == [base] + values[1..];
      var gs := Groups(values, threshold);
      assert gs[1..] == Groups(far, threshold);
    }
  }

  // Every group is non-empty and every member is near the group's first value.
  lemma {:induction false} GroupsAreNear(values: seq<int>, threshold: int)
    ensures forall g :: g in Groups(values, threshold) ==>
      |g| > 0 && forall j :: 0 < j < |g| ==> Near(g[0], g[j], threshold)
    decreases |values|
  {
    if |values| > 0 {
      var base := values[0];
      var far := FarOf(values[1..], base, threshold);
      GroupsAreNear(far, threshold);
      var g := [base] + NearOf(values[1..], base, threshold);
      NearFarMembers(values[1..], base, threshold);
      forall j | 0 < j < |g| ensures Near(g[0], g[j], threshold) {
        assert g[j] in NearOf(values[1..], base, threshold);
      }
    }
  }

  // Every value of the groups comes from the input.
  lemma {:induction false} GroupsFromValues(values: seq<int>, threshold: int)
    ensures forall g, v :: g in Groups(values, threshold) && v in g ==> v in values
  {
    GroupsPartition(values, threshold);
    forall g, v | g in Groups(values, threshold) && v in g ensures v in values {
      FlattenHolds(Groups(values, threshold), g, v);
      assert v in multiset(Flatten(Groups(values, threshold)));
    }
  }

  lemma {:induction false} FlattenHolds(groups: seq<seq<int>>, g: seq<int>, v: int)
    requires g in groups && v in g
    ensures v in Flatten(groups)
    decreases |groups|
  {
    if groups[0] != g {
      FlattenHolds(groups[1..], g, v);
    }
  }

  // The first values of the groups are pairwise at least the threshold apart.
  lemma {:induction false} BasesApart(values: seq<int>, threshold: int)
    ensures var gs := Groups(values, threshold);
      (forall i :: 0 <= i < |gs| ==> |gs[i]| > 0) &&
      forall i, j :: 0 <= i < j < |gs| ==> !Near(gs[i][0], gs[j][0], threshold)
    decreases |values|
  {
    if |values| > 0 {
      var base := values[0];
      var far := FarOf(values[1..], base, threshold);
      BasesApart(far, threshold);
      GroupsFromValues(far, threshold);
      GroupsAreNear(far, threshold);
      NearFarMembers(values[1..], base, threshold);
      var gs := Groups(values, threshold);
      assert gs[1..] == Groups(far, threshold);
      forall i | 0 <= i < |gs| ensures |gs[i]| > 0 {
        if i > 0 {
          assert gs[i] == gs[1..][i - 1];
        }
      }
      forall i, j | 0 <= i < j < |gs| ensures !Near(gs[i][0], gs[j][0], threshold) {
        if i > 0 {
          assert gs[i] == gs[1..][i - 1] && gs[j] == gs[1..][j - 1];
        } else {
          assert gs[j] == gs[1..][j - 1];
          assert gs[j] in Groups(far, threshold) && gs[j][0] in gs[j];
          assert gs[j][0] in far;
          assert Abs(base - gs[j][0]) == Abs(gs[j][0] - base);
        }
      }
    }
  }

  // --- get_most_frequent_value ---

  function Count(g: seq<int>, v: int): nat { multiset(g)[v] }

  // Counter(group).most_common(1)[0][0] over g[..k]: the first value of
  // highest count (a later value replaces it only with a strictly higher count).
  function MostCommonUpTo(g: seq<int>, k: nat): (r: int)
    requires 0 < k <= |g|
    ensures r in g[..k]
    ensures forall j :: 0 <= j < k ==> Count(g, g[j]) <= Count(g, r)
  {
    if k == 1 then g[0]
    else
      var best := MostCommonUpTo(g, k - 1);
      assert g[..k - 1] <= g[..k];
      if Count(g, g[k - 1]) > Count(g, best) then g[k - 1] else best
  }

  function MostCommon(g: seq<int>): (r: int)
    requires |g| > 0
    ensures r in g && forall v :: v in g ==> Count(g, v) <= Count(g, r)
  {
    assert g[..|g|] == g;
    MostCommonUpTo(g, |g|)
  }

  // In a group without repeated values, the most frequent value is the first.
  lemma {:induction false} MostCommonOfDistinct(g: seq<int>, k: nat)
    requires 0 < k <= |g|
    requires forall i, j :: 0 <= i < j < |g| ==> g[i] != g[j]
    ensures MostCommonUpTo(g, k) == g[0]
    decreases k
  {
    if k > 1 {
      MostCommonOfDistinct(g, k - 1);
      forall v | v in g ensures Count(g, v) == 1 {
        var i :| 0 <= i < |g| && g[i] == v;
        DistinctCount(g, i);
      }
    }
  }

  lemma {:induction false} DistinctCount(g: seq<int>, i: nat)
    requires i < |g|
    requires forall a, b :: 0 <= a < b < |g| ==> g[a] != g[b]
    ensures Count(g, g[i]) == 1
  {
    assert g == g[..i] + [g[i]] + g[i + 1..];
    assert g[i] !in g[..i] && g[i] !in g[i + 1..];
    assert multiset(g) == multiset(g[..i]) + multiset([g[i]]) + multiset(g[i + 1..]);
  }

  // --- replace_near_values ---

  // The replacement of one coordinate: each group in turn, in dictionary
  // order, replaces the current value by its most frequent value when the
  // current value is a member.
  function Replace(v: int, groups: seq<seq<int>>): int
    decreases |groups|
  {
    if |groups| == 0 then v
    else
      var v' := if |groups[0]| > 0 && v in groups[0] then MostCommon(groups[0]) else v;
      Replace(v', groups[1..])
  }

  function SnapPoint(p: Point, groups: seq<seq<int>>): Point {
    Point(Replace(p.x, groups), Replace(p.y, groups))
  }

  function SnapWalls(walls: seq<Wall>, groups: seq<seq<int>>): (r: seq<Wall>)
    ensures |r| == |walls|
  {
    if |walls| == 0 then []
    else [Wall(SnapPoint(walls[0].start, groups), SnapPoint(walls[0].end, groups))] + SnapWalls(walls[1..], groups)
  }

  function SnapRooms(rooms: Plan, groups: seq<seq<int>>): (r: Plan)
    ensures |r| == |rooms|
  {
    if |rooms| == 0 then []
    else [Room(rooms[0].name, SnapWalls(rooms[0].walls, groups))] + SnapRooms(rooms[1..], groups)
  }

  lemma {:induction false} SnapWallsAt(walls: seq<Wall>, groups: seq<seq<int>>, k: nat)
    requires k < |walls|
    ensures SnapWalls(walls, groups)[k] == Wall(SnapPoint(walls[k].start, groups), SnapPoint(walls[k].end, groups))
    decreases k
  {
    if k > 0 {
      SnapWallsAt(walls[1..], groups, k - 1);
    }
  }

  // Snapping keeps every room's name and number of walls and moves each
  // point to its snapped point.
  lemma {:induction false} SnapRoomsAt(rooms: Plan, groups: seq<seq<int>>, i: nat)
    requires i < |rooms|
    ensures SnapRooms(rooms, groups)[i] == Room(rooms[i].name, SnapWalls(rooms[i].walls, groups))
    decreases i
  {
    if i > 0 {
      SnapRoomsAt(rooms[1..], groups, i - 1);
    }
  }

  // all_values: the x and y of every point of every wall, in order.
  function WallValues(walls: seq<Wall>): seq<int> {
    if |walls| == 0 then []
    else [walls[0].start.x, walls[0].start.y, walls[0].end.x, walls[0].end.y] + WallValues(walls[1..])
  }

  function AllValues(rooms: Plan): seq<int> {
    if |rooms| == 0 then [] else WallValues(rooms[0].walls) + AllValues(rooms[1..])
  }

  predicate Distinct(s: seq<int>) {
    forall i, j :: 0 <= i < j < |s| ==> s[i] != s[j]
  }

  // list(set(all_values)): the distinct values in the unspecified order of a
  // Python set, which is why the order is a parameter of the model.
  ghost predicate IsUniqueOrder(unique: seq<int>, rooms: Plan) {
    Distinct(unique) && (forall v :: v in unique ==> v in AllValues(rooms)) && (forall v :: v in AllValues(rooms) ==> v in unique)
  }

  // replace_near_values as a specification.
  function SnapPlan(rooms: Plan, threshold: int, unique: seq<int>): Plan {
    SnapRooms(rooms, Groups(unique, threshold))
  }

  // The inner loop of replace_near_values over one room's walls.
  method SnapRoomWalls(walls: seq<Wall>, groups: seq<seq<int>>) returns (out: seq<Wall>)
    ensures out == SnapWalls(walls, groups)
  {
    out := [];
    var k := 0;
    while k < |walls|
      invariant 0 <= k <= |walls|
      invariant out == SnapWalls(walls, groups)[..k]
    {
      var w := walls[k];
      SnapWallsAt(walls, groups, k);
      out := out + [Wall(SnapPoint(w.start, groups), SnapPoint(w.end, groups))];
      assert SnapWalls(walls, groups)[..k + 1] == SnapWalls(walls, groups)[..k] + [SnapWalls(walls, groups)[k]];
      k := k + 1;
    }
    assert SnapWalls(walls, groups)[..k] == SnapWalls(walls, groups);
  }

  // The outer loop of replace_near_values: every room in dictionary order.
  method SnapAllRooms(rooms: Plan, groups: seq<seq<int>>) returns (r: Plan)
    ensures r == SnapRooms(rooms, groups)
  {
    r := [];
    var i := 0;
    while i < |rooms|
      invariant 0 <= i <= |rooms|
      invariant r == SnapRooms(rooms, groups)[..i]
    {
      var out := SnapRoomWalls(rooms[i].walls, groups);
      SnapRoomsAt(rooms, groups, i);
      r := r + [Room(rooms[i].name, out)];
      assert SnapRooms(rooms, groups)[..i + 1] == SnapRooms(rooms, groups)[..i] + [SnapRooms(rooms, groups)[i]];
      i := i + 1;
    }
    assert SnapRooms(rooms, groups)[..i] == SnapRooms(rooms, groups);
  }

  // replace_near_values: group the distinct values, then snap every
  // coordinate of every room.
  method ReplaceNearValues(rooms: Plan, threshold: int, unique: seq<int>) returns (r: Plan)
    requires IsUniqueOrder(unique, rooms)
    ensures r == SnapPlan(rooms, threshold, unique)
  {
    var groups := GroupNearValues(unique, threshold);
    r := SnapAllRooms(rooms, groups);
  }
}

module SnapProperties {
  import opened Geometry
  import opened FloorPlan
  import opened Snap

  lemma {:induction false} FiltersKeepDistinct(s: seq<int>, base: int, threshold: int)
    requires Distinct(s)
    ensures Distinct(NearOf(s, base, threshold)) && Distinct(FarOf(s, base, threshold))
    decreases |s|
  {
    if |s| > 0 {
      var n := |s| - 1;
      assert Distinct(s[..n]);
      FiltersKeepDistinct(s[..n], base, threshold);
      NearFarMembers(s[..n], base, threshold);
      assert s[n] !in s[..n];
    }
  }

  // A value that is in no group is left alone.
  lemma {:induction false} ReplaceAbsent(v: int, values: seq<int>, threshold: int)
    requires v !in values
    ensures Replace(v, Groups(values, threshold)) == v
    decreases |values|
  {
    if |values| > 0 {
      var base := values[0];
      var far := FarOf(values[1..], base, threshold);
      NearFarMembers(values[1..], base, threshold);
      var gs := Groups(values, threshold);
      assert gs[0] == [base] + NearOf(values[1..], base, threshold);
      assert v !in gs[0];
      assert gs[1..] == Groups(far, threshold);
      ReplaceAbsent(v, far, threshold);
    }
  }

  // With distinct values, each value is snapped to the first value of its
  // group: a value of the input within the threshold of it.
  lemma {:induction false} SnapToBase(values: seq<int>, threshold: int, v: int)
    requires Distinct(values) && v in values
    ensures var gs := Groups(values, threshold); var r := Replace(v, gs);
      r in values && (r == v || Near(r, v, threshold)) &&
      exists i :: 0 <= i < |gs| && v in gs[i] && r == gs[i][0]
    decreases |values|
  {
    var base := values[0];
    var rest := values[1..];
    var far := FarOf(rest, base, threshold);
    var g0 := [base] + NearOf(rest, base, threshold);
    var gs := Groups(values, threshold);
    assert gs[0] == g0 && gs[1..] == Groups(far, threshold);
    NearFarMembers(rest, base, threshold);
    assert Distinct(rest);
    FiltersKeepDistinct(rest, base, threshold);
    assert base !in rest;
    if v in g0 {
      assert Distinct(g0);
      MostCommonOfDistinct(g0, |g0|);
      assert g0[..|g0|] == g0;
      assert MostCommon(g0) == base;
      ReplaceAbsent(base, far, threshold);
      assert Replace(v, gs) == base;
      assert v == base || Near(base, v, threshold);
      assert v in gs[0];
    } else {
      assert v in far;
      SnapToBase(far, threshold, v);
      var r := Replace(v, Groups(far, threshold));
      assert Replace(v, gs) == r;
      var i :| 0 <= i < |Groups(far, threshold)| && v in Groups(far, threshold)[i] && r == Groups(far, threshold)[i][0];
      assert gs[i + 1] == Groups(far, threshold)[i];
      assert r in far;
    }
  }

  predicate Apart(u: seq<int>, threshold: int) {
    forall i, j :: 0 <= i < |u| && 0 <= j < |u| && i != j ==> !Near(u[i], u[j], threshold)
  }

  lemma {:induction false} FiltersOfFar(s: seq<int>, base: int, threshold: int)
    requires forall k :: 0 <= k < |s| ==> !Near(base, s[k], threshold)
    ensures NearOf(s, base, threshold) == [] && FarOf(s, base, threshold) == s
    decreases |s|
  {
    if |s| > 0 {
      var n := |s| - 1;
      FiltersOfFar(s[..n], base, threshold);
      assert s == s[..n] + [s[n]];
    }
  }

  // When the values are pairwise apart, every group is a single value and
  // snapping changes nothing.
  lemma {:induction false} ReplaceFixed(u: seq<int>, threshold: int, v: int)
    requires Distinct(u) && Apart(u, threshold)
    ensures Replace(v, Groups(u, threshold)) == v
    decreases |u|
  {
    if |u| > 0 {
      var rest := u[1..];
      forall k | 0 <= k < |rest| ensures !Near(u[0], rest[k], threshold) {
        assert rest[k] == u[k + 1];
      }
      FiltersOfFar(rest, u[0], threshold);
      var gs := Groups(u, threshold);
      assert gs[0] == [u[0]] && gs[1..] == Groups(rest, threshold);
      assert Distinct(rest) && Apart(rest, threshold) by {
        forall i, j | 0 <= i < |rest| && 0 <= j < |rest| && i != j
          ensures !Near(rest[i], rest[j], threshold) && (i < j ==> rest[i] != rest[j])
        {
          assert rest[i] == u[i + 1] && rest[j] == u[j + 1];
        }
      }
      if v == u[0] {
        assert [v][..1] == [v];
        assert MostCommon([v]) == v;
        assert v !in rest;
        ReplaceAbsent(v, rest, threshold);
      } else {
        ReplaceFixed(rest, threshold, v);
      }
    }
  }

  // The snapped values of the walls are the snapped images of their values.
  lemma {:induction false} SnappedWallValues(walls: seq<Wall>, gs: seq<seq<int>>)
    ensures forall w :: w in WallValues(SnapWalls(walls, gs)) ==>
      exists v :: v in WallValues(walls) && w == Replace(v, gs)
    decreases |walls|
  {
    if |walls| > 0 {
      SnappedWallValues(walls[1..], gs);
      var a := walls[0];
      assert SnapWalls(walls, gs) == [Wall(SnapPoint(a.start, gs), SnapPoint(a.end, gs))] + SnapWalls(walls[1..], gs);
      forall w | w in WallValues(SnapWalls(walls, gs))
        ensures exists v :: v in WallValues(walls) && w == Replace(v, gs)
      {
        if w in WallValues(SnapWalls(walls[1..], gs)) {
          var v :| v in WallValues(walls[1..]) && w == Replace(v, gs);
          assert v in WallValues(walls);
        } else if w == Replace(a.start.x, gs) {
          assert a.start.x in WallValues(walls);
        } else if w == Replace(a.start.y, gs) {
          assert a.start.y in WallValues(walls);
        } else if w == Replace(a.end.x, gs) {
          assert a.end.x in WallValues(walls);
        } else {
          assert a.end.y in WallValues(walls);
        }
      }
    }
  }

  lemma {:induction false} SnappedValues(rooms: Plan, gs: seq<seq<int>>)
    ensures forall w :: w in AllValues(SnapRooms(rooms, gs)) ==>
      exists v :: v in AllValues(rooms) && w == Replace(v, gs)
    decreases |rooms|
  {
    if |rooms| > 0 {
      SnappedValues(rooms[1..], gs);
      SnappedWallValues(rooms[0].walls, gs);
      var head := SnapWalls(rooms[0].walls, gs);
      assert SnapRooms(rooms, gs) == [Room(rooms[0].name, head)] + SnapRooms(rooms[1..], gs);
      assert AllValues(SnapRooms(rooms, gs)) == WallValues(head) + AllValues(SnapRooms(rooms[1..], gs));
      forall w | w in AllValues(SnapRooms(rooms, gs))
        ensures exists v :: v in AllValues(rooms) && w == Replace(v, gs)
      {
        if w in WallValues(head) {
          var v :| v in WallValues(rooms[0].walls) && w == Replace(v, gs);
          assert v in AllValues(rooms);
        } else {
          var v :| v in AllValues(rooms[1..]) && w == Replace(v, gs);
          assert v in AllValues(rooms);
        }
      }
      assert forall w :: w in AllValues(SnapRooms(rooms, gs)) ==> exists v :: v in AllValues(rooms) && w == Replace(v, gs);
    } else {
      assert SnapRooms(rooms, gs) == [];
    }
  }

  // Snapping with groups that fix every value leaves the walls unchanged.
  lemma {:induction false} SnapWallsIdentity(walls: seq<Wall>, gs: seq<seq<int>>)
    requires forall w :: w in WallValues(walls) ==> Replace(w, gs) == w
    ensures SnapWalls(walls, gs) == walls
    decreases |walls|
  {
    if |walls| > 0 {
      SnapWallsIdentity(walls[1..], gs);
      var a := walls[0];
      assert a.start.x in WallValues(walls) && a.start.y in WallValues(walls);
      assert a.end.x in WallValues(walls) && a.end.y in WallValues(walls);
    }
  }

  lemma {:induction false} SnapRoomsIdentity(rooms: Plan, gs: seq<seq<int>>)
    requires forall w :: w in AllValues(rooms) ==> Replace(w, gs) == w
    ensures SnapRooms(rooms, gs) == rooms
    decreases |rooms|
  {
    if |rooms| > 0 {
      SnapWallsIdentity(rooms[0].walls, gs);
      SnapRoomsIdentity(rooms[1..], gs);
    }
  }

  // Every snapped value is the first value of one of the groups.
  lemma SnappedAreBases(rooms: Plan, threshold: int, unique: seq<int>, w: int)
    requires IsUniqueOrder(unique, rooms)
    requires w in AllValues(SnapPlan(rooms, threshold, unique))
    ensures var gs := Groups(unique, threshold);
      exists i :: 0 <= i < |gs| && |gs[i]| > 0 && w == gs[i][0]
  {
    var gs := Groups(unique, threshold);
    SnappedValues(rooms, gs);
    var v :| v in AllValues(rooms) && w == Replace(v, gs);
    SnapToBase(unique, threshold, v);
    GroupsAreNear(unique, threshold);
  }

  // replace_near_values is idempotent: snapping the snapped plan again, with
  // the distinct values of the snapped plan in any order, changes nothing.
  lemma SnapIdempotent(rooms: Plan, threshold: int, unique: seq<int>, unique2: seq<int>)
    requires IsUniqueOrder(unique, rooms)
    requires IsUniqueOrder(unique2, SnapPlan(rooms, threshold, unique))
    ensures SnapPlan(SnapPlan(rooms, threshold, unique), threshold, unique2) == SnapPlan(rooms, threshold, unique)
  {
    var snapped := SnapPlan(rooms, threshold, unique);
    var gs := Groups(unique, threshold);
    BasesApart(unique, threshold);
    forall i, j | 0 <= i < |unique2| && 0 <= j < |unique2| && i != j
      ensures !Near(unique2[i], unique2[j], threshold)
    {
      assert unique2[i] in AllValues(snapped) && unique2[j] in AllValues(snapped);
      SnappedAreBases(rooms, threshold, unique, unique2[i]);
      SnappedAreBases(rooms, threshold, unique, unique2[j]);
      var a :| 0 <= a < |gs| && |gs[a]| > 0 && unique2[i] == gs[a][0];
      var b :| 0 <= b < |gs| && |gs[b]| > 0 && unique2[j] == gs[b][0];
      assert unique2[i] != unique2[j];
      assert a != b;
      assert Abs(unique2[i] - unique2[j]) == Abs(unique2[j] - unique2[i]);
    }
    forall w | w in AllValues(snapped) ensures Replace(w, Groups(unique2, threshold)) == w {
      ReplaceFixed(unique2, threshold, w);
    }
    SnapRoomsIdentity(snapped, Groups(unique2, threshold));
  }
}
