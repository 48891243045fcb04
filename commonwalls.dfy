// The common-wall map and lost-connection detection:
// find_and_display_common_walls and analyze_wall_changes of
// backend_project/src/new_room_maain.py.  is_overlapping_or_touching1 has
// the same body as is_overlapping_or_touching, so both are
// Geometry.IsOverlappingOrTouching here.
module CommonWalls {
  import opened Wrappers
  import opened Geometry
  import opened FloorPlan

  // common_walls_info[(first, second)]: the overlapping wall pairs, in loop order.
  datatype Entry = Entry(first: string, second: string, walls: seq<(Wall, Wall)>)
  type WallMap = seq<Entry>

  // The pairs (a, b) with a from l1 and b from l2 that overlap, l1-major.
  function PairsWith(a: Wall, l2: seq<Wall>): seq<(Wall, Wall)> {
    if |l2| == 0 then []
    else PairsWith(a, l2[..|l2| - 1]) + (if IsOverlappingOrTouching(a, l2[|l2| - 1]) then [(a, l2[|l2| - 1])] else [])
  }

  function CommonOf(l1: seq<Wall>, l2: seq<Wall>): seq<(Wall, Wall)> {
    if |l1| == 0 then [] else CommonOf(l1[..|l1| - 1], l2) + PairsWith(l1[|l1| - 1], l2)
  }

  // The entries for room i paired with rooms i + 1 .. m - 1, in order.
  function RowUpTo(p: Plan, i: nat, m: nat): WallMap
    requires i < m <= |p|
    decreases m
  {
    if m == i + 1 then []
    else
      var common := CommonOf(p[i].walls, p[m - 1].walls);
      RowUpTo(p, i, m - 1) + (if |common| > 0 then [Entry(p[i].name, p[m - 1].name, common)] else [])
  }

  // find_and_display_common_walls over the first n rooms as first member.
  function CommonUpTo(p: Plan, n: nat): WallMap
    requires n <= |p|
  {
    if n == 0 then [] else CommonUpTo(p, n - 1) + RowUpTo(p, n - 1, |p|)
  }

  function CommonWallsSpec(p: Plan): WallMap {
    CommonUpTo(p, |p|)
  }

  // The two innermost loops: every wall pair of two rooms.
  method CommonWallsOfRooms(l1: seq<Wall>, l2: seq<Wall>) returns (common: seq<(Wall, Wall)>)
    ensures common == CommonOf(l1, l2)
  {
    common := [];
    var a := 0;
    while a < |l1|
      invariant 0 <= a <= |l1|
      invariant common == CommonOf(l1[..a], l2)
    {
      assert l1[..a + 1][..a] == l1[..a];
      var b := 0;
      ghost var before := common;
      while b < |l2|
        invariant 0 <= b <= |l2|
        invariant common == before + PairsWith(l1[a], l2[..b])
      {
        assert l2[..b + 1][..b] == l2[..b];
        if IsOverlappingOrTouching(l1[a], l2[b]) {
          common := common + [(l1[a], l2[b])];
        }
        b := b + 1;
      }
      assert l2[..b] == l2;
      a := a + 1;
    }
    assert l1[..a] == l1;
  }

  // find_and_display_common_walls: every pair i < j in dictionary order; a
  // pair is recorded only when it has common walls.
  method FindCommonWalls(p: Plan) returns (info: WallMap)
    ensures info == CommonWallsSpec(p)
  {
    info := [];
    var i := 0;
    while i < |p|
      invariant 0 <= i <= |p|
      invariant info == CommonUpTo(p, i)
    {
      var j := i + 1;
      ghost var before := info;
      while j < |p|
        invariant i + 1 <= j <= |p|
        invariant info == before + RowUpTo(p, i, j)
      {
        var common := CommonWallsOfRooms(p[i].walls, p[j].walls);
        if |common| > 0 {
          info := info + [Entry(p[i].name, p[j].name, common)];
        }
        j := j + 1;
      }
      i := i + 1;
    }
  }

  // --- what the map holds ---

  lemma {:induction false} PairsWithIff(a: Wall, l2: seq<Wall>, pr: (Wall, Wall))
    ensures pr in PairsWith(a, l2) <==> pr.0 == a && pr.1 in l2 && IsOverlappingOrTouching(a, pr.1)
    decreases |l2|
  {
    if |l2| > 0 {
      var n := |l2| - 1;
      PairsWithIff(a, l2[..n], pr);
      assert l2 == l2[..n] + [l2[n]];
    }
  }

  // The common walls of two rooms are exactly their overlapping wall pairs.
  lemma {:induction false} CommonOfIff(l1: seq<Wall>, l2: seq<Wall>, pr: (Wall, Wall))
    ensures pr in CommonOf(l1, l2) <==> pr.0 in l1 && pr.1 in l2 && IsOverlappingOrTouching(pr.0, pr.1)
    decreases |l1|
  {
    if |l1| > 0 {
      var n := |l1| - 1;
      CommonOfIff(l1[..n], l2, pr);
      PairsWithIff(l1[n], l2, pr);
      assert l1 == l1[..n] + [l1[n]];
    }
  }

  // e is the entry for rooms i and j.
  predicate IsEntryOf(p: Plan, i: nat, j: nat, e: Entry)
    requires i < |p| && j < |p|
  {
    e == Entry(p[i].name, p[j].name, CommonOf(p[i].walls, p[j].walls)) && |e.walls| > 0
  }

  // Entries of the row of room i: pairs with a later room that have common walls.
  lemma {:induction false} RowIff(p: Plan, i: nat, m: nat, e: Entry)
    requires i < m <= |p|
    ensures e in RowUpTo(p, i, m) <==> exists j :: i < j < m && IsEntryOf(p, i, j, e)
    decreases m
  {
    if m > i + 1 {
      RowIff(p, i, m - 1, e);
      RowSplit(p, i, m, e);
      RowLast(p, i, m, e);
    }
  }

  // The row grows by the entry of its last room, if that has common walls.
  lemma RowLast(p: Plan, i: nat, m: nat, e: Entry)
    requires i + 1 < m <= |p|
    ensures e in RowUpTo(p, i, m) <==> e in RowUpTo(p, i, m - 1) || IsEntryOf(p, i, m - 1, e)
  {
    var common := CommonOf(p[i].walls, p[m - 1].walls);
    var last := if |common| > 0 then [Entry(p[i].name, p[m - 1].name, common)] else [];
    assert RowUpTo(p, i, m) == RowUpTo(p, i, m - 1) + last;
    assert e in last <==> IsEntryOf(p, i, m - 1, e);
  }

  // A later room is the last one or one before it.
  lemma RowSplit(p: Plan, i: nat, m: nat, e: Entry)
    requires i + 1 < m <= |p|
    ensures (exists j :: i < j < m && IsEntryOf(p, i, j, e)) <==>
      (exists j :: i < j < m - 1 && IsEntryOf(p, i, j, e)) || IsEntryOf(p, i, m - 1, e)
  {
    if exists j :: i < j < m && IsEntryOf(p, i, j, e) {
      var j :| i < j < m && IsEntryOf(p, i, j, e);
      if j < m - 1 {
        assert exists j :: i < j < m - 1 && IsEntryOf(p, i, j, e);
      }
    }
  }

  lemma {:induction false} CommonUpToIff(p: Plan, n: nat, e: Entry)
    requires n <= |p|
    ensures e in CommonUpTo(p, n) <==> exists i, j :: 0 <= i < n && i < j < |p| && IsEntryOf(p, i, j, e)
    decreases n
  {
    if n > 0 {
      var k := n - 1;
      CommonUpToIff(p, k, e);
      RowIff(p, k, |p|, e);
      CommonSplit(p, k, e);
      CommonLast(p, k, e);
    }
  }

  lemma CommonLast(p: Plan, k: nat, e: Entry)
    requires k < |p|
    ensures e in CommonUpTo(p, k + 1) <==> e in CommonUpTo(p, k) || e in RowUpTo(p, k, |p|)
  {
    assert CommonUpTo(p, k + 1) == CommonUpTo(p, k) + RowUpTo(p, k, |p|);
  }

  // A first room is room k or one before it.
  lemma CommonSplit(p: Plan, k: nat, e: Entry)
    requires k < |p|
    ensures (exists i, j :: 0 <= i < k + 1 && i < j < |p| && IsEntryOf(p, i, j, e)) <==>
      (exists i, j :: 0 <= i < k && i < j < |p| && IsEntryOf(p, i, j, e)) ||
      (exists j :: k < j < |p| && IsEntryOf(p, k, j, e))
  {
    if exists i, j :: 0 <= i < k + 1 && i < j < |p| && IsEntryOf(p, i, j, e) {
      var i, j :| 0 <= i < k + 1 && i < j < |p| && IsEntryOf(p, i, j, e);
      if i < k {
        assert exists i, j :: 0 <= i < k && i < j < |p| && IsEntryOf(p, i, j, e);
      } else {
        assert exists j :: k < j < |p| && IsEntryOf(p, k, j, e);
      }
    }
    if exists j :: k < j < |p| && IsEntryOf(p, k, j, e) {
      var j :| k < j < |p| && IsEntryOf(p, k, j, e);
      assert 0 <= k < k + 1;
    }
  }

  // The map has an entry for the room pair i < j exactly when some wall of
  // room i overlaps some wall of room j, and the entry lists exactly those
  // overlapping pairs.
  lemma CommonWallsMeaning(p: Plan, e: Entry)
    ensures e in CommonWallsSpec(p) <==> exists i, j :: 0 <= i < j < |p| && IsEntryOf(p, i, j, e)
  {
    CommonUpToIff(p, |p|, e);
  }

  // Every entry of the map is non-empty and pairs a wall of its first room
  // with an overlapping wall of its second room.
  lemma CommonWallsAreOverlaps(p: Plan, e: Entry, pr: (Wall, Wall))
    requires e in CommonWallsSpec(p) && pr in e.walls
    ensures exists i, j :: (0 <= i < j < |p| && e.first == p[i].name && e.second == p[j].name &&
      pr.0 in p[i].walls && pr.1 in p[j].walls && IsOverlappingOrTouching(pr.0, pr.1))
  {
    CommonWallsMeaning(p, e);
    var i, j :| 0 <= i < j < |p| && IsEntryOf(p, i, j, e);
    CommonOfIff(p[i].walls, p[j].walls, pr);
  }

  // --- analyze_wall_changes ---

  // plan2.get(room_pair): the first entry with that key.
  function Lookup(m: WallMap, first: string, second: string): Option<seq<(Wall, Wall)>> {
    if |m| == 0 then None
    else if m[0].first == first && m[0].second == second then Some(m[0].walls)
    else Lookup(m[1..], first, second)
  }

  // "Vertical" when the first wall of a common-wall pair has equal x
  // coordinates, "Horizontal" otherwise.
  function PairOrientation(pr: (Wall, Wall)): WallType {
    if pr.0.start.x == pr.0.end.x then Vertical else Horizontal
  }

  function Orientations(walls: seq<(Wall, Wall)>): set<WallType> {
    set k | 0 <= k < |walls| :: PairOrientation(walls[k])
  }

  // A pair of the first map is lost when the second map has no entry for it,
  // an empty one, or one whose set of orientations differs.
  predicate Lost(e: Entry, plan2: WallMap) {
    match Lookup(plan2, e.first, e.second)
    case None => true
    case Some(w2) => |w2| == 0 || Orientations(e.walls) != Orientations(w2)
  }

  function LostPairs(plan1: WallMap, plan2: WallMap): seq<(string, string)> {
    if |plan1| == 0 then []
    else
      var e := plan1[|plan1| - 1];
      LostPairs(plan1[..|plan1| - 1], plan2) + (if Lost(e, plan2) then [(e.first, e.second)] else [])
  }

  method AnalyzeWallChanges(plan1: WallMap, plan2: WallMap) returns (results: seq<(string, string)>)
    ensures results == LostPairs(plan1, plan2)
  {
    results := [];
    var k := 0;
    while k < |plan1|
      invariant 0 <= k <= |plan1|
      invariant results == LostPairs(plan1[..k], plan2)
    {
      assert plan1[..k + 1][..k] == plan1[..k];
      var e := plan1[k];
      var walls2 := Lookup(plan2, e.first, e.second);
      if walls2.None? || |walls2.value| == 0 {
        results := results + [(e.first, e.second)];
      } else {
        var o1 := set i | 0 <= i < |e.walls| :: PairOrientation(e.walls[i]);
        var o2 := set i | 0 <= i < |walls2.value| :: PairOrientation(walls2.value[i]);
        if o1 != o2 {
          results := results + [(e.first, e.second)];
        }
      }
      k := k + 1;
    }
    assert plan1[..k] == plan1;
  }

  // A pair is reported exactly when it is a key of the first map whose entry
  // is lost; in particular a pair only in the second map is never reported.
  lemma {:induction false} LostPairsIff(plan1: WallMap, plan2: WallMap, a: string, b: string)
    ensures (a, b) in LostPairs(plan1, plan2) <==>
      exists k :: 0 <= k < |plan1| && plan1[k].first == a && plan1[k].second == b && Lost(plan1[k], plan2)
    decreases |plan1|
  {
    if |plan1| > 0 {
      var n := |plan1| - 1;
      LostPairsIff(plan1[..n], plan2, a, b);
      if exists k :: 0 <= k < n && plan1[..n][k].first == a && plan1[..n][k].second == b && Lost(plan1[..n][k], plan2) {
        var k :| 0 <= k < n && plan1[..n][k].first == a && plan1[..n][k].second == b && Lost(plan1[..n][k], plan2);
        assert plan1[k] == plan1[..n][k];
      }
      if exists k :: 0 <= k < |plan1| && plan1[k].first == a && plan1[k].second == b && Lost(plan1[k], plan2) {
        var k :| 0 <= k < |plan1| && plan1[k].first == a && plan1[k].second == b && Lost(plan1[k], plan2);
        if k < n {
          assert plan1[..n][k] == plan1[k];
        }
      }
    }
  }

  lemma {:induction false} NoneLost(plan1: WallMap, plan2: WallMap)
    requires forall k :: 0 <= k < |plan1| ==> !Lost(plan1[k], plan2)
    ensures LostPairs(plan1, plan2) == []
    decreases |plan1|
  {
    if |plan1| > 0 {
      var n := |plan1| - 1;
      forall k | 0 <= k < n ensures !Lost(plan1[..n][k], plan2) {
        assert plan1[..n][k] == plan1[k];
      }
      NoneLost(plan1[..n], plan2);
    }
  }

  // Comparing a map with itself reports nothing when its keys are distinct
  // and its entries non-empty, as find_and_display_common_walls makes them.
  lemma NothingLostAgainstItself(m: WallMap)
    requires forall k :: 0 <= k < |m| ==> |m[k].walls| > 0
    requires forall k, l :: 0 <= k < l < |m| ==> (m[k].first, m[k].second) != (m[l].first, m[l].second)
    ensures LostPairs(m, m) == []
  {
    forall k | 0 <= k < |m| ensures !Lost(m[k], m) {
      var a, b := m[k].first, m[k].second;
      LookupFindsFirst(m, a, b);
      var r := Lookup(m, a, b);
      var k' :| 0 <= k' < |m| && m[k'].first == a && m[k'].second == b && m[k'].walls == r.value &&
        forall l :: 0 <= l < k' ==> !(m[l].first == a && m[l].second == b);
      assert k' == k;
    }
    NoneLost(m, m);
  }

  // The lookup finds the first entry with the key and fails when there is none.
  lemma {:induction false} LookupFindsFirst(m: WallMap, first: string, second: string)
    ensures var r := Lookup(m, first, second);
      (r.None? <==> forall k :: 0 <= k < |m| ==> !(m[k].first == first && m[k].second == second)) &&
      (r.Some? ==> exists k :: (0 <= k < |m| && m[k].first == first && m[k].second == second && m[k].walls == r.value &&
        forall l :: 0 <= l < k ==> !(m[l].first == first && m[l].second == second)))
    decreases |m|
  {
    if |m| > 0 && !(m[0].first == first && m[0].second == second) {
      LookupFindsFirst(m[1..], first, second);
      var r := Lookup(m, first, second);
      if r.Some? {
        var k :| 0 <= k < |m[1..]| && m[1..][k].first == first && m[1..][k].second == second && m[1..][k].walls == r.value &&
          forall l :: 0 <= l < k ==> !(m[1..][l].first == first && m[1..][l].second == second);
        assert m[k + 1] == m[1..][k];
        forall l | 0 <= l < k + 1 ensures !(m[l].first == first && m[l].second == second) {
          if l > 0 {
            assert m[l] == m[1..][l - 1];
          }
        }
      } else {
        forall k | 0 <= k < |m| ensures !(m[k].first == first && m[k].second == second) {
          if k > 0 {
            assert m[k] == m[1..][k - 1];
          }
        }
      }
    } else if |m| > 0 {
      assert m[0].first == first && m[0].second == second && m[0].walls == Lookup(m, first, second).value;
    }
  }
}
