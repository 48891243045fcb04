// The wall helpers of frontend/src/pages/CanvasPage.jsx: exact endpoint
// matching, the endpoint search that snaps a new wall onto an existing one,
// the normalisation that makes walls meeting at a corner share the same
// coordinates, and the projection of a point onto a segment.
module Canvas {
  import opened Wrappers
  import opened Drawing

  // ---------------------------------------------------------------------
  // exactPointMatch

  // Math.round(v * 1000000) / 1000000; Math.round rounds halves up.
  function Round6(v: real): real {
    (v * 1000000.0 + 0.5).Floor as real / 1000000.0
  }

  function ExactPointMatch(p1: Option<RPoint>, p2: Option<RPoint>): (r: bool)
    ensures p1.None? || p2.None? ==> !r
  {
    p1.Some? && p2.Some? &&
    Round6(p1.value.x) == Round6(p2.value.x) && Round6(p1.value.y) == Round6(p2.value.y)
  }

  // Reflexive on present points and symmetric.
  lemma ExactPointMatchIsEquivalence(p: RPoint, q: RPoint)
    ensures ExactPointMatch(Some(p), Some(p))
    ensures ExactPointMatch(Some(p), Some(q)) == ExactPointMatch(Some(q), Some(p))
  {
  }

  // Two coordinates that round to the same millionth are less than a
  // millionth apart.
  lemma RoundedAlike(u: real, v: real)
    requires Round6(u) == Round6(v)
    ensures -1.0 < u * 1000000.0 - v * 1000000.0 < 1.0
  {
    var a, b := (u * 1000000.0 + 0.5).Floor, (v * 1000000.0 + 0.5).Floor;
    assert a as real / 1000000.0 == b as real / 1000000.0;
    assert a as real == b as real;
  }

  // ---------------------------------------------------------------------
  // findExactEndpoint

  // wall.originalStart || wall.start, and likewise for the end.
  function StartOf(w: FWall): RPoint {
    if w.originalStart.Some? then w.originalStart.value else w.start
  }

  function EndOf(w: FWall): RPoint {
    if w.originalEnd.Some? then w.originalEnd.value else w.end
  }

  // { ...point, sourceWall: wall }
  datatype Endpoint = Endpoint(point: RPoint, sourceWall: FWall)

  predicate Touches(point: Option<RPoint>, w: FWall) {
    ExactPointMatch(point, Some(StartOf(w))) || ExactPointMatch(point, Some(EndOf(w)))
  }

  // The endpoint a wall offers: its start when that matches, its end
  // otherwise.
  function EndpointOf(point: Option<RPoint>, w: FWall): Endpoint {
    if ExactPointMatch(point, Some(StartOf(w))) then Endpoint(StartOf(w), w) else Endpoint(EndOf(w), w)
  }

  function FindEndpoint(point: Option<RPoint>, walls: seq<FWall>): Option<Endpoint> {
    if point.None? || |walls| == 0 then None
    else if Touches(point, walls[0]) then Some(EndpointOf(point, walls[0]))
    else FindEndpoint(point, walls[1..])
  }

  // The result is the endpoint of the first wall that has one matching,
  // start before end, and null exactly when no wall has one.
  lemma {:induction false} FindEndpointIsFirst(point: Option<RPoint>, walls: seq<FWall>)
    ensures FindEndpoint(point, walls).None? <==> forall k :: 0 <= k < |walls| ==> !Touches(point, walls[k])
    ensures FindEndpoint(point, walls).Some? ==>
      exists k :: (0 <= k < |walls| && Touches(point, walls[k]) &&
        FindEndpoint(point, walls) == Some(EndpointOf(point, walls[k])) &&
        forall j :: 0 <= j < k ==> !Touches(point, walls[j]))
  {
    if point.Some? && |walls| > 0 && !Touches(point, walls[0]) {
      FindEndpointIsFirst(point, walls[1..]);
      assert forall k :: 1 <= k < |walls| ==> walls[1..][k - 1] == walls[k];
      if FindEndpoint(point, walls).Some? {
        var k :| (0 <= k < |walls[1..]| && Touches(point, walls[1..][k]) &&
          FindEndpoint(point, walls[1..]) == Some(EndpointOf(point, walls[1..][k])) &&
          forall j :: 0 <= j < k ==> !Touches(point, walls[1..][j]));
        assert walls[k + 1] == walls[1..][k];
      }
    }
  }

  // The loop with early return.
  method FindExactEndpoint(point: Option<RPoint>, allWalls: seq<FWall>) returns (r: Option<Endpoint>)
    ensures r == FindEndpoint(point, allWalls)
  {
    if point.None? || |allWalls| == 0 {
      return None;
    }
    var i := 0;
    while i < |allWalls|
      invariant 0 <= i <= |allWalls|
      invariant FindEndpoint(point, allWalls) == FindEndpoint(point, allWalls[i..])
    {
      var wall := allWalls[i];
      var start, end := StartOf(wall), EndOf(wall);
      if ExactPointMatch(point, Some(start)) {
        return Some(Endpoint(start, wall));
      }
      if ExactPointMatch(point, Some(end)) {
        return Some(Endpoint(end, wall));
      }
      assert allWalls[i..][1..] == allWalls[i + 1..];
      i := i + 1;
    }
    return None;
  }

  // ---------------------------------------------------------------------
  // normalizeWallConnections

  // Within 0.01 on both axes.
  predicate Close(p: RPoint, q: RPoint) {
    RAbs(p.x - q.x) < 0.01 && RAbs(p.y - q.y) < 0.01
  }

  lemma CloseSymmetric(p: RPoint, q: RPoint)
    ensures Close(p, q) <==> Close(q, p)
  {
    assert RAbs(p.x - q.x) == RAbs(q.x - p.x) && RAbs(p.y - q.y) == RAbs(q.y - p.y);
  }

  // The first registered point close to p.
  function FirstClose(p: RPoint, uniq: seq<RPoint>): (r: Option<nat>)
    ensures r.Some? ==> r.value < |uniq|
  {
    if |uniq| == 0 then None
    else if Close(p, uniq[0]) then Some(0)
    else
      match FirstClose(p, uniq[1..])
      case None => None
      case Some(k) => Some(k + 1)
  }

  // It is None exactly when no registered point is close, and otherwise the
  // index of the first close one.
  lemma {:induction false} FirstCloseIsFirst(p: RPoint, uniq: seq<RPoint>)
    ensures FirstClose(p, uniq).None? <==> forall j :: 0 <= j < |uniq| ==> !Close(p, uniq[j])
    ensures FirstClose(p, uniq).Some? ==> (FirstClose(p, uniq).value < |uniq| &&
      Close(p, uniq[FirstClose(p, uniq).value]) &&
      forall j :: 0 <= j < FirstClose(p, uniq).value ==> !Close(p, uniq[j]))
  {
    if |uniq| > 0 && !Close(p, uniq[0]) {
      FirstCloseIsFirst(p, uniq[1..]);
      assert forall j :: 1 <= j < |uniq| ==> uniq[1..][j - 1] == uniq[j];
    }
  }

  // The inner for-of loop with break.
  method FindClose(p: RPoint, uniq: seq<RPoint>) returns (r: Option<nat>)
    ensures r == FirstClose(p, uniq) && (r.Some? ==> r.value < |uniq|)
  {
    FirstCloseIsFirst(p, uniq);
    var j := 0;
    while j < |uniq|
      invariant 0 <= j <= |uniq|
      invariant forall m :: 0 <= m < j ==> !Close(p, uniq[m])
    {
      if Close(p, uniq[j]) {
        return Some(j);
      }
      j := j + 1;
    }
    return None;
  }

  // The point an endpoint ends up at, whether it was snapped, and the
  // registered points afterwards: it snaps to the first registered point
  // close to it, or is registered itself.
  datatype Registered = Registered(point: RPoint, found: bool, uniq: seq<RPoint>)

  function Register(p: RPoint, uniq: seq<RPoint>): Registered {
    var f := FirstClose(p, uniq);
    if f.Some? then Registered(uniq[f.value], true, uniq)
    else Registered(p, false, uniq + [p])
  }

  // The registered points only grow, by p when nothing is close to it; the
  // snapped point is within 0.01 of p and is registered.
  lemma RegisterFacts(p: RPoint, uniq: seq<RPoint>)
    ensures var r := Register(p, uniq);
      |r.uniq| >= |uniq| && r.uniq[..|uniq|] == uniq && Close(p, r.point) && r.point in r.uniq &&
      (r.found <==> exists j :: 0 <= j < |uniq| && Close(p, uniq[j])) &&
      (r.found ==> r.uniq == uniq) &&
      (!r.found ==> r.uniq == uniq + [p] && r.point == p)
  {
    FirstCloseIsFirst(p, uniq);
    var r := Register(p, uniq);
    if !r.found {
      assert r.uniq[|uniq|] == p;
      assert (uniq + [p])[..|uniq|] == uniq;
      assert RAbs(p.x - p.x) == 0.0 && RAbs(p.y - p.y) == 0.0;
    }
  }

  // No two registered points are close.
  predicate Apart(uniq: seq<RPoint>) {
    forall i, j :: 0 <= i < j < |uniq| ==> !Close(uniq[i], uniq[j])
  }

  lemma RegisterKeepsApart(p: RPoint, uniq: seq<RPoint>)
    requires Apart(uniq)
    ensures Apart(Register(p, uniq).uniq)
  {
    var u := Register(p, uniq).uniq;
    RegisterFacts(p, uniq);
    if !Register(p, uniq).found {
      forall i | 0 <= i < |uniq| ensures !Close(u[i], u[|uniq|]) {
        CloseSymmetric(p, uniq[i]);
      }
    }
  }

  // Among apart points, the first one close to a registered point is that
  // point itself.
  lemma FirstCloseToRegistered(uniq: seq<RPoint>, k: nat)
    requires Apart(uniq) && k < |uniq|
    ensures FirstClose(uniq[k], uniq) == Some(k)
  {
    FirstCloseIsFirst(uniq[k], uniq);
    assert RAbs(uniq[k].x - uniq[k].x) == 0.0 && RAbs(uniq[k].y - uniq[k].y) == 0.0;
    forall j | 0 <= j < k ensures !Close(uniq[k], uniq[j]) {
      CloseSymmetric(uniq[k], uniq[j]);
    }
  }

  // Registering the snapped point again changes nothing.
  lemma RegisterTwice(p: RPoint, uniq: seq<RPoint>)
    requires Apart(uniq)
    ensures Register(Register(p, uniq).point, uniq) == Register(p, uniq)
  {
    var f := FirstClose(p, uniq);
    FirstCloseIsFirst(p, uniq);
    if f.Some? {
      FirstCloseToRegistered(uniq, f.value);
    }
  }

  datatype NormalizedWall = NormalizedWall(wall: FWall, uniq: seq<RPoint>)

  // One pass of the outer loop: the start, then the end against the
  // registered points including a start just registered.  A snapped
  // endpoint also overwrites its original copy.
  function NormalizeWall(w: FWall, uniq: seq<RPoint>): NormalizedWall {
    var s := Register(w.start, uniq);
    var e := Register(w.end, s.uniq);
    NormalizedWall(w.(start := s.point, end := e.point,
                      originalStart := if s.found then Some(s.point) else w.originalStart,
                      originalEnd := if e.found then Some(e.point) else w.originalEnd),
                   e.uniq)
  }

  datatype Normalization = Normalization(walls: seq<FWall>, uniq: seq<RPoint>)

  // The outer loop over a prefix of the walls, starting with no registered
  // points.
  function NormalizeAll(walls: seq<FWall>): (r: Normalization)
    ensures |r.walls| == |walls|
  {
    if |walls| == 0 then Normalization([], [])
    else
      var before := NormalizeAll(walls[..|walls| - 1]);
      var last := NormalizeWall(walls[|walls| - 1], before.uniq);
      Normalization(before.walls + [last.wall], last.uniq)
  }

  function Normalized(walls: seq<FWall>): seq<FWall> {
    if |walls| < 2 then walls else NormalizeAll(walls).walls
  }

  // What one wall keeps and where its endpoints may go.
  predicate Snapped(w: FWall, v: FWall) {
    v.thickness == w.thickness && v.lineweightId == w.lineweightId &&
    Close(w.start, v.start) && Close(w.end, v.end) &&
    (v.originalStart == w.originalStart || v.originalStart == Some(v.start)) &&
    (v.originalEnd == w.originalEnd || v.originalEnd == Some(v.end)) &&
    (v.start == w.start || v.originalStart == Some(v.start)) &&
    (v.end == w.end || v.originalEnd == Some(v.end))
  }

  // One wall: snapped onto points it registers, which extend the old ones
  // and stay apart.
  lemma NormalizeWallFacts(w: FWall, uniq: seq<RPoint>)
    ensures var n := NormalizeWall(w, uniq);
      Snapped(w, n.wall) && n.wall.start in n.uniq && n.wall.end in n.uniq &&
      |n.uniq| >= |uniq| && n.uniq[..|uniq|] == uniq
    ensures Apart(uniq) ==> Apart(NormalizeWall(w, uniq).uniq)
  {
    var s := Register(w.start, uniq);
    var e := Register(w.end, s.uniq);
    assert e.uniq[..|s.uniq|] == s.uniq;
    assert e.uniq[..|uniq|] == s.uniq[..|uniq|];
    RegisterFacts(w.start, uniq);
    RegisterFacts(w.end, s.uniq);
    assert s.point in e.uniq[..|s.uniq|];
    if Apart(uniq) {
      RegisterKeepsApart(w.start, uniq);
      RegisterKeepsApart(w.end, s.uniq);
    }
  }

  // The registered points only grow and stay apart.
  lemma {:induction false} NormalizeAllApart(walls: seq<FWall>)
    ensures Apart(NormalizeAll(walls).uniq)
  {
    if |walls| > 0 {
      var m := |walls| - 1;
      NormalizeAllApart(walls[..m]);
      NormalizeWallFacts(walls[m], NormalizeAll(walls[..m]).uniq);
    }
  }

  // Wall count and order are kept; each wall keeps its thickness and
  // lineweight, and its endpoints move by less than 0.01 per axis ...
  lemma {:induction false} NormalizeAllSnaps(walls: seq<FWall>)
    ensures forall k :: 0 <= k < |walls| ==> Snapped(walls[k], NormalizeAll(walls).walls[k])
  {
    if |walls| > 0 {
      var m := |walls| - 1;
      var init := walls[..m];
      NormalizeAllSnaps(init);
      var before := NormalizeAll(init);
      var last := NormalizeWall(walls[m], before.uniq);
      NormalizeWallFacts(walls[m], before.uniq);
      var n := NormalizeAll(walls);
      assert n.walls == before.walls + [last.wall];
      SnappedExtend(walls, n.walls, before.walls, last.wall);
    }
  }

  lemma SnappedExtend(walls: seq<FWall>, outs: seq<FWall>, prev: seq<FWall>, w: FWall)
    requires |walls| == |prev| + 1 && outs == prev + [w]
    requires forall k :: 0 <= k < |prev| ==> Snapped(walls[..|prev|][k], prev[k])
    requires Snapped(walls[|prev|], w)
    ensures forall k :: 0 <= k < |walls| ==> Snapped(walls[k], outs[k])
  {
    forall k | 0 <= k < |walls| ensures Snapped(walls[k], outs[k]) {
      if k < |prev| {
        assert walls[..|prev|][k] == walls[k] && outs[k] == prev[k];
      }
    }
  }

  // ... onto registered points.
  lemma {:induction false} NormalizeAllRegisters(walls: seq<FWall>)
    ensures forall k :: 0 <= k < |walls| ==>
      NormalizeAll(walls).walls[k].start in NormalizeAll(walls).uniq &&
      NormalizeAll(walls).walls[k].end in NormalizeAll(walls).uniq
  {
    if |walls| > 0 {
      var m := |walls| - 1;
      var init := walls[..m];
      NormalizeAllRegisters(init);
      var before := NormalizeAll(init);
      var last := NormalizeWall(walls[m], before.uniq);
      NormalizeWallFacts(walls[m], before.uniq);
      var n := NormalizeAll(walls);
      assert n == Normalization(before.walls + [last.wall], last.uniq);
      forall k | 0 <= k < |walls| ensures n.walls[k].start in n.uniq && n.walls[k].end in n.uniq {
        if k < m {
          var b := before.walls[k];
          assert n.walls[k] == b;
          assert b.start in before.uniq && b.end in before.uniq;
          assert before.uniq == n.uniq[..|before.uniq|];
        }
      }
    }
  }

  // The normalisation of a prefix is the prefix of the normalisation.
  lemma {:induction false} NormalizeAllPrefix(walls: seq<FWall>, n: nat)
    requires n <= |walls|
    ensures NormalizeAll(walls).walls[..n] == NormalizeAll(walls[..n]).walls
  {
    if n < |walls| {
      var m := |walls| - 1;
      NormalizeAllPrefix(walls[..m], n);
      assert walls[..m][..n] == walls[..n];
      var before := NormalizeAll(walls[..m]).walls;
      assert NormalizeAll(walls).walls[..m] == before;
      assert NormalizeAll(walls).walls[..n] == before[..n];
    } else {
      assert walls[..n] == walls;
    }
  }

  // A second pass over one wall with the same registered points changes
  // nothing.
  lemma NormalizeWallTwice(w: FWall, uniq: seq<RPoint>)
    requires Apart(uniq)
    ensures NormalizeWall(NormalizeWall(w, uniq).wall, uniq) == NormalizeWall(w, uniq)
  {
    var s := Register(w.start, uniq);
    RegisterTwice(w.start, uniq);
    RegisterKeepsApart(w.start, uniq);
    RegisterTwice(w.end, s.uniq);
  }

  // Normalising the normalised walls again registers the same points in
  // the same order and leaves every wall as it was.
  lemma {:induction false} NormalizeAllTwice(walls: seq<FWall>, n: nat)
    requires n <= |walls|
    ensures NormalizeAll(NormalizeAll(walls).walls[..n]) ==
      Normalization(NormalizeAll(walls).walls[..n], NormalizeAll(walls[..n]).uniq)
  {
    var b := NormalizeAll(walls).walls;
    if n > 0 {
      NormalizeAllTwice(walls, n - 1);
      var u := NormalizeAll(walls[..n - 1]).uniq;
      var nw := NormalizeWall(walls[n - 1], u);
      NormalizeAllLast(walls, n);
      NormalizeAllApart(walls[..n - 1]);
      NormalizeWallTwice(walls[n - 1], u);
      TwiceStep(b[..n - 1], u, nw.wall, nw.uniq);
    }
  }

  // The first n normalised walls are the first n - 1 and the n-th wall
  // normalised against the points the first n - 1 registered.
  lemma NormalizeAllLast(walls: seq<FWall>, n: nat)
    requires 0 < n <= |walls|
    ensures var u := NormalizeAll(walls[..n - 1]).uniq;
      var nw := NormalizeWall(walls[n - 1], u);
      NormalizeAll(walls[..n]).uniq == nw.uniq &&
      NormalizeAll(walls).walls[..n] == NormalizeAll(walls).walls[..n - 1] + [nw.wall]
  {
    TakeSnoc(walls, n);
    NormalizeAllSnoc(walls[..n - 1], walls[n - 1]);
    NormalizeAllPrefix(walls, n);
    NormalizeAllPrefix(walls, n - 1);
  }

  lemma TakeSnoc(walls: seq<FWall>, n: nat)
    requires 0 < n <= |walls|
    ensures walls[..n] == walls[..n - 1] + [walls[n - 1]]
  {
  }

  // One more wall is normalised against the points registered so far.
  lemma NormalizeAllSnoc(walls: seq<FWall>, w: FWall)
    ensures var before := NormalizeAll(walls);
      var nw := NormalizeWall(w, before.uniq);
      NormalizeAll(walls + [w]) == Normalization(before.walls + [nw.wall], nw.uniq)
  {
    assert (walls + [w])[..|walls|] == walls;
  }

  // A wall the second pass leaves alone extends the fixed prefix.
  lemma TwiceStep(prefix: seq<FWall>, u: seq<RPoint>, w: FWall, u': seq<RPoint>)
    requires NormalizeAll(prefix) == Normalization(prefix, u)
    requires NormalizeWall(w, u) == NormalizedWall(w, u')
    ensures NormalizeAll(prefix + [w]) == Normalization(prefix + [w], u')
  {
    assert (prefix + [w])[..|prefix|] == prefix;
  }

  // normalizeWallConnections is idempotent.
  lemma NormalizedIsIdempotent(walls: seq<FWall>)
    ensures Normalized(Normalized(walls)) == Normalized(walls)
  {
    if |walls| >= 2 {
      NormalizeAllTwice(walls, |walls|);
      assert walls[..|walls|] == walls;
      assert NormalizeAll(walls).walls[..|walls|] == NormalizeAll(walls).walls;
    }
  }

  // Fewer than two walls come back untouched; otherwise the walls are
  // snapped in place onto pairwise apart points.
  lemma NormalizedShape(walls: seq<FWall>)
    ensures |walls| < 2 ==> Normalized(walls) == walls
    ensures |Normalized(walls)| == |walls|
    ensures forall k :: 0 <= k < |walls| ==> Snapped(walls[k], Normalized(walls)[k])
    ensures |walls| >= 2 ==> (Apart(NormalizeAll(walls).uniq) &&
      forall k :: 0 <= k < |walls| ==>
        Normalized(walls)[k].start in NormalizeAll(walls).uniq && Normalized(walls)[k].end in NormalizeAll(walls).uniq)
  {
    NormalizeAllSnaps(walls);
    NormalizeAllRegisters(walls);
    NormalizeAllApart(walls);
    forall k | 0 <= k < |walls| ensures Snapped(walls[k], Normalized(walls)[k]) {
      if |walls| < 2 {
        var w := walls[k];
        assert RAbs(w.start.x - w.start.x) == 0.0 && RAbs(w.end.x - w.end.x) == 0.0;
        assert RAbs(w.start.y - w.start.y) == 0.0 && RAbs(w.end.y - w.end.y) == 0.0;
      }
    }
  }

  // Every wall carries both original points, as every wall the canvas
  // creates does.
  predicate HasOriginals(walls: seq<FWall>) {
    forall k :: 0 <= k < |walls| ==> walls[k].originalStart.Some? && walls[k].originalEnd.Some?
  }

  // One more wall extends the normalisation by that wall.
  lemma NormalizeAllStep(walls: seq<FWall>, i: nat, done: seq<FWall>, uniq: seq<RPoint>,
                         wall: FWall, uniq': seq<RPoint>)
    requires i < |walls|
    requires Normalization(done, uniq) == NormalizeAll(walls[..i])
    requires NormalizedWall(wall, uniq') == NormalizeWall(walls[i], uniq)
    ensures Normalization(done + [wall], uniq') == NormalizeAll(walls[..i + 1])
  {
    assert walls[..i + 1][..i] == walls[..i] && walls[..i + 1][i] == walls[i];
  }

  // The body of the outer loop: the start, then the end.
  method NormalizeOne(w: FWall, uniquePoints: seq<RPoint>) returns (wall: FWall, uniq: seq<RPoint>)
    ensures NormalizedWall(wall, uniq) == NormalizeWall(w, uniquePoints)
  {
    wall, uniq := w, uniquePoints;
    var foundStart := FindClose(wall.start, uniq);
    if foundStart.Some? {
      var point := uniq[foundStart.value];
      wall := wall.(start := point, originalStart := Some(point));
    } else {
      uniq := uniq + [wall.start];
    }
    var foundEnd := FindClose(wall.end, uniq);
    if foundEnd.Some? {
      var point := uniq[foundEnd.value];
      wall := wall.(end := point, originalEnd := Some(point));
    } else {
      uniq := uniq + [wall.end];
    }
  }

  // Writing position i of the walls still to do.
  lemma UpdateSlices(prev: seq<FWall>, input: seq<FWall>, i: nat, wall: FWall)
    requires i < |prev| == |input| && prev[i..] == input[i..]
    ensures prev[i := wall][..i + 1] == prev[..i] + [wall]
    ensures prev[i := wall][i + 1..] == input[i + 1..]
  {
    assert prev[i + 1..] == input[i..][1..];
  }

  // The nested loops, updating each wall of the array in place.
  method NormalizeWallConnections(walls: array<FWall>)
    requires walls.Length >= 2 ==> HasOriginals(walls[..])
    modifies walls
    ensures walls[..] == Normalized(old(walls[..]))
  {
    if walls.Length < 2 {
      return;
    }
    ghost var input := walls[..];
    var uniquePoints: seq<RPoint> := [];
    var i := 0;
    while i < walls.Length
      invariant 0 <= i <= walls.Length
      invariant Normalization(walls[..i], uniquePoints) == NormalizeAll(input[..i])
      invariant walls[i..] == input[i..]
    {
      assert walls[i] == input[i];
      ghost var done, before := walls[..i], uniquePoints;
      var wall;
      wall, uniquePoints := NormalizeOne(walls[i], uniquePoints);
      NormalizeAllStep(input, i, done, before, wall, uniquePoints);
      ghost var prev := walls[..];
      walls[i] := wall;
      assert walls[..] == prev[i := wall];
      UpdateSlices(prev, input, i, wall);
      i := i + 1;
    }
    assert input[..i] == input;
  }

  // ---------------------------------------------------------------------
  // getClosestPointOnSegment

  datatype Closest = Closest(x: real, y: real, t: real)

  function Clamp01(v: real): (r: real)
    ensures 0.0 <= r <= 1.0
    ensures 0.0 <= v <= 1.0 ==> r == v
  {
    RMax(0.0, RMin(1.0, v))
  }

  // The point of segment AB nearest to P, with its parameter t along AB.
  function ClosestPointOnSegment(a: RPoint, b: RPoint, p: RPoint): (r: Closest)
    ensures 0.0 <= r.t <= 1.0
    ensures a == b ==> r == Closest(a.x, a.y, 0.0)
  {
    var apx, apy := p.x - a.x, p.y - a.y;
    var abx, aby := b.x - a.x, b.y - a.y;
    var ab2 := abx * abx + aby * aby;
    var apab := apx * abx + apy * aby;
    var t := Clamp01(if ab2 == 0.0 then 0.0 else apab / ab2);
    Closest(a.x + abx * t, a.y + aby * t, t)
  }

  // Away from the ends, the nearest point is the foot of the perpendicular
  // from P: P - C is orthogonal to AB.
  lemma ProjectionIsPerpendicular(a: RPoint, b: RPoint, p: RPoint)
    requires a != b
    ensures var c := ClosestPointOnSegment(a, b, p);
      var abx, aby := b.x - a.x, b.y - a.y;
      0.0 < c.t < 1.0 ==> (p.x - c.x) * abx + (p.y - c.y) * aby == 0.0
  {
    var apx, apy := p.x - a.x, p.y - a.y;
    var abx, aby := b.x - a.x, b.y - a.y;
    var ab2 := abx * abx + aby * aby;
    var apab := apx * abx + apy * aby;
    assert a == RPoint(a.x, a.y) && b == RPoint(b.x, b.y);
    SumOfSquaresPositive(abx, aby);
    var c := ClosestPointOnSegment(a, b, p);
    if 0.0 < c.t < 1.0 {
      var t := apab / ab2;
      assert c.t == t;
      assert t * ab2 == apab;
      assert p.x - c.x == apx - abx * t && p.y - c.y == apy - aby * t;
      calc {
        (apx - abx * t) * abx + (apy - aby * t) * aby;
        apx * abx - t * (abx * abx) + apy * aby - t * (aby * aby);
        apab - t * ab2;
        0.0;
      }
    }
  }

  lemma SumOfSquaresPositive(u: real, v: real)
    requires u != 0.0 || v != 0.0
    ensures u * u + v * v > 0.0
  {
    if u > 0.0 { assert u * u > 0.0; }
    else if u < 0.0 { assert (-u) * (-u) > 0.0; assert u * u == (-u) * (-u); }
    if v > 0.0 { assert v * v > 0.0; }
    else if v < 0.0 { assert (-v) * (-v) > 0.0; assert v * v == (-v) * (-v); }
    assert u * u >= 0.0 && v * v >= 0.0;
  }
}
