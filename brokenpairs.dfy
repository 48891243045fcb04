// remove_duplicate_connections of backend_project/src/new_room_maain.py:
// the broken connections, room by room and side by side, become a map from
// (room, lost room) to the side, where a pair already present the other way
// round is not added again.
module BrokenPairs {
  import opened Geometry
  import opened Connections

  type PairMap = map<(string, string), Direction>

  // The innermost loop over the lost rooms of one side.  A key (room, l)
  // written here can only block the check of (l, room) for l == room, the
  // same lost room, so the order in which the set is visited does not matter
  // and every check can be made against the map as it was before the loop.
  function InsertSide(acc: PairMap, room: string, d: Direction, lost: set<string>): (r: PairMap)
    ensures r.Keys == acc.Keys + set l | l in lost && (l, room) !in acc :: (room, l)
  {
    acc + map l | l in lost && (l, room) !in acc :: (room, l) := d
  }

  // The loop over the sides of one room, in order.
  function InsertSides(acc: PairMap, room: string, sides: seq<LostSide>): PairMap {
    if |sides| == 0 then acc
    else
      var last := sides[|sides| - 1];
      InsertSide(InsertSides(acc, room, sides[..|sides| - 1]), room, last.direction, last.rooms)
  }

  // The loop over the broken rooms, in order.
  function Dedup(b: seq<BrokenRoom>): PairMap {
    if |b| == 0 then map[]
    else InsertSides(Dedup(b[..|b| - 1]), b[|b| - 1].room, b[|b| - 1].lost)
  }

  method InsertLostRooms(m0: PairMap, room: string, d: Direction, lost: set<string>) returns (m: PairMap)
    ensures m == InsertSide(m0, room, d, lost)
  {
    m := m0;
    var todo := lost;
    ghost var done: set<string> := {};
    InsertSideNothing(m0, room, d);
    while todo != {}
      invariant todo + done == lost && todo !! done
      invariant m == InsertSide(m0, room, d, done)
      decreases |todo|
    {
      var l :| l in todo;
      InsertSideOneMore(m0, room, d, done, l);
      if (l, room) !in m {
        m := m[(room, l) := d];
      }
      todo := todo - {l};
      done := done + {l};
    }
    assert done == lost;
  }

  lemma InsertSideNothing(m0: PairMap, room: string, d: Direction)
    ensures InsertSide(m0, room, d, {}) == m0
  {
    var m := InsertSide(m0, room, d, {});
    forall key ensures (key in m <==> key in m0) && (key in m ==> m[key] == m0[key]) {
      InsertSideAt(m0, room, d, {}, key);
    }
  }

  // What InsertSide holds at one key.
  lemma InsertSideAt(m0: PairMap, room: string, d: Direction, lost: set<string>, key: (string, string))
    ensures var isNew := key.0 == room && key.1 in lost && (key.1, room) !in m0;
      (key in InsertSide(m0, room, d, lost) <==> key in m0 || isNew) &&
      (isNew ==> InsertSide(m0, room, d, lost)[key] == d) &&
      (!isNew && key in m0 ==> InsertSide(m0, room, d, lost)[key] == m0[key])
  {
    var isNew := key.0 == room && key.1 in lost && (key.1, room) !in m0;
    if isNew {
      assert key == (room, key.1);
    }
  }

  lemma InsertSideOneMore(m0: PairMap, room: string, d: Direction, done: set<string>, l: string)
    requires l !in done
    ensures var m := InsertSide(m0, room, d, done);
      ((l, room) in m <==> (l, room) in m0) &&
      InsertSide(m0, room, d, done + {l}) == if (l, room) in m then m else m[(room, l) := d]
  {
    var m := InsertSide(m0, room, d, done);
    var m' := InsertSide(m0, room, d, done + {l});
    var e := if (l, room) in m0 then m else m[(room, l) := d];
    InsertSideAt(m0, room, d, done, (l, room));
    forall key ensures (key in m' <==> key in e) && (key in m' ==> m'[key] == e[key]) {
      InsertSideAt(m0, room, d, done, key);
      InsertSideAt(m0, room, d, done + {l}, key);
    }
    assert m' == e;
  }

  method InsertLostSides(m0: PairMap, room: string, sides: seq<LostSide>) returns (m: PairMap)
    ensures m == InsertSides(m0, room, sides)
  {
    m := m0;
    var k := 0;
    while k < |sides|
      invariant 0 <= k <= |sides|
      invariant m == InsertSides(m0, room, sides[..k])
    {
      assert sides[..k + 1][..k] == sides[..k];
      m := InsertLostRooms(m, room, sides[k].direction, sides[k].rooms);
      k := k + 1;
    }
    assert sides[..k] == sides;
  }

  method RemoveDuplicateConnections(b: seq<BrokenRoom>) returns (m: PairMap)
    ensures m == Dedup(b)
  {
    m := map[];
    var i := 0;
    while i < |b|
      invariant 0 <= i <= |b|
      invariant m == Dedup(b[..i])
    {
      assert b[..i + 1][..i] == b[..i];
      m := InsertLostSides(m, b[i].room, b[i].lost);
      i := i + 1;
    }
    assert b[..i] == b;
  }

  // --- properties ---

  // No pair of distinct rooms is recorded both ways round.
  ghost predicate Asymmetric(m: PairMap) {
    forall p :: p in m && p.0 != p.1 ==> (p.1, p.0) !in m
  }

  lemma InsertSideAsymmetric(acc: PairMap, room: string, d: Direction, lost: set<string>)
    requires Asymmetric(acc)
    ensures Asymmetric(InsertSide(acc, room, d, lost))
  {
  }

  lemma {:induction false} InsertSidesAsymmetric(acc: PairMap, room: string, sides: seq<LostSide>)
    requires Asymmetric(acc)
    ensures Asymmetric(InsertSides(acc, room, sides))
  {
    if |sides| > 0 {
      var last := sides[|sides| - 1];
      InsertSidesAsymmetric(acc, room, sides[..|sides| - 1]);
      InsertSideAsymmetric(InsertSides(acc, room, sides[..|sides| - 1]), room, last.direction, last.rooms);
    }
  }

  lemma {:induction false} DedupAsymmetric(b: seq<BrokenRoom>)
    ensures Asymmetric(Dedup(b))
  {
    if |b| > 0 {
      DedupAsymmetric(b[..|b| - 1]);
      InsertSidesAsymmetric(Dedup(b[..|b| - 1]), b[|b| - 1].room, b[|b| - 1].lost);
    }
  }

  // Keys are only ever added.
  lemma {:induction false} InsertSidesGrows(acc: PairMap, room: string, sides: seq<LostSide>)
    ensures acc.Keys <= InsertSides(acc, room, sides).Keys
  {
    if |sides| > 0 {
      InsertSidesGrows(acc, room, sides[..|sides| - 1]);
    }
  }

  lemma {:induction false} DedupGrows(b: seq<BrokenRoom>, n: nat)
    requires n <= |b|
    ensures Dedup(b[..n]).Keys <= Dedup(b).Keys
    decreases |b| - n
  {
    if n < |b| {
      assert b[..n + 1][..n] == b[..n];
      InsertSidesGrows(Dedup(b[..n]), b[n].room, b[n].lost);
      DedupGrows(b, n + 1);
    } else {
      assert b[..n] == b;
    }
  }

  // Every lost neighbour of a room is recorded, one way round or the other.
  ghost predicate Covers(m: PairMap, room: string, sides: seq<LostSide>) {
    forall k, l :: 0 <= k < |sides| && l in sides[k].rooms ==> ((room, l) in m || (l, room) in m)
  }

  lemma {:induction false} InsertSidesCovers(acc: PairMap, room: string, sides: seq<LostSide>)
    ensures Covers(InsertSides(acc, room, sides), room, sides)
  {
    if |sides| > 0 {
      var init := sides[..|sides| - 1];
      var mid := InsertSides(acc, room, init);
      InsertSidesCovers(acc, room, init);
      var last := sides[|sides| - 1];
      var r := InsertSides(acc, room, sides);
      assert r == InsertSide(mid, room, last.direction, last.rooms);
      forall k, l | 0 <= k < |sides| && l in sides[k].rooms ensures (room, l) in r || (l, room) in r {
        if k < |init| {
          assert init[k] == sides[k];
        }
      }
    }
  }

  lemma {:induction false} CoversGrow(m: PairMap, m': PairMap, room: string, sides: seq<LostSide>)
    requires Covers(m, room, sides)
    requires m.Keys <= m'.Keys
    ensures Covers(m', room, sides)
  {
  }

  // remove_duplicate_connections loses no broken pair: each lost neighbour
  // of each broken room is a key, one way round or the other.
  lemma {:induction false} DedupCovers(b: seq<BrokenRoom>, j: nat)
    requires j < |b|
    ensures Covers(Dedup(b), b[j].room, b[j].lost)
  {
    assert b[..j + 1][..j] == b[..j];
    InsertSidesCovers(Dedup(b[..j]), b[j].room, b[j].lost);
    DedupGrows(b, j + 1);
    CoversGrow(Dedup(b[..j + 1]), Dedup(b), b[j].room, b[j].lost);
  }

  // A key and its side come from one of the lost sides of the room it names.
  ghost predicate FromSides(room: string, sides: seq<LostSide>, l: string, d: Direction) {
    exists k :: 0 <= k < |sides| && sides[k].direction == d && l in sides[k].rooms
  }

  ghost predicate FromBroken(b: seq<BrokenRoom>, p: (string, string), d: Direction) {
    exists j :: 0 <= j < |b| && b[j].room == p.0 && FromSides(b[j].room, b[j].lost, p.1, d)
  }

  lemma {:induction false} InsertSidesSound(acc: PairMap, room: string, sides: seq<LostSide>, p: (string, string))
    requires p in InsertSides(acc, room, sides)
    ensures (p in acc && InsertSides(acc, room, sides)[p] == acc[p]) ||
      (p.0 == room && FromSides(room, sides, p.1, InsertSides(acc, room, sides)[p]))
  {
    if |sides| > 0 {
      var init := sides[..|sides| - 1];
      var last := sides[|sides| - 1];
      var mid := InsertSides(acc, room, init);
      var r := InsertSides(acc, room, sides);
      assert r == InsertSide(mid, room, last.direction, last.rooms);
      if p in mid && r[p] == mid[p] {
        InsertSidesSound(acc, room, init, p);
        if p.0 == room && FromSides(room, init, p.1, mid[p]) {
          var k :| 0 <= k < |init| && init[k].direction == mid[p] && p.1 in init[k].rooms;
          assert sides[k] == init[k];
        }
      } else {
        assert sides[|sides| - 1] == last;
      }
    }
  }

  // remove_duplicate_connections invents nothing: each key (room, l) with
  // side d has l among the lost neighbours on side d of the broken room.
  lemma {:induction false} DedupSound(b: seq<BrokenRoom>, p: (string, string))
    requires p in Dedup(b)
    ensures FromBroken(b, p, Dedup(b)[p])
  {
    var n := |b|;
    var init := b[..n - 1];
    var mid := Dedup(init);
    var r := Dedup(b);
    InsertSidesSound(mid, b[n - 1].room, b[n - 1].lost, p);
    if p in mid && r[p] == mid[p] {
      DedupSound(init, p);
      var j :| 0 <= j < |init| && init[j].room == p.0 && FromSides(init[j].room, init[j].lost, p.1, mid[p]);
      assert b[j] == init[j];
    }
  }
}
