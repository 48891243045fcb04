// The wall-segment form the frontend draws: convert_all_rooms_to_walls of
// backend_project/src/test_area.py and backend_project/src/add_new_room.py
// (the same code in both), and its inverse wall_segments_to_rooms of
// add_new_room.py.
module Segments {
  import opened Geometry
  import opened FloorPlan

  // One wall segment: {"start", "end", "thickness", "originalStart",
  // "originalEnd", "length"}.
  datatype Segment = Segment(start: Point, end: Point, thickness: int,
                             originalStart: Point, originalEnd: Point, length: int)

  datatype RoomSegments = RoomSegments(name: string, segments: seq<Segment>)
  type WallData = seq<RoomSegments>

  // The default thickness of convert_all_rooms_to_walls.
  const DefaultThickness := 30

  // One wall as a segment; the Euclidean length is given by euclid, since
  // the square root is not modelled.
  function ToSegment(w: Wall, thickness: int, euclid: Wall -> int): Segment {
    Segment(w.start, w.end, thickness, w.start, w.end, euclid(w))
  }

  // convert_room_to_walls: one segment per wall, in order.
  function ConvertRoomToWalls(walls: seq<Wall>, thickness: int, euclid: Wall -> int): (r: seq<Segment>)
    ensures |r| == |walls|
    ensures forall k :: 0 <= k < |walls| ==>
      r[k].start == r[k].originalStart == walls[k].start &&
      r[k].end == r[k].originalEnd == walls[k].end && r[k].thickness == thickness &&
      r[k].length == euclid(walls[k])
  {
    seq(|walls|, k requires 0 <= k < |walls| => ToSegment(walls[k], thickness, euclid))
  }

  // convert_all_rooms_to_walls: the same room keys in the same order.
  function ConvertAllRoomsToWalls(rooms: Plan, thickness: int, euclid: Wall -> int): (r: WallData)
    ensures |r| == |rooms|
    ensures forall i :: 0 <= i < |rooms| ==>
      r[i].name == rooms[i].name && r[i].segments == ConvertRoomToWalls(rooms[i].walls, thickness, euclid)
  {
    seq(|rooms|, i requires 0 <= i < |rooms| =>
      RoomSegments(rooms[i].name, ConvertRoomToWalls(rooms[i].walls, thickness, euclid)))
  }

  // wall_segments_to_rooms: the start and end of each segment.
  function SegmentsToWalls(segs: seq<Segment>): (r: seq<Wall>)
    ensures |r| == |segs|
    ensures forall k :: 0 <= k < |segs| ==> r[k] == Wall(segs[k].start, segs[k].end)
  {
    seq(|segs|, k requires 0 <= k < |segs| => Wall(segs[k].start, segs[k].end))
  }

  function WallSegmentsToRooms(data: WallData): (r: Plan)
    ensures |r| == |data|
    ensures forall i :: 0 <= i < |data| ==> r[i] == Room(data[i].name, SegmentsToWalls(data[i].segments))
  {
    seq(|data|, i requires 0 <= i < |data| => Room(data[i].name, SegmentsToWalls(data[i].segments)))
  }

  // Converting to segments and back gives the plan back.
  lemma RoundTrip(rooms: Plan, thickness: int, euclid: Wall -> int)
    ensures WallSegmentsToRooms(ConvertAllRoomsToWalls(rooms, thickness, euclid)) == rooms
  {
    var r := WallSegmentsToRooms(ConvertAllRoomsToWalls(rooms, thickness, euclid));
    forall i | 0 <= i < |rooms| ensures r[i] == rooms[i] {
      var segs := ConvertAllRoomsToWalls(rooms, thickness, euclid)[i].segments;
      assert SegmentsToWalls(segs) == rooms[i].walls;
    }
  }

  // A segment as the converter writes it: the original points are copies of
  // the current ones, with the given thickness and length.
  predicate Fresh(s: Segment, thickness: int, euclid: Wall -> int) {
    s.originalStart == s.start && s.originalEnd == s.end && s.thickness == thickness &&
    s.length == euclid(Wall(s.start, s.end))
  }

  predicate AllFresh(data: WallData, thickness: int, euclid: Wall -> int) {
    forall i, k :: 0 <= i < |data| && 0 <= k < |data[i].segments| ==> Fresh(data[i].segments[k], thickness, euclid)
  }

  // The other way round: segments written by the converter are recovered
  // from their start and end points, and only those are.
  lemma RoundTripBack(data: WallData, thickness: int, euclid: Wall -> int)
    ensures ConvertAllRoomsToWalls(WallSegmentsToRooms(data), thickness, euclid) == data <==> AllFresh(data, thickness, euclid)
  {
    var back := ConvertAllRoomsToWalls(WallSegmentsToRooms(data), thickness, euclid);
    if AllFresh(data, thickness, euclid) {
      forall i | 0 <= i < |data| ensures back[i] == data[i] {
        assert back[i].segments == data[i].segments;
      }
    }
    if back == data {
      forall i, k | 0 <= i < |data| && 0 <= k < |data[i].segments| ensures Fresh(data[i].segments[k], thickness, euclid) {
        assert back[i].segments[k] == data[i].segments[k];
      }
    }
  }
}
