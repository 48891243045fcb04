# Floor-plan engine in Dafny

A model of the rectilinear floor-plan engine of the backend (the Python
modules under `backend_project/src`) and of the pure helpers of the drawing
frontend (`frontend/src`), with proofs of what the code promises.

**Backend.** A floor plan maps room names, in dictionary insertion order, to
ordered lists of axis-aligned walls. The engine truncates every coordinate to
two decimals and compares coordinates only with `==`, so a coordinate is an
`int` number of hundredths (`Geometry`, `FloorPlan`). On this model:

- `Geometry` classifies walls and states the overlap predicates.
- `RoomData` builds the per-wall metadata: ids, parallel walls, free flag,
  direction and shoelace area.
- `Snap` pools near-equal coordinate values and replaces each value by its
  group's most frequent member.
- `Adjacency`, `CommonWalls`, `Connections`, `BrokenPairs` and `Reach` cover
  neighbours, the common-wall map, broken connections and directional reach.
- `Shift`, `Resize`, `Editor` and `Cascade` cover the in-place editing
  operations and the resize-with-cascade policy in its two variants.
  - `Editor` is a class over one metadata dictionary whose methods are
    proved against the value-level functions.
- `Pipeline` covers constraint enforcement and the phases of
  `adjust_dimension_main`.
- `Placement` and `AddRoom` cover two ways of placing a new rectangular
  room against an existing one, and the add-room flow with its validation.
- `Segments` covers the wall-segment form the frontend draws, and its
  inverse.
- `AreaGen` covers the area gate of the generator and the rescaling of a
  template.

**Frontend.** JavaScript numbers are exact reals (`Drawing`). On this model:

- `History` is the undo/redo history.
- `Coordinates` covers the screen/canvas transforms and the content bounds.
- `Canvas` covers exact endpoint matching, the endpoint search,
  `normalizeWallConnections` as an in-place method over an array of wall
  objects, and the closest point on a segment.
- `Lineweights` is the ISO 128-20 lineweight table.
- `DxfExport` and `ExportButton` are the two DXF writers.
  - Their group-code structure is stated in `GroupCodes`.
  - The whole-number text they print is `Text`.
  - Number formatting (`toFixed`, `String(x)` on non-integers) is a
    function parameter.

Shared types are in `Wrappers`. Python exceptions are modelled as `Err`
results that name the exception class: `KeyError`, `ValueError`,
`IndexError`, `TypeError`, `NameError`, `ZeroDivisionError`. `sys.exit` is
modelled as `Exit`.

## Model

| member | source | states |
|---|---|---|
| Geometry.Sorted | backend_project/src/new_room_maain.py:130-131 | sorted([start, end]) puts the lexicographically smaller point (by x, then y) first and keeps the same two points |
| Geometry.DetermineWallType | backend_project/src/new_room_maain.py:112-118 | vertical exactly when the x coordinates agree, horizontal exactly when only the y coordinates agree, diagonal otherwise |
| Geometry.AxisLength | backend_project/src/new_room_maain.py:108-109 | the length of a vertical wall is its y extent and of a horizontal wall its x extent (the square root is exact on axis-aligned walls), never negative |
| Geometry.CheckOverlap | backend_project/src/new_room_maain.py:128-139 | true exactly when all four x (or all four y) coordinates agree and the open extents on the other axis intersect |
| Geometry.IsOverlappingOrTouching | backend_project/src/new_room_maain.py:141-149 | true only for walls on one shared vertical or horizontal line |
| Geometry.CheckOverlapSymmetric | backend_project/src/new_room_maain.py:128-139 | check_overlap is symmetric |
| Geometry.OverlappingOrTouchingSymmetric | backend_project/src/new_room_maain.py:141-149 | is_overlapping_or_touching is symmetric |
| Geometry.NotCollinearNeverOverlaps | backend_project/src/new_room_maain.py:128-149 | neither predicate holds for walls not on one common line |
| Geometry.EndToEndIsNotOverlap | backend_project/src/new_room_maain.py:128-149 | collinear walls that only meet end to end neither overlap nor touch, in either argument order |
| Geometry.OverlapPredicatesAgree | backend_project/src/new_room_maain.py:128-149 | is_overlapping_or_touching holds exactly when check_overlap holds and both walls have positive length |
| Geometry.GetDirection | backend_project/src/new_room_maain.py:159-170 | a horizontal wall at max y is North, else at min y South; a vertical wall at min x is West, else at max x East; anything else Unknown |
| Geometry.ClassificationIgnoresOrientation | backend_project/src/new_room_maain.py:112-170 | wall type and side do not depend on which end is the start |
| Geometry.OppositeDirection | backend_project/src/new_room_maain.py:651-653 | the lookup fails (KeyError) exactly for Unknown |
| Geometry.OppositeIsInvolution | backend_project/src/new_room_maain.py:651-653 | the opposite of a side is a different side whose opposite is the side again |
| Geometry.Orientation | backend_project/src/new_room_maain.py:1999-2011 | the result is 0, 1 or 2 |
| Geometry.OrientationValueIsNegatedCross | backend_project/src/new_room_maain.py:2005 | the orientation value is the negated cross product of q - p and r - p |
| Geometry.OrientationZeroIffCollinear | backend_project/src/new_room_maain.py:1999-2011 | orientation is 0 exactly when the three points are collinear |
| Geometry.OrientationSwap | backend_project/src/new_room_maain.py:1999-2011 | exchanging q and r keeps 0 and exchanges 1 and 2 |
| Geometry.OnSegment | backend_project/src/new_room_maain.py:1992-1997 | on_segment holds exactly when q lies between p and r on each axis, and always for either endpoint |
| Geometry.DoIntersect | backend_project/src/new_room_maain.py:2013-2029 | segments with an endpoint in common intersect; symmetry in DoIntersectSymmetric, a shared start in DoIntersectSharedEndpoint |
| Geometry.DoIntersectSymmetric | backend_project/src/new_room_maain.py:2013-2029 | do_intersect is symmetric in its two segments |
| Geometry.DoIntersectSharedEndpoint | backend_project/src/new_room_maain.py:2013-2029 | two segments starting at one point intersect |
| FloorPlan.IndexOf | backend_project/src/new_room_maain.py:243 | the dictionary lookup: no position exactly when the name is absent, otherwise the first position holding it |
| FloorPlan.SetRoom | backend_project/src/new_room_placement.py:431 | assigning a room overwrites it in place when present and appends it at the end otherwise; every other room and every name stays |
| FloorPlan.IndexOfByNames | backend_project/src/new_room_maain.py:243 | the lookup depends only on the names up to the one found |
| FloorPlan.SetRoomKeepsDistinct | backend_project/src/new_room_placement.py:431 | assigning a room keeps the keys distinct |
| FloorPlan.RectangleWalls | backend_project/src/new_room_placement.py:424-429 | the new room is four walls, each starting where the previous ends, closing at the top-left corner |
| FloorPlan.BoxContainsWalls | backend_project/src/new_room_maain.py:183-186 | every wall lies inside the min/max bounding box of the room |
| FloorPlan.BoxIsAttained | backend_project/src/new_room_maain.py:183-186 | each side of the bounding box is reached by some wall |
| FloorPlan.BoxIs | backend_project/src/new_room_maain.py:183-186 | bounds that contain all walls and are attained are the bounding box |
| FloorPlan.RectangleExtent | backend_project/src/new_room_placement.py:424-429 | the rectangle spans [x, x + length] by [y - width, y] from its top-left corner (x, y) |
| Segments.ConvertRoomToWalls | backend_project/src/test_area.py:1259-1272 | one segment per wall in order, with start and end copied into originalStart and originalEnd, the given thickness and the wall's length as the given length function computes it |
| Segments.ConvertAllRoomsToWalls | backend_project/src/test_area.py:1258-1274 | the same room keys in the same order, each converted wall by wall |
| Segments.SegmentsToWalls | backend_project/src/add_new_room.py:30-37 | each segment becomes the wall from its start to its end, in order |
| Segments.WallSegmentsToRooms | backend_project/src/add_new_room.py:30-37 | the same room keys in the same order, each with the walls of its segments |
| Segments.RoundTrip | backend_project/src/add_new_room.py:30-95 | converting a plan to segments and back gives the plan back |
| Segments.RoundTripBack | backend_project/src/add_new_room.py:30-95 | converting segments to a plan and back gives them back exactly when every segment has the converter's thickness, length and original points |
| RoomData.CalculateArea | backend_project/src/new_room_maain.py:120-123 | the shoelace area is never negative and is zero for no points |
| RoomData.RectangleArea | backend_project/src/new_room_maain.py:120-123 | the area of a four-wall rectangle room is its length times its width |
| RoomData.IsWallFree | backend_project/src/new_room_maain.py:151-157 | a wall is free exactly when no wall of any other room overlaps it |
| RoomData.BlockedIffNotFree | backend_project/src/new_room_maain.py:151-157 | the recursive test for an overlapping wall of another room is the negation of freedom |
| RoomData.OverlapsSomeIff | backend_project/src/new_room_maain.py:154-156 | scanning a room's walls finds an overlap exactly when one of them overlaps |
| RoomData.SameTypeIds | backend_project/src/new_room_maain.py:201-205 | an id is listed exactly when some entry of that type carries it |
| RoomData.MakeRoomDataSpec | backend_project/src/new_room_maain.py:172-210 | make_roomdata fails (KeyError on the missing 'diagonal' key) exactly when some wall is neither horizontal nor vertical |
| RoomData.NumberWalls | backend_project/src/new_room_maain.py:181-199 | the first pass numbers the walls from the counter and collects the horizontal and the vertical ids, and stops exactly at a diagonal wall |
| RoomData.AssignParallel | backend_project/src/new_room_maain.py:201-205 | the second pass gives every entry the id list of its own type and changes nothing else |
| RoomData.RoomEntries | backend_project/src/new_room_maain.py:177-205 | both passes over one room give the specified entries, or nothing for a diagonal wall |
| RoomData.MakeRoomData | backend_project/src/new_room_maain.py:172-210 | the loop over the rooms computes the specified metadata or the KeyError |
| RoomData.DiagonalRoom | backend_project/src/new_room_maain.py:184 | any room with a diagonal wall makes the whole call fail |
| RoomData.BuildAppend | backend_project/src/new_room_maain.py:175-208 | numbering two groups of rooms is numbering the first and continuing the counter in the second |
| RoomData.RoomInfosAt | backend_project/src/new_room_maain.py:182-198 | entry k of a room holds wall k's id, length, type, coordinates, the room's area, whether the wall is free and its side of the bounding box |
| RoomData.ParallelWallsExact | backend_project/src/new_room_maain.py:201-205 | parallel_walls of each wall is exactly the ids of the same-type walls of its room, in order |
| RoomData.RoomIds | backend_project/src/new_room_maain.py:175-199 | a room's walls are numbered consecutively from the counter |
| RoomData.BuildIdsConsecutive | backend_project/src/new_room_maain.py:175-199 | the ids run consecutively across the rooms in order |
| RoomData.MetadataIds | backend_project/src/new_room_maain.py:172-210 | the wall ids of the result are exactly 1 .. N for N walls in all |
| RoomData.MetaOfRoom | backend_project/src/new_room_maain.py:172-210 | each room of the result describes a room of the plan under its name |
| RoomData.BuildDescribesRooms | backend_project/src/new_room_maain.py:175-198 | each entry is the entry list of a room with walls, numbered from where the rooms before it stopped |
| RoomData.BuildCoversRooms | backend_project/src/new_room_maain.py:175-198 | conversely every room with walls has its entry |
| RoomData.CalculateTotalArea | backend_project/src/new_room_maain.py:212-219 | the loop adds the area on the first wall entry of each room |
| RoomData.TotalAreaIsPlanArea | backend_project/src/new_room_maain.py:212-219 | totalling the first entries gives the sum of the room areas |
| RoomData.MetadataArea | backend_project/src/new_room_maain.py:172-219 | the total area of make_roomdata's result is the sum of the shoelace areas of the rooms |
| RoomData.FindMeta | backend_project/src/new_room_maain.py:2078 | the metadata lookup finds the room when present and reports its absence otherwise |
| RoomData.IsDirectionFree | backend_project/src/new_room_maain.py:2077-2082 | KeyError exactly for a room without metadata; otherwise true exactly when every wall facing the direction is free |
| Snap.NearFarMembers | backend_project/src/new_room_maain.py:1113-1116 | the sweep keeps in the group exactly the values within the threshold of the base and leaves exactly the others |
| Snap.SweepNear | backend_project/src/new_room_maain.py:1111-1116 | one sweep over a copy of the list moves every value near the base into its group and leaves the far values, in order |
| Snap.GroupNearValues | backend_project/src/new_room_maain.py:1108-1118 | the loop of group_near_values computes the specified groups |
| Snap.GroupsPartition | backend_project/src/new_room_maain.py:1108-1118 | the groups together hold every value exactly as often as the input |
| Snap.GroupsAreNear | backend_project/src/new_room_maain.py:1108-1118 | every group is non-empty and every member is within the threshold of the group's first value |
| Snap.GroupsFromValues | backend_project/src/new_room_maain.py:1108-1118 | every grouped value comes from the input |
| Snap.BasesApart | backend_project/src/new_room_maain.py:1108-1118 | the first values of the groups are pairwise at least the threshold apart |
| Snap.MostCommon | backend_project/src/new_room_maain.py:1120-1125 | the chosen value is a member of at least the count of every other member |
| Snap.MostCommonOfDistinct | backend_project/src/new_room_maain.py:1120-1125 | in a group without repeats the most frequent value is the first one |
| Snap.SnapWallsAt | backend_project/src/new_room_maain.py:1139-1146 | every point of every wall moves to its replaced x and y |
| Snap.SnapRoomsAt | backend_project/src/new_room_maain.py:1139-1146 | snapping keeps each room's name and walls count and moves each point |
| Snap.SnapRoomWalls | backend_project/src/new_room_maain.py:1140-1146 | the loop over one room's walls computes the snapped walls |
| Snap.SnapAllRooms | backend_project/src/new_room_maain.py:1139-1146 | the loop over the rooms computes the snapped plan |
| Snap.ReplaceNearValues | backend_project/src/new_room_maain.py:1127-1147 | grouping the distinct coordinates and replacing every coordinate computes the specified snapped plan |
| SnapProperties.ReplaceAbsent | backend_project/src/new_room_maain.py:1142-1146 | a value in no group is left alone |
| SnapProperties.SnapToBase | backend_project/src/new_room_maain.py:1127-1147 | with distinct values each coordinate moves to its group's first value, an input value within the threshold of it |
| SnapProperties.ReplaceFixed | backend_project/src/new_room_maain.py:1127-1147 | when the values are pairwise at least the threshold apart, snapping changes nothing |
| SnapProperties.SnappedValues | backend_project/src/new_room_maain.py:1139-1146 | every snapped coordinate is the replacement of an original coordinate |
| SnapProperties.SnapRoomsIdentity | backend_project/src/new_room_maain.py:1139-1146 | groups that fix every coordinate leave the plan unchanged |
| SnapProperties.SnappedAreBases | backend_project/src/new_room_maain.py:1127-1147 | every coordinate of the snapped plan is the first value of a group |
| SnapProperties.SnapIdempotent | backend_project/src/new_room_maain.py:1127-1147 | snapping the snapped plan again, with its distinct values in any order, changes nothing |
| Adjacency.Add | backend_project/src/test_area.py:285-293 | appending a neighbour adds it to that side and to no other |
| Adjacency.Facing | backend_project/src/test_area.py:283-293 | a wall pair gives a side exactly when the two walls overlap or touch, and that side is never Unknown |
| Adjacency.TouchRoom | backend_project/src/test_area.py:275-293 | the loop over another room's walls adds that room to each side some wall of it faces, and never the target itself |
| Adjacency.TouchRooms | backend_project/src/test_area.py:274-293 | the loop over all rooms adds the neighbours of one target wall on every side |
| Adjacency.FindAdjacentRooms | backend_project/src/test_area.py:263-300 | a missing target room fails; otherwise the sides list exactly the specified neighbours |
| Adjacency.TouchesOnIff | backend_project/src/test_area.py:278-293 | a room touches on a side exactly when one of its walls faces the target wall on that side |
| Adjacency.WallNeighboursIff | backend_project/src/test_area.py:274-293 | a room is a neighbour of one target wall on a side exactly when it is another room that touches on that side |
| Adjacency.NeighboursIff | backend_project/src/test_area.py:270-293 | the neighbours of the room are the neighbours of any of its walls |
| Adjacency.SidesIff | backend_project/src/test_area.py:263-300 | a room is listed on a side exactly when a wall of it and a wall of the target face each other on that side |
| Adjacency.AdjacentRoomsNeverSelf | backend_project/src/test_area.py:275-276 | the target room never lists itself |
| Adjacency.OverlapIffContact | backend_project/src/test_area.py:282-293 | two walls that overlap always face each other on one of the four sides |
| Adjacency.AdjacentRoomsMeaning | backend_project/src/test_area.py:263-300 | a room is a neighbour on some side exactly when one of its walls overlaps or touches one of the target's walls |
| Adjacency.SnappedAdjacencyAt | backend_project/src/new_room_maain.py:1839-1872 | the plan is snapped first; the search fails only for a diagonal wall or a missing room and otherwise runs the plain search on the snapped plan |
| Adjacency.FindAdjacentRoomsSnapped | backend_project/src/new_room_maain.py:1839-1872 | the snapping search with threshold 0.2 returns the snapped plan and the specified sides |
| Adjacency.SnappedAdjacencyStable | backend_project/src/new_room_maain.py:1839-1872 | searching again on the plan it left behind changes nothing and gives the same answer |
| CommonWalls.CommonWallsOfRooms | backend_project/src/new_room_maain.py:1065-1068 | the two inner loops collect exactly the overlapping wall pairs of two rooms, first room's walls major |
| CommonWalls.FindCommonWalls | backend_project/src/new_room_maain.py:1055-1074 | the loops over the room pairs compute the specified map |
| CommonWalls.PairsWithIff | backend_project/src/new_room_maain.py:1066-1068 | one wall's pairs are exactly the walls of the other room it overlaps |
| CommonWalls.CommonOfIff | backend_project/src/new_room_maain.py:1065-1068 | the common walls of two rooms are exactly their overlapping wall pairs |
| CommonWalls.RowIff | backend_project/src/new_room_maain.py:1060-1071 | the entries of room i are its pairs with later rooms that have common walls |
| CommonWalls.CommonUpToIff | backend_project/src/new_room_maain.py:1059-1071 | the map over the first rooms holds exactly their entries |
| CommonWalls.CommonWallsMeaning | backend_project/src/new_room_maain.py:1055-1074 | the map has an entry for rooms i < j exactly when some of their walls overlap, and it lists exactly those pairs |
| CommonWalls.CommonWallsAreOverlaps | backend_project/src/new_room_maain.py:1055-1074 | every listed pair is a wall of the first room and an overlapping wall of the second |
| CommonWalls.AnalyzeWallChanges | backend_project/src/new_room_maain.py:1077-1105 | the loop reports the specified lost pairs in the first map's order |
| CommonWalls.LostPairsIff | backend_project/src/new_room_maain.py:1077-1105 | a pair is reported exactly when it is a key of the first map that the second lacks, holds empty or with different orientations; a pair only in the second map is never reported |
| CommonWalls.NoneLost | backend_project/src/new_room_maain.py:1077-1105 | nothing is reported when no entry is lost |
| CommonWalls.NothingLostAgainstItself | backend_project/src/new_room_maain.py:1077-1105 | comparing a map with itself reports nothing |
| CommonWalls.LookupFindsFirst | backend_project/src/new_room_maain.py:1083 | plan2.get finds the entry of the key or nothing when there is none |
| Adjacency.FindAdjacentRoomsSnappedAt | backend_project/src/new_room_placement.py:165-203 | the snapping search with a given threshold returns the snapped plan and the specified sides |
| Connections.RemoveRoom | backend_project/src/new_room_maain.py:1935-1936 | deleting the new room leaves an absent room's plan as it is and otherwise drops one room |
| Connections.CompareRoom | backend_project/src/new_room_maain.py:1938-1946 | one turn of the loop compares a room's neighbours side by side, as specified |
| Connections.CompareFloorPlans | backend_project/src/new_room_maain.py:1926-1948 | removing the new room, snapping both plans and comparing every room computes the specified broken connections and broken rooms |
| Connections.CompareAll | backend_project/src/new_room_maain.py:1938-1946 | the loop over the original rooms collects the specified reports |
| Connections.ErrorPersists | backend_project/src/new_room_maain.py:1938-1940 | an exception in one room's search ends the whole comparison with it |
| Connections.LostSidesMeaning | backend_project/src/new_room_maain.py:1942-1946 | a side is reported exactly when its neighbour sets differ, with the neighbours the original had and the update lost |
| Connections.LostSidesEmptyIff | backend_project/src/new_room_maain.py:1942-1946 | nothing is reported for a room exactly when its neighbours are unchanged |
| Connections.AdjacentRoomsOk | backend_project/src/new_room_maain.py:1843 | the neighbour search succeeds exactly on rooms of the plan |
| Connections.RoomLostOk | backend_project/src/new_room_maain.py:1939-1940 | a room's comparison fails exactly when the room is missing from one plan |
| Connections.CollectOk | backend_project/src/new_room_maain.py:1938-1946 | the loop succeeds exactly when every comparison does |
| Connections.CollectEntries | backend_project/src/new_room_maain.py:1945-1946 | every reported room carries the non-empty result of its comparison |
| Connections.CollectRooms | backend_project/src/new_room_maain.py:1946 | a room is among the broken rooms exactly when it was compared and found changed |
| Connections.SnapKeepsNames | backend_project/src/new_room_maain.py:1127-1147 | snapping keeps the room names in order |
| Connections.RemoveRoomGone | backend_project/src/new_room_maain.py:1935-1936 | after the deletion the new room is gone and every other room is still there |
| Connections.CompareFails | backend_project/src/new_room_maain.py:1926-1948 | the comparison fails exactly when a snapped plan has a diagonal wall or an original room other than the new one is missing from the update |
| Connections.ReportedIff | backend_project/src/new_room_maain.py:1938-1946 | on the snapped plans a room is reported exactly when its neighbours on some side differ |
| Connections.CompareMeaning | backend_project/src/new_room_maain.py:1926-1948 | a room is broken exactly when it is in the original plan and its neighbours on some side differ between the two snapped plans |
| Connections.CompareEntries | backend_project/src/new_room_maain.py:1942-1946 | each report lists the changed sides of its room, at least one |
| Connections.CompareSkipsNewRoom | backend_project/src/new_room_maain.py:1935-1936 | the new room itself is never reported |
| BrokenPairs.InsertSide | backend_project/src/new_room_maain.py:1972-1974 | the keys after one side are the old keys plus (room, l) for each lost l whose reverse pair is absent |
| BrokenPairs.InsertLostRooms | backend_project/src/new_room_maain.py:1972-1974 | the loop over the lost rooms of one side computes that map |
| BrokenPairs.InsertSideAt | backend_project/src/new_room_maain.py:1972-1974 | a key is present after the side exactly when it was before or is newly added, and a new key maps to the side |
| BrokenPairs.InsertLostSides | backend_project/src/new_room_maain.py:1971-1974 | the loop over the sides of one room computes the specified map |
| BrokenPairs.RemoveDuplicateConnections | backend_project/src/new_room_maain.py:1966-1975 | the loops over the broken rooms compute the specified map |
| BrokenPairs.DedupAsymmetric | backend_project/src/new_room_maain.py:1966-1975 | no pair of distinct rooms is recorded both ways round |
| BrokenPairs.DedupGrows | backend_project/src/new_room_maain.py:1970-1974 | keys are only ever added |
| BrokenPairs.DedupCovers | backend_project/src/new_room_maain.py:1966-1975 | every lost neighbour of every broken room is a key one way round or the other |
| BrokenPairs.DedupSound | backend_project/src/new_room_maain.py:1966-1975 | every key (room, l) with side d has l among the neighbours room lost on side d |
| Reach.Names | backend_project/src/new_room_maain.py:1843 | the room names of the plan |
| Reach.DirectionOf | backend_project/src/new_room_maain.py:1881 | only the four side keys select a side |
| Reach.AdjInPlan | backend_project/src/new_room_maain.py:1849-1852 | every neighbour is a room of the plan |
| Reach.ReachableThrough | backend_project/src/new_room_maain.py:1881-1884 | a room reached from a neighbour is reached from the room |
| Reach.Explore | backend_project/src/new_room_maain.py:1876-1886 | one call keeps what was found, adds every neighbour on the side, and each newly found room has its neighbours found and is reached from the start |
| Reach.ExploreNeighbour | backend_project/src/new_room_maain.py:1882-1884 | one turn of the loop searches from an unfound neighbour and keeps the search's invariants |
| Reach.ExploreComplete | backend_project/src/new_room_maain.py:1876-1886 | a found set closed under neighbours holds every room at the end of a walk from the start |
| Reach.FindAdjacentRoomsInDirection | backend_project/src/new_room_maain.py:1876-1886 | after the snap: KeyError for a diagonal wall, a missing room or a bad direction key; otherwise exactly the rooms reachable in one or more steps on that side |
| Shift.FindMetaUnique | backend_project/src/new_room_maain.py:241 | with distinct room keys the lookup finds each room at its own position |
| Shift.Translate | backend_project/src/new_room_maain.py:244-255 | North and South move y up or down by delta, East and West move x, any other direction moves nothing |
| Shift.RelatedToMain | backend_project/src/new_room_maain.py:239-242 | the effective table is the room alone, and nothing moves when the room is the main room |
| Shift.RelatedRooms | backend_project/src/adjust_dimension.py:225-235 | 'MB Passage' as main room moves the bedroom and washroom; otherwise the master bedroom takes its two companions and any other room moves alone (the first test is always overwritten) |
| Shift.FirstMissing | backend_project/src/test_area.py:244-245 | the first listed room without metadata, or none when all are present |
| Shift.TranslateAxis | backend_project/src/new_room_maain.py:244-255 | only the coordinate on the direction's axis changes, by exactly delta with the direction's sign |
| Shift.MoveWallKeeps | backend_project/src/new_room_maain.py:256-257 | a moved wall's length is recomputed to the same value, and every field but the coordinates and length is kept |
| Shift.TranslateTwice | backend_project/src/new_room_maain.py:244-255 | two shifts in one direction are one shift by the sum |
| Shift.MoveWallsTwice | backend_project/src/new_room_maain.py:243-257 | shifting a room's walls twice is shifting them once by the sum |
| Shift.MoveRoomAt | backend_project/src/new_room_maain.py:240-257 | moving one room translates that room by delta and leaves every other room exactly as it was |
| Shift.MoveRoomsAt | backend_project/src/adjust_dimension.py:237-253 | after the table's moves each room is translated by delta times the number of times it is listed, or untouched |
| Shift.MoveRoomsKeepsNames | backend_project/src/adjust_dimension.py:237-253 | shifting keeps every room's name, so the keys stay distinct |
| Shift.ShiftRoomMainMoves | backend_project/src/new_room_maain.py:228-258 | a present room other than the main room has every wall translated along the axis, length kept |
| Shift.ShiftRoomMainFrame | backend_project/src/new_room_maain.py:241-242 | every other room, and the room itself when it is the main room, stays as it was |
| Shift.ShiftRoomMainMissing | backend_project/src/new_room_maain.py:241 | a room without metadata changes nothing |
| Shift.ShiftRoomSpecAt | backend_project/src/adjust_dimension.py:223-253 | each room of the table moves once and every other room is untouched |
| Shift.ShiftRoomSpecMovesMain | backend_project/src/adjust_dimension.py:230-233 | the main room is not excluded: the master bedroom moves even as the main room |
| Shift.TestAreaAsWrittenFails | backend_project/src/test_area.py:235-245 | as written, shifting the master bedroom fails with KeyError when its passage exists and its washroom does not |
| Shift.ShiftTestArea | backend_project/src/test_area.py:229-260 | corrected shift_room: with a main room other than the companions it fails exactly for a room without metadata, always with the KeyError of a listed missing room, and keeps the number of rooms; what moves is in TestAreaShiftSucceeds and TestAreaTable |
| Shift.TestAreaAsWrittenExample | backend_project/src/test_area.py:235-245 | the concrete plan of a master bedroom and a passage makes the call as written fail |
| Shift.TestAreaShiftSucceeds | backend_project/src/test_area.py:229-260 | with the corrected guard, shifting a present room never fails and moves exactly the rooms of the table |
| Shift.TestAreaTable | backend_project/src/test_area.py:234-242 | the corrected table lists the room first and each companion exactly when it exists |
| Resize.AdjustEndsMoves | backend_project/src/adjust_dimension.py:498-514 | only the axis coordinate changes: for North and East the far end moves out by delta, for South and West the near end moves back by delta, and the other end stays |
| Resize.AdjustEndsGrows | backend_project/src/adjust_dimension.py:498-514 | a wall along the direction's axis grows by exactly delta |
| Resize.UpdateAdjacent | backend_project/src/adjust_dimension.py:516-532 | rewiring the neighbouring walls keeps the number of rooms |
| Resize.FindMetaShape | backend_project/src/adjust_dimension.py:517 | moving coordinates inside one room never changes which room a lookup finds |
| Resize.UpdateAdjacentMeaning | backend_project/src/adjust_dimension.py:516-540 | only the room's own walls change, and only those that share an old endpoint and are not also a wall of another room: their first matching old endpoint moves to the matching new one |
| Resize.DimensionsMeaning | backend_project/src/adjust_dimension.py:456-466 | width and height are not negative, (0, 0) for no walls, and otherwise every endpoint lies in a box of that size whose sides are reached |
| Resize.Step | backend_project/src/adjust_dimension.py:548-557 | one turn changes only coordinates and lengths in the room |
| Resize.StepMeaning | backend_project/src/adjust_dimension.py:548-557 | a picked wall not yet updated gets the coordinates adjusted by delta toward the direction and their length, its id is recorded, and the other walls of the room sharing an old endpoint are rewired onto the new ones; any other turn changes nothing |
| Resize.StepGrows | backend_project/src/adjust_dimension.py:548-556 | a picked wall along the direction's axis grows by exactly delta |
| Resize.StepConsistent | backend_project/src/adjust_dimension.py:554-557 | each turn keeps every recorded wall length of the room equal to the length of its coordinates |
| Resize.RowConsistent | backend_project/src/adjust_dimension.py:548-557 | so does the inner loop |
| Resize.RowsConsistent | backend_project/src/adjust_dimension.py:547-557 | and both loops |
| Resize.Rows | backend_project/src/adjust_dimension.py:547-557 | the loops change only coordinates and lengths in the room |
| Resize.RowUpdated | backend_project/src/adjust_dimension.py:548-550 | the inner loop adds exactly the walls it picks to the updated set |
| Resize.RowsUpdated | backend_project/src/adjust_dimension.py:547-550 | the updated set grows by exactly the walls of the type and the walls parallel to them |
| Resize.RowsUnchanged | backend_project/src/adjust_dimension.py:549 | a pass whose walls are all already updated changes nothing |
| Resize.Dimension3Meaning | backend_project/src/adjust_dimension.py:542-557 | update_wall_length_by_dimension3 touches nothing outside the room and only coordinates and lengths inside it, and adds exactly the selected walls to the updated set |
| Resize.Dimension3Once | backend_project/src/adjust_dimension.py:542-557 | called again with the set it returned and a direction of the same axis it changes nothing: each wall is adjusted once |
| Resize.Dimension3Frame | backend_project/src/adjust_dimension.py:542-557 | every other room stays as it was |
| Resize.Dimension3Consistent | backend_project/src/adjust_dimension.py:542-557 | update_wall_length_by_dimension3 keeps the room's recorded wall lengths those of its coordinates |
| Resize.Dimension2Gate | backend_project/src/adjust_dimension.py:469-483 | a washroom whose dimension along the direction plus the delta's size passes its maximum is left alone |
| Resize.Dimension2Otherwise | backend_project/src/adjust_dimension.py:484-496 | without the gate it is update_wall_length_by_dimension3 |
| Resize.DirectionFree | backend_project/src/adjust_dimension.py:560-565 | KeyError exactly for a missing room |
| Resize.OppositeKey | backend_project/src/adjust_dimension.py:567-569 | the dictionary lookup fails exactly for a key other than the four sides |
| Resize.StrategyOrder | backend_project/src/adjust_dimension.py:571-583 | with the overlap flag shrink the shifted room; else grow the unshifted room when its side is free; else grow the shifted room the opposite way when that side is free; a missing unshifted room fails |
| Resize.UpdateShiftsFrame | backend_project/src/adjust_dimension.py:571-583 | one stitching step changes only the two rooms of the pair |
| Resize.PlanOf | backend_project/src/adjust_dimension.py:600 | the rooms read back from the metadata, one per room |
| Resize.RunTasksFrame | backend_project/src/adjust_dimension.py:587-598 | the shift loop leaves every room that no task names exactly as it was |
| Resize.StitchFrame | backend_project/src/adjust_dimension.py:585-601 | stichFloorplan leaves every room that no pair of the analysis names unchanged |
| Resize.StitchNothing | backend_project/src/adjust_dimension.py:585-601 | with no shifts it changes nothing |
| Resize.RoomViolationsIff | backend_project/src/adjust_dimension.py:606-614 | a room reports a violation exactly for each dimension out of its bounds, with the measured value |
| Resize.ViolationsIff | backend_project/src/adjust_dimension.py:603-615 | a message is produced exactly for each room and dimension out of bounds; a missing minimum is 0 and a missing maximum infinite |
| Resize.UnconstrainedNeverReported | backend_project/src/adjust_dimension.py:607-610 | a room without constraints is never reported |
| Editor.MetadataEditor.constructor | backend_project/src/adjust_dimension.py:586 | the editor holds the given metadata and an empty updated_walls set |
| Editor.MetadataEditor.MoveRoomWalls | backend_project/src/adjust_dimension.py:239-253 | the wall loop replaces room i by its walls translated along the axis with lengths recomputed, and changes nothing else |
| Editor.MetadataEditor.MoveRoomByName | backend_project/src/adjust_dimension.py:238-253 | a present room is moved and a missing one changes nothing |
| Editor.MetadataEditor.MoveRelated | backend_project/src/adjust_dimension.py:237-253 | the loop over the related rooms moves each room of the list in turn |
| Editor.MetadataEditor.ShiftRoom | backend_project/src/adjust_dimension.py:223-253 | shift_room leaves exactly the metadata of the related-room table's moves |
| Editor.MetadataEditor.ShiftRoomPlacement | backend_project/src/new_room_maain.py:228-258 | shift_room moves the room unless it is the main room or missing |
| Editor.MetadataEditor.IsConnectedToOtherRoom | backend_project/src/adjust_dimension.py:534-540 | true exactly when the wall, either way round, is a wall of another room |
| Editor.MetadataEditor.UpdateAdjacentWalls | backend_project/src/adjust_dimension.py:516-532 | the loop leaves exactly the specified rewired metadata |
| Editor.MetadataEditor.AdjustWall | backend_project/src/adjust_dimension.py:549-557 | one turn adjusts a wall picked and not yet updated, records it and rewires its neighbours |
| Editor.MetadataEditor.UpdateWallLengthByDimension3 | backend_project/src/adjust_dimension.py:542-557 | the state after the call is the specified one; a missing room raises KeyError with nothing changed |
| Editor.MetadataEditor.RunRows | backend_project/src/adjust_dimension.py:547-557 | the outer loop over the wall numbers leaves the specified state |
| Editor.MetadataEditor.RunRow | backend_project/src/adjust_dimension.py:548-557 | the inner loop over the room's walls leaves the specified state |
| Editor.MetadataEditor.UpdateWallLengthByDimension2 | backend_project/src/adjust_dimension.py:469-496 | nothing changes for a washroom past its maximum, otherwise as dimension3 |
| Editor.MetadataEditor.UpdateShiftsBasedOnWallAvailability | backend_project/src/adjust_dimension.py:571-583 | the state or the error after the call is that of the specified strategy |
| Editor.MetadataEditor.RunStrategy | backend_project/src/adjust_dimension.py:573-583 | the resize the chosen strategy runs leaves the specified state or error |
| Editor.MetadataEditor.StichFloorplan | backend_project/src/adjust_dimension.py:585-601 | a fresh updated set, then every shifted room with details in order, leaves the specified metadata or error |
| Editor.MetadataEditor.RunTask | backend_project/src/adjust_dimension.py:595-598 | one call of update_shifts_based_on_wall_availability runs one more task: the new state, or the error, is that of the task list extended by it |
| Editor.MetadataEditor.StitchEntry | backend_project/src/adjust_dimension.py:590-598 | the loop over one entry's shifted rooms runs one more task for each room given a shift |
| Editor.MetadataEditor.ValidateRoomDimensions | backend_project/src/adjust_dimension.py:603-615 | the messages are exactly the specified violations, in room order |
| Resize.ConnectedElsewhereOthers | backend_project/src/adjust_dimension.py:534-540 | the test looks only at other rooms, so it answers alike before and after a change to the room itself |
| Editor.RunTasksFailed | backend_project/src/adjust_dimension.py:587-598 | once a task fails, the remaining tasks change nothing about the failure |
| Editor.PrefixFails | backend_project/src/adjust_dimension.py:587-598 | a failed run fails every longer run the same way |
| Cascade.SnapMeta | backend_project/src/new_room_maain.py:754-778 | the search snaps the lists of the metadata in place: same rooms, same walls count |
| Cascade.SnapMetaPlan | backend_project/src/new_room_maain.py:754-778 | the plan read back from the snapped metadata is the snapped plan |
| Cascade.SnapMetaKeeps | backend_project/src/new_room_maain.py:778 | the snap changes wall coordinates only, the recorded lengths included stay |
| Cascade.RepeatedSnapStable | backend_project/src/new_room_maain.py:791 | the later searches of one call snap an already snapped plan, which changes nothing |
| Cascade.InOrder | backend_project/src/new_room_maain.py:783 | the neighbours in metadata order, at most one per room |
| Cascade.ShiftBy | backend_project/src/new_room_maain.py:783-785 | the shifts of a step keep the room names and select the step's direction |
| Cascade.MoveRoomsNames | backend_project/src/new_room_maain.py:785 | shifting keeps every room name in place |
| Cascade.Decide | backend_project/src/new_room_maain.py:769-804 | choosing the direction keeps the room names, and giving up leaves only the snapped metadata |
| Cascade.InlineStep | backend_project/src/new_room_maain.py:809-856 | one resize step changes only coordinates and lengths of the room's walls |
| Cascade.FinalRows | backend_project/src/new_room_maain.py:806-856 | the final loops change only coordinates and lengths of the room's walls |
| Cascade.LastPicking | backend_project/src/new_room_maain.py:759-767 | the last wall a wall number selects, or none when it selects none |
| Cascade.AdjustDimensionWith | backend_project/src/adjust_dimension.py:645-756 | the procedure keeps the room names in order |
| Cascade.AdjustDimensionAsWritten | backend_project/src/new_room_maain.py:753-858 | the procedure as written, whose third step walks the direction keys (line 792, as adjust_dimension.py:686 does), keeps the room names in order; the pipeline runs this one |
| Cascade.AdjustDimension | backend_project/src/adjust_dimension.py:682-699 | the corrected procedure, whose third step tests the rooms beyond the neighbours, keeps the room names in order |
| Cascade.InlineEndsMeaning | backend_project/src/adjust_dimension.py:711-730 | toward North or East the low end stays and the high end ends newLength beyond it; toward South or West the high end stays; the other axis is untouched |
| Cascade.InlineStepConsistent | backend_project/src/adjust_dimension.py:732-750 | after one resize step every wall of the room has the length of its coordinates |
| Cascade.InlineStepOthers | backend_project/src/adjust_dimension.py:736-750 | every other wall has its first endpoint equal to an old endpoint moved along, with no test for shared walls |
| Cascade.FinalRowConsistent | backend_project/src/adjust_dimension.py:704-750 | once consistent the room stays so, and a row that resizes a wall leaves it consistent |
| Cascade.UnpickedStep | backend_project/src/adjust_dimension.py:702 | a wall the wall number does not select is left as it is |
| Cascade.FinalRowsConsistent | backend_project/src/adjust_dimension.py:701-750 | the final loops leave every wall of the room with the length of its coordinates |
| Cascade.FirstFreeDirection | backend_project/src/adjust_dimension.py:663-750 | when one of the two sides is free the first free one is used, nothing is snapped and no other room moves |
| Cascade.FreshRoomConsistent | backend_project/src/adjust_dimension.py:701-750 | in that case the room ends with every wall length matching its coordinates |
| Cascade.GiveUpOnlySnaps | backend_project/src/adjust_dimension.py:697-699 | giving up leaves only the snap of the search: coordinates snapped, all else as it was |
| Cascade.InOrderCount | backend_project/src/new_room_maain.py:783-785 | each present neighbour is shifted exactly once, whatever the set order |
| Cascade.RelatedAllPlacementCount | backend_project/src/new_room_maain.py:228-258 | with new_room_maain.py's shift_room each listed room moves as often as it is listed, the main room never |
| Cascade.NotOwnNeighbour | backend_project/src/new_room_maain.py:1853-1854 | the searched room is never among its own neighbours |
| Cascade.SecondStepShiftsNeighbours | backend_project/src/new_room_maain.py:777-786 | as written and corrected alike (for either third-step test), with the room blocked both ways and its first-side neighbours free there, each neighbour moves once by delta toward that side and every other room keeps its snapped coordinates |
| Cascade.SecondStepDecision | backend_project/src/new_room_maain.py:777-786 | in that case, for either third-step test, the first side is chosen and its neighbours are shifted |
| Cascade.KeysCheckVacuous | backend_project/src/adjust_dimension.py:686 | as written the third-step test walks the direction keys and holds whatever the rooms beyond are |
| Cascade.AsWrittenNeverGivesUp | backend_project/src/adjust_dimension.py:682-699 | so as written the procedure never gives up once the earlier steps fail |
| Cascade.KeysCheckMissesBlockedRoom | backend_project/src/adjust_dimension.py:686 | with a room beyond a neighbour blocked toward the side, the written test passes and the intended one fails |
| Cascade.ThirdStepChecked | backend_project/src/adjust_dimension.py:682-699 | the corrected third step shifts toward a side exactly when every room beyond the neighbours there is free toward it |
| Pipeline.Requests | backend_project/src/adjust_dimension.py:632-643 | each dimension below its minimum is raised to exactly the minimum, width first, and nothing is asked of a room that meets both |
| Pipeline.ApplyRequests | backend_project/src/adjust_dimension.py:636-643 | the adjust_dimension calls, run as written, keep the room names |
| Pipeline.EnforceRoom | backend_project/src/adjust_dimension.py:622-643 | fixed and excluded rooms are left alone, a room without constraints raises KeyError, and the names stay |
| Pipeline.EnforceNames | backend_project/src/adjust_dimension.py:622-643 | the loop over the rooms keeps the room names |
| Pipeline.Enforce | backend_project/src/adjust_dimension.py:617-643 | adjust_room_dimensions_to_meet_constraints keeps the room names |
| Pipeline.EnforceRoomMet | backend_project/src/adjust_dimension.py:632-643 | a room at or above both minima is left as it is |
| Pipeline.EnforceStopsAtUnconstrained | backend_project/src/adjust_dimension.py:624-628 | a room of an unconstrained kind, neither fixed nor excluded, stops the enforcement with KeyError |
| Pipeline.EnforceRoomWidthOnly | backend_project/src/adjust_dimension.py:636-639 | only the width below its minimum: one call of adjust_dimension as written, to exactly the minimum width |
| Pipeline.EnforceRoomHeightOnly | backend_project/src/adjust_dimension.py:640-643 | only the height below its minimum: one call of adjust_dimension as written, to exactly the minimum height |
| Pipeline.EnforceNamesAllSkipped | backend_project/src/adjust_dimension.py:619-624 | when every room is fixed or excluded nothing changes |
| Pipeline.FixAxis | backend_project/src/adjust_dimension.py:1192-1213 | a requested value of 0 changes nothing |
| Pipeline.FixRoom | backend_project/src/adjust_dimension.py:1187-1236 | a fixed room without metadata is skipped |
| Pipeline.Prepare | backend_project/src/adjust_dimension.py:1180-1184 | the first make_roomdata fails exactly for a diagonal wall, and the frozen target is the total area of the given plan |
| Pipeline.ZeroWidthSkips | backend_project/src/adjust_dimension.py:1189-1216 | a width request of 0 leaves only the height request, measured against the height read at the start |
| Pipeline.ZeroDimensionsSkip | backend_project/src/adjust_dimension.py:1192-1215 | both requests 0 leave the room as it is |
| Pipeline.FreezeTarget | backend_project/src/adjust_dimension.py:1182-1244 | the rebalancing target is the area of the plan as given, before any edit |
| Pipeline.AdjustDimensionMain | backend_project/src/adjust_dimension.py:1176-1259 | adjust_dimension_main fails with KeyError 'diagonal' for a diagonal wall in the given plan, and every plan it returns has only horizontal and vertical walls; the phases are in FreezeTarget, OnlyYesRebalances, NoFreezeResult, DiagonalFails and NothingFixedFails |
| Pipeline.OnlyYesRebalances | backend_project/src/adjust_dimension.py:1243-1259 | only area_freeze 'Yes' rebalances; otherwise the rebalancing plays no part |
| Pipeline.NoFreezeResult | backend_project/src/adjust_dimension.py:1256-1259 | without freezing the result is the adjusted plan itself |
| Pipeline.DiagonalFails | backend_project/src/adjust_dimension.py:1181 | a diagonal wall in the given plan fails at once |
| Pipeline.FixRoomsAllSkipped | backend_project/src/adjust_dimension.py:1187-1236 | a loop that adjusts no axis leaves the phase as it is |
| Pipeline.NothingFixedFails | backend_project/src/adjust_dimension.py:1187-1239 | when no axis of a present room is requested, updated_rooms is never assigned and the enforcement call fails |
| Placement.SideDirection | backend_project/src/new_room_placement.py:249-255 | a side name outside Top, Bottom, Left and Right is exactly the ValueError with the source's message; the four names map to real directions |
| Placement.SideDirectionsOpposite | backend_project/src/new_room_placement.py:252-253 | Top and Bottom, and Left and Right, map to directions that map_opposite_direction pairs |
| Placement.SideDirectionInjective | backend_project/src/new_room_placement.py:252 | the four side names map to four different directions |
| Placement.PossibleDirections | backend_project/src/new_room_placement.py:306-309 | Top and Bottom try North then South, Left and Right try East then West: the requested direction's axis |
| Placement.AnyFreeFacing | backend_project/src/new_room_placement.py:205-211 | true exactly when some wall faces the direction and is free |
| Placement.SideFree | backend_project/src/new_room_placement.py:205-211 | a room without metadata is a KeyError; otherwise true exactly when one of its walls facing the direction is free |
| Placement.IsSideFree | backend_project/src/new_room_placement.py:205-211 | the loop returns what SideFree states |
| Placement.SideFreeVersusDirectionFree | backend_project/src/new_room_placement.py:151-156 | every facing wall free implies one free facing wall when some wall faces the side, and holds alone when none does |
| Placement.LowerDirectionNames | backend_project/src/new_room_placement.py:218 | comparing lower-cased direction names compares the directions |
| Placement.FirstNamed | backend_project/src/new_room_placement.py:216-220 | the index of the first wall whose lower-cased direction matches, none only when no wall matches |
| Placement.WallCoordinates | backend_project/src/new_room_placement.py:213-224 | the source's not-found message for a missing room; the coordinates of the first matching wall; the no-wall message only when no wall matches |
| Placement.WallCoordinatesFacing | backend_project/src/new_room_placement.py:213-224 | looked up by a direction's name, the wall is the first wall facing that direction, and a message comes back only when none faces it |
| Placement.FreeSideHasWall | backend_project/src/new_room_placement.py:259-260 | a free side always has a wall to place against |
| Placement.MinByX | backend_project/src/new_room_placement.py:236 | min by x of the two endpoints: the smaller x, the first endpoint on a tie |
| Placement.MaxByX | backend_project/src/new_room_maain.py:1486 | max by x of the two endpoints: the larger x, the first endpoint on a tie |
| Placement.MinByY | backend_project/src/new_room_placement.py:238 | min by y of the two endpoints: the smaller y, the first endpoint on a tie |
| Placement.MaxByY | backend_project/src/new_room_maain.py:1500-1503 | max by y of the two endpoints: the larger y, the first endpoint on a tie |
| Placement.SelectCoordinatePair | backend_project/src/new_room_placement.py:234-240 | the west end of a North or South wall, the north end of an East or West wall, None for any other direction; when the lookup gave a message, no point for North and South (the key c[0] picks a character) and an IndexError for East and West (the key c[1] fails on one-character strings) |
| Placement.SelectCheckedPair | backend_project/src/new_room_maain.py:1481-1504 | an endpoint of the wall; for North and South the larger-x end with the flag clear exactly when the West side is free, else the smaller-x end with the flag set; for East and West the smaller-y end with the flag clear exactly when the North side is free, else the larger-y end; a KeyError for a room without metadata and a TypeError for any other direction; after the side tests, an IndexError for an East or West wall lookup that gave a message |
| Placement.Corner | backend_project/src/new_room_placement.py:277-288 | the top-left corner from the chosen endpoint; an error select_coordinate_pair raised is passed on; from a character of a message (North and South lookups only), a TypeError exactly where the branch subtracts length and an IndexError elsewhere |
| Placement.ShiftCoordinates | backend_project/src/new_room_placement.py:227-232 | same number of walls, each endpoint moved by the offset |
| Placement.ShiftCoordinatesInverse | backend_project/src/new_room_placement.py:227-232 | shifting back by the negated offset restores the walls |
| Placement.ShiftCoordinatesAdditive | backend_project/src/new_room_placement.py:227-232 | two shifts are one shift by the summed offset |
| Placement.ShiftedBox | backend_project/src/new_room_placement.py:227-232 | a shifted room's bounding box moves by the offset |
| Placement.ShiftRooms | backend_project/src/new_room_placement.py:347-349 | the named rooms have their walls shifted; the others, and every name, stay as they were |
| Placement.ShiftExisting | backend_project/src/new_room_placement.py:278 | a KeyError for an existing room not in the plan; otherwise only that room is shifted |
| Placement.NeighbourShift | backend_project/src/new_room_maain.py:1663-1689 | the neighbours on the requested side move by the opposite of the existing room's shift, away from it |
| Placement.FlushTouches | backend_project/src/new_room_placement.py:409-429 | the flush rectangle's side facing the existing room lies on the wall's line, with its corner at the chosen endpoint |
| Placement.AfterShiftIsFlushAgainstMoved | backend_project/src/new_room_placement.py:277-288 | the corner after the move is the flush corner against the moved endpoint |
| Placement.NeighboursClearNewRoom | backend_project/src/new_room_maain.py:1663-1689 | shifted as in new_room_maain.py, the neighbours' touching edge lands on the new room's far edge |
| Placement.NeighboursAsWrittenMoveTheWrongWay | backend_project/src/new_room_placement.py:378-390 | shifted as written, South and West neighbours move past the wall into the existing room's side |
| Placement.MetadataOriented | backend_project/src/new_room_placement.py:27-40 | in metadata built from a rectilinear plan, North and South walls are horizontal and East and West walls vertical |
| Placement.FindNeighbours | backend_project/src/new_room_placement.py:165-203 | the neighbours are those of the snapped adjacency search with threshold 0.3, and the plan is snapped in place |
| Placement.FirstPassing | backend_project/src/new_room_placement.py:314-323 | the first candidate side with neighbours that all pass the direction test, none exactly when no side passes |
| Placement.PlaceRoom | backend_project/src/new_room_placement.py:424-433 | the new room's entry is the rectangle from the corner; an error computing the corner is passed on |
| Placement.AddNewRoomMain | backend_project/src/new_room_placement.py:242-433 | the method's result is the procedure as written (Placement.AddNewRoomMainAsWritten, neighbours on the target side shifted by +width / +length): snap, metadata, side check, and the flush, move and neighbour branches |
| Placement.AsRooms | backend_project/src/new_room_maain.py:1574 | a plan result becomes a rooms result, errors unchanged |
| Placement.FlushSegments | backend_project/src/new_room_maain.py:1707-1741 | the flush placement of new_room_maain.py returns wall segments |
| Placement.SetRoomWalls | backend_project/src/new_room_placement.py:432 | after room_data[new_room] = walls, the room's walls are those walls |
| Placement.FlushIsAgainst | backend_project/src/new_room_placement.py:409-429 | the flush rectangle is a length by width rectangle against the wall, flush with its chosen end |
| Placement.AfterShiftIsAgainst | backend_project/src/new_room_placement.py:273-300 | after the move, the rectangle is against the moved wall |
| Placement.FoundWallIsAlong | backend_project/src/new_room_placement.py:213-224 | a wall found for a direction lies along that side |
| Placement.OrientedWallIsAlong | backend_project/src/new_room_maain.py:1466-1472 | in oriented metadata, a found wall lies along its side |
| Placement.InvalidSideIsValueError | backend_project/src/new_room_placement.py:249-250 | as written and with the corrected shift alike, an invalid side name is the ValueError after the metadata is built |
| Placement.CheckedInvalidSideIsValueError | backend_project/src/new_room_maain.py:1508-1509 | an invalid side name is the ValueError before anything else |
| Placement.MetadataRoomsExist | backend_project/src/new_room_placement.py:64-105 | every room with metadata is a room of the plan |
| Placement.FreeSidePlacesFlush | backend_project/src/new_room_placement.py:409-433 | as written and corrected alike, with the side free, only the new room is written, a length by width rectangle against the first wall facing the side |
| Placement.BlockedSideMovesExisting | backend_project/src/new_room_placement.py:273-303 | as written and corrected alike, side blocked and opposite free: the existing room moves away by the new room's size, the new room is against the moved wall, nothing else changes |
| Placement.MoveExistingAgainst | backend_project/src/new_room_placement.py:275-303 | the move branch shifts the existing room only and places the new room against the moved wall |
| Placement.BlockedSidesMoveNeighbours | backend_project/src/new_room_placement.py:373-403 | both sides blocked, the side's own neighbours first to pass: they move by the neighbour offset (as written +width or +length whatever the side, corrected on toward the side), the new room is against the existing wall, nothing else changes |
| Placement.NeighboursMoveAgainst | backend_project/src/new_room_placement.py:373-403 | shifting those neighbours by any offset and placing flush gives a rectangle against the wall, with the shifted rooms moved and the rest unchanged |
| Placement.AsWrittenAgreesOnTopAndRight | backend_project/src/new_room_placement.py:378-390 | for Top and Right the code as written places rooms as intended |
| Placement.PlaceAgainstAgrees | backend_project/src/new_room_placement.py:378-390 | for Top and Right the as-written and corrected placements agree from the metadata on |
| Placement.ShiftNeighboursAgree | backend_project/src/new_room_placement.py:379-388 | North and East neighbour shifts agree between the two versions |
| Placement.NoFreeSideExits | backend_project/src/new_room_placement.py:406-407 | as written and corrected alike, both sides blocked and no neighbour side passes: the call stops with the exit message |
| Placement.MissingSideWallIsIndexError | backend_project/src/new_room_placement.py:234-240 | Left or Right against a room with no wall facing that side and the opposite side free: IndexError from select_coordinate_pair, before the existing room moves, as written and corrected alike |
| Placement.CheckedSegmentsIffFree | backend_project/src/new_room_maain.py:1531-1741 | new_room_maain.py returns wall segments exactly when the requested side was free, and rooms after a move |
| Placement.CheckedFlushPlacement | backend_project/src/new_room_maain.py:1707-1741 | after a flush placement the segments convert back to the plan with the new room touching the wall and every other room unchanged |
| Placement.CheckedMissingSideWallIsIndexError | backend_project/src/new_room_maain.py:1495-1503 | the same in new_room_maain.py: IndexError after the side tests, before the move |
| Placement.AddNewRoomChecked | backend_project/src/new_room_maain.py:1506-1741 | add_new_room of new_room_maain.py: an invalid side is the ValueError, a missing existing room the KeyError; its branches are in CheckedInvalidSideIsValueError, CheckedSegmentsIffFree, CheckedFlushPlacement and CheckedMissingSideWallIsIndexError |
| Placement.FlushSegmentsTouch | backend_project/src/new_room_maain.py:1731-1741 | the segments of a flush placement convert back with the new room touching the wall |
| AddRoom.Limit | backend_project/src/add_new_room.py:47-48 | the minimum looked up for a room and key: never negative, 0 for a room without constraints and for any key but min_width and min_height |
| AddRoom.GetRoomDimensions | backend_project/src/add_new_room.py:39-42 | the bounding-box extents, both non-negative and bounding every wall; a ValueError for a room without walls |
| AddRoom.CheckRoom | backend_project/src/add_new_room.py:45-50 | a room passes exactly when it has walls and is not below its minimum width or height; a room without constraints passes whenever it has walls |
| AddRoom.ValidationFindsFirst | backend_project/src/add_new_room.py:44-51 | the rooms pass exactly when every room passes; otherwise the result is the first failing room's |
| AddRoom.ValidateExistingRooms | backend_project/src/add_new_room.py:44-51 | the loop returns what the validation function states |
| AddRoom.ParseSide | backend_project/src/add_new_room.py:165-182 | the lower-cased direction must be right, left, top or bottom, else the ValueError with the caller's message; the side found has that name |
| AddRoom.LowerIdempotent | backend_project/src/add_new_room.py:224 | lower-casing twice is lower-casing once |
| AddRoom.ParseSideIgnoresCase | backend_project/src/add_new_room.py:224 | the side is matched without regard to case |
| AddRoom.ParseSideName | backend_project/src/add_new_room.py:226-237 | each side is recognised by its own name |
| AddRoom.BoxOf | backend_project/src/add_new_room.py:156-159 | the box of a room with walls is ordered on both axes |
| AddRoom.NewRoomWalls | backend_project/src/add_new_room.py:241-254 | four walls from the corner, each starting where the previous ends, closing at the corner |
| AddRoom.NewRoomExtent | backend_project/src/add_new_room.py:241-254 | the rectangle spans exactly width by height from the corner |
| AddRoom.AddNewRoom | backend_project/src/add_new_room.py:219-257 | a KeyError for a missing existing room, a ValueError for a bad direction or an empty existing room; otherwise every other room and every name is kept |
| AddRoom.AddNewRoomFlush | backend_project/src/add_new_room.py:226-257 | the new room is width by height, against the chosen side of the existing room's box and level with its lower or left edge |
| AddRoom.InsertionIsNewRoom | backend_project/src/add_new_room.py:165-180 | the insertion interval is the new room's extent along the shift axis |
| AddRoom.ClearRoom | backend_project/src/add_new_room.py:185-201 | an empty room other than the existing one is a ValueError; the guard never fires; a room that does not overlap stays as it was, and an overlapping one moves by delta along the axis |
| AddRoom.ShiftedAxis | backend_project/src/add_new_room.py:198-200 | a shift along one axis changes only that axis's coordinates, by delta |
| AddRoom.MovedRoomClears | backend_project/src/add_new_room.py:190-200 | a moved room keeps its other coordinates and ends just clear of the insertion interval, on the box's far edge |
| AddRoom.PrefixedEmpty | backend_project/src/add_new_room.py:185 | prefixing nothing leaves a loop result as it is |
| AddRoom.PrefixedAssoc | backend_project/src/add_new_room.py:185 | prefixing one room after a prefix is prefixing the longer prefix |
| AddRoom.MakeRoomForAt | backend_project/src/add_new_room.py:185-201 | the loop never stops at the guard, fails exactly on an empty room other than the existing one, and otherwise leaves each room as ClearRoom does, in place |
| AddRoom.ShiftConflictingRooms | backend_project/src/add_new_room.py:185-201 | the in-place loop returns what MakeRoomFor states |
| AddRoom.RepairShift | backend_project/src/add_new_room.py:117-124 | dx is never negative and brings the new room's left edge to the main room's right edge when it was short of it |
| AddRoom.RepairStep | backend_project/src/add_new_room.py:109-129 | a pair without the new room changes nothing; the step fails exactly when a room's lookup or max() fails |
| AddRoom.SolvingOverlapProblem | backend_project/src/add_new_room.py:108-131 | the in-place loop returns what OverlapRepair states |
| AddRoom.SameNamesSameWalls | backend_project/src/add_new_room.py:113-114 | rooms other than the new room are looked up to the same walls after a repair step |
| AddRoom.MovedRightStep | backend_project/src/add_new_room.py:127-129 | a shift by a non-negative dx moves the walls right |
| AddRoom.MovedRightTrans | backend_project/src/add_new_room.py:109-129 | two moves right are a move right |
| AddRoom.RepairStepMoves | backend_project/src/add_new_room.py:109-129 | one step moves only the new room, and only right |
| AddRoom.OverlapRepairMoves | backend_project/src/add_new_room.py:108-131 | the repair moves only the new room, and only right |
| AddRoom.RepairStepClears | backend_project/src/add_new_room.py:117-129 | a pair's step puts the new room's left edge at or beyond the other room's right edge, exactly on it when it was short of it |
| AddRoom.MovedRightMinX | backend_project/src/add_new_room.py:127-129 | moving right never lowers the left edge |
| AddRoom.OverlapRepairClears | backend_project/src/add_new_room.py:108-131 | after the repair the new room lies at or right of every room an overlap pair names with it |
| AddRoom.ExistingBox | backend_project/src/add_new_room.py:155-159 | a KeyError for a missing existing room, an error for one without walls, else its box |
| AddRoom.AddNewRoomFlow | backend_project/src/add_new_room.py:136-215 | the method returns what the flow function states: snap, validation, size check, shift loop, placement, snap, overlap repair, segments |
| AddRoom.FlowRefuses | backend_project/src/add_new_room.py:138-151 | the result is `{}` when an existing room is below its minimum and when the new room is below its named minimum |
| AddRoom.FlowErrors | backend_project/src/add_new_room.py:155-201 | once the rooms pass, a missing existing room is a KeyError and a bad direction a ValueError, and otherwise the shift loop always runs to the end |
| AreaGen.MinimumArea | backend_project/src/test_area.py:1284 | only 1BHK and 2BHK have a minimum area, 300 and 525 square units |
| AreaGen.EligibleMonotone | backend_project/src/test_area.py:1284 | a larger area never closes the gate |
| AreaGen.GenerateFloorplanMain | backend_project/src/test_area.py:1277-1302 | below the gate the result is `{}`; otherwise the segments convert back to exactly the layout computed, each segment fresh with thickness 30 |
| AreaGen.RoundRatio | backend_project/src/test_area.py:70-73 | round(n / d): within half a unit of the exact ratio, the even neighbour on a tie |
| AreaGen.RoundPositive | backend_project/src/test_area.py:70-73 | the same rounding for a positive divisor |
| AreaGen.ProductBound | backend_project/src/test_area.py:70-73 | a non-zero multiple of d is at least d in magnitude |
| AreaGen.Distribute | backend_project/src/test_area.py:70-73 | multiplication distributes over the difference |
| AreaGen.RoundExact | backend_project/src/test_area.py:70-73 | a ratio that is an integer rounds to that integer |
| AreaGen.ScaleWalls | backend_project/src/test_area.py:66-74 | same number of walls, each endpoint scaled on its own axis |
| AreaGen.ScaleOf | backend_project/src/test_area.py:62-65 | a KeyError for a room without dimensions, a ZeroDivisionError for a zero width or height, else the room's entry |
| AreaGen.RecalculateCoordinates | backend_project/src/test_area.py:59-76 | succeeds exactly when every room has usable dimensions, fails only with KeyError or ZeroDivisionError, and keeps the rooms' names, order and wall counts; the scaled walls are in RecalculateAt |
| AreaGen.RecalculateAt | backend_project/src/test_area.py:59-76 | the call fails exactly when some room has no usable dimensions, with the first such room's error; otherwise the same rooms in the same order, each scaled by its own factors |
| AreaGen.ScaledPointIsClose | backend_project/src/test_area.py:70-73 | every new coordinate is within half a hundredth of the exact product |
| AreaGen.UnitScaleKeepsRoom | backend_project/src/test_area.py:59-76 | a room scaled to its own extents comes back unchanged |
| Drawing.RAbs | frontend/src/pages/CanvasPage.jsx:291-292 | Math.abs: never negative, the value or its negation |
| Drawing.RMin | frontend/src/utils/coordinateUtils.js:72-79 | Math.min of two: at most both, and one of them |
| Drawing.RMax | frontend/src/utils/coordinateUtils.js:74-81 | Math.max of two: at least both, and one of them |
| History.SliceEnd | frontend/src/utils/historyUtils.js:19 | the end position of slice(0, end): end itself inside the array, clamped at the length above it, counted from the back and clamped at 0 below 0 |
| History.At | frontend/src/utils/historyUtils.js:55 | currentHistory[i] is present exactly for an index inside the history, and is the snapshot there |
| History.AtOrEmpty | frontend/src/utils/historyUtils.js:42 | currentHistory[i], or [] when absent: the snapshot inside the history, [] outside it |
| History.InitHistory | frontend/src/utils/historyUtils.js:101-108 | a history of the initial walls alone, at position 0, with neither undo nor redo |
| History.AddToHistory | frontend/src/utils/historyUtils.js:13-29 | everything after the current position is dropped and the walls appended, and the new position is the last one |
| History.Undo | frontend/src/utils/historyUtils.js:38-61 | at or before the start: position 0, the first snapshot or [], no undo, redo while later snapshots exist; otherwise one step back, redo possible, undo while still past the start |
| History.Redo | frontend/src/utils/historyUtils.js:70-93 | at or past the end: the position kept, its snapshot or [], no redo; otherwise one step forward, undo possible, redo while not yet at the end |
| History.OperationsKeepValid | frontend/src/utils/historyUtils.js:13-108 | from a position inside the history every operation leaves a position inside it and hands back the snapshot at that position |
| History.UndoThenRedo | frontend/src/utils/historyUtils.js:38-93 | undo then redo returns to the same position and snapshot |
| History.RedoThenUndo | frontend/src/utils/historyUtils.js:38-93 | redo then undo returns to the same position and snapshot |
| History.AfterAdd | frontend/src/utils/historyUtils.js:13-93 | right after an edit there is nothing to redo, and undo goes back to the snapshot the edit was made on |
| History.FreshHistoryIsStuck | frontend/src/utils/historyUtils.js:38-108 | a fresh history can neither undo nor redo, and both give back the initial walls |
| Coordinates.ScreenToCanvas | frontend/src/utils/coordinateUtils.js:8-15 | null for a missing point; otherwise the canvas point that zoom and pan map back onto the screen point |
| Coordinates.CanvasToScreen | frontend/src/utils/coordinateUtils.js:20-27 | null exactly for a missing point |
| Coordinates.TransformsAreInverse | frontend/src/utils/coordinateUtils.js:8-27 | for a non-zero zoom the two transforms undo each other |
| Coordinates.SquaredDistance | frontend/src/utils/coordinateUtils.js:32-38 | never negative, 0 when a point is missing and between a point and itself |
| Coordinates.DistanceSymmetric | frontend/src/utils/coordinateUtils.js:32-38 | the distance does not depend on the order of the points |
| Coordinates.IsWithinPaperBounds | frontend/src/utils/coordinateUtils.js:44-47 | every point is within bounds |
| Coordinates.ExtremesBound | frontend/src/utils/coordinateUtils.js:70-82 | the running minimum and maximum bound every start and end point |
| Coordinates.ExtremesAttained | frontend/src/utils/coordinateUtils.js:70-82 | the minimum and the maximum are each some wall's endpoint coordinate |
| Coordinates.ContentBoundsContain | frontend/src/utils/coordinateUtils.js:53-94 | no walls give the 1000 by 1000 box at the origin; otherwise every endpoint lies at least the padding of 50 inside the box, some endpoint at exactly that distance on each side, and width and height are the box's extents |
| Coordinates.CalculateContentBounds | frontend/src/utils/coordinateUtils.js:53-94 | the forEach loop computes the box ContentBounds states |
| Canvas.ExactPointMatch | frontend/src/pages/CanvasPage.jsx:48-59 | false whenever a point is missing; otherwise both coordinates agree after rounding to six decimals |
| Canvas.ExactPointMatchIsEquivalence | frontend/src/pages/CanvasPage.jsx:48-59 | every present point matches itself, and matching does not depend on the order |
| Canvas.RoundedAlike | frontend/src/pages/CanvasPage.jsx:52-58 | coordinates that round alike are less than a millionth apart |
| Canvas.FindEndpointIsFirst | frontend/src/pages/CanvasPage.jsx:62-75 | null exactly when no wall's original or current endpoint matches; otherwise the first such wall's start when it matches, else its end, with that wall as source |
| Canvas.FindExactEndpoint | frontend/src/pages/CanvasPage.jsx:62-75 | the loop with early return gives what FindEndpoint states |
| Canvas.CloseSymmetric | frontend/src/pages/CanvasPage.jsx:290-293 | being within 0.01 on both axes does not depend on the order |
| Canvas.FirstClose | frontend/src/pages/CanvasPage.jsx:289-302 | an index into the registered points when one is found |
| Canvas.FirstCloseIsFirst | frontend/src/pages/CanvasPage.jsx:289-302 | none exactly when no registered point is close, otherwise the first close one |
| Canvas.FindClose | frontend/src/pages/CanvasPage.jsx:289-302 | the for-of loop with break finds what FirstClose states |
| Canvas.RegisterFacts | frontend/src/pages/CanvasPage.jsx:286-305 | the registered points only grow, by the point itself when nothing is close; the point ends up at a registered point within 0.01 |
| Canvas.RegisterKeepsApart | frontend/src/pages/CanvasPage.jsx:303-305 | no two registered points are ever within 0.01 of each other |
| Canvas.FirstCloseToRegistered | frontend/src/pages/CanvasPage.jsx:289-302 | among apart points, a registered point finds itself first |
| Canvas.RegisterTwice | frontend/src/pages/CanvasPage.jsx:286-325 | registering the snapped point again changes nothing |
| Canvas.NormalizeAll | frontend/src/pages/CanvasPage.jsx:286-326 | as many walls as given |
| Canvas.NormalizeWallFacts | frontend/src/pages/CanvasPage.jsx:286-325 | one wall keeps its thickness and lineweight, its endpoints move by less than 0.01 per axis onto registered points, and the registered points stay apart |
| Canvas.NormalizeAllApart | frontend/src/pages/CanvasPage.jsx:284-326 | the registered points stay pairwise apart |
| Canvas.NormalizeAllSnaps | frontend/src/pages/CanvasPage.jsx:286-326 | every wall is kept in order with its thickness and lineweight, and moves by less than 0.01 per axis |
| Canvas.SnappedExtend | frontend/src/pages/CanvasPage.jsx:286-326 | the snapped relation extends by one wall |
| Canvas.NormalizeAllRegisters | frontend/src/pages/CanvasPage.jsx:286-326 | every endpoint lands on a registered point |
| Canvas.NormalizeAllPrefix | frontend/src/pages/CanvasPage.jsx:286-326 | normalising a prefix gives the prefix of the normalisation |
| Canvas.NormalizeWallTwice | frontend/src/pages/CanvasPage.jsx:286-325 | a second pass over a wall with the same registered points changes nothing |
| Canvas.NormalizeAllTwice | frontend/src/pages/CanvasPage.jsx:280-329 | normalising the normalised walls registers the same points and leaves every wall as it was |
| Canvas.NormalizeAllLast | frontend/src/pages/CanvasPage.jsx:286-326 | the n-th wall is normalised against the points the walls before it registered |
| Canvas.NormalizeAllSnoc | frontend/src/pages/CanvasPage.jsx:286-326 | one more wall is normalised against the points registered so far |
| Canvas.TwiceStep | frontend/src/pages/CanvasPage.jsx:286-326 | a wall the second pass leaves alone extends the fixed prefix |
| Canvas.NormalizedIsIdempotent | frontend/src/pages/CanvasPage.jsx:280-329 | normalizeWallConnections is idempotent |
| Canvas.NormalizedShape | frontend/src/pages/CanvasPage.jsx:280-329 | fewer than two walls come back untouched; otherwise each wall is snapped in place onto pairwise apart registered points |
| Canvas.NormalizeAllStep | frontend/src/pages/CanvasPage.jsx:286-326 | one more pass of the outer loop extends the normalisation by that wall |
| Canvas.NormalizeOne | frontend/src/pages/CanvasPage.jsx:286-325 | the body of the outer loop, start then end, gives what NormalizeWall states |
| Canvas.UpdateSlices | frontend/src/pages/CanvasPage.jsx:295-318 | writing one position keeps the walls before it and the walls still to do |
| Canvas.NormalizeWallConnections | frontend/src/pages/CanvasPage.jsx:280-329 | the walls are updated in place to the normalised walls |
| Canvas.Clamp01 | frontend/src/pages/CanvasPage.jsx:512 | between 0 and 1, and the value itself when already inside |
| Canvas.ClosestPointOnSegment | frontend/src/pages/CanvasPage.jsx:505-518 | the parameter t lies in [0, 1], and a degenerate segment gives its point with t = 0 |
| Canvas.ProjectionIsPerpendicular | frontend/src/pages/CanvasPage.jsx:505-518 | away from the ends, P minus the result is orthogonal to AB |
| Canvas.SumOfSquaresPositive | frontend/src/pages/CanvasPage.jsx:510 | a non-degenerate segment has a positive squared length |
| Lineweights.Find | frontend/src/components/constants/lineweights.js:62 | the first entry whose id equals the given id, none exactly when no entry has it |
| Lineweights.DefaultIsListed | frontend/src/components/constants/lineweights.js:58-63 | the fallback lookup of "standard" finds the fourth entry |
| Lineweights.GetLineweightById | frontend/src/components/constants/lineweights.js:61-64 | always an entry of the table: the one with the given id when listed, else the standard one |
| Lineweights.TableIsOrdered | frontend/src/components/constants/lineweights.js:5-58 | ids are distinct, widths strictly increase down the table, and the fourth entry is the default |
| Lineweights.LookupFindsEntry | frontend/src/components/constants/lineweights.js:61-64 | each entry is found by its own id |
| Lineweights.CalculateLineweightPixels | frontend/src/components/constants/lineweights.js:68-72 | never negative for a non-negative width and zoom |
| Lineweights.PixelsLinear | frontend/src/components/constants/lineweights.js:68-72 | the pixel width is linear in the zoom |
| Lineweights.PixelsMonotone | frontend/src/components/constants/lineweights.js:68-72 | for a positive width it strictly increases with the zoom |
| GroupCodes.PairedAppend | frontend/src/utils/dxfExportUtils.js:66-338 | pairs followed by pairs are pairs |
| GroupCodes.CodesFromAll | frontend/src/utils/dxfExportUtils.js:66-338 | a code at every second line from i on |
| GroupCodes.PairedByCodes | frontend/src/utils/dxfExportUtils.js:66-338 | an even number of lines with codes at the even positions are pairs |
| GroupCodes.BlocksPaired | frontend/src/components/ExportButton.jsx:117-149 | paired blocks, one per wall, make paired lines |
| GroupCodes.KnownCodes | frontend/src/utils/dxfExportUtils.js:66-338 | the codes both exporters use are numeric group codes |
| Text.DigitChar | frontend/src/components/ExportButton.jsx:135 | the character of one decimal digit |
| Text.NatString | frontend/src/utils/dxfExportUtils.js:289 | decimal digits without leading zeros, more than one exactly from 10 on |
| Text.NatStringInjective | frontend/src/utils/dxfExportUtils.js:284-289 | distinct numbers print differently |
| Text.Join | frontend/src/components/ExportButton.jsx:160 | join of nothing is empty and of one line is that line |
| Text.JoinEndsWithLast | frontend/src/components/ExportButton.jsx:160 | the joined text ends with the last line |
| Text.Blocks | frontend/src/utils/dxfExportUtils.js:279-316 | no elements give no lines |
| Text.BlocksStep | frontend/src/utils/dxfExportUtils.js:279-316 | one more element appends its block |
| Text.BlocksLength | frontend/src/utils/dxfExportUtils.js:279-316 | blocks of a fixed size add up |
| Text.BlockAt | frontend/src/utils/dxfExportUtils.js:279-316 | the k-th block follows the blocks before it |
| Text.FixedBlockAt | frontend/src/utils/dxfExportUtils.js:279-316 | with blocks of one size the k-th starts at size times k |
| Text.JoinSplit | frontend/src/components/ExportButton.jsx:160 | a joined list splits at any element, after the separator |
| Text.Parts3 | frontend/src/components/ExportButton.jsx:129-157 | where the parts of three concatenated lists are |
| Text.Window | frontend/src/utils/dxfExportUtils.js:66-338 | lines that agree position by position make up that window |
| DxfExport.MapLineweightToProperties | frontend/src/utils/dxfExportUtils.js:18-52 | always colour 7 and line type CONTINUOUS, with a lineweight among the seven table widths |
| DxfExport.ListedWeight | frontend/src/utils/dxfExportUtils.js:25-46 | each listed id gets its table width in hundredths of a millimetre |
| DxfExport.UnlistedWeight | frontend/src/utils/dxfExportUtils.js:47-48 | any other id, or none, gets the default 35 |
| DxfExport.PropertiesFollowTable | frontend/src/utils/dxfExportUtils.js:18-52 | the lineweight is always the width getLineweightById gives, in hundredths of a millimetre |
| DxfExport.Block | frontend/src/utils/dxfExportUtils.js:66-276 | a template literal of no lines is empty |
| DxfExport.BlockAppend | frontend/src/utils/dxfExportUtils.js:135-286 | two chunks appended are the template of their lines |
| DxfExport.BlockThenJoin | frontend/src/utils/dxfExportUtils.js:319-338 | a chunk followed by a final template is one template of all the lines |
| DxfExport.HeaderLines | frontend/src/utils/dxfExportUtils.js:66-131 | the HEADER section has 66 lines |
| DxfExport.PaperExtents | frontend/src/utils/dxfExportUtils.js:86-113 | the extents and limits take 28 lines |
| DxfExport.LineEntity | frontend/src/utils/dxfExportUtils.js:286-315 | each wall's template has 29 lines |
| DxfExport.WallEntities | frontend/src/utils/dxfExportUtils.js:279-316 | the entities take 29 lines per wall |
| DxfExport.Opening | frontend/src/utils/dxfExportUtils.js:66-276 | the header, tables and the opening of ENTITIES take 204 lines |
| DxfExport.DocumentLines | frontend/src/utils/dxfExportUtils.js:60-341 | the file has 224 lines plus 29 per wall |
| DxfExport.OpeningBlocks | frontend/src/utils/dxfExportUtils.js:66-276 | the three opening chunks make one template |
| DxfExport.NoEntitiesYet | frontend/src/utils/dxfExportUtils.js:279 | before the loop no entity has been written |
| DxfExport.EntityStep | frontend/src/utils/dxfExportUtils.js:279-316 | each pass of the loop appends that wall's entity |
| DxfExport.ClosingStep | frontend/src/utils/dxfExportUtils.js:319-338 | the closing chunk begins with a newline: an empty line, then its lines |
| DxfExport.GenerateDXF | frontend/src/utils/dxfExportUtils.js:60-341 | the appended chunks are the file's lines joined by a newline and two spaces |
| DxfExport.OpeningIsChunks | frontend/src/utils/dxfExportUtils.js:66-276 | the three opening chunks make the template of the opening lines |
| DxfExport.ClosingDocument | frontend/src/utils/dxfExportUtils.js:316-340 | the closing chunk completes the document |
| DxfExport.Parts | frontend/src/utils/dxfExportUtils.js:60-341 | where each part of the assembled file lies |
| DxfExport.WallEntityAt | frontend/src/utils/dxfExportUtils.js:279-316 | the k-th wall's entity sits at 29 times k in the entity lines |
| DxfExport.HeaderFacts | frontend/src/utils/dxfExportUtils.js:66-131 | the header opens with 0/SECTION/2/HEADER and closes with 0/ENDSEC |
| DxfExport.HeaderUsesPaper | frontend/src/utils/dxfExportUtils.js:86-113 | the extents and limits run from the origin to the paper's width and height |
| DxfExport.TablesFacts | frontend/src/utils/dxfExportUtils.js:135-268 | the TABLES section has 134 lines, opened and closed as a section |
| DxfExport.ClosingFacts | frontend/src/utils/dxfExportUtils.js:319-338 | the closing ends ENTITIES, holds the OBJECTS section and ends with 0/EOF |
| DxfExport.SectionOrder | frontend/src/utils/dxfExportUtils.js:60-341 | the sections come in the order HEADER, TABLES, ENTITIES, OBJECTS, each opened and closed, and the file ends with 0/EOF |
| DxfExport.EntityPerWall | frontend/src/utils/dxfExportUtils.js:279-316 | the k-th wall's LINE follows the walls before it, with handle 20000 + k, continuous line type, colour 7, the wall's lineweight and its end points |
| DxfExport.EntityFields | frontend/src/utils/dxfExportUtils.js:281-315 | the entity lines of a wall, field by field |
| DxfExport.HandleOf | frontend/src/utils/dxfExportUtils.js:284-289 | the k-th entity's handle is 20000 + k |
| DxfExport.EntityLine | frontend/src/utils/dxfExportUtils.js:279-319 | an entity line sits after the opening |
| DxfExport.EntityHandle | frontend/src/utils/dxfExportUtils.js:284-289 | the fourth line of a wall's entity is its handle |
| DxfExport.HandlesAreUnique | frontend/src/utils/dxfExportUtils.js:284-289 | the handles of different walls differ |
| DxfExport.HandlesDiffer | frontend/src/utils/dxfExportUtils.js:284 | different numbers print differently |
| DxfExport.TextEndsWithEOF | frontend/src/utils/dxfExportUtils.js:337-338 | the text ends with EOF |
| DxfExport.TextIsIndented | frontend/src/utils/dxfExportUtils.js:66-338 | every line after the first follows a newline and two spaces of indent |
| DxfExport.CorrectedLineEntity | frontend/src/utils/dxfExportUtils.js:286-313 | the entity without its trailing "0" has 28 lines |
| DxfExport.EntityEndsWithStrayCode | frontend/src/utils/dxfExportUtils.js:314 | the entity as written is the corrected one followed by a stray "0" |
| DxfExport.BlankBreaksPairing | frontend/src/utils/dxfExportUtils.js:319 | an empty line after an even number of lines, followed by an odd number, always breaks the code/value pairing |
| DxfExport.AsWrittenBreaksPairing | frontend/src/utils/dxfExportUtils.js:314-338 | as written, no generated file is a sequence of code/value pairs |
| DxfExport.HeaderStartPaired | frontend/src/utils/dxfExportUtils.js:66-85 | the first part of the header is code/value pairs |
| DxfExport.PaperExtentsPaired | frontend/src/utils/dxfExportUtils.js:86-113 | the extents are code/value pairs |
| DxfExport.HeaderEndPaired | frontend/src/utils/dxfExportUtils.js:114-131 | the end of the header is code/value pairs |
| DxfExport.HeaderPaired | frontend/src/utils/dxfExportUtils.js:66-131 | the header is code/value pairs |
| DxfExport.LineTypeTablePaired | frontend/src/utils/dxfExportUtils.js:149-202 | the line-type table is code/value pairs |
| DxfExport.LayerTablePaired | frontend/src/utils/dxfExportUtils.js:203-230 | the layer table is code/value pairs |
| DxfExport.StyleTablePaired | frontend/src/utils/dxfExportUtils.js:231-266 | the style table is code/value pairs |
| DxfExport.SectionsPaired | frontend/src/utils/dxfExportUtils.js:135-148 | section openings, closings and the viewport table are code/value pairs |
| DxfExport.TablesPaired | frontend/src/utils/dxfExportUtils.js:135-268 | the TABLES section is code/value pairs |
| DxfExport.ClosingPaired | frontend/src/utils/dxfExportUtils.js:319-338 | the closing with a "0" in place of the empty line is code/value pairs |
| DxfExport.CorrectedEntityPaired | frontend/src/utils/dxfExportUtils.js:286-313 | the corrected entity is code/value pairs |
| DxfExport.CorrectedIsPaired | frontend/src/utils/dxfExportUtils.js:60-341 | corrected, every generated file is a sequence of code/value pairs |
| ExportButton.MapLineweightToColor | frontend/src/components/ExportButton.jsx:166-198 | always one of the colours 1, 3, 5, 7, 8 and 9 |
| ExportButton.ExportedId | frontend/src/components/ExportButton.jsx:119 | wall.lineweightId or 'standard': never empty |
| ExportButton.ColorOf | frontend/src/components/ExportButton.jsx:119 | a wall without a lineweight gets colour 7 |
| ExportButton.TableColors | frontend/src/components/ExportButton.jsx:171-192 | the colours of the table entries: 9, 8, 7, 7, 1, 5, 3 |
| ExportButton.ColorsTellWeightsApart | frontend/src/components/ExportButton.jsx:171-192 | only medium and standard share a colour |
| ExportButton.UnlistedColor | frontend/src/components/ExportButton.jsx:193-194 | an id the table does not list gets the default colour 7 |
| ExportButton.ColorFollowsLookup | frontend/src/components/ExportButton.jsx:119 | a wall is exported in the colour of the lineweight the canvas draws it with |
| ExportButton.ListedColor | frontend/src/components/ExportButton.jsx:119 | a listed id is exported as itself |
| ExportButton.UnlistedStandard | frontend/src/components/ExportButton.jsx:119 | any other id is drawn as standard and exported in colour 7 |
| ExportButton.ListedIdsNonEmpty | frontend/src/components/ExportButton.jsx:119 | no listed id is empty |
| ExportButton.ImprovedHeader | frontend/src/components/ExportButton.jsx:75-114 | the header list has 38 items |
| ExportButton.Extent | frontend/src/components/ExportButton.jsx:92-107 | an extent variable takes 8 items |
| ExportButton.WallItems | frontend/src/components/ExportButton.jsx:129-148 | a wall's LINE takes 18 items |
| ExportButton.WallLines | frontend/src/components/ExportButton.jsx:117-149 | 18 items per wall |
| ExportButton.ImprovedLines | frontend/src/components/ExportButton.jsx:75-157 | 42 items plus 18 per wall |
| ExportButton.WallLinesStep | frontend/src/components/ExportButton.jsx:129 | each concat appends that wall's LINE |
| ExportButton.GenerateImprovedDXF | frontend/src/components/ExportButton.jsx:67-161 | the text is the items joined with CR+LF |
| ExportButton.GenerateAndDownloadDXF | frontend/src/components/ExportButton.jsx:36-41 | the content bounds of the walls, then the improved file |
| ExportButton.ImprovedHeaderAt | frontend/src/components/ExportButton.jsx:75-113 | the header gives the R12 version, the extents of the bounds and opens ENTITIES right after HEADER closes |
| ExportButton.HeaderParts | frontend/src/components/ExportButton.jsx:75-113 | the parts of the header at their positions |
| ExportButton.WallLinesAt | frontend/src/components/ExportButton.jsx:117-149 | the k-th wall's items sit at 18 times k |
| ExportButton.MiddleItem | frontend/src/components/ExportButton.jsx:129-157 | an item of the middle part in the whole list |
| ExportButton.ImprovedWallAt | frontend/src/components/ExportButton.jsx:117-149 | the k-th wall's LINE follows the header and earlier LINEs: layer 0, its colour, its end points at z 0 |
| ExportButton.ImprovedEndsWithEOF | frontend/src/components/ExportButton.jsx:152-160 | the items end with 0/ENDSEC/0/EOF and the text ends with EOF |
| ExportButton.ExportedExtents | frontend/src/components/ExportButton.jsx:36-41 | the extents are the padded drawing bounds, the 1000 by 1000 box at the origin for no walls |
| ExportButton.ImprovedHeaderPaired | frontend/src/components/ExportButton.jsx:75-114 | the header is code/value pairs |
| ExportButton.ExtentPaired | frontend/src/components/ExportButton.jsx:92-107 | an extent is code/value pairs |
| ExportButton.WallItemsPaired | frontend/src/components/ExportButton.jsx:129-148 | a wall's LINE is code/value pairs |
| ExportButton.ImprovedIsPaired | frontend/src/components/ExportButton.jsx:67-161 | the whole file is code/value pairs |

## Left out

- Python's in-place mutation of point lists is modelled by functions that return the new plan or metadata. Methods proved against those functions cover it where the state is a single object (`Editor.MetadataEditor`, `Canvas.NormalizeWallConnections`, `Coordinates.CalculateContentBounds`). The model does not follow aliasing between the lists of different dictionaries.
- The iteration order of Python sets (`list(set(...))`, `set` unions) is unspecified, so it is a parameter (`unique`, `u1`, `u2`, ...) with a ghost requirement that it lists the same elements once. Adjacency lists that the source builds as sets are compared by their members or multiplicities only.
- Euclidean wall lengths are not modelled. `Geometry.AxisLength` (|dx| + |dy|) replaces them in the backend's metadata. It agrees with the square root on the axis-aligned walls the engine accepts; `make_roomdata` rejects a diagonal wall before any length matters. The segment conversion of `Segments` takes the Euclidean length as a function parameter instead, and its contract says each segment's length is that function of its wall.
- `round_room_coordinates` and the other `round(v, 2)` / `int(v*100)/100` truncations are the identity on hundredths, so they are not separate members.
- Floating-point coordinates are not modelled: backend values are exact hundredths, and frontend values are exact reals.
- Python's float `round` in `recalculate_coordinates` is not modelled. The scaled coordinate is rounded exactly on rationals (half to even).
- Areas are in hundredths of a square unit (the absolute shoelace sum of hundredth coordinates divided by 200), truncated as the engine truncates them, not as binary floats.
- The shapely/numpy geometry and all plotting are not modelled: overlap lengths, polygons, centroids, gap and nearest-wall searches, matplotlib.
  - Where an operation depends on them, they are function parameters: the point-distance snap of `add_new_room.py` (lines 53-65) and the overlap list that `solving_overlap_problem` receives.
- `make_shift_analysis_dict` and `adjust_extra_area` are function parameters of `Pipeline.AdjustDimensionMain`. Their float redistribution arithmetic is not modelled; only their place in the phase order is. `dynamic_area_calculater`, which that procedure does not call, is not modelled.
- In `adjust_dimension_main`, `new_rooms` shares point lists with the metadata and so sees some in-place edits. This aliasing is not modelled: the phases are composed on values.
- The `UnboundLocalError` of `adjust_dimension.py` line 1239 is modelled as a `NameError` result. It happens when no fixed room is resized, and Python's `UnboundLocalError` is a subclass of `NameError`.
- `filter_broken_connections_due_to_new_room` (`new_room_maain.py` lines 1951-1964) is not modelled. Only the broken-connection detection it filters is.
- BrokenPairs.RemoveDuplicateConnections: states the keys and values of the resulting dictionary, not its insertion order.
- All `print` diagnostics are dropped. `sys.exit` becomes an `Exit` result.
- The HTTP layer (`backend_project/backend/views.py`, `urls.py`) is not part of this model: request parsing, JSON file loading and responses.
- Coordinates.ScreenToCanvas: requires a non-zero zoom. JavaScript would divide by zero and yield `Infinity` or `NaN`, which reals cannot represent.
- Coordinates.SquaredDistance: `getDistance` is modelled as the squared distance, because the square root is not modelled on reals. Symmetry, non-negativity and the zero cases carry over.
- `Math.round`, `toFixed` and `String(x)` for non-integral `x` are function parameters (`FixedText`, `NumberText`). The model proves nothing about the digits they print.
- Canvas.NormalizeWallConnections: requires that every wall carries `originalStart`/`originalEnd` objects when there are two or more walls. The source writes their fields and would throw on a wall without them.
- The `Date` timestamp in the file name, the `Blob`/URL/DOM download (`downloadDXF`, `generateAndDownloadDXF`) and the `handleExportDXF` UI handler are not modelled.
- The React/Konva UI components, event handlers, `throttle`, local storage and network calls outside the listed helpers are not part of this model.
- Case-insensitive matching of direction names lowercases ASCII letters only.
- Cascade.AdjustDimensionAsWritten: `new_room_maain.py` line 792 lacks the `if adj_room in further_adjacent_rooms` guard of `adjust_dimension.py` line 686, so a neighbour without metadata would raise `KeyError` there. The model takes the procedure's global `rooms` to be the plan the metadata describes and finds the neighbours in it, so every neighbour has metadata and that `KeyError` does not arise.
- Resize.Dimension3Meaning: states the frame, the updated set and, with `Resize.Dimension3Consistent`, that recorded lengths stay those of the coordinates. The coordinates of each wall after several rewirings are stated one turn at a time (`Resize.StepMeaning`), not in closed form for the whole loop.

## Findings

The rest of the model runs the code as written: `Pipeline` calls `Cascade.AdjustDimensionAsWritten` and `Placement.AddNewRoomMain` computes `Placement.AddNewRoomMainAsWritten`. The corrected members below exist to state the intended behaviour beside each discrepancy.

| source | as written | input that shows it | evidently intended | confidence | as-written member | corrected member |
|---|---|---|---|---|---|---|
| backend_project/src/test_area.py:235 | `room == 'Master Bedroom' and 'En suite Washroom' and 'MB Passage' in metadata` tests only the passage, because the middle operand is a non-empty string; the branch then indexes the washroom unguarded | metadata holding Master Bedroom and MB Passage but no En suite Washroom, shifting Master Bedroom: `KeyError('En suite Washroom')` | both companion rooms must be present before all three are shifted | not executed | Shift.TestAreaAsWrittenFails | Shift.TestAreaShiftSucceeds |
| backend_project/src/adjust_dimension.py:686 | the further-adjacency test iterates `further_adjacent_rooms[adj_room]`, a dictionary keyed by direction names, so it checks no room and always passes; `new_room_maain.py:792` does the same | a room blocked on both sides whose neighbour on the first side has a room beyond it that is blocked toward that side: the neighbours are shifted anyway | test the rooms beyond each neighbour on that side and give up when one is blocked | not executed | Cascade.KeysCheckMissesBlockedRoom | Cascade.ThirdStepChecked |
| backend_project/src/new_room_placement.py:383-390 | for South and West the rooms beyond the target side are shifted by `+width` / `+length`, back into the new room | a South placement against a room with a neighbour below: the neighbour is moved up, overlapping the new room | shift them by `-width` / `-length`, as `new_room_maain.py` does at lines 1663-1689 | not executed | Placement.NeighboursAsWrittenMoveTheWrongWay | Placement.NeighboursClearNewRoom |
| frontend/src/utils/dxfExportUtils.js:286-338 | each LINE entity template ends with one more `0` line after its last pair, and the closing template starts with an empty line, so the lines stop alternating group code and value | any wall list, the empty one included | drop the extra `0` of each entity and give ENDSEC its `0` group code, so the file is a sequence of code/value pairs | not executed | DxfExport.AsWrittenBreaksPairing | DxfExport.CorrectedIsPaired |
