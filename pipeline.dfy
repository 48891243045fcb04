// adjust_room_dimensions_to_meet_constraints and adjust_dimension_main of
// backend_project/src/adjust_dimension.py: raising rooms to their minimum
// dimensions, and the sequence of phases that resizes the fixed rooms,
// stitches the broken connections and optionally rebalances the area.
//
// Every make_roomdata call deep-copies the points it is given, while the
// plans built from metadata ({room: [data['coordinates'] ...]}) share the
// metadata's point lists.  The snaps below are placed accordingly: a snap of
// a plan built from metadata snaps that metadata too, and a snap of a plan
// whose metadata was made from it does not touch the metadata.
module Pipeline {
  import opened Wrappers
  import opened Geometry
  import opened FloorPlan
  import opened RoomData
  import Snap
  import opened CommonWalls
  import opened Shift
  import opened Resize
  import opened Cascade

  // --- adjust_room_dimensions_to_meet_constraints ---

  // The rooms never adjusted, whatever their constraints.
  const Excluded: set<string> := {"MB Passage"}

  // What the loop asks of a room of width w and height h whose minima are
  // mw and mh: each dimension below its minimum, raised to exactly it,
  // width first.
  function Requests(w: int, h: int, mw: int, mh: int): (r: seq<(string, int)>)
    ensures w >= mw && h >= mh ==> r == []
    ensures w < mw && h >= mh ==> r == [("width", mw)]
    ensures w >= mw && h < mh ==> r == [("height", mh)]
    ensures w < mw && h < mh ==> r == [("width", mw), ("height", mh)]
  {
    var widthDelta := Max(0, mw - w);
    var heightDelta := Max(0, mh - h);
    (if widthDelta > 0 then [("width", widthDelta + w)] else []) +
    (if heightDelta > 0 then [("height", heightDelta + h)] else [])
  }

  // adjust_dimension once per request, each on the metadata the one
  // before left.
  function ApplyRequests(md: Metadata, room: string, reqs: seq<(string, int)>, order: Plan -> seq<int>): (r: Result<Metadata>)
    ensures r.Ok? ==> SameNames(md, r.value)
    decreases |reqs|
  {
    if |reqs| == 0 then Ok(md)
    else
      match AdjustDimensionAsWritten(StitchModule, md, room, reqs[0].0, reqs[0].1, order(PlanOf(md)))
      case Err(e) => Err(e)
      case Ok(md1) => ApplyRequests(md1, room, reqs[1..], order)
  }

  // One turn of the loop over metadata.items().  The dimensions are read
  // before any edit; a room without constraints, or without a min_width or
  // min_height, raises KeyError.  (The room always has metadata, as the
  // loop runs over the metadata's own keys.)
  function EnforceRoom(md: Metadata, cs: Constraints, fixed: set<string>, room: string, order: Plan -> seq<int>): (r: Result<Metadata>)
    ensures room in fixed || room in Excluded ==> r == Ok(md)
    ensures room !in fixed && room !in Excluded && HasMeta(md, room) && room !in cs ==> r == Err(KeyError(room))
    ensures r.Ok? ==> SameNames(md, r.value)
  {
    if room in fixed || room in Excluded then Ok(md)
    else
      match FindMeta(md, room)
      case None => Ok(md)
      case Some(i) =>
        var (w, h) := Dimensions(md[i].walls);
        if room !in cs then Err(KeyError(room))
        else if cs[room].minWidth.None? then Err(KeyError("min_width"))
        else if cs[room].minHeight.None? then Err(KeyError("min_height"))
        else ApplyRequests(md, room, Requests(w, h, cs[room].minWidth.value, cs[room].minHeight.value), order)
  }

  // The loop over the rooms, in metadata order.
  function EnforceNames(md: Metadata, cs: Constraints, fixed: set<string>, names: seq<string>, order: Plan -> seq<int>): (r: Result<Metadata>)
    ensures r.Ok? ==> SameNames(md, r.value)
  {
    if |names| == 0 then Ok(md)
    else
      match EnforceNames(md, cs, fixed, names[..|names| - 1], order)
      case Err(e) => Err(e)
      case Ok(md1) => EnforceRoom(md1, cs, fixed, names[|names| - 1], order)
  }

  function NamesOf(md: Metadata): (r: seq<string>)
    ensures |r| == |md| && forall m :: 0 <= m < |md| ==> r[m] == md[m].name
  {
    seq(|md|, m requires 0 <= m < |md| => md[m].name)
  }

  // adjust_room_dimensions_to_meet_constraints(metadata, constraints,
  // fixed_room_dimensions, updated_rooms); updated_rooms is passed on to
  // adjust_dimension, which rebinds it before use, so it plays no part.
  function Enforce(md: Metadata, cs: Constraints, fixed: set<string>, order: Plan -> seq<int>): (r: Result<Metadata>)
    ensures r.Ok? ==> SameNames(md, r.value)
  {
    EnforceNames(md, cs, fixed, NamesOf(md), order)
  }

  // A room already at or above both minima is left as it is.
  lemma EnforceRoomMet(md: Metadata, cs: Constraints, fixed: set<string>, room: string, order: Plan -> seq<int>, i: nat)
    requires i < |md| && FindMeta(md, room) == Some(i)
    requires room in cs && cs[room].minWidth.Some? && cs[room].minHeight.Some?
    requires Dimensions(md[i].walls).0 >= cs[room].minWidth.value
    requires Dimensions(md[i].walls).1 >= cs[room].minHeight.value
    ensures EnforceRoom(md, cs, fixed, room, order) == Ok(md)
  {
  }

  // A room of an unconstrained kind skipped neither by name nor as fixed
  // stops the whole enforcement with a KeyError.
  lemma EnforceStopsAtUnconstrained(md: Metadata, cs: Constraints, fixed: set<string>, order: Plan -> seq<int>, names: seq<string>)
    requires |names| > 0
    requires EnforceNames(md, cs, fixed, names[..|names| - 1], order).Ok?
    requires var room := names[|names| - 1]; room !in fixed && room !in Excluded && room !in cs && HasMeta(md, room)
    ensures EnforceNames(md, cs, fixed, names, order) == Err(KeyError(names[|names| - 1]))
  {
    var room := names[|names| - 1];
    var md1 := EnforceNames(md, cs, fixed, names[..|names| - 1], order).value;
    var j :| 0 <= j < |md| && md[j].name == room;
    assert md1[j].name == room;
  }

  // Only the width is below its minimum: one adjust_dimension call, to
  // exactly the minimum width.
  lemma EnforceRoomWidthOnly(md: Metadata, cs: Constraints, fixed: set<string>, room: string, order: Plan -> seq<int>, i: nat)
    requires room !in fixed && room !in Excluded
    requires i < |md| && FindMeta(md, room) == Some(i)
    requires room in cs && cs[room].minWidth.Some? && cs[room].minHeight.Some?
    requires Dimensions(md[i].walls).0 < cs[room].minWidth.value
    requires Dimensions(md[i].walls).1 >= cs[room].minHeight.value
    ensures EnforceRoom(md, cs, fixed, room, order) ==
      AdjustDimensionAsWritten(StitchModule, md, room, "width", cs[room].minWidth.value, order(PlanOf(md)))
  {
    var (w, h) := Dimensions(md[i].walls);
    var rs := Requests(w, h, cs[room].minWidth.value, cs[room].minHeight.value);
    assert rs == [("width", cs[room].minWidth.value)];
    var one := AdjustDimensionAsWritten(StitchModule, md, room, "width", cs[room].minWidth.value, order(PlanOf(md)));
    if one.Ok? {
      assert ApplyRequests(one.value, room, rs[1..], order) == Ok(one.value);
    }
  }

  // Only the height is below its minimum: one adjust_dimension call, to
  // exactly the minimum height.
  lemma EnforceRoomHeightOnly(md: Metadata, cs: Constraints, fixed: set<string>, room: string, order: Plan -> seq<int>, i: nat)
    requires room !in fixed && room !in Excluded
    requires i < |md| && FindMeta(md, room) == Some(i)
    requires room in cs && cs[room].minWidth.Some? && cs[room].minHeight.Some?
    requires Dimensions(md[i].walls).0 >= cs[room].minWidth.value
    requires Dimensions(md[i].walls).1 < cs[room].minHeight.value
    ensures EnforceRoom(md, cs, fixed, room, order) ==
      AdjustDimensionAsWritten(StitchModule, md, room, "height", cs[room].minHeight.value, order(PlanOf(md)))
  {
    var (w, h) := Dimensions(md[i].walls);
    var rs := Requests(w, h, cs[room].minWidth.value, cs[room].minHeight.value);
    assert rs == [("height", cs[room].minHeight.value)];
    var one := AdjustDimensionAsWritten(StitchModule, md, room, "height", cs[room].minHeight.value, order(PlanOf(md)));
    if one.Ok? {
      assert ApplyRequests(one.value, room, rs[1..], order) == Ok(one.value);
    }
  }

  // When every room is fixed or excluded, nothing changes.
  lemma {:induction false} EnforceNamesAllSkipped(md: Metadata, cs: Constraints, fixed: set<string>, names: seq<string>, order: Plan -> seq<int>)
    requires forall k :: 0 <= k < |names| ==> names[k] in fixed || names[k] in Excluded
    ensures EnforceNames(md, cs, fixed, names, order) == Ok(md)
  {
    if |names| > 0 {
      EnforceNamesAllSkipped(md, cs, fixed, names[..|names| - 1], order);
    }
  }

  // --- adjust_dimension_main ---

  // One entry of fixed_room_dimensions: a room and its requested width and
  // height, 0 meaning "leave as it is".
  datatype FixedDims = FixedDims(room: string, width: int, height: int)

  // What the loop carries from one phase to the next: the metadata,
  // new_rooms, the plan the next broken-connection analysis starts from, and
  // whether the local updated_rooms has been assigned yet.
  datatype Phase = Phase(md: Metadata, newRooms: Plan, updatedBound: bool)

  // make_shift_analysis_dict(broken_connections, updated_rooms, new_rooms).
  type ShiftAnalysis = (seq<(string, string)>, Plan, Plan) -> seq<ShiftEntry>

  // adjust_extra_area(metadata, constraints, fixed_room_dimensions, target).
  type Rebalance = (Metadata, set<string>, int) -> Metadata

  // The threshold of every snap of adjust_dimension_main.
  const MainSnap := 30

  // One axis of a fixed room: update_wall_length_by_dimension (the same
  // procedure as adjust_dimension), the snap of the edited plan (which also
  // snaps the metadata it was built from), fresh metadata, stitching the
  // broken connections with overlap when the room shrank, and fresh
  // metadata again.  The final plan becomes new_rooms, snapped in place.
  function FixAxis(ph: Phase, room: string, dimension: string, value: int, current: int,
                   analysis: ShiftAnalysis, order: Plan -> seq<int>): (r: Result<Phase>)
    ensures value == 0 ==> r == Ok(ph)
  {
    if value == 0 then Ok(ph)
    else
      match AdjustDimensionAsWritten(StitchModule, ph.md, room, dimension, value, order(PlanOf(ph.md)))
      case Err(e) => Err(e)
      case Ok(md1) =>
        var updated := Snap.SnapPlan(PlanOf(md1), MainSnap, order(PlanOf(md1)));
        match MakeRoomDataSpec(updated)
        case Err(e) => Err(e)
        case Ok(md2) =>
          var broken := LostPairs(CommonWallsSpec(ph.newRooms), CommonWallsSpec(updated));
          match Stitch(md2, analysis(broken, updated, ph.newRooms), value < current)
          case Err(e) => Err(e)
          case Ok(md3) =>
            var final := PlanOf(md3);
            match MakeRoomDataSpec(final)
            case Err(e) => Err(e)
            case Ok(md4) => Ok(Phase(md4, Snap.SnapPlan(final, MainSnap, order(final)), true))
  }

  // One turn of the loop over fixed_room_dimensions: rooms without
  // metadata are skipped; both current dimensions are read before the
  // width is changed.
  function FixRoom(ph: Phase, f: FixedDims, analysis: ShiftAnalysis, order: Plan -> seq<int>): (r: Result<Phase>)
    ensures !HasMeta(ph.md, f.room) ==> r == Ok(ph)
  {
    if !HasMeta(ph.md, f.room) then Ok(ph)
    else
      var (cw, ch) := RoomDimensions(ph.md, f.room);
      match FixAxis(ph, f.room, "width", f.width, cw, analysis, order)
      case Err(e) => Err(e)
      case Ok(ph1) => FixAxis(ph1, f.room, "height", f.height, ch, analysis, order)
  }

  function FixRooms(ph: Phase, fixed: seq<FixedDims>, analysis: ShiftAnalysis, order: Plan -> seq<int>): Result<Phase> {
    if |fixed| == 0 then Ok(ph)
    else
      match FixRooms(ph, fixed[..|fixed| - 1], analysis, order)
      case Err(e) => Err(e)
      case Ok(ph1) => FixRoom(ph1, fixed[|fixed| - 1], analysis, order)
  }

  function FixedNames(fixed: seq<FixedDims>): set<string> {
    set k | 0 <= k < |fixed| :: fixed[k].room
  }

  datatype Prepared = Prepared(phase: Phase, target: int)

  // The first phase: metadata of the given plan, the total area to freeze,
  // and the given plan snapped in place as new_rooms (the metadata holds
  // copies, so it is not snapped).
  function Prepare(coords: Plan, order: Plan -> seq<int>): (r: Result<Prepared>)
    ensures r.Err? <==> !Rectilinear(coords)
    ensures r.Ok? ==> r.value.target == PlanArea(coords)
  {
    match MakeRoomDataSpec(coords)
    case Err(e) => Err(e)
    case Ok(md) =>
      MetadataArea(coords);
      Ok(Prepared(Phase(md, Snap.SnapPlan(coords, MainSnap, order(coords)), false), TotalArea(md)))
  }

  // Everything before the freeze question: the fixed rooms, then the
  // minimum constraints for the others.  The call passes updated_rooms,
  // which only an adjusted axis assigns: with none, reading it fails.
  function Adjusted(prep: Prepared, fixed: seq<FixedDims>, analysis: ShiftAnalysis, order: Plan -> seq<int>): Result<Metadata> {
    match FixRooms(prep.phase, fixed, analysis, order)
    case Err(e) => Err(e)
    case Ok(ph) =>
      if !ph.updatedBound then Err(NameError("updated_rooms"))
      else Enforce(ph.md, RoomConstraints, FixedNames(fixed), order)
  }

  // The last phase: fresh metadata of the adjusted plan (which must be
  // rectilinear), then with freeze 'Yes' the rebalanced plan, snapped and
  // checked by make_roomdata once more; otherwise the adjusted plan.
  function Finish(md: Metadata, fixed: set<string>, freeze: string, target: int,
                  rebalance: Rebalance, order: Plan -> seq<int>): Result<Plan> {
    var p := PlanOf(md);
    match MakeRoomDataSpec(p)
    case Err(e) => Err(e)
    case Ok(md4) =>
      if freeze == "Yes" then
        var q := PlanOf(rebalance(md4, fixed, target));
        var snapped := Snap.SnapPlan(q, MainSnap, order(q));
        match MakeRoomDataSpec(snapped)
        case Err(e) => Err(e)
        case Ok(_) => Ok(snapped)
      else Ok(p)
  }

  // adjust_dimension_main(coords, fixed_room_dimensions, area_freeze);
  // order gives the set order of the distinct coordinate values of a plan.
  // A diagonal wall in the given plan fails at once, and every plan returned
  // has passed make_roomdata, so it has only horizontal and vertical walls.
  function AdjustDimensionMain(coords: Plan, fixed: seq<FixedDims>, freeze: string,
                               analysis: ShiftAnalysis, rebalance: Rebalance, order: Plan -> seq<int>): (r: Result<Plan>)
    ensures !Rectilinear(coords) ==> r == Err(KeyError("diagonal"))
    ensures r.Ok? ==> Rectilinear(r.value)
  {
    match Prepare(coords, order)
    case Err(e) => Err(e)
    case Ok(prep) =>
      match Adjusted(prep, fixed, analysis, order)
      case Err(e) => Err(e)
      case Ok(md) => Finish(md, FixedNames(fixed), freeze, prep.target, rebalance, order)
  }

  // --- properties ---

  // A requested width of 0 leaves the width alone: the room is only
  // changed by its height request, measured against the height read at the
  // start.
  lemma ZeroWidthSkips(ph: Phase, f: FixedDims, analysis: ShiftAnalysis, order: Plan -> seq<int>)
    requires f.width == 0 && HasMeta(ph.md, f.room)
    ensures FixRoom(ph, f, analysis, order) ==
      FixAxis(ph, f.room, "height", f.height, RoomDimensions(ph.md, f.room).1, analysis, order)
  {
  }

  // Both requests 0: the room is left as it is.
  lemma ZeroDimensionsSkip(ph: Phase, f: FixedDims, analysis: ShiftAnalysis, order: Plan -> seq<int>)
    requires f.width == 0 && f.height == 0
    ensures FixRoom(ph, f, analysis, order) == Ok(ph)
  {
  }

  // The area handed to the rebalancing is the total area of the plan as
  // given, before any edit: a rebalancing that replaces its target by that
  // area gives the same result.
  lemma FreezeTarget(coords: Plan, fixed: seq<FixedDims>, freeze: string,
                     analysis: ShiftAnalysis, rebalance: Rebalance, order: Plan -> seq<int>)
    ensures AdjustDimensionMain(coords, fixed, freeze, analysis, rebalance, order) ==
      AdjustDimensionMain(coords, fixed, freeze, analysis, (md, f, t) => rebalance(md, f, PlanArea(coords)), order)
  {
  }

  // Only freeze 'Yes' rebalances: otherwise the result does not depend on
  // the rebalancing at all.
  lemma OnlyYesRebalances(coords: Plan, fixed: seq<FixedDims>, freeze: string,
                          analysis: ShiftAnalysis, r1: Rebalance, r2: Rebalance, order: Plan -> seq<int>)
    requires freeze != "Yes"
    ensures AdjustDimensionMain(coords, fixed, freeze, analysis, r1, order) ==
      AdjustDimensionMain(coords, fixed, freeze, analysis, r2, order)
  {
  }

  // Without freezing, the result is the adjusted plan itself.
  lemma NoFreezeResult(coords: Plan, fixed: seq<FixedDims>, freeze: string,
                       analysis: ShiftAnalysis, rebalance: Rebalance, order: Plan -> seq<int>)
    requires freeze != "Yes"
    requires Prepare(coords, order).Ok?
    requires Adjusted(Prepare(coords, order).value, fixed, analysis, order).Ok?
    ensures var md := Adjusted(Prepare(coords, order).value, fixed, analysis, order).value;
      AdjustDimensionMain(coords, fixed, freeze, analysis, rebalance, order) ==
        if Rectilinear(PlanOf(md)) then Ok(PlanOf(md)) else Err(KeyError("diagonal"))
  {
  }

  // A diagonal wall in the given plan fails at once.
  lemma DiagonalFails(coords: Plan, fixed: seq<FixedDims>, freeze: string,
                      analysis: ShiftAnalysis, rebalance: Rebalance, order: Plan -> seq<int>)
    requires !Rectilinear(coords)
    ensures AdjustDimensionMain(coords, fixed, freeze, analysis, rebalance, order) == Err(KeyError("diagonal"))
  {
  }

  // A fixed room that the loop passes over: both requests 0, or no metadata.
  predicate Skipped(md: Metadata, f: FixedDims) {
    (f.width == 0 && f.height == 0) || !HasMeta(md, f.room)
  }

  lemma {:induction false} FixRoomsAllSkipped(ph: Phase, fixed: seq<FixedDims>, analysis: ShiftAnalysis, order: Plan -> seq<int>)
    requires forall k :: 0 <= k < |fixed| ==> Skipped(ph.md, fixed[k])
    ensures FixRooms(ph, fixed, analysis, order) == Ok(ph)
  {
    if |fixed| > 0 {
      FixRoomsAllSkipped(ph, fixed[..|fixed| - 1], analysis, order);
      var f := fixed[|fixed| - 1];
      assert Skipped(ph.md, f);
      if f.width == 0 && f.height == 0 {
        ZeroDimensionsSkip(ph, f, analysis, order);
      }
    }
  }

  // When the loop adjusts no axis at all, updated_rooms is never assigned
  // and the call that passes it fails.
  lemma NothingFixedFails(coords: Plan, fixed: seq<FixedDims>, freeze: string,
                          analysis: ShiftAnalysis, rebalance: Rebalance, order: Plan -> seq<int>)
    requires Rectilinear(coords)
    requires forall k :: 0 <= k < |fixed| ==> Skipped(MakeRoomDataSpec(coords).value, fixed[k])
    ensures AdjustDimensionMain(coords, fixed, freeze, analysis, rebalance, order) == Err(NameError("updated_rooms"))
  {
    FixRoomsAllSkipped(Prepare(coords, order).value.phase, fixed, analysis, order);
  }
}
