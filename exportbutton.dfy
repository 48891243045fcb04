// frontend/src/components/ExportButton.jsx: generateImprovedDXF, the
// minimal AutoCAD R12 file the export button writes (a HEADER with the
// drawing extents, one LINE per wall, CR+LF line ends), the colour each
// lineweight is given, and generateAndDownloadDXF, which measures the drawing
// first.
module ExportButton {
  import opened Wrappers
  import opened Drawing
  import opened Text
  import opened GroupCodes
  import opened Coordinates
  import Lineweights

  // ---------------------------------------------------------------------
  // mapLineweightToColor

  // The AutoCAD colour number for a lineweight id: grey for the two thin
  // weights, white/black for medium, standard and anything unknown, and
  // red, blue and green for the three heavy ones.
  function MapLineweightToColor(lineweightId: string): (r: nat)
    ensures r in {1, 3, 5, 7, 8, 9}
  {
    match lineweightId
    case "ultrathin" => 9
    case "thin" => 8
    case "medium" => 7
    case "standard" => 7
    case "thick" => 1
    case "verythick" => 5
    case "ultraheavy" => 3
    case _ => 7
  }

  // wall.lineweightId || 'standard': a missing or empty id is the standard
  // weight.
  function ExportedId(w: FWall): (r: string)
    ensures r != ""
  {
    if w.lineweightId.None? || w.lineweightId.value == "" then "standard" else w.lineweightId.value
  }

  function ColorOf(w: FWall): (r: nat)
    ensures w.lineweightId.None? ==> r == 7
  {
    MapLineweightToColor(ExportedId(w))
  }

  // The colours of the table entries, in table order.
  lemma TableColors()
    ensures var t := Lineweights.LINEWEIGHTS;
      MapLineweightToColor(t[0].id) == 9 && MapLineweightToColor(t[1].id) == 8 &&
      MapLineweightToColor(t[2].id) == 7 && MapLineweightToColor(t[3].id) == 7 &&
      MapLineweightToColor(t[4].id) == 1 && MapLineweightToColor(t[5].id) == 5 &&
      MapLineweightToColor(t[6].id) == 3
  {
  }

  // Only medium and standard share a colour: every other weight of the
  // table can be told apart in the exported file.
  lemma ColorsTellWeightsApart()
    ensures var t := Lineweights.LINEWEIGHTS;
      forall i, j :: 0 <= i < j < |t| && MapLineweightToColor(t[i].id) == MapLineweightToColor(t[j].id) ==>
        i == 2 && j == 3
  {
    TableColors();
  }

  // An id the table does not list gets the default colour.
  lemma UnlistedColor(id: Option<string>)
    requires id.Some?
    requires forall k :: 0 <= k < |Lineweights.LINEWEIGHTS| ==> Some(Lineweights.LINEWEIGHTS[k].id) != id
    ensures MapLineweightToColor(id.value) == 7
  {
    var t := Lineweights.LINEWEIGHTS;
    assert Some(t[0].id) != id && Some(t[1].id) != id && Some(t[2].id) != id && Some(t[3].id) != id;
    assert Some(t[4].id) != id && Some(t[5].id) != id && Some(t[6].id) != id;
  }

  // A wall is exported in the colour of the lineweight the canvas draws it
  // with: getLineweightById falls back to standard exactly where the
  // exporter's default does.
  lemma ColorFollowsLookup(w: FWall)
    ensures ColorOf(w) == MapLineweightToColor(Lineweights.GetLineweightById(w.lineweightId).id)
  {
    var t := Lineweights.LINEWEIGHTS;
    if exists k :: 0 <= k < |t| && Some(t[k].id) == w.lineweightId {
      ListedColor(w);
    } else {
      UnlistedStandard(w);
    }
  }

  // A listed id is looked up and exported as itself ...
  lemma ListedColor(w: FWall)
    requires exists k :: 0 <= k < |Lineweights.LINEWEIGHTS| && Some(Lineweights.LINEWEIGHTS[k].id) == w.lineweightId
    ensures ExportedId(w) == Lineweights.GetLineweightById(w.lineweightId).id
  {
    var r := Lineweights.GetLineweightById(w.lineweightId);
    ListedIdsNonEmpty(r);
  }

  // ... and any other is drawn as standard and exported in its colour.
  lemma UnlistedStandard(w: FWall)
    requires forall k :: 0 <= k < |Lineweights.LINEWEIGHTS| ==> Some(Lineweights.LINEWEIGHTS[k].id) != w.lineweightId
    ensures ColorOf(w) == 7 && Lineweights.GetLineweightById(w.lineweightId).id == "standard"
  {
    var id := w.lineweightId;
    if id.Some? && id.value != "" {
      UnlistedColor(id);
    }
  }

  lemma ListedIdsNonEmpty(lw: Lineweights.Lineweight)
    requires lw in Lineweights.LINEWEIGHTS
    ensures lw.id != ""
  {
  }

  // ---------------------------------------------------------------------
  // generateImprovedDXF

  // formatPoint, Number(val).toFixed(6).
  type FixedText = real -> string

  const CRLF := "\r\n"

  // Lines 76-113: HEADER with the version, the insertion base and the
  // extents, then the opening of ENTITIES.
  function ImprovedHeader(contentBounds: Bounds, formatPoint: FixedText): (r: seq<string>)
    ensures |r| == 38
  {
    var b := contentBounds;
    VersionItems + InsBaseItems + Extent("$EXTMIN", b.minX, b.minY, formatPoint) +
    Extent("$EXTMAX", b.maxX, b.maxY, formatPoint) + EntitiesOpening
  }

  // Lines 76-83.
  const VersionItems: seq<string> := ["0", "SECTION", "2", "HEADER", "9", "$ACADVER", "1", "AC1009"]

  // Lines 84-91.
  const InsBaseItems: seq<string> := ["9", "$INSBASE", "10", "0.0", "20", "0.0", "30", "0.0"]

  // Lines 92-99 and 100-107: a header variable holding a point at z 0.
  function Extent(name: string, x: real, y: real, formatPoint: FixedText): (r: seq<string>)
    ensures |r| == 8
  {
    ["9", name, "10", formatPoint(x), "20", formatPoint(y), "30", "0.0"]
  }

  // Lines 108-113.
  const EntitiesOpening: seq<string> := ["0", "ENDSEC", "0", "SECTION", "2", "ENTITIES"]

  // Lines 130-147: the LINE of one wall on layer 0 in its colour, with no
  // flip of y.
  function WallItems(wall: FWall, formatPoint: FixedText): (r: seq<string>)
    ensures |r| == 18
  {
    ["0", "LINE", "8", "0", "62", NatString(ColorOf(wall)),
     "10", formatPoint(wall.start.x), "20", formatPoint(wall.start.y), "30", "0.0",
     "11", formatPoint(wall.end.x), "21", formatPoint(wall.end.y), "31", "0.0"]
  }

  // The LINEs of the walls, in order.
  function WallLines(walls: seq<FWall>, formatPoint: FixedText): (r: seq<string>)
    ensures |r| == 18 * |walls|
  {
    var line := (w: FWall, i: nat) => WallItems(w, formatPoint);
    BlocksLength(walls, line, 18);
    Blocks(walls, line)
  }

  // Lines 153-156.
  const Trailer: seq<string> := ["0", "ENDSEC", "0", "EOF"]

  // The items of the file, before they are joined.
  function ImprovedLines(walls: seq<FWall>, contentBounds: Bounds, formatPoint: FixedText): (r: seq<string>)
    ensures |r| == 42 + 18 * |walls|
  {
    ImprovedHeader(contentBounds, formatPoint) + WallLines(walls, formatPoint) + Trailer
  }

  // One more wall appends its LINE.
  lemma WallLinesStep(header: seq<string>, walls: seq<FWall>, formatPoint: FixedText, i: nat)
    requires i < |walls|
    ensures header + WallLines(walls[..i + 1], formatPoint) ==
            header + WallLines(walls[..i], formatPoint) + WallItems(walls[i], formatPoint)
  {
    var line := (w: FWall, i: nat) => WallItems(w, formatPoint);
    BlocksStep(walls, line, i);
  }

  // The header list, a concat per wall, the trailer, and the join with
  // CR+LF.
  method GenerateImprovedDXF(walls: seq<FWall>, contentBounds: Bounds, formatPoint: FixedText)
    returns (text: string)
    ensures text == Join(ImprovedLines(walls, contentBounds, formatPoint), CRLF)
  {
    var dxfLines := ImprovedHeader(contentBounds, formatPoint);
    ghost var header := dxfLines;
    assert walls[..0] == [];
    var i := 0;
    while i < |walls|
      invariant 0 <= i <= |walls|
      invariant dxfLines == header + WallLines(walls[..i], formatPoint)
    {
      var wall := walls[i];
      dxfLines := dxfLines + WallItems(wall, formatPoint);
      WallLinesStep(header, walls, formatPoint, i);
      i := i + 1;
    }
    assert walls[..i] == walls;
    dxfLines := dxfLines + Trailer;
    text := Join(dxfLines, CRLF);
  }

  // generateAndDownloadDXF without the download: the content bounds of the
  // walls, then the file.
  method GenerateAndDownloadDXF(walls: seq<FWall>, formatPoint: FixedText) returns (dxfContent: string)
    ensures dxfContent == Join(ImprovedLines(walls, ContentBounds(walls), formatPoint), CRLF)
  {
    var contentBounds := CalculateContentBounds(walls);
    dxfContent := GenerateImprovedDXF(walls, contentBounds, formatPoint);
  }

  // ---------------------------------------------------------------------
  // Layout of the generated file

  // The header: the R12 version, the extents of the given bounds, and the
  // ENTITIES section opened right after HEADER is closed.
  lemma ImprovedHeaderAt(walls: seq<FWall>, contentBounds: Bounds, formatPoint: FixedText)
    ensures var d, b := ImprovedLines(walls, contentBounds, formatPoint), contentBounds;
      d[..8] == ["0", "SECTION", "2", "HEADER", "9", "$ACADVER", "1", "AC1009"] &&
      d[16..24] == ["9", "$EXTMIN", "10", formatPoint(b.minX), "20", formatPoint(b.minY), "30", "0.0"] &&
      d[24..32] == ["9", "$EXTMAX", "10", formatPoint(b.maxX), "20", formatPoint(b.maxY), "30", "0.0"] &&
      d[32..38] == ["0", "ENDSEC", "0", "SECTION", "2", "ENTITIES"]
  {
    var b := contentBounds;
    var d, h := ImprovedLines(walls, b, formatPoint), ImprovedHeader(b, formatPoint);
    var lo, hi := Extent("$EXTMIN", b.minX, b.minY, formatPoint), Extent("$EXTMAX", b.maxX, b.maxY, formatPoint);
    HeaderParts(VersionItems + InsBaseItems, lo, hi, EntitiesOpening, WallLines(walls, formatPoint) + Trailer);
    assert d == VersionItems + InsBaseItems + lo + hi + EntitiesOpening + (WallLines(walls, formatPoint) + Trailer);
    assert (VersionItems + InsBaseItems)[..8] == VersionItems;
  }

  // Where the parts of the header are.
  lemma HeaderParts(a: seq<string>, lo: seq<string>, hi: seq<string>, e: seq<string>, rest: seq<string>)
    requires |a| == 16 && |lo| == 8 && |hi| == 8 && |e| == 6
    ensures var d := a + lo + hi + e + rest;
      d[..8] == a[..8] && d[16..24] == lo && d[24..32] == hi && d[32..38] == e
  {
    var d := a + lo + hi + e + rest;
    assert d[..16] == a;
    assert d[16..24] == lo;
    assert d[24..32] == hi;
    assert d[32..38] == e;
  }

  // The k-th wall's items sit at 18 * k in the LINE items.
  lemma WallLinesAt(walls: seq<FWall>, formatPoint: FixedText, k: nat)
    requires k < |walls|
    ensures forall i :: 0 <= i < 18 ==> WallLines(walls, formatPoint)[18 * k + i] == WallItems(walls[k], formatPoint)[i]
  {
    var line := (w: FWall, i: nat) => WallItems(w, formatPoint);
    FixedBlockAt(walls, line, 18, k);
    assert WallLines(walls, formatPoint) == Blocks(walls, line);
    forall i | 0 <= i < 18
      ensures WallLines(walls, formatPoint)[18 * k + i] == WallItems(walls[k], formatPoint)[i]
    {
      assert Blocks(walls, line)[18 * k + i] == line(walls[k], k)[i];
    }
  }

  // An item of the middle part, in the whole list.
  lemma MiddleItem(h: seq<string>, m: seq<string>, t: seq<string>, j: nat)
    requires j < |m|
    ensures (h + m + t)[|h| + j] == m[j]
  {
  }

  // The k-th wall's LINE follows the header and the LINEs before it.
  lemma ImprovedWallAt(walls: seq<FWall>, contentBounds: Bounds, formatPoint: FixedText, k: nat)
    requires k < |walls|
    ensures var d, e, w := ImprovedLines(walls, contentBounds, formatPoint), 38 + 18 * k, walls[k];
      d[e..e + 18] ==
        ["0", "LINE", "8", "0", "62", NatString(ColorOf(w)),
         "10", formatPoint(w.start.x), "20", formatPoint(w.start.y), "30", "0.0",
         "11", formatPoint(w.end.x), "21", formatPoint(w.end.y), "31", "0.0"]
  {
    var d, e := ImprovedLines(walls, contentBounds, formatPoint), 38 + 18 * k;
    var h, ls := ImprovedHeader(contentBounds, formatPoint), WallLines(walls, formatPoint);
    var x := WallItems(walls[k], formatPoint);
    WallLinesAt(walls, formatPoint, k);
    forall i | 0 <= i < 18
      ensures d[e + i] == x[i]
    {
      MiddleItem(h, ls, Trailer, 18 * k + i);
    }
    Window(d, x, e);
  }

  // The file always closes ENTITIES and ends with EOF, which is the last
  // line of the text.
  lemma ImprovedEndsWithEOF(walls: seq<FWall>, contentBounds: Bounds, formatPoint: FixedText)
    ensures var d := ImprovedLines(walls, contentBounds, formatPoint);
      d[|d| - 4..] == ["0", "ENDSEC", "0", "EOF"]
    ensures var text := Join(ImprovedLines(walls, contentBounds, formatPoint), CRLF);
      |text| >= 3 && text[|text| - 3..] == "EOF"
  {
    var d, h, ls := ImprovedLines(walls, contentBounds, formatPoint), ImprovedHeader(contentBounds, formatPoint), WallLines(walls, formatPoint);
    assert d[|d| - 4..] == Trailer;
    JoinEndsWithLast(d, CRLF);
  }

  // Exported from the button, the extents are the padded bounds of the
  // drawing: a 1000 by 1000 box at the origin when there are no walls, and
  // otherwise a box holding every endpoint at least 50 inside, touched on
  // each side by the padding.
  lemma ExportedExtents(walls: seq<FWall>, formatPoint: FixedText)
    ensures var d, b := ImprovedLines(walls, ContentBounds(walls), formatPoint), ContentBounds(walls);
      d[19] == formatPoint(b.minX) && d[21] == formatPoint(b.minY) &&
      d[27] == formatPoint(b.maxX) && d[29] == formatPoint(b.maxY)
    ensures |walls| == 0 ==> var d := ImprovedLines(walls, ContentBounds(walls), formatPoint);
      d[19] == formatPoint(0.0) && d[21] == formatPoint(0.0) &&
      d[27] == formatPoint(1000.0) && d[29] == formatPoint(1000.0)
    ensures var b := ContentBounds(walls);
      forall k :: 0 <= k < |walls| ==>
        b.minX + 50.0 <= walls[k].start.x <= b.maxX - 50.0 && b.minY + 50.0 <= walls[k].start.y <= b.maxY - 50.0 &&
        b.minX + 50.0 <= walls[k].end.x <= b.maxX - 50.0 && b.minY + 50.0 <= walls[k].end.y <= b.maxY - 50.0
    ensures |walls| > 0 ==> var b := ContentBounds(walls);
      (exists p :: IsEndpoint(walls, p) && p.x == b.minX + 50.0) &&
      (exists p :: IsEndpoint(walls, p) && p.x == b.maxX - 50.0) &&
      (exists p :: IsEndpoint(walls, p) && p.y == b.minY + 50.0) &&
      (exists p :: IsEndpoint(walls, p) && p.y == b.maxY - 50.0)
  {
    var b := ContentBounds(walls);
    ImprovedHeaderAt(walls, b, formatPoint);
    var d := ImprovedLines(walls, b, formatPoint);
    assert d[19] == d[16..24][3] && d[21] == d[16..24][5];
    assert d[27] == d[24..32][3] && d[29] == d[24..32][5];
    ContentBoundsContain(walls);
  }

  // ---------------------------------------------------------------------
  // Group-code pairing

  lemma ImprovedHeaderPaired(contentBounds: Bounds, formatPoint: FixedText)
    ensures Paired(ImprovedHeader(contentBounds, formatPoint))
  {
    KnownCodes();
    var b := contentBounds;
    var lo, hi := Extent("$EXTMIN", b.minX, b.minY, formatPoint), Extent("$EXTMAX", b.maxX, b.maxY, formatPoint);
    assert CodesFrom(VersionItems, 4);
    PairedByCodes(VersionItems);
    assert CodesFrom(InsBaseItems, 4);
    PairedByCodes(InsBaseItems);
    ExtentPaired("$EXTMIN", b.minX, b.minY, formatPoint);
    ExtentPaired("$EXTMAX", b.maxX, b.maxY, formatPoint);
    assert CodesFrom(EntitiesOpening, 2);
    PairedByCodes(EntitiesOpening);
    PairedAppend(VersionItems, InsBaseItems);
    PairedAppend(VersionItems + InsBaseItems, lo);
    PairedAppend(VersionItems + InsBaseItems + lo, hi);
    PairedAppend(VersionItems + InsBaseItems + lo + hi, EntitiesOpening);
  }

  lemma ExtentPaired(name: string, x: real, y: real, formatPoint: FixedText)
    ensures Paired(Extent(name, x, y, formatPoint))
  {
    KnownCodes();
    var e := Extent(name, x, y, formatPoint);
    assert CodesFrom(e, 4);
    PairedByCodes(e);
  }

  lemma WallItemsPaired(wall: FWall, formatPoint: FixedText)
    ensures Paired(WallItems(wall, formatPoint))
  {
    KnownCodes();
    var x := WallItems(wall, formatPoint);
    assert CodesFrom(x, 16);
    assert CodesFrom(x, 12);
    assert CodesFrom(x, 8);
    assert CodesFrom(x, 4);
    PairedByCodes(x);
  }

  // Unlike the template exporter, this file is code/value pairs throughout.
  lemma ImprovedIsPaired(walls: seq<FWall>, contentBounds: Bounds, formatPoint: FixedText)
    ensures Paired(ImprovedLines(walls, contentBounds, formatPoint))
  {
    var line := (w: FWall, i: nat) => WallItems(w, formatPoint);
    forall w: FWall, i: nat
      ensures Paired(line(w, i))
    {
      WallItemsPaired(w, formatPoint);
    }
    BlocksPaired(walls, line);
    assert WallLines(walls, formatPoint) == Blocks(walls, line);
    var h := ImprovedHeader(contentBounds, formatPoint);
    ImprovedHeaderPaired(contentBounds, formatPoint);
    KnownCodes();
    PairedByCodes(Trailer);
    PairedAppend(h, WallLines(walls, formatPoint));
    PairedAppend(h + WallLines(walls, formatPoint), Trailer);
  }
}
