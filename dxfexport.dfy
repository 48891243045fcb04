// frontend/src/utils/dxfExportUtils.js: generateDXF, which writes an AutoCAD
// DXF file from template literals, one chunk per section and one LINE entity
// per wall, and mapLineweightToProperties, which gives each wall its line
// properties.  A template literal is modelled by the list of its lines: the
// file indents every template line after the first by two spaces, so the
// text is the lines joined by a newline and two spaces.
module DxfExport {
  import opened Wrappers
  import opened Drawing
  import opened Text
  import opened GroupCodes
  import Lineweights

  // ---------------------------------------------------------------------
  // mapLineweightToProperties

  datatype LineProperties = LineProperties(color: nat, lineType: string, lineweight: nat)

  // DXF_COLORS.black
  const Black: nat := 7

  // The lineweight is in hundredths of a millimetre; an id that is missing or
  // not in the table falls to the default branch.
  function MapLineweightToProperties(lineweightId: Option<string>): (r: LineProperties)
    ensures r.color == Black && r.lineType == "CONTINUOUS"
    ensures r.lineweight in {13, 18, 25, 35, 50, 70, 100}
  {
    var lineweight :=
      match lineweightId
      case Some("ultrathin") => 13
      case Some("thin") => 18
      case Some("medium") => 25
      case Some("standard") => 35
      case Some("thick") => 50
      case Some("verythick") => 70
      case Some("ultraheavy") => 100
      case _ => 35;
    LineProperties(Black, "CONTINUOUS", lineweight)
  }

  // Each listed id gets its table width in hundredths of a millimetre ...
  lemma ListedWeight(k: nat)
    requires k < |Lineweights.LINEWEIGHTS|
    ensures MapLineweightToProperties(Some(Lineweights.LINEWEIGHTS[k].id)).lineweight as real ==
            Lineweights.LINEWEIGHTS[k].size * 100.0
  {
    assert k == 0 || k == 1 || k == 2 || k == 3 || k == 4 || k == 5 || k == 6;
  }

  // ... and any other id, or none, the default 35.
  lemma UnlistedWeight(lineweightId: Option<string>)
    requires forall k :: 0 <= k < |Lineweights.LINEWEIGHTS| ==> Some(Lineweights.LINEWEIGHTS[k].id) != lineweightId
    ensures MapLineweightToProperties(lineweightId).lineweight == 35
  {
    var t, id := Lineweights.LINEWEIGHTS, lineweightId;
    assert Some(t[0].id) != id && Some(t[1].id) != id && Some(t[2].id) != id && Some(t[3].id) != id;
    assert Some(t[4].id) != id && Some(t[5].id) != id && Some(t[6].id) != id;
  }

  // So the lineweight is always the width getLineweightById gives, in
  // hundredths of a millimetre: unknown ids get the standard 0.35 mm.
  lemma PropertiesFollowTable(lineweightId: Option<string>)
    ensures MapLineweightToProperties(lineweightId).lineweight as real ==
            Lineweights.GetLineweightById(lineweightId).size * 100.0
  {
    var t := Lineweights.LINEWEIGHTS;
    if exists k :: 0 <= k < |t| && Some(t[k].id) == lineweightId {
      var k :| 0 <= k < |t| && Some(t[k].id) == lineweightId;
      Lineweights.LookupFindsEntry(k);
      ListedWeight(k);
    } else {
      UnlistedWeight(lineweightId);
    }
  }

  // ---------------------------------------------------------------------
  // Template literals

  // Between two template lines: the newline and the two spaces of indent.
  const Sep := "\n  "

  // A template literal whose last line is empty: each line followed by the
  // separator.
  function Block(ls: seq<string>): (r: string)
    ensures |ls| == 0 ==> r == ""
  {
    if |ls| == 0 then "" else ls[0] + Sep + Block(ls[1..])
  }

  lemma {:induction false} BlockAppend(a: seq<string>, b: seq<string>)
    ensures Block(a + b) == Block(a) + Block(b)
  {
    if |a| > 0 {
      BlockAppend(a[1..], b);
      assert (a + b)[1..] == a[1..] + b;
    } else {
      assert a + b == b;
    }
  }

  // A block followed by more lines is one longer template.
  lemma {:induction false} BlockThenJoin(a: seq<string>, b: seq<string>)
    requires |b| > 0
    ensures Block(a) + Join(b, Sep) == Join(a + b, Sep)
  {
    if |a| > 0 {
      BlockThenJoin(a[1..], b);
      assert (a + b)[1..] == a[1..] + b;
    } else {
      assert a + b == b;
    }
  }

  // `${n}` of the handle, colour and lineweight integers; other numbers are
  // printed by the parameter num (String(number)).
  type NumberText = real -> string

  datatype PaperDimensions = PaperDimensions(width: real, height: real)

  // The opening of a section with the given name and its closing.
  function SectionStart(name: string): seq<string> {
    ["0", "SECTION", "2", name]
  }

  const SectionEnd: seq<string> := ["0", "ENDSEC"]

  // Lines 66-131: the HEADER section, in three parts.
  function HeaderLines(paper: PaperDimensions, num: NumberText): (r: seq<string>)
    ensures |r| == 66
  {
    HeaderStart + PaperExtents(paper, num) + HeaderEnd
  }

  // Lines 66-85: drawing version, code page and insertion base.
  const HeaderStart: seq<string> := [
    "0", "SECTION", "2", "HEADER", "9", "$ACADVER", "1", "AC1021", "9", "$DWGCODEPAGE", "3",
    "ANSI_1252", "9", "$INSBASE", "10", "0.0", "20", "0.0", "30", "0.0"
  ]

  // Lines 86-113: the drawing extents and limits, from the origin to the
  // paper size.
  function PaperExtents(paper: PaperDimensions, num: NumberText): (r: seq<string>)
    ensures |r| == 28
  {
    [
      "9", "$EXTMIN", "10", "0.0", "20", "0.0", "30", "0.0", "9", "$EXTMAX", "10",
      num(paper.width), "20", num(paper.height), "30", "0.0", "9", "$LIMMIN", "10", "0.0", "20",
      "0.0", "9", "$LIMMAX", "10", num(paper.width), "20", num(paper.height)
    ]
  }

  // Lines 114-131: line-type scale, handle seed, drawing name and version.
  const HeaderEnd: seq<string> := [
    "9", "$LTSCALE", "40", "1.0", "9", "$HANDSEED", "5", "20000", "9", "$DWGNAME", "1",
    "Architectural Drawing", "9", "$ACADMAINTVER", "70", "25", "0", "ENDSEC"
  ]

  // Lines 135-268: the TABLES section.
  const TablesLines: seq<string> :=
    SectionStart("TABLES") + ViewportTable + LineTypeTable + LayerTable + StyleTable + SectionEnd

  // Lines 139-148: an empty viewport table.
  const ViewportTable: seq<string> := [
    "0", "TABLE", "2", "VPORT", "5", "8", "100", "AcDbSymbolTable", "0", "ENDTAB"
  ]

  // Lines 149-202: the BYBLOCK, BYLAYER and CONTINUOUS line types.
  const LineTypeTable: seq<string> :=
    ["0", "TABLE", "2", "LTYPE", "5", "5", "100", "AcDbSymbolTable"] +
    ByBlockLineType + ByLayerLineType + ContinuousLineType + ["0", "ENDTAB"]

  const ByBlockLineType: seq<string> := [
    "0", "LTYPE", "5", "14", "100", "AcDbSymbolTableRecord", "100", "AcDbLinetypeTableRecord",
    "2", "BYBLOCK", "70", "0"
  ]

  const ByLayerLineType: seq<string> := [
    "0", "LTYPE", "5", "15", "100", "AcDbSymbolTableRecord", "100", "AcDbLinetypeTableRecord",
    "2", "BYLAYER", "70", "0"
  ]

  const ContinuousLineType: seq<string> := [
    "0", "LTYPE", "5", "16", "100", "AcDbSymbolTableRecord", "100", "AcDbLinetypeTableRecord",
    "2", "CONTINUOUS", "70", "0", "3", "Solid line", "72", "65", "73", "0", "40", "0.0"
  ]

  // Lines 203-230: layer "0", colour 7, continuous.
  const LayerTable: seq<string> := [
    "0", "TABLE", "2", "LAYER", "5", "2", "100", "AcDbSymbolTable", "70", "1", "0", "LAYER", "5",
    "10", "100", "AcDbSymbolTableRecord", "100", "AcDbLayerTableRecord", "2", "0", "70", "0", "62",
    "7", "6", "CONTINUOUS", "0", "ENDTAB"
  ]

  // Lines 231-266: text style "Standard".
  const StyleTable: seq<string> := [
    "0", "TABLE", "2", "STYLE", "5", "3", "100", "AcDbSymbolTable", "70", "3", "0", "STYLE", "5",
    "11", "100", "AcDbSymbolTableRecord", "100", "AcDbTextStyleTableRecord", "2", "Standard", "70",
    "0", "40", "0.0", "41", "1.0", "50", "0.0", "71", "0", "42", "0.2", "3", "txt", "0", "ENDTAB"
  ]

  // Lines 272-275: the opening of the ENTITIES section.
  const EntitiesLines: seq<string> := SectionStart("ENTITIES")

  // Lines 286-315: the LINE entity of the wall at the given index, ending in a
  // "0" line.
  function LineEntity(wall: FWall, index: nat, num: NumberText): (r: seq<string>)
    ensures |r| == 29
  {
    var props := MapLineweightToProperties(wall.lineweightId);
    var handle := 20000 + index;
    ["0", "LINE", "5", NatString(handle), "100", "AcDbEntity", "8", "0",
     "6", props.lineType, "62", NatString(props.color), "370", NatString(props.lineweight),
     "100", "AcDbLine", "10", num(wall.start.x), "20", num(wall.start.y), "30", "0.0",
     "11", num(wall.end.x), "21", num(wall.end.y), "31", "0.0", "0"]
  }

  // The LINE entities of the walls, in order.
  function WallEntities(walls: seq<FWall>, num: NumberText): (r: seq<string>)
    ensures |r| == 29 * |walls|
  {
    var entity := (w: FWall, i: nat) => LineEntity(w, i, num);
    BlocksLength(walls, entity, 29);
    Blocks(walls, entity)
  }

  // Lines 319-338: the end of ENTITIES and the OBJECTS section.  The template
  // starts with a newline, so one empty line precedes these.
  const ClosingLines: seq<string> := [
    "ENDSEC", "0", "SECTION", "2", "OBJECTS", "0", "DICTIONARY", "5", "C", "100",
    "AcDbDictionary", "3", "ACAD_GROUP", "350", "D", "0", "ENDSEC", "0", "EOF"
  ]

  function Opening(paper: PaperDimensions, num: NumberText): (r: seq<string>)
    ensures |r| == 204
  {
    HeaderLines(paper, num) + TablesLines + EntitiesLines
  }

  // The lines of the generated file, as written.
  function DocumentLines(walls: seq<FWall>, paper: PaperDimensions, num: NumberText): (r: seq<string>)
    ensures |r| == 224 + 29 * |walls|
  {
    Opening(paper, num) + WallEntities(walls, num) + [""] + ClosingLines
  }

  // Chunks appended one after the other are the template of all their lines.
  lemma OpeningBlocks(header: seq<string>, tables: seq<string>, entities: seq<string>)
    ensures Block(header) + Block(tables) + Block(entities) == Block(header + tables + entities)
  {
    BlockAppend(header, tables);
    BlockAppend(header + tables, entities);
  }

  // Before the loop no entity has been written.
  lemma NoEntitiesYet(opening: seq<string>, walls: seq<FWall>, num: NumberText)
    ensures opening + WallEntities(walls[..0], num) == opening
  {
    assert WallEntities(walls[..0], num) == [];
  }

  // One more wall entity appended to the text so far.
  lemma EntityStep(opening: seq<string>, walls: seq<FWall>, num: NumberText, i: nat)
    requires i < |walls|
    ensures Block(opening + WallEntities(walls[..i + 1], num)) ==
            Block(opening + WallEntities(walls[..i], num)) + Block(LineEntity(walls[i], i, num))
  {
    var entity := (w: FWall, i: nat) => LineEntity(w, i, num);
    BlocksStep(walls, entity, i);
    assert opening + WallEntities(walls[..i + 1], num) ==
           (opening + WallEntities(walls[..i], num)) + LineEntity(walls[i], i, num);
    BlockAppend(opening + WallEntities(walls[..i], num), LineEntity(walls[i], i, num));
  }

  // The closing chunk begins with a newline: an empty line, then its lines.
  lemma ClosingStep(lines: seq<string>, closing: seq<string>)
    requires |closing| > 0
    ensures Block(lines) + (Sep + Join(closing, Sep)) == Join(lines + [""] + closing, Sep)
  {
    var rest := [""] + closing;
    assert rest[0] == "" && rest[1..] == closing && |rest| > 1;
    assert "" + Sep == Sep;
    assert Join(rest, Sep) == Sep + Join(closing, Sep);
    BlockThenJoin(lines, rest);
    assert lines + [""] + closing == lines + rest;
  }

  // generateDXF: the template chunks appended one by one to dxfContent.
  method GenerateDXF(walls: seq<FWall>, paper: PaperDimensions, num: NumberText) returns (dxfContent: string)
    ensures dxfContent == Join(DocumentLines(walls, paper, num), Sep)
  {
    var header, tables, entities := HeaderLines(paper, num), TablesLines, EntitiesLines;
    dxfContent := Block(header);
    dxfContent := dxfContent + Block(tables);
    dxfContent := dxfContent + Block(entities);
    ghost var opening := Opening(paper, num);
    OpeningIsChunks(paper, num);
    NoEntitiesYet(opening, walls, num);
    var i := 0;
    while i < |walls|
      invariant 0 <= i <= |walls|
      invariant dxfContent == Block(opening + WallEntities(walls[..i], num))
    {
      var wall := walls[i];
      dxfContent := dxfContent + Block(LineEntity(wall, i, num));
      EntityStep(opening, walls, num, i);
      i := i + 1;
    }
    assert walls[..i] == walls;
    dxfContent := dxfContent + (Sep + Join(ClosingLines, Sep));
    ClosingDocument(walls, paper, num);
  }

  // The three opening chunks make the template of the opening lines.
  lemma OpeningIsChunks(paper: PaperDimensions, num: NumberText)
    ensures Block(HeaderLines(paper, num)) + Block(TablesLines) + Block(EntitiesLines) == Block(Opening(paper, num))
  {
    OpeningBlocks(HeaderLines(paper, num), TablesLines, EntitiesLines);
  }

  // The closing chunk completes the document.
  lemma ClosingDocument(walls: seq<FWall>, paper: PaperDimensions, num: NumberText)
    ensures Block(Opening(paper, num) + WallEntities(walls, num)) + (Sep + Join(ClosingLines, Sep)) ==
            Join(DocumentLines(walls, paper, num), Sep)
  {
    ClosingStep(Opening(paper, num) + WallEntities(walls, num), ClosingLines);
  }

  // ---------------------------------------------------------------------
  // Layout of the generated file

  // Where each part of a file assembled as DocumentLines is.
  lemma Parts(h: seq<string>, t: seq<string>, e: seq<string>, w: seq<string>, c: seq<string>)
    ensures var d := h + t + e + w + [""] + c;
      (forall i :: 0 <= i < |h| ==> d[i] == h[i]) &&
      (forall i :: 0 <= i < |t| ==> d[|h| + i] == t[i]) &&
      (forall i :: 0 <= i < |e| ==> d[|h| + |t| + i] == e[i]) &&
      (forall i :: 0 <= i < |w| ==> d[|h| + |t| + |e| + i] == w[i]) &&
      d[|h| + |t| + |e| + |w|] == "" &&
      (forall i :: 0 <= i < |c| ==> d[|h| + |t| + |e| + |w| + 1 + i] == c[i])
  {
  }

  // The k-th wall's entity sits at 29 * k in the entity lines.
  lemma WallEntityAt(walls: seq<FWall>, num: NumberText, k: nat)
    requires k < |walls|
    ensures forall i :: 0 <= i < 29 ==> WallEntities(walls, num)[29 * k + i] == LineEntity(walls[k], k, num)[i]
  {
    var entity := (w: FWall, i: nat) => LineEntity(w, i, num);
    FixedBlockAt(walls, entity, 29, k);
    assert WallEntities(walls, num) == Blocks(walls, entity);
    forall i | 0 <= i < 29
      ensures WallEntities(walls, num)[29 * k + i] == LineEntity(walls[k], k, num)[i]
    {
      assert Blocks(walls, entity)[29 * k + i] == entity(walls[k], k)[i];
    }
  }

  lemma HeaderFacts(paper: PaperDimensions, num: NumberText)
    ensures var h := HeaderLines(paper, num);
      h[0] == "0" && h[1] == "SECTION" && h[2] == "2" && h[3] == "HEADER" && h[64] == "0" && h[65] == "ENDSEC" &&
      forall i :: 0 <= i < 28 ==> h[20 + i] == PaperExtents(paper, num)[i]
  {
    Parts3(HeaderStart, PaperExtents(paper, num), HeaderEnd);
    assert HeaderStart[3] == "HEADER" && HeaderEnd[16] == "0" && HeaderEnd[17] == "ENDSEC";
  }

  // Lines 20 to 47 of the file are the extents and the limits, from the
  // origin to the paper's width and height.
  lemma HeaderUsesPaper(walls: seq<FWall>, paper: PaperDimensions, num: NumberText)
    ensures DocumentLines(walls, paper, num)[20..48] ==
      ["9", "$EXTMIN", "10", "0.0", "20", "0.0", "30", "0.0",
       "9", "$EXTMAX", "10", num(paper.width), "20", num(paper.height), "30", "0.0",
       "9", "$LIMMIN", "10", "0.0", "20", "0.0",
       "9", "$LIMMAX", "10", num(paper.width), "20", num(paper.height)]
  {
    var d, h, x := DocumentLines(walls, paper, num), HeaderLines(paper, num), PaperExtents(paper, num);
    HeaderFacts(paper, num);
    Parts(h, TablesLines, EntitiesLines, WallEntities(walls, num), ClosingLines);
    forall i | 0 <= i < 28
      ensures d[20 + i] == x[i]
    {
      assert d[20 + i] == h[20 + i];
    }
    Window(d, x, 20);
  }

  lemma TablesFacts()
    ensures |TablesLines| == 134
    ensures TablesLines[0] == "0" && TablesLines[1] == "SECTION" && TablesLines[2] == "2" && TablesLines[3] == "TABLES"
    ensures TablesLines[132] == "0" && TablesLines[133] == "ENDSEC"
  {
    var t := TablesLines;
    var front := SectionStart("TABLES") + ViewportTable + LineTypeTable + LayerTable + StyleTable;
    assert |front| == 132;
    assert t == front + SectionEnd;
  }

  lemma ClosingFacts()
    ensures var c := ClosingLines;
      |c| == 19 && c[0] == "ENDSEC" && c[1] == "0" && c[2] == "SECTION" && c[3] == "2" && c[4] == "OBJECTS" &&
      c[15] == "0" && c[16] == "ENDSEC" && c[17] == "0" && c[18] == "EOF"
  {
  }

  // The sections come in the order HEADER, TABLES, ENTITIES, OBJECTS, each
  // opened by 0/SECTION/2/name and closed by 0/ENDSEC, and the file ends
  // with 0/EOF.
  lemma SectionOrder(walls: seq<FWall>, paper: PaperDimensions, num: NumberText)
    ensures var d, c := DocumentLines(walls, paper, num), 205 + 29 * |walls|;
      d[0] == "0" && d[1] == "SECTION" && d[2] == "2" && d[3] == "HEADER" && d[64] == "0" && d[65] == "ENDSEC" &&
      d[66] == "0" && d[67] == "SECTION" && d[68] == "2" && d[69] == "TABLES" && d[198] == "0" && d[199] == "ENDSEC" &&
      d[200] == "0" && d[201] == "SECTION" && d[202] == "2" && d[203] == "ENTITIES" && d[c] == "ENDSEC" &&
      d[c + 1] == "0" && d[c + 2] == "SECTION" && d[c + 3] == "2" && d[c + 4] == "OBJECTS" &&
      d[c + 15] == "0" && d[c + 16] == "ENDSEC" && d[|d| - 2] == "0" && d[|d| - 1] == "EOF"
  {
    HeaderFacts(paper, num);
    TablesFacts();
    ClosingFacts();
    assert EntitiesLines[1] == "SECTION" && EntitiesLines[3] == "ENTITIES";
    Parts(HeaderLines(paper, num), TablesLines, EntitiesLines, WallEntities(walls, num), ClosingLines);
  }

  // The k-th wall's LINE entity follows the opening and the entities of the
  // walls before it: handle 20000 + k, continuous line type, colour 7, the
  // wall's lineweight and its end points.
  lemma EntityPerWall(walls: seq<FWall>, paper: PaperDimensions, num: NumberText, k: nat)
    requires k < |walls|
    ensures var d, e, w := DocumentLines(walls, paper, num), 204 + 29 * k, walls[k];
      d[e..e + 29] ==
        ["0", "LINE", "5", NatString(20000 + k), "100", "AcDbEntity", "8", "0",
         "6", "CONTINUOUS", "62", "7", "370", NatString(MapLineweightToProperties(w.lineweightId).lineweight),
         "100", "AcDbLine", "10", num(w.start.x), "20", num(w.start.y), "30", "0.0",
         "11", num(w.end.x), "21", num(w.end.y), "31", "0.0", "0"]
  {
    var d, e, ents := DocumentLines(walls, paper, num), 204 + 29 * k, WallEntities(walls, num);
    var entity := LineEntity(walls[k], k, num);
    WallEntityAt(walls, num, k);
    forall i | 0 <= i < 29
      ensures d[e + i] == entity[i]
    {
      EntityLine(Opening(paper, num), ents, ClosingLines, 29 * k + i);
    }
    Window(d, entity, e);
    EntityFields(walls[k], k, num);
  }

  // The entity's line type and colour are the constant ones.
  lemma EntityFields(w: FWall, k: nat, num: NumberText)
    ensures LineEntity(w, k, num) ==
        ["0", "LINE", "5", NatString(20000 + k), "100", "AcDbEntity", "8", "0",
         "6", "CONTINUOUS", "62", "7", "370", NatString(MapLineweightToProperties(w.lineweightId).lineweight),
         "100", "AcDbLine", "10", num(w.start.x), "20", num(w.start.y), "30", "0.0",
         "11", num(w.end.x), "21", num(w.end.y), "31", "0.0", "0"]
  {
    assert NatString(7) == "7";
  }

  lemma HandleOf(walls: seq<FWall>, paper: PaperDimensions, num: NumberText, k: nat)
    requires k < |walls|
    ensures DocumentLines(walls, paper, num)[204 + 29 * k + 3] == NatString(20000 + k)
  {
    var ents := WallEntities(walls, num);
    EntityLine(Opening(paper, num), ents, ClosingLines, 29 * k + 3);
    WallEntityAt(walls, num, k);
    EntityHandle(walls[k], k, num);
    assert ents[29 * k + 3] == LineEntity(walls[k], k, num)[3];
  }

  // The j-th entity line follows the opening.
  lemma EntityLine(opening: seq<string>, ents: seq<string>, closing: seq<string>, j: nat)
    requires j < |ents|
    ensures (opening + ents + [""] + closing)[|opening| + j] == ents[j]
  {
  }

  lemma EntityHandle(wall: FWall, k: nat, num: NumberText)
    ensures LineEntity(wall, k, num)[3] == NatString(20000 + k)
  {
  }

  // Handles of different walls differ.
  lemma HandlesAreUnique(walls: seq<FWall>, paper: PaperDimensions, num: NumberText, j: nat, k: nat)
    requires j < |walls| && k < |walls| && j != k
    ensures var d := DocumentLines(walls, paper, num);
      d[204 + 29 * j + 3] != d[204 + 29 * k + 3]
  {
    HandleOf(walls, paper, num, j);
    HandleOf(walls, paper, num, k);
    HandlesDiffer(20000 + j, 20000 + k);
  }

  lemma HandlesDiffer(a: nat, b: nat)
    requires a != b
    ensures NatString(a) != NatString(b)
  {
    if NatString(a) == NatString(b) {
      NatStringInjective(a, b);
    }
  }

  // The text ends with EOF.
  lemma TextEndsWithEOF(walls: seq<FWall>, paper: PaperDimensions, num: NumberText)
    ensures var t := Join(DocumentLines(walls, paper, num), Sep);
      |t| >= 3 && t[|t| - 3..] == "EOF"
  {
    var d := DocumentLines(walls, paper, num);
    ClosingFacts();
    Parts(HeaderLines(paper, num), TablesLines, EntitiesLines, WallEntities(walls, num), ClosingLines);
    assert d[|d| - 1] == ClosingLines[18];
    JoinEndsWithLast(d, Sep);
  }

  // Every line after the first follows a newline and the two spaces of
  // indent.
  lemma TextIsIndented(walls: seq<FWall>, paper: PaperDimensions, num: NumberText, k: nat)
    requires 0 < k < |DocumentLines(walls, paper, num)|
    ensures var d := DocumentLines(walls, paper, num);
      Join(d, Sep) == Join(d[..k], Sep) + "\n  " + Join(d[k..], Sep)
  {
    JoinSplit(DocumentLines(walls, paper, num), Sep, k);
  }

  // ---------------------------------------------------------------------
  // Group-code pairing

  // Lines 286-314: the LINE entity without the "0" that ends the template,
  // a whole number of code/value pairs.
  function CorrectedLineEntity(wall: FWall, index: nat, num: NumberText): (r: seq<string>)
    ensures |r| == 28
  {
    var props := MapLineweightToProperties(wall.lineweightId);
    var handle := 20000 + index;
    ["0", "LINE", "5", NatString(handle), "100", "AcDbEntity", "8", "0",
     "6", props.lineType, "62", NatString(props.color), "370", NatString(props.lineweight),
     "100", "AcDbLine", "10", num(wall.start.x), "20", num(wall.start.y), "30", "0.0",
     "11", num(wall.end.x), "21", num(wall.end.y), "31", "0.0"]
  }

  // The entity as written is the corrected one and a stray group code.
  lemma EntityEndsWithStrayCode(wall: FWall, index: nat, num: NumberText)
    ensures LineEntity(wall, index, num) == CorrectedLineEntity(wall, index, num) + ["0"]
  {
  }

  // The file with each entity's trailing "0" dropped and the empty line
  // before ENDSEC made its "0" group code.
  function CorrectedDocumentLines(walls: seq<FWall>, paper: PaperDimensions, num: NumberText): (r: seq<string>)
  {
    var entity := (w: FWall, i: nat) => CorrectedLineEntity(w, i, num);
    Opening(paper, num) + Blocks(walls, entity) + ["0"] + ClosingLines
  }

  // An empty line after an even number of lines, followed by an odd
  // number of them, breaks the pairing whatever comes between: either the
  // empty line falls on a group-code position or the total is odd.
  lemma BlankBreaksPairing(opening: seq<string>, ents: seq<string>, closing: seq<string>)
    requires |opening| % 2 == 0 && |closing| % 2 == 1
    ensures !Paired(opening + ents + [""] + closing)
  {
    var d := opening + ents + [""] + closing;
    if |ents| % 2 == 0 {
      assert d[|opening| + |ents|] == "";
      assert !IsGroupCode(d[|opening| + |ents|]);
    } else {
      assert |d| % 2 == 1;
    }
  }

  // As written, no file is a sequence of code/value pairs: with an even
  // number of walls the empty line falls on a group-code position, with an
  // odd number the file has an odd number of lines.
  lemma AsWrittenBreaksPairing(walls: seq<FWall>, paper: PaperDimensions, num: NumberText)
    ensures !Paired(DocumentLines(walls, paper, num))
  {
    BlankBreaksPairing(Opening(paper, num), WallEntities(walls, num), ClosingLines);
  }

  lemma HeaderStartPaired()
    ensures Paired(HeaderStart)
  {
    KnownCodes();
    assert CodesFrom(HeaderStart, 18);
    assert CodesFrom(HeaderStart, 14);
    assert CodesFrom(HeaderStart, 10);
    assert CodesFrom(HeaderStart, 6);
    assert CodesFrom(HeaderStart, 2);
    PairedByCodes(HeaderStart);
  }

  lemma PaperExtentsPaired(paper: PaperDimensions, num: NumberText)
    ensures Paired(PaperExtents(paper, num))
  {
    KnownCodes();
    var x := PaperExtents(paper, num);
    assert CodesFrom(x, 26);
    assert CodesFrom(x, 22);
    assert CodesFrom(x, 18);
    assert CodesFrom(x, 14);
    assert CodesFrom(x, 10);
    assert CodesFrom(x, 6);
    assert CodesFrom(x, 2);
    PairedByCodes(x);
  }

  lemma HeaderEndPaired()
    ensures Paired(HeaderEnd)
  {
    KnownCodes();
    assert CodesFrom(HeaderEnd, 16);
    assert CodesFrom(HeaderEnd, 12);
    assert CodesFrom(HeaderEnd, 8);
    assert CodesFrom(HeaderEnd, 4);
    PairedByCodes(HeaderEnd);
  }

  lemma HeaderPaired(paper: PaperDimensions, num: NumberText)
    ensures Paired(HeaderLines(paper, num))
  {
    var x := PaperExtents(paper, num);
    HeaderStartPaired();
    PaperExtentsPaired(paper, num);
    HeaderEndPaired();
    PairedAppend(HeaderStart, x);
    PairedAppend(HeaderStart + x, HeaderEnd);
  }

  lemma LineTypeTablePaired()
    ensures Paired(LineTypeTable)
  {
    KnownCodes();
    var head, tail := ["0", "TABLE", "2", "LTYPE", "5", "5", "100", "AcDbSymbolTable"], ["0", "ENDTAB"];
    assert CodesFrom(head, 2) && CodesFrom(head, 6);
    PairedByCodes(head);
    assert CodesFrom(ByBlockLineType, 2) && CodesFrom(ByBlockLineType, 6) && CodesFrom(ByBlockLineType, 10);
    PairedByCodes(ByBlockLineType);
    assert CodesFrom(ByLayerLineType, 2) && CodesFrom(ByLayerLineType, 6) && CodesFrom(ByLayerLineType, 10);
    PairedByCodes(ByLayerLineType);
    var c := ContinuousLineType;
    assert CodesFrom(c, 18);
    assert CodesFrom(c, 14);
    assert CodesFrom(c, 10);
    assert CodesFrom(c, 6);
    assert CodesFrom(c, 2);
    PairedByCodes(c);
    PairedByCodes(tail);
    PairedAppend(head, ByBlockLineType);
    PairedAppend(head + ByBlockLineType, ByLayerLineType);
    PairedAppend(head + ByBlockLineType + ByLayerLineType, c);
    PairedAppend(head + ByBlockLineType + ByLayerLineType + c, tail);
  }

  lemma LayerTablePaired()
    ensures Paired(LayerTable)
  {
    KnownCodes();
    assert CodesFrom(LayerTable, 26);
    assert CodesFrom(LayerTable, 22);
    assert CodesFrom(LayerTable, 18);
    assert CodesFrom(LayerTable, 14);
    assert CodesFrom(LayerTable, 10);
    assert CodesFrom(LayerTable, 6);
    assert CodesFrom(LayerTable, 2);
    PairedByCodes(LayerTable);
  }

  lemma StyleTablePaired()
    ensures Paired(StyleTable)
  {
    KnownCodes();
    assert CodesFrom(StyleTable, 34);
    assert CodesFrom(StyleTable, 30);
    assert CodesFrom(StyleTable, 26);
    assert CodesFrom(StyleTable, 22);
    assert CodesFrom(StyleTable, 18);
    assert CodesFrom(StyleTable, 14);
    assert CodesFrom(StyleTable, 10);
    assert CodesFrom(StyleTable, 6);
    assert CodesFrom(StyleTable, 2);
    PairedByCodes(StyleTable);
  }

  lemma SectionsPaired(name: string)
    ensures Paired(SectionStart(name)) && Paired(SectionEnd) && Paired(ViewportTable)
  {
    KnownCodes();
    PairedByCodes(SectionStart(name));
    PairedByCodes(SectionEnd);
    PairedByCodes(ViewportTable);
  }

  lemma TablesPaired()
    ensures Paired(TablesLines)
  {
    var start := SectionStart("TABLES");
    SectionsPaired("TABLES");
    LineTypeTablePaired();
    LayerTablePaired();
    StyleTablePaired();
    PairedAppend(start, ViewportTable);
    PairedAppend(start + ViewportTable, LineTypeTable);
    PairedAppend(start + ViewportTable + LineTypeTable, LayerTable);
    PairedAppend(start + ViewportTable + LineTypeTable + LayerTable, StyleTable);
    PairedAppend(start + ViewportTable + LineTypeTable + LayerTable + StyleTable, SectionEnd);
  }

  lemma ClosingPaired()
    ensures Paired(["0"] + ClosingLines)
  {
    KnownCodes();
    var closing := ["0"] + ClosingLines;
    assert CodesFrom(closing, 18);
    assert CodesFrom(closing, 14);
    assert CodesFrom(closing, 10);
    assert CodesFrom(closing, 6);
    assert CodesFrom(closing, 2);
    PairedByCodes(closing);
  }

  lemma CorrectedEntityPaired(wall: FWall, index: nat, num: NumberText)
    ensures Paired(CorrectedLineEntity(wall, index, num))
  {
    KnownCodes();
    var x := CorrectedLineEntity(wall, index, num);
    assert CodesFrom(x, 26);
    assert CodesFrom(x, 22);
    assert CodesFrom(x, 18);
    assert CodesFrom(x, 14);
    assert CodesFrom(x, 10);
    assert CodesFrom(x, 6);
    assert CodesFrom(x, 2);
    PairedByCodes(x);
  }

  // Corrected, every file is a sequence of code/value pairs.
  lemma CorrectedIsPaired(walls: seq<FWall>, paper: PaperDimensions, num: NumberText)
    ensures Paired(CorrectedDocumentLines(walls, paper, num))
  {
    var entity := (w: FWall, i: nat) => CorrectedLineEntity(w, i, num);
    forall w: FWall, i: nat
      ensures Paired(entity(w, i))
    {
      CorrectedEntityPaired(w, i, num);
    }
    BlocksPaired(walls, entity);
    HeaderPaired(paper, num);
    TablesPaired();
    PairedByCodes(EntitiesLines);
    var opening, ents, closing := Opening(paper, num), Blocks(walls, entity), ["0"] + ClosingLines;
    PairedAppend(HeaderLines(paper, num), TablesLines);
    PairedAppend(HeaderLines(paper, num) + TablesLines, EntitiesLines);
    ClosingPaired();
    PairedAppend(opening, ents);
    PairedAppend(opening + ents, closing);
    assert opening + ents + ["0"] + ClosingLines == opening + ents + closing;
  }
}
