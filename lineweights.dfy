// frontend/src/components/constants/lineweights.js: the lineweight table,
// its lookup with the "standard" fallback, and the conversion of a width in
// millimetres to screen pixels.  The widths are the 0.13 to 1.00 mm steps of
// the ISO 128-20 line-width series.
module Lineweights {
  import opened Wrappers

  datatype Lineweight = Lineweight(id: string, size: real, name: string, description: string, color: string)

  const LINEWEIGHTS: seq<Lineweight> := [
    Lineweight("ultrathin", 0.13, "Ultra Thin (0.13mm)", "Hatching, text underlays, dimension lines", "#000000"),
    Lineweight("thin", 0.18, "Thin (0.18mm)", "Secondary annotations, interior fixtures", "#000000"),
    Lineweight("medium", 0.25, "Medium (0.25mm)", "Dimension lines, grid lines, minor elements", "#000000"),
    Lineweight("standard", 0.35, "Standard (0.35mm)", "Most wall outlines, furniture, room separation", "#000000"),
    Lineweight("thick", 0.50, "Thick (0.50mm)", "Main walls, columns, heavy outlines", "#000000"),
    Lineweight("verythick", 0.70, "Very Thick (0.70mm)", "Section cuts, outlines in elevation", "#000000"),
    Lineweight("ultraheavy", 1.00, "Ultra Heavy (1.00mm+)", "Title blocks, emphasis, cutting planes", "#000000")
  ]

  const DEFAULT_LINEWEIGHT := "standard"

  // LINEWEIGHTS.find(lineweight => lineweight.id === id); a missing id
  // (undefined) equals no entry.
  function Find(table: seq<Lineweight>, id: Option<string>): (r: Option<Lineweight>)
    ensures r.None? <==> forall k :: 0 <= k < |table| ==> Some(table[k].id) != id
    ensures r.Some? ==> exists k :: (0 <= k < |table| && table[k] == r.value && Some(r.value.id) == id &&
      forall j :: 0 <= j < k ==> Some(table[j].id) != id)
  {
    if |table| == 0 then None
    else if Some(table[0].id) == id then Some(table[0])
    else
      var r := Find(table[1..], id);
      assert forall k :: 1 <= k < |table| ==> table[1..][k - 1] == table[k];
      if r.Some? then
        var k :| (0 <= k < |table[1..]| && table[1..][k] == r.value && Some(r.value.id) == id &&
          forall j :: 0 <= j < k ==> Some(table[1..][j].id) != id);
        assert table[k + 1] == r.value;
        r
      else r
  }

  // The second find of the fallback always succeeds, on the fourth entry.
  lemma DefaultIsListed()
    ensures Find(LINEWEIGHTS, Some(DEFAULT_LINEWEIGHT)) == Some(LINEWEIGHTS[3])
  {
  }

  // The entry with the given id, or else the standard one.
  function GetLineweightById(id: Option<string>): (r: Lineweight)
    ensures r in LINEWEIGHTS
    ensures (exists k :: 0 <= k < |LINEWEIGHTS| && Some(LINEWEIGHTS[k].id) == id) ==> Some(r.id) == id
    ensures (forall k :: 0 <= k < |LINEWEIGHTS| ==> Some(LINEWEIGHTS[k].id) != id) ==> r == LINEWEIGHTS[3]
  {
    match Find(LINEWEIGHTS, id)
    case Some(lw) => lw
    case None => LINEWEIGHTS[3]
  }

  // Ids are distinct and the widths strictly increase down the table.
  lemma TableIsOrdered()
    ensures forall i, j :: 0 <= i < j < |LINEWEIGHTS| ==> LINEWEIGHTS[i].id != LINEWEIGHTS[j].id
    ensures forall i, j :: 0 <= i < j < |LINEWEIGHTS| ==> LINEWEIGHTS[i].size < LINEWEIGHTS[j].size
    ensures LINEWEIGHTS[3].id == DEFAULT_LINEWEIGHT
  {
  }

  // With distinct ids the lookup is exact: each entry is found by its id.
  lemma LookupFindsEntry(k: nat)
    requires k < |LINEWEIGHTS|
    ensures GetLineweightById(Some(LINEWEIGHTS[k].id)) == LINEWEIGHTS[k]
  {
    TableIsOrdered();
  }

  const BaseScaleFactor: real := 2.5

  function CalculateLineweightPixels(lineweightMm: real, zoom: real): (r: real)
    ensures lineweightMm >= 0.0 && zoom >= 0.0 ==> r >= 0.0
  {
    lineweightMm * BaseScaleFactor * zoom
  }

  // Linear in the zoom ...
  lemma PixelsLinear(mm: real, z1: real, z2: real, c: real)
    ensures CalculateLineweightPixels(mm, z1 + z2) == CalculateLineweightPixels(mm, z1) + CalculateLineweightPixels(mm, z2)
    ensures CalculateLineweightPixels(mm, c * z1) == c * CalculateLineweightPixels(mm, z1)
  {
  }

  // ... and, for a positive width, strictly increasing in it.
  lemma PixelsMonotone(mm: real, z1: real, z2: real)
    requires mm > 0.0 && z1 < z2
    ensures CalculateLineweightPixels(mm, z1) < CalculateLineweightPixels(mm, z2)
  {
    PixelsLinear(mm, z1, z2 - z1, 1.0);
    assert z1 + (z2 - z1) == z2;
  }
}
