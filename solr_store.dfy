/** SolrStore: the metadata document indexed for each tile, and the well-known-text
    geometry of its bounding box. */
module SolrStore {
  import opened Samples
  import opened Wrappers
  import opened Tiles

  /** The table every document names. */
  const TableName := "sea_surface_temp"

  /** A point as rendered: longitude text, latitude text. */
  type Coord = (string, string)

  /** The bounding-box geometry Solr indexes. */
  datatype Geometry = Point(at: Coord) | LineString(start: Coord, end: Coord) | Polygon(ring: seq<Coord>)

  function CoordText(c: Coord): string
  {
    c.0 + " " + c.1
  }

  function CoordsText(cs: seq<Coord>): string
  {
    if cs == [] then ""
    else if |cs| == 1 then CoordText(cs[0])
    else CoordText(cs[0]) + ", " + CoordsText(cs[1..])
  }

  /** The well-known-text form: `POINT(x y)`, `LINESTRING(x y, x y)`, `POLYGON((x y, ...))`. */
  function Wkt(g: Geometry): string
  {
    match g
    case Point(c) => "POINT(" + CoordText(c) + ")"
    case LineString(a, b) => "LINESTRING(" + CoordsText([a, b]) + ")"
    case Polygon(ring) => "POLYGON((" + CoordsText(ring) + "))"
  }

  /** The box's outline: lower left, lower right, upper right, upper left, and back to
      the start. */
  function Ring(lonMin: string, latMin: string, lonMax: string, latMax: string): seq<Coord>
  {
    [(lonMin, latMin), (lonMax, latMin), (lonMax, latMax), (lonMin, latMax), (lonMin, latMin)]
  }

  /** `determine_geo` as written: the shape is chosen by comparing the raw float bounds,
      and a line draws both of its points at the minimum latitude. `fmt` is
      `_format_latlon_string` (rounding to three decimals, then printing). */
  function DetermineGeoAsWritten(b: BBox, fmt: Sample -> string): (r: Geometry)
    ensures r.Point? <==> FloatEq(b.latMin, b.latMax) && FloatEq(b.lonMin, b.lonMax)
    ensures r.LineString? <==> FloatEq(b.latMin, b.latMax) != FloatEq(b.lonMin, b.lonMax)
    ensures r.Point? ==> r.at == (fmt(b.lonMin), fmt(b.latMin))
    ensures r.LineString? ==> r.start == (fmt(b.lonMin), fmt(b.latMin)) && r.end == (fmt(b.lonMax), fmt(b.latMin))
    ensures r.Polygon? ==> r.ring == Ring(fmt(b.lonMin), fmt(b.latMin), fmt(b.lonMax), fmt(b.latMax))
  {
    var latMin, latMax, lonMin, lonMax := fmt(b.latMin), fmt(b.latMax), fmt(b.lonMin), fmt(b.lonMax);
    if FloatEq(b.latMin, b.latMax) && FloatEq(b.lonMin, b.lonMax) then Point((lonMin, latMin))
    else if FloatEq(b.latMin, b.latMax) || FloatEq(b.lonMin, b.lonMax) then LineString((lonMin, latMin), (lonMax, latMin))
    else Polygon(Ring(lonMin, latMin, lonMax, latMax))
  }

  /** A box one longitude wide is drawn as a line from a point to itself: the maximum
      latitude is never written. */
  lemma VerticalLineAsWrittenDegenerate(b: BBox, fmt: Sample -> string)
    requires FloatEq(b.lonMin, b.lonMax) && !FloatEq(b.latMin, b.latMax)
    ensures DetermineGeoAsWritten(b, fmt) == LineString((fmt(b.lonMin), fmt(b.latMin)), (fmt(b.lonMin), fmt(b.latMin)))
  {
  }

  /** Bounds that differ but round to the same text still give a polygon, whose five
      points then name only two distinct corners. */
  lemma RoundedPolygonAsWrittenCollapses(b: BBox, fmt: Sample -> string)
    requires !FloatEq(b.latMin, b.latMax) && !FloatEq(b.lonMin, b.lonMax)
    requires fmt(b.latMin) == fmt(b.latMax)
    ensures var g := DetermineGeoAsWritten(b, fmt);
            g.Polygon? && g.ring[0] == g.ring[3] && g.ring[1] == g.ring[2]
  {
  }

  /** `determine_geo` as its comments intend: the shape is chosen on the rounded text,
      and a line joins the minimum corner to the maximum one. */
  function DetermineGeo(b: BBox, fmt: Sample -> string): (r: Geometry)
  {
    var latMin, latMax, lonMin, lonMax := fmt(b.latMin), fmt(b.latMax), fmt(b.lonMin), fmt(b.lonMax);
    if latMin == latMax && lonMin == lonMax then Point((lonMin, latMin))
    else if latMin == latMax || lonMin == lonMax then LineString((lonMin, latMin), (lonMax, latMax))
    else Polygon(Ring(lonMin, latMin, lonMax, latMax))
  }

  /** Solr can index what the corrected choice produces: a point where the rounded box
      is one point, a line between two distinct points where it is one line, and
      otherwise a closed ring of four distinct corners. */
  lemma DetermineGeoIndexable(b: BBox, fmt: Sample -> string)
    ensures var g := DetermineGeo(b, fmt);
            (g.Point? <==> fmt(b.latMin) == fmt(b.latMax) && fmt(b.lonMin) == fmt(b.lonMax)) &&
            (g.Point? ==> g.at == (fmt(b.lonMin), fmt(b.latMin))) &&
            (g.LineString? ==> g.start != g.end &&
                               g.start == (fmt(b.lonMin), fmt(b.latMin)) && g.end == (fmt(b.lonMax), fmt(b.latMax))) &&
            (g.Polygon? ==> |g.ring| == 5 && g.ring[0] == g.ring[4] &&
                            (forall i, j :: 0 <= i < j < 4 ==> g.ring[i] != g.ring[j]) &&
                            g.ring == Ring(fmt(b.lonMin), fmt(b.latMin), fmt(b.lonMax), fmt(b.latMax)))
  {
  }

  /** Where the rounding separates exactly the bounds that differ, the corrected choice
      draws the same point or polygon as the code, and lines differ only in their
      second latitude. */
  lemma DetermineGeoAgreesWhenRoundingExact(b: BBox, fmt: Sample -> string)
    requires fmt(b.latMin) == fmt(b.latMax) <==> FloatEq(b.latMin, b.latMax)
    requires fmt(b.lonMin) == fmt(b.lonMax) <==> FloatEq(b.lonMin, b.lonMax)
    ensures var g, w := DetermineGeo(b, fmt), DetermineGeoAsWritten(b, fmt);
            (g.Point? || g.Polygon? ==> g == w) &&
            (g.LineString? ==> w.LineString? && w.start == g.start && w.end == (g.end.0, g.start.1))
  {
  }

  /** A value of the Solr document. */
  datatype Field = FStr(s: string) | FNum(x: Sample) | FInt(i: int) | FList(items: seq<string>)

  type Document = map<string, Field>

  /** `tile_var_name_s`: the standard name when there is one, the variable name
      otherwise. */
  function VarName(s: SummaryValue): string
  {
    if s.standardName != "" then s.standardName else s.dataVarName
  }

  /** The fixed fields of the document. `isoTime` is the UTC timestamp formatting and
      `fileName` is `Path(granule).name`. */
  function BaseDoc(s: SummaryValue, data: TileData, geo: string, isoTime: int -> string, fileName: string -> string): Document
  {
    map[
      "table_s" := FStr(TableName),
      "sectionSpec_s" := FStr(s.sectionSpec),
      "dataset_s" := FStr(s.datasetName),
      "granule_s" := FStr(fileName(s.granule)),
      "tile_min_lon" := FNum(s.bbox.lonMin),
      "tile_max_lon" := FNum(s.bbox.lonMax),
      "tile_min_lat" := FNum(s.bbox.latMin),
      "tile_max_lat" := FNum(s.bbox.latMax),
      "tile_depth" := FNum(Finite(data.depth)),
      "tile_min_time_dt" := FStr(isoTime(s.stats.minTime)),
      "tile_max_time_dt" := FStr(isoTime(s.stats.maxTime)),
      "tile_min_val_d" := FNum(s.stats.min),
      "tile_max_val_d" := FNum(s.stats.max),
      "tile_avg_val_d" := FNum(s.stats.mean),
      "tile_count_i" := FInt(s.stats.count),
      "tile_var_name_s" := FStr(VarName(s)),
      "geo" := FStr(geo),
      "id" := FStr(s.tileId),
      "solr_id_s" := FStr(s.datasetName + "!" + s.tileId)
    ]
  }

  /** The fixed fields that identify the tile, and no `ecco_tile` among them. */
  lemma BaseDocKeys(s: SummaryValue, data: TileData, geo: string, isoTime: int -> string, fileName: string -> string)
    ensures var doc := BaseDoc(s, data, geo, isoTime, fileName);
            "solr_id_s" in doc && doc["solr_id_s"] == FStr(s.datasetName + "!" + s.tileId) &&
            "id" in doc && doc["id"] == FStr(s.tileId) &&
            "tile_var_name_s" in doc && doc["tile_var_name_s"] == FStr(VarName(s)) &&
            "geo" in doc && doc["geo"] == FStr(geo)
    ensures "ecco_tile" !in BaseDoc(s, data, geo, isoTime, fileName)
  {
    BaseDocNoEcco(s, data, geo, isoTime, fileName);
  }

  lemma BaseDocNoEcco(s: SummaryValue, data: TileData, geo: string, isoTime: int -> string, fileName: string -> string)
    ensures "ecco_tile" !in BaseDoc(s, data, geo, isoTime, fileName)
  {
  }

  /** The `ecco_tile` key, added when the tile data has a non-zero `tile` field. */
  function WithEcco(doc: Document, data: TileData): Document
  {
    if data.eccoTile.Some? && data.eccoTile.value != 0 then doc["ecco_tile" := FInt(data.eccoTile.value)]
    else doc
  }

  /** A global attribute's value: its only value, or the list of all of them. */
  function AttributeField(a: GlobalAttribute): Field
  {
    if |a.values| == 1 then FStr(a.values[0]) else FList(a.values)
  }

  /** The global attributes written into the document in order; a later one replaces
      an earlier one, or a fixed field, of the same name. */
  function WithAttributes(doc: Document, attrs: seq<GlobalAttribute>): Document
  {
    if attrs == [] then doc
    else WithAttributes(doc, attrs[..|attrs| - 1])[attrs[|attrs| - 1].name := AttributeField(attrs[|attrs| - 1])]
  }

  /** The document of a tile. */
  function SolrDoc(s: SummaryValue, data: TileData, fmt: Sample -> string, isoTime: int -> string, fileName: string -> string): Document
  {
    WithAttributes(WithEcco(BaseDoc(s, data, Wkt(DetermineGeo(s.bbox, fmt)), isoTime, fileName), data), s.globalAttributes)
  }

  /** `_build_solr_doc`: reads the tile and builds its document, adding the global
      attributes one by one. */
  method BuildSolrDoc(tile: NexusTile, fmt: Sample -> string, isoTime: int -> string, fileName: string -> string)
    returns (doc: Document)
    ensures doc == SolrDoc(tile.summary.Value(), tile.tile, fmt, isoTime, fileName)
  {
    var s := tile.summary.Value();
    var geo := Wkt(DetermineGeo(s.bbox, fmt));
    doc := WithEcco(BaseDoc(s, tile.tile, geo, isoTime, fileName), tile.tile);
    var attrs := tile.summary.globalAttributes;
    var i := 0;
    while i < |attrs|
      invariant 0 <= i <= |attrs|
      invariant doc == WithAttributes(WithEcco(BaseDoc(s, tile.tile, geo, isoTime, fileName), tile.tile), attrs[..i])
    {
      assert attrs[..i + 1][..i] == attrs[..i];
      doc := doc[attrs[i].name := AttributeField(attrs[i])];
      i := i + 1;
    }
    assert attrs[..i] == attrs;
  }

  /** The error `_build_solr_doc` raises as written. */
  datatype SolrError = AttributeError(attribute: string)

  /** `_build_solr_doc` as written. It reads a global attribute through `getName()`,
      `getValues(0)`, `getValuesCount()` and `getValuesList()`, the accessors of the Java
      protocol-buffer classes; a Python `Attribute` message has only the fields `name`
      and `values`, so the first global attribute raises AttributeError. Without global
      attributes the document is built, with the geometry as written. */
  function SolrDocAsWritten(s: SummaryValue, data: TileData, fmt: Sample -> string, isoTime: int -> string, fileName: string -> string)
    : (r: Result<Document, SolrError>)
    ensures r.Failure? <==> |s.globalAttributes| > 0
    ensures r.Failure? ==> r.error == AttributeError("getName")
    ensures r.Success? ==> "geo" in r.value && r.value["geo"] == FStr(Wkt(DetermineGeoAsWritten(s.bbox, fmt)))
  {
    if |s.globalAttributes| > 0 then Failure(AttributeError("getName"))
    else
      var geo := Wkt(DetermineGeoAsWritten(s.bbox, fmt));
      BaseDocKeys(s, data, geo, isoTime, fileName);
      Success(WithEcco(BaseDoc(s, data, geo, isoTime, fileName), data))
  }

  /** A summary with one global attribute `a = ["x"]`: as written the document is never
      built, while the corrected loop writes `a` as the scalar `"x"`. */
  lemma GlobalAttributeAsWrittenRaises(s: SummaryValue, data: TileData, fmt: Sample -> string, isoTime: int -> string, fileName: string -> string)
    requires s.globalAttributes == [GlobalAttribute("a", ["x"])]
    ensures SolrDocAsWritten(s, data, fmt, isoTime, fileName) == Failure(AttributeError("getName"))
    ensures var doc := SolrDoc(s, data, fmt, isoTime, fileName);
            "a" in doc && doc["a"] == FStr("x")
  {
    AttributeLastWins(WithEcco(BaseDoc(s, data, Wkt(DetermineGeo(s.bbox, fmt)), isoTime, fileName), data), s.globalAttributes, 0);
  }

  /** Without global attributes, and where the two geometry choices agree, the code as
      written builds the corrected document. */
  lemma AsWrittenAgreesWithoutAttributes(s: SummaryValue, data: TileData, fmt: Sample -> string, isoTime: int -> string, fileName: string -> string)
    requires s.globalAttributes == []
    requires DetermineGeoAsWritten(s.bbox, fmt) == DetermineGeo(s.bbox, fmt)
    ensures SolrDocAsWritten(s, data, fmt, isoTime, fileName) == Success(SolrDoc(s, data, fmt, isoTime, fileName))
  {
  }

  /** A key no attribute names keeps its value. */
  lemma {:induction false} AttributesKeepOthers(doc: Document, attrs: seq<GlobalAttribute>, key: string)
    requires forall k :: 0 <= k < |attrs| ==> attrs[k].name != key
    ensures key in WithAttributes(doc, attrs) <==> key in doc
    ensures key in doc ==> WithAttributes(doc, attrs)[key] == doc[key]
  {
    if attrs != [] {
      AttributesKeepOthers(doc, attrs[..|attrs| - 1], key);
    }
  }

  /** The last attribute of a name decides that key: its only value, or the list of its
      values. */
  lemma {:induction false} AttributeLastWins(doc: Document, attrs: seq<GlobalAttribute>, k: nat)
    requires k < |attrs|
    requires forall j :: k < j < |attrs| ==> attrs[j].name != attrs[k].name
    ensures attrs[k].name in WithAttributes(doc, attrs)
    ensures WithAttributes(doc, attrs)[attrs[k].name] ==
            if |attrs[k].values| == 1 then FStr(attrs[k].values[0]) else FList(attrs[k].values)
    decreases |attrs|
  {
    var n := |attrs| - 1;
    if k < n {
      var init := attrs[..n];
      assert init[k] == attrs[k];
      forall j | k < j < n
        ensures init[j].name != init[k].name
      {
        assert init[j] == attrs[j];
      }
      AttributeLastWins(doc, init, k);
    }
  }

  /** The fields the document derives, where no global attribute replaces them:
      `solr_id_s` is the dataset name and the tile id joined by `!`, `tile_var_name_s`
      the standard name when it is not empty and the variable name otherwise, `geo` the
      text of the box's geometry, and `ecco_tile` is there exactly when the tile data
      has a non-zero `tile` field. */
  lemma SolrDocFields(s: SummaryValue, data: TileData, fmt: Sample -> string, isoTime: int -> string, fileName: string -> string)
    requires forall k :: 0 <= k < |s.globalAttributes| ==>
               s.globalAttributes[k].name !in {"solr_id_s", "tile_var_name_s", "ecco_tile", "geo", "id"}
    ensures var doc := SolrDoc(s, data, fmt, isoTime, fileName);
            "solr_id_s" in doc && doc["solr_id_s"] == FStr(s.datasetName + "!" + s.tileId) &&
            "id" in doc && doc["id"] == FStr(s.tileId) &&
            "tile_var_name_s" in doc &&
            doc["tile_var_name_s"] == FStr(if s.standardName != "" then s.standardName else s.dataVarName) &&
            "geo" in doc && doc["geo"] == FStr(Wkt(DetermineGeo(s.bbox, fmt))) &&
            ("ecco_tile" in doc <==> data.eccoTile.Some? && data.eccoTile.value != 0) &&
            ("ecco_tile" in doc ==> doc["ecco_tile"] == FInt(data.eccoTile.value))
  {
    var geo := Wkt(DetermineGeo(s.bbox, fmt));
    var base := BaseDoc(s, data, geo, isoTime, fileName);
    BaseDocKeys(s, data, geo, isoTime, fileName);
    var d := WithEcco(base, data);
    assert "solr_id_s" in d && d["solr_id_s"] == base["solr_id_s"];
    assert "id" in d && d["id"] == base["id"];
    assert "tile_var_name_s" in d && d["tile_var_name_s"] == base["tile_var_name_s"];
    assert "geo" in d && d["geo"] == base["geo"];
    AttributesKeepOthers(d, s.globalAttributes, "solr_id_s");
    AttributesKeepOthers(d, s.globalAttributes, "id");
    AttributesKeepOthers(d, s.globalAttributes, "tile_var_name_s");
    AttributesKeepOthers(d, s.globalAttributes, "geo");
    AttributesKeepOthers(d, s.globalAttributes, "ecco_tile");
  }
}
