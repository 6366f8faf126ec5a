/** The NexusTile protocol-buffer message the processors pass along: the tile's data
    (one spatial-layout variant) and its summary sub-message, which processors update
    field by field. */
module Tiles {
  import opened Wrappers
  import opened Samples
  import opened Arrays

  /** The populated `tile_type` variant. Swath and grid are told apart by the
      summariser; every other layout (time series, multi-variable, ECCO, ...) is named. */
  datatype Layout = SwathTile | GridTile | OtherLayout(name: string)

  /** The `time` field: an int64 (0 when unset) or, for swath layouts, an array. */
  datatype TimeField = ScalarTime(t: int) | ArrayTime(times: seq<Sample>)

  /** The populated variant of `tile.tile`. `latitude` holds the latitude array's values
      in row-major order and `latitudeShape` its shape: one axis for grid tiles, two for
      swath tiles. Longitudes are one-dimensional; `eccoTile` is the `tile` field,
      present only on layouts that have one. */
  datatype TileData = TileData(
    layout: Layout,
    latitude: seq<Sample>,
    latitudeShape: seq<nat>,
    longitude: seq<Sample>,
    variableData: ShapedArray,
    time: TimeField,
    depth: real,
    eccoTile: Option<int>)

  datatype BBox = BBox(latMin: Sample, latMax: Sample, lonMin: Sample, lonMax: Sample)

  datatype DataStats = DataStats(min: Sample, max: Sample, mean: Sample, count: int, minTime: int, maxTime: int)

  /** A repeated `global_attributes` entry: a name and its string values. */
  datatype GlobalAttribute = GlobalAttribute(name: string, values: seq<string>)

  /** The contents of a TileSummary message. */
  datatype SummaryValue = SummaryValue(
    granule: string,
    datasetName: string,
    tileId: string,
    dataVarName: string,
    sectionSpec: string,
    standardName: string,
    bbox: BBox,
    stats: DataStats,
    globalAttributes: seq<GlobalAttribute>)

  /** A freshly constructed TileSummary: every field at its protocol-buffer default. */
  function DefaultSummary(): SummaryValue
  {
    SummaryValue("", "", "", "", "", "",
                 BBox(Finite(0.0), Finite(0.0), Finite(0.0), Finite(0.0)),
                 DataStats(Finite(0.0), Finite(0.0), Finite(0.0), 0, 0, 0),
                 [])
  }

  /** The mutable TileSummary sub-message. */
  class TileSummary {
    var granule: string
    var datasetName: string
    var tileId: string
    var dataVarName: string
    var sectionSpec: string
    var standardName: string
    var bbox: BBox
    var stats: DataStats
    var globalAttributes: seq<GlobalAttribute>

    function Value(): SummaryValue
      reads this
    {
      SummaryValue(granule, datasetName, tileId, dataVarName, sectionSpec, standardName,
                   bbox, stats, globalAttributes)
    }

    constructor ()
      ensures Value() == DefaultSummary()
    {
      var d := DefaultSummary();
      granule, datasetName, tileId, dataVarName, sectionSpec, standardName :=
        d.granule, d.datasetName, d.tileId, d.dataVarName, d.sectionSpec, d.standardName;
      bbox, stats, globalAttributes := d.bbox, d.stats, d.globalAttributes;
    }

    /** `CopyFrom`: take over every field of `other`; copying from itself changes nothing. */
    method CopyFrom(other: TileSummary)
      modifies this
      ensures Value() == old(other.Value())
    {
      var v := other.Value();
      granule, datasetName, tileId, dataVarName, sectionSpec, standardName :=
        v.granule, v.datasetName, v.tileId, v.dataVarName, v.sectionSpec, v.standardName;
      bbox, stats, globalAttributes := v.bbox, v.stats, v.globalAttributes;
    }
    /** Assigns the tile id field; every other field keeps its value. */
    method SetTileId(id: string)
      modifies this
      ensures Value() == old(Value()).(tileId := id)
    {
      tileId := id;
    }
  }

  /** The NexusTile message. `summary` is the sub-message object; `hasSummary` is
      `HasField("summary")`, which becomes true on the first write through it. */
  class NexusTile {
    var summary: TileSummary
    var hasSummary: bool
    var tile: TileData

    /** A protobuf message whose optional `summary` is unset reads back the
        default summary, so an absent summary always holds the default fields. */
    predicate Valid()
      reads this, summary
    {
      !hasSummary ==> summary.Value() == DefaultSummary()
    }

    constructor (data: TileData)
      ensures tile == data && !hasSummary && summary.Value() == DefaultSummary()
      ensures fresh(summary) && Valid()
    {
      summary := new TileSummary();
      hasSummary := false;
      tile := data;
    }

    /** `CopyFrom`: takes over the other tile's data, the fields of its summary and
        whether that summary is present; this tile keeps its own summary object. */
    method CopyFrom(other: NexusTile)
      modifies this, summary
      ensures summary == old(summary)
      ensures tile == old(other.tile) && hasSummary == old(other.hasSummary)
      ensures summary.Value() == old(other.summary.Value())
      ensures old(other.Valid()) ==> Valid()
    {
      var t, h := other.tile, other.hasSummary;
      summary.CopyFrom(other.summary);
      tile, hasSummary := t, h;
    }
  }
}
