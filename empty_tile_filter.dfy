/** EmptyTileFilter: drops a tile whose samples are all NaN. */
module EmptyTileFilter {
  import opened Wrappers
  import opened Samples
  import opened Reductions
  import opened Values
  import opened Tiles
  import Summarizer

  /** `EmptyTileFilter.process`: the tile itself when it holds a non-NaN sample, None
      otherwise (every sample NaN, or no sample at all). */
  function Process(tile: NexusTile): (r: Option<NexusTile>)
    reads tile
    ensures r.Some? ==> r.value == tile
    ensures r.Some? <==> exists k :: 0 <= k < |tile.tile.variableData.values| && !tile.tile.variableData.values[k].NaN?
  {
    CountPositiveIff(tile.tile.variableData.values);
    if Count(tile.tile.variableData.values) > 0 then Some(tile) else None
  }

  /** A tile is kept exactly when the summariser, run on it, would write a positive
      count: both use the same non-NaN count. */
  lemma KeptIffSummaryCountPositive(tile: NexusTile, s: SummaryValue, datasetName: string, ds: Dataset, w: real -> real)
    requires Summarizer.Summarize(tile.tile, s, datasetName, ds, w).error.None?
    ensures Process(tile).Some? <==> Summarizer.Summarize(tile.tile, s, datasetName, ds, w).summary.stats.count > 0
  {
    Summarizer.SummaryCount(tile.tile, s, datasetName, ds, w);
  }
}
