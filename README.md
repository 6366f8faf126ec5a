# SDAP ingester core in Dafny

This project models the core of the Apache SDAP ingester (`incubator-sdap-ingester`).

The granule ingester cuts a granule into tiles. It runs each tile through a chain of
processors:

- a reading processor, which parses the tile's section spec;
- filters that drop empty tiles, force latitudes to ascend, move longitudes to
  -180..180 and convert kelvin data to Celsius;
- the generator of the tile id;
- the summariser, which writes the bounding box, statistics, time extent and standard
  name into the tile's summary.

The Solr writer then turns each tile into a metadata document. The collection manager
reads collection entries from its configuration.

The model is one Dafny module per source file:

| module | models |
|---|---|
| `Summarizer` | `TileSummarizingProcessor.py` |
| `EmptyTileFilter` | `EmptyTileFilter.py` |
| `ForceAscendingLatitude` | `ForceAscendingLatitude.py` |
| `Subtract180FromLongitude` | `Subtract180FromLongitude.py` |
| `KelvinToCelsius` | `kelvintocelsius.py` |
| `GenerateTileId` | `GenerateTileId.py` |
| `TileReadingProcessor` | `TileReadingProcessor.py` |
| `MultiBandUtils` | `MultiBandUtils.py` |
| `Pipeline` | `Pipeline.py` |
| `SolrStore` | `SolrStore.py` |
| `Collection` | `Collection.py` |

Shared modules:

- `Samples`: a double as `Finite(real) | NaN | Inf`, with IEEE comparison.
- `Reductions`: numpy's nanmin, nanmax, NaN counting, `masked_invalid`,
  `numpy.ma.average` and `nanmean`.
- `Arrays`: row-major n-dimensional arrays and `numpy.flip`.
- `Tiles`: the `NexusTile` message.
- `Values`: decoded JSON and YAML values, and netCDF attributes.
- `Text`: Python's `split`, `join`, `startswith` and `int()`.

A tile is a class. Its summary sub-message is a class of its own, shared by reference
as protobuf sub-messages are. Processors that change a tile in place are methods that
modify it. Each such method is proved against a function of the old state, and the
properties the source promises are proved about that function.

Library and foreign calls become parameters of the members that use them:

| parameter | stands for |
|---|---|
| `w` | `cos(radians(lat))` |
| `codec` | `json.dumps` and `json.loads` |
| `uuid3` | `str(uuid.uuid3(NAMESPACE_DNS, ·))` |
| `fmt` | `_format_latlon_string` |
| `isoTime` | the UTC time formatting |
| `fileName` | `Path(·).name` |
| `fromIso` | `datetime.fromisoformat` |

Three behaviours of `TileSummarizingProcessor.py` that the model keeps as the code has
them:

- The summariser is not atomic (TileSummarizingProcessor.py:52-88). When the tile already has a summary, it writes into
  that summary object field by field. A failure part way leaves the writes made so
  far. A fresh summary is copied onto the tile only on success.
- The standard-name lookup `dataset.variables[data_var_name]` raises for a variable
  missing from the dataset (TileSummarizingProcessor.py:84). It is not a best-effort lookup.
  The name is looked up as stored. A reading processor stores `json.dumps(variable)`
  (TileReadingProcessor.py:52), so for `analysed_sst` the lookup is for
  `"analysed_sst"`, quotes included, and it raises. The tests expect the decoded lookup.
  The findings below record this discrepancy, and `WriteStandardNameDecoded` models the
  decoded lookup.
- A `time` that is an array message is always truthy (TileSummarizingProcessor.py:27-35).
  Only the int64 time 0 counts as missing.

## Model

Paths are relative to the repository root.

| member | source | states |
|---|---|---|
| Summarizer.TimeExtentCovers | granule_ingester/granule_ingester/processors/TileSummarizingProcessor.py:27-35 | `find_time_min_max`. A non-zero int time `t` gives `(t, t)`. Time 0 is "no time". An array time gives a range exactly when it is non-empty, has a finite entry and has no infinity. That range is ordered, lies between the truncations of its finite entries, and both ends are attained. |
| Summarizer.WriteSummary | granule_ingester/granule_ingester/processors/TileSummarizingProcessor.py:54-86 | The in-place writes to the summary object, in program order. The new summary and the escaping error are those of the stage-by-stage specification `Summarize`. |
| Summarizer.StoreBBox | granule_ingester/granule_ingester/processors/TileSummarizingProcessor.py:55-58 | The bounding-box writes leave the summary and error that `WriteBBox` describes: an empty coordinate array stops them after the writes made so far. |
| Summarizer.StoreStats | granule_ingester/granule_ingester/processors/TileSummarizingProcessor.py:59-75 | The statistics writes leave the summary and error of `WriteStats`: min, max and count, then the layout's mean, or a failure part-way. |
| Summarizer.StoreTime | granule_ingester/granule_ingester/processors/TileSummarizingProcessor.py:77-82 | The time writes leave the summary and error of `WriteTime`; a missing time changes nothing. |
| Summarizer.StoreStandardName | granule_ingester/granule_ingester/processors/TileSummarizingProcessor.py:84-86 | The standard-name write leaves the summary and error of `WriteStandardName`: a missing variable is an error, and a falsy attribute writes nothing. |
| Summarizer.Process | granule_ingester/granule_ingester/processors/TileSummarizingProcessor.py:44-89 | The processor writes into the tile's own summary if it has one, or into a fresh one. It fails exactly when `Summarize` does. On failure a present summary keeps the partial writes and a fresh one is dropped. On success the tile holds the new summary, and the tile data is never changed. |
| Summarizer.SummarizeLeavesOtherFields | granule_ingester/granule_ingester/processors/TileSummarizingProcessor.py:52-88 | Whether or not it fails, `dataset_name` becomes the configured name. Granule, tile id, variable name, section spec and global attributes keep their values. |
| Summarizer.StagesKeepIdentity | granule_ingester/granule_ingester/processors/TileSummarizingProcessor.py:54-86 | None of the bounding-box, statistics, time or standard-name stages writes an identifying field. |
| Summarizer.SummarizeFailsIff | granule_ingester/granule_ingester/processors/TileSummarizingProcessor.py:48-86 | The summariser succeeds exactly when all of these hold: the coordinate and data arrays are non-empty, the weights fit the layout, the time is usable, the variable is in the dataset, and any truthy standard name is text. |
| Summarizer.SummaryCount | granule_ingester/granule_ingester/processors/TileSummarizingProcessor.py:61 | `count` is the size minus the NaN count. It lies between 0 and the size, and it is positive exactly when some sample is not NaN. |
| Summarizer.SummaryBBox | granule_ingester/granule_ingester/processors/TileSummarizingProcessor.py:48-58 | Each bounding-box pair spans exactly the finite coordinates. It is NaN, standing for `numpy.ma.masked`, when there are none. Otherwise its ends are finite, ordered and attained, and every finite coordinate lies between them. |
| Summarizer.MaskedExtent | granule_ingester/granule_ingester/processors/TileSummarizingProcessor.py:48-58 | nanmin and nanmax of `masked_invalid` coordinates span exactly the finite entries. With no finite entry both are NaN, standing for `numpy.ma.masked`. |
| Summarizer.SummaryStats | granule_ingester/granule_ingester/processors/TileSummarizingProcessor.py:59-60 | `min` and `max` are NaN only when every sample is NaN. Otherwise they are ordered, attained by samples and bound every non-NaN sample. |
| Summarizer.StatsWritten | granule_ingester/granule_ingester/processors/TileSummarizingProcessor.py:59-60 | The summary's `min` and `max` are nanmin and nanmax of the data. |
| Summarizer.LayoutMeanWeights | granule_ingester/granule_ingester/processors/TileSummarizingProcessor.py:65-75 | A swath tile's mean weights each element by its latitude. A grid tile's mean weights flattened element `k` by latitude `k div len(lon)`. Any other layout takes the unweighted nanmean. |
| Summarizer.MeanWritten | granule_ingester/granule_ingester/processors/TileSummarizingProcessor.py:65-75 | The summary's `mean` is the layout's mean. |
| Summarizer.GridWeights | granule_ingester/granule_ingester/processors/TileSummarizingProcessor.py:92-96 | `numpy.repeat(latitudes, len(lon))` puts latitude `k div len(lon)` at position `k`. |
| Summarizer.LayoutMeanWithin | granule_ingester/granule_ingester/processors/TileSummarizingProcessor.py:92-102 | With non-negative weights, a finite mean of either layout lies between nanmin and nanmax of the data. |
| Summarizer.SummaryMeanWithin | granule_ingester/granule_ingester/processors/TileSummarizingProcessor.py:59-75 | With non-negative weights, a finite written mean lies between the written `min` and `max`. |
| Summarizer.SummaryTime | granule_ingester/granule_ingester/processors/TileSummarizingProcessor.py:77-82 | The time fields take the extent when there is one. Without a time (the caught `NoTimeException`) they keep their earlier values. |
| Summarizer.SummaryStandardName | granule_ingester/granule_ingester/processors/TileSummarizingProcessor.py:84-86 | The variable is in the dataset. `standard_name` is overwritten exactly when the attribute is truthy, and then with that non-empty text. Otherwise it is kept. |
| Summarizer.SummarizeIdempotent | granule_ingester/granule_ingester/processors/TileSummarizingProcessor.py:44-89 | Summarising a summary the summariser produced reproduces it. |
| Summarizer.ReadingNameAsWrittenMissing | granule_ingester/granule_ingester/processors/TileSummarizingProcessor.py:84 | As written, a stored name `json.dumps(n)` that is not itself a key of the dataset makes the lookup raise KeyError, and the whole summariser fails. |
| Summarizer.AnalysedSstLookup | granule_ingester/granule_ingester/processors/TileSummarizingProcessor.py:84-86 | For `analysed_sst`, stored as `"analysed_sst"`, the summariser as written fails. The decoded lookup writes the JSON text of `sea_surface_temperature`, as the test expects. |
| Summarizer.StandardNameValues | granule_ingester/granule_ingester/processors/TileSummarizingProcessor.py:84 | The standard names of a list of variables are found exactly when each listed variable's is found, and position `k` holds the `k`-th variable's standard name. |
| Summarizer.DecodedSingleName | granule_ingester/granule_ingester/processors/TileSummarizingProcessor.py:84-86 | With the stored name decoded, a single variable is found. A missing one is the KeyError naming it. A truthy text standard name is written JSON-encoded, a non-text one is refused, and otherwise the summary is unchanged. |
| Summarizer.DecodedNameList | granule_ingester/granule_ingester/processors/TileSummarizingProcessor.py:84-86 | With the stored list decoded, the lookup succeeds exactly when every listed name is a variable whose standard name is absent or text. It then writes the JSON list of those standard names, with null where a variable has none. |
| Reductions.CountPositiveIff | granule_ingester/granule_ingester/processors/TileSummarizingProcessor.py:61 | The non-NaN count is positive exactly when some sample is not NaN. |
| Reductions.MaskInvalid | granule_ingester/granule_ingester/processors/TileSummarizingProcessor.py:48-49 | `masked_invalid` keeps the finite entries and masks NaN and both infinities. |
| Reductions.NanMin | granule_ingester/granule_ingester/processors/TileSummarizingProcessor.py:55-59 | nanmin is NaN exactly when every entry is NaN. Otherwise it is an entry, and it is below every non-NaN entry. |
| Reductions.NanMax | granule_ingester/granule_ingester/processors/TileSummarizingProcessor.py:56-60 | nanmax is NaN exactly when every entry is NaN. Otherwise it is an entry, and it is above every non-NaN entry. |
| Reductions.NanMinLeNanMax | granule_ingester/granule_ingester/processors/TileSummarizingProcessor.py:55-60 | A non-NaN nanmin is at most nanmax. |
| Reductions.WeightedMeanWithin | granule_ingester/granule_ingester/processors/TileSummarizingProcessor.py:99-102 | With non-negative weights, a finite `numpy.ma.average` lies between nanmin and nanmax. |
| Reductions.NanMeanWithin | granule_ingester/granule_ingester/processors/TileSummarizingProcessor.py:75 | A finite nanmean lies between nanmin and nanmax. |
| Reductions.UnweightedIsUniformWeight | granule_ingester/granule_ingester/processors/TileSummarizingProcessor.py:73-75 | Without infinities, the unweighted fallback mean equals the weighted mean with equal weights. |
| Reductions.RepeatAt | granule_ingester/granule_ingester/processors/TileSummarizingProcessor.py:94 | Entry `k` of `numpy.repeat(lats, n)` is `lats[k div n]`. |
| Reductions.GridOfConstantRows | granule_ingester/granule_ingester/processors/TileSummarizingProcessor.py:92-96 | Repeating every row and its latitude the same number of times leaves the weighted mean unchanged. |
| Reductions.Divide | granule_ingester/granule_ingester/processors/TileSummarizingProcessor.py:96 | IEEE division of the weighted sums. It is the quotient for a non-zero weight sum. For a zero weight sum it is NaN when the numerator is 0, and otherwise an infinity of the numerator's sign. |
| Samples.Trunc | granule_ingester/granule_ingester/processors/TileSummarizingProcessor.py:31 | `int()` of a float truncates toward zero. |
| Tiles.TileSummary.constructor | granule_ingester/granule_ingester/processors/TileSummarizingProcessor.py:52 | A fresh `TileSummary` holds the protobuf defaults. |
| Tiles.TileSummary.CopyFrom | granule_ingester/granule_ingester/processors/TileSummarizingProcessor.py:88 | `CopyFrom` takes over every field of the other summary, including from itself. |
| Tiles.NexusTile.CopyFrom | granule_ingester/granule_ingester/processors/reading_processors/TileReadingProcessor.py:50-51 | A tile copy takes the other tile's data, summary fields and summary presence, and keeps its own summary object. A copy of a well-formed tile (an absent summary holds the protobuf defaults, `NexusTile.Valid`) is well formed. |
| EmptyTileFilter.Process | granule_ingester/granule_ingester/processors/EmptyTileFilter.py:32-42 | The tile itself is returned exactly when some sample is not NaN. Otherwise, including for an empty array, the result is None. Nothing is written. |
| EmptyTileFilter.KeptIffSummaryCountPositive | granule_ingester/granule_ingester/processors/EmptyTileFilter.py:38 | A tile is kept exactly when the summariser would write a positive `count`. |
| ForceAscendingLatitude.Descending | granule_ingester/granule_ingester/processors/ForceAscendingLatitude.py:40-42 | The descent test on the latitude rows. A zero-dimensional latitude raises in `len`. Fewer than two rows is not descending. Rows of several doubles, as in a two-dimensional swath latitude, raise ValueError in `if delta < 0`. Otherwise the test is `lat[1] < lat[0]`. |
| ForceAscendingLatitude.Process | granule_ingester/granule_ingester/processors/ForceAscendingLatitude.py:22-48 | Replaces only the tile's latitude and data, with the flip of the corrected `Ascending`, or fails as `Ascending` does. The summary is unchanged. A latitude axis the data does not have is numpy's AxisError. |
| ForceAscendingLatitude.SwathLatitudeRaises | granule_ingester/granule_ingester/processors/ForceAscendingLatitude.py:40-42 | A latitude of several rows of several doubles fails with the ValueError, and a zero-dimensional one with the TypeError, as written and corrected. |
| ForceAscendingLatitude.UnchangedUnlessDescending | granule_ingester/granule_ingester/processors/ForceAscendingLatitude.py:40-42 | With fewer than two latitude rows, or with rows of at most one double and `lat[1] - lat[0] >= 0`, the tile is unchanged, as written and corrected. |
| ForceAscendingLatitude.FlippedLatitudes | granule_ingester/granule_ingester/processors/ForceAscendingLatitude.py:41-45 | After a flip, latitude `i` is the former latitude `n-1-i`, so the first is the former last. A strictly descending axis comes out strictly ascending. |
| ForceAscendingLatitude.FlipKeepsRowsWithLatitudes | granule_ingester/granule_ingester/processors/ForceAscendingLatitude.py:43-46 | Flipping along the latitude axis keeps every data row beside its latitude. Within every block of outer axes, row `i` is the former row `n-1-i`. |
| ForceAscendingLatitude.AsWrittenLeavesTimeFirstDataUnflipped | granule_ingester/granule_ingester/processors/ForceAscendingLatitude.py:44 | As written, data whose axis 0 is a single time step is not changed while its latitudes are reversed. |
| ForceAscendingLatitude.AsWrittenAgreesOnAxisZero | granule_ingester/granule_ingester/processors/ForceAscendingLatitude.py:43-46 | When latitude is axis 0, the code as written and the corrected flip agree. |
| Arrays.DescendingReversesToAscending | granule_ingester/granule_ingester/processors/ForceAscendingLatitude.py:43 | Reversing a strictly descending sequence gives a strictly ascending one. |
| Arrays.FlipRowsRows | granule_ingester/granule_ingester/processors/ForceAscendingLatitude.py:44 | `numpy.flip` along the outer axis puts the former row `d-1-i` at row `i`. |
| Arrays.FlipAxisZero | granule_ingester/granule_ingester/processors/ForceAscendingLatitude.py:44 | Flipping axis 0 reverses the outermost rows. |
| Subtract180FromLongitude.Wrapped | granule_ingester/granule_ingester/processors/Subtract180FromLongitude.py:37 | The masked update keeps the length and maps every entry by itself. |
| Subtract180FromLongitude.Process | granule_ingester/granule_ingester/processors/Subtract180FromLongitude.py:24-41 | The in-place update over an array copy replaces only the tile's longitude, with the wrapped longitudes. |
| Subtract180FromLongitude.WrapMovesOnlyAbove180 | granule_ingester/granule_ingester/processors/Subtract180FromLongitude.py:37 | A finite longitude above 180 drops by exactly 360. Every other longitude, NaN and infinities included, stays. |
| Subtract180FromLongitude.WrapRange | granule_ingester/granule_ingester/processors/Subtract180FromLongitude.py:25-37 | Longitudes in [0, 360] land in (-180, 180]. |
| Subtract180FromLongitude.WrappedIdempotent | granule_ingester/granule_ingester/processors/Subtract180FromLongitude.py:37 | For longitudes up to 540, applying the update twice is applying it once. |
| KelvinToCelsius.UnitAttr | granule_ingester/granule_ingester/processors/kelvintocelsius.py:36-41 | The unit comes from `units`, else `Units`, else `UNITS`. It is absent exactly when none of them is there. |
| KelvinToCelsius.RetrieveVarUnits | granule_ingester/granule_ingester/processors/kelvintocelsius.py:28-44 | The loop collects the units of every variable name in order. A name that raises contributes nothing. What one `extend` adds is a parameter: `UnitsOfAsWritten` (a string's characters) is the code as written, and `Process` passes the corrected `UnitsOf`. |
| KelvinToCelsius.Lowered | granule_ingester/granule_ingester/processors/kelvintocelsius.py:61 | Lower-casing succeeds exactly when every unit is text, and then lower-cases each unit in place, character by character: ASCII capitals and the KELVIN SIGN U+212A become ASCII letters. |
| KelvinToCelsius.LowerKelvinAlphabet | granule_ingester/granule_ingester/processors/kelvintocelsius.py:61-62 | A unit whose lowercase is a kelvin spelling is made of ASCII letters, `_` and KELVIN SIGNs only. |
| KelvinToCelsius.KelvinSignUnit | granule_ingester/granule_ingester/processors/kelvintocelsius.py:61-64 | The unit `"\u212Aelvin"` lowercases to "kelvin", so its data is converted. |
| KelvinToCelsius.ToCelsius | granule_ingester/granule_ingester/processors/kelvintocelsius.py:63 | The shape is kept, and every sample drops by 273.15. |
| KelvinToCelsius.Process | granule_ingester/granule_ingester/processors/kelvintocelsius.py:46-65 | Replaces only the tile's data, with the result of `Convert`. An error leaves the tile unchanged. |
| KelvinToCelsius.UnchangedWithoutUnits | granule_ingester/granule_ingester/processors/kelvintocelsius.py:52-60 | Without a `dataset`, or with no units collected, the tile is unchanged. |
| KelvinToCelsius.ConvertsIffKelvin | granule_ingester/granule_ingester/processors/kelvintocelsius.py:50-64 | It fails exactly when some collected unit is not text. Otherwise it converts exactly when some lower-cased unit is one of the seven kelvin spellings. |
| KelvinToCelsius.StringUnitAsWrittenNeverKelvin | granule_ingester/granule_ingester/processors/kelvintocelsius.py:37-41 | As written, `extend` with a string unit adds one-letter units, none of which is a kelvin spelling. |
| KelvinToCelsius.KelvinStringUnit | granule_ingester/granule_ingester/processors/kelvintocelsius.py:36-64 | For the unit "kelvin", the code as written collects "k","e","l","v","i","n" and does not convert. The corrected collection converts. |
| GenerateTileId.BasenameIsLastComponent | granule_ingester/granule_ingester/processors/GenerateTileId.py:28 | `os.path.basename` is the suffix after the last `/` and holds no `/`. |
| GenerateTileId.WithTileId | granule_ingester/granule_ingester/processors/GenerateTileId.py:28-35 | The tile id becomes `uuid3(dataset_name + basename(granule) + data_var_name + section_spec)`. No other field changes. |
| GenerateTileId.Process | granule_ingester/granule_ingester/processors/GenerateTileId.py:26-36 | Writes only the tile id through the tile's summary object. The tile data is unchanged. |
| GenerateTileId.BasenameIgnoresDirectory | granule_ingester/granule_ingester/processors/GenerateTileId.py:28 | A file name under any directory has itself as its base name. |
| GenerateTileId.SameFileSameId | granule_ingester/granule_ingester/processors/GenerateTileId.py:28-33 | Granule paths with the same file name in different directories give the same id. |
| GenerateTileId.Idempotent | granule_ingester/granule_ingester/processors/GenerateTileId.py:28-35 | Running the processor again writes the same id. |
| TileReadingProcessor.NewReader | granule_ingester/granule_ingester/processors/reading_processors/TileReadingProcessor.py:33-43 | A variable string is JSON-decoded when possible and kept otherwise. The constructor fails, with the RuntimeError, exactly when the result is an empty list. |
| TileReadingProcessor.ConvertSpecToSlices | granule_ingester/granule_ingester/processors/reading_processors/TileReadingProcessor.py:76-83 | The dictionary-filling loop computes `ConvertSpec`, the left-to-right assignment of the parsed parts, which stops at the first error. |
| TileReadingProcessor.ParseParts | granule_ingester/granule_ingester/processors/reading_processors/TileReadingProcessor.py:79-80 | Part `k` of the spec is parsed independently of the others. |
| TileReadingProcessor.PrefixFailure | granule_ingester/granule_ingester/processors/reading_processors/TileReadingProcessor.py:79-81 | Once a prefix of the parts fails, the whole spec fails with the same error. |
| TileReadingProcessor.CollectSucceeds | granule_ingester/granule_ingester/processors/reading_processors/TileReadingProcessor.py:79-81 | A spec parses exactly when every one of its parts parses. |
| TileReadingProcessor.CollectValue | granule_ingester/granule_ingester/processors/reading_processors/TileReadingProcessor.py:78-83 | A spec that parses gives the dictionary of its parts in order. |
| TileReadingProcessor.CollectFirstError | granule_ingester/granule_ingester/processors/reading_processors/TileReadingProcessor.py:79-81 | A spec that fails raises the error of its first failing part. |
| TileReadingProcessor.ToMapKeys | granule_ingester/granule_ingester/processors/reading_processors/TileReadingProcessor.py:78-81 | The dictionary holds exactly the names of the parts. |
| TileReadingProcessor.ToMapLastWins | granule_ingester/granule_ingester/processors/reading_processors/TileReadingProcessor.py:79-81 | A repeated name keeps the slice of its last occurrence. |
| TileReadingProcessor.FormatPartParses | granule_ingester/granule_ingester/processors/reading_processors/TileReadingProcessor.py:80-81 | A part `name:start:stop` written from a plain name and two integers parses back to them. |
| TileReadingProcessor.FormatSpecParses | granule_ingester/granule_ingester/processors/reading_processors/TileReadingProcessor.py:77-83 | Round trip: a spec written from one or more dimensions with plain names parses back to the dictionary of those dimensions. |
| TileReadingProcessor.WrongPartFails | granule_ingester/granule_ingester/processors/reading_processors/TileReadingProcessor.py:80 | A part that does not split into exactly three fields makes the spec fail. |
| TileReadingProcessor.SlicesForVariable | granule_ingester/granule_ingester/processors/reading_processors/TileReadingProcessor.py:72-74 | Succeeds exactly when the spec slices every dimension of the variable. The result has exactly the variable's dimensions, each with its slice. Otherwise the first missing dimension is the KeyError. |
| TileReadingProcessor.StripFileScheme | granule_ingester/granule_ingester/processors/reading_processors/TileReadingProcessor.py:67-68 | A leading `file:` is taken off, and any other path is unchanged. |
| TileReadingProcessor.StripFileSchemeOnce | granule_ingester/granule_ingester/processors/reading_processors/TileReadingProcessor.py:68 | Only one `file:` is taken off. |
| TileReadingProcessor.ParseInput | granule_ingester/granule_ingester/processors/reading_processors/TileReadingProcessor.py:62-70 | `_parse_input` gives the spec's slices and the stripped path. It fails exactly when the spec fails, with the spec's error. |
| TileReadingProcessor.Process | granule_ingester/granule_ingester/processors/reading_processors/TileReadingProcessor.py:45-56 | Every spec error is wrapped in `TileProcessingError`. On success the result is a fresh copy of the input tile whose only change is `data_var_name` set to the JSON of the variable. The input tile is not changed. |
| Text.SplitJoin | granule_ingester/granule_ingester/processors/reading_processors/TileReadingProcessor.py:79-80 | Joining separator-free pieces and splitting again gives back the pieces. |
| Text.JoinSplit | granule_ingester/granule_ingester/processors/reading_processors/TileReadingProcessor.py:79 | Splitting and joining on the same character gives back the text. |
| Text.ParseIntToString | granule_ingester/granule_ingester/processors/reading_processors/TileReadingProcessor.py:81 | `int()` reads back the decimal text of every integer. |
| MultiBandUtils.MoveBandDimension | granule_ingester/granule_ingester/processors/reading_processors/MultiBandUtils.py:10-14 | The dimensions come out as the input followed by "band", of length n+1. The order is `(1, 2, ..., n, 0)`. |
| MultiBandUtils.OrderIsPermutation | granule_ingester/granule_ingester/processors/reading_processors/MultiBandUtils.py:14 | The order is a permutation of the n+1 axes. |
| MultiBandUtils.BandShapeLast | granule_ingester/granule_ingester/processors/reading_processors/MultiBandUtils.py:14 | Transposing the stacked shape `[bands] + pixels` by the order gives `pixels + [bands]`. |
| MultiBandUtils.StackAt | granule_ingester/granule_ingester/processors/reading_processors/GridMultiVariableReadingProcessor.py:50-53 | `np.ma.filled` of the list of band arrays stacks them on a new first axis: entry `[b] + idx` of the stack is entry `idx` of band `b`. |
| MultiBandUtils.TransposeMovesBandLast | granule_ingester/granule_ingester/processors/reading_processors/GridMultiVariableReadingProcessor.py:51-55 | `numpy.transpose` (defined in `Arrays` by row-major index arithmetic) of the stacked bands by the order `(1, ..., n, 0)` gives the array of shape `pixels + [bands]` whose values are the band-last layout: pixel by pixel, the values of every band. |
| MultiBandUtils.BandLastAt | granule_ingester/granule_ingester/processors/reading_processors/GridMultiVariableReadingProcessor.py:51-55 | After the transpose, the entry at pixel multi-index `idx` and band `b` is entry `idx` of band `b`: `variable_data[..., b] == band_b[...]`. |
| Pipeline.RecurseAppend | granule_ingester/granule_ingester/pipeline/Pipeline.py:82-88 | Running two processor lists one after the other is running their concatenation. A chain that ended with None runs nothing more. |
| Pipeline.RecurseIsComposition | granule_ingester/granule_ingester/pipeline/Pipeline.py:85-88 | `_recurse` is the left-to-right composition of the processors. The empty list returns the input tile. |
| Pipeline.RecurseStopsAtNone | granule_ingester/granule_ingester/pipeline/Pipeline.py:88 | When a processor returns None, the result is None whatever the later processors are. None of them is applied. |
| Pipeline.ChunkList | granule_ingester/granule_ingester/pipeline/Pipeline.py:210-212 | A chunk size of 0 is the ValueError of `range`. A negative size gives no chunks. |
| Pipeline.ChunksFromConcat | granule_ingester/granule_ingester/pipeline/Pipeline.py:212 | The chunks, laid end to end, are the items. |
| Pipeline.ChunksFromShape | granule_ingester/granule_ingester/pipeline/Pipeline.py:212 | Every chunk is non-empty and at most the size. All but the last have exactly the size. There are `ceil(n / size)` chunks. |
| Pipeline.ChunkListProperties | granule_ingester/granule_ingester/pipeline/Pipeline.py:210-212 | A positive size succeeds. The chunks concatenate to the list and have the shape above. |
| Pipeline.ValidateConfig | granule_ingester/granule_ingester/pipeline/Pipeline.py:129-133 | The configuration is accepted exactly when it is a mapping. |
| Pipeline.BuildModule | granule_ingester/granule_ingester/pipeline/Pipeline.py:170-177 | "Not a valid processor" occurs exactly for a hashable name that is not in the mappings, or whose class raised KeyError while constructing: the lookup and the construction share one `try`. An unhashable name, or any other construction error, is wrapped with its message. Success means the named class built the module from the remaining entries. |
| Pipeline.ParseModule | granule_ingester/granule_ingester/pipeline/Pipeline.py:167-179 | A missing `name` is a KeyError, and then the configuration is unchanged. Otherwise `name` is popped from the configuration, and the module is built from the entries left. |
| SolrStore.DetermineGeoAsWritten | granule_ingester/granule_ingester/writers/SolrStore.py:147-172 | As written, a POINT occurs exactly when both raw pairs are equal, at `(lon_min, lat_min)`. A LINESTRING occurs exactly when one raw pair is equal, from `(lon_min, lat_min)` to `(lon_max, lat_min)`. Otherwise the result is the five-point POLYGON ring. All coordinates are the formatted texts. |
| SolrStore.VerticalLineAsWrittenDegenerate | granule_ingester/granule_ingester/writers/SolrStore.py:162-163 | As written, a box one longitude wide becomes a line from a point to itself. |
| SolrStore.RoundedPolygonAsWrittenCollapses | granule_ingester/granule_ingester/writers/SolrStore.py:149-170 | As written, bounds that differ but round alike give a polygon with only two distinct corners. |
| SolrStore.DetermineGeoIndexable | granule_ingester/granule_ingester/writers/SolrStore.py:147-172 | The corrected choice, made on the rounded text, gives one of three shapes. A POINT occurs exactly when the rounded box is one point. A LINESTRING runs between two distinct points, from the minimum corner to the maximum corner. Otherwise the result is a closed ring of four distinct corners. |
| SolrStore.DetermineGeoAgreesWhenRoundingExact | granule_ingester/granule_ingester/writers/SolrStore.py:152-170 | Where rounding separates exactly the bounds that differ, the corrected and the written choices agree except for a line's second latitude. |
| SolrStore.BaseDocKeys | granule_ingester/granule_ingester/writers/SolrStore.py:108-118 | `solr_id_s` is `dataset_name + "!" + tile_id`, `id` is the tile id, `tile_var_name_s` is the variable name, and `geo` is the geometry text. |
| SolrStore.BaseDocNoEcco | granule_ingester/granule_ingester/writers/SolrStore.py:110-130 | The fixed fields do not include `ecco_tile`. |
| SolrStore.BuildSolrDoc | granule_ingester/granule_ingester/writers/SolrStore.py:93-140 | The loop over the global attributes builds `SolrDoc`: the fixed fields, then `ecco_tile`, then the attributes in order, read through their `name` and `values` fields. |
| SolrStore.SolrDocAsWritten | granule_ingester/granule_ingester/writers/SolrStore.py:101-140 | As written, the document fails with AttributeError exactly when the summary has a global attribute, because `getName()` is not an accessor of a Python protocol-buffer message. Otherwise it is built, with the geometry as written. |
| SolrStore.GlobalAttributeAsWrittenRaises | granule_ingester/granule_ingester/writers/SolrStore.py:136-138 | For the global attribute `a = ["x"]`, the code as written raises, while the corrected loop writes `a` as `"x"`. |
| SolrStore.AsWrittenAgreesWithoutAttributes | granule_ingester/granule_ingester/writers/SolrStore.py:101-140 | Without global attributes, and where both geometry choices agree, the code as written builds the corrected document. |
| SolrStore.AttributesKeepOthers | granule_ingester/granule_ingester/writers/SolrStore.py:136-138 | A key that no global attribute names keeps its value. |
| SolrStore.AttributeLastWins | granule_ingester/granule_ingester/writers/SolrStore.py:136-138 | The last attribute of a name decides its key: its only value as a scalar, otherwise the list of values. |
| SolrStore.SolrDocFields | granule_ingester/granule_ingester/writers/SolrStore.py:101-134 | Unless an attribute replaces them, the document holds `solr_id_s`, `id`, `geo`, and `tile_var_name_s` (the standard name when non-empty, else the variable name). `ecco_tile` is present exactly when the tile data has a non-zero `tile` field. |
| Collection.DecodeDimensionNames | collection_manager/collection_manager/entities/Collection.py:34-53 | Both variable keys raise. `variable` must be text and `variables` must be a list, and either is stored JSON-encoded under `variable`. The other pairs are kept. With neither key the result is None. |
| Collection.DecodedNamesContents | collection_manager/collection_manager/entities/Collection.py:43-53 | The decoded names are every other pair unchanged plus one `variable` pair with the JSON text, and nothing else. |
| Collection.OptionalDate | collection_manager/collection_manager/entities/Collection.py:62-63 | An absent date is None, and a present one must parse. |
| Collection.Required | collection_manager/collection_manager/entities/Collection.py:65-76 | A present key gives its value. A missing key gives `MissingValueCollectionError` naming it. |
| Collection.FromDictMissingValue | collection_manager/collection_manager/entities/Collection.py:61-76 | A missing-value error always names a missing required key. When the dates parse, the error is the first missing key in argument order (`id`, `projection`, `dimensionNames`, `slices`, `path`, `priority`), once the arguments before it are built: a missing `projection` with `id` present is `MissingValue("projection")`. |
| Collection.FromDictSucceeds | collection_manager/collection_manager/entities/Collection.py:55-74 | A well-formed mapping gives exactly the collection of its values. It needs one variable key of the right type, and only hashable values among the other dimension names and the slices. The result holds `id`, `projection`, the decoded dimension names, the pairs of `slices`, `path` and `priority`. It holds `forward-processing-priority` when it is present and not null, and None otherwise, as `dict.get` gives None for both. It holds the parsed `from` and `to` when they are present, and None for each one that is absent. |
| Collection.Freeze | collection_manager/collection_manager/entities/Collection.py:67-68 | `frozenset` of the pairs succeeds exactly when every value is hashable, and then holds the pairs; otherwise it is a TypeError. |
| Collection.FrozenNamesResult | collection_manager/collection_manager/entities/Collection.py:67 | Decoded dimension names freeze exactly when the pairs other than the variable keys hold hashable values. Otherwise they raise TypeError. |
| Collection.FrozenSlicesResult | collection_manager/collection_manager/entities/Collection.py:68 | The slices freeze into their key and value pairs exactly when every value is hashable. Otherwise they raise TypeError. |
| Collection.FromDictUnhashable | collection_manager/collection_manager/entities/Collection.py:65-68 | A list or mapping among the `slices` values, as in `slices: {"time": [0, 1]}`, makes `from_dict` raise TypeError. One among the other dimension names raises first. |
| Collection.FromDictNeedsVariable | collection_manager/collection_manager/entities/Collection.py:67 | Dimension names with neither variable key fail (`frozenset(None)`). |
| Collection.StorageTypeIffS3Prefix | collection_manager/collection_manager/entities/Collection.py:78-82 | The storage type is S3 exactly when the path, once cleaned as `urlsplit` cleans it (leading C0 controls and spaces stripped, tabs and line breaks deleted), starts with `s3:` in either case. |
| Collection.LeadingSpaceS3 | collection_manager/collection_manager/entities/Collection.py:78-82 | Every path beginning `" s3:"`, such as `" s3://bucket/x"`, has the scheme `s3`: the leading space is stripped. |
| Collection.LineFeedInSchemeS3 | collection_manager/collection_manager/entities/Collection.py:78-82 | Every path beginning `"s\n3:"`, such as `"s\n3://bucket/x"`, has the scheme `s3`: the line feed is deleted. |
| Collection.SchemeAppend | collection_manager/collection_manager/entities/Collection.py:93-94 | Text appended after a scheme's ':' does not change the scheme. |
| Collection.OwnsFile | collection_manager/collection_manager/entities/Collection.py:92-94 | For an S3 file path, the collection owns the file exactly when its path is a prefix of the file path. |
| Collection.OwnsFileUnderPath | collection_manager/collection_manager/entities/Collection.py:93-94 | An S3 collection owns every file whose path extends its own. |

## Left out

- The `main.py` entry points are not modelled. They consist of argument parsing, RabbitMQ consumers, health checks and exiting: I/O.
- `Pipeline.run`, `_process_tile_in_worker`, `_init_worker` and `_build_pipeline` are not modelled. They are the multiprocessing pool, shared-memory exception passing and asynchronous saves, which are concurrency.
- The YAML parsing of `from_string` is not modelled. A configuration arrives as a `Value`.
- Solr and ZooKeeper connections, document saving and the S3 object store are network I/O.
- The `_generate_tile` bodies of the concrete reading processors are not modelled: they are xarray slicing and protobuf encoding. `TileReadingProcessor.Process` stops at the call into them and returns the prepared tile and the slices.
- The summariser's bodies for `cos(radians(·))`, `json`, `uuid3`, `fnmatch`, `Path(·).name`, `datetime.fromisoformat` and the UTC formatting are not modelled. They are parameters, and a non-negative weight is assumed where a bound on the mean needs it.
- Floating point is modelled as reals plus NaN and the infinities. Rounding, overflow and the order of summation are not modelled. `_format_latlon_string` is the parameter `fmt`.
- A fully masked `numpy.ma.average` is modelled as NaN, standing for numpy's masked constant.
- Summarizer.SummaryBBox, Summarizer.MaskedExtent, Summarizer.WriteBBox, Summarizer.StoreBBox: `numpy.nanmin` and `numpy.nanmax` of fully masked `masked_invalid` coordinates return the masked constant `numpy.ma.masked`, and its `.item()` is stored. The model gives NaN there, as `Reductions.MaskInvalid` writes a masked entry as NaN. What protobuf does with the masked constant is not modelled.
- Python dictionaries and sets are Dafny maps and sets: insertion order is not modelled.
- `Collection.directory` and the non-S3 branch of `owns_file` are not modelled: they ask the filesystem.
- Collection.OwnsFile: returns None for a file path that is not on S3, whose answer depends on the filesystem.
- Collection.GetStorageType: requires the collection path to be text. A non-text path would make `urlparse` raise, and that error is not modelled.
- Collection.Scheme: follows the `urlparse` of current Python 3. Leading C0 controls and spaces are stripped, tabs and line breaks are deleted, and a scheme starts with an ASCII letter and holds only scheme characters. The special cases of older versions, which do not strip or delete, are not modelled.
- Collection.FromDict: a `dimensionNames` or `slices` value that is not a mapping gives one error, `NotAMapping`. Python raises a TypeError or an AttributeError depending on the value. Hashability is decided by the kind of value: lists and mappings are unhashable, every other decoded value hashable.
- Summarizer.Summarize: keeps the standard-name lookup as written, undecoded, as do `WriteSummary`, `StoreStandardName` and `Process`. The decoded lookup is `WriteStandardNameDecoded`, proved in `DecodedSingleName` and `DecodedNameList` and compared in the findings below. How the decoded lookup treats a list is inferred from the tests, which check only the mean for lists.
- Summarizer.FindTimeMinMax: an array time is always present, because a protobuf message is truthy. Only the int64 time 0 counts as missing.
- Summarizer.LayoutMean: the latitudes are taken by their row-major values, whatever their shape, and longitudes are one-dimensional. For a swath tile the latitude values are taken element-aligned with the flattened data, and a mismatch in size is the shape error of `numpy.ma.average`; a mismatch of shapes with equal sizes, which numpy also refuses, is not modelled.
- ForceAscendingLatitude.Descending: rows of no double count as not descending, as numpy 1.x takes the truth value of an empty array (the code's `np.NaN` needs numpy 1.x).
- Tiles.TileData: a tile always has a populated `tile_type`. A tile with none, for which `getattr(tile.tile, None)` raises TypeError in EmptyTileFilter.Process, ForceAscendingLatitude.Process, Subtract180FromLongitude.Process, KelvinToCelsius.Process, Summarizer.Process and SolrStore.BuildSolrDoc, is not modelled.
- KelvinToCelsius.Lowered: `Lower` maps only the ASCII capitals and the KELVIN SIGN. The other Unicode lowercase mappings of `str.lower` are not modelled, because none of them can turn a unit into a kelvin spelling: the kelvin test gives the same answer, but the lowered text itself differs for such units.
- KelvinToCelsius.Process: uses the corrected unit collection (a string unit is one unit). The collection as written is modelled by `UnitsOfAsWritten` and compared in the findings below.
- ForceAscendingLatitude.Process: flips the data along its latitude axis, which the caller names. The axis-0 flip as written is `AscendingAsWritten`.
- SolrStore.BuildSolrDoc: uses the corrected `DetermineGeo`, and reads a global attribute through its `name` and `values` fields. The code as written is `DetermineGeoAsWritten` and `SolrDocAsWritten`, which raises for any global attribute.
- Text.ParseInt: reads ASCII digits only. The other Unicode digits and spaces that `int()` accepts are not modelled.
- Logging is not modelled.

## Findings

| source | as written | input that shows it | evidently intended | confidence | as-written member | corrected member |
|---|---|---|---|---|---|---|
| granule_ingester/granule_ingester/writers/SolrStore.py:162-163 | The LINESTRING writes `lat_min` as the latitude of both of its points. | `lon_min = lon_max = 10.0`, `lat_min = 1.0`, `lat_max = 2.0` gives a line from `10.000 1.000` to itself. | A line from `(lon_min lat_min)` to `(lon_max lat_max)`. | high; not executed | SolrStore.VerticalLineAsWrittenDegenerate | SolrStore.DetermineGeoIndexable |
| granule_ingester/granule_ingester/writers/SolrStore.py:152-162 | The shape is chosen by comparing the raw floats, although the comment says the rounded values must be compared. | `lat_min = 1.0001`, `lat_max = 1.0002`, `lon_min = 5.0`, `lon_max = 6.0` gives a POLYGON with only two distinct corners, which Solr cannot index. | Compare the rounded strings. | medium; not executed | SolrStore.RoundedPolygonAsWrittenCollapses | SolrStore.DetermineGeoIndexable |
| granule_ingester/granule_ingester/writers/SolrStore.py:136-138 | A global attribute is read with `getName()`, `getValues(0)`, `getValuesCount()` and `getValuesList()`. These are Java protocol-buffer accessors; a Python `Attribute` message has only `name` and `values`, so the first global attribute raises AttributeError. | A summary with `global_attributes = [Attribute(name="a", values=["x"])]`. | Write `attribute.values[0]` under `attribute.name` when there is one value, and the list of values otherwise. | high; not executed | SolrStore.GlobalAttributeAsWrittenRaises | SolrStore.AttributeLastWins |
| granule_ingester/granule_ingester/processors/kelvintocelsius.py:37-41 | `variable_unit.extend(unit)` with a string unit adds its characters one by one. | A variable with `units = "kelvin"` collects `k, e, l, v, i, n`, and the data stays in kelvin. | Collect the string as one unit. | high; not executed | KelvinToCelsius.StringUnitAsWrittenNeverKelvin | KelvinToCelsius.KelvinStringUnit |
| granule_ingester/granule_ingester/processors/ForceAscendingLatitude.py:44 | The data is flipped along axis 0, whatever axis the latitude is. | A multi-variable grid tile of shape `[1, 30, 30, 2]` with descending latitudes: the latitudes are reversed but the data rows are not, so each row sits beside the wrong latitude. | Flip the data along its latitude axis. | medium; not executed | ForceAscendingLatitude.AsWrittenLeavesTimeFirstDataUnflipped | ForceAscendingLatitude.FlipKeepsRowsWithLatitudes |
| granule_ingester/granule_ingester/processors/TileSummarizingProcessor.py:84 | `dataset.variables[tile_summary.data_var_name]` looks up the stored name without decoding it. Every reading processor stores `json.dumps(self.variable)` (TileReadingProcessor.py:52). | The variable `analysed_sst` is stored as `"analysed_sst"`, quotes included. That key is not in the dataset, so the lookup raises KeyError. test_TileSummarizingProcessor.py expects standard_name `"sea_surface_temperature"` instead. | Decode the stored name with `json.loads`, look up the variable or variables, and write the standard name or names with `json.dumps`. | high; not executed | Summarizer.AnalysedSstLookup | Summarizer.DecodedSingleName |
