/** TileSummarizingProcessor: fills a tile's summary with the dataset name, the
    bounding box of its valid coordinates, min/max/count/mean of its samples, its time
    extent and the variable's standard name. */
module Summarizer {
  import opened Wrappers
  import opened Samples
  import opened Reductions
  import opened Values
  import opened Tiles

  /** The exceptions the summariser lets through to its caller. */
  datatype SummaryError =
    | EmptyArray                  // a numpy min/max reduction over a zero-size array
    | WeightShapeMismatch         // numpy.ma.average with weights of another shape
    | TimeIsNaN                   // int() of NaN: every time entry is NaN
    | TimeIsInfinite              // int() of an infinity
    | MissingVariable(name: string) // `dataset.variables[data_var_name]` has no such key
    | StandardNameNotText         // a non-string assigned to the string field

  /** `find_time_min_max`: a range, the caught NoTimeException, or an escaping error. */
  datatype TimeExtent = TimeRange(lo: int, hi: int) | NoTime | TimeFailure(error: SummaryError)

  function FindTimeMinMax(time: TimeField): TimeExtent
  {
    match time
    case ScalarTime(t) => if t != 0 then TimeRange(t, t) else NoTime
    case ArrayTime(ts) =>
      if ts == [] then TimeFailure(EmptyArray)
      else
        var lo, hi := NanMin(ts), NanMax(ts);
        if lo.NaN? then TimeFailure(TimeIsNaN)
        else if lo.Inf? || hi.Inf? then TimeFailure(TimeIsInfinite)
        else TimeRange(Trunc(lo.v), Trunc(hi.v))
  }

  /** The time extent covers every finite time entry, truncated, and both ends are
      truncations of entries; a non-zero scalar time is its own extent and zero counts
      as no time at all. */
  lemma TimeExtentCovers(time: TimeField)
    ensures time.ScalarTime? ==> (FindTimeMinMax(time) == if time.t == 0 then NoTime else TimeRange(time.t, time.t))
    ensures time.ArrayTime? && FindTimeMinMax(time).TimeRange? ==>
              var r := FindTimeMinMax(time);
              r.lo <= r.hi &&
              (forall k :: 0 <= k < |time.times| && time.times[k].Finite? ==>
                 r.lo <= Trunc(time.times[k].v) <= r.hi) &&
              (exists k :: 0 <= k < |time.times| && time.times[k].Finite? && Trunc(time.times[k].v) == r.lo) &&
              (exists k :: 0 <= k < |time.times| && time.times[k].Finite? && Trunc(time.times[k].v) == r.hi)
    ensures time.ArrayTime? ==>
              (FindTimeMinMax(time).NoTime? == false) &&
              (FindTimeMinMax(time).TimeRange? <==>
                 time.times != [] && (exists k :: 0 <= k < |time.times| && time.times[k].Finite?) &&
                 (forall k :: 0 <= k < |time.times| ==> !time.times[k].Inf?))
  {
    if time.ArrayTime? && time.times != [] {
      var ts := time.times;
      var lo, hi := NanMin(ts), NanMax(ts);
      if !lo.NaN? {
        NanMinLeNanMax(ts);
        if lo.Finite? && hi.Finite? {
          TruncMonotone(lo.v, hi.v);
          forall k | 0 <= k < |ts| && ts[k].Finite? ensures Trunc(lo.v) <= Trunc(ts[k].v) <= Trunc(hi.v) {
            TruncMonotone(lo.v, ts[k].v);
            TruncMonotone(ts[k].v, hi.v);
          }
        }
        if exists k :: 0 <= k < |ts| && ts[k].Inf? {
          var k :| 0 <= k < |ts| && ts[k].Inf?;
          assert Le(lo, ts[k]) && Le(ts[k], hi);
        }
      }
    }
  }

  /** The mean the layout calls for: weighted per element for swath tiles, with each
      latitude's weight repeated across the longitudes for grid tiles, unweighted
      otherwise. `w` stands for `cos(radians(lat))`. */
  function LayoutMean(d: TileData, w: real -> real): Result<Sample, SummaryError>
  {
    var data := d.variableData.values;
    match d.layout
    case SwathTile =>
      if |d.latitude| == |data| then Success(WeightedMean(data, d.latitude, w))
      else Failure(WeightShapeMismatch)
    case GridTile =>
      if |d.latitude| * |d.longitude| == |data| then
        Success(WeightedMean(data, Repeat(d.latitude, |d.longitude|), w))
      else Failure(WeightShapeMismatch)
    case OtherLayout(_) => Success(NanMean(data))
  }

  /** Where the summariser stopped: the summary as it was left, and the exception, if any. */
  datatype Outcome = Outcome(summary: SummaryValue, error: Option<SummaryError>)

  /** `standard_name` handling: a truthy attribute must be text and is written; anything
      else leaves the field as it was. */
  function WithStandardName(s: SummaryValue, v: Variable): Outcome
  {
    if "standard_name" in v.attrs && Truthy(v.attrs["standard_name"]) then
      match v.attrs["standard_name"]
      case AStr(name) => Outcome(s.(standardName := name), None)
      case _ => Outcome(s, Some(StandardNameNotText))
    else Outcome(s, None)
  }

  /** The bounding box: latitude bounds, then longitude bounds, over the coordinates with
      NaN and infinities masked; an empty array stops it. */
  function WriteBBox(d: TileData, s: SummaryValue): Outcome
  {
    if d.latitude == [] then Outcome(s, Some(EmptyArray))
    else
      var lat := MaskInvalid(d.latitude);
      var s2 := s.(bbox := s.bbox.(latMin := NanMin(lat), latMax := NanMax(lat)));
      if d.longitude == [] then Outcome(s2, Some(EmptyArray))
      else
        var lon := MaskInvalid(d.longitude);
        Outcome(s2.(bbox := s2.bbox.(lonMin := NanMin(lon), lonMax := NanMax(lon))), None)
  }

  /** min, max and count of the samples, then the layout's mean. */
  function WriteStats(d: TileData, s: SummaryValue, w: real -> real): Outcome
  {
    var data := d.variableData.values;
    if data == [] then Outcome(s, Some(EmptyArray))
    else
      var s4 := s.(stats := s.stats.(min := NanMin(data), max := NanMax(data), count := Count(data)));
      var mean := LayoutMean(d, w);
      if mean.Failure? then Outcome(s4, Some(mean.error))
      else Outcome(s4.(stats := s4.stats.(mean := mean.value)), None)
  }

  /** The time extent; a missing time leaves both time fields as they were. */
  function WriteTime(d: TileData, s: SummaryValue): Outcome
  {
    var time := FindTimeMinMax(d.time);
    if time.TimeFailure? then Outcome(s, Some(time.error))
    else if time.TimeRange? then Outcome(s.(stats := s.stats.(minTime := time.lo, maxTime := time.hi)), None)
    else Outcome(s, None)
  }

  /** The variable's standard name; the variable must be in the dataset. */
  function WriteStandardName(s: SummaryValue, ds: Dataset): Outcome
  {
    if s.dataVarName !in ds then Outcome(s, Some(MissingVariable(s.dataVarName)))
    else WithStandardName(s, ds[s.dataVarName])
  }

  /** The summariser's writes to summary `s`, in program order, stopping at the first
      exception with the writes made so far. */
  function Summarize(d: TileData, s: SummaryValue, datasetName: string, ds: Dataset, w: real -> real): Outcome
  {
    var o1 := WriteBBox(d, s.(datasetName := datasetName));
    if o1.error.Some? then o1
    else
      var o2 := WriteStats(d, o1.summary, w);
      if o2.error.Some? then o2
      else
        var o3 := WriteTime(d, o2.summary);
        if o3.error.Some? then o3
        else WriteStandardName(o3.summary, ds)
  }

  /** The summariser's writes, field by field, into the summary object `ts`: stops at
      the first exception and leaves the writes made before it. */
  method WriteSummary(ts: TileSummary, d: TileData, datasetName: string, ds: Dataset, w: real -> real)
      returns (err: Option<SummaryError>)
    modifies ts
    ensures var o := Summarize(d, old(ts.Value()), datasetName, ds, w);
            ts.Value() == o.summary && err == o.error
  {
    ts.datasetName := datasetName;
    err := StoreBBox(ts, d);
    if err.Some? {
      return;
    }
    err := StoreStats(ts, d, w);
    if err.Some? {
      return;
    }
    err := StoreTime(ts, d);
    if err.Some? {
      return;
    }
    err := StoreStandardName(ts, ds);
  }

  /** The bounding-box writes: latitude bounds, then longitude bounds. */
  method StoreBBox(ts: TileSummary, d: TileData) returns (err: Option<SummaryError>)
    modifies ts
    ensures var o := WriteBBox(d, old(ts.Value()));
            ts.Value() == o.summary && err == o.error
  {
    if d.latitude == [] {
      return Some(EmptyArray);
    }
    var lat := MaskInvalid(d.latitude);
    ts.bbox := ts.bbox.(latMin := NanMin(lat));
    ts.bbox := ts.bbox.(latMax := NanMax(lat));
    if d.longitude == [] {
      return Some(EmptyArray);
    }
    var lon := MaskInvalid(d.longitude);
    ts.bbox := ts.bbox.(lonMin := NanMin(lon));
    ts.bbox := ts.bbox.(lonMax := NanMax(lon));
    return None;
  }

  /** The statistics writes: min, max and count, then the layout's mean. */
  method StoreStats(ts: TileSummary, d: TileData, w: real -> real) returns (err: Option<SummaryError>)
    modifies ts
    ensures var o := WriteStats(d, old(ts.Value()), w);
            ts.Value() == o.summary && err == o.error
  {
    var data := d.variableData.values;
    if data == [] {
      return Some(EmptyArray);
    }
    ts.stats := ts.stats.(min := NanMin(data));
    ts.stats := ts.stats.(max := NanMax(data));
    ts.stats := ts.stats.(count := Count(data));
    var mean := LayoutMean(d, w);
    if mean.Failure? {
      return Some(mean.error);
    }
    ts.stats := ts.stats.(mean := mean.value);
    return None;
  }

  /** The time writes; `NoTimeException` is swallowed. */
  method StoreTime(ts: TileSummary, d: TileData) returns (err: Option<SummaryError>)
    modifies ts
    ensures var o := WriteTime(d, old(ts.Value()));
            ts.Value() == o.summary && err == o.error
  {
    var time := FindTimeMinMax(d.time);
    match time {
      case TimeFailure(e) =>
        return Some(e);
      case TimeRange(lo, hi) =>
        ts.stats := ts.stats.(minTime := lo);
        ts.stats := ts.stats.(maxTime := hi);
      case NoTime =>
    }
    return None;
  }

  /** The standard-name lookup and write. */
  method StoreStandardName(ts: TileSummary, ds: Dataset) returns (err: Option<SummaryError>)
    modifies ts
    ensures var o := WriteStandardName(old(ts.Value()), ds);
            ts.Value() == o.summary && err == o.error
  {
    if ts.dataVarName !in ds {
      return Some(MissingVariable(ts.dataVarName));
    }
    var attrs := ds[ts.dataVarName].attrs;
    if "standard_name" in attrs && Truthy(attrs["standard_name"]) {
      if !attrs["standard_name"].AStr? {
        return Some(StandardNameNotText);
      }
      ts.standardName := attrs["standard_name"].s;
    }
    return None;
  }

  /** `TileSummarizingProcessor.process`: writes into the tile's own summary when it has
      one (so a failure leaves the writes made so far), into a fresh summary otherwise,
      which is copied onto the tile only on success. */
  method Process(tile: NexusTile, datasetName: string, ds: Dataset, w: real -> real)
      returns (r: Result<(), SummaryError>)
    modifies tile, tile.summary
    ensures tile.summary == old(tile.summary) && tile.tile == old(tile.tile)
    ensures old(tile.Valid()) ==> tile.Valid()
    ensures var start := if old(tile.hasSummary) then old(tile.summary.Value()) else DefaultSummary();
            var o := Summarize(tile.tile, start, datasetName, ds, w);
            (r.Success? <==> o.error.None?) &&
            (r.Failure? ==> o.error == Some(r.error)) &&
            tile.hasSummary == (old(tile.hasSummary) || r.Success?) &&
            tile.summary.Value() == (if old(tile.hasSummary) || r.Success? then o.summary else old(tile.summary.Value()))
  {
    var ts: TileSummary;
    if tile.hasSummary {
      ts := tile.summary;
    } else {
      ts := new TileSummary();
    }
    var err := WriteSummary(ts, tile.tile, datasetName, ds, w);
    if err.Some? {
      return Failure(err.value);
    }
    tile.summary.CopyFrom(ts);
    tile.hasSummary := true;
    return Success(());
  }

  /** Fields the summariser never writes keep their values, whether or not it fails;
      `dataset_name` is always the configured name. */
  lemma SummarizeLeavesOtherFields(d: TileData, s: SummaryValue, datasetName: string, ds: Dataset, w: real -> real)
    ensures var o := Summarize(d, s, datasetName, ds, w).summary;
            o.datasetName == datasetName &&
            o.granule == s.granule && o.tileId == s.tileId && o.dataVarName == s.dataVarName &&
            o.sectionSpec == s.sectionSpec && o.globalAttributes == s.globalAttributes
  {
    var s0 := s.(datasetName := datasetName);
    var o1 := WriteBBox(d, s0);
    StagesKeepIdentity(d, s0, ds, w);
    if o1.error.None? {
      var o2 := WriteStats(d, o1.summary, w);
      StagesKeepIdentity(d, o1.summary, ds, w);
      if o2.error.None? {
        StagesKeepIdentity(d, o2.summary, ds, w);
        var o3 := WriteTime(d, o2.summary);
        if o3.error.None? {
          StagesKeepIdentity(d, o3.summary, ds, w);
        }
      }
    }
  }

  /** The fields that identify the tile and the dataset. */
  predicate SameIdentity(a: SummaryValue, b: SummaryValue)
  {
    a.datasetName == b.datasetName && a.granule == b.granule && a.tileId == b.tileId &&
    a.dataVarName == b.dataVarName && a.sectionSpec == b.sectionSpec &&
    a.globalAttributes == b.globalAttributes
  }

  /** No stage writes an identifying field. */
  lemma StagesKeepIdentity(d: TileData, s: SummaryValue, ds: Dataset, w: real -> real)
    ensures SameIdentity(WriteBBox(d, s).summary, s)
    ensures SameIdentity(WriteStats(d, s, w).summary, s)
    ensures SameIdentity(WriteTime(d, s).summary, s)
    ensures SameIdentity(WriteStandardName(s, ds).summary, s)
  {
  }

  /** The summariser fails exactly on an empty coordinate or data array, a weight array
      of the wrong size, an unusable time array, a variable missing from the dataset, or
      a non-text standard name. */
  lemma SummarizeFailsIff(d: TileData, s: SummaryValue, datasetName: string, ds: Dataset, w: real -> real)
    ensures Summarize(d, s, datasetName, ds, w).error.None? <==>
              d.latitude != [] && d.longitude != [] && d.variableData.values != [] &&
              LayoutMean(d, w).Success? && !FindTimeMinMax(d.time).TimeFailure? &&
              s.dataVarName in ds &&
              WithStandardName(s, ds[s.dataVarName]).error.None?
  {
  }

  /** The count is the number of non-NaN samples, so it lies between 0 and the size,
      and it is positive exactly when some sample is not NaN. */
  lemma SummaryCount(d: TileData, s: SummaryValue, datasetName: string, ds: Dataset, w: real -> real)
    requires Summarize(d, s, datasetName, ds, w).error.None?
    ensures var c := Summarize(d, s, datasetName, ds, w).summary.stats.count;
            c == |d.variableData.values| - NanCount(d.variableData.values) &&
            0 <= c <= |d.variableData.values| &&
            (c > 0 <==> exists k :: 0 <= k < |d.variableData.values| && !d.variableData.values[k].NaN?)
  {
    CountPositiveIff(d.variableData.values);
  }

  /** The bounding box spans exactly the finite coordinates: NaN when there are none,
      otherwise attained by one of them, below (above) every one of them, and ordered. */
  lemma SummaryBBox(d: TileData, s: SummaryValue, datasetName: string, ds: Dataset, w: real -> real)
    requires Summarize(d, s, datasetName, ds, w).error.None?
    ensures var b := Summarize(d, s, datasetName, ds, w).summary.bbox;
            SpansFinite(b.latMin, b.latMax, d.latitude) && SpansFinite(b.lonMin, b.lonMax, d.longitude)
  {
    MaskedExtent(d.latitude);
    MaskedExtent(d.longitude);
  }

  /** `lo` and `hi` are the least and greatest finite entries of `s` (NaN if none). */
  predicate SpansFinite(lo: Sample, hi: Sample, s: seq<Sample>)
  {
    (lo.NaN? <==> forall k :: 0 <= k < |s| ==> !s[k].Finite?) &&
    (hi.NaN? <==> lo.NaN?) &&
    (!lo.NaN? ==> Le(lo, hi) && lo.Finite? && hi.Finite? &&
                  (exists k :: 0 <= k < |s| && s[k] == lo) &&
                  (exists k :: 0 <= k < |s| && s[k] == hi)) &&
    (forall k :: 0 <= k < |s| && s[k].Finite? ==> Le(lo, s[k]) && Le(s[k], hi))
  }

  lemma MaskedExtent(s: seq<Sample>)
    ensures SpansFinite(NanMin(MaskInvalid(s)), NanMax(MaskInvalid(s)), s)
  {
    var m := MaskInvalid(s);
    if !NanMin(m).NaN? {
      NanMinLeNanMax(m);
      var i :| 0 <= i < |m| && m[i] == NanMin(m);
      var j :| 0 <= j < |m| && m[j] == NanMax(m);
      assert s[i] == NanMin(m) && s[j] == NanMax(m);
    }
  }

  /** min and max are attained by non-NaN samples and ordered; NaN only when every
      sample is NaN. */
  lemma SummaryStats(d: TileData, s: SummaryValue, datasetName: string, ds: Dataset, w: real -> real)
    requires Summarize(d, s, datasetName, ds, w).error.None?
    ensures var st := Summarize(d, s, datasetName, ds, w).summary.stats;
            var data := d.variableData.values;
            (st.min.NaN? <==> forall k :: 0 <= k < |data| ==> data[k].NaN?) &&
            (!st.min.NaN? ==> Le(st.min, st.max) &&
                              (exists k :: 0 <= k < |data| && data[k] == st.min) &&
                              (exists k :: 0 <= k < |data| && data[k] == st.max)) &&
            (forall k :: 0 <= k < |data| && !data[k].NaN? ==> Le(st.min, data[k]) && Le(data[k], st.max))
  {
    var data := d.variableData.values;
    if !NanMin(data).NaN? {
      NanMinLeNanMax(data);
    }
  }

  /** The mean is the layout's mean: for a grid tile, flattened element `k` is weighted
      by latitude `k div len(lon)`; layouts other than swath and grid are unweighted. */
  lemma LayoutMeanWeights(d: TileData, w: real -> real)
    requires LayoutMean(d, w).Success?
    ensures var mean := LayoutMean(d, w).value;
            var data := d.variableData.values;
            (d.layout.SwathTile? ==> |d.latitude| == |data| && mean == WeightedMean(data, d.latitude, w)) &&
            (d.layout.GridTile? ==>
               var weighted := Repeat(d.latitude, |d.longitude|);
               |weighted| == |data| && mean == WeightedMean(data, weighted, w) &&
               forall k :: 0 <= k < |data| ==>
                 |d.longitude| > 0 && k / |d.longitude| < |d.latitude| && weighted[k] == d.latitude[k / |d.longitude|]) &&
            (d.layout.OtherLayout? ==> mean == NanMean(data))
  {
    if d.layout.GridTile? {
      GridWeights(d.latitude, |d.longitude|, |d.variableData.values|);
    }
  }

  /** The summary's mean is the layout's mean. */
  lemma MeanWritten(d: TileData, s: SummaryValue, datasetName: string, ds: Dataset, w: real -> real)
    requires Summarize(d, s, datasetName, ds, w).error.None?
    ensures LayoutMean(d, w) == Success(Summarize(d, s, datasetName, ds, w).summary.stats.mean)
  {
  }

  /** The summary's min and max are nanmin and nanmax of the samples. */
  lemma StatsWritten(d: TileData, s: SummaryValue, datasetName: string, ds: Dataset, w: real -> real)
    requires Summarize(d, s, datasetName, ds, w).error.None?
    ensures var st := Summarize(d, s, datasetName, ds, w).summary.stats;
            st.min == NanMin(d.variableData.values) && st.max == NanMax(d.variableData.values)
  {
    var o1 := WriteBBox(d, s.(datasetName := datasetName));
    var o2 := WriteStats(d, o1.summary, w);
    var o3 := WriteTime(d, o2.summary);
    assert o2.summary.stats.min == NanMin(d.variableData.values);
    assert o2.summary.stats.max == NanMax(d.variableData.values);
    assert o3.summary.stats.min == o2.summary.stats.min && o3.summary.stats.max == o2.summary.stats.max;
  }

  lemma GridWeights(lats: seq<Sample>, n: nat, size: nat)
    requires size == |lats| * n
    ensures forall k :: 0 <= k < size ==> n > 0 && k / n < |lats| && Repeat(lats, n)[k] == lats[k / n]
  {
    forall k | 0 <= k < size ensures n > 0 && k / n < |lats| && Repeat(lats, n)[k] == lats[k / n] {
      RepeatAt(lats, n, k);
    }
  }

  /** With non-negative weights, a finite layout mean lies between nanmin and nanmax. */
  lemma LayoutMeanWithin(d: TileData, w: real -> real)
    requires NonNegative(w) && LayoutMean(d, w).Success?
    ensures var data, mean := d.variableData.values, LayoutMean(d, w).value;
            mean.Finite? ==> Le(NanMin(data), mean) && Le(mean, NanMax(data))
  {
    var data := d.variableData.values;
    match d.layout
    case SwathTile => WeightedMeanWithin(data, d.latitude, w);
    case GridTile => WeightedMeanWithin(data, Repeat(d.latitude, |d.longitude|), w);
    case OtherLayout(_) => NanMeanWithin(data);
  }

  /** With non-negative weights, a finite mean lies between the written min and max. */
  lemma SummaryMeanWithin(d: TileData, s: SummaryValue, datasetName: string, ds: Dataset, w: real -> real)
    requires NonNegative(w)
    requires Summarize(d, s, datasetName, ds, w).error.None?
    ensures var st := Summarize(d, s, datasetName, ds, w).summary.stats;
            st.mean.Finite? ==> Le(st.min, st.mean) && Le(st.mean, st.max)
  {
    MeanWritten(d, s, datasetName, ds, w);
    StatsWritten(d, s, datasetName, ds, w);
    LayoutMeanWithin(d, w);
  }

  /** The time fields take the extent when there is one and keep their earlier values
      when the time is missing. */
  lemma SummaryTime(d: TileData, s: SummaryValue, datasetName: string, ds: Dataset, w: real -> real)
    requires Summarize(d, s, datasetName, ds, w).error.None?
    ensures var st := Summarize(d, s, datasetName, ds, w).summary.stats;
            match FindTimeMinMax(d.time)
            case TimeRange(lo, hi) => st.minTime == lo && st.maxTime == hi
            case NoTime => st.minTime == s.stats.minTime && st.maxTime == s.stats.maxTime
            case TimeFailure(_) => false
  {
  }

  /** `standard_name` is overwritten exactly when the variable carries a truthy one. */
  lemma SummaryStandardName(d: TileData, s: SummaryValue, datasetName: string, ds: Dataset, w: real -> real)
    requires Summarize(d, s, datasetName, ds, w).error.None?
    ensures s.dataVarName in ds
    ensures var attrs := ds[s.dataVarName].attrs;
            var name := Summarize(d, s, datasetName, ds, w).summary.standardName;
            if "standard_name" in attrs && Truthy(attrs["standard_name"])
            then attrs["standard_name"] == AStr(name) && name != []
            else name == s.standardName
  {
  }

  /** Summarising a summary the summariser produced reproduces it. */
  lemma SummarizeIdempotent(d: TileData, s: SummaryValue, datasetName: string, ds: Dataset, w: real -> real)
    requires Summarize(d, s, datasetName, ds, w).error.None?
    ensures var o := Summarize(d, s, datasetName, ds, w);
            Summarize(d, o.summary, datasetName, ds, w) == o
  {
  }

  /** The standard name of one listed variable, as a JSON value: its text, or null when
      it has none (`attrs.get` gives None). A name missing from the dataset is the
      KeyError; an attribute that is not text is refused. */
  function StandardNameValue(item: Value, ds: Dataset, codec: Codec): Result<Value, SummaryError>
  {
    var name := if item.VStr? then item.s else codec.dumps(item);
    if !item.VStr? || item.s !in ds then Failure(MissingVariable(name))
    else if "standard_name" !in ds[item.s].attrs then Success(VNull)
    else match ds[item.s].attrs["standard_name"]
      case AStr(t) => Success(VStr(t))
      case _ => Failure(StandardNameNotText)
  }

  /** The standard names of a list of variables, stopping at the first failure. */
  function StandardNameValues(items: seq<Value>, ds: Dataset, codec: Codec): (r: Result<seq<Value>, SummaryError>)
    ensures r.Success? <==> forall k :: 0 <= k < |items| ==> StandardNameValue(items[k], ds, codec).Success?
    ensures r.Success? ==>
              |r.value| == |items| &&
              forall k :: 0 <= k < |items| ==> r.value[k] == StandardNameValue(items[k], ds, codec).value
  {
    if items == [] then Success([])
    else
      var first :- StandardNameValue(items[0], ds, codec);
      var rest :- StandardNameValues(items[1..], ds, codec);
      Success([first] + rest)
  }

  /** The standard-name lookup that the reading processors' stored names call for. They
      store `json.dumps(variable)`, so the text is decoded first. One variable writes
      its truthy text standard name JSON-encoded. A list of variables writes the JSON
      list of their standard names. Text that decodes to neither is looked up as it
      is. */
  function WriteStandardNameDecoded(s: SummaryValue, ds: Dataset, codec: Codec): Outcome
  {
    var decoded := codec.loads(s.dataVarName);
    if decoded.Some? && decoded.value.VStr? then
      var n := decoded.value.s;
      if n !in ds then Outcome(s, Some(MissingVariable(n)))
      else
        var attrs := ds[n].attrs;
        if "standard_name" in attrs && Truthy(attrs["standard_name"]) then
          match attrs["standard_name"]
          case AStr(t) => Outcome(s.(standardName := codec.dumps(VStr(t))), None)
          case _ => Outcome(s, Some(StandardNameNotText))
        else Outcome(s, None)
    else if decoded.Some? && decoded.value.VList? then
      match StandardNameValues(decoded.value.items, ds, codec)
      case Success(names) => Outcome(s.(standardName := codec.dumps(VList(names))), None)
      case Failure(e) => Outcome(s, Some(e))
    else WriteStandardName(s, ds)
  }

  /** As written, the name a reading processor stores is looked up undecoded. When the
      JSON text of the variable is not itself a key of the dataset, the lookup raises
      KeyError and the whole summariser fails. */
  lemma ReadingNameAsWrittenMissing(d: TileData, s: SummaryValue, datasetName: string, ds: Dataset, w: real -> real,
                                    codec: Codec, n: string)
    requires s.dataVarName == codec.dumps(VStr(n)) && codec.dumps(VStr(n)) !in ds
    ensures WriteStandardName(s, ds) == Outcome(s, Some(MissingVariable(codec.dumps(VStr(n)))))
    ensures Summarize(d, s, datasetName, ds, w).error.Some?
  {
    SummarizeFailsIff(d, s, datasetName, ds, w);
  }

  /** The single-variable case of test_TileSummarizingProcessor.py. `analysed_sst` is
      stored as `"analysed_sst"` (with the quotes), which the dataset lacks. So the code
      as written fails. The decoded lookup writes the JSON text of
      `sea_surface_temperature`, as the test expects. */
  lemma AnalysedSstLookup(d: TileData, s: SummaryValue, datasetName: string, w: real -> real, codec: Codec)
    requires codec.dumps(VStr("analysed_sst")) == "\"analysed_sst\""
    requires codec.loads("\"analysed_sst\"") == Some(VStr("analysed_sst"))
    requires s.dataVarName == "\"analysed_sst\""
    ensures var ds := map["analysed_sst" := Variable(["time", "lat", "lon"],
                                                     map["standard_name" := AStr("sea_surface_temperature")])];
            Summarize(d, s, datasetName, ds, w).error.Some? &&
            WriteStandardNameDecoded(s, ds, codec) ==
              Outcome(s.(standardName := codec.dumps(VStr("sea_surface_temperature"))), None)
  {
    var ds := map["analysed_sst" := Variable(["time", "lat", "lon"],
                                             map["standard_name" := AStr("sea_surface_temperature")])];
    assert "\"analysed_sst\""[0] == '"';
    assert "\"analysed_sst\"" != "analysed_sst";
    ReadingNameAsWrittenMissing(d, s, datasetName, ds, w, codec, "analysed_sst");
  }

  /** The decoded lookup of a single variable's stored name finds that variable. A
      missing variable is the KeyError naming it. A truthy text standard name is
      written JSON-encoded. Otherwise the summary is left as it was. */
  lemma DecodedSingleName(s: SummaryValue, ds: Dataset, codec: Codec, n: string)
    requires codec.loads(codec.dumps(VStr(n))) == Some(VStr(n))
    requires s.dataVarName == codec.dumps(VStr(n))
    ensures var o := WriteStandardNameDecoded(s, ds, codec);
            (n !in ds ==> o == Outcome(s, Some(MissingVariable(n)))) &&
            (n in ds ==>
               var attrs := ds[n].attrs;
               if "standard_name" in attrs && Truthy(attrs["standard_name"]) then
                 (attrs["standard_name"].AStr? ==>
                    o == Outcome(s.(standardName := codec.dumps(VStr(attrs["standard_name"].s))), None)) &&
                 (!attrs["standard_name"].AStr? ==> o == Outcome(s, Some(StandardNameNotText)))
               else o == Outcome(s, None))
  {
  }

  /** The decoded lookup of a stored list of variables succeeds exactly when every
      listed name is a variable whose standard name is absent or text. It then writes
      the JSON list that holds, at each position, that variable's standard name or
      null. */
  lemma DecodedNameList(s: SummaryValue, ds: Dataset, codec: Codec, items: seq<Value>)
    requires codec.loads(codec.dumps(VList(items))) == Some(VList(items))
    requires s.dataVarName == codec.dumps(VList(items))
    ensures var o := WriteStandardNameDecoded(s, ds, codec);
            (o.error.None? <==>
               forall k :: 0 <= k < |items| ==>
                 items[k].VStr? && items[k].s in ds &&
                 ("standard_name" in ds[items[k].s].attrs ==> ds[items[k].s].attrs["standard_name"].AStr?)) &&
            (o.error.None? ==>
               var names := StandardNameValues(items, ds, codec).value;
               o.summary == s.(standardName := codec.dumps(VList(names))) &&
               |names| == |items| &&
               forall k :: 0 <= k < |items| ==>
                 var attrs := ds[items[k].s].attrs;
                 names[k] == if "standard_name" in attrs then VStr(attrs["standard_name"].s) else VNull)
  {
    var o := WriteStandardNameDecoded(s, ds, codec);
    var r := StandardNameValues(items, ds, codec);
    forall k | 0 <= k < |items|
      ensures StandardNameValue(items[k], ds, codec).Success? <==>
                items[k].VStr? && items[k].s in ds &&
                ("standard_name" in ds[items[k].s].attrs ==> ds[items[k].s].attrs["standard_name"].AStr?)
    {
    }
  }
}
