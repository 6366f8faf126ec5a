/** TileReadingProcessor: the part shared by every reading processor. It parses a
    tile's section spec `name:start:stop,...` into slices per dimension, restricts them
    to one variable's dimensions, and prepares the copy of the tile the concrete reader
    fills in. */
module TileReadingProcessor {
  import opened Wrappers
  import opened Values
  import opened Tiles
  import opened Text

  /** `slice(start, stop)`. */
  datatype Slice = Slice(start: int, stop: int)

  /** The exceptions raised while reading. */
  datatype ReadError =
    | EmptyVariableList           // RuntimeError from the constructor
    | WrongFieldCount(part: string) // ValueError: a part does not unpack into three fields
    | NotAnInteger(text: string)  // ValueError from `int()`
    | MissingDimension(name: string) // KeyError: a variable dimension the spec does not slice

  /** What `process` raises, whatever went wrong underneath. */
  datatype TileProcessingError = TileProcessingError(cause: ReadError)

  /** The configured reader: the variable (a name or a list of names), and the names of
      the latitude and longitude variables. */
  datatype Reader = Reader(variable: Value, latitude: string, longitude: string)

  /** The constructor. A string variable is JSON-decoded when it can be and kept as it
      is otherwise; an empty list is refused. */
  function NewReader(variable: Value, latitude: string, longitude: string, codec: Codec): (r: Result<Reader, ReadError>)
    ensures r.Failure? ==> r.error == EmptyVariableList
    ensures r.Success? ==> r.value.latitude == latitude && r.value.longitude == longitude
    ensures variable.VStr? && codec.loads(variable.s).Some? ==>
              (r.Failure? <==> codec.loads(variable.s).value == VList([])) &&
              (r.Success? ==> r.value.variable == codec.loads(variable.s).value)
    ensures !(variable.VStr? && codec.loads(variable.s).Some?) ==>
              (r.Failure? <==> variable == VList([])) &&
              (r.Success? ==> r.value.variable == variable)
  {
    var decoded := if variable.VStr? && codec.loads(variable.s).Some? then codec.loads(variable.s).value else variable;
    if decoded.VList? && |decoded.items| < 1 then Failure(EmptyVariableList)
    else Success(Reader(decoded, latitude, longitude))
  }

  /** One `name:start:stop` part of a spec. */
  function ParsePart(part: string): Result<(string, Slice), ReadError>
  {
    var fields := Split(part, ':');
    if |fields| != 3 then Failure(WrongFieldCount(part))
    else
      var start := ParseInt(fields[1]);
      if start.None? then Failure(NotAnInteger(fields[1]))
      else
        var stop := ParseInt(fields[2]);
        if stop.None? then Failure(NotAnInteger(fields[2]))
        else Success((fields[0], Slice(start.value, stop.value)))
  }

  /** The dictionary the assignments `dim_to_slice[name] = slice` build, in order. */
  function ToMap(dims: seq<(string, Slice)>): map<string, Slice>
  {
    if dims == [] then map[]
    else ToMap(dims[..|dims| - 1])[dims[|dims| - 1].0 := dims[|dims| - 1].1]
  }

  /** The dictionary holds exactly the names assigned. */
  lemma {:induction false} ToMapKeys(dims: seq<(string, Slice)>)
    ensures forall name :: name in ToMap(dims) <==> exists k :: 0 <= k < |dims| && dims[k].0 == name
  {
    if dims != [] {
      var n := |dims| - 1;
      var init := dims[..n];
      ToMapKeys(init);
      forall name
        ensures name in ToMap(dims) <==> exists k :: 0 <= k < |dims| && dims[k].0 == name
      {
        if name == dims[n].0 {
          assert dims[n].0 == name;
        } else {
          if name in ToMap(init) {
            var k :| 0 <= k < n && init[k].0 == name;
            assert dims[k].0 == name;
          }
          if exists k :: 0 <= k < |dims| && dims[k].0 == name {
            var k :| 0 <= k < |dims| && dims[k].0 == name;
            assert init[k].0 == name;
          }
        }
      }
    }
  }

  /** A later assignment to a name replaces an earlier one: a name maps to the slice of
      its last occurrence. */
  lemma {:induction false} ToMapLastWins(dims: seq<(string, Slice)>, k: nat)
    requires k < |dims|
    requires forall j :: k < j < |dims| ==> dims[j].0 != dims[k].0
    ensures dims[k].0 in ToMap(dims) && ToMap(dims)[dims[k].0] == dims[k].1
    decreases |dims|
  {
    var n := |dims| - 1;
    if k < n {
      var init := dims[..n];
      assert init[k] == dims[k];
      forall j | k < j < n
        ensures init[j].0 != init[k].0
      {
        assert init[j] == dims[j];
      }
      ToMapLastWins(init, k);
    }
  }

  /** Every part parsed; parsing has no effects, so parsing them all up front and then
      stopping at the first error is what the loop does. */
  function ParseParts(parts: seq<string>): (r: seq<Result<(string, Slice), ReadError>>)
    ensures |r| == |parts| && forall k :: 0 <= k < |parts| ==> r[k] == ParsePart(parts[k])
  {
    if parts == [] then [] else [ParsePart(parts[0])] + ParseParts(parts[1..])
  }

  /** The parsed parts assigned left to right; the first error stops it. */
  function Collect(results: seq<Result<(string, Slice), ReadError>>): Result<map<string, Slice>, ReadError>
  {
    if results == [] then Success(map[])
    else
      var m :- Collect(results[..|results| - 1]);
      var dim :- results[|results| - 1];
      Success(m[dim.0 := dim.1])
  }

  /** `_convert_spec_to_slices`, as a value. */
  function ConvertSpec(spec: string): Result<map<string, Slice>, ReadError>
  {
    Collect(ParseParts(Split(spec, ',')))
  }

  /** `_convert_spec_to_slices`: fills a dictionary part by part. */
  method ConvertSpecToSlices(spec: string) returns (r: Result<map<string, Slice>, ReadError>)
    ensures r == ConvertSpec(spec)
  {
    var parts := Split(spec, ',');
    ghost var results := ParseParts(parts);
    var dimToSlice: map<string, Slice> := map[];
    var i := 0;
    while i < |parts|
      invariant 0 <= i <= |parts|
      invariant Collect(results[..i]) == Success(dimToSlice)
    {
      var dim := ParsePart(parts[i]);
      CollectStep(results, i);
      if dim.Failure? {
        PrefixFailure(results, i + 1);
        return Failure(dim.error);
      }
      dimToSlice := dimToSlice[dim.value.0 := dim.value.1];
      i := i + 1;
    }
    assert results[..i] == results;
    return Success(dimToSlice);
  }

  /** One more part: its error, or its assignment into the dictionary so far. */
  lemma CollectStep(results: seq<Result<(string, Slice), ReadError>>, i: nat)
    requires i < |results| && Collect(results[..i]).Success?
    ensures var m := Collect(results[..i]).value;
            Collect(results[..i + 1]) ==
              if results[i].Failure? then Failure(results[i].error)
              else Success(m[results[i].value.0 := results[i].value.1])
  {
    assert results[..i + 1][..i] == results[..i];
  }

  /** Once a prefix of the parts fails, the whole spec fails with the same error. */
  lemma {:induction false} PrefixFailure(results: seq<Result<(string, Slice), ReadError>>, n: nat)
    requires n <= |results| && Collect(results[..n]).Failure?
    ensures Collect(results) == Collect(results[..n])
    decreases |results| - n
  {
    if n < |results| {
      assert results[..n + 1][..n] == results[..n];
      PrefixFailure(results, n + 1);
    } else {
      assert results[..n] == results;
    }
  }

  /** The values of parts that all parsed. */
  function ParsedValues(results: seq<Result<(string, Slice), ReadError>>): (r: seq<(string, Slice)>)
    requires forall k :: 0 <= k < |results| ==> results[k].Success?
    ensures |r| == |results| && forall k :: 0 <= k < |results| ==> r[k] == results[k].value
  {
    if results == [] then []
    else ParsedValues(results[..|results| - 1]) + [results[|results| - 1].value]
  }

  /** The spec parses exactly when every part does. */
  lemma {:induction false} CollectSucceeds(results: seq<Result<(string, Slice), ReadError>>)
    ensures Collect(results).Success? <==> forall k :: 0 <= k < |results| ==> results[k].Success?
  {
    if results != [] {
      var n := |results| - 1;
      var init := results[..n];
      CollectSucceeds(init);
      assert forall k :: 0 <= k < n ==> init[k] == results[k];
    }
  }

  /** A spec that parses gives the dictionary of its parts, in which the last
      occurrence of a name wins. */
  lemma {:induction false} CollectValue(results: seq<Result<(string, Slice), ReadError>>)
    requires forall k :: 0 <= k < |results| ==> results[k].Success?
    ensures Collect(results) == Success(ToMap(ParsedValues(results)))
  {
    if results != [] {
      var n := |results| - 1;
      var init := results[..n];
      assert forall k :: 0 <= k < n ==> init[k] == results[k];
      CollectValue(init);
      var vs := ParsedValues(results);
      assert vs[..n] == ParsedValues(init);
    }
  }

  /** When the spec does not parse, the error is that of the first part that does not. */
  lemma {:induction false} CollectFirstError(results: seq<Result<(string, Slice), ReadError>>)
    requires Collect(results).Failure?
    ensures exists k :: 0 <= k < |results| && results[k].Failure? && Collect(results).error == results[k].error &&
              forall j :: 0 <= j < k ==> results[j].Success?
  {
    var n := |results| - 1;
    var init := results[..n];
    assert forall k :: 0 <= k < n ==> init[k] == results[k];
    if Collect(init).Failure? {
      CollectFirstError(init);
      var k :| 0 <= k < |init| && init[k].Failure? && Collect(init).error == init[k].error &&
               forall j :: 0 <= j < k ==> init[j].Success?;
      assert results[k] == init[k];
    } else {
      CollectSucceeds(init);
    }
  }

  /** A part written back as text. */
  function FormatPart(dim: (string, Slice)): string
  {
    dim.0 + ":" + IntToString(dim.1.start) + ":" + IntToString(dim.1.stop)
  }

  /** The parts of a section spec written from its dimensions. */
  function FormatParts(dims: seq<(string, Slice)>): (parts: seq<string>)
    ensures |parts| == |dims| && forall k :: 0 <= k < |dims| ==> parts[k] == FormatPart(dims[k])
  {
    if dims == [] then [] else [FormatPart(dims[0])] + FormatParts(dims[1..])
  }

  /** A section spec written from its dimensions. */
  function FormatSpec(dims: seq<(string, Slice)>): string
  {
    Join(FormatParts(dims), ',')
  }

  /** A name free of both separators; the slicer only writes such names. */
  predicate PlainName(name: string)
  {
    ',' !in name && ':' !in name
  }

  lemma FormatPartParses(dim: (string, Slice))
    requires PlainName(dim.0)
    ensures ',' !in FormatPart(dim)
    ensures ParsePart(FormatPart(dim)) == Success(dim)
  {
    var a, b := IntToString(dim.1.start), IntToString(dim.1.stop);
    IntToStringHasNoSeparators(dim.1.start);
    IntToStringHasNoSeparators(dim.1.stop);
    assert [dim.0, a, b][1..] == [a, b] && [a, b][1..] == [b];
    assert Join([a, b], ':') == a + [':'] + b;
    assert Join([dim.0, a, b], ':') == dim.0 + [':'] + (a + [':'] + b);
    assert Join([dim.0, a, b], ':') == FormatPart(dim);
    SplitJoin([dim.0, a, b], ':');
    ParseIntToString(dim.1.start);
    ParseIntToString(dim.1.stop);
  }

  /** Every part written from a dimension with a plain name parses back to it. */
  lemma {:induction false} FormatPartsParse(dims: seq<(string, Slice)>)
    requires forall k :: 0 <= k < |dims| ==> PlainName(dims[k].0)
    ensures forall k :: 0 <= k < |dims| ==> ',' !in FormatParts(dims)[k]
    ensures forall k :: 0 <= k < |dims| ==> ParseParts(FormatParts(dims))[k] == Success(dims[k])
  {
    forall k | 0 <= k < |dims|
      ensures ',' !in FormatParts(dims)[k] && ParseParts(FormatParts(dims))[k] == Success(dims[k])
    {
      FormatPartParses(dims[k]);
    }
  }

  /** Round trip: a spec written from one or more dimensions with plain names parses
      back to the dictionary of those dimensions. */
  lemma {:induction false} FormatSpecParses(dims: seq<(string, Slice)>)
    requires |dims| >= 1 && forall k :: 0 <= k < |dims| ==> PlainName(dims[k].0)
    ensures ConvertSpec(FormatSpec(dims)) == Success(ToMap(dims))
  {
    var parts := FormatParts(dims);
    var results := ParseParts(parts);
    FormatPartsParse(dims);
    SplitJoin(parts, ',');
    assert ConvertSpec(FormatSpec(dims)) == Collect(results);
    CollectValue(results);
    assert ParsedValues(results) == dims;
  }

  /** A spec part with other than three colon-separated fields makes the spec fail. */
  lemma WrongPartFails(spec: string, k: nat)
    requires k < |Split(spec, ',')| && |Split(Split(spec, ',')[k], ':')| != 3
    ensures ConvertSpec(spec).Failure?
  {
    CollectSucceeds(ParseParts(Split(spec, ',')));
  }

  /** `_slices_for_variable`: the slice of every dimension of the variable, in the
      variable's dimension order; the first dimension the spec lacks is a KeyError. */
  function SlicesForVariable(dims: seq<string>, slices: map<string, Slice>): (r: Result<map<string, Slice>, ReadError>)
    ensures r.Success? <==> forall k :: 0 <= k < |dims| ==> dims[k] in slices
    ensures r.Success? ==> r.value.Keys == (set k | 0 <= k < |dims| :: dims[k]) &&
                           forall d :: d in r.value ==> r.value[d] == slices[d]
    ensures r.Failure? ==> exists k :: 0 <= k < |dims| && r.error == MissingDimension(dims[k]) && dims[k] !in slices &&
                                       forall j :: 0 <= j < k ==> dims[j] in slices
  {
    if dims == [] then Success(map[])
    else if dims[0] !in slices then Failure(MissingDimension(dims[0]))
    else
      var rest := SlicesForVariable(dims[1..], slices);
      if rest.Failure? then
        var k :| 0 <= k < |dims| - 1 && rest.error == MissingDimension(dims[1..][k]) && dims[1..][k] !in slices &&
                 forall j :: 0 <= j < k ==> dims[1..][j] in slices;
        assert dims[k + 1] == dims[1..][k];
        Failure(rest.error)
      else
        var r := rest.value[dims[0] := slices[dims[0]]];
        assert r.Keys == (set k | 0 <= k < |dims| - 1 :: dims[1..][k]) + {dims[0]};
        assert forall k :: 0 < k < |dims| ==> dims[k] == dims[1..][k - 1];
        Success(r)
  }

  /** The granule path with one leading `file:` taken off. */
  function StripFileScheme(path: string): (r: string)
    ensures StartsWith(path, "file:") ==> "file:" + r == path
    ensures !StartsWith(path, "file:") ==> r == path
  {
    if StartsWith(path, "file:") then path[|"file:"|..] else path
  }

  /** Only one `file:` is taken off: the prefixed path gives back the path, even when
      that path itself starts with `file:`. */
  lemma StripFileSchemeOnce(path: string)
    ensures StripFileScheme("file:" + path) == path
  {
    assert ("file:" + path)[..5] == "file:";
  }

  /** `_parse_input`: the slices of the spec, then the local path of the granule. */
  function ParseInput(s: SummaryValue): (r: Result<(map<string, Slice>, string), ReadError>)
    ensures r.Success? <==> ConvertSpec(s.sectionSpec).Success?
    ensures r.Success? ==> r.value == (ConvertSpec(s.sectionSpec).value, StripFileScheme(s.granule))
    ensures r.Failure? ==> r.error == ConvertSpec(s.sectionSpec).error
  {
    var slices :- ConvertSpec(s.sectionSpec);
    Success((slices, StripFileScheme(s.granule)))
  }

  /** `process` up to the call into the concrete reader: parses the spec of the input
      tile, copies the tile into a new one and names the variable in the copy's summary.
      The input tile is not changed; every error is wrapped. */
  method Process(reader: Reader, tile: NexusTile, codec: Codec) returns (r: Result<(NexusTile, map<string, Slice>), TileProcessingError>)
    ensures var c := ConvertSpec(tile.summary.sectionSpec);
            (r.Success? <==> c.Success?) && (r.Failure? ==> r.error == TileProcessingError(c.error))
    ensures r.Success? ==> var out := r.value.0;
            fresh(out) && fresh(out.summary) &&
            r.value.1 == ConvertSpec(tile.summary.sectionSpec).value &&
            out.tile == tile.tile && out.hasSummary && out.Valid() &&
            out.summary.Value() == tile.summary.Value().(dataVarName := codec.dumps(reader.variable))
  {
    var slices := ConvertSpecToSlices(tile.summary.sectionSpec);
    if slices.Failure? {
      return Failure(TileProcessingError(slices.error));
    }
    var output := new NexusTile(tile.tile);
    output.CopyFrom(tile);
    output.summary.dataVarName := codec.dumps(reader.variable);
    output.hasSummary := true;
    return Success((output, slices.value));
  }
}
