/** KelvinToCelsius: when the units of a tile's variable name a kelvin scale, takes
    273.15 off every sample. */
module KelvinToCelsius {
  import opened Wrappers
  import opened Samples
  import opened Arrays
  import opened Values
  import opened Tiles

  /** The unit spellings, lowercased, that mean kelvin. */
  const Kelvins: seq<string> := ["kelvin", "degk", "deg_k", "degreesk", "degrees_k", "degree_k", "degreek"]

  /** The exceptions that escape `process`. */
  datatype KelvinError =
    | BadVariableName   // `json.loads(data_var_name)` fails
    | UnitNotText       // `.lower()` on a collected unit that is not a string

  /** The attribute holding a variable's unit: `units`, else `Units`, else `UNITS`. */
  function UnitAttr(attrs: map<string, Attr>): (r: Option<Attr>)
    ensures r.None? <==> "units" !in attrs && "Units" !in attrs && "UNITS" !in attrs
  {
    if "units" in attrs then Some(attrs["units"])
    else if "Units" in attrs then Some(attrs["Units"])
    else if "UNITS" in attrs then Some(attrs["UNITS"])
    else None
  }

  /** What `variable_unit.extend(a)` adds, as written: the characters of a string, the
      items of a list, and nothing for a number, whose TypeError is swallowed. */
  function UnitsOfAsWritten(a: Attr): seq<Attr>
  {
    match a
    case AStr(s) => seq(|s|, k requires 0 <= k < |s| => AStr([s[k]]))
    case AList(items) => items
    case ANum(_) => []
  }

  /** What collecting a unit evidently means: a string is one unit, a list holds units,
      a number contributes nothing. */
  function UnitsOf(a: Attr): seq<Attr>
  {
    match a
    case AStr(s) => [a]
    case AList(items) => items
    case ANum(_) => []
  }

  /** The units one variable name contributes. A name that is not a string, or is not a
      variable of the dataset, raises inside the `try` and contributes nothing. */
  function VarUnits(name: Value, ds: Dataset, unitsOf: Attr -> seq<Attr>): seq<Attr>
  {
    if name.VStr? && name.s in ds then
      match UnitAttr(ds[name.s].attrs)
      case Some(a) => unitsOf(a)
      case None => []
    else []
  }

  /** The units collected over `names`, in order. */
  function CollectUnits(names: seq<Value>, ds: Dataset, unitsOf: Attr -> seq<Attr>): seq<Attr>
  {
    if names == [] then []
    else CollectUnits(names[..|names| - 1], ds, unitsOf) + VarUnits(names[|names| - 1], ds, unitsOf)
  }

  /** `__retrieve_var_units`: extends a list, variable by variable. `unitsOf` is what
      one `extend` adds: `UnitsOfAsWritten` for the code as written, `UnitsOf` for the
      corrected collection. */
  method RetrieveVarUnits(names: seq<Value>, ds: Dataset, unitsOf: Attr -> seq<Attr>) returns (units: seq<Attr>)
    ensures units == CollectUnits(names, ds, unitsOf)
  {
    units := [];
    var i := 0;
    while i < |names|
      invariant 0 <= i <= |names|
      invariant units == CollectUnits(names[..i], ds, unitsOf)
    {
      var each := names[i];
      if each.VStr? && each.s in ds {
        var unit := UnitAttr(ds[each.s].attrs);
        if unit.Some? {
          units := units + unitsOf(unit.value);
        }
      }
      assert names[..i + 1][..i] == names[..i];
      i := i + 1;
    }
    assert names[..i] == names;
  }

  /** The KELVIN SIGN, U+212A, whose lowercase is the letter `k`. */
  const KelvinSign: char := '\U{212A}'

  /** The part of `str.lower` that can make a unit equal a kelvin spelling: the ASCII
      capitals and the KELVIN SIGN, the only characters whose lowercase is made of ASCII
      letters alone. Every other character is kept: its Unicode lowercase holds a
      character that is neither an ASCII letter nor `_`, so it can no more match a
      kelvin spelling than the character kept. */
  function LowerChar(c: char): (r: char)
    ensures 'a' <= r <= 'z' || r == '_' <==> 'a' <= c <= 'z' || 'A' <= c <= 'Z' || c == '_' || c == KelvinSign
  {
    if 'A' <= c <= 'Z' then (c as int + 32) as char
    else if c == KelvinSign then 'k'
    else c
  }

  /** `str.lower`, character by character. */
  function Lower(s: string): (r: string)
    ensures |r| == |s| && forall k :: 0 <= k < |s| ==> r[k] == LowerChar(s[k])
  {
    seq(|s|, k requires 0 <= k < |s| => LowerChar(s[k]))
  }

  /** A unit that lowercases to a kelvin spelling is made of ASCII letters, underscores
      and KELVIN SIGNs: a unit holding any other character is never taken for kelvin. */
  lemma LowerKelvinAlphabet(s: string)
    requires Lower(s) in Kelvins
    ensures forall k :: 0 <= k < |s| ==> 'a' <= s[k] <= 'z' || 'A' <= s[k] <= 'Z' || s[k] == '_' || s[k] == KelvinSign
  {
    var r := Lower(s);
    assert forall u :: u in Kelvins ==> forall k :: 0 <= k < |u| ==> 'a' <= u[k] <= 'z' || u[k] == '_';
    forall k | 0 <= k < |s|
      ensures 'a' <= s[k] <= 'z' || 'A' <= s[k] <= 'Z' || s[k] == '_' || s[k] == KelvinSign
    {
      assert r[k] == LowerChar(s[k]);
    }
  }

  /** `"\u212Aelvin".lower() == "kelvin"`: a unit spelt with the KELVIN SIGN converts. */
  lemma KelvinSignUnit(d: TileData, codec: Codec)
    requires codec.loads("\"sst\"") == Some(VStr("sst"))
    ensures var ds := map["sst" := Variable([], map["units" := AStr([KelvinSign] + "elvin")])];
            Convert(d, "\"sst\"", Some(ds), codec) == Success(d.(variableData := ToCelsius(d.variableData)))
  {
    var ds := map["sst" := Variable([], map["units" := AStr([KelvinSign] + "elvin")])];
    assert [VStr("sst")][..0] == [];
    assert Lower([KelvinSign] + "elvin") == "kelvin";
    ConvertsIffKelvin(d, "\"sst\"", ds, codec);
  }

  /** `[k.lower() for k in variable_unit]`: None when some unit is not a string. */
  function Lowered(units: seq<Attr>): (r: Option<seq<string>>)
    ensures r.Some? <==> forall k :: 0 <= k < |units| ==> units[k].AStr?
    ensures r.Some? ==> |r.value| == |units| && forall k :: 0 <= k < |units| ==> r.value[k] == Lower(units[k].s)
  {
    if units == [] then Some([])
    else if !units[0].AStr? then None
    else
      var rest := Lowered(units[1..]);
      if rest.None? then None else Some([Lower(units[0].s)] + rest.value)
  }

  /** `any([unit in variable_unit for unit in kelvins])`. */
  predicate NamesKelvin(lowered: seq<string>)
  {
    exists u :: u in Kelvins && u in lowered
  }

  /** Every sample less 273.15; NaN and infinities stay as they are. */
  function ToCelsius(a: ShapedArray): (r: ShapedArray)
    ensures r.shape == a.shape && |r.values| == |a.values|
    ensures forall k :: 0 <= k < |a.values| ==> r.values[k] == SubConst(a.values[k], 273.15)
  {
    NdArray(a.shape, seq(|a.values|, k requires 0 <= k < |a.values| => SubConst(a.values[k], 273.15)))
  }

  /** The variable names `data_var_name` decodes to: a list as is, a scalar wrapped. */
  function NameList(v: Value): seq<Value>
  {
    if v.VList? then v.items else [v]
  }

  /** `KelvinToCelsius.process` on the tile's data, given the `dataset` keyword
      argument if there is one. */
  function Convert(d: TileData, dataVarName: string, dataset: Option<Dataset>, codec: Codec): Result<TileData, KelvinError>
  {
    if dataset.None? then Success(d)
    else
      var decoded := codec.loads(dataVarName);
      if decoded.None? then Failure(BadVariableName)
      else
        var units := CollectUnits(NameList(decoded.value), dataset.value, UnitsOf);
        if |units| < 1 then Success(d)
        else
          var lowered := Lowered(units);
          if lowered.None? then Failure(UnitNotText)
          else if NamesKelvin(lowered.value) then Success(d.(variableData := ToCelsius(d.variableData)))
          else Success(d)
  }

  /** `KelvinToCelsius.process`: replaces the tile's data when it converts; the summary
      and everything else in the tile stay. */
  method Process(tile: NexusTile, dataset: Option<Dataset>, codec: Codec) returns (r: Result<(), KelvinError>)
    modifies tile
    ensures var c := Convert(old(tile.tile), old(tile.summary.dataVarName), dataset, codec);
            (r.Success? <==> c.Success?) && (r.Failure? ==> c.error == r.error) &&
            tile.tile == (if c.Success? then c.value else old(tile.tile))
    ensures tile.summary == old(tile.summary) && tile.hasSummary == old(tile.hasSummary)
    ensures old(tile.Valid()) ==> tile.Valid()
  {
    if dataset.None? {
      return Success(());
    }
    var decoded := codec.loads(tile.summary.dataVarName);
    if decoded.None? {
      return Failure(BadVariableName);
    }
    var names := NameList(decoded.value);
    var units := RetrieveVarUnits(names, dataset.value, UnitsOf);
    if |units| < 1 {
      return Success(());
    }
    var lowered := Lowered(units);
    if lowered.None? {
      return Failure(UnitNotText);
    }
    if NamesKelvin(lowered.value) {
      tile.tile := tile.tile.(variableData := ToCelsius(tile.tile.variableData));
    }
    return Success(());
  }

  /** Without a dataset the tile is unchanged; with no units found it is unchanged. */
  lemma UnchangedWithoutUnits(d: TileData, dataVarName: string, dataset: Option<Dataset>, codec: Codec)
    requires dataset.None? ||
             (codec.loads(dataVarName).Some? &&
              CollectUnits(NameList(codec.loads(dataVarName).value), dataset.value, UnitsOf) == [])
    ensures Convert(d, dataVarName, dataset, codec) == Success(d)
  {
  }

  /** With a dataset and a decodable name, the tile fails exactly when some collected
      unit is not text, and otherwise is converted exactly when some collected unit,
      lowercased, is a kelvin spelling, every sample then dropping by 273.15. */
  lemma ConvertsIffKelvin(d: TileData, dataVarName: string, ds: Dataset, codec: Codec)
    requires codec.loads(dataVarName).Some?
    ensures var units := CollectUnits(NameList(codec.loads(dataVarName).value), ds, UnitsOf);
            Convert(d, dataVarName, Some(ds), codec) ==
              if units == [] then Success(d)
              else if exists k :: 0 <= k < |units| && !units[k].AStr? then Failure(UnitNotText)
              else if exists k :: 0 <= k < |units| && Lower(units[k].s) in Kelvins then
                Success(d.(variableData := ToCelsius(d.variableData)))
              else Success(d)
  {
    var units := CollectUnits(NameList(codec.loads(dataVarName).value), ds, UnitsOf);
    var lowered := Lowered(units);
    if lowered.Some? {
      if exists k :: 0 <= k < |units| && Lower(units[k].s) in Kelvins {
        var k :| 0 <= k < |units| && Lower(units[k].s) in Kelvins;
        assert lowered.value[k] == Lower(units[k].s);
      }
      if NamesKelvin(lowered.value) {
        var u :| u in Kelvins && u in lowered.value;
        var k :| 0 <= k < |lowered.value| && lowered.value[k] == u;
      }
    }
  }

  /** As written, a string unit is split into one-letter units, and no kelvin spelling
      has a single letter: a variable whose unit is a string never triggers conversion. */
  lemma StringUnitAsWrittenNeverKelvin(a: Attr)
    requires a.AStr?
    ensures var units := UnitsOfAsWritten(a);
            forall k :: 0 <= k < |units| ==> units[k].AStr? && |units[k].s| == 1 && Lower(units[k].s) !in Kelvins
  {
  }

  lemma LettersOfKelvin()
    ensures UnitsOfAsWritten(AStr("kelvin")) == [AStr("k"), AStr("e"), AStr("l"), AStr("v"), AStr("i"), AStr("n")]
  {
    var u := UnitsOfAsWritten(AStr("kelvin"));
    assert |u| == 6;
    assert u[0] == AStr("k") && u[1] == AStr("e") && u[2] == AStr("l");
    assert u[3] == AStr("v") && u[4] == AStr("i") && u[5] == AStr("n");
  }

  /** A variable whose `units` attribute is the string "kelvin": as written it yields the
      units "k", "e", "l", "v", "i", "n" and the data is left in kelvin; collected as one
      unit it names kelvin and the data is converted. */
  lemma KelvinStringUnit(d: TileData, codec: Codec)
    requires codec.loads("\"sst\"") == Some(VStr("sst"))
    ensures var ds := map["sst" := Variable([], map["units" := AStr("kelvin")])];
            var asWritten := CollectUnits([VStr("sst")], ds, UnitsOfAsWritten);
            asWritten == [AStr("k"), AStr("e"), AStr("l"), AStr("v"), AStr("i"), AStr("n")] &&
            (forall k :: 0 <= k < |asWritten| ==> Lower(asWritten[k].s) !in Kelvins) &&
            CollectUnits([VStr("sst")], ds, UnitsOf) == [AStr("kelvin")] &&
            Convert(d, "\"sst\"", Some(ds), codec) == Success(d.(variableData := ToCelsius(d.variableData)))
  {
    var ds := map["sst" := Variable([], map["units" := AStr("kelvin")])];
    assert [VStr("sst")][..0] == [];
    assert CollectUnits([VStr("sst")], ds, UnitsOfAsWritten) == UnitsOfAsWritten(AStr("kelvin"));
    LettersOfKelvin();
    StringUnitAsWrittenNeverKelvin(AStr("kelvin"));
    assert Lower("kelvin") == "kelvin";
    ConvertsIffKelvin(d, "\"sst\"", ds, codec);
  }
}
