/** ForceAscendingLatitude: when a tile's latitudes descend, reverses them and the data
    rows so that latitudes ascend. */
module ForceAscendingLatitude {
  import opened Wrappers
  import opened Samples
  import opened Arrays
  import opened Tiles

  /** The exceptions `process` lets out. */
  datatype FlipError =
    | AxisError        // `numpy.flip` along an axis the data does not have
    | UnsizedLatitude  // TypeError: `len()` of a zero-dimensional latitude array
    | AmbiguousTruth   // ValueError: `if delta < 0` on a row of more than one latitude

  /** A row of latitudes holds more than one value: the latitude array has two or more
      axes, and the axes after the first hold more than one element between them. */
  predicate WideRows(shape: seq<nat>)
  {
    |shape| > 1 && Product(shape[1..]) > 1
  }

  /** `len(latitudes) > 1` and then `latitudes[1] - latitudes[0] < 0`. `len` counts the
      rows; with rows of one double the test compares doubles (the difference of two
      distinct finite doubles is never zero and keeps its sign, and NaN compares false),
      and rows of no double are empty, whose truth value numpy 1.x takes as false. The
      rows of a two-dimensional swath latitude hold several doubles, and asking the
      truth value of their differences raises. */
  function Descending(lat: seq<Sample>, shape: seq<nat>): (r: Result<bool, FlipError>)
    ensures r == Failure(UnsizedLatitude) <==> shape == []
    ensures r == Failure(AmbiguousTruth) <==> shape != [] && shape[0] > 1 && WideRows(shape)
    ensures r == Success(true) ==> shape[0] > 1 && |lat| > 1 && Lt(lat[1], lat[0])
    ensures shape != [] && shape[0] > 1 && !WideRows(shape) ==> r == Success(|lat| > 1 && Lt(lat[1], lat[0]))
  {
    if shape == [] then Failure(UnsizedLatitude)
    else if shape[0] <= 1 then Success(false)
    else if WideRows(shape) then Failure(AmbiguousTruth)
    else Success(|lat| > 1 && Lt(lat[1], lat[0]))
  }

  /** The flip as written: latitude reversed, data flipped along axis 0, whatever axis
      of the data the latitude is. `numpy.flip` without an axis reverses every axis of
      the latitudes, which reverses their row-major values. */
  function AscendingAsWritten(d: TileData): Result<TileData, FlipError>
  {
    var descending :- Descending(d.latitude, d.latitudeShape);
    if !descending then Success(d)
    else if d.variableData.shape == [] then Failure(AxisError)
    else Success(d.(latitude := Reverse(d.latitude), variableData := FlipAxis(d.variableData, 0)))
  }

  /** The flip with the data flipped along its latitude axis `latAxis`. */
  function Ascending(d: TileData, latAxis: nat): Result<TileData, FlipError>
  {
    var descending :- Descending(d.latitude, d.latitudeShape);
    if !descending then Success(d)
    else if latAxis >= |d.variableData.shape| then Failure(AxisError)
    else Success(d.(latitude := Reverse(d.latitude), variableData := FlipAxis(d.variableData, latAxis)))
  }

  /** `ForceAscendingLatitude.process`, flipping the data along its latitude axis. Only
      the latitude and the data of the tile are replaced. */
  method Process(tile: NexusTile, latAxis: nat) returns (r: Result<(), FlipError>)
    modifies tile
    ensures r.Success? <==> Ascending(old(tile.tile), latAxis).Success?
    ensures tile.tile == (if r.Success? then Ascending(old(tile.tile), latAxis).value else old(tile.tile))
    ensures tile.summary == old(tile.summary) && tile.hasSummary == old(tile.hasSummary)
    ensures old(tile.Valid()) ==> tile.Valid()
  {
    var d := tile.tile;
    var lat := d.latitude;
    var shape := d.latitudeShape;
    var data := d.variableData;
    if shape == [] {
      return Failure(UnsizedLatitude);
    }
    if shape[0] > 1 {
      if WideRows(shape) {
        return Failure(AmbiguousTruth);
      }
      if |lat| > 1 && Lt(lat[1], lat[0]) {
        lat := Reverse(lat);
        if latAxis >= |data.shape| {
          return Failure(AxisError);
        }
        data := FlipAxis(data, latAxis);
        tile.tile := tile.tile.(latitude := lat);
        tile.tile := tile.tile.(variableData := data);
      }
    }
    return Success(());
  }

  /** With fewer than two latitude rows, or latitudes that do not descend, nothing
      changes. */
  lemma UnchangedUnlessDescending(d: TileData, latAxis: nat)
    requires d.latitudeShape != []
    requires d.latitudeShape[0] <= 1 || (!WideRows(d.latitudeShape) && (|d.latitude| <= 1 || !Lt(d.latitude[1], d.latitude[0])))
    ensures Ascending(d, latAxis) == Success(d) && AscendingAsWritten(d) == Success(d)
  {
  }

  /** A swath latitude of several rows of several doubles makes `if delta < 0` raise,
      as written and corrected; a zero-dimensional latitude makes `len` raise. */
  lemma SwathLatitudeRaises(d: TileData, latAxis: nat)
    ensures d.latitudeShape == [] ==>
              Ascending(d, latAxis) == Failure(UnsizedLatitude) && AscendingAsWritten(d) == Failure(UnsizedLatitude)
    ensures d.latitudeShape != [] && d.latitudeShape[0] > 1 && WideRows(d.latitudeShape) ==>
              Ascending(d, latAxis) == Failure(AmbiguousTruth) && AscendingAsWritten(d) == Failure(AmbiguousTruth)
  {
  }

  /** After a flip the first latitude is the former last one, and every latitude `i` is
      the former latitude `n - 1 - i`; a strictly descending latitude axis comes out
      strictly ascending. */
  lemma FlippedLatitudes(d: TileData, latAxis: nat)
    requires Ascending(d, latAxis).Success? && Descending(d.latitude, d.latitudeShape) == Success(true)
    ensures var lat, n := Ascending(d, latAxis).value.latitude, |d.latitude|;
            |lat| == n && lat[0] == d.latitude[n - 1] &&
            (forall i :: 0 <= i < n ==> lat[i] == d.latitude[n - 1 - i]) &&
            ((forall i, j :: 0 <= i < j < n ==> Lt(d.latitude[j], d.latitude[i])) ==>
               forall i, j :: 0 <= i < j < n ==> Lt(lat[i], lat[j]))
  {
    if forall i, j :: 0 <= i < j < |d.latitude| ==> Lt(d.latitude[j], d.latitude[i]) {
      DescendingReversesToAscending(d.latitude);
    }
  }

  /** The `o` outer blocks of `d` latitude rows of `b` elements each of a flattened
      array: row `i` of block `p`. */
  function Row(v: seq<Sample>, o: nat, d: nat, b: nat, p: nat, i: nat): seq<Sample>
    requires |v| == o * (d * b) && p < o && i < d
  {
    Rows(Rows(v, o, d * b)[p], d, b)[i]
  }

  /** The intended property: every latitude keeps its data row. When the latitude axis
      has as many entries as the latitude array, latitude `i` and data row `i` (within
      every block of outer axes) are the former latitude and data row `n - 1 - i`. */
  lemma FlipKeepsRowsWithLatitudes(d: TileData, latAxis: nat)
    requires Ascending(d, latAxis).Success? && Descending(d.latitude, d.latitudeShape) == Success(true)
    requires latAxis < |d.variableData.shape| && d.variableData.shape[latAxis] == |d.latitude|
    ensures var a, t := d.variableData, Ascending(d, latAxis).value;
            var o, n, b := Product(a.shape[..latAxis]), a.shape[latAxis], Product(a.shape[latAxis + 1..]);
            |a.values| == o * (n * b) && |t.variableData.values| == |a.values| &&
            forall p, i :: 0 <= p < o && 0 <= i < n ==>
              t.latitude[i] == d.latitude[n - 1 - i] &&
              Row(t.variableData.values, o, n, b, p, i) == Row(a.values, o, n, b, p, n - 1 - i)
  {
    var a := d.variableData;
    var o, n, b := Product(a.shape[..latAxis]), a.shape[latAxis], Product(a.shape[latAxis + 1..]);
    ProductSplit(a.shape, latAxis);
    FlipBlocksBlocks(a.values, o, n, b);
    forall p | 0 <= p < o
      ensures Rows(Rows(FlipBlocks(a.values, o, n, b), o, n * b)[p], n, b) == Reverse(Rows(Rows(a.values, o, n * b)[p], n, b))
    {
      FlipRowsRows(Rows(a.values, o, n * b)[p], n, b);
    }
  }

  /** As written, the data of a multi-variable grid tile, whose axis 0 is a single time
      step, is left as it was while its latitudes are reversed: latitude `i` then sits
      beside the data row of latitude `n - 1 - i`. */
  lemma AsWrittenLeavesTimeFirstDataUnflipped(d: TileData)
    requires Descending(d.latitude, d.latitudeShape) == Success(true)
    requires |d.variableData.shape| > 1 && d.variableData.shape[0] == 1
    ensures AscendingAsWritten(d).Success?
    ensures AscendingAsWritten(d).value.variableData == d.variableData
    ensures AscendingAsWritten(d).value.latitude == Reverse(d.latitude)
  {
    var a := d.variableData;
    FlipAxisZero(a);
    FlipOneRow(a.values, Product(a.shape[1..]));
  }

  /** On a grid tile, whose latitude is axis 0, the code as written and the intended flip
      agree. */
  lemma AsWrittenAgreesOnAxisZero(d: TileData)
    ensures AscendingAsWritten(d) == Ascending(d, 0)
  {
  }
}
