/** MultiBandUtils: the stacked bands of a multi-variable tile come with the band axis
    first, and are transposed so that the band axis is last. */
module MultiBandUtils {
  import opened Samples
  import opened Arrays

  /** The name of the band axis. */
  const Band := "band"

  /** `move_band_dimension`: the dimension names with "band" appended, and the transpose
      order `(1, 2, ..., n, 0)` for the stacked array whose axis 0 is the band. */
  function MoveBandDimension(dims: seq<string>): (r: (seq<string>, seq<nat>))
    ensures r.0 == dims + [Band] && |r.0| == |dims| + 1
    ensures |r.1| == |dims| + 1 && r.1[|dims|] == 0
    ensures forall i :: 0 <= i < |dims| ==> r.1[i] == i + 1
  {
    var updated := dims + [Band];
    (updated, seq(|updated| - 1, k requires 0 <= k < |updated| - 1 => k + 1) + [0])
  }

  /** The transpose order is a permutation of the `n + 1` axes, so every axis, band
      included, is named once. */
  lemma OrderIsPermutation(dims: seq<string>)
    ensures IsPermutation(MoveBandDimension(dims).1, |dims| + 1)
    ensures forall a :: 0 <= a <= |dims| ==> a in MoveBandDimension(dims).1
  {
    var order := MoveBandDimension(dims).1;
    forall a | 0 <= a <= |dims|
      ensures a in order
    {
      if a == 0 {
        assert order[|dims|] == a;
      } else {
        assert order[a - 1] == a;
      }
    }
  }

  /** Transposing the stacked shape `[bands] + pixel shape` by the order puts the band
      axis last. */
  lemma BandShapeLast(dims: seq<string>, pixels: seq<nat>, bands: nat)
    requires |pixels| == |dims|
    ensures TransposeShape([bands] + pixels, MoveBandDimension(dims).1) == pixels + [bands]
  {
  }

  /** The stacked data laid out in row-major order after the transpose: pixel by pixel,
      the values of every band of that pixel. */
  function BandLast<T>(stacked: seq<seq<T>>, pixels: nat): (r: seq<T>)
    requires forall b :: 0 <= b < |stacked| ==> |stacked[b]| == pixels
    ensures |r| == pixels * |stacked|
    ensures Rows(r, pixels, |stacked|) == seq(pixels, p requires 0 <= p < pixels => seq(|stacked|, b requires 0 <= b < |stacked| => stacked[b][p]))
  {
    var rows := seq(pixels, p requires 0 <= p < pixels => seq(|stacked|, b requires 0 <= b < |stacked| => stacked[b][p]));
    RowsFlatten(rows, |stacked|);
    Flatten(rows)
  }

  /** `numpy.ma.filled` of the list of band arrays: the bands stacked along a new first
      axis, band `b` being block `b` of the row-major values. */
  function Stack(bands: seq<seq<Sample>>, pixels: seq<nat>): (r: ShapedArray)
    requires forall b :: 0 <= b < |bands| ==> |bands[b]| == Product(pixels)
    ensures r.shape == [|bands|] + pixels
  {
    FlattenLength(bands, Product(pixels));
    NdArray([|bands|] + pixels, Flatten(bands))
  }

  /** Entry `[b] + idx` of the stack is entry `idx` of band `b`. */
  lemma StackAt(bands: seq<seq<Sample>>, pixels: seq<nat>, b: nat, idx: seq<nat>)
    requires forall k :: 0 <= k < |bands| ==> |bands[k]| == Product(pixels)
    requires b < |bands| && InBounds(idx, pixels)
    ensures Ravel(idx, pixels) < Product(pixels)
    ensures Ravel([b] + idx, [|bands|] + pixels) < |Stack(bands, pixels).values|
    ensures Stack(bands, pixels).values[Ravel([b] + idx, [|bands|] + pixels)] == bands[b][Ravel(idx, pixels)]
  {
    RavelBound(idx, pixels);
    RavelPrepend(idx, pixels, b, |bands|);
    FlattenAt(bands, Product(pixels), b, Ravel(idx, pixels));
  }

  /** The result multi-index `idx + [b]` (pixel `idx`, band `b`) reads the stacked
      multi-index `[b] + idx` under the transpose order. */
  lemma ScatterBandLast(dims: seq<string>, idx: seq<nat>, b: nat)
    requires |idx| == |dims|
    ensures IsPermutation(MoveBandDimension(dims).1, |dims| + 1)
    ensures Scatter(idx + [b], MoveBandDimension(dims).1) == [b] + idx
  {
    OrderIsPermutation(dims);
    var order := MoveBandDimension(dims).1;
    var r := Scatter(idx + [b], order);
    assert r[order[|dims|]] == b;
    forall i | 0 <= i < |dims|
      ensures r[i + 1] == idx[i]
    {
      assert r[order[i]] == (idx + [b])[i];
    }
    assert r == [b] + idx;
  }

  /** Position `k` of the band-last layout holds band `k % m` at pixel `k / m`. */
  lemma BandLastEntry<T>(bands: seq<seq<T>>, n: nat, k: nat)
    requires forall b :: 0 <= b < |bands| ==> |bands[b]| == n
    requires k < n * |bands|
    ensures |bands| > 0 && k / |bands| < n
    ensures k < |BandLast(bands, n)| && BandLast(bands, n)[k] == bands[k % |bands|][k / |bands|]
  {
    var m := |bands|;
    QuotientBound(k, n, m);
    var last := BandLast(bands, n);
    var rows := Rows(last, n, m);
    FlattenAt(rows, m, k / m, k % m);
    FlattenRows(last, n, m);
  }

  /** The value of band `b` at pixel `idx` of the transposed data is pixel `idx` of band
      `b`: `variable_data[..., b] == band_b_data[...]`. */
  lemma BandLastAt(dims: seq<string>, pixels: seq<nat>, bands: seq<seq<Sample>>, idx: seq<nat>, b: nat)
    requires |pixels| == |dims|
    requires forall k :: 0 <= k < |bands| ==> |bands[k]| == Product(pixels)
    requires InBounds(idx, pixels) && b < |bands|
    ensures IsPermutation(MoveBandDimension(dims).1, |dims| + 1)
    ensures Ravel(idx, pixels) < Product(pixels)
    ensures Ravel(idx + [b], pixels + [|bands|]) < |Transpose(Stack(bands, pixels), MoveBandDimension(dims).1).values|
    ensures Transpose(Stack(bands, pixels), MoveBandDimension(dims).1).values[Ravel(idx + [b], pixels + [|bands|])]
            == bands[b][Ravel(idx, pixels)]
  {
    OrderIsPermutation(dims);
    var order := MoveBandDimension(dims).1;
    var a := Stack(bands, pixels);
    BandShapeLast(dims, pixels, |bands|);
    assert TransposeShape(a.shape, order) == pixels + [|bands|];
    TransposeAt(a.shape, a.values, order, idx + [b]);
    ScatterBandLast(dims, idx, b);
    StackAt(bands, pixels, b, idx);
  }

  /** Position `k` of the transposed stack holds band `k % m` at pixel `k / m`. */
  lemma TransposedEntry(dims: seq<string>, pixels: seq<nat>, bands: seq<seq<Sample>>, k: nat)
    requires |pixels| == |dims|
    requires forall b :: 0 <= b < |bands| ==> |bands[b]| == Product(pixels)
    requires k < Product(pixels) * |bands|
    ensures IsPermutation(MoveBandDimension(dims).1, |dims| + 1)
    ensures |bands| > 0 && k / |bands| < Product(pixels)
    ensures k < |Transpose(Stack(bands, pixels), MoveBandDimension(dims).1).values|
    ensures Transpose(Stack(bands, pixels), MoveBandDimension(dims).1).values[k]
            == bands[k % |bands|][k / |bands|]
  {
    var m, n := |bands|, Product(pixels);
    QuotientBound(k, n, m);
    var p, b := k / m, k % m;
    assert k == p * m + b;
    var idx := Unravel(p, pixels);
    RavelAppend(idx, pixels, b, m);
    assert Ravel(idx + [b], pixels + [m]) == k;
    BandLastAt(dims, pixels, bands, idx, b);
  }

  /** `data_subset.transpose(updated_dims_indices)` moves the band axis from first to
      last: the transposed stack is the band-last layout of the bands. */
  lemma TransposeMovesBandLast(dims: seq<string>, pixels: seq<nat>, bands: seq<seq<Sample>>)
    requires |pixels| == |dims|
    requires forall b :: 0 <= b < |bands| ==> |bands[b]| == Product(pixels)
    ensures IsPermutation(MoveBandDimension(dims).1, |dims| + 1)
    ensures Transpose(Stack(bands, pixels), MoveBandDimension(dims).1)
            == NdArray(pixels + [|bands|], BandLast(bands, Product(pixels)))
  {
    OrderIsPermutation(dims);
    var t := Transpose(Stack(bands, pixels), MoveBandDimension(dims).1);
    var last := BandLast(bands, Product(pixels));
    BandShapeLast(dims, pixels, |bands|);
    ProductAppend(pixels, |bands|);
    forall k | 0 <= k < |last|
      ensures t.values[k] == last[k]
    {
      TransposedEntry(dims, pixels, bands, k);
      BandLastEntry(bands, Product(pixels), k);
    }
  }

}
