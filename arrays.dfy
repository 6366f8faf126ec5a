/** Row-major n-dimensional arrays and the numpy reshaping the processors apply to
    them: `numpy.flip` along one axis and `numpy.transpose` by an axis order. */
module Arrays {
  import opened Samples

  /** The number of elements of an array of the given shape. */
  function Product(shape: seq<nat>): nat
  {
    if shape == [] then 1 else shape[0] * Product(shape[1..])
  }

  /** A decoded ShapedArray: its shape and its elements in row-major order. */
  datatype NdArray = NdArray(shape: seq<nat>, values: seq<Sample>)

  /** `from_shaped_array` only ever yields arrays whose element count fits their shape. */
  type ShapedArray = a: NdArray | |a.values| == Product(a.shape) witness NdArray([], [NaN])

  /** `numpy.flip` of a one-dimensional array. */
  function Reverse<T>(s: seq<T>): (r: seq<T>)
    ensures |r| == |s| && forall k :: 0 <= k < |s| ==> r[k] == s[|s| - 1 - k]
  {
    if s == [] then [] else Reverse(s[1..]) + [s[0]]
  }

  /** Reversing a strictly descending sequence gives a strictly ascending one. */
  lemma DescendingReversesToAscending(s: seq<Sample>)
    requires forall i, j :: 0 <= i < j < |s| ==> Lt(s[j], s[i])
    ensures forall i, j :: 0 <= i < j < |s| ==> Lt(Reverse(s)[i], Reverse(s)[j])
  {
  }

  lemma Distrib(x: nat, b: nat)
    requires x > 0
    ensures x * b == b + (x - 1) * b
  {
  }

  /** The `d` consecutive rows of `b` elements that make up `v`. */
  function Rows<T>(v: seq<T>, d: nat, b: nat): (r: seq<seq<T>>)
    requires |v| == d * b
    ensures |r| == d && forall i :: 0 <= i < d ==> |r[i]| == b
    decreases d
  {
    if d == 0 then []
    else
      Distrib(d, b);
      [v[..b]] + Rows(v[b..], d - 1, b)
  }

  /** The rows laid end to end. */
  function Flatten<T>(rs: seq<seq<T>>): seq<T>
  {
    if rs == [] then [] else rs[0] + Flatten(rs[1..])
  }

  lemma {:induction false} FlattenLength<T>(rs: seq<seq<T>>, b: nat)
    requires forall i :: 0 <= i < |rs| ==> |rs[i]| == b
    ensures |Flatten(rs)| == |rs| * b
  {
    if rs != [] {
      FlattenLength(rs[1..], b);
      Distrib(|rs|, b);
    }
  }

  /** Cutting into rows and laying them end to end gives back the elements. */
  lemma {:induction false} FlattenRows<T>(v: seq<T>, d: nat, b: nat)
    requires |v| == d * b
    ensures Flatten(Rows(v, d, b)) == v
  {
    if d > 0 {
      Distrib(d, b);
      FlattenRows(v[b..], d - 1, b);
      assert Rows(v, d, b)[1..] == Rows(v[b..], d - 1, b);
    }
  }

  /** Laying rows end to end and cutting again gives back the rows. */
  lemma {:induction false} RowsFlatten<T>(rs: seq<seq<T>>, b: nat)
    requires forall i :: 0 <= i < |rs| ==> |rs[i]| == b
    ensures |Flatten(rs)| == |rs| * b && Rows(Flatten(rs), |rs|, b) == rs
  {
    FlattenLength(rs, b);
    if rs != [] {
      RowsFlatten(rs[1..], b);
      var f := Flatten(rs);
      assert f[..b] == rs[0] && f[b..] == Flatten(rs[1..]);
    }
  }

  /** `numpy.flip` along the outer axis of `d` rows of `b` elements. */
  function FlipRows<T>(v: seq<T>, d: nat, b: nat): (r: seq<T>)
    requires |v| == d * b
    ensures |r| == |v|
  {
    FlattenLength(Reverse(Rows(v, d, b)), b);
    Flatten(Reverse(Rows(v, d, b)))
  }

  /** Row `i` of the flipped array is row `d - 1 - i` of the original. */
  lemma FlipRowsRows<T>(v: seq<T>, d: nat, b: nat)
    requires |v| == d * b
    ensures Rows(FlipRows(v, d, b), d, b) == Reverse(Rows(v, d, b))
  {
    RowsFlatten(Reverse(Rows(v, d, b)), b);
  }

  /** Flipping a single row changes nothing. */
  lemma FlipOneRow<T>(v: seq<T>, b: nat)
    requires |v| == 1 * b
    ensures FlipRows(v, 1, b) == v
  {
    FlattenRows(v, 1, b);
  }

  /** Flips every block as rows of `b` elements. */
  function FlipEach<T>(blocks: seq<seq<T>>, d: nat, b: nat): (r: seq<seq<T>>)
    requires forall p :: 0 <= p < |blocks| ==> |blocks[p]| == d * b
    ensures |r| == |blocks|
    ensures forall p :: 0 <= p < |blocks| ==> r[p] == FlipRows(blocks[p], d, b) && |r[p]| == d * b
  {
    if blocks == [] then [] else [FlipRows(blocks[0], d, b)] + FlipEach(blocks[1..], d, b)
  }

  /** `o` consecutive blocks of `d` rows of `b` elements, each block's rows reversed. */
  function FlipBlocks<T>(v: seq<T>, o: nat, d: nat, b: nat): (r: seq<T>)
    requires |v| == o * (d * b)
    ensures |r| == |v|
  {
    var flipped := FlipEach(Rows(v, o, d * b), d, b);
    FlattenLength(flipped, d * b);
    Flatten(flipped)
  }

  /** Block `p` of the result is block `p` of the input with its rows reversed. */
  lemma FlipBlocksBlocks<T>(v: seq<T>, o: nat, d: nat, b: nat)
    requires |v| == o * (d * b)
    ensures forall p :: 0 <= p < o ==>
              Rows(FlipBlocks(v, o, d, b), o, d * b)[p] == FlipRows(Rows(v, o, d * b)[p], d, b)
  {
    RowsFlatten(FlipEach(Rows(v, o, d * b), d, b), d * b);
  }

  /** The element count splits around any axis: the axes before it, the axis, and the
      axes after it. */
  lemma {:induction false} ProductSplit(shape: seq<nat>, axis: nat)
    requires axis < |shape|
    ensures Product(shape) == Product(shape[..axis]) * (shape[axis] * Product(shape[axis + 1..]))
  {
    if axis == 0 {
      assert shape[..0] == [];
    } else {
      var t := shape[1..];
      ProductSplit(t, axis - 1);
      assert t[..axis - 1] == shape[1..axis] && t[axis - 1] == shape[axis] && t[axis..] == shape[axis + 1..];
      assert shape[..axis][1..] == shape[1..axis];
      var x, y := Product(shape[1..axis]), shape[axis] * Product(shape[axis + 1..]);
      assert Product(shape[..axis]) == shape[0] * x;
      assert Product(shape) == shape[0] * Product(t);
      MulAssoc(shape[0], x, y);
    }
  }

  lemma MulAssoc(a: nat, b: nat, c: nat)
    ensures a * (b * c) == (a * b) * c
  {
  }

  /** `numpy.flip(a, axis)`: reverses the order of the entries along one axis. */
  function FlipAxis(a: ShapedArray, axis: nat): (r: ShapedArray)
    requires axis < |a.shape|
    ensures r.shape == a.shape
  {
    ProductSplit(a.shape, axis);
    NdArray(a.shape, FlipBlocks(a.values, Product(a.shape[..axis]), a.shape[axis], Product(a.shape[axis + 1..])))
  }

  /** Flipping axis 0 reverses the order of the outermost rows. */
  lemma FlipAxisZero(a: ShapedArray)
    requires |a.shape| > 0
    ensures |a.values| == a.shape[0] * Product(a.shape[1..])
    ensures FlipAxis(a, 0).values == FlipRows(a.values, a.shape[0], Product(a.shape[1..]))
  {
    assert a.shape[..0] == [];
    var m := a.shape[0] * Product(a.shape[1..]);
    assert a.values[..m] == a.values;
    assert Rows(a.values, 1, m) == [a.values[..m]] + Rows(a.values[m..], 0, m);
  }

  /** A multi-index that lies inside the shape. */
  predicate InBounds(idx: seq<nat>, shape: seq<nat>)
  {
    |idx| == |shape| && forall i :: 0 <= i < |shape| ==> idx[i] < shape[i]
  }

  /** The row-major position of the multi-index `idx`: the last axis varies fastest. */
  function Ravel(idx: seq<nat>, shape: seq<nat>): nat
    requires |idx| == |shape|
  {
    if shape == [] then 0 else idx[0] * Product(shape[1..]) + Ravel(idx[1..], shape[1..])
  }

  lemma RowBound(i: nat, n: nat, r: nat, p: nat)
    requires i < n && r < p
    ensures i * p + r < n * p
  {
    assert i * p + p <= n * p by {
      assert (i + 1) * p <= n * p;
    }
  }

  /** An index inside the shape has a position inside the array. */
  lemma {:induction false} RavelBound(idx: seq<nat>, shape: seq<nat>)
    requires InBounds(idx, shape)
    ensures Ravel(idx, shape) < Product(shape)
  {
    if shape != [] {
      RavelBound(idx[1..], shape[1..]);
      RowBound(idx[0], shape[0], Ravel(idx[1..], shape[1..]), Product(shape[1..]));
    }
  }

  lemma MulAtLeast(d: int, p: int)
    requires p >= 0
    ensures d >= 1 ==> d * p >= p
    ensures d <= -1 ==> d * p <= 0 - p
  {
  }

  lemma QuotientBound(k: nat, n: nat, p: nat)
    requires k < n * p
    ensures p > 0 && k / p < n
  {
    MulAtLeast(k / p - n + 1, p);
    assert k == (k / p) * p + k % p;
    assert (k / p - n + 1) * p == (k / p) * p - n * p + p;
  }

  /** Position `k` lies in row `k / p` of the first axis, at offset `k % p` within
      the row, where `p` is the size of one row. */
  lemma SplitPosition(k: nat, shape: seq<nat>)
    requires shape != [] && k < Product(shape)
    ensures var p := Product(shape[1..]);
            p > 0 && k / p < shape[0] && k % p < p && (k / p) * p + k % p == k
  {
    var p := Product(shape[1..]);
    assert Product(shape) == shape[0] * p;
    QuotientBound(k, shape[0], p);
  }

  /** Prepending a row index `q` to an index of the rest of the shape. */
  lemma PrependIndex(q: nat, rest: seq<nat>, shape: seq<nat>)
    requires shape != [] && q < shape[0] && InBounds(rest, shape[1..])
    ensures InBounds([q] + rest, shape)
    ensures Ravel([q] + rest, shape) == q * Product(shape[1..]) + Ravel(rest, shape[1..])
  {
    var r := [q] + rest;
    assert r[1..] == rest;
    assert forall i :: 1 <= i < |shape| ==> r[i] == rest[i - 1];
  }

  /** The multi-index of position `k`; `Ravel` undoes it. */
  function Unravel(k: nat, shape: seq<nat>): (r: seq<nat>)
    requires k < Product(shape)
    ensures InBounds(r, shape) && Ravel(r, shape) == k
    decreases |shape|
  {
    if shape == [] then []
    else
      var p := Product(shape[1..]);
      SplitPosition(k, shape);
      var q, m := k / p, k % p;
      var rest := Unravel(m, shape[1..]);
      PrependIndex(q, rest, shape);
      [q] + rest
  }

  /** A transpose order of `n` axes: every axis appears exactly once. */
  predicate IsPermutation(order: seq<nat>, n: nat)
  {
    |order| == n &&
    (forall i :: 0 <= i < n ==> order[i] < n) &&
    (forall i, j :: 0 <= i < j < n ==> order[i] != order[j]) &&
    (forall a :: 0 <= a < n ==> a in order)
  }

  /** `numpy.transpose` of a shape: axis `i` of the result is axis `order[i]`. */
  function TransposeShape(shape: seq<nat>, order: seq<nat>): (r: seq<nat>)
    requires forall i :: 0 <= i < |order| ==> order[i] < |shape|
    ensures |r| == |order| && forall i :: 0 <= i < |order| ==> r[i] == shape[order[i]]
  {
    seq(|order|, i requires 0 <= i < |order| => shape[order[i]])
  }

  /** The result axis that input axis `a` becomes. */
  function AxisOf(order: seq<nat>, a: nat): (i: nat)
    requires a in order
    ensures i < |order| && order[i] == a
  {
    if order[0] == a then 0 else 1 + AxisOf(order[1..], a)
  }

  /** The input multi-index that result multi-index `j` reads: its axis `order[i]` is
      `j[i]`. */
  function Scatter(j: seq<nat>, order: seq<nat>): (r: seq<nat>)
    requires |j| == |order| && IsPermutation(order, |order|)
    ensures |r| == |order| && forall i :: 0 <= i < |order| ==> r[order[i]] == j[i]
  {
    var r := seq(|order|, a requires 0 <= a < |order| => j[AxisOf(order, a)]);
    assert forall i :: 0 <= i < |order| ==> AxisOf(order, order[i]) == i;
    r
  }

  /** A result index inside the transposed shape reads an input index inside the shape. */
  lemma ScatterInBounds(j: seq<nat>, shape: seq<nat>, order: seq<nat>)
    requires IsPermutation(order, |shape|) && InBounds(j, TransposeShape(shape, order))
    ensures InBounds(Scatter(j, order), shape)
  {
    var r := Scatter(j, order);
    forall a | 0 <= a < |shape|
      ensures r[a] < shape[a]
    {
      var i := AxisOf(order, a);
      assert r[order[i]] == j[i];
    }
  }

  /** `numpy.transpose(values, order)` of an array laid out row-major in `shape`: element
      `j` of the result is element `Scatter(j, order)` of the input. */
  function TransposeValues<T>(shape: seq<nat>, values: seq<T>, order: seq<nat>): (r: seq<T>)
    requires |values| == Product(shape) && IsPermutation(order, |shape|)
    ensures |r| == Product(TransposeShape(shape, order))
  {
    var t := TransposeShape(shape, order);
    seq(Product(t), k requires 0 <= k < Product(t) =>
      var j := Unravel(k, t);
      ScatterInBounds(j, shape, order);
      RavelBound(Scatter(j, order), shape);
      values[Ravel(Scatter(j, order), shape)])
  }

  /** The element at result index `j` is the input element at `Scatter(j, order)`. */
  lemma TransposeAt<T>(shape: seq<nat>, values: seq<T>, order: seq<nat>, j: seq<nat>)
    requires |values| == Product(shape) && IsPermutation(order, |shape|)
    requires InBounds(j, TransposeShape(shape, order))
    ensures InBounds(Scatter(j, order), shape)
    ensures Ravel(j, TransposeShape(shape, order)) < Product(TransposeShape(shape, order))
    ensures Ravel(Scatter(j, order), shape) < Product(shape)
    ensures TransposeValues(shape, values, order)[Ravel(j, TransposeShape(shape, order))]
            == values[Ravel(Scatter(j, order), shape)]
  {
    var t := TransposeShape(shape, order);
    ScatterInBounds(j, shape, order);
    RavelBound(Scatter(j, order), shape);
    RavelBound(j, t);
    UnravelRavel(j, t);
  }

  /** `Unravel` undoes `Ravel` as well. */
  lemma {:induction false} UnravelRavel(idx: seq<nat>, shape: seq<nat>)
    requires InBounds(idx, shape)
    ensures Ravel(idx, shape) < Product(shape) && Unravel(Ravel(idx, shape), shape) == idx
  {
    RavelBound(idx, shape);
    if shape != [] {
      var p := Product(shape[1..]);
      var rest := Ravel(idx[1..], shape[1..]);
      UnravelRavel(idx[1..], shape[1..]);
      RavelBound(idx[1..], shape[1..]);
      DivMod(idx[0] * p + rest, p, idx[0], rest);
      assert idx == [idx[0]] + idx[1..];
    }
  }

  /** Division with remainder is unique. */
  lemma DivMod(k: nat, p: nat, q: nat, r: nat)
    requires k == q * p + r && r < p
    ensures k / p == q && k % p == r
  {
    var q', r' := k / p, k % p;
    assert k == q' * p + r';
    assert (q - q') * p == r' - r;
    MulAtLeast(q - q', p);
  }

  /** `numpy.transpose(a, order)`. */
  function Transpose(a: ShapedArray, order: seq<nat>): (r: NdArray)
    requires IsPermutation(order, |a.shape|)
    ensures r.shape == TransposeShape(a.shape, order) && |r.values| == Product(r.shape)
  {
    NdArray(TransposeShape(a.shape, order), TransposeValues(a.shape, a.values, order))
  }

  lemma {:induction false} ProductAppend(shape: seq<nat>, m: nat)
    ensures Product(shape + [m]) == Product(shape) * m
  {
    if shape != [] {
      assert (shape + [m])[1..] == shape[1..] + [m];
      ProductAppend(shape[1..], m);
      MulAssoc(shape[0], Product(shape[1..]), m);
    }
  }

  /** Appending an axis of `m` entries: the old position is scaled by `m`. */
  lemma {:induction false} RavelAppend(idx: seq<nat>, shape: seq<nat>, i: nat, m: nat)
    requires |idx| == |shape|
    ensures Ravel(idx + [i], shape + [m]) == Ravel(idx, shape) * m + i
  {
    if shape != [] {
      assert (idx + [i])[1..] == idx[1..] + [i];
      assert (shape + [m])[1..] == shape[1..] + [m];
      RavelAppend(idx[1..], shape[1..], i, m);
      ProductAppend(shape[1..], m);
      var p, rest := Product(shape[1..]), Ravel(idx[1..], shape[1..]);
      MulAssoc(idx[0], p, m);
      assert (idx[0] * p + rest) * m == idx[0] * p * m + rest * m;
    }
  }

  /** Prepending an axis: the new index counts whole blocks of the old shape. */
  lemma RavelPrepend(idx: seq<nat>, shape: seq<nat>, i: nat, m: nat)
    requires |idx| == |shape|
    ensures Ravel([i] + idx, [m] + shape) == i * Product(shape) + Ravel(idx, shape)
  {
    assert ([i] + idx)[1..] == idx && ([m] + shape)[1..] == shape;
  }

  /** Element `j` of row `i` sits at position `i * b + j` of the rows laid end to end. */
  lemma {:induction false} FlattenAt<T>(rs: seq<seq<T>>, b: nat, i: nat, j: nat)
    requires forall k :: 0 <= k < |rs| ==> |rs[k]| == b
    requires i < |rs| && j < b
    ensures i * b + j < |Flatten(rs)| && Flatten(rs)[i * b + j] == rs[i][j]
  {
    FlattenLength(rs, b);
    if i > 0 {
      FlattenAt(rs[1..], b, i - 1, j);
      assert i * b + j == b + ((i - 1) * b + j);
    }
  }
}
