/** The numpy reductions the tile summary is made of: NaN counting, nanmin/nanmax,
    masking of invalid values, numpy.ma.average with weights, and nanmean. */
module Reductions {
  import opened Samples

  /** `numpy.count_nonzero(numpy.isnan(s))`. */
  function NanCount(s: seq<Sample>): (n: nat)
    ensures n <= |s|
  {
    if s == [] then 0 else (if s[0].NaN? then 1 else 0) + NanCount(s[1..])
  }

  /** `s.size - numpy.count_nonzero(numpy.isnan(s))`: the number of samples that are not NaN. */
  function Count(s: seq<Sample>): (n: nat)
    ensures n <= |s|
  {
    |s| - NanCount(s)
  }

  lemma {:induction false} CountPositiveIff(s: seq<Sample>)
    ensures Count(s) > 0 <==> exists k :: 0 <= k < |s| && !s[k].NaN?
  {
    if s != [] {
      CountPositiveIff(s[1..]);
      if !s[0].NaN? {
        assert !s[0].NaN?;
      } else {
        assert forall k :: 1 <= k < |s| ==> s[k] == s[1..][k - 1];
      }
    }
  }

  /** `numpy.ma.masked_invalid(s)`, with a masked entry written as NaN. The reductions
      below skip NaN as the masked reductions skip masked entries. Where every entry is
      masked, numpy returns the masked constant `numpy.ma.masked`. The reductions give
      NaN there, and that NaN stands for the masked constant. */
  function MaskInvalid(s: seq<Sample>): (r: seq<Sample>)
    ensures |r| == |s|
    ensures forall k :: 0 <= k < |s| ==> (r[k].Finite? <==> s[k].Finite?)
    ensures forall k :: 0 <= k < |s| && s[k].Finite? ==> r[k] == s[k]
    ensures forall k :: 0 <= k < |s| && !s[k].Finite? ==> r[k].NaN?
  {
    seq(|s|, k requires 0 <= k < |s| => if s[k].Finite? then s[k] else NaN)
  }

  /** One step of nanmin: NaN is skipped. */
  function MinStep(x: Sample, m: Sample): Sample
  {
    if x.NaN? then m else if m.NaN? then x else Min2(x, m)
  }

  /** One step of nanmax: NaN is skipped. */
  function MaxStep(x: Sample, m: Sample): Sample
  {
    if x.NaN? then m else if m.NaN? then x else Max2(x, m)
  }

  /** `numpy.nanmin(s)` on a non-empty array: NaN when every entry is NaN, otherwise the
      least non-NaN entry. */
  function NanMin(s: seq<Sample>): (r: Sample)
    ensures r.NaN? <==> forall k :: 0 <= k < |s| ==> s[k].NaN?
    ensures !r.NaN? ==> exists k :: 0 <= k < |s| && s[k] == r
    ensures forall k :: 0 <= k < |s| && !s[k].NaN? ==> Le(r, s[k])
  {
    if s == [] then NaN
    else
      var m := NanMin(s[1..]);
      assert forall k :: 1 <= k < |s| ==> s[k] == s[1..][k - 1];
      MinStep(s[0], m)
  }

  /** `numpy.nanmax(s)` on a non-empty array: NaN when every entry is NaN, otherwise the
      greatest non-NaN entry. */
  function NanMax(s: seq<Sample>): (r: Sample)
    ensures r.NaN? <==> forall k :: 0 <= k < |s| ==> s[k].NaN?
    ensures !r.NaN? ==> exists k :: 0 <= k < |s| && s[k] == r
    ensures forall k :: 0 <= k < |s| && !s[k].NaN? ==> Le(s[k], r)
  {
    if s == [] then NaN
    else
      var m := NanMax(s[1..]);
      assert forall k :: 1 <= k < |s| ==> s[k] == s[1..][k - 1];
      MaxStep(s[0], m)
  }

  lemma NanMinLeNanMax(s: seq<Sample>)
    requires !NanMin(s).NaN?
    ensures Le(NanMin(s), NanMax(s))
  {
    var k :| 0 <= k < |s| && s[k] == NanMin(s);
    LeTransitive(NanMin(s), s[k], NanMax(s));
  }

  /** The sums `numpy.ma.average` forms over the entries where both the sample and its
      latitude are finite: the weighted sum, the sum of weights, and how many entries
      took part. */
  datatype Sums = Sums(num: real, den: real, n: nat)

  function WeightedSums(data: seq<Sample>, lats: seq<Sample>, w: real -> real): Sums
    requires |data| == |lats|
  {
    if data == [] then Sums(0.0, 0.0, 0)
    else Plus(Term(data[0], lats[0], w), WeightedSums(data[1..], lats[1..], w))
  }

  /** What one sample contributes: nothing when it or its latitude is masked. */
  function Term(x: Sample, lat: Sample, w: real -> real): Sums
  {
    if x.Finite? && lat.Finite? then Sums(w(lat.v) * x.v, w(lat.v), 1) else Sums(0.0, 0.0, 0)
  }

  /** The IEEE quotient `num / den` of two finite doubles. */
  function Divide(num: real, den: real): (r: Sample)
    ensures den != 0.0 ==> r == Finite(num / den)
    ensures den == 0.0 ==> (r.NaN? <==> num == 0.0) && (r.Inf? ==> (r.negative <==> num < 0.0))
  {
    if den != 0.0 then Finite(num / den)
    else if num == 0.0 then NaN
    else Inf(num < 0.0)
  }

  /** `numpy.ma.average(masked_invalid(data), weights=w(masked_invalid(lats)))` for
      element-aligned `data` and `lats`; NaN stands for the fully masked result. */
  function WeightedMean(data: seq<Sample>, lats: seq<Sample>, w: real -> real): Sample
    requires |data| == |lats|
  {
    Mean(WeightedSums(data, lats, w))
  }

  /** The quotient of accumulated sums; NaN when no entry took part. */
  function Mean(s: Sums): Sample
  {
    if s.n == 0 then NaN else Divide(s.num, s.den)
  }

  ghost predicate NonNegative(w: real -> real)
  {
    forall x :: w(x) >= 0.0
  }

  /** Whether entry `k` takes part in the weighted average. */
  predicate Included(data: seq<Sample>, lats: seq<Sample>, k: int)
    requires |data| == |lats|
  {
    0 <= k < |data| && data[k].Finite? && lats[k].Finite?
  }

  lemma {:induction false} WeightsSumNonNegative(data: seq<Sample>, lats: seq<Sample>, w: real -> real)
    requires |data| == |lats| && NonNegative(w)
    ensures WeightedSums(data, lats, w).den >= 0.0
  {
    if data != [] {
      WeightsSumNonNegative(data[1..], lats[1..], w);
    }
  }

  /** The weighted sum is at least `lo` times the weight sum. */
  predicate AtLeast(s: Sums, lo: real) { s.num >= lo * s.den }

  /** The weighted sum is at most `hi` times the weight sum. */
  predicate AtMost(s: Sums, hi: real) { s.num <= hi * s.den }

  lemma {:induction false} WeightedSumsLower(data: seq<Sample>, lats: seq<Sample>, w: real -> real, lo: real)
    requires |data| == |lats| && NonNegative(w)
    requires forall k :: Included(data, lats, k) ==> lo <= data[k].v
    ensures AtLeast(WeightedSums(data, lats, w), lo)
  {
    if data != [] {
      assert Included(data, lats, 0) ==> lo <= data[0].v;
      TermLower(data[0], lats[0], w, lo);
      forall k | Included(data[1..], lats[1..], k) ensures lo <= data[1..][k].v {
        assert Included(data, lats, k + 1);
      }
      WeightedSumsLower(data[1..], lats[1..], w, lo);
      PlusLower(Term(data[0], lats[0], w), WeightedSums(data[1..], lats[1..], w), lo);
    }
  }

  lemma {:induction false} WeightedSumsUpper(data: seq<Sample>, lats: seq<Sample>, w: real -> real, hi: real)
    requires |data| == |lats| && NonNegative(w)
    requires forall k :: Included(data, lats, k) ==> data[k].v <= hi
    ensures AtMost(WeightedSums(data, lats, w), hi)
  {
    if data != [] {
      assert Included(data, lats, 0) ==> data[0].v <= hi;
      TermUpper(data[0], lats[0], w, hi);
      forall k | Included(data[1..], lats[1..], k) ensures data[1..][k].v <= hi {
        assert Included(data, lats, k + 1);
      }
      WeightedSumsUpper(data[1..], lats[1..], w, hi);
      PlusUpper(Term(data[0], lats[0], w), WeightedSums(data[1..], lats[1..], w), hi);
    }
  }

  lemma TermLower(x: Sample, lat: Sample, w: real -> real, lo: real)
    requires NonNegative(w)
    requires x.Finite? && lat.Finite? ==> lo <= x.v
    ensures AtLeast(Term(x, lat, w), lo)
  {
    if x.Finite? && lat.Finite? {
      var wt := w(lat.v);
      assert wt >= 0.0;
      assert wt * (x.v - lo) >= 0.0;
    }
  }

  lemma TermUpper(x: Sample, lat: Sample, w: real -> real, hi: real)
    requires NonNegative(w)
    requires x.Finite? && lat.Finite? ==> x.v <= hi
    ensures AtMost(Term(x, lat, w), hi)
  {
    if x.Finite? && lat.Finite? {
      var wt := w(lat.v);
      assert wt >= 0.0;
      assert wt * (hi - x.v) >= 0.0;
    }
  }

  lemma PlusLower(a: Sums, b: Sums, lo: real)
    requires AtLeast(a, lo) && AtLeast(b, lo)
    ensures AtLeast(Plus(a, b), lo)
  {
    assert lo * (a.den + b.den) == lo * a.den + lo * b.den;
  }

  lemma PlusUpper(a: Sums, b: Sums, hi: real)
    requires AtMost(a, hi) && AtMost(b, hi)
    ensures AtMost(Plus(a, b), hi)
  {
    assert hi * (a.den + b.den) == hi * a.den + hi * b.den;
  }

  lemma QuotientLower(s: Sums, lo: real)
    requires s.den > 0.0 && AtLeast(s, lo)
    ensures s.num / s.den >= lo
  {
    assert (s.num - lo * s.den) / s.den >= 0.0;
  }

  lemma QuotientUpper(s: Sums, hi: real)
    requires s.den > 0.0 && AtMost(s, hi)
    ensures s.num / s.den <= hi
  {
    assert (hi * s.den - s.num) / s.den >= 0.0;
  }

  /** With non-negative weights, a finite weighted mean lies between the nanmin and the
      nanmax of the samples. */
  lemma WeightedMeanWithin(data: seq<Sample>, lats: seq<Sample>, w: real -> real)
    requires |data| == |lats| && NonNegative(w)
    ensures WeightedMean(data, lats, w).Finite? ==>
              Le(NanMin(data), WeightedMean(data, lats, w)) && Le(WeightedMean(data, lats, w), NanMax(data))
  {
    if WeightedMean(data, lats, w).Finite? {
      WeightedMeanAboveMin(data, lats, w);
      WeightedMeanBelowMax(data, lats, w);
    }
  }

  lemma WeightedMeanAboveMin(data: seq<Sample>, lats: seq<Sample>, w: real -> real)
    requires |data| == |lats| && NonNegative(w)
    requires WeightedMean(data, lats, w).Finite?
    ensures Le(NanMin(data), WeightedMean(data, lats, w))
  {
    var sums := WeightedSums(data, lats, w);
    WeightsSumNonNegative(data, lats, w);
    IncludedWitness(data, lats, w);
    var k :| Included(data, lats, k);
    var lo := NanMin(data);
    assert Le(lo, data[k]);
    if lo.Finite? {
      forall j | Included(data, lats, j) ensures lo.v <= data[j].v {
        assert Le(lo, data[j]);
      }
      WeightedSumsLower(data, lats, w, lo.v);
      QuotientLower(sums, lo.v);
    }
  }

  lemma WeightedMeanBelowMax(data: seq<Sample>, lats: seq<Sample>, w: real -> real)
    requires |data| == |lats| && NonNegative(w)
    requires WeightedMean(data, lats, w).Finite?
    ensures Le(WeightedMean(data, lats, w), NanMax(data))
  {
    var sums := WeightedSums(data, lats, w);
    WeightsSumNonNegative(data, lats, w);
    IncludedWitness(data, lats, w);
    var k :| Included(data, lats, k);
    var hi := NanMax(data);
    assert Le(data[k], hi);
    if hi.Finite? {
      forall j | Included(data, lats, j) ensures data[j].v <= hi.v {
        assert Le(data[j], hi);
      }
      WeightedSumsUpper(data, lats, w, hi.v);
      QuotientUpper(sums, hi.v);
    }
  }

  /** An average over at least one entry has an entry that took part. */
  lemma {:induction false} IncludedWitness(data: seq<Sample>, lats: seq<Sample>, w: real -> real)
    requires |data| == |lats| && WeightedSums(data, lats, w).n > 0
    ensures exists k :: Included(data, lats, k)
  {
    if data[0].Finite? && lats[0].Finite? {
      assert Included(data, lats, 0);
    } else {
      IncludedWitness(data[1..], lats[1..], w);
      var k :| Included(data[1..], lats[1..], k);
      assert Included(data, lats, k + 1);
    }
  }

  /** The sum of the finite samples. */
  function FiniteSum(s: seq<Sample>): real
  {
    if s == [] then 0.0 else (if s[0].Finite? then s[0].v else 0.0) + FiniteSum(s[1..])
  }

  /** `numpy.nanmean(s)`: NaN dropped, infinities kept. NaN when nothing is left or when
      both infinities occur, the infinity when only one sign occurs, the arithmetic mean
      otherwise. */
  function NanMean(s: seq<Sample>): Sample
  {
    if Count(s) == 0 then NaN
    else if Inf(false) in s && Inf(true) in s then NaN
    else if Inf(false) in s then Inf(false)
    else if Inf(true) in s then Inf(true)
    else Finite(FiniteSum(s) / Count(s) as real)
  }

  /** The weight every sample gets in an unweighted mean. */
  function Uniform(lat: real): real { 1.0 }

  /** Finite placeholder latitudes, so that no sample is masked for its latitude. */
  function Zeros(n: nat): (r: seq<Sample>)
    ensures |r| == n && forall k :: 0 <= k < n ==> r[k] == Finite(0.0)
  {
    seq(n, _ => Finite(0.0))
  }

  lemma {:induction false} UniformSums(s: seq<Sample>)
    requires Inf(false) !in s && Inf(true) !in s
    ensures WeightedSums(s, Zeros(|s|), Uniform) == Sums(FiniteSum(s), Count(s) as real, Count(s))
  {
    if s != [] {
      assert Zeros(|s|)[1..] == Zeros(|s| - 1);
      assert Inf(false) !in s[1..] && Inf(true) !in s[1..];
      UniformSums(s[1..]);
    }
  }

  /** The fallback mean is the weighted mean with every weight equal, whenever the samples
      hold no infinity. */
  lemma UnweightedIsUniformWeight(s: seq<Sample>)
    requires Inf(false) !in s && Inf(true) !in s
    ensures NanMean(s) == WeightedMean(s, Zeros(|s|), Uniform)
  {
    UniformSums(s);
  }

  /** A finite nanmean lies between nanmin and nanmax. */
  lemma NanMeanWithin(s: seq<Sample>)
    ensures NanMean(s).Finite? ==> Le(NanMin(s), NanMean(s)) && Le(NanMean(s), NanMax(s))
  {
    if NanMean(s).Finite? {
      UnweightedIsUniformWeight(s);
      assert NonNegative(Uniform);
      WeightedMeanWithin(s, Zeros(|s|), Uniform);
    }
  }

  /** `numpy.repeat(lats, n)`: each entry repeated `n` times, consecutively. */
  function Repeat(lats: seq<Sample>, n: nat): (r: seq<Sample>)
    ensures |r| == |lats| * n
  {
    if lats == [] then []
    else
      assert |lats| * n == n + (|lats| - 1) * n;
      Copies(lats[0], n) + Repeat(lats[1..], n)
  }

  /** `n` copies of one sample. */
  function Copies(x: Sample, n: nat): (r: seq<Sample>)
    ensures |r| == n && forall i | 0 <= i < n :: r[i] == x
  {
    if n == 0 then [] else [x] + Copies(x, n - 1)
  }

  /** Entry `j` of row `i` of the repetition is latitude `i`. */
  lemma {:induction false} RepeatBlock(lats: seq<Sample>, n: nat, i: nat, j: nat)
    requires i < |lats| && j < n
    ensures i * n + j < |Repeat(lats, n)| && Repeat(lats, n)[i * n + j] == lats[i]
  {
    MulLe(i + 1, |lats|, n);
    if i > 0 {
      assert i * n + j == n + ((i - 1) * n + j);
      RepeatBlock(lats[1..], n, i - 1, j);
    }
  }

  lemma MulLe(a: nat, b: nat, n: nat)
    requires a <= b
    ensures a * n <= b * n
  {
    assert b * n == a * n + (b - a) * n;
  }

  /** Entry `k` of the repetition is entry `k / n` of the original: the grid weight of
      flattened element `k` is the weight of latitude `k div len(lon)`. */
  lemma RepeatAt(lats: seq<Sample>, n: nat, k: nat)
    requires k < |lats| * n
    ensures n > 0 && k / n < |lats| && Repeat(lats, n)[k] == lats[k / n]
  {
    assert n > 0;
    var i, j := k / n, k % n;
    assert k == i * n + j;
    if i >= |lats| {
      MulLe(|lats|, i, n);
      assert false;
    }
    RepeatBlock(lats, n, i, j);
  }

  /** Adds the sums of two consecutive stretches. */
  function Plus(a: Sums, b: Sums): Sums
  {
    Sums(a.num + b.num, a.den + b.den, a.n + b.n)
  }

  lemma {:induction false} SumsAppend(d1: seq<Sample>, l1: seq<Sample>, d2: seq<Sample>, l2: seq<Sample>, w: real -> real)
    requires |d1| == |l1| && |d2| == |l2|
    ensures WeightedSums(d1 + d2, l1 + l2, w) == Plus(WeightedSums(d1, l1, w), WeightedSums(d2, l2, w))
  {
    if d1 == [] {
      assert d1 + d2 == d2 && l1 + l2 == l2;
    } else {
      var t := Term(d1[0], l1[0], w);
      assert (d1 + d2)[0] == d1[0] && (l1 + l2)[0] == l1[0];
      assert (d1 + d2)[1..] == d1[1..] + d2 && (l1 + l2)[1..] == l1[1..] + l2;
      assert WeightedSums(d1 + d2, l1 + l2, w) == Plus(t, WeightedSums(d1[1..] + d2, l1[1..] + l2, w));
      SumsAppend(d1[1..], l1[1..], d2, l2, w);
      var a, b := WeightedSums(d1[1..], l1[1..], w), WeightedSums(d2, l2, w);
      PlusAssoc(t, a, b);
    }
  }

  lemma PlusAssoc(a: Sums, b: Sums, c: Sums)
    ensures Plus(a, Plus(b, c)) == Plus(Plus(a, b), c)
  {
  }

  /** The sums of `k` copies of a stretch. */
  function Scale(k: nat, s: Sums): Sums
  {
    Sums(k as real * s.num, k as real * s.den, k * s.n)
  }

  lemma ScaleSucc(k: nat, s: Sums)
    ensures Scale(k + 1, s) == Plus(s, Scale(k, s))
  {
    assert (k + 1) as real * s.num == s.num + k as real * s.num;
    assert (k + 1) as real * s.den == s.den + k as real * s.den;
  }

  lemma ScaleZero(s: Sums)
    ensures Scale(0, s) == Sums(0.0, 0.0, 0)
  {
  }

  lemma ScalePred(k: nat, s: Sums)
    requires k > 0
    ensures Scale(k, s) == Plus(s, Scale(k - 1, s))
  {
    ScaleSucc(k - 1, s);
  }

  lemma ScalePlus(k: nat, a: Sums, b: Sums)
    ensures Scale(k, Plus(a, b)) == Plus(Scale(k, a), Scale(k, b))
  {
    assert k as real * (a.num + b.num) == k as real * a.num + k as real * b.num;
    assert k as real * (a.den + b.den) == k as real * a.den + k as real * b.den;
    assert k * (a.n + b.n) == k * a.n + k * b.n;
  }

  lemma {:induction false} ConstantSums(x: Sample, lat: Sample, n: nat, w: real -> real)
    ensures WeightedSums(Copies(x, n), Copies(lat, n), w) == Scale(n, Term(x, lat, w))
  {
    if n == 0 {
      ScaleZero(Term(x, lat, w));
    } else {
      ConstantSumsStep(x, lat, n, w);
      ConstantSums(x, lat, n - 1, w);
      ScalePred(n, Term(x, lat, w));
    }
  }

  lemma ConstantSumsStep(x: Sample, lat: Sample, n: nat, w: real -> real)
    requires n > 0
    ensures WeightedSums(Copies(x, n), Copies(lat, n), w)
         == Plus(Term(x, lat, w), WeightedSums(Copies(x, n - 1), Copies(lat, n - 1), w))
  {
    assert Copies(x, n)[1..] == Copies(x, n - 1) && Copies(lat, n)[1..] == Copies(lat, n - 1);
  }

  lemma {:induction false} RepeatSums(d: seq<Sample>, lats: seq<Sample>, n: nat, w: real -> real)
    requires |d| == |lats|
    ensures WeightedSums(Repeat(d, n), Repeat(lats, n), w) == Scale(n, WeightedSums(d, lats, w))
  {
    if d == [] {
      assert Scale(n, Sums(0.0, 0.0, 0)) == Sums(0.0, 0.0, 0);
    } else {
      RepeatSums(d[1..], lats[1..], n, w);
      ConstantSums(d[0], lats[0], n, w);
      SumsAppend(Copies(d[0], n), Copies(lats[0], n), Repeat(d[1..], n), Repeat(lats[1..], n), w);
      ScalePlus(n, Term(d[0], lats[0], w), WeightedSums(d[1..], lats[1..], w));
    }
  }

  /** Repeating every entry of an average the same number of times leaves it unchanged. */
  lemma ScaledMean(k: nat, s: Sums)
    requires k > 0
    ensures Mean(Scale(k, s)) == Mean(s)
  {
    var r := k as real;
    assert k * s.n == 0 <==> s.n == 0;
    if s.den != 0.0 {
      assert (r * s.num) / (r * s.den) == s.num / s.den;
    } else {
      assert r * s.num == 0.0 <==> s.num == 0.0;
      assert r * s.num < 0.0 <==> s.num < 0.0;
    }
  }

  /** A grid whose every latitude row holds one value has the weighted mean of those row
      values under the row latitudes: repeating a weight across a row changes nothing. */
  lemma GridOfConstantRows(rows: seq<Sample>, lats: seq<Sample>, n: nat, w: real -> real)
    requires |rows| == |lats| && n > 0
    ensures WeightedMean(Repeat(rows, n), Repeat(lats, n), w) == WeightedMean(rows, lats, w)
  {
    RepeatSums(rows, lats, n, w);
    ScaledMean(n, WeightedSums(rows, lats, w));
  }
}
