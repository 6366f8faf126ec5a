/** Floating-point samples as numpy stores them, with real arithmetic standing in for
    double-precision arithmetic on the finite part. */
module Samples {

  /** One double: a finite value, NaN, or a signed infinity. */
  datatype Sample = Finite(v: real) | NaN | Inf(negative: bool)

  /** `numpy.isfinite`: the values that `numpy.ma.masked_invalid` leaves unmasked. */
  predicate IsFinite(x: Sample) { x.Finite? }

  /** IEEE `<=`: false whenever either side is NaN; -inf is below and +inf above every other value. */
  predicate Le(a: Sample, b: Sample)
  {
    if a.NaN? || b.NaN? then false
    else if a == Inf(true) || b == Inf(false) then true
    else if a.Inf? || b.Inf? then false
    else a.v <= b.v
  }

  /** IEEE `<`. */
  predicate Lt(a: Sample, b: Sample) { Le(a, b) && a != b }

  /** IEEE `==`: NaN equals nothing, not even itself. */
  predicate FloatEq(a: Sample, b: Sample) { !a.NaN? && a == b }

  /** The smaller of two non-NaN samples. */
  function Min2(a: Sample, b: Sample): (r: Sample)
    requires !a.NaN? && !b.NaN?
    ensures Le(r, a) && Le(r, b) && (r == a || r == b)
  {
    if Le(a, b) then a else b
  }

  /** The larger of two non-NaN samples. */
  function Max2(a: Sample, b: Sample): (r: Sample)
    requires !a.NaN? && !b.NaN?
    ensures Le(a, r) && Le(b, r) && (r == a || r == b)
  {
    if Le(a, b) then b else a
  }

  /** `x - c` for a real constant `c`: infinities and NaN are absorbing. */
  function SubConst(x: Sample, c: real): (r: Sample)
    ensures r.Finite? <==> x.Finite?
    ensures x.Finite? ==> r.v == x.v - c
    ensures !x.Finite? ==> r == x
  {
    match x
    case Finite(v) => Finite(v - c)
    case _ => x
  }

  /** Python's `int(f)` on a finite float: truncation toward zero. */
  function Trunc(r: real): (n: int)
    ensures r >= 0.0 ==> n as real <= r < n as real + 1.0
    ensures r < 0.0 ==> n as real - 1.0 < r <= n as real
  {
    if r >= 0.0 then r.Floor else -((-r).Floor)
  }

  lemma LeTransitive(a: Sample, b: Sample, c: Sample)
    requires Le(a, b) && Le(b, c)
    ensures Le(a, c)
  {
  }

  lemma LeTotal(a: Sample, b: Sample)
    requires !a.NaN? && !b.NaN?
    ensures Le(a, b) || Le(b, a)
  {
  }

  lemma TruncMonotone(a: real, b: real)
    requires a <= b
    ensures Trunc(a) <= Trunc(b)
  {
  }
}
