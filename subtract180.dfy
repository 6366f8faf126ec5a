/** Subtract180FromLongitude: moves longitudes from 0..360 to -180..180 by taking 360
    off every longitude above 180. */
module Subtract180FromLongitude {
  import opened Samples
  import opened Tiles

  /** One longitude after the masked update: above 180 it loses 360 (an infinity stays
      itself), otherwise it is kept; NaN compares false and is kept. */
  function Wrap(x: Sample): Sample
  {
    if Lt(Finite(180.0), x) then SubConst(x, 360.0) else x
  }

  /** The longitude array after `longitudes[longitudes > 180] -= 360`. */
  function Wrapped(lon: seq<Sample>): (r: seq<Sample>)
    ensures |r| == |lon| && forall k :: 0 <= k < |lon| ==> r[k] == Wrap(lon[k])
  {
    seq(|lon|, k requires 0 <= k < |lon| => Wrap(lon[k]))
  }

  /** `Subtract180FromLongitude.process`: decodes the longitudes into a fresh array,
      updates the entries above 180 in place, and stores the array back as the tile's
      longitude. Nothing else in the tile changes. */
  method Process(tile: NexusTile)
    modifies tile
    ensures tile.tile == old(tile.tile).(longitude := Wrapped(old(tile.tile.longitude)))
    ensures tile.summary == old(tile.summary) && tile.hasSummary == old(tile.hasSummary)
    ensures old(tile.Valid()) ==> tile.Valid()
  {
    var lon := tile.tile.longitude;
    var a := new Sample[|lon|](k requires 0 <= k < |lon| => lon[k]);
    var i := 0;
    while i < a.Length
      modifies a
      invariant 0 <= i <= a.Length
      invariant forall k :: 0 <= k < i ==> a[k] == Wrap(lon[k])
      invariant forall k :: i <= k < a.Length ==> a[k] == lon[k]
    {
      if Lt(Finite(180.0), a[i]) {
        a[i] := SubConst(a[i], 360.0);
      }
      i := i + 1;
    }
    tile.tile := tile.tile.(longitude := a[..]);
  }

  /** Exactly the longitudes above 180 drop by 360; the rest, NaN included, stay. */
  lemma WrapMovesOnlyAbove180(x: Sample)
    ensures x.Finite? && x.v > 180.0 ==> Wrap(x) == Finite(x.v - 360.0)
    ensures x.Finite? && x.v <= 180.0 ==> Wrap(x) == x
    ensures !x.Finite? ==> Wrap(x) == x
  {
  }

  /** Longitudes in [0, 360] land in (-180, 180]. */
  lemma WrapRange(x: Sample)
    requires x.Finite? && 0.0 <= x.v <= 360.0
    ensures Wrap(x).Finite? && -180.0 < Wrap(x).v <= 180.0
  {
  }

  /** For longitudes up to 540, applying the processor twice is applying it once. */
  lemma WrappedIdempotent(lon: seq<Sample>)
    requires forall k :: 0 <= k < |lon| && lon[k].Finite? ==> lon[k].v <= 540.0
    ensures Wrapped(Wrapped(lon)) == Wrapped(lon)
  {
  }
}
