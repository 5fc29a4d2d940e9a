/**
 * Which 1 x 1 degree source cell a coordinate is read from
 * (src/lib/copernicus_terrain_provider.cpp), over exact reals.
 */
module SourceCells {
  import opened Numbers

  datatype Address = Address(south: int, west: int)

  const TOLERANCE: real := 0.000000000001

  function SourceWest(longitude: real): int {
    if longitude >= 180.0 then 179
    else if longitude <= -180.0 then -180
    else Floor(longitude)
  }

  /** A latitude on a cell border, within the tolerance, belongs to the cell south of it. */
  function SourceSouth(latitude: real): int {
    if latitude <= -90.0 then -90
    else if latitude >= 90.0 then 89
    else if AbsReal(latitude - Round(latitude) as real) <= TOLERANCE then Round(latitude) - 1
    else Floor(latitude)
  }

  function CellOf(latitude: real, longitude: real): Address {
    Address(SourceSouth(latitude), SourceWest(longitude))
  }

  // ---------------------------------------------------------------- how the functions behave

  /** Just below -90 + tolerance the border rule would leave the globe; no projected latitude does. */
  lemma SouthNearFloor(latitude: real)
    requires -90.0 < latitude < 90.0
    ensures SourceSouth(latitude) <= Floor(latitude) <= SourceSouth(latitude) + 1
    ensures SourceSouth(latitude) >= Ceil(latitude - TOLERANCE) - 1
    ensures (SourceSouth(latitude) as real) < latitude <= (SourceSouth(latitude) + 1) as real + TOLERANCE
  {
  }

  /** A latitude just above the south pole is taken to a cell that is not on the globe. */
  predicate OffTheGlobe(latitude: real) {
    -90.0 < latitude <= -90.0 + TOLERANCE
  }

  lemma OnGlobeIff(latitude: real)
    ensures -90 <= SourceSouth(latitude) <= 89 <==> !OffTheGlobe(latitude)
    ensures OffTheGlobe(latitude) ==> SourceSouth(latitude) == -91
  {
    if -90.0 < latitude < 90.0 {
      SouthNearFloor(latitude);
      if OffTheGlobe(latitude) {
        assert Round(latitude) == -90;
      }
    }
  }

  /** Cells follow latitudes in order, but for one place: from the pole itself to just above it. */
  lemma {:induction false} SouthIsMonotoneIff(a: real, b: real)
    requires a <= b
    ensures SourceSouth(a) <= SourceSouth(b) <==> !(a <= -90.0 && OffTheGlobe(b))
  {
    OnGlobeIff(a);
    OnGlobeIff(b);
    if -90.0 < a && b < 90.0 {
      SouthNearFloor(a);
      SouthNearFloor(b);
      if Floor(a) == Floor(b) && SourceSouth(b) == Floor(b) - 1 {
        NearBorder(a, b);
      }
    }
  }

  lemma {:induction false} SouthIsMonotone(a: real, b: real)
    requires a <= b && a > -90.0
    ensures SourceSouth(a) <= SourceSouth(b)
  {
    SouthIsMonotoneIff(a, b);
  }

  /** If b is taken to the cell below a border, so is any a between the border and b. */
  lemma NearBorder(a: real, b: real)
    requires -90.0 < a <= b < 90.0 && Floor(a) == Floor(b) && SourceSouth(b) == Floor(b) - 1
    ensures SourceSouth(a) == Floor(a) - 1
  {
    var k := Round(b);
    assert k as real - TOLERANCE <= b <= k as real + TOLERANCE && k == Floor(b);
    assert k as real <= a <= k as real + TOLERANCE;
    assert Round(a) == k;
  }
}
