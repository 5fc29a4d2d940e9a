/**
 * Which source pixels the point samplers read, and how the bilinear sample blends them, in terms of the
 * pixels and their places: pixel (c, r) of a cell lies c columns east and r rows south of its north-west corner.
 */
module PixelSampling {
  import opened Wrappers
  import opened Numbers
  import opened RasterWindow
  import opened AreaGrid
  import opened SourceCells
  import opened PointSample
  import opened WideColumns
  import opened GridPrefetch

  // ---------------------------------------------------------------- the grid of a cell and its neighbours

  /** The column of `to` columns nearest to column `c` of `from`, halves up. */
  function Rescaled(c: nat, from: nat, to: nat): int
    requires from > 0
  {
    Min((2 * c * to + from) / (2 * from), to - 1)
  }

  /**
   * Grid point (c, r) of the cell with this south and west edge: one of its pixels, or in the column or row after
   * its last one a pixel of the first column or row of the neighbour. The map ends at longitude 180.
   */
  function GridPoint(source: Source, south: int, west: int, width: nat, c: nat, r: nat): Sample
    requires ValidSource(source) && width > 0
  {
    var s, w := if r == 3600 then south - 1 else south, if c == width && west < 179 then west + 1 else west;
    match source(s, w)
    case Loaded(raster) =>
      Pixel(raster, if c == width && west < 179 then 0 else Rescaled(c, width, raster.width), if r == 3600 then 0 else r)
    case _ => None
  }

  /** The grid point cannot be read: its cell cannot be used, or the block of its pixel does not decode. */
  predicate GridPointFails(source: Source, south: int, west: int, width: nat, c: nat, r: nat)
    requires ValidSource(source) && width > 0
  {
    var s, w := if r == 3600 then south - 1 else south, if c == width && west < 179 then west + 1 else west;
    match source(s, w)
    case Missing => false
    case Broken => true
    case Loaded(raster) =>
      !Readable(raster, if c == width && west < 179 then 0 else Rescaled(c, width, raster.width), if r == 3600 then 0 else r)
  }

  /** Inside a cell the grid points are its pixels. */
  lemma OwnPixels(source: Source, south: int, west: int, raster: Raster, c: nat, r: nat)
    requires ValidSource(source) && source(south, west) == Loaded(raster) && c < raster.width && r < 3600
    ensures GridPoint(source, south, west, raster.width, c, r) == Pixel(raster, c, r)
    ensures GridPointFails(source, south, west, raster.width, c, r) == !Readable(raster, c, r)
  {
    SameScale(c, raster.width);
  }

  lemma SameScale(c: nat, n: nat)
    requires c < n
    ensures Rescaled(c, n, n) == c
  {
    RoundedColumn(c, n, n);
    NotNegative(c, n);
  }

  // ---------------------------------------------------------------- grid values are grid points

  lemma FloorIs(y: real, q: int, a: int, b: int)
    requires b > 0 && q == a / b && y * b as real == a as real
    ensures Floor(y) == q
  {
    assert q * b <= a < q * b + b;
    Multiples(q, b);
    Cancel(q as real, y, b as real);
    SameOrder(y, (q + 1) as real, b as real);
  }

  lemma Multiples(q: int, b: int)
    ensures q as real * b as real == (q * b) as real && (q + 1) as real * b as real == (q * b + b) as real
  {
  }

  lemma NotNegative(c: nat, from: nat)
    requires from > 0
    ensures c as real / from as real >= 0.0 && c as real / from as real * from as real == c as real
  {
  }

  /** Rounding a place to the nearest column of a raster is the exact rounding of the fraction. */
  lemma {:induction false} RoundedColumn(c: nat, from: nat, to: nat)
    requires from > 0 && to > 0
    ensures Clamp(Round(InPixels(c as real / from as real, to)), 0, to - 1) == Rescaled(c, from, to)
  {
    var share := c as real / from as real;
    var x := InPixels(share, to);
    NotNegative(c, from);
    HalfUp(share, from, to, c, x);
    FloorIs(x + 0.5, (2 * c * to + from) / (2 * from), 2 * c * to + from, 2 * from);
  }

  lemma HalfUp(share: real, from: nat, to: nat, c: nat, x: real)
    requires share * from as real == c as real && x == share * to as real && share >= 0.0
    ensures (x + 0.5) * (2 * from) as real == (2 * c * to + from) as real && x >= 0.0
  {
    assert x * from as real == share * from as real * to as real == (c * to) as real;
  }

  /** Where a grid point lies, seen from a cell that starts so many columns and rows on. */
  lemma {:induction false} GridPlace(south: int, west: int, width: nat, c: nat, r: nat)
    requires -89 <= south <= 88 && -180 <= west <= 179 && width > 0 && c <= width && r <= 3600
    ensures GridAddress(Address(south, west), width, 3600, c, r)
            == Address(if r == 3600 then south - 1 else south, if c == width && west < 179 then west + 1 else west)
  {
    ColumnCell(Address(south, west), width, c);
    RowCell(Address(south, west), r);
  }

  lemma {:induction false} GridColumnIs(base: Address, address: Address, raster: Raster, width: nat, c: nat)
    requires raster.width > 0 && width > 0 && c <= width
    requires address.west == if c == width && base.west < 179 then base.west + 1 else base.west
    ensures NearestColumn(raster, address, GridLongitude(base, width, c))
            == if c == width && base.west < 179 then 0 else Rescaled(c, width, raster.width)
  {
    if c == width && base.west < 179 {
      assert c as real / width as real == 1.0;
      assert GridLongitude(base, width, c) - address.west as real == 0.0;
    } else {
      assert GridLongitude(base, width, c) - address.west as real == c as real / width as real;
      RoundedColumn(c, width, raster.width);
    }
  }

  lemma {:induction false} GridRowIs(base: Address, address: Address, raster: Raster, r: nat)
    requires raster.height == 3600 && r <= 3600 && address.south == if r == 3600 then base.south - 1 else base.south
    ensures NearestRow(raster, address, GridLatitude(base, 3600, r)) == if r == 3600 then 0 else r
  {
    if r < 3600 {
      RoundedColumn(r, 3600, 3600);
      SameScale(r, 3600);
    }
  }

  lemma {:induction false} GridValueIs(source: Source, least: nat, south: int, west: int, width: nat, c: nat, r: nat)
    requires Glo30(source, least) && -89 <= south <= 88 && -180 <= west <= 179 && width > 0 && c <= width && r <= 3600
    ensures GridValue(source, Address(south, west), width, 3600, c, r) == GridPoint(source, south, west, width, c, r)
    ensures GridFails(source, Address(south, west), width, 3600, c, r) == GridPointFails(source, south, west, width, c, r)
  {
    var base := Address(south, west);
    var address := GridAddress(base, width, 3600, c, r);
    GridPlace(south, west, width, c, r);
    if source(address.south, address.west).Loaded? {
      var raster := source(address.south, address.west).raster;
      GridColumnIs(base, address, raster, width, c);
      GridRowIs(base, address, raster, r);
    }
  }

  // ---------------------------------------------------------------- the bilinear sample

  /** A corner of this weight is blended in; lighter ones than the machine epsilon of a double are not. */
  predicate Counts(weight: real) {
    weight > 1.0 / 4503599627370496.0
  }

  function Part(weight: real, sample: Sample): real {
    if Counts(weight) && sample.Some? then weight * sample.value else 0.0
  }

  predicate Lacks(weight: real, sample: Sample) {
    Counts(weight) && sample.None?
  }

  /** The blend of four samples by their weights, and none when one that counts is missing. */
  function Mix(a: real, A: Sample, b: real, B: Sample, c: real, C: Sample, d: real, D: Sample): Option<real> {
    if Lacks(a, A) || Lacks(b, B) || Lacks(c, C) || Lacks(d, D) then None
    else Some(Part(a, A) + Part(b, B) + Part(c, C) + Part(d, D))
  }

  lemma BlendFour(value: (int, int) -> Sample, corners: seq<Corner>)
    requires |corners| == 4
    ensures Blend(value, corners)
            == AddCorner(AddCorner(AddCorner(AddCorner(Some(0.0), corners[0].weight, value(corners[0].column, corners[0].row)),
                                             corners[1].weight, value(corners[1].column, corners[1].row)),
                                   corners[2].weight, value(corners[2].column, corners[2].row)),
                         corners[3].weight, value(corners[3].column, corners[3].row))
  {
    BlendNext(value, corners, 0);
    BlendNext(value, corners, 1);
    BlendNext(value, corners, 2);
    BlendNext(value, corners, 3);
    assert corners[..4] == corners && corners[..0] == [];
  }

  lemma AddingFour(a: real, A: Sample, b: real, B: Sample, c: real, C: Sample, d: real, D: Sample)
    ensures AddCorner(AddCorner(AddCorner(AddCorner(Some(0.0), a, A), b, B), c, C), d, D) == Mix(a, A, b, B, c, C, d, D)
  {
  }

  lemma AddingDepends(a: real, A: Sample, A': Sample, b: real, B: Sample, B': Sample, c: real, C: Sample, C': Sample, d: real, D: Sample, D': Sample)
    requires Counts(a) ==> A == A'
    requires Counts(b) ==> B == B'
    requires Counts(c) ==> C == C'
    requires Counts(d) ==> D == D'
    ensures Mix(a, A, b, B, c, C, d, D) == Mix(a, A', b, B', c, C', d, D')
  {
  }

  /** The place of a coordinate: p of the way from column c to the next, q of the way from row r to the next. */
  ghost predicate PlacedAt(latitude: real, longitude: real, south: int, west: int, width: nat, c: nat, p: real, r: nat, q: real) {
    && CellOf(latitude, longitude) == Address(south, west)
    && c as real + p == NotBelowZero((longitude - west as real) * width as real) && 0.0 <= p < 1.0
    && r as real + q == NotBelowZero(((south + 1) as real - latitude) * 3600.0) && 0.0 <= q < 1.0
    && c <= width && (c == width ==> p == 0.0) && r < 3600
  }

  function NotBelowZero(x: real): real { if x < 0.0 then 0.0 else x }

  lemma WholeAndRest(x: real, c: nat, p: real)
    requires c as real + p == NotBelowZero(x) && 0.0 <= p < 1.0
    ensures Max(0, Floor(x)) == c && ClampReal(x - c as real, 0.0, 1.0) == p
  {
  }

  lemma CornersAt(latitude: real, longitude: real, south: int, west: int, width: nat, c: nat, p: real, r: nat, q: real)
    requires PlacedAt(latitude, longitude, south, west, width, c, p, r, q)
    ensures Corners(Address(south, west), width, 3600, latitude, longitude) == CornersOf(c, r, p, q)
  {
    var x, y := InPixels(longitude - west as real, width), InPixels((south + 1) as real - latitude, 3600);
    WholeAndRest(x, c, p);
    WholeAndRest(y, r, q);
  }

  lemma {:induction false} FourCorners(value: (int, int) -> Sample, c: int, r: int, p: real, q: real)
    ensures Blend(value, CornersOf(c, r, p, q))
            == Mix((1.0 - p) * (1.0 - q), value(c, r), p * (1.0 - q), value(c + 1, r), (1.0 - p) * q, value(c, r + 1), p * q, value(c + 1, r + 1))
  {
    var corners := CornersOf(c, r, p, q);
    BlendFour(value, corners);
    AddingFour(corners[0].weight, value(c, r), corners[1].weight, value(c + 1, r), corners[2].weight, value(c, r + 1),
               corners[3].weight, value(c + 1, r + 1));
  }

  lemma WeightsVanish(p: real, q: real)
    requires 0.0 <= p < 1.0 && 0.0 <= q < 1.0
    ensures p == 0.0 ==> !Counts(p * (1.0 - q)) && !Counts(p * q)
  {
  }

  /** The grid points around a place, blended by their weights. */
  function MixAround(source: Source, south: int, west: int, width: nat, c: nat, p: real, r: nat, q: real): Option<real>
    requires ValidSource(source) && width > 0
  {
    Mix((1.0 - p) * (1.0 - q), GridPoint(source, south, west, width, c, r),
        p * (1.0 - q), GridPoint(source, south, west, width, c + 1, r),
        (1.0 - p) * q, GridPoint(source, south, west, width, c, r + 1),
        p * q, GridPoint(source, south, west, width, c + 1, r + 1))
  }

  lemma {:induction false} ValuesAround(source: Source, south: int, west: int, raster: Raster, value: (int, int) -> Sample,
                                        c: nat, p: real, r: nat, q: real)
    requires ValidSource(source) && raster.width > 0 && 0.0 <= p < 1.0 && 0.0 <= q < 1.0 && r < 3600 && (c == raster.width ==> p == 0.0)
    requires forall i: nat, j: nat :: i <= raster.width && j <= 3600 ==> value(i, j) == GridPoint(source, south, west, raster.width, i, j)
    requires c <= raster.width
    ensures Blend(value, CornersOf(c, r, p, q)) == MixAround(source, south, west, raster.width, c, p, r, q)
  {
    FourCorners(value, c, r, p, q);
    WeightsVanish(p, q);
    AddingDepends((1.0 - p) * (1.0 - q), value(c, r), GridPoint(source, south, west, raster.width, c, r),
                  p * (1.0 - q), value(c + 1, r), GridPoint(source, south, west, raster.width, c + 1, r),
                  (1.0 - p) * q, value(c, r + 1), GridPoint(source, south, west, raster.width, c, r + 1),
                  p * q, value(c + 1, r + 1), GridPoint(source, south, west, raster.width, c + 1, r + 1));
  }

  /**
   * Between the four grid points around it, the bilinear sample is their blend, each weighted with the area of
   * the rectangle opposite to it.
   */
  lemma {:induction false} BilinearIsMix(source: Source, least: nat, latitude: real, longitude: real, south: int, west: int, raster: Raster,
                                         c: nat, p: real, r: nat, q: real)
    requires Glo30(source, least) && -89 <= south <= 88 && -180 <= west <= 179 && source(south, west) == Loaded(raster)
    requires PlacedAt(latitude, longitude, south, west, raster.width, c, p, r, q)
    ensures Bilinear(source, latitude, longitude) == MixAround(source, south, west, raster.width, c, p, r, q)
  {
    var base := Address(south, west);
    var value := GridValues(source, base, raster);
    forall i: nat, j: nat | i <= raster.width && j <= 3600 ensures value(i, j) == GridPoint(source, south, west, raster.width, i, j) {
      GridValueIs(source, least, south, west, raster.width, i, j);
    }
    CornersAt(latitude, longitude, south, west, raster.width, c, p, r, q);
    ValuesAround(source, south, west, raster, value, c, p, r, q);
  }

  /** The place of every coordinate that is read from the cell. */
  lemma {:induction false} EveryPlace(latitude: real, longitude: real, south: int, west: int, width: nat)
    returns (c: nat, p: real, r: nat, q: real)
    requires -89 <= south <= 88 && width > 0 && CellOf(latitude, longitude) == Address(south, west) && -180.0 <= longitude <= 180.0
    ensures PlacedAt(latitude, longitude, south, west, width, c, p, r, q)
  {
    var x, y := (longitude - west as real) * width as real, ((south + 1) as real - latitude) * 3600.0;
    PlacesInCell(latitude, longitude, south, west, width, x, y);
    c, p := Cut(x, width);
    SouthNearFloor(latitude);
    r, q := Cut(NotBelowZero(y), 3600);
  }

  lemma Cut(x: real, n: nat) returns (k: nat, rest: real)
    requires 0.0 <= x <= n as real
    ensures k as real + rest == x && 0.0 <= rest < 1.0 && k <= n && (k == n ==> rest == 0.0) && (x < n as real ==> k < n)
  {
    k := Floor(x);
    rest := x - k as real;
  }

  // ---------------------------------------------------------------- when the bilinear sample fails

  /** The first grid point that counts and is missing decides: it may be no data, or it could not be read. */
  predicate FirstLackFails(a: real, A: Sample, fa: bool, b: real, B: Sample, fb: bool, c: real, C: Sample, fc: bool, d: real, D: Sample, fd: bool) {
    if Lacks(a, A) then fa else if Lacks(b, B) then fb else if Lacks(c, C) then fc else Lacks(d, D) && fd
  }

  lemma FailsFour(value: (int, int) -> Sample, fails: (int, int) -> bool, corners: seq<Corner>)
    requires |corners| == 4
    ensures BlendFails(value, fails, corners)
            == FirstLackFails(corners[0].weight, value(corners[0].column, corners[0].row), fails(corners[0].column, corners[0].row),
                              corners[1].weight, value(corners[1].column, corners[1].row), fails(corners[1].column, corners[1].row),
                              corners[2].weight, value(corners[2].column, corners[2].row), fails(corners[2].column, corners[2].row),
                              corners[3].weight, value(corners[3].column, corners[3].row), fails(corners[3].column, corners[3].row))
  {
    BlendNext(value, corners, 0);
    BlendNext(value, corners, 1);
    BlendNext(value, corners, 2);
    BlendNext(value, corners, 3);
    FailsNext(value, fails, corners, 0);
    FailsNext(value, fails, corners, 1);
    FailsNext(value, fails, corners, 2);
    FailsNext(value, fails, corners, 3);
    assert corners[..4] == corners && corners[..0] == [];
  }

  predicate FailsAround(source: Source, south: int, west: int, width: nat, c: nat, p: real, r: nat, q: real)
    requires ValidSource(source) && width > 0
  {
    FirstLackFails((1.0 - p) * (1.0 - q), GridPoint(source, south, west, width, c, r), GridPointFails(source, south, west, width, c, r),
                   p * (1.0 - q), GridPoint(source, south, west, width, c + 1, r), GridPointFails(source, south, west, width, c + 1, r),
                   (1.0 - p) * q, GridPoint(source, south, west, width, c, r + 1), GridPointFails(source, south, west, width, c, r + 1),
                   p * q, GridPoint(source, south, west, width, c + 1, r + 1), GridPointFails(source, south, west, width, c + 1, r + 1))
  }

  lemma LackDepends(a: real, A: Sample, A': Sample, fa: bool, fa': bool, b: real, B: Sample, B': Sample, fb: bool, fb': bool,
                    c: real, C: Sample, C': Sample, fc: bool, fc': bool, d: real, D: Sample, D': Sample, fd: bool, fd': bool)
    requires Counts(a) ==> A == A' && fa == fa'
    requires Counts(b) ==> B == B' && fb == fb'
    requires Counts(c) ==> C == C' && fc == fc'
    requires Counts(d) ==> D == D' && fd == fd'
    ensures FirstLackFails(a, A, fa, b, B, fb, c, C, fc, d, D, fd) == FirstLackFails(a, A', fa', b, B', fb', c, C', fc', d, D', fd')
  {
  }

  lemma {:induction false} FourFailures(value: (int, int) -> Sample, fails: (int, int) -> bool, c: int, r: int, p: real, q: real)
    ensures BlendFails(value, fails, CornersOf(c, r, p, q))
            == FirstLackFails((1.0 - p) * (1.0 - q), value(c, r), fails(c, r), p * (1.0 - q), value(c + 1, r), fails(c + 1, r),
                              (1.0 - p) * q, value(c, r + 1), fails(c, r + 1), p * q, value(c + 1, r + 1), fails(c + 1, r + 1))
  {
    FailsFour(value, fails, CornersOf(c, r, p, q));
  }

  lemma {:induction false} FailuresAround(source: Source, south: int, west: int, width: nat, value: (int, int) -> Sample, fails: (int, int) -> bool,
                                          c: nat, p: real, r: nat, q: real, w1: real, w2: real, w3: real, w4: real)
    requires ValidSource(source) && width > 0 && r < 3600 && c <= width && (c == width ==> !Counts(w2) && !Counts(w4))
    requires forall i: nat, j: nat :: i <= width && j <= 3600 ==> value(i, j) == GridPoint(source, south, west, width, i, j)
    requires forall i: nat, j: nat :: i <= width && j <= 3600 ==> fails(i, j) == GridPointFails(source, south, west, width, i, j)
    requires w1 == (1.0 - p) * (1.0 - q) && w2 == p * (1.0 - q) && w3 == (1.0 - p) * q && w4 == p * q
    ensures FirstLackFails(w1, value(c, r), fails(c, r), w2, value(c + 1, r), fails(c + 1, r), w3, value(c, r + 1), fails(c, r + 1),
                           w4, value(c + 1, r + 1), fails(c + 1, r + 1))
            == FailsAround(source, south, west, width, c, p, r, q)
  {
    LackDepends(w1, value(c, r), GridPoint(source, south, west, width, c, r), fails(c, r), GridPointFails(source, south, west, width, c, r),
                w2, value(c + 1, r), GridPoint(source, south, west, width, c + 1, r),
                fails(c + 1, r), GridPointFails(source, south, west, width, c + 1, r),
                w3, value(c, r + 1), GridPoint(source, south, west, width, c, r + 1),
                fails(c, r + 1), GridPointFails(source, south, west, width, c, r + 1),
                w4, value(c + 1, r + 1), GridPoint(source, south, west, width, c + 1, r + 1),
                fails(c + 1, r + 1), GridPointFails(source, south, west, width, c + 1, r + 1));
  }

  /** Reading the bilinear sample fails exactly when the first grid point that counts and is missing could not be read. */
  lemma {:induction false} BilinearFailsIff(source: Source, least: nat, latitude: real, longitude: real, south: int, west: int, raster: Raster,
                                            c: nat, p: real, r: nat, q: real)
    requires Glo30(source, least) && -89 <= south <= 88 && -180 <= west <= 179 && source(south, west) == Loaded(raster)
    requires PlacedAt(latitude, longitude, south, west, raster.width, c, p, r, q)
    ensures BilinearFails(source, latitude, longitude) == FailsAround(source, south, west, raster.width, c, p, r, q)
  {
    var base := Address(south, west);
    var value, fails := GridValues(source, base, raster), GridFailures(source, base, raster);
    forall i: nat, j: nat | i <= raster.width && j <= 3600
      ensures value(i, j) == GridPoint(source, south, west, raster.width, i, j)
      ensures fails(i, j) == GridPointFails(source, south, west, raster.width, i, j)
    {
      GridValueIs(source, least, south, west, raster.width, i, j);
    }
    CornersAt(latitude, longitude, south, west, raster.width, c, p, r, q);
    WeightsVanish(p, q);
    FourFailures(value, fails, c, r, p, q);
    FailuresAround(source, south, west, raster.width, value, fails, c, p, r, q, (1.0 - p) * (1.0 - q), p * (1.0 - q), (1.0 - p) * q, p * q);
  }

  // ---------------------------------------------------------------- what the blend is

  lemma PixelIsValid(raster: Raster, c: int, r: int)
    requires ValidRaster(raster)
    ensures Pixel(raster, c, r).Some? ==> -10000.0 < Pixel(raster, c, r).value < 100000.0
  {
  }

  lemma GridPointIsValid(source: Source, south: int, west: int, width: nat, c: nat, r: nat)
    requires ValidSource(source) && width > 0
    ensures GridPoint(source, south, west, width, c, r).Some? ==> -10000.0 < GridPoint(source, south, west, width, c, r).value < 100000.0
  {
  }

  /** Interpolation along the two rows, and then between them. */
  function Interpolation(a: real, b: real, c: real, d: real, p: real, q: real): real {
    (1.0 - q) * ((1.0 - p) * a + p * b) + q * ((1.0 - p) * c + p * d)
  }

  predicate Whole(weight: real) {
    weight == 0.0 || Counts(weight)
  }

  lemma WholePart(weight: real, value: real)
    requires Whole(weight)
    ensures Part(weight, Some(value)) == weight * value
  {
  }

  lemma LightPart(weight: real, value: real)
    requires weight >= 0.0 && -100000.0 < value < 100000.0
    ensures -0.000000000025 <= Part(weight, Some(value)) - weight * value <= 0.000000000025
  {
    if !Counts(weight) {
      SmallProduct(weight, value);
    }
  }

  lemma SmallProduct(weight: real, value: real)
    requires 0.0 <= weight <= 1.0 / 4503599627370496.0 && -100000.0 < value < 100000.0
    ensures -0.000000000025 <= weight * value <= 0.000000000025
  {
    NonNegativeProduct(weight, 100000.0 - value);
    NonNegativeProduct(weight, 100000.0 + value);
    assert weight * (100000.0 - value) == weight * 100000.0 - weight * value;
    assert weight * (100000.0 + value) == weight * 100000.0 + weight * value;
  }

  lemma MixSums(a: real, b: real, c: real, d: real, p: real, q: real, w1: real, w2: real, w3: real, w4: real)
    requires w1 == (1.0 - p) * (1.0 - q) && w2 == p * (1.0 - q) && w3 == (1.0 - p) * q && w4 == p * q
    ensures w1 * a + w2 * b + w3 * c + w4 * d == Interpolation(a, b, c, d, p, q)
  {
    ThreeFactors(1.0 - p, 1.0 - q, a);
    ThreeFactors(p, 1.0 - q, b);
    ThreeFactors(1.0 - p, q, c);
    ThreeFactors(p, q, d);
    Shared(1.0 - q, (1.0 - p) * a, p * b);
    Shared(q, (1.0 - p) * c, p * d);
  }

  lemma ThreeFactors(x: real, y: real, z: real)
    ensures x * y * z == y * (x * z)
  {
  }

  lemma Shared(x: real, y: real, z: real)
    ensures x * (y + z) == x * y + x * z
  {
  }

  lemma WeightsArePositive(p: real, q: real, w1: real, w2: real, w3: real, w4: real)
    requires 0.0 <= p < 1.0 && 0.0 <= q < 1.0
    requires w1 == (1.0 - p) * (1.0 - q) && w2 == p * (1.0 - q) && w3 == (1.0 - p) * q && w4 == p * q
    ensures w1 >= 0.0 && w2 >= 0.0 && w3 >= 0.0 && w4 >= 0.0
  {
    NonNegativeProduct(1.0 - p, 1.0 - q);
    NonNegativeProduct(p, 1.0 - q);
    NonNegativeProduct(1.0 - p, q);
    NonNegativeProduct(p, q);
  }

  /** The value is the interpolation, to within a ten-billionth of a meter, and exactly when no weight is too light to count. */
  predicate Interpolates(sample: Option<real>, a: real, b: real, c: real, d: real, p: real, q: real) {
    var exact := Interpolation(a, b, c, d, p, q);
    && sample.Some? && -0.0000000001 <= sample.value - exact <= 0.0000000001
    && (Whole((1.0 - p) * (1.0 - q)) && Whole(p * (1.0 - q)) && Whole((1.0 - p) * q) && Whole(p * q) ==> sample.value == exact)
  }

  lemma {:induction false} MixInterpolates(a: real, b: real, c: real, d: real, p: real, q: real, w1: real, w2: real, w3: real, w4: real)
    requires 0.0 <= p < 1.0 && 0.0 <= q < 1.0
    requires w1 == (1.0 - p) * (1.0 - q) && w2 == p * (1.0 - q) && w3 == (1.0 - p) * q && w4 == p * q
    requires -100000.0 < a < 100000.0 && -100000.0 < b < 100000.0 && -100000.0 < c < 100000.0 && -100000.0 < d < 100000.0
    ensures Interpolates(Mix(w1, Some(a), w2, Some(b), w3, Some(c), w4, Some(d)), a, b, c, d, p, q)
  {
    WeightsArePositive(p, q, w1, w2, w3, w4);
    MixSums(a, b, c, d, p, q, w1, w2, w3, w4);
    LightParts(w1, a, w2, b, w3, c, w4, d);
  }

  lemma LightParts(w1: real, a: real, w2: real, b: real, w3: real, c: real, w4: real, d: real)
    requires w1 >= 0.0 && w2 >= 0.0 && w3 >= 0.0 && w4 >= 0.0
    requires -100000.0 < a < 100000.0 && -100000.0 < b < 100000.0 && -100000.0 < c < 100000.0 && -100000.0 < d < 100000.0
    ensures var mix := Mix(w1, Some(a), w2, Some(b), w3, Some(c), w4, Some(d));
      && mix.Some? && -0.0000000001 <= mix.value - (w1 * a + w2 * b + w3 * c + w4 * d) <= 0.0000000001
      && (Whole(w1) && Whole(w2) && Whole(w3) && Whole(w4) ==> mix.value == w1 * a + w2 * b + w3 * c + w4 * d)
  {
    LightPart(w1, a);
    LightPart(w2, b);
    LightPart(w3, c);
    LightPart(w4, d);
    if Whole(w1) && Whole(w2) && Whole(w3) && Whole(w4) {
      WholePart(w1, a);
      WholePart(w2, b);
      WholePart(w3, c);
      WholePart(w4, d);
    }
  }

  /** The grid points around a place all have these elevations. */
  ghost predicate Around(source: Source, south: int, west: int, width: nat, c: nat, r: nat, e00: real, e10: real, e01: real, e11: real)
    requires ValidSource(source) && width > 0
  {
    && GridPoint(source, south, west, width, c, r) == Some(e00) && GridPoint(source, south, west, width, c + 1, r) == Some(e10)
    && GridPoint(source, south, west, width, c, r + 1) == Some(e01) && GridPoint(source, south, west, width, c + 1, r + 1) == Some(e11)
  }

  lemma {:induction false} MixAroundInterpolates(source: Source, south: int, west: int, width: nat, c: nat, p: real, r: nat, q: real,
                                                 e00: real, e10: real, e01: real, e11: real)
    requires ValidSource(source) && width > 0 && Around(source, south, west, width, c, r, e00, e10, e01, e11)
    requires 0.0 <= p < 1.0 && 0.0 <= q < 1.0
    ensures Interpolates(MixAround(source, south, west, width, c, p, r, q), e00, e10, e01, e11, p, q)
  {
    GridPointIsValid(source, south, west, width, c, r);
    GridPointIsValid(source, south, west, width, c + 1, r);
    GridPointIsValid(source, south, west, width, c, r + 1);
    GridPointIsValid(source, south, west, width, c + 1, r + 1);
    MixInterpolates(e00, e10, e01, e11, p, q, (1.0 - p) * (1.0 - q), p * (1.0 - q), (1.0 - p) * q, p * q);
  }

  /** Where the four grid points have elevations, the bilinear sample is their interpolation. */
  lemma {:induction false} BilinearInterpolates(source: Source, least: nat, latitude: real, longitude: real, south: int, west: int, raster: Raster,
                                                c: nat, p: real, r: nat, q: real, e00: real, e10: real, e01: real, e11: real)
    requires Glo30(source, least) && -89 <= south <= 88 && -180 <= west <= 179 && source(south, west) == Loaded(raster)
    requires PlacedAt(latitude, longitude, south, west, raster.width, c, p, r, q)
    requires Around(source, south, west, raster.width, c, r, e00, e10, e01, e11)
    ensures Interpolates(Bilinear(source, latitude, longitude), e00, e10, e01, e11, p, q)
  {
    BilinearIsMix(source, least, latitude, longitude, south, west, raster, c, p, r, q);
    MixAroundInterpolates(source, south, west, raster.width, c, p, r, q, e00, e10, e01, e11);
  }

  /** On the upper side of the square only its two ends are read, and the sample lies between them. */
  lemma {:induction false} MixOnRow(p: real, A: Sample, B: Sample, C: Sample, D: Sample)
    requires 0.0 <= p < 1.0
    ensures Mix((1.0 - p) * (1.0 - 0.0), A, p * (1.0 - 0.0), B, (1.0 - p) * 0.0, C, p * 0.0, D)
            == if Lacks(1.0 - p, A) || Lacks(p, B) then None else Some(Part(1.0 - p, A) + Part(p, B))
  {
    assert (1.0 - p) * (1.0 - 0.0) == 1.0 - p && p * (1.0 - 0.0) == p && (1.0 - p) * 0.0 == 0.0 && p * 0.0 == 0.0;
  }

  lemma {:induction false} MixOnColumn(q: real, A: Sample, B: Sample, C: Sample, D: Sample)
    requires 0.0 <= q < 1.0
    ensures Mix((1.0 - 0.0) * (1.0 - q), A, 0.0 * (1.0 - q), B, (1.0 - 0.0) * q, C, 0.0 * q, D)
            == if Lacks(1.0 - q, A) || Lacks(q, C) then None else Some(Part(1.0 - q, A) + Part(q, C))
  {
    assert (1.0 - 0.0) * (1.0 - q) == 1.0 - q && 0.0 * (1.0 - q) == 0.0 && (1.0 - 0.0) * q == q && 0.0 * q == 0.0;
  }

  /** On a row of grid points the bilinear sample blends the two next to it, whatever lies below. */
  lemma {:induction false} BilinearOnRow(source: Source, least: nat, latitude: real, longitude: real, south: int, west: int, raster: Raster,
                                         c: nat, p: real, r: nat)
    requires Glo30(source, least) && -89 <= south <= 88 && -180 <= west <= 179 && source(south, west) == Loaded(raster)
    requires PlacedAt(latitude, longitude, south, west, raster.width, c, p, r, 0.0)
    ensures var A, B := GridPoint(source, south, west, raster.width, c, r), GridPoint(source, south, west, raster.width, c + 1, r);
      Bilinear(source, latitude, longitude) == if Lacks(1.0 - p, A) || Lacks(p, B) then None else Some(Part(1.0 - p, A) + Part(p, B))
  {
    BilinearIsMix(source, least, latitude, longitude, south, west, raster, c, p, r, 0.0);
    MixOnRow(p, GridPoint(source, south, west, raster.width, c, r), GridPoint(source, south, west, raster.width, c + 1, r),
             GridPoint(source, south, west, raster.width, c, r + 1), GridPoint(source, south, west, raster.width, c + 1, r + 1));
  }

  /** On a column of grid points likewise. */
  lemma {:induction false} BilinearOnColumn(source: Source, least: nat, latitude: real, longitude: real, south: int, west: int, raster: Raster,
                                            c: nat, r: nat, q: real)
    requires Glo30(source, least) && -89 <= south <= 88 && -180 <= west <= 179 && source(south, west) == Loaded(raster)
    requires PlacedAt(latitude, longitude, south, west, raster.width, c, 0.0, r, q)
    ensures var A, C := GridPoint(source, south, west, raster.width, c, r), GridPoint(source, south, west, raster.width, c, r + 1);
      Bilinear(source, latitude, longitude) == if Lacks(1.0 - q, A) || Lacks(q, C) then None else Some(Part(1.0 - q, A) + Part(q, C))
  {
    BilinearIsMix(source, least, latitude, longitude, south, west, raster, c, 0.0, r, q);
    MixOnColumn(q, GridPoint(source, south, west, raster.width, c, r), GridPoint(source, south, west, raster.width, c + 1, r),
                GridPoint(source, south, west, raster.width, c, r + 1), GridPoint(source, south, west, raster.width, c + 1, r + 1));
  }

  // ---------------------------------------------------------------- at and near a pixel

  function Distance(x: real, k: int): real { AbsReal(x - k as real) }

  /** No other grid column (of 0 to n) is closer to the place. */
  ghost predicate Nearest(x: real, k: nat, n: nat) {
    k <= n && forall other: nat :: other <= n ==> Distance(x, k) <= Distance(x, other)
  }

  lemma RoundIsNearest(x: real, n: nat)
    requires x <= n as real
    ensures Nearest(NotBelowZero(x), Max(0, Round(x)), n)
  {
    var place, k := NotBelowZero(x), Max(0, Round(x));
    assert AbsReal(x - Round(x) as real) <= 0.5;
    assert Distance(place, k) <= 0.5 && k <= n;
    forall other: nat | other <= n ensures Distance(place, k) <= Distance(place, other) {
      HalfIsNearest(place, k, other);
    }
  }

  lemma HalfIsNearest(x: real, k: int, other: int)
    requires Distance(x, k) <= 0.5
    ensures Distance(x, k) <= Distance(x, other)
  {
    if other > k {
      assert other as real >= k as real + 1.0;
    } else if other < k {
      assert other as real <= k as real - 1.0;
    }
  }

  /** Columns from the west edge of a cell, and rows from its north edge. */
  lemma {:induction false} PlacesInCell(latitude: real, longitude: real, south: int, west: int, width: nat, x: real, y: real)
    requires -89 <= south <= 88 && CellOf(latitude, longitude) == Address(south, west) && -180.0 <= longitude <= 180.0
    requires x == (longitude - west as real) * width as real && y == ((south + 1) as real - latitude) * 3600.0
    ensures 0.0 <= x <= width as real && y <= 3600.0
  {
    SouthNearFloor(latitude);
    var share := longitude - west as real;
    assert 0.0 <= share <= 1.0;
    InsideCell(share, width as real, x);
  }

  lemma ToPixels(degrees: real, width: nat, x: real)
    requires x == degrees * width as real
    ensures x == InPixels(degrees, width)
  {
  }

  lemma NearestColumnOf(longitude: real, south: int, west: int, width: nat, x: real)
    requires x == InPixels(longitude - west as real, width) && 0.0 <= x <= width as real
    ensures NativeColumn(Address(south, west), width, longitude) >= 0
    ensures Nearest(x, NativeColumn(Address(south, west), width, longitude), width)
  {
    RoundIsNearest(x, width);
  }

  lemma NearestRowOf(latitude: real, south: int, west: int, y: real)
    requires y == ((south + 1) as real - latitude) * 3600.0 && y <= 3600.0
    ensures NativeRow(Address(south, west), 3600, latitude) >= 0
    ensures Nearest(NotBelowZero(y), NativeRow(Address(south, west), 3600, latitude), 3600)
  {
    RoundIsNearest(y, 3600);
    assert NativeRow(Address(south, west), 3600, latitude) == Max(0, Round(y));
  }

  /** The native sample is the grid point of the cell nearest to the coordinate. */
  lemma {:induction false} NativeIsNearest(source: Source, least: nat, latitude: real, longitude: real, south: int, west: int, raster: Raster,
                                           x: real, y: real)
    returns (c: nat, r: nat)
    requires Glo30(source, least) && -89 <= south <= 88 && source(south, west) == Loaded(raster)
    requires CellOf(latitude, longitude) == Address(south, west) && -180.0 <= longitude <= 180.0
    requires x == (longitude - west as real) * raster.width as real && y == ((south + 1) as real - latitude) * 3600.0
    ensures Nearest(x, c, raster.width) && Nearest(NotBelowZero(y), r, 3600)
    ensures Native(source, latitude, longitude) == GridPoint(source, south, west, raster.width, c, r)
    ensures NativeFails(source, latitude, longitude) == GridPointFails(source, south, west, raster.width, c, r)
  {
    PlacesInCell(latitude, longitude, south, west, raster.width, x, y);
    ToPixels(longitude - west as real, raster.width, x);
    NearestColumnOf(longitude, south, west, raster.width, x);
    NearestRowOf(latitude, south, west, y);
    c, r := NativeColumn(Address(south, west), raster.width, longitude), NativeRow(Address(south, west), 3600, latitude);
    NativeIs(source, least, latitude, longitude, south, west, raster, c, r);
  }

  lemma {:induction false} NativeIs(source: Source, least: nat, latitude: real, longitude: real, south: int, west: int, raster: Raster, c: nat, r: nat)
    requires Glo30(source, least) && -89 <= south <= 88 && -180 <= west <= 179 && source(south, west) == Loaded(raster)
    requires CellOf(latitude, longitude) == Address(south, west) && c <= raster.width && r <= 3600
    requires c == NativeColumn(Address(south, west), raster.width, longitude) && r == NativeRow(Address(south, west), 3600, latitude)
    ensures Native(source, latitude, longitude) == GridPoint(source, south, west, raster.width, c, r)
    ensures NativeFails(source, latitude, longitude) == GridPointFails(source, south, west, raster.width, c, r)
  {
    GridValueIs(source, least, south, west, raster.width, c, r);
  }

  lemma InsideCell(share: real, n: real, x: real)
    requires 0.0 <= share <= 1.0 && n >= 0.0 && x == share * n
    ensures 0.0 <= x <= n
  {
    NonNegativeProduct(share, n);
    NonNegativeProduct(1.0 - share, n);
    assert (1.0 - share) * n == n - share * n;
  }

  lemma {:induction false} PlaceOfPixel(south: int, west: int, width: nat, c: nat, r: nat, latitude: real, longitude: real)
    requires -89 <= south <= 88 && -180 <= west <= 179 && c < width && r < 3600
    requires latitude == (south + 1) as real - r as real / 3600.0 && longitude == west as real + c as real / width as real
    ensures PlacedAt(latitude, longitude, south, west, width, c, 0.0, r, 0.0)
  {
    ColumnCell(Address(south, west), width, c);
    RowCell(Address(south, west), r);
    NotNegative(c, width);
    assert longitude - west as real == c as real / width as real;
  }

  lemma {:induction false} BilinearAtPixel(source: Source, least: nat, south: int, west: int, raster: Raster, c: nat, r: nat,
                                           latitude: real, longitude: real, zero: real)
    requires Glo30(source, least) && -89 <= south <= 88 && -180 <= west <= 179 && source(south, west) == Loaded(raster)
    requires zero == 0.0 && PlacedAt(latitude, longitude, south, west, raster.width, c, zero, r, zero)
    ensures Bilinear(source, latitude, longitude) == GridPoint(source, south, west, raster.width, c, r)
  {
    BilinearOnRow(source, least, latitude, longitude, south, west, raster, c, zero, r);
    AllOfOne(GridPoint(source, south, west, raster.width, c, r), GridPoint(source, south, west, raster.width, c + 1, r), zero);
  }

  lemma AllOfOne(A: Sample, B: Sample, zero: real)
    requires zero == 0.0
    ensures (if Lacks(1.0 - zero, A) || Lacks(zero, B) then None else Some(Part(1.0 - zero, A) + Part(zero, B))) == A
  {
  }

  lemma NativeAtPixel(south: int, west: int, width: nat, c: nat, r: nat, latitude: real, longitude: real)
    requires width > 0
    requires latitude == (south + 1) as real - r as real / 3600.0 && longitude == west as real + c as real / width as real
    ensures c == NativeColumn(Address(south, west), width, longitude) && r == NativeRow(Address(south, west), 3600, latitude)
  {
    NotNegative(c, width);
    assert longitude - west as real == c as real / width as real;
    RoundOfWhole(InPixels(longitude - west as real, width), c);
    RoundOfWhole(InPixels((south + 1) as real - latitude, 3600), r);
  }

  lemma RoundOfWhole(x: real, k: nat)
    requires x == k as real
    ensures Max(0, Round(x)) == k
  {
  }

  /** At the place of a pixel both samplers read that pixel. */
  lemma {:induction false} SamplersAtPixel(source: Source, least: nat, south: int, west: int, raster: Raster, c: nat, r: nat,
                                           latitude: real, longitude: real)
    requires Glo30(source, least) && -89 <= south <= 88 && -180 <= west <= 179 && source(south, west) == Loaded(raster)
    requires c < raster.width && r < 3600
    requires latitude == (south + 1) as real - r as real / 3600.0 && longitude == west as real + c as real / raster.width as real
    ensures Bilinear(source, latitude, longitude) == Pixel(raster, c, r)
    ensures Native(source, latitude, longitude) == Pixel(raster, c, r)
  {
    var zero := 0.0;
    PlaceOfPixel(south, west, raster.width, c, r, latitude, longitude);
    BilinearAtPixel(source, least, south, west, raster, c, r, latitude, longitude, zero);
    NativeAtPixel(south, west, raster.width, c, r, latitude, longitude);
    NativeIs(source, least, latitude, longitude, south, west, raster, c, r);
    OwnPixels(source, south, west, raster, c, r);
  }
}
