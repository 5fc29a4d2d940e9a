/**
 * The shared edge across the antimeridian. The easternmost tile's last column and the westernmost
 * tile's first column stand for the same meridian, but point samples of the two read different cells.
 */
module Antimeridian {
  import opened Wrappers
  import opened Numbers
  import opened TileRange
  import opened RasterWindow
  import opened AreaGrid
  import opened AreaCells
  import opened AreaTheorems
  import opened FlatRasters
  import opened SourceCells
  import opened PointSample
  import opened TileSamples
  import opened TilePrefetch
  import opened SharedEdges
  import EastEdges
  import WideColumns

  function Easternmost(zoom: nat, y: int): TileAddress { TileAddress(zoom, TileCount(zoom) - 1, y) }

  function Westernmost(zoom: nat, y: int): TileAddress { TileAddress(zoom, 0, y) }

  function BoxWidth(tile: TileAddress, column: int): real {
    EdgeLongitude(tile, column + 1) - EdgeLongitude(tile, column)
  }

  function BoxHeight(latitudeAt: real -> real, tile: TileAddress, row: int): real {
    EdgeLatitude(latitudeAt, tile, row) - EdgeLatitude(latitudeAt, tile, row + 1)
  }

  /** Whether the box of a sample is averaged whatever GLO-30 raster of so many columns lies under it. */
  predicate AlwaysAveraged(least: nat, latitudeAt: real -> real, zoom: nat, y: int, row: int)
    requires least > 0
  {
    && zoom < NATIVE_ZOOM
    && BoxWidth(Westernmost(zoom, y), 0) >= 1.0 / least as real
    && BoxHeight(latitudeAt, Westernmost(zoom, y), row) >= 1.0 / 3600.0
  }

  /** A place past the last column of tiles is the place past the first, one map further. */
  lemma {:induction false} TurnFraction(zoom: nat, offset: real)
    ensures Fraction(zoom, TileCount(zoom) - 1, offset + 64.0) == Fraction(zoom, 0, offset) + 1.0
  {
    NextFraction(zoom, TileCount(zoom) - 1, offset);
    WholeTurn(TileCount(zoom) as real, offset / 64.0);
  }

  lemma WholeTurn(n: real, offset: real)
    requires n > 0.0
    ensures (n + offset) / n == offset / n + 1.0
  {
    var a, b := (n + offset) / n, offset / n;
    assert a * n == n + offset && b * n == offset;
    assert (b + 1.0) * n == b * n + n;
    Cancel(a, b + 1.0, n);
    Cancel(b + 1.0, a, n);
  }

  /** The two columns lie on the two names of the antimeridian, their boxes a whole turn apart. */
  lemma {:induction false} TurnApart(zoom: nat, y: int)
    requires ValidTile(Westernmost(zoom, y))
    ensures var east, west := Easternmost(zoom, y), Westernmost(zoom, y);
            && SampleLongitude(east, CELL_COUNT) == 180.0 && SampleLongitude(west, 0) == -180.0
            && EdgeLongitude(east, CELL_COUNT) - 360.0 == EdgeLongitude(west, 0)
            && EdgeLongitude(east, CELL_COUNT + 1) - 360.0 == EdgeLongitude(west, 1)
  {
    TurnFraction(zoom, 0.0);
    TurnFraction(zoom, -0.5);
    TurnFraction(zoom, 0.5);
    FirstFraction(zoom);
  }

  lemma FirstFraction(zoom: nat)
    ensures Fraction(zoom, 0, 0.0) == 0.0
  {
    assert 0.0 / TileCount(zoom) as real == 0.0;
  }

  // ---------------------------------------------------------------- averaged boxes agree

  lemma {:induction false} CoversAnyPixel(least: nat, source: Source, latitude: real, longitude: real, width: real, height: real)
    requires Glo30(source, least) && width >= 1.0 / least as real && height >= 1.0 / 3600.0
    ensures BoxCoversPixel(source, latitude, longitude, width, height)
  {
    match RasterAt(source, CellOf(latitude, longitude))
    case None =>
    case Some(raster) => PixelAtMost(raster.width, least);
  }

  lemma PixelAtMost(width: int, least: nat)
    requires width >= least > 0
    ensures 1.0 / width as real <= 1.0 / least as real
  {
    HalfAtMost(width, least);
    assert 1.0 / width as real == 0.5 / width as real + 0.5 / width as real;
    assert 1.0 / least as real == 0.5 / least as real + 0.5 / least as real;
  }

  lemma WestRange(a: int, b: int, c: int, d: int) returns (w0: int, w1: int)
    ensures w0 <= a && b < w1 && w0 - 360 <= c && d < w1 - 360
  {
    w0, w1 := Min(a, c + 360), Max(b + 1, d + 361);
  }

  /** Boxes a whole turn apart hold the same sums. */
  lemma {:induction false} TurnedSums(least: nat, source: Source, latitudeAt: real -> real, east: TileAddress, west: TileAddress, row: int,
                                      column: int, column': int, mass: bool, a: real, b: real, lat: seq<real>, w0: int, w1: int)
    requires Projection(latitudeAt) && ValidTile(east) && ValidTile(west) && Glo30(source, least)
    requires 0 <= row < GRID_SIZE && 0 <= column < GRID_SIZE && 0 <= column' < GRID_SIZE
    requires Pair(a, b) == Pair(EdgeLongitude(east, column), EdgeLongitude(east, column + 1))
    requires Pair(a - 360.0, b - 360.0) == Pair(EdgeLongitude(west, column'), EdgeLongitude(west, column' + 1))
    requires lat == Pair(EdgeLatitude(latitudeAt, east, row), EdgeLatitude(latitudeAt, east, row + 1))
    requires lat == Pair(EdgeLatitude(latitudeAt, west, row), EdgeLatitude(latitudeAt, west, row + 1))
    requires w0 <= FirstWest(LongitudeEdges(east)) && LastWest(LongitudeEdges(east)) < w1
    requires w0 - 360 <= FirstWest(LongitudeEdges(west)) && LastWest(LongitudeEdges(west)) < w1 - 360
    requires BoxComplete(east, column, least) && BoxComplete(west, column', least)
    ensures BoxSum(source, latitudeAt, east, row, column, mass) == BoxSum(source, latitudeAt, west, row, column', mass)
  {
    TileBoxSum(source, least, latitudeAt, east, row, column, mass, w0, w1, Pair(a, b), lat);
    TileBoxSum(source, least, latitudeAt, west, row, column', mass, w0 - 360, w1 - 360, Pair(a - 360.0, b - 360.0), lat);
    PlainSumShift(source, a, b, lat, mass, -90, 90, w0, w1);
  }

  /** The last box of the easternmost tile ends just past longitude 180, far from the next cell. */
  lemma {:induction false} EasternmostComplete(least: nat, zoom: nat, y: int)
    requires least >= MIN_COLUMNS && ValidTile(Westernmost(zoom, y)) && zoom < NATIVE_ZOOM
    ensures BoxComplete(Easternmost(zoom, y), CELL_COUNT, least) && BoxComplete(Westernmost(zoom, y), 0, least)
  {
    var east, west := Easternmost(zoom, y), Westernmost(zoom, y);
    HalfAtMost(least, MIN_COLUMNS);
    EastEdges.InnerBoxesComplete(least, west, 0);
    EastEdges.EdgesApart(west, 0, 1);
    TurnApart(zoom, y);
    SampleInFirstBox(zoom, y);
    EastEdges.LastEdge(east, CELL_COUNT);
    assert 180.0 < EdgeLongitude(east, GRID_SIZE) < 180.5;
  }

  lemma SampleInFirstBox(zoom: nat, y: int)
    ensures EdgeLongitude(Westernmost(zoom, y), 0) < -180.0 < EdgeLongitude(Westernmost(zoom, y), 1)
  {
    FractionMonotone(zoom, 0, -0.5, 0.0);
    FractionMonotone(zoom, 0, 0.0, 0.5);
    FirstFraction(zoom);
  }

  lemma {:induction false} TurnedBoxSums(least: nat, source: Source, latitudeAt: real -> real, zoom: nat, y: int, row: int, mass: bool)
    requires least >= MIN_COLUMNS && Glo30(source, least) && zoom < NATIVE_ZOOM
    requires Projection(latitudeAt) && ValidTile(Westernmost(zoom, y)) && 0 <= row < GRID_SIZE
    ensures BoxSum(source, latitudeAt, Easternmost(zoom, y), row, CELL_COUNT, mass)
            == BoxSum(source, latitudeAt, Westernmost(zoom, y), row, 0, mass)
  {
    var east, west := Easternmost(zoom, y), Westernmost(zoom, y);
    TurnApart(zoom, y);
    EasternmostComplete(least, zoom, y);
    var w0, w1 := WestRange(FirstWest(LongitudeEdges(east)), LastWest(LongitudeEdges(east)),
                            FirstWest(LongitudeEdges(west)), LastWest(LongitudeEdges(west)));
    TurnedSums(least, source, latitudeAt, east, west, row, CELL_COUNT, 0, mass,
               EdgeLongitude(east, CELL_COUNT), EdgeLongitude(east, CELL_COUNT + 1),
               Pair(EdgeLatitude(latitudeAt, east, row), EdgeLatitude(latitudeAt, east, row + 1)), w0, w1);
  }

  lemma {:induction false} AveragedEdgesAgree(least: nat, source: Source, latitudeAt: real -> real, zoom: nat, y: int, row: int)
    requires least >= MIN_COLUMNS && Glo30(source, least) && AlwaysAveraged(least, latitudeAt, zoom, y, row)
    requires Projection(latitudeAt) && ValidTile(Westernmost(zoom, y)) && 0 <= row < GRID_SIZE
    ensures TileSample(source, latitudeAt, Easternmost(zoom, y), row, CELL_COUNT)
            == TileSample(source, latitudeAt, Westernmost(zoom, y), row, 0)
  {
    var east, west := Easternmost(zoom, y), Westernmost(zoom, y);
    TurnApart(zoom, y);
    CoversAnyPixel(least, source, SampleLatitude(latitudeAt, east, row), SampleLongitude(east, CELL_COUNT),
                   BoxWidth(east, CELL_COUNT), BoxHeight(latitudeAt, east, row));
    CoversAnyPixel(least, source, SampleLatitude(latitudeAt, west, row), SampleLongitude(west, 0),
                   BoxWidth(west, 0), BoxHeight(latitudeAt, west, row));
    TurnedBoxSums(least, source, latitudeAt, zoom, y, row, false);
    TurnedBoxSums(least, source, latitudeAt, zoom, y, row, true);
  }

  // ---------------------------------------------------------------- a source that tells the sides apart

  /** 100 m in the cells that end at the antimeridian, sea level in all others. */
  function Stepped(columns: nat): Source {
    (s: int, w: int) => Loaded(Flat(columns, if w == 179 then 100.0 else 0.0))
  }

  lemma SteppedIsGlo30(columns: nat)
    requires 0 < columns <= 3600
    ensures Glo30(Stepped(columns), columns)
  {
    var source := Stepped(columns);
    forall s, w ensures source(s, w) == Loaded(Flat(columns, if w == 179 then 100.0 else 0.0)) {
    }
  }

  lemma {:induction false} SteppedValue(columns: nat, base: Address, column: int, row: int, west: int)
    requires columns > 0 && ValidSource(Stepped(columns))
    requires west == GridAddress(base, columns, 3600, column, row).west
    ensures GridValue(Stepped(columns), base, columns, 3600, column, row) == Some(if west == 179 then 100.0 else 0.0)
  {
    var address := GridAddress(base, columns, 3600, column, row);
    var c := Clamp(Round(InPixels(GridLongitude(base, columns, column) - address.west as real, columns)), 0, columns - 1);
    var r := Clamp(Round(InPixels((address.south + 1) as real - GridLatitude(base, 3600, row), 3600)), 0, 3599);
    FlatPixel(columns, if west == 179 then 100.0 else 0.0, c, r);
  }

  /** When every corner that counts has the same elevation, the blend is that elevation times what counts. */
  function CountedWeight(corners: seq<Corner>): (weight: real)
    decreases |corners|
  {
    if corners == [] then 0.0
    else
      var last := corners[|corners| - 1];
      CountedWeight(corners[..|corners| - 1]) + if last.weight <= EPSILON then 0.0 else last.weight
  }

  lemma {:induction false} CountedWeightGrows(corners: seq<Corner>)
    ensures CountedWeight(corners) >= 0.0
    ensures forall i :: 0 <= i < |corners| && corners[i].weight > EPSILON ==> CountedWeight(corners) > 0.0
    decreases |corners|
  {
    if corners != [] {
      CountedWeightGrows(corners[..|corners| - 1]);
      forall i | 0 <= i < |corners| && corners[i].weight > EPSILON ensures CountedWeight(corners) > 0.0 {
        if i < |corners| - 1 {
          assert corners[..|corners| - 1][i] == corners[i];
        }
      }
    }
  }

  function Scaled(weight: real, elevation: real): real { weight * elevation }

  lemma Distribute(a: real, b: real, c: real)
    ensures (a + b) * c == a * c + b * c
  {
  }

  ghost predicate AllAre(value: (int, int) -> Sample, corners: seq<Corner>, elevation: real) {
    forall i :: 0 <= i < |corners| && corners[i].weight > EPSILON ==> value(corners[i].column, corners[i].row) == Some(elevation)
  }

  lemma {:induction false} FlatBlend(value: (int, int) -> Sample, corners: seq<Corner>, elevation: real)
    requires AllAre(value, corners, elevation)
    ensures Blend(value, corners) == Some(Scaled(CountedWeight(corners), elevation))
    decreases |corners|
  {
    if corners != [] {
      var rest, last := corners[..|corners| - 1], corners[|corners| - 1];
      FlatBlend(value, rest, elevation);
      FlatCorner(Blend(value, rest), last.weight, value(last.column, last.row), CountedWeight(rest), elevation);
    }
  }

  lemma FlatCorner(before: Option<real>, weight: real, sample: Sample, counted: real, elevation: real)
    requires before == Some(Scaled(counted, elevation)) && (weight > EPSILON ==> sample == Some(elevation))
    ensures AddCorner(before, weight, sample) == Some(Scaled(counted + if weight <= EPSILON then 0.0 else weight, elevation))
  {
    Distribute(counted, weight, elevation);
  }

  lemma {:induction false} SomeCornerCounts(base: Address, width: int, latitude: real, longitude: real)
    requires ClampReal(InPixels(longitude - base.west as real, width)
                       - Max(0, Floor(InPixels(longitude - base.west as real, width))) as real, 0.0, 1.0) == 0.0
    ensures var corners := Corners(base, width, 3600, latitude, longitude);
            corners[0].weight > EPSILON || corners[2].weight > EPSILON
    ensures var corners := Corners(base, width, 3600, latitude, longitude);
            forall i :: 0 <= i < 4 && corners[i].weight > EPSILON ==> corners[i].column == Max(0, Floor(InPixels(longitude - base.west as real, width)))
  {
    var y := InPixels((base.south + 1) as real - latitude, 3600);
    var v := ClampReal(y - Max(0, Floor(y)) as real, 0.0, 1.0);
    assert 0.0 * (1.0 - v) == 0.0 && 0.0 * v == 0.0 && (1.0 - 0.0) * (1.0 - v) == 1.0 - v && (1.0 - 0.0) * v == v;
  }

  lemma {:induction false} SteppedBlend(columns: nat, base: Address, raster: Raster, corners: seq<Corner>, column: int, elevation: real)
    requires columns > 0 && ValidSource(Stepped(columns)) && raster == Flat(columns, elevation)
    requires base.west == SourceWest(GridLongitude(base, columns, column)) && elevation == if base.west == 179 then 100.0 else 0.0
    requires forall i :: 0 <= i < |corners| && corners[i].weight > EPSILON ==> corners[i].column == column
    requires exists i :: 0 <= i < |corners| && corners[i].weight > EPSILON
    ensures var blend := Blend(GridValues(Stepped(columns), base, raster), corners);
            blend.Some? && if elevation == 0.0 then blend.value == 0.0 else blend.value > 0.0
  {
    var value := GridValues(Stepped(columns), base, raster);
    forall i | 0 <= i < |corners| && corners[i].weight > EPSILON
      ensures value(corners[i].column, corners[i].row) == Some(elevation)
    {
      SteppedValue(columns, base, column, corners[i].row, base.west);
    }
    FlatBlend(value, corners, elevation);
    CountedWeightGrows(corners);
    SignOf(CountedWeight(corners), elevation);
  }

  lemma SignOf(weight: real, elevation: real)
    requires weight > 0.0
    ensures elevation == 0.0 ==> weight * elevation == 0.0
    ensures elevation > 0.0 ==> weight * elevation > 0.0
  {
  }

  /** On the antimeridian the stepped source is 100 m (times what counts) or sea level, by the side it is named from. */
  lemma {:induction false} SteppedSample(columns: nat, latitude: real, longitude: real, column: int, elevation: real)
    requires OnSide(columns, longitude, column, elevation) && Glo30(Stepped(columns), columns)
    ensures Bilinear(Stepped(columns), latitude, longitude).Some?
    ensures if elevation == 0.0 then Bilinear(Stepped(columns), latitude, longitude).value == 0.0
            else Bilinear(Stepped(columns), latitude, longitude).value > 0.0
  {
    var base, raster := CellOf(latitude, longitude), Flat(columns, elevation);
    OnAntimeridian(columns, base, longitude, column, elevation);
    SomeCornerCounts(base, columns, latitude, longitude);
    BilinearIs(Stepped(columns), latitude, longitude, base, raster);
    SteppedBlend(columns, base, raster, Corners(base, columns, 3600, latitude, longitude), column, elevation);
  }

  /** The antimeridian named from its west side, where cell 179 ends, or from its east side, where cell -180 starts. */
  predicate OnSide(columns: nat, longitude: real, column: int, elevation: real) {
    if longitude == 180.0 then column == columns && elevation == 100.0
    else longitude == -180.0 && column == 0 && elevation == 0.0
  }

  lemma OnAntimeridian(columns: nat, base: Address, longitude: real, column: int, elevation: real)
    requires columns > 0 && base.west == SourceWest(longitude) && OnSide(columns, longitude, column, elevation)
    ensures GridLongitude(base, columns, column) == longitude
    ensures base.west == if longitude == 180.0 then 179 else -180
    ensures InPixels(longitude - base.west as real, columns) == column as real && Floor(column as real) == column
  {
    assert column as real / columns as real == if longitude == 180.0 then 1.0 else 0.0;
  }

  // ---------------------------------------------------------------- the theorem

  /** The tiles agree on this sample of their shared edge, whatever the source holds. */
  ghost predicate EdgeAgrees(least: nat, latitudeAt: real -> real, zoom: nat, y: int, row: int) {
    forall source: Source :: Glo30(source, least) ==> AgreesFor(source, latitudeAt, zoom, y, row)
  }

  ghost predicate AgreesFor(source: Source, latitudeAt: real -> real, zoom: nat, y: int, row: int)
    requires ValidSource(source)
  {
    TileSample(source, latitudeAt, Easternmost(zoom, y), row, CELL_COUNT)
    == TileSample(source, latitudeAt, Westernmost(zoom, y), row, 0)
  }

  /** A tile sample is a point sample at the native zoom, and where a present raster is too coarse for the box. */
  lemma {:induction false} PointSampled(source: Source, latitudeAt: real -> real, tile: TileAddress, row: int, column: int,
                                        latitude: real, longitude: real, raster: Raster)
    requires ValidSource(source) && latitude == SampleLatitude(latitudeAt, tile, row) && longitude == SampleLongitude(tile, column)
    requires RasterAt(source, CellOf(latitude, longitude)) == Some(raster)
    requires tile.zoom == NATIVE_ZOOM || BoxWidth(tile, column) < 1.0 / raster.width as real
             || BoxHeight(latitudeAt, tile, row) < 1.0 / raster.height as real
    requires tile.zoom <= NATIVE_ZOOM
    ensures TileSample(source, latitudeAt, tile, row, column) == Bilinear(source, latitude, longitude)
  {
  }

  lemma {:induction false} BothBoxesSmall(least: nat, latitudeAt: real -> real, zoom: nat, y: int, row: int, tile: TileAddress, column: int)
    requires least > 0 && ValidTile(Westernmost(zoom, y)) && !AlwaysAveraged(least, latitudeAt, zoom, y, row)
    requires (tile == Westernmost(zoom, y) && column == 0) || (tile == Easternmost(zoom, y) && column == CELL_COUNT)
    ensures tile.zoom == NATIVE_ZOOM || BoxWidth(tile, column) < 1.0 / least as real || BoxHeight(latitudeAt, tile, row) < 1.0 / 3600.0
  {
    TurnApart(zoom, y);
  }

  lemma {:induction false} SteppedTile(least: nat, latitudeAt: real -> real, zoom: nat, y: int, row: int, tile: TileAddress, column: int,
                                       latitude: real, longitude: real, elevation: real)
    requires ValidTile(Westernmost(zoom, y)) && Glo30(Stepped(least), least) && !AlwaysAveraged(least, latitudeAt, zoom, y, row)
    requires latitude == SampleLatitude(latitudeAt, tile, row)
    requires (tile == Westernmost(zoom, y) && column == 0 && longitude == -180.0 && elevation == 0.0)
             || (tile == Easternmost(zoom, y) && column == CELL_COUNT && longitude == 180.0 && elevation == 100.0)
    ensures TileSample(Stepped(least), latitudeAt, tile, row, column) == Bilinear(Stepped(least), latitude, longitude)
  {
    TurnApart(zoom, y);
    BothBoxesSmall(least, latitudeAt, zoom, y, row, tile, column);
    PointSampled(Stepped(least), latitudeAt, tile, row, column, latitude, longitude, Flat(least, elevation));
  }

  lemma {:induction false} SteppedDisagrees(least: nat, latitudeAt: real -> real, zoom: nat, y: int, row: int)
    requires Projection(latitudeAt) && ValidTile(Westernmost(zoom, y)) && 0 <= row < GRID_SIZE
    requires 0 < least <= 3600 && !AlwaysAveraged(least, latitudeAt, zoom, y, row)
    ensures Glo30(Stepped(least), least) && !AgreesFor(Stepped(least), latitudeAt, zoom, y, row)
  {
    SteppedIsGlo30(least);
    var latitude := SampleLatitude(latitudeAt, Westernmost(zoom, y), row);
    SteppedTile(least, latitudeAt, zoom, y, row, Easternmost(zoom, y), CELL_COUNT, latitude, 180.0, 100.0);
    SteppedTile(least, latitudeAt, zoom, y, row, Westernmost(zoom, y), 0, latitude, -180.0, 0.0);
    SteppedSample(least, latitude, 180.0, least, 100.0);
    SteppedSample(least, latitude, -180.0, 0, 0.0);
  }

  /**
   * Across the antimeridian the two tiles agree on a shared sample for every GLO-30 source of so many
   * columns if and only if its box is averaged whatever lies under it. At the native zoom it never is.
   */
  lemma {:induction false} AntimeridianAgreesIff(least: nat, latitudeAt: real -> real, zoom: nat, y: int, row: int)
    requires MIN_COLUMNS <= least <= 3600
    requires Projection(latitudeAt) && ValidTile(Westernmost(zoom, y)) && 0 <= row < GRID_SIZE
    ensures EdgeAgrees(least, latitudeAt, zoom, y, row) <==> AlwaysAveraged(least, latitudeAt, zoom, y, row)
  {
    if AlwaysAveraged(least, latitudeAt, zoom, y, row) {
      forall source: Source | Glo30(source, least) ensures AgreesFor(source, latitudeAt, zoom, y, row) {
        AveragedEdgesAgree(least, source, latitudeAt, zoom, y, row);
      }
    } else {
      SteppedDisagrees(least, latitudeAt, zoom, y, row);
    }
  }

  /** A box is a source pixel wide when a row of tiles has no more boxes than a row of cells has pixels. */
  lemma {:induction false} WideEnoughIff(least: nat, zoom: nat, y: int)
    requires least > 0
    ensures BoxWidth(Westernmost(zoom, y), 0) >= 1.0 / least as real <==> 64 * TileCount(zoom) <= 360 * least
  {
    var west, n, m := Westernmost(zoom, y), TileCount(zoom) as real, least as real;
    var width := BoxWidth(west, 0);
    EastEdges.EdgeTimes(west, 0, TileCount(zoom));
    EastEdges.EdgeTimes(west, 1, TileCount(zoom));
    EastEdges.ApartTimes(EdgeLongitude(west, 0) + 180.0, EdgeLongitude(west, 1) + 180.0, n);
    assert width * n * 64.0 == 360.0;
    WidthOrder(width, n, m);
  }

  lemma WidthOrder(width: real, n: real, m: real)
    requires n > 0.0 && m > 0.0 && width * n * 64.0 == 360.0
    ensures width >= 1.0 / m <==> 64.0 * n <= 360.0 * m
  {
    var pixel := 1.0 / m;
    WideColumns.SameOrder(width, pixel, 64.0 * n * m);
    assert width * (64.0 * n * m) == 360.0 * m by {
      EastEdges.Regroup(width, 64.0 * n, m);
    }
    assert pixel * (64.0 * n * m) == 64.0 * n by {
      assert pixel * m == 1.0;
      EastEdges.Regroup(pixel, m, 64.0 * n);
    }
  }

  /**
   * In terms of zoom and columns. With 360 columns a cell the boxes are wide enough up to zoom 10, with the
   * 600 of all cells below 85 degrees up to zoom 11.
   */
  lemma {:induction false} AntimeridianByZoom(least: nat, latitudeAt: real -> real, zoom: nat, y: int, row: int)
    requires MIN_COLUMNS <= least <= 3600
    requires Projection(latitudeAt) && ValidTile(Westernmost(zoom, y)) && 0 <= row < GRID_SIZE
    ensures EdgeAgrees(least, latitudeAt, zoom, y, row)
            <==> zoom < NATIVE_ZOOM && 64 * TileCount(zoom) <= 360 * least && BoxHeight(latitudeAt, Westernmost(zoom, y), row) >= 1.0 / 3600.0
    ensures zoom <= 10 || (zoom == 11 && least >= USUAL_COLUMNS) ==>
              (EdgeAgrees(least, latitudeAt, zoom, y, row) <==> BoxHeight(latitudeAt, Westernmost(zoom, y), row) >= 1.0 / 3600.0)
  {
    AntimeridianAgreesIff(least, latitudeAt, zoom, y, row);
    WideEnoughIff(least, zoom, y);
    if zoom < NATIVE_ZOOM {
      EastEdges.CountOf(zoom);
    }
  }
}
