/** What an averaged sample is: the mean elevation of the source pixels under its box, weighted by the area they share with it. */
module AreaMeans {
  import opened Wrappers
  import opened RealSums
  import opened RasterWindow
  import opened AreaOverlap
  import opened AreaAccumulate
  import opened AreaAverage
  import opened AreaGrid
  import opened AreaCells
  import opened PointSample
  import opened TileSamples
  import opened TileFetch
  import opened WideColumns

  // ---------------------------------------------------------------- pixels under a box

  /** The box of a sample, as two intervals. */
  datatype SampleBox = SampleBox(west: real, east: real, south: real, north: real)

  predicate Share(a0: real, a1: real, b0: real, b1: real) {
    a0 < a1 && b0 < b1 && a0 < b1 && b0 < a1
  }

  /** Pixel (c, r) of a raster of the cell (s, w), half a pixel to each side of its centre, shares area with the box. */
  predicate Touches(box: SampleBox, raster: Raster, s: int, w: int, c: int, r: int)
    requires ValidRaster(raster)
  {
    && Share(w as real + (c as real - 0.5) / raster.width as real, w as real + (c as real + 0.5) / raster.width as real, box.west, box.east)
    && Share((s + 1) as real - (r as real + 0.5) / raster.height as real, (s + 1) as real - (r as real - 0.5) / raster.height as real,
             box.south, box.north)
  }

  /** The pixel has the elevation and lies under the box. */
  predicate Under(box: SampleBox, source: Source, s: int, w: int, c: int, r: int, elevation: real)
    requires ValidSource(source)
  {
    match source(s, WrappedWest(w))
    case Loaded(raster) =>
      0 <= c < raster.width && 0 <= r < raster.height && Pixel(raster, c, r) == Some(elevation) && Touches(box, raster, s, w, c, r)
    case _ => false
  }

  function BoxAt(lon: seq<real>, lat: seq<real>, i: int, j: int): SampleBox
    requires 0 <= i < |lat| - 1 && 0 <= j < |lon| - 1
  {
    SampleBox(lon[j], lon[j + 1], lat[i + 1], lat[i])
  }

  // ---------------------------------------------------------------- terms of pixels

  lemma OverlapIff(a0: real, a1: real, b0: real, b1: real)
    ensures Overlap(a0, a1, b0, b1) > 0.0 <==> Share(a0, a1, b0, b1)
    ensures Overlap(a0, a1, b0, b1) >= 0.0
  {
  }

  /** A pixel has a weight in a box if and only if it has an elevation and lies under the box. */
  lemma {:induction false} TermIff(raster: Raster, lon: seq<real>, lat: seq<real>, i: int, j: int, s: int, w: int, c: int, r: int)
    requires ValidRaster(raster) && 0 <= i < |lat| - 1 && 0 <= j < |lon| - 1
    ensures var x, y := ColumnMap(lon, w as real, raster.width), RowMap(lat, (s + 1) as real, raster.height);
      && (x(c, j) > 0.0 && y(r, i) > 0.0 <==> Touches(BoxAt(lon, lat, i, j), raster, s, w, c, r))
      && x(c, j) >= 0.0 && y(r, i) >= 0.0
  {
    OverlapIff(w as real + (c as real - 0.5) / raster.width as real, w as real + (c as real + 0.5) / raster.width as real, lon[j], lon[j + 1]);
    OverlapIff((s + 1) as real - (r as real + 0.5) / raster.height as real, (s + 1) as real - (r as real - 0.5) / raster.height as real,
               lat[i + 1], lat[i]);
  }

  lemma ProductBetween(x: real, y: real, sample: Sample, lo: real, hi: real)
    requires x >= 0.0 && y >= 0.0 && (x > 0.0 && y > 0.0 && sample.Some? ==> lo <= sample.value <= hi)
    ensures Between(y * (x * AreaAccumulate.Counted(sample, false)), y * (x * AreaAccumulate.Counted(sample, true)), lo, hi)
  {
    if x == 0.0 || sample.None? {
      assert x * AreaAccumulate.Counted(sample, false) == 0.0 && x * AreaAccumulate.Counted(sample, true) == 0.0;
    } else if y > 0.0 {
      Weighted(x, y, sample.value, lo, hi);
    }
  }

  lemma Weighted(x: real, y: real, value: real, lo: real, hi: real)
    requires x > 0.0 && y > 0.0 && lo <= value <= hi
    ensures Between(y * (x * value), y * (x * 1.0), lo, hi)
  {
    var area := y * x;
    assert area > 0.0 && y * (x * value) == area * value && y * (x * 1.0) == area;
    Ordered(area, lo, value);
    Ordered(area, value, hi);
  }

  lemma Ordered(area: real, a: real, b: real)
    requires area > 0.0 && a <= b
    ensures a * area <= area * b && area * a <= b * area
  {
    assert area * (b - a) >= 0.0;
  }

  ghost predicate AllUnder(source: Source, lon: seq<real>, lat: seq<real>, i: int, j: int, s: int, w: int, lo: real, hi: real)
    requires ValidSource(source) && 0 <= i < |lat| - 1 && 0 <= j < |lon| - 1
  {
    forall c, r, elevation :: Under(BoxAt(lon, lat, i, j), source, s, w, c, r, elevation) ==> lo <= elevation <= hi
  }

  lemma {:induction false} TermBetween(raster: Raster, lon: seq<real>, lat: seq<real>, i: int, j: int, s: int, w: int, lo: real, hi: real, c: int, r: int)
    requires ValidRaster(raster) && 0 <= i < |lat| - 1 && 0 <= j < |lon| - 1
    requires Touches(BoxAt(lon, lat, i, j), raster, s, w, c, r) && Pixel(raster, c, r).Some? ==> lo <= Pixel(raster, c, r).value <= hi
    ensures var pixels, x, y := PixelsOf(raster), ColumnMap(lon, w as real, raster.width), RowMap(lat, (s + 1) as real, raster.height);
      Between(PixelTerm(pixels, x, y, i, j, false)(c, r), PixelTerm(pixels, x, y, i, j, true)(c, r), lo, hi)
  {
    var x, y := ColumnMap(lon, w as real, raster.width), RowMap(lat, (s + 1) as real, raster.height);
    TermIff(raster, lon, lat, i, j, s, w, c, r);
    TermsBetween(PixelsOf(raster), x, y, i, j, c, r, lo, hi);
  }

  lemma TermsBetween(pixels: (int, int) -> Sample, x: (int, int) -> real, y: (int, int) -> real, i: int, j: int, c: int, r: int, lo: real, hi: real)
    requires x(c, j) >= 0.0 && y(r, i) >= 0.0 && (x(c, j) > 0.0 && y(r, i) > 0.0 && pixels(c, r).Some? ==> lo <= pixels(c, r).value <= hi)
    ensures Between(PixelTerm(pixels, x, y, i, j, false)(c, r), PixelTerm(pixels, x, y, i, j, true)(c, r), lo, hi)
  {
    ProductBetween(x(c, j), y(r, i), pixels(c, r), lo, hi);
  }

  lemma {:induction false} RasterBetween(raster: Raster, lon: seq<real>, lat: seq<real>, i: int, j: int, s: int, w: int, lo: real, hi: real)
    requires ValidRaster(raster) && 0 <= i < |lat| - 1 && 0 <= j < |lon| - 1
    requires forall c, r ::
               (0 <= c < raster.width && 0 <= r < raster.height && Touches(BoxAt(lon, lat, i, j), raster, s, w, c, r) && Pixel(raster, c, r).Some?)
               ==> lo <= Pixel(raster, c, r).value <= hi
    ensures Between(RasterTerm(raster, lon, lat, i, j, false, s, w), RasterTerm(raster, lon, lat, i, j, true, s, w), lo, hi)
  {
    var pixels, x, y := PixelsOf(raster), ColumnMap(lon, w as real, raster.width), RowMap(lat, (s + 1) as real, raster.height);
    var f, g := PixelTerm(pixels, x, y, i, j, false), PixelTerm(pixels, x, y, i, j, true);
    forall c, r | 0 <= c < raster.width && 0 <= r < raster.height ensures Between(f(c, r), g(c, r), lo, hi) {
      TermBetween(raster, lon, lat, i, j, s, w, lo, hi, c, r);
    }
    RectBetween(f, g, lo, hi, 0, raster.width, 0, raster.height);
  }

  lemma {:induction false} CellBetween(source: Source, lon: seq<real>, lat: seq<real>, i: int, j: int, s: int, w: int, lo: real, hi: real)
    requires ValidSource(source) && 0 <= i < |lat| - 1 && 0 <= j < |lon| - 1 && AllUnder(source, lon, lat, i, j, s, w, lo, hi)
    ensures Between(CellTerm(source, lon, lat, i, j, false, s, w), CellTerm(source, lon, lat, i, j, true, s, w), lo, hi)
  {
    if source(s, WrappedWest(w)).Loaded? {
      var raster := source(s, WrappedWest(w)).raster;
      forall c, r | 0 <= c < raster.width && 0 <= r < raster.height && Touches(BoxAt(lon, lat, i, j), raster, s, w, c, r)
                    && Pixel(raster, c, r).Some?
        ensures lo <= Pixel(raster, c, r).value <= hi
      {
        assert Under(BoxAt(lon, lat, i, j), source, s, w, c, r, Pixel(raster, c, r).value);
      }
      RasterBetween(raster, lon, lat, i, j, s, w, lo, hi);
    }
  }

  /** If all pixels of the cells under a box have elevations in a range, the mass of the box is in that range times its weight. */
  lemma {:induction false} MassBetween(source: Source, lon: seq<real>, lat: seq<real>, i: int, j: int, s0: int, s1: int, w0: int, w1: int, lo: real, hi: real)
    requires ValidSource(source) && 0 <= i < |lat| - 1 && 0 <= j < |lon| - 1
    requires forall s, w :: s0 <= s < s1 && w0 <= w < w1 ==> AllUnder(source, lon, lat, i, j, s, w, lo, hi)
    ensures Between(PlainSum(source, lon, lat, i, j, false, s0, s1, w0, w1), PlainSum(source, lon, lat, i, j, true, s0, s1, w0, w1), lo, hi)
  {
    var f, g := BandSum(source, lon, lat, i, j, false, w0, w1), BandSum(source, lon, lat, i, j, true, w0, w1);
    forall s | s0 <= s < s1 ensures Between(f(s), g(s), lo, hi) {
      var cells, weights := BandTerm(source, lon, lat, i, j, false, s), BandTerm(source, lon, lat, i, j, true, s);
      forall w | w0 <= w < w1 ensures Between(cells(w), weights(w), lo, hi) {
        CellBetween(source, lon, lat, i, j, s, w, lo, hi);
      }
      SumBetween(cells, weights, lo, hi, w0, w1);
    }
    SumBetween(f, g, lo, hi, s0, s1);
  }

  // ---------------------------------------------------------------- when a box has a weight

  lemma {:induction false} UnderWeighs(source: Source, lon: seq<real>, lat: seq<real>, i: int, j: int, s: int, w: int, c: int, r: int, elevation: real)
    requires ValidSource(source) && 0 <= i < |lat| - 1 && 0 <= j < |lon| - 1 && Under(BoxAt(lon, lat, i, j), source, s, w, c, r, elevation)
    ensures CellTerm(source, lon, lat, i, j, true, s, w) > 0.0
  {
    var raster := source(s, WrappedWest(w)).raster;
    var x, y := ColumnMap(lon, w as real, raster.width), RowMap(lat, (s + 1) as real, raster.height);
    var term := PixelTerm(PixelsOf(raster), x, y, i, j, true);
    TermIff(raster, lon, lat, i, j, s, w, c, r);
    TermIsPositive(PixelsOf(raster), x, y, i, j, c, r);
    forall c, r ensures term(c, r) >= 0.0 {
      TermIsNatural(raster, lon, lat, i, j, s, w, c, r);
    }
    RectPositive(term, 0, raster.width, 0, raster.height, c, r);
  }

  lemma {:induction false} WeightIsUnder(source: Source, lon: seq<real>, lat: seq<real>, i: int, j: int, s: int, w: int)
    returns (c: int, r: int, elevation: real)
    requires ValidSource(source) && 0 <= i < |lat| - 1 && 0 <= j < |lon| - 1 && CellTerm(source, lon, lat, i, j, true, s, w) > 0.0
    ensures Under(BoxAt(lon, lat, i, j), source, s, w, c, r, elevation)
  {
    var raster := source(s, WrappedWest(w)).raster;
    var x, y := ColumnMap(lon, w as real, raster.width), RowMap(lat, (s + 1) as real, raster.height);
    var term := PixelTerm(PixelsOf(raster), x, y, i, j, true);
    c, r := RectHasPositive(term, 0, raster.width, 0, raster.height);
    TermIff(raster, lon, lat, i, j, s, w, c, r);
    PositiveFactors(x(c, j), y(r, i), Pixel(raster, c, r));
    elevation := Pixel(raster, c, r).value;
  }

  lemma PositiveFactors(x: real, y: real, sample: Sample)
    requires x >= 0.0 && y >= 0.0 && y * (x * AreaAccumulate.Counted(sample, true)) > 0.0
    ensures x > 0.0 && y > 0.0 && sample.Some?
  {
    NoWeight(x, sample);
  }

  lemma NoWeight(x: real, sample: Sample)
    ensures sample.None? || x == 0.0 ==> x * AreaAccumulate.Counted(sample, true) == 0.0
  {
  }

  ghost predicate SomeUnder(source: Source, box: SampleBox, s0: int, s1: int, w0: int, w1: int)
    requires ValidSource(source)
  {
    exists s, w, c, r, elevation :: s0 <= s < s1 && w0 <= w < w1 && Under(box, source, s, w, c, r, elevation)
  }

  /** A box has a weight if and only if some pixel with an elevation lies under it. */
  lemma {:induction false} WeightIff(source: Source, lon: seq<real>, lat: seq<real>, i: int, j: int, s0: int, s1: int, w0: int, w1: int)
    requires ValidSource(source) && 0 <= i < |lat| - 1 && 0 <= j < |lon| - 1
    ensures PlainSum(source, lon, lat, i, j, true, s0, s1, w0, w1) > 0.0 <==> SomeUnder(source, BoxAt(lon, lat, i, j), s0, s1, w0, w1)
  {
    var bands := BandSum(source, lon, lat, i, j, true, w0, w1);
    if PlainSum(source, lon, lat, i, j, true, s0, s1, w0, w1) > 0.0 {
      var s := SumHasPositive(bands, s0, s1);
      var w := SumHasPositive(BandTerm(source, lon, lat, i, j, true, s), w0, w1);
      var c, r, elevation := WeightIsUnder(source, lon, lat, i, j, s, w);
    }
    if SomeUnder(source, BoxAt(lon, lat, i, j), s0, s1, w0, w1) {
      var s, w, c, r, elevation :| s0 <= s < s1 && w0 <= w < w1 && Under(BoxAt(lon, lat, i, j), source, s, w, c, r, elevation);
      UnderWeighs(source, lon, lat, i, j, s, w, c, r, elevation);
      forall s ensures bands(s) >= 0.0 {
        BandIsNatural(source, lon, lat, i, j, s, w0, w1);
      }
      BandHasWeight(source, lon, lat, i, j, s, w, w0, w1);
      SumPositive(bands, s0, s1, s);
    }
  }

  lemma {:induction false} BandIsNatural(source: Source, lon: seq<real>, lat: seq<real>, i: int, j: int, s: int, w0: int, w1: int)
    requires ValidSource(source)
    ensures BandSum(source, lon, lat, i, j, true, w0, w1)(s) >= 0.0
  {
    var cells := BandTerm(source, lon, lat, i, j, true, s);
    forall w ensures cells(w) >= 0.0 {
      CellIsNatural(source, lon, lat, i, j, s, w);
    }
    SumNatural(cells, w0, w1);
  }

  lemma {:induction false} BandHasWeight(source: Source, lon: seq<real>, lat: seq<real>, i: int, j: int, s: int, w: int, w0: int, w1: int)
    requires ValidSource(source) && w0 <= w < w1 && CellTerm(source, lon, lat, i, j, true, s, w) > 0.0
    ensures BandSum(source, lon, lat, i, j, true, w0, w1)(s) > 0.0
  {
    var cells := BandTerm(source, lon, lat, i, j, true, s);
    forall w ensures cells(w) >= 0.0 {
      CellIsNatural(source, lon, lat, i, j, s, w);
    }
    SumPositive(cells, w0, w1, w);
  }

  // ---------------------------------------------------------------- averaged samples

  /** The box of a sample: half a spacing to each side of it. */
  function BoxOfSample(latitudeAt: real -> real, tile: TileAddress, row: int, column: int): SampleBox {
    SampleBox(EdgeLongitude(tile, column), EdgeLongitude(tile, column + 1),
              EdgeLatitude(latitudeAt, tile, row + 1), EdgeLatitude(latitudeAt, tile, row))
  }

  /** The elevations of the pixels under the box of a sample, in the candidate cells of its tile. */
  ghost predicate UnderSample(source: Source, latitudeAt: real -> real, tile: TileAddress, row: int, column: int, elevation: real)
    requires ValidSource(source)
  {
    var lon, lat := LongitudeEdges(tile), LatitudeEdges(latitudeAt, tile);
    exists s, w, c, r ::
      FirstSouth(lat) <= s < EndSouth(lat) && FirstWest(lon) <= w <= LastWest(lon)
      && Under(BoxOfSample(latitudeAt, tile, row, column), source, s, w, c, r, elevation)
  }

  lemma BoxOfSampleIs(latitudeAt: real -> real, tile: TileAddress, row: int, column: int)
    requires 0 <= row < GRID_SIZE && 0 <= column < GRID_SIZE
    ensures var lon, lat := LongitudeEdges(tile), LatitudeEdges(latitudeAt, tile);
      |lon| == GRID_SIZE + 1 && |lat| == GRID_SIZE + 1 && BoxAt(lon, lat, row, column) == BoxOfSample(latitudeAt, tile, row, column)
  {
  }

  lemma {:induction false} BoxMassBetween(source: Source, latitudeAt: real -> real, tile: TileAddress, row: int, column: int, lo: real, hi: real)
    requires ValidSource(source) && 0 <= row < GRID_SIZE && 0 <= column < GRID_SIZE
    requires forall elevation :: UnderSample(source, latitudeAt, tile, row, column, elevation) ==> lo <= elevation <= hi
    ensures Between(BoxSum(source, latitudeAt, tile, row, column, false), BoxSum(source, latitudeAt, tile, row, column, true), lo, hi)
  {
    var lon, lat := LongitudeEdges(tile), LatitudeEdges(latitudeAt, tile);
    BoxOfSampleIs(latitudeAt, tile, row, column);
    forall s, w | FirstSouth(lat) <= s < EndSouth(lat) && FirstWest(lon) <= w < LastWest(lon) + 1
      ensures AllUnder(source, lon, lat, row, column, s, w, lo, hi)
    {
      forall c, r, elevation | Under(BoxAt(lon, lat, row, column), source, s, w, c, r, elevation) ensures lo <= elevation <= hi {
        assert UnderSample(source, latitudeAt, tile, row, column, elevation);
      }
    }
    MassBetween(source, lon, lat, row, column, FirstSouth(lat), EndSouth(lat), FirstWest(lon), LastWest(lon) + 1, lo, hi);
  }

  lemma {:induction false} BoxWeightIff(source: Source, latitudeAt: real -> real, tile: TileAddress, row: int, column: int)
    requires ValidSource(source) && 0 <= row < GRID_SIZE && 0 <= column < GRID_SIZE
    ensures BoxSum(source, latitudeAt, tile, row, column, true) > 0.0
            <==> SomethingUnder(source, latitudeAt, tile, row, column)
  {
    var lon, lat := LongitudeEdges(tile), LatitudeEdges(latitudeAt, tile);
    BoxOfSampleIs(latitudeAt, tile, row, column);
    WeightIff(source, lon, lat, row, column, FirstSouth(lat), EndSouth(lat), FirstWest(lon), LastWest(lon) + 1);
    if SomeUnder(source, BoxAt(lon, lat, row, column), FirstSouth(lat), EndSouth(lat), FirstWest(lon), LastWest(lon) + 1) {
      var s, w, c, r, elevation :| FirstSouth(lat) <= s < EndSouth(lat) && FirstWest(lon) <= w < LastWest(lon) + 1
                                   && Under(BoxAt(lon, lat, row, column), source, s, w, c, r, elevation);
      assert UnderSample(source, latitudeAt, tile, row, column, elevation);
    }
  }

  /** The sample of a filled tile, in file order. */
  function SampleIn(samples: seq<Option<real>>, row: int, column: int): Option<real> {
    var index := row * GRID_SIZE + column;
    if 0 <= index < |samples| then samples[index] else None
  }

  lemma FilledAre(source: Source, latitudeAt: real -> real, tile: TileAddress, samples: seq<Option<real>>)
    requires ValidSource(source) && Fetched(source, latitudeAt, tile) == Filled(samples)
    ensures samples == AllSamples(source, latitudeAt, tile) && !TileFails(source, latitudeAt, tile)
  {
  }

  lemma IndexParts(row: int, column: int)
    requires 0 <= row < GRID_SIZE && 0 <= column < GRID_SIZE
    ensures var index := row * GRID_SIZE + column;
      0 <= index < GRID_SIZE * GRID_SIZE && index / GRID_SIZE == row && index % GRID_SIZE == column
  {
  }

  lemma {:induction false} FetchedSample(source: Source, latitudeAt: real -> real, tile: TileAddress, samples: seq<Option<real>>, row: int, column: int)
    requires ValidSource(source) && Fetched(source, latitudeAt, tile) == Filled(samples) && 0 <= row < GRID_SIZE && 0 <= column < GRID_SIZE
    ensures SampleIn(samples, row, column) == TileSample(source, latitudeAt, tile, row, column)
  {
    FilledAre(source, latitudeAt, tile, samples);
    IndexParts(row, column);
  }

  /** What an averaged sample is, as a quotient. */
  lemma {:induction false} AveragedIs(source: Source, latitudeAt: real -> real, tile: TileAddress, row: int, column: int, mass: real, weight: real)
    requires ValidSource(source) && !PointSampled(source, latitudeAt, tile, row, column)
    requires mass == BoxSum(source, latitudeAt, tile, row, column, false) && weight == BoxSum(source, latitudeAt, tile, row, column, true)
    ensures TileSample(source, latitudeAt, tile, row, column) == if weight > 0.0 then Some(mass / weight) else None
  {
  }

  lemma QuotientBetween(mass: real, weight: real, lo: real, hi: real)
    requires weight > 0.0 && Between(mass, weight, lo, hi)
    ensures lo <= mass / weight <= hi && mass / weight * weight == mass
  {
    var mean := mass / weight;
    assert mean * weight == mass;
    Cancel(lo, mean, weight);
    Cancel(mean, hi, weight);
  }

  ghost predicate SomethingUnder(source: Source, latitudeAt: real -> real, tile: TileAddress, row: int, column: int)
    requires ValidSource(source)
  {
    exists elevation :: UnderSample(source, latitudeAt, tile, row, column, elevation)
  }

  /** The sample times the weight is the mass; it exists if and only if there is something to average, and lies in the range. */
  predicate MeanOf(sample: Option<real>, mass: real, weight: real, something: bool, lo: real, hi: real) {
    && (sample.Some? <==> something)
    && (sample.Some? ==> lo <= sample.value <= hi && sample.value * weight == mass)
  }

  lemma QuotientIsMean(sample: Option<real>, mass: real, weight: real, something: bool, lo: real, hi: real)
    requires weight > 0.0 <==> something
    requires sample == if weight > 0.0 then Some(mass / weight) else None
    requires weight > 0.0 ==> Between(mass, weight, lo, hi)
    ensures MeanOf(sample, mass, weight, something, lo, hi)
  {
    if weight > 0.0 {
      QuotientBetween(mass, weight, lo, hi);
    }
  }

  /** An averaged sample of a filled tile is the mean of the elevations under its box: between the least and the greatest of them. */
  lemma {:induction false} AveragedSampleIsMean(source: Source, latitudeAt: real -> real, tile: TileAddress, samples: seq<Option<real>>,
                                                row: int, column: int, lo: real, hi: real)
    requires ValidSource(source) && Fetched(source, latitudeAt, tile) == Filled(samples) && 0 <= row < GRID_SIZE && 0 <= column < GRID_SIZE
    requires !PointSampled(source, latitudeAt, tile, row, column)
    requires forall elevation :: UnderSample(source, latitudeAt, tile, row, column, elevation) ==> lo <= elevation <= hi
    ensures MeanOf(SampleIn(samples, row, column), BoxSum(source, latitudeAt, tile, row, column, false),
                   BoxSum(source, latitudeAt, tile, row, column, true), SomethingUnder(source, latitudeAt, tile, row, column), lo, hi)
  {
    var mass, weight := BoxSum(source, latitudeAt, tile, row, column, false), BoxSum(source, latitudeAt, tile, row, column, true);
    FetchedSample(source, latitudeAt, tile, samples, row, column);
    AveragedIs(source, latitudeAt, tile, row, column, mass, weight);
    BoxWeightIff(source, latitudeAt, tile, row, column);
    BoxMassBetween(source, latitudeAt, tile, row, column, lo, hi);
    QuotientIsMean(SampleIn(samples, row, column), mass, weight, SomethingUnder(source, latitudeAt, tile, row, column), lo, hi);
  }

  /** Under a flat surface every averaged sample has its elevation. */
  lemma {:induction false} FlatStaysFlat(source: Source, latitudeAt: real -> real, tile: TileAddress, samples: seq<Option<real>>,
                                         row: int, column: int, elevation: real)
    requires ValidSource(source) && Fetched(source, latitudeAt, tile) == Filled(samples) && 0 <= row < GRID_SIZE && 0 <= column < GRID_SIZE
    requires !PointSampled(source, latitudeAt, tile, row, column)
    requires forall e :: UnderSample(source, latitudeAt, tile, row, column, e) ==> e == elevation
    ensures SampleIn(samples, row, column) in {None, Some(elevation)}
    ensures UnderSample(source, latitudeAt, tile, row, column, elevation) ==> SampleIn(samples, row, column) == Some(elevation)
  {
    AveragedSampleIsMean(source, latitudeAt, tile, samples, row, column, elevation, elevation);
  }
}
