/**
 * Adjacent normalized tiles and their shared edge samples: they agree inside the map, and across the
 * antimeridian exactly where the sample boxes are large enough to be averaged whatever the source.
 */
module SharedEdges {
  import opened Numbers
  import opened TileRange
  import opened RealSums
  import opened RasterWindow
  import opened AreaOverlap
  import opened AreaAverage
  import opened AreaGrid
  import opened AreaCells
  import opened AreaTheorems
  import opened TileSamples

  // ---------------------------------------------------------------- a box sum depends on its box only

  /** The box of one sample, as edge lists of a grid of one. */
  function Pair(a: real, b: real): seq<real> { [a, b] }

  lemma {:induction false} RasterTermOfBox(raster: Raster, lon: seq<real>, lat: seq<real>, i: nat, j: nat, mass: bool, s: int, w: int)
    requires ValidRaster(raster) && j + 1 < |lon| && i + 1 < |lat|
    ensures RasterTerm(raster, lon, lat, i, j, mass, s, w)
            == RasterTerm(raster, Pair(lon[j], lon[j + 1]), Pair(lat[i], lat[i + 1]), 0, 0, mass, s, w)
  {
    var pixels := PixelsOf(raster);
    var x, y := ColumnMap(lon, w as real, raster.width), RowMap(lat, (s + 1) as real, raster.height);
    var x', y' := ColumnMap(Pair(lon[j], lon[j + 1]), w as real, raster.width), RowMap(Pair(lat[i], lat[i + 1]), (s + 1) as real, raster.height);
    forall c ensures x(c, j) == x'(c, 0) {
    }
    forall r ensures y(r, i) == y'(r, 0) {
    }
    SameTerms(pixels, x, y, i, j, x', y', 0, 0, mass, raster.width, raster.height);
  }

  lemma {:induction false} SameTerms(pixels: (int, int) -> Sample, x: (int, int) -> real, y: (int, int) -> real, i: int, j: int,
                                     x': (int, int) -> real, y': (int, int) -> real, i': int, j': int, mass: bool, width: nat, height: nat)
    requires forall c :: x(c, j) == x'(c, j')
    requires forall r :: y(r, i) == y'(r, i')
    ensures RectSum(PixelTerm(pixels, x, y, i, j, mass), 0, width, 0, height)
            == RectSum(PixelTerm(pixels, x', y', i', j', mass), 0, width, 0, height)
  {
    RectSame(PixelTerm(pixels, x, y, i, j, mass), PixelTerm(pixels, x', y', i', j', mass), 0, width, 0, height);
  }

  lemma {:induction false} PlainSumOfBox(source: Source, lon: seq<real>, lat: seq<real>, i: nat, j: nat, mass: bool,
                                         s0: int, s1: int, w0: int, w1: int)
    requires ValidSource(source) && j + 1 < |lon| && i + 1 < |lat|
    ensures PlainSum(source, lon, lat, i, j, mass, s0, s1, w0, w1)
            == PlainSum(source, Pair(lon[j], lon[j + 1]), Pair(lat[i], lat[i + 1]), 0, 0, mass, s0, s1, w0, w1)
  {
    var lon', lat' := Pair(lon[j], lon[j + 1]), Pair(lat[i], lat[i + 1]);
    var bands, bands' := BandSum(source, lon, lat, i, j, mass, w0, w1), BandSum(source, lon', lat', 0, 0, mass, w0, w1);
    forall s ensures bands(s) == bands'(s) {
      var cells, cells' := BandTerm(source, lon, lat, i, j, mass, s), BandTerm(source, lon', lat', 0, 0, mass, s);
      forall w ensures cells(w) == cells'(w) {
        if source(s, WrappedWest(w)).Loaded? {
          RasterTermOfBox(source(s, WrappedWest(w)).raster, lon, lat, i, j, mass, s, w);
        }
      }
      SumSame(cells, cells', w0, w1);
    }
    SumSame(bands, bands', s0, s1);
  }

  // ---------------------------------------------------------------- a whole turn changes nothing

  lemma WrapTurn(w: int)
    ensures WrappedWest(w - 360) == WrappedWest(w)
  {
  }

  lemma {:induction false} RasterTermShift(raster: Raster, a: real, b: real, lat: seq<real>, mass: bool, s: int, w: int)
    requires ValidRaster(raster)
    ensures RasterTerm(raster, Pair(a - 360.0, b - 360.0), lat, 0, 0, mass, s, w - 360) == RasterTerm(raster, Pair(a, b), lat, 0, 0, mass, s, w)
  {
    var x', x := ColumnMap(Pair(a - 360.0, b - 360.0), (w - 360) as real, raster.width), ColumnMap(Pair(a, b), w as real, raster.width);
    var y := RowMap(lat, (s + 1) as real, raster.height);
    forall c ensures x'(c, 0) == x(c, 0) {
      assert PixelWest((w - 360) as real, c, raster.width) == PixelWest(w as real, c, raster.width) - 360.0;
      assert PixelEast((w - 360) as real, c, raster.width) == PixelEast(w as real, c, raster.width) - 360.0;
    }
    SameTerms(PixelsOf(raster), x', y, 0, 0, x, y, 0, 0, mass, raster.width, raster.height);
  }

  lemma {:induction false} SumTurn(f: int -> real, g: int -> real, lo: int, hi: int)
    requires forall w :: g(w - 360) == f(w)
    ensures Sum(g, lo - 360, hi - 360) == Sum(f, lo, hi)
    decreases hi - lo
  {
    if lo < hi {
      SumTurn(f, g, lo, hi - 1);
      assert g(hi - 1 - 360) == f(hi - 1);
    }
  }

  lemma {:induction false} PlainSumShift(source: Source, a: real, b: real, lat: seq<real>, mass: bool, s0: int, s1: int, w0: int, w1: int)
    requires ValidSource(source)
    ensures PlainSum(source, Pair(a - 360.0, b - 360.0), lat, 0, 0, mass, s0, s1, w0 - 360, w1 - 360)
            == PlainSum(source, Pair(a, b), lat, 0, 0, mass, s0, s1, w0, w1)
  {
    var bands' := BandSum(source, Pair(a - 360.0, b - 360.0), lat, 0, 0, mass, w0 - 360, w1 - 360);
    var bands := BandSum(source, Pair(a, b), lat, 0, 0, mass, w0, w1);
    forall s ensures bands'(s) == bands(s) {
      var cells' := BandTerm(source, Pair(a - 360.0, b - 360.0), lat, 0, 0, mass, s);
      var cells := BandTerm(source, Pair(a, b), lat, 0, 0, mass, s);
      forall w ensures cells'(w - 360) == cells(w) {
        WrapTurn(w);
        if source(s, WrappedWest(w)).Loaded? {
          RasterTermShift(source(s, WrappedWest(w)).raster, a, b, lat, mass, s, w);
        }
      }
      SumTurn(cells, cells', w0, w1);
    }
    SumSame(bands', bands, s0, s1);
  }

  // ---------------------------------------------------------------- the box sums of a tile

  lemma {:induction false} RangeSumOfBox(source: Source, least: nat, lon: seq<real>, lat: seq<real>, i: int, j: int, mass: bool, w0: int, w1: int)
    requires Glo30(source, least) && ValidSource(source) && |lon| >= 1 && Ascending(lon) && |lat| >= 1 && Descending(lat)
    requires 0 <= i && i + 1 < |lat| && 0 <= j && j + 1 < |lon| && Complete(lon, j, least)
    requires w0 <= FirstWest(lon) && LastWest(lon) < w1
    ensures PlainSum(source, lon, lat, i, j, mass, FirstSouth(lat), EndSouth(lat), FirstWest(lon), LastWest(lon) + 1)
            == PlainSum(source, Pair(lon[j], lon[j + 1]), Pair(lat[i], lat[i + 1]), 0, 0, mass, -90, 90, w0, w1)
  {
    NoOtherCellContributesIf(source, least, lon, lat, i, j, mass, w0, w1);
    PlainSumOfBox(source, lon, lat, i, j, mass, -90, 90, w0, w1);
  }

  lemma {:induction false} BandSumOfBox(source: Source, least: nat, lon: seq<real>, lat: seq<real>, i: int, j: int, mass: bool, w0: int, w1: int)
    requires Glo30(source, least) && ValidSource(source) && |lon| >= 1 && Ascending(lon) && |lat| >= 1 && Descending(lat)
    requires 0 <= i && i + 1 < |lat| && 0 <= j && j + 1 < |lon|
    ensures PlainSum(source, lon, lat, i, j, mass, FirstSouth(lat), EndSouth(lat), w0, w1)
            == PlainSum(source, Pair(lon[j], lon[j + 1]), Pair(lat[i], lat[i + 1]), 0, 0, mass, -90, 90, w0, w1)
  {
    NoOtherBandContributes(source, least, lon, lat, i, j, mass, w0, w1);
    PlainSumOfBox(source, lon, lat, i, j, mass, -90, 90, w0, w1);
  }

  lemma BoxOfEdges(latitudeAt: real -> real, tile: TileAddress, row: int, column: int)
    requires 0 <= row < GRID_SIZE && 0 <= column < GRID_SIZE
    ensures var lon := LongitudeEdges(tile);
      Pair(lon[column], lon[column + 1]) == Pair(EdgeLongitude(tile, column), EdgeLongitude(tile, column + 1))
    ensures var lat := LatitudeEdges(latitudeAt, tile);
      Pair(lat[row], lat[row + 1]) == Pair(EdgeLatitude(latitudeAt, tile, row), EdgeLatitude(latitudeAt, tile, row + 1))
  {
  }

  /** The candidate cells of the tile go as far east as the pixels that can overlap a sample's box. */
  predicate BoxComplete(tile: TileAddress, column: int, least: nat)
    requires least > 0
  {
    Complete(LongitudeEdges(tile), column, least)
  }

  /** The sum a tile computes for such a box is the sum over that box of every source pixel there is. */
  lemma {:induction false} TileBoxSum(source: Source, least: nat, latitudeAt: real -> real, tile: TileAddress, row: int, column: int, mass: bool,
                                      w0: int, w1: int, lon: seq<real>, lat: seq<real>)
    requires Projection(latitudeAt) && ValidTile(tile) && Glo30(source, least) && 0 <= row < GRID_SIZE && 0 <= column < GRID_SIZE
    requires w0 <= FirstWest(LongitudeEdges(tile)) && LastWest(LongitudeEdges(tile)) < w1 && BoxComplete(tile, column, least)
    requires lon == Pair(EdgeLongitude(tile, column), EdgeLongitude(tile, column + 1))
    requires lat == Pair(EdgeLatitude(latitudeAt, tile, row), EdgeLatitude(latitudeAt, tile, row + 1))
    ensures BoxSum(source, latitudeAt, tile, row, column, mass) == PlainSum(source, lon, lat, 0, 0, mass, -90, 90, w0, w1)
  {
    EdgesAreSorted(latitudeAt, tile);
    BoxOfEdges(latitudeAt, tile, row, column);
    RangeSumOfBox(source, least, LongitudeEdges(tile), LatitudeEdges(latitudeAt, tile), row, column, mass, w0, w1);
  }

  /** In any case it is the sum over that box of every pixel of the cells from the tile's first to its last. */
  lemma {:induction false} TileBandSum(source: Source, least: nat, latitudeAt: real -> real, tile: TileAddress, row: int, column: int, mass: bool,
                                       w0: int, w1: int, lon: seq<real>, lat: seq<real>)
    requires Projection(latitudeAt) && ValidTile(tile) && Glo30(source, least) && 0 <= row < GRID_SIZE && 0 <= column < GRID_SIZE
    requires w0 == FirstWest(LongitudeEdges(tile)) && w1 == LastWest(LongitudeEdges(tile)) + 1
    requires lon == Pair(EdgeLongitude(tile, column), EdgeLongitude(tile, column + 1))
    requires lat == Pair(EdgeLatitude(latitudeAt, tile, row), EdgeLatitude(latitudeAt, tile, row + 1))
    ensures BoxSum(source, latitudeAt, tile, row, column, mass) == PlainSum(source, lon, lat, 0, 0, mass, -90, 90, w0, w1)
  {
    EdgesAreSorted(latitudeAt, tile);
    BoxOfEdges(latitudeAt, tile, row, column);
    BandSumOfBox(source, least, LongitudeEdges(tile), LatitudeEdges(latitudeAt, tile), row, column, mass, w0, w1);
  }

  /** What a sample depends on: its coordinate, the size of its box and, where it is averaged, the sums over its box. */
  ghost predicate SameSums(source: Source, latitudeAt: real -> real, tile: TileAddress, row: int, column: int,
                           tile': TileAddress, row': int, column': int)
    requires ValidSource(source)
  {
    UsesAreaAverage(tile) ==>
      forall mass :: BoxSum(source, latitudeAt, tile, row, column, mass) == BoxSum(source, latitudeAt, tile', row', column', mass)
  }

  lemma {:induction false} SameBoxSameSample(source: Source, latitudeAt: real -> real, tile: TileAddress, row: int, column: int,
                                             tile': TileAddress, row': int, column': int)
    requires tile.zoom == tile'.zoom && ValidSource(source)
    requires SampleLongitude(tile, column) == SampleLongitude(tile', column')
    requires SampleLatitude(latitudeAt, tile, row) == SampleLatitude(latitudeAt, tile', row')
    requires EdgeLongitude(tile, column) == EdgeLongitude(tile', column') && EdgeLongitude(tile, column + 1) == EdgeLongitude(tile', column' + 1)
    requires EdgeLatitude(latitudeAt, tile, row) == EdgeLatitude(latitudeAt, tile', row')
    requires EdgeLatitude(latitudeAt, tile, row + 1) == EdgeLatitude(latitudeAt, tile', row' + 1)
    requires SameSums(source, latitudeAt, tile, row, column, tile', row', column')
    ensures TileSample(source, latitudeAt, tile, row, column) == TileSample(source, latitudeAt, tile', row', column')
  {
  }

  lemma NextFraction(zoom: nat, i: int, offset: real)
    ensures Fraction(zoom, i, offset + 64.0) == Fraction(zoom, i + 1, offset)
  {
    assert i as real + (offset + 64.0) / 64.0 == (i + 1) as real + offset / 64.0;
  }

  /** The last column of a tile and the first of its east neighbour have the same coordinates and boxes. */
  lemma EastBoxes(tile: TileAddress, next: TileAddress)
    requires next == tile.(x := tile.x + 1)
    ensures SampleLongitude(tile, CELL_COUNT) == SampleLongitude(next, 0)
    ensures EdgeLongitude(tile, CELL_COUNT) == EdgeLongitude(next, 0) && EdgeLongitude(tile, CELL_COUNT + 1) == EdgeLongitude(next, 1)
  {
    NextFraction(tile.zoom, tile.x, 0.0);
    NextFraction(tile.zoom, tile.x, -0.5);
    NextFraction(tile.zoom, tile.x, 0.5);
  }

  lemma {:induction false} EastBoxSums(source: Source, least: nat, latitudeAt: real -> real, tile: TileAddress, next: TileAddress, row: int, mass: bool)
    requires Projection(latitudeAt) && ValidTile(tile) && ValidTile(next) && next == tile.(x := tile.x + 1)
    requires Glo30(source, least) && 0 <= row < GRID_SIZE && BoxComplete(tile, CELL_COUNT, least) && BoxComplete(next, 0, least)
    ensures BoxSum(source, latitudeAt, tile, row, CELL_COUNT, mass) == BoxSum(source, latitudeAt, next, row, 0, mass)
  {
    EastBoxes(tile, next);
    var all, all' := LongitudeEdges(tile), LongitudeEdges(next);
    var w0, w1 := Min(FirstWest(all), FirstWest(all')), Max(LastWest(all), LastWest(all')) + 1;
    var lon := Pair(EdgeLongitude(next, 0), EdgeLongitude(next, 1));
    var lat := Pair(EdgeLatitude(latitudeAt, next, row), EdgeLatitude(latitudeAt, next, row + 1));
    TileBoxSum(source, least, latitudeAt, tile, row, CELL_COUNT, mass, w0, w1, lon, lat);
    TileBoxSum(source, least, latitudeAt, next, row, 0, mass, w0, w1, lon, lat);
  }

  /** The east edge of a tile is the west edge of its neighbour, sample by sample, where the candidates go far enough. */
  lemma {:induction false} EastNeighbourAgreesIf(source: Source, least: nat, latitudeAt: real -> real, tile: TileAddress, row: int)
    requires Projection(latitudeAt) && ValidTile(tile) && tile.x + 1 < TileCount(tile.zoom) && Glo30(source, least) && 0 <= row < GRID_SIZE
    requires UsesAreaAverage(tile) ==> BoxComplete(tile, CELL_COUNT, least) && BoxComplete(tile.(x := tile.x + 1), 0, least)
    ensures TileSample(source, latitudeAt, tile, row, CELL_COUNT)
            == TileSample(source, latitudeAt, tile.(x := tile.x + 1), row, 0)
  {
    var next := tile.(x := tile.x + 1);
    EastBoxes(tile, next);
    if UsesAreaAverage(tile) {
      forall mass ensures BoxSum(source, latitudeAt, tile, row, CELL_COUNT, mass) == BoxSum(source, latitudeAt, next, row, 0, mass) {
        EastBoxSums(source, least, latitudeAt, tile, next, row, mass);
      }
    }
    SameBoxSameSample(source, latitudeAt, tile, row, CELL_COUNT, next, row, 0);
  }

  lemma SouthBoxes(latitudeAt: real -> real, tile: TileAddress, next: TileAddress)
    requires next == tile.(y := tile.y + 1)
    ensures SampleLatitude(latitudeAt, tile, CELL_COUNT) == SampleLatitude(latitudeAt, next, 0)
    ensures EdgeLatitude(latitudeAt, tile, CELL_COUNT) == EdgeLatitude(latitudeAt, next, 0)
    ensures EdgeLatitude(latitudeAt, tile, CELL_COUNT + 1) == EdgeLatitude(latitudeAt, next, 1)
    ensures LongitudeEdges(tile) == LongitudeEdges(next)
  {
    NextFraction(tile.zoom, tile.y, 0.0);
    NextFraction(tile.zoom, tile.y, -0.5);
    NextFraction(tile.zoom, tile.y, 0.5);
  }

  lemma {:induction false} SouthBoxSums(source: Source, least: nat, latitudeAt: real -> real, tile: TileAddress, next: TileAddress, column: int, mass: bool)
    requires Projection(latitudeAt) && ValidTile(tile) && ValidTile(next) && next == tile.(y := tile.y + 1)
    requires Glo30(source, least) && 0 <= column < GRID_SIZE
    ensures BoxSum(source, latitudeAt, tile, CELL_COUNT, column, mass) == BoxSum(source, latitudeAt, next, 0, column, mass)
  {
    SouthBoxes(latitudeAt, tile, next);
    var lon := Pair(EdgeLongitude(tile, column), EdgeLongitude(tile, column + 1));
    var lat := Pair(EdgeLatitude(latitudeAt, next, 0), EdgeLatitude(latitudeAt, next, 1));
    var w0, w1 := FirstWest(LongitudeEdges(tile)), LastWest(LongitudeEdges(tile)) + 1;
    TileBandSum(source, least, latitudeAt, tile, CELL_COUNT, column, mass, w0, w1, lon, lat);
    TileBandSum(source, least, latitudeAt, next, 0, column, mass, w0, w1, lon, lat);
  }

  ghost predicate SouthAgreesFor(source: Source, latitudeAt: real -> real, tile: TileAddress, column: int)
    requires ValidSource(source)
  {
    TileSample(source, latitudeAt, tile, CELL_COUNT, column) == TileSample(source, latitudeAt, tile.(y := tile.y + 1), 0, column)
  }

  /** The south edge of a tile is the north edge of its neighbour, sample by sample. */
  lemma {:induction false} SouthNeighbourAgrees(source: Source, least: nat, latitudeAt: real -> real, tile: TileAddress, column: int)
    requires Projection(latitudeAt) && ValidTile(tile) && tile.y + 1 < TileCount(tile.zoom) && Glo30(source, least) && 0 <= column < GRID_SIZE
    ensures SouthAgreesFor(source, latitudeAt, tile, column)
  {
    var next := tile.(y := tile.y + 1);
    SouthBoxes(latitudeAt, tile, next);
    forall mass ensures BoxSum(source, latitudeAt, tile, CELL_COUNT, column, mass) == BoxSum(source, latitudeAt, next, 0, column, mass) {
      SouthBoxSums(source, least, latitudeAt, tile, next, column, mass);
    }
    SameBoxSameSample(source, latitudeAt, tile, CELL_COUNT, column, next, 0, column);
  }
}
