/**
 * Which tiles agree with their east neighbour on the shared edge. The candidate cells of a tile can stop short
 * of a cell whose widest pixels reach into its last column of boxes; the neighbour's candidates include it.
 */
module EastEdges {
  import opened Numbers
  import opened TileRange
  import opened RealSums
  import opened AreaGrid
  import opened AreaCells
  import opened AreaTheorems
  import opened SourceCells
  import opened PointSample
  import opened TileSamples
  import opened SharedEdges
  import opened FlatRasters
  import opened WideColumns

  /** The tile is averaged, and its candidates do not go far enough for its last column of boxes. */
  predicate Gap(tile: TileAddress, least: nat)
    requires least > 0
  {
    UsesAreaAverage(tile) && !BoxComplete(tile, CELL_COUNT, least)
  }

  // ---------------------------------------------------------------- the spacing of boxes

  /** Tiles of an averaged zoom, 256 to 8192 a row. */
  lemma {:induction false} CountOf(zoom: nat)
    requires MINIMUM_ZOOM <= zoom < NATIVE_ZOOM
    ensures 256 <= TileCount(zoom) <= 8192 && TileCount(zoom) % 8 == 0
    ensures TileCount(zoom) == if zoom == 8 then 256 else if zoom == 9 then 512 else if zoom == 10 then 1024
                               else if zoom == 11 then 2048 else if zoom == 12 then 4096 else 8192
  {
    assert TileCount(4) == 16;
    assert TileCount(8) == 256;
    assert zoom > 8 ==> TileCount(9) == 512;
    assert zoom > 9 ==> TileCount(10) == 1024;
    assert zoom > 10 ==> TileCount(11) == 2048;
    assert zoom > 11 ==> TileCount(12) == 4096;
  }

  /** Box edge number `edge`, in units of half a box from longitude -180. */
  lemma EdgeTimes(tile: TileAddress, edge: int, n: int)
    requires n == TileCount(tile.zoom)
    ensures (EdgeLongitude(tile, edge) + 180.0) * n as real == ((128 * tile.x + 2 * edge - 1) as real) * 360.0 / 128.0
  {
    var places := tile.x as real + (edge as real - 0.5) / 64.0;
    QuotientTimes(places, n as real);
    assert places * 128.0 == (128 * tile.x + 2 * edge - 1) as real;
    Regroup(places / n as real, n as real, 360.0);
  }

  lemma QuotientTimes(a: real, n: real)
    requires n > 0.0
    ensures a / n * n == a
  {
  }

  lemma Regroup(q: real, n: real, c: real)
    ensures q * c * n == q * n * c
  {
  }

  lemma {:induction false} EdgesApart(tile: TileAddress, a: int, b: int)
    requires ValidTile(tile) && UsesAreaAverage(tile) && a <= b
    ensures var apart := EdgeLongitude(tile, b) - EdgeLongitude(tile, a);
      (b - a) as real * 360.0 / 524288.0 <= apart <= (b - a) as real * 360.0 / 16384.0
  {
    var n := TileCount(tile.zoom);
    CountOf(tile.zoom);
    EdgeTimes(tile, a, n);
    EdgeTimes(tile, b, n);
    var apart := EdgeLongitude(tile, b) - EdgeLongitude(tile, a);
    ApartTimes(EdgeLongitude(tile, a) + 180.0, EdgeLongitude(tile, b) + 180.0, n as real);
    assert apart * n as real == (b - a) as real * 360.0 / 64.0;
    Scale(apart, n as real, (b - a) as real * 360.0 / 64.0);
  }

  lemma ApartTimes(p: real, q: real, n: real)
    ensures (q - p) * n == q * n - p * n
  {
  }

  lemma Scale(apart: real, n: real, total: real)
    requires 256.0 <= n <= 8192.0 && apart * n == total && total >= 0.0
    ensures total / 8192.0 <= apart <= total / 256.0
  {
    SameOrder(apart, 0.0, n);
    NonNegative(apart, 8192.0 - n);
    NonNegative(apart, n - 256.0);
    assert apart * (8192.0 - n) == apart * 8192.0 - total;
    assert apart * (n - 256.0) == total - apart * 256.0;
  }

  lemma NonNegative(a: real, b: real)
    requires a >= 0.0 && b >= 0.0
    ensures a * b >= 0.0
  {
  }

  /** All columns of boxes but the last are complete in every averaged tile. */
  lemma {:induction false} InnerBoxesComplete(least: nat, tile: TileAddress, column: int)
    requires least >= MIN_COLUMNS
    requires ValidTile(tile) && UsesAreaAverage(tile) && 0 <= column < CELL_COUNT
    ensures BoxComplete(tile, column, least)
  {
    EdgesApart(tile, column + 1, GRID_SIZE);
    Reached(least, EdgeLongitude(tile, column + 1), EdgeLongitude(tile, GRID_SIZE));
    LastEdge(tile, column);
  }

  lemma LastEdge(tile: TileAddress, column: int)
    requires 0 <= column <= CELL_COUNT
    ensures var lon := LongitudeEdges(tile);
      |lon| == GRID_SIZE + 1 && lon[column + 1] == EdgeLongitude(tile, column + 1) && lon[|lon| - 1] == EdgeLongitude(tile, GRID_SIZE)
  {
  }

  lemma Reached(least: nat, east: real, end: real)
    requires least >= MIN_COLUMNS
    requires east + 360.0 / 524288.0 <= end
    ensures LastReached(east, least) <= Floor(end + MAX_HALF_LONGITUDE)
  {
    HalfAtMost(least, MIN_COLUMNS);
  }

  // ---------------------------------------------------------------- the gaps

  function UnitsShort(count: int, n: int, x: int): int {
    16 * count * (n + 180) - 45 * (128 * x + 129)
  }

  /** How far short of a cell the last box ends, counted in 1/128 of the spacing of tiles that 45 degrees hold. */
  lemma {:induction false} GapDistance(least: nat, tile: TileAddress) returns (n: int, d: int)
    requires least >= MIN_COLUMNS
    requires ValidTile(tile) && Gap(tile, least)
    ensures n == LastReached(EdgeLongitude(tile, GRID_SIZE), least) && n as real - EdgeLongitude(tile, GRID_SIZE) < 0.5 / least as real
    ensures d == UnitsShort(TileCount(tile.zoom), n, tile.x)
    ensures 16 * TileCount(tile.zoom) < 1200 * d && 720 * d < 16 * TileCount(tile.zoom)
  {
    var count, b := TileCount(tile.zoom), EdgeLongitude(tile, GRID_SIZE);
    n := LastReached(b, least);
    d := UnitsShort(count, n, tile.x);
    EdgeTimes(tile, GRID_SIZE, count);
    Distance(b, n, count, tile.x, d);
    GapIsShort(least, tile, b, n);
    DistanceBounds(n as real - b, 16 * count, d);
  }

  lemma GapIsShort(least: nat, tile: TileAddress, b: real, n: int)
    requires least >= MIN_COLUMNS
    requires Gap(tile, least) && b == EdgeLongitude(tile, GRID_SIZE) && n == LastReached(b, least)
    ensures MAX_HALF_LONGITUDE < n as real - b < 0.5 / least as real <= 1.0 / 720.0
  {
    HalfAtMost(least, MIN_COLUMNS);
    LastEdge(tile, CELL_COUNT);
  }

  lemma DistanceBounds(short: real, unit: int, d: int)
    requires unit > 0 && MAX_HALF_LONGITUDE < short < 1.0 / 720.0 && short * unit as real == d as real
    ensures unit < 1200 * d && 720 * d < unit
  {
    var most := 1.0 / 720.0;
    RealBounds(MAX_HALF_LONGITUDE, most, short, unit as real, d as real);
    WholeBounds(unit, d);
  }

  lemma RealBounds(least: real, most: real, short: real, unit: real, d: real)
    requires unit > 0.0 && least < short < most && short * unit == d
    ensures least * unit < d < most * unit
  {
    SameOrder(least, short, unit);
    SameOrder(short, most, unit);
  }

  lemma WholeBounds(unit: int, d: int)
    requires MAX_HALF_LONGITUDE * unit as real < d as real < 1.0 / 720.0 * unit as real
    ensures unit < 1200 * d && 720 * d < unit
  {
    var u, e := unit as real, d as real;
    assert u < 1200.0 * e && 720.0 * e < u;
    assert 1200.0 * e == (1200 * d) as real && 720.0 * e == (720 * d) as real;
  }

  lemma Distance(b: real, n: int, count: int, x: int, d: int)
    requires (b + 180.0) * count as real == (128 * x + 129) as real * 360.0 / 128.0 && d == UnitsShort(count, n, x)
    ensures (n as real - b) * (16 * count) as real == d as real
  {
    assert (16 * count) as real == 16.0 * count as real;
    assert (n as real - b) * (16.0 * count as real) == 16.0 * ((n + 180) as real * count as real) - 16.0 * ((b + 180.0) * count as real);
    assert (16 * count * (n + 180)) as real == 16.0 * ((n + 180) as real * count as real);
  }

  lemma Residue(count: int, n: int, x: int, d: int) returns (p: int)
    requires count % 8 == 0 && d == UnitsShort(count, n, x)
    ensures d == 128 * p + 83
  {
    var m := count / 8;
    assert count == 8 * m;
    p := m * (n + 180) - 45 * x - 46;
    assert 16 * count * (n + 180) == 128 * (m * (n + 180));
  }

  /** Only at zoom 12, and with at most 394 columns a cell, is there a tile with a gap. */
  lemma {:induction false} GapsAreAtZoom12(least: nat, tile: TileAddress)
    requires least >= MIN_COLUMNS && ValidTile(tile) && Gap(tile, least)
    ensures tile.zoom == 12 && least <= 394
  {
    var n, d := GapDistance(least, tile);
    CountOf(tile.zoom);
    var p := Residue(TileCount(tile.zoom), n, tile.x, d);
    NoDistance(TileCount(tile.zoom), p, d);
    EdgeTimes(tile, GRID_SIZE, 4096);
    Distance(EdgeLongitude(tile, GRID_SIZE), n, 4096, tile.x, d);
    WideEnough(least, n as real - EdgeLongitude(tile, GRID_SIZE));
  }

  lemma WideEnough(least: nat, short: real)
    requires least > 0 && short * 65536.0 == 83.0 && short < 0.5 / least as real
    ensures least <= 394
  {
    SameOrder(short, 0.5 / least as real, least as real);
    assert short == 83.0 / 65536.0;
    assert 0.5 / least as real * least as real == 0.5;
  }

  lemma NoDistance(count: int, p: int, d: int)
    requires count in {256, 512, 1024, 2048, 4096, 8192} && d == 128 * p + 83
    requires 16 * count < 1200 * d && 720 * d < 16 * count
    ensures count == 4096 && d == 83
  {
  }

  /** There are such tiles: their last boxes end 83/65536 of a degree short of longitude 8. */
  lemma {:induction false} GapExample(least: nat, tile: TileAddress)
    requires MIN_COLUMNS <= least <= 394 && tile.zoom == 12 && tile.x == 2138
    ensures Gap(tile, least)
  {
    CountOf(12);
    LastEdge(tile, CELL_COUNT);
    var b := EdgeLongitude(tile, GRID_SIZE);
    EdgeTimes(tile, GRID_SIZE, 4096);
    assert b == 8.0 - 83.0 / 65536.0;
    HalfAtMost(394, least);
    assert 0.5 / 394.0 > 83.0 / 65536.0;
  }

  /** With 600 columns or more no tile has a gap. */
  lemma UsualColumnsLeaveNoGap(least: nat, tile: TileAddress)
    requires least >= USUAL_COLUMNS
    ensures !Gap(tile, least)
  {
    UsualColumnsReach(LongitudeEdges(tile), least);
    LastEdge(tile, CELL_COUNT);
  }

  // ---------------------------------------------------------------- the source that tells the neighbours apart

  /** The sample lies in the cell west of the one that is left out. */
  lemma {:induction false} SampleBeforeGap(least: nat, tile: TileAddress, latitude: real, n: int)
    requires least >= MIN_COLUMNS
    requires ValidTile(tile) && Gap(tile, least) && tile.x + 1 < TileCount(tile.zoom)
    requires n == LastReached(EdgeLongitude(tile, GRID_SIZE), least)
    ensures RasterAt(OnlyAt(least, WrappedWest(n)), CellOf(latitude, SampleLongitude(tile, CELL_COUNT))).None?
    ensures forall w :: FirstWest(LongitudeEdges(tile)) <= w <= LastWest(LongitudeEdges(tile)) ==> WrappedWest(w) != WrappedWest(n)
    ensures FirstWest(LongitudeEdges(tile)) <= LastWest(LongitudeEdges(tile)) + 1 <= n
  {
    LastEdge(tile, CELL_COUNT);
    FirstEdge(tile);
    EdgesApart(tile, 0, GRID_SIZE);
    SampleInBox(tile);
    BeforeCell(least, EdgeLongitude(tile, 0), EdgeLongitude(tile, GRID_SIZE), SampleLongitude(tile, CELL_COUNT), n);
  }

  lemma FirstEdge(tile: TileAddress)
    ensures LongitudeEdges(tile)[0] == EdgeLongitude(tile, 0)
  {
  }

  lemma {:induction false} SampleInBox(tile: TileAddress)
    requires ValidTile(tile) && tile.x + 1 < TileCount(tile.zoom)
    ensures EdgeLongitude(tile, 0) < SampleLongitude(tile, CELL_COUNT) < EdgeLongitude(tile, GRID_SIZE)
    ensures -180.0 <= SampleLongitude(tile, CELL_COUNT) < 180.0
  {
    FractionMonotone(tile.zoom, tile.x, -0.5, 64.0);
    FractionMonotone(tile.zoom, tile.x, 64.0, 64.5);
    FractionInside(tile, tile.x, 64.0);
    NextFraction(tile.zoom, tile.x, 0.0);
    FractionInside(tile, tile.x + 1, 64.0);
    FractionMonotone(tile.zoom, tile.x + 1, 0.0, 64.0);
  }

  lemma BeforeCell(least: nat, first: real, b: real, longitude: real, n: int)
    requires least >= MIN_COLUMNS
    requires first < longitude < b && b - first <= 65.0 * 360.0 / 16384.0 && -180.0 <= longitude < 180.0
    requires n == LastReached(b, least) && n > Floor(b + MAX_HALF_LONGITUDE)
    ensures SourceWest(longitude) != WrappedWest(n) && Floor(first) <= Floor(b + MAX_HALF_LONGITUDE) + 1 <= n
    ensures forall w :: Floor(first) <= w <= Floor(b + MAX_HALF_LONGITUDE) ==> WrappedWest(w) != WrappedWest(n)
  {
    assert n as real - 2.0 < first;
    forall w | Floor(first) <= w <= Floor(b + MAX_HALF_LONGITUDE) ensures WrappedWest(w) != WrappedWest(n) {
      NearWests(w, n);
    }
    NearWests(Floor(longitude), n);
    WrappedWestIs(Floor(longitude));
  }

  lemma NearWests(w: int, n: int)
    requires n - 3 <= w < n
    ensures WrappedWest(w) != WrappedWest(n)
    ensures -180 <= w < 180 ==> WrappedWest(w) == w
  {
    WrappedWestIs(w);
    WrappedWestIs(n);
  }

  /** The tile sees nothing of the cell that is left out. */
  lemma {:induction false} GapTileSeesNothing(least: nat, latitudeAt: real -> real, tile: TileAddress, row: int, n: int, source: Source)
    requires least >= MIN_COLUMNS
    requires Projection(latitudeAt) && ValidTile(tile) && 0 <= row < GRID_SIZE && source == OnlyAt(least, WrappedWest(n)) && ValidSource(source)
    requires forall w :: FirstWest(LongitudeEdges(tile)) <= w <= LastWest(LongitudeEdges(tile)) ==> WrappedWest(w) != WrappedWest(n)
    ensures BoxSum(source, latitudeAt, tile, row, CELL_COUNT, true) == 0.0
  {
    var lon, lat := LongitudeEdges(tile), LatitudeEdges(latitudeAt, tile);
    var bands := BandSum(source, lon, lat, row, CELL_COUNT, true, FirstWest(lon), LastWest(lon) + 1);
    forall s ensures bands(s) == 0.0 {
      var cells := BandTerm(source, lon, lat, row, CELL_COUNT, true, s);
      SumZero(cells, FirstWest(lon), LastWest(lon) + 1);
    }
    SumZero(bands, FirstSouth(lat), EndSouth(lat));
  }

  lemma {:induction false} EmptySum(source: Source, lon: seq<real>, lat: seq<real>, i: int, j: int, w: int)
    requires ValidSource(source)
    ensures PlainSum(source, lon, lat, i, j, true, -90, 90, w, w) == 0.0
  {
    SumZero(BandSum(source, lon, lat, i, j, true, w, w), -90, 90);
  }

  /** Its neighbour has weight from it in the same box. */
  lemma {:induction false} NeighbourSeesCell(least: nat, latitudeAt: real -> real, tile: TileAddress, next: TileAddress, row: int, n: int, source: Source,
                                             lon: seq<real>, lat: seq<real>)
    requires least >= MIN_COLUMNS
    requires Projection(latitudeAt) && ValidTile(tile) && ValidTile(next) && Gap(tile, least) && next == tile.(x := tile.x + 1)
    requires 0 <= row < GRID_SIZE && source == OnlyAt(least, WrappedWest(n)) && Glo30(source, least)
    requires n == LastReached(EdgeLongitude(tile, GRID_SIZE), least)
    requires lon == Pair(EdgeLongitude(next, 0), EdgeLongitude(next, 1))
    requires lat == Pair(EdgeLatitude(latitudeAt, next, row), EdgeLatitude(latitudeAt, next, row + 1))
    ensures BoxSum(source, latitudeAt, next, row, 0, true) > 0.0
  {
    InnerBoxesComplete(least, next, 0);
    var w0, w1 := Min(FirstWest(LongitudeEdges(next)), n), Max(LastWest(LongitudeEdges(next)), n) + 1;
    TileBoxSum(source, least, latitudeAt, next, row, 0, true, w0, w1, lon, lat);
    BoxIsOpen(least, latitudeAt, tile, next, row, n, lon, lat);
    BoxWeighs(least, source, lon, lat, n, w0, w1);
  }

  lemma {:induction false} GapBox(least: nat, tile: TileAddress, next: TileAddress, n: int)
    requires least >= MIN_COLUMNS
    requires ValidTile(tile) && Gap(tile, least) && next == tile.(x := tile.x + 1)
    requires n == LastReached(EdgeLongitude(tile, GRID_SIZE), least)
    ensures EdgeLongitude(next, 0) < EdgeLongitude(next, 1) < n as real
    ensures n as real - 0.5 / least as real < EdgeLongitude(next, 1)
  {
    LastEdge(tile, CELL_COUNT);
    EastBoxes(tile, next);
    EdgesApart(tile, CELL_COUNT, GRID_SIZE);
  }

  lemma {:induction false} BoxIsOpen(least: nat, latitudeAt: real -> real, tile: TileAddress, next: TileAddress, row: int, n: int,
                                     lon: seq<real>, lat: seq<real>)
    requires least >= MIN_COLUMNS
    requires Projection(latitudeAt) && ValidTile(tile) && ValidTile(next) && Gap(tile, least) && next == tile.(x := tile.x + 1)
    requires 0 <= row < GRID_SIZE && n == LastReached(EdgeLongitude(tile, GRID_SIZE), least)
    requires lon == Pair(EdgeLongitude(next, 0), EdgeLongitude(next, 1))
    requires lat == Pair(EdgeLatitude(latitudeAt, next, row), EdgeLatitude(latitudeAt, next, row + 1))
    ensures lon[0] < lon[1] < n as real && n as real - 0.5 / least as real < lon[1]
    ensures lat[1] < lat[0] && -89.0 < lat[0] <= 90.0
  {
    GapBox(least, tile, next, n);
    RowIsOpen(latitudeAt, next, row);
  }

  lemma {:induction false} BoxWeighs(least: nat, source: Source, lon: seq<real>, lat: seq<real>, n: int, w0: int, w1: int)
    requires least >= MIN_COLUMNS
    requires source == OnlyAt(least, WrappedWest(n)) && ValidSource(source) && w0 <= n < w1
    requires |lon| == 2 && lon[0] < lon[1] < n as real && n as real - 0.5 / least as real < lon[1]
    requires |lat| == 2 && lat[1] < lat[0] && -89.0 < lat[0] <= 90.0
    ensures PlainSum(source, lon, lat, 0, 0, true, -90, 90, w0, w1) > 0.0
  {
    var i, j := 0, 0;
    var band := FirstColumnWeighs(least, lon, lat, i, j, n, source);
    RestWeighs(lon, lat, i, j, n, source, w0, w0, w1, band);
    EmptySum(source, lon, lat, i, j, w0);
  }

  lemma {:induction false} RowIsOpen(latitudeAt: real -> real, tile: TileAddress, row: int)
    requires Projection(latitudeAt) && ValidTile(tile) && 0 <= row < GRID_SIZE
    ensures EdgeLatitude(latitudeAt, tile, row + 1) < EdgeLatitude(latitudeAt, tile, row)
    ensures -88.0 < EdgeLatitude(latitudeAt, tile, row) < 88.0
  {
    FractionMonotone(tile.zoom, tile.y, row as real - 0.5, row as real + 0.5);
    FractionInside(tile, tile.y, row as real - 0.5);
    FractionInside(tile, tile.y, row as real + 0.5);
  }

  lemma {:induction false} AveragedWithoutRaster(source: Source, latitudeAt: real -> real, tile: TileAddress, row: int, column: int)
    requires ValidSource(source) && UsesAreaAverage(tile)
    requires RasterAt(source, CellOf(SampleLatitude(latitudeAt, tile, row), SampleLongitude(tile, column))).None?
    ensures TileSample(source, latitudeAt, tile, row, column).Some? <==> BoxSum(source, latitudeAt, tile, row, column, true) > 0.0
  {
  }

  lemma {:induction false} GapNeighboursDisagree(least: nat, latitudeAt: real -> real, tile: TileAddress, row: int) returns (source: Source)
    requires MIN_COLUMNS <= least <= 3600
    requires Projection(latitudeAt) && ValidTile(tile) && tile.x + 1 < TileCount(tile.zoom) && 0 <= row < GRID_SIZE && Gap(tile, least)
    ensures Glo30(source, least)
    ensures TileSample(source, latitudeAt, tile, row, CELL_COUNT).None? && TileSample(source, latitudeAt, tile.(x := tile.x + 1), row, 0).Some?
  {
    var next := tile.(x := tile.x + 1);
    var n := LastReached(EdgeLongitude(tile, GRID_SIZE), least);
    source := OnlyAt(least, WrappedWest(n));
    OnlyAtIsGlo30(least, WrappedWest(n));
    EastBoxes(tile, next);
    SampleBeforeGap(least, tile, SampleLatitude(latitudeAt, tile, row), n);
    GapTileSeesNothing(least, latitudeAt, tile, row, n, source);
    NeighbourSeesCell(least, latitudeAt, tile, next, row, n, source, Pair(EdgeLongitude(next, 0), EdgeLongitude(next, 1)),
                      Pair(EdgeLatitude(latitudeAt, next, row), EdgeLatitude(latitudeAt, next, row + 1)));
    AveragedWithoutRaster(source, latitudeAt, tile, row, CELL_COUNT);
    AveragedWithoutRaster(source, latitudeAt, next, row, 0);
  }

  // ---------------------------------------------------------------- the theorem

  function EastOf(tile: TileAddress): TileAddress { tile.(x := tile.x + 1) }

  ghost predicate AgreesFor(source: Source, latitudeAt: real -> real, tile: TileAddress, row: int)
    requires ValidSource(source)
  {
    TileSample(source, latitudeAt, tile, row, CELL_COUNT) == TileSample(source, latitudeAt, EastOf(tile), row, 0)
  }

  ghost predicate EastEdgeAgrees(least: nat, latitudeAt: real -> real, tile: TileAddress, row: int)
    requires least > 0
  {
    forall source: Source :: Glo30(source, least) ==> AgreesFor(source, latitudeAt, tile, row)
  }

  lemma {:induction false} GapDisagrees(least: nat, latitudeAt: real -> real, tile: TileAddress, row: int) returns (source: Source)
    requires MIN_COLUMNS <= least <= 3600
    requires Projection(latitudeAt) && ValidTile(tile) && tile.x + 1 < TileCount(tile.zoom) && 0 <= row < GRID_SIZE && Gap(tile, least)
    ensures Glo30(source, least) && !AgreesFor(source, latitudeAt, tile, row)
  {
    source := GapNeighboursDisagree(least, latitudeAt, tile, row);
    Disagree(source, latitudeAt, tile, row);
  }

  lemma Disagree(source: Source, latitudeAt: real -> real, tile: TileAddress, row: int)
    requires ValidSource(source)
    requires TileSample(source, latitudeAt, tile, row, CELL_COUNT).None? && TileSample(source, latitudeAt, tile.(x := tile.x + 1), row, 0).Some?
    ensures !AgreesFor(source, latitudeAt, tile, row)
  {
  }

  lemma {:induction false} NoGapNeighboursAgree(least: nat, source: Source, latitudeAt: real -> real, tile: TileAddress, row: int)
    requires least >= MIN_COLUMNS
    requires Projection(latitudeAt) && ValidTile(tile) && tile.x + 1 < TileCount(tile.zoom) && 0 <= row < GRID_SIZE
    requires Glo30(source, least) && !Gap(tile, least)
    ensures AgreesFor(source, latitudeAt, tile, row)
  {
    if UsesAreaAverage(tile) {
      InnerBoxesComplete(least, tile.(x := tile.x + 1), 0);
    }
    EastNeighbourAgreesIf(source, least, latitudeAt, tile, row);
  }

  /** A tile agrees with its east neighbour on a shared sample for every GLO-30 source with so many columns if and only if it has no gap. */
  lemma {:induction false} EastEdgeAgreesIff(least: nat, latitudeAt: real -> real, tile: TileAddress, row: int)
    requires MIN_COLUMNS <= least <= 3600
    requires Projection(latitudeAt) && ValidTile(tile) && tile.x + 1 < TileCount(tile.zoom) && 0 <= row < GRID_SIZE
    ensures EastEdgeAgrees(least, latitudeAt, tile, row) <==> !Gap(tile, least)
  {
    if Gap(tile, least) {
      var source := GapDisagrees(least, latitudeAt, tile, row);
    } else {
      forall source: Source | Glo30(source, least) ensures AgreesFor(source, latitudeAt, tile, row) {
        NoGapNeighboursAgree(least, source, latitudeAt, tile, row);
      }
    }
  }

  /** With 600 columns or more every tile agrees with its east neighbour on every shared sample. */
  lemma {:induction false} EastNeighbourAgrees(source: Source, latitudeAt: real -> real, tile: TileAddress, row: int)
    requires Projection(latitudeAt) && ValidTile(tile) && tile.x + 1 < TileCount(tile.zoom) && 0 <= row < GRID_SIZE
    requires Glo30(source, USUAL_COLUMNS)
    ensures AgreesFor(source, latitudeAt, tile, row)
  {
    UsualColumnsLeaveNoGap(USUAL_COLUMNS, tile);
    NoGapNeighboursAgree(USUAL_COLUMNS, source, latitudeAt, tile, row);
  }
}
