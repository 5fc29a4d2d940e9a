/**
 * The source cells listed before a terrain tile is normalized, and why they suffice: bilinear
 * neighbours, pixel footprints and the wrap at the antimeridian all stay inside the list.
 */
module TilePrefetch {
  import opened Wrappers
  import opened Numbers
  import opened RealSums
  import opened RasterWindow
  import opened AreaOverlap
  import opened AreaGrid
  import opened AreaCells
  import opened SourceCells
  import opened PointSample
  import opened TileSamples
  import opened GridPrefetch

  // ---------------------------------------------------------------- the list

  datatype Box = Box(west: real, east: real, south: real, north: real)

  function SouthmostCell(box: Box): int {
    SourceSouth(MaxReal(-90.0, box.south - LATITUDE_MARGIN))
  }

  function NorthmostCell(box: Box): int {
    SourceSouth(MinReal(90.0, box.north + LATITUDE_MARGIN))
  }

  function WestmostCell(box: Box): int {
    Floor(box.west - LONGITUDE_MARGIN)
  }

  function EastmostCell(box: Box): int {
    Floor(box.east + LONGITUDE_MARGIN)
  }

  /** The wrapped cells of a box widened by the margins. */
  ghost predicate InList(box: Box, a: Address) {
    && SouthmostCell(box) <= a.south <= NorthmostCell(box)
    && exists unwrapped :: WestmostCell(box) <= unwrapped <= EastmostCell(box) && WrappedWest(unwrapped) == a.west
  }

  ghost predicate ListIs(box: Box, addresses: set<Address>) {
    forall a :: a in addresses <==> InList(box, a)
  }

  /** Rows below `south`, and in row `south` the columns before `unwrapped`. */
  ghost predicate ListSoFar(first: int, west: int, east: int, south: int, unwrapped: int, addresses: set<Address>) {
    forall a :: a in addresses <==>
      || (first <= a.south < south && exists w :: west <= w <= east && WrappedWest(w) == a.west)
      || (a.south == south && exists w :: west <= w < unwrapped && w <= east && WrappedWest(w) == a.west)
  }

  lemma {:induction false} ListNext(first: int, west: int, east: int, south: int, unwrapped: int, addresses: set<Address>)
    requires first <= south && west <= unwrapped <= east && ListSoFar(first, west, east, south, unwrapped, addresses)
    ensures ListSoFar(first, west, east, south, unwrapped + 1, addresses + {Address(south, WrappedWest(unwrapped))})
  {
    forall a: Address | a.south == south
      ensures a in addresses + {Address(south, WrappedWest(unwrapped))}
              <==> exists w :: west <= w < unwrapped + 1 && w <= east && WrappedWest(w) == a.west
    {
      if a == Address(south, WrappedWest(unwrapped)) {
        assert WrappedWest(unwrapped) == a.west;
      }
    }
  }

  lemma {:induction false} ListNextRow(first: int, west: int, east: int, south: int, addresses: set<Address>)
    requires first <= south && ListSoFar(first, west, east, south, east + 1, addresses)
    ensures ListSoFar(first, west, east, south + 1, west, addresses)
  {
  }

  /** The cells [west, east] of one band. */
  method ListBand(ghost first: int, west: int, east: int, south: int, before: set<Address>) returns (addresses: set<Address>)
    requires first <= south && ListSoFar(first, west, east, south, west, before) && west <= east + 1
    ensures ListSoFar(first, west, east, south + 1, west, addresses)
  {
    addresses := before;
    var unwrapped := west;
    while unwrapped <= east
      invariant west <= unwrapped <= east + 1 && ListSoFar(first, west, east, south, unwrapped, addresses)
    {
      ListNext(first, west, east, south, unwrapped, addresses);
      addresses := addresses + {Address(south, WrappedWest(unwrapped))};
      unwrapped := unwrapped + 1;
    }
    ListNextRow(first, west, east, south, addresses);
  }

  method ListCells(first: int, last: int, west: int, east: int) returns (addresses: set<Address>)
    requires west <= east + 1
    ensures forall a :: a in addresses <==>
              (first <= a.south <= last && exists w :: west <= w <= east && WrappedWest(w) == a.west)
  {
    addresses := {};
    var south := first;
    while south <= last
      invariant first <= south && (south <= last + 1 || south == first)
      invariant ListSoFar(first, west, east, south, west, addresses)
      decreases last - south
    {
      addresses := ListBand(first, west, east, south, addresses);
      south := south + 1;
    }
  }

  /** The tile, or where it is averaged its sample boxes, which reach half a spacing beyond it. */
  function TileBox(latitudeAt: real -> real, tile: TileAddress): Box {
    var box := Box(SampleLongitude(tile, 0), SampleLongitude(tile, CELL_COUNT),
                   SampleLatitude(latitudeAt, tile, CELL_COUNT), SampleLatitude(latitudeAt, tile, 0));
    if UsesAreaAverage(tile) then
      Box(MinReal(box.west, EdgeLongitude(tile, 0)), MaxReal(box.east, EdgeLongitude(tile, GRID_SIZE)),
          MinReal(box.south, EdgeLatitude(latitudeAt, tile, GRID_SIZE)), MaxReal(box.north, EdgeLatitude(latitudeAt, tile, 0)))
    else box
  }

  method NormalizedTileSources(latitudeAt: real -> real, tile: TileAddress) returns (addresses: set<Address>)
    requires Projection(latitudeAt) && ValidTile(tile)
    ensures ListIs(TileBox(latitudeAt, tile), addresses)
  {
    var box := TileBox(latitudeAt, tile);
    BoxIsSpread(latitudeAt, tile);
    addresses := ListCells(SouthmostCell(box), NorthmostCell(box), WestmostCell(box), EastmostCell(box));
  }

  // ---------------------------------------------------------------- samples lie in the box

  lemma {:induction false} SampleInBox(latitudeAt: real -> real, tile: TileAddress, row: int, column: int)
    requires Projection(latitudeAt) && ValidTile(tile) && 0 <= row <= CELL_COUNT && 0 <= column <= CELL_COUNT
    ensures var box := TileBox(latitudeAt, tile);
            box.west <= SampleLongitude(tile, column) <= box.east
            && box.south <= SampleLatitude(latitudeAt, tile, row) <= box.north
    ensures -180.0 <= SampleLongitude(tile, column) <= 180.0
  {
    LongitudesOrdered(tile, column);
    LatitudesOrdered(latitudeAt, tile, 0.0, row as real);
    LatitudesOrdered(latitudeAt, tile, row as real, 64.0);
  }

  lemma {:induction false} LongitudesOrdered(tile: TileAddress, column: int)
    requires ValidTile(tile) && 0 <= column <= CELL_COUNT
    ensures SampleLongitude(tile, 0) <= SampleLongitude(tile, column) <= SampleLongitude(tile, CELL_COUNT)
    ensures -180.0 <= SampleLongitude(tile, column) <= 180.0
  {
    FractionInside(tile, tile.x, column as real);
    FractionMonotone(tile.zoom, tile.x, 0.0, column as real);
    FractionMonotone(tile.zoom, tile.x, column as real, 64.0);
  }

  lemma {:induction false} LatitudesOrdered(latitudeAt: real -> real, tile: TileAddress, a: real, b: real)
    requires Projection(latitudeAt) && ValidTile(tile) && -0.5 <= a <= b <= 64.5
    ensures -88.0 < latitudeAt(Fraction(tile.zoom, tile.y, b)) <= latitudeAt(Fraction(tile.zoom, tile.y, a)) < 88.0
  {
    FractionInside(tile, tile.y, a);
    FractionInside(tile, tile.y, b);
    FractionMonotone(tile.zoom, tile.y, a, b);
  }

  /** The box is not empty, stays off the poles, starts west of the antimeridian and is less than a turn wide. */
  lemma {:induction false} BoxIsSpread(latitudeAt: real -> real, tile: TileAddress)
    requires Projection(latitudeAt) && ValidTile(tile)
    ensures var box := TileBox(latitudeAt, tile);
            box.west < box.east && box.west < 180.0 && -88.0 < box.south <= box.north < 88.0
  {
    FractionMonotone(tile.zoom, tile.x, 0.0, 64.0);
    FractionInside(tile, tile.x, 64.0);
    LatitudesOrdered(latitudeAt, tile, 0.0, 64.0);
    LatitudesOrdered(latitudeAt, tile, 64.0, 64.5);
    LatitudesOrdered(latitudeAt, tile, -0.5, 0.0);
  }

  // ---------------------------------------------------------------- cells of coordinates near the box

  /** Cells in range need no wrapping. */
  lemma WrapIsIdentity(west: int)
    requires -180 <= west < 180
    ensures WrappedWest(west) == west
  {
  }

  /** The cell of any coordinate of the box, and its neighbours as far as a grid point can lie, is listed. */
  lemma {:induction false} NeighboursInList(box: Box, latitude: real, longitude: real, a: Address)
    requires box.south <= latitude <= box.north && box.west <= longitude <= box.east && box.west < 180.0
    requires -88.0 < box.south && box.north < 88.0 && -180.0 <= longitude <= 180.0
    requires var base := CellOf(latitude, longitude);
             && (a.west == base.west || (a.west == base.west + 1 <= 179 && longitude >= a.west as real - LONGITUDE_MARGIN))
             && (a.south == base.south || (a.south == base.south - 1 && latitude < base.south as real + LATITUDE_MARGIN))
    ensures InList(box, a)
  {
    var base := CellOf(latitude, longitude);
    SouthIsMonotone(latitude, MinReal(90.0, box.north + LATITUDE_MARGIN));
    SouthInList(box, latitude, a.south);
    assert WestmostCell(box) <= a.west <= EastmostCell(box) && -180 <= a.west < 180;
    WrapIsIdentity(a.west);
  }

  lemma {:induction false} SouthInList(box: Box, latitude: real, south: int)
    requires -88.0 < box.south <= latitude < 88.0
    requires south == SourceSouth(latitude) || (south == SourceSouth(latitude) - 1 && latitude < SourceSouth(latitude) as real + LATITUDE_MARGIN)
    ensures SouthmostCell(box) <= south
  {
    var low := box.south - LATITUDE_MARGIN;
    SouthNearFloor(latitude);
    SouthNearFloor(low);
    SouthIsMonotone(low, latitude);
    if south == SourceSouth(latitude) - 1 {
      assert low < SourceSouth(latitude) as real;
      assert Floor(low) <= SourceSouth(latitude) - 1;
    }
  }

  // ---------------------------------------------------------------- bilinear corners

  /** A corner that counts has a positive share of its column and of its row. */
  lemma CountedCorner(u: real, v: real)
    requires 0.0 <= u <= 1.0 && 0.0 <= v <= 1.0
    ensures u * (1.0 - v) > EPSILON ==> u > 0.0
    ensures (1.0 - u) * v > EPSILON ==> v > 0.0
    ensures u * v > EPSILON ==> u > 0.0 && v > 0.0
  {
    if u == 0.0 {
      assert u * (1.0 - v) == 0.0 && u * v == 0.0;
    }
    if v == 0.0 {
      assert (1.0 - u) * v == 0.0 && u * v == 0.0;
    }
  }

  /** The first column or row of the corners, and how far the coordinate is past it. */
  lemma {:induction false} CornerSpan(distance: real, pixels: int, position: real, first: int, share: real)
    requires pixels >= 360 && position == InPixels(distance, pixels) && first == Max(0, Floor(position))
    requires share == ClampReal(position - first as real, 0.0, 1.0) && -0.001 <= distance <= 1.0
    ensures 0.0 <= share <= 1.0 && 0 <= first <= pixels
    ensures first == pixels ==> distance == 1.0
    ensures share > 0.0 ==> first + 1 <= pixels
    ensures share > 0.0 && first + 1 == pixels ==> distance > 1.0 - 1.0 / pixels as real
  {
    var n := pixels as real;
    assert distance * n <= n by {
      assert (1.0 - distance) * n == n - distance * n;
      NonNegativeProduct(1.0 - distance, n);
    }
    if first == pixels {
      assert distance * n >= n;
      Cancel(1.0, distance, n);
    }
    if share > 0.0 && first + 1 == pixels {
      LastColumn(distance, n);
    }
  }

  lemma LastColumn(d: real, n: real)
    requires n > 0.0 && d * n > n - 1.0
    ensures d > 1.0 - 1.0 / n
  {
    var bound := 1.0 - 1.0 / n;
    assert 1.0 / n * n == 1.0;
    assert bound * n == n - 1.0 / n * n;
    if d <= bound {
      assert (bound - d) * n == bound * n - d * n;
      NonNegativeProduct(bound - d, n);
    }
  }

  /** Where the corners that count lie: in their base cell or on the first column or row of the next. */
  ghost predicate NearCell(base: Address, width: int, latitude: real, longitude: real, corner: Corner) {
    && 0 <= corner.column <= width && 0 <= corner.row <= 3600
    && (corner.column == width && base.west < 179 ==> longitude >= (base.west + 1) as real - LONGITUDE_MARGIN)
    && (corner.row == 3600 ==> latitude < base.south as real + LATITUDE_MARGIN)
  }

  lemma {:induction false} CornersAreNear(width: int, latitude: real, longitude: real, i: int)
    requires MIN_COLUMNS <= width && -88.0 < latitude < 88.0 && -180.0 <= longitude <= 180.0 && 0 <= i < 4
    requires Corners(CellOf(latitude, longitude), width, 3600, latitude, longitude)[i].weight > EPSILON
    ensures var base := CellOf(latitude, longitude);
            NearCell(base, width, latitude, longitude, Corners(base, width, 3600, latitude, longitude)[i])
  {
    var base := CellOf(latitude, longitude);
    SouthNearFloor(latitude);
    var x, y := InPixels(longitude - base.west as real, width), InPixels((base.south + 1) as real - latitude, 3600);
    var column, row := Max(0, Floor(x)), Max(0, Floor(y));
    var u, v := ClampReal(x - column as real, 0.0, 1.0), ClampReal(y - row as real, 0.0, 1.0);
    CornerSpan(longitude - base.west as real, width, x, column, u);
    CornerSpan((base.south + 1) as real - latitude, 3600, y, row, v);
    CountedCorner(u, v);
    OneOver(width);
  }

  lemma OneOver(width: int)
    requires width >= 360
    ensures 1.0 / width as real <= LONGITUDE_MARGIN
  {
    var q := 1.0 / width as real;
    assert q * width as real == 1.0;
    assert LONGITUDE_MARGIN * width as real >= 1.0;
    Cancel(q, LONGITUDE_MARGIN, width as real);
  }

  lemma {:induction false} NearIsInList(box: Box, width: int, latitude: real, longitude: real, base: Address, corner: Corner)
    requires MIN_COLUMNS <= width && box.west < 180.0
    requires -88.0 < box.south <= latitude <= box.north < 88.0
    requires box.west <= longitude <= box.east && -180.0 <= longitude <= 180.0
    requires base == CellOf(latitude, longitude) && -89 <= base.south <= 88 && -180 <= base.west <= 179
    requires NearCell(base, width, latitude, longitude, corner)
    ensures InList(box, GridAddress(base, width, 3600, corner.column, corner.row))
  {
    ColumnCell(base, width, corner.column);
    RowCell(base, corner.row);
    NeighboursInList(box, latitude, longitude, GridAddress(base, width, 3600, corner.column, corner.row));
  }

  /** Every grid point a bilinear sample of the box reads lies in a listed cell. */
  lemma {:induction false} CornersInList(box: Box, width: int, latitude: real, longitude: real, addresses: set<Address>,
                                         base: Address, corners: seq<Corner>)
    requires MIN_COLUMNS <= width && ListIs(box, addresses) && box.west < 180.0
    requires -88.0 < box.south <= latitude <= box.north < 88.0
    requires box.west <= longitude <= box.east && -180.0 <= longitude <= 180.0
    requires base == CellOf(latitude, longitude) && -89 <= base.south <= 88 && -180 <= base.west <= 179
    requires forall i :: 0 <= i < |corners| && corners[i].weight > EPSILON ==> NearCell(base, width, latitude, longitude, corners[i])
    ensures CornersIn(base, width, 3600, corners, addresses)
  {
    forall i | 0 <= i < |corners| && corners[i].weight > EPSILON
      ensures GridAddress(base, width, 3600, corners[i].column, corners[i].row) in addresses
    {
      NearIsInList(box, width, latitude, longitude, base, corners[i]);
    }
  }

  // ---------------------------------------------------------------- candidates of the area average

  /** Every candidate cell of the area average is listed. */
  lemma {:induction false} CandidatesInList(latitudeAt: real -> real, tile: TileAddress, s: int, w: int)
    requires Projection(latitudeAt) && ValidTile(tile) && UsesAreaAverage(tile)
    requires var lon, lat := LongitudeEdges(tile), LatitudeEdges(latitudeAt, tile);
             FirstSouth(lat) <= s < EndSouth(lat) && FirstWest(lon) <= w <= LastWest(lon)
    ensures InList(TileBox(latitudeAt, tile), Address(s, WrappedWest(w)))
  {
    var lon, lat := LongitudeEdges(tile), LatitudeEdges(latitudeAt, tile);
    var box := TileBox(latitudeAt, tile);
    BoxIsSpread(latitudeAt, tile);
    LatitudesOrdered(latitudeAt, tile, -0.5, 64.5);
    SouthOfEdge(box.south, lat[GRID_SIZE], FirstSouth(lat));
    NorthOfEdge(box.north, lat[0], s);
    assert WestmostCell(box) <= w <= EastmostCell(box);
  }

  lemma SouthOfEdge(south: real, edge: real, first: int)
    requires -88.0 < south <= edge < 88.0 && first == Max(-90, Floor(edge - MAX_HALF_LATITUDE))
    ensures SourceSouth(MaxReal(-90.0, south - LATITUDE_MARGIN)) <= first
  {
    SouthNearFloor(south - LATITUDE_MARGIN);
  }

  lemma NorthOfEdge(north: real, edge: real, s: int)
    requires -88.0 < edge <= north < 88.0 && s <= Min(89, Ceil(edge - MAX_HALF_LATITUDE) - 1)
    ensures s <= SourceSouth(MinReal(90.0, north + LATITUDE_MARGIN))
  {
    SouthNearFloor(north + LATITUDE_MARGIN);
  }

  // ---------------------------------------------------------------- the theorem

  lemma {:induction false} AllNear(width: int, latitude: real, longitude: real, base: Address, corners: seq<Corner>)
    requires MIN_COLUMNS <= width && -88.0 < latitude < 88.0 && -180.0 <= longitude <= 180.0
    requires base == CellOf(latitude, longitude) && corners == Corners(base, width, 3600, latitude, longitude)
    ensures forall i :: 0 <= i < |corners| && corners[i].weight > EPSILON ==> NearCell(base, width, latitude, longitude, corners[i])
  {
    forall i | 0 <= i < |corners| && corners[i].weight > EPSILON ensures NearCell(base, width, latitude, longitude, corners[i]) {
      CornersAreNear(width, latitude, longitude, i);
    }
  }

  lemma BilinearIs(source: Source, latitude: real, longitude: real, base: Address, raster: Raster)
    requires ValidSource(source) && base == CellOf(latitude, longitude) && RasterAt(source, base) == Some(raster)
    ensures Bilinear(source, latitude, longitude)
            == Blend(GridValues(source, base, raster), Corners(base, raster.width, raster.height, latitude, longitude))
  {
  }

  /** A point of the box is sampled from listed cells only. */
  lemma {:induction false} PointNeedsOnlyListed(source: Source, source': Source, box: Box, addresses: set<Address>,
                                                latitude: real, longitude: real, base: Address)
    requires ListIs(box, addresses) && box.west < 180.0 && base == CellOf(latitude, longitude)
    requires -88.0 < box.south <= latitude <= box.north < 88.0
    requires box.west <= longitude <= box.east && -180.0 <= longitude <= 180.0
    requires Glo30(source, MIN_COLUMNS) && ValidSource(source') && Agree(source, source', addresses)
    ensures SamePoint(source, source', latitude, longitude)
  {
    SouthNearFloor(latitude);
    NeighboursInList(box, latitude, longitude, base);
    assert base in addresses;
    match RasterAt(source, base)
    case None =>
    case Some(raster) =>
      var corners := Corners(base, raster.width, raster.height, latitude, longitude);
      AllNear(raster.width, latitude, longitude, base, corners);
      CornersInList(box, raster.width, latitude, longitude, addresses, base, corners);
    BilinearDepends(source, source', latitude, longitude, addresses);
  }

  /** The point sample, its failure and the cell of the point are the same. */
  ghost predicate SamePoint(source: Source, source': Source, latitude: real, longitude: real)
    requires ValidSource(source) && ValidSource(source')
  {
    var base := CellOf(latitude, longitude);
    && Bilinear(source, latitude, longitude) == Bilinear(source', latitude, longitude)
    && BilinearFails(source, latitude, longitude) == BilinearFails(source', latitude, longitude)
    && source(base.south, base.west) == source'(base.south, base.west)
  }

  lemma {:induction false} SampleNeedsOnlyListed(source: Source, source': Source, latitudeAt: real -> real, tile: TileAddress,
                                                 addresses: set<Address>, row: int, column: int)
    requires Projection(latitudeAt) && ValidTile(tile) && 0 <= row <= CELL_COUNT && 0 <= column <= CELL_COUNT
    requires ListIs(TileBox(latitudeAt, tile), addresses)
    requires Glo30(source, MIN_COLUMNS) && ValidSource(source') && Agree(source, source', addresses)
    ensures SamePoint(source, source', SampleLatitude(latitudeAt, tile, row), SampleLongitude(tile, column))
  {
    var latitude, longitude := SampleLatitude(latitudeAt, tile, row), SampleLongitude(tile, column);
    SampleInBox(latitudeAt, tile, row, column);
    BoxIsSpread(latitudeAt, tile);
    PointNeedsOnlyListed(source, source', TileBox(latitudeAt, tile), addresses, latitude, longitude, CellOf(latitude, longitude));
  }

  /** The sums over candidate cells are the same for sources that agree on those cells. */
  lemma {:induction false} PlainSumDepends(source: Source, source': Source, lon: seq<real>, lat: seq<real>, i: int, j: int, mass: bool,
                                           s0: int, s1: int, w0: int, w1: int)
    requires ValidSource(source) && ValidSource(source')
    requires forall s, w :: s0 <= s < s1 && w0 <= w < w1 ==> source(s, WrappedWest(w)) == source'(s, WrappedWest(w))
    ensures PlainSum(source, lon, lat, i, j, mass, s0, s1, w0, w1) == PlainSum(source', lon, lat, i, j, mass, s0, s1, w0, w1)
  {
    var bands, bands' := BandSum(source, lon, lat, i, j, mass, w0, w1), BandSum(source', lon, lat, i, j, mass, w0, w1);
    forall s | s0 <= s < s1 ensures bands(s) == bands'(s) {
      SumSame(BandTerm(source, lon, lat, i, j, mass, s), BandTerm(source', lon, lat, i, j, mass, s), w0, w1);
    }
    SumSame(bands, bands', s0, s1);
  }

  /** The sources hold the same in every candidate cell of the tile. */
  ghost predicate SameCandidates(source: Source, source': Source, lon: seq<real>, lat: seq<real>)
    requires |lon| >= 1 && |lat| >= 1
  {
    forall s, w :: FirstSouth(lat) <= s < EndSouth(lat) && FirstWest(lon) <= w < LastWest(lon) + 1 ==>
      source(s, WrappedWest(w)) == source'(s, WrappedWest(w))
  }

  lemma {:induction false} CandidatesAgree(source: Source, source': Source, latitudeAt: real -> real, tile: TileAddress, addresses: set<Address>)
    requires Projection(latitudeAt) && ValidTile(tile) && UsesAreaAverage(tile)
    requires ListIs(TileBox(latitudeAt, tile), addresses) && Agree(source, source', addresses)
    ensures SameCandidates(source, source', LongitudeEdges(tile), LatitudeEdges(latitudeAt, tile))
  {
    var lon, lat := LongitudeEdges(tile), LatitudeEdges(latitudeAt, tile);
    forall s, w | FirstSouth(lat) <= s < EndSouth(lat) && FirstWest(lon) <= w < LastWest(lon) + 1
      ensures source(s, WrappedWest(w)) == source'(s, WrappedWest(w))
    {
      CandidatesInList(latitudeAt, tile, s, w);
      assert Address(s, WrappedWest(w)) in addresses;
    }
  }

  lemma {:induction false} BoxSumDepends(source: Source, source': Source, latitudeAt: real -> real, tile: TileAddress, row: int, column: int, mass: bool)
    requires ValidSource(source) && ValidSource(source')
    requires SameCandidates(source, source', LongitudeEdges(tile), LatitudeEdges(latitudeAt, tile))
    ensures BoxSum(source, latitudeAt, tile, row, column, mass) == BoxSum(source', latitudeAt, tile, row, column, mass)
  {
    var lon, lat := LongitudeEdges(tile), LatitudeEdges(latitudeAt, tile);
    PlainSumDepends(source, source', lon, lat, row, column, mass, FirstSouth(lat), EndSouth(lat), FirstWest(lon), LastWest(lon) + 1);
  }

  /** Every sample of a tile is a function of the listed cells, whatever the other cells hold. */
  lemma {:induction false} TileNeedsOnlyListedCells(source: Source, source': Source, latitudeAt: real -> real, tile: TileAddress,
                                                    addresses: set<Address>, row: int, column: int)
    requires Projection(latitudeAt) && ValidTile(tile) && 0 <= row <= CELL_COUNT && 0 <= column <= CELL_COUNT
    requires ListIs(TileBox(latitudeAt, tile), addresses)
    requires Glo30(source, MIN_COLUMNS) && ValidSource(source') && Agree(source, source', addresses)
    ensures TileSample(source, latitudeAt, tile, row, column) == TileSample(source', latitudeAt, tile, row, column)
  {
    SampleNeedsOnlyListed(source, source', latitudeAt, tile, addresses, row, column);
    if UsesAreaAverage(tile) {
      CandidatesAgree(source, source', latitudeAt, tile, addresses);
      BoxSumDepends(source, source', latitudeAt, tile, row, column, false);
      BoxSumDepends(source, source', latitudeAt, tile, row, column, true);
    }
  }
}
