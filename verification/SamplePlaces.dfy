/**
 * Where the elevations of an analysis grid and of a normalized tile lie, and which of them a request returns:
 * the places are given by equations, from the edges of the grid or the numbers of the tile.
 */
module SamplePlaces {
  import opened Wrappers
  import opened TileRange
  import opened AreaGrid
  import opened AreaCells
  import opened SourceCells
  import opened PointSample
  import opened TileSamples
  import opened TileFetch
  import opened GridPrefetch
  import AreaMeans

  // ---------------------------------------------------------------- grids

  /** The centre of a grid cell: half a cell and so many cells from the north and the west edge. */
  predicate Centre(r: GridRequest, row: int, column: int, latitude: real, longitude: real) {
    && (r.north - latitude) * (2 * r.rows) as real == (2 * row + 1) as real * (r.north - r.south)
    && (longitude - r.west) * (2 * r.columns) as real == (2 * column + 1) as real * (r.east - r.west)
  }

  lemma HalfSteps(k: int, n: int, length: real, step: real, distance: real)
    requires n > 0 && step * n as real == length
    ensures distance * (2 * n) as real == (2 * k + 1) as real * length <==> distance == (k as real + 0.5) * step
  {
    var place, count := (k as real + 0.5) * step, (2 * n) as real;
    assert (2 * k + 1) as real == 2.0 * (k as real + 0.5) && count == 2.0 * n as real;
    Regroup(k as real + 0.5, step, n as real);
    assert place * count == (2 * k + 1) as real * length;
    if distance * count == place * count {
      Cancel(distance, place, count);
      Cancel(place, distance, count);
    }
  }

  lemma Regroup(a: real, b: real, n: real)
    ensures a * b * (2.0 * n) == 2.0 * a * (b * n)
  {
  }

  lemma CentreIs(r: GridRequest, row: int, column: int, latitude: real, longitude: real)
    requires ValidRequest(r)
    ensures Centre(r, row, column, latitude, longitude) <==> latitude == CellLatitude(r, row) && longitude == CellLongitude(r, column)
  {
    HalfSteps(row, r.rows, r.north - r.south, (r.north - r.south) / r.rows as real, r.north - latitude);
    HalfSteps(column, r.columns, r.east - r.west, (r.east - r.west) / r.columns as real, longitude - r.west);
  }

  function Index(row: int, column: int, columns: int): int { row * columns + column }

  lemma RowsBefore(rows: int, row: int, column: int, columns: int)
    requires 0 <= row < rows && 0 <= column < columns
    ensures 0 <= Index(row, column, columns) < rows * columns
    ensures row < rows - 1 ==> Index(row, column, columns) < (rows - 1) * columns
  {
    assert row * columns <= (rows - 1) * columns;
    assert row * columns >= 0;
    if row < rows - 1 {
      assert (row + 1) * columns <= (rows - 1) * columns;
    }
  }

  lemma {:induction false} InRows(source: Source, r: GridRequest, rows: nat, row: int, column: int)
    requires ValidSource(source) && ValidRequest(r) && 0 <= row < rows && 0 <= column < r.columns
    ensures var all := GridRows(source, r, rows);
      && |all| == rows * r.columns && 0 <= Index(row, column, r.columns) < |all|
      && all[Index(row, column, r.columns)] == Native(source, CellLatitude(r, row), CellLongitude(r, column))
    decreases rows
  {
    RowsBefore(rows, row, column, r.columns);
    RowsLength(source, r, rows - 1);
    RowsLength(source, r, rows);
    if row < rows - 1 {
      InRows(source, r, rows - 1, row, column);
    }
  }

  lemma {:induction false} RowsLength(source: Source, r: GridRequest, rows: nat)
    requires ValidSource(source) && ValidRequest(r)
    ensures |GridRows(source, r, rows)| == rows * r.columns
    decreases rows
  {
    if rows > 0 {
      RowsLength(source, r, rows - 1);
      assert rows * r.columns == (rows - 1) * r.columns + r.columns;
    }
  }

  /** A filled grid holds the native sample of each centre, row by row from the north-west. */
  lemma {:induction false} GridHoldsCentres(source: Source, r: GridRequest, elevations: seq<Option<real>>, row: int, column: int,
                                            latitude: real, longitude: real)
    requires ValidSource(source) && ValidRequest(r) && FetchedGrid(source, r) == Filled(elevations)
    requires 0 <= row < r.rows && 0 <= column < r.columns && Centre(r, row, column, latitude, longitude)
    ensures |elevations| == r.rows * r.columns && 0 <= Index(row, column, r.columns) < |elevations|
    ensures elevations[Index(row, column, r.columns)] == Native(source, latitude, longitude)
  {
    CentreIs(r, row, column, latitude, longitude);
    InRows(source, r, r.rows, row, column);
  }

  ghost predicate SomeCentreFails(source: Source, r: GridRequest)
    requires ValidSource(source)
  {
    exists row, column, latitude, longitude ::
      0 <= row < r.rows && 0 <= column < r.columns && Centre(r, row, column, latitude, longitude) && NativeFails(source, latitude, longitude)
  }

  ghost predicate SomeCentreHasElevation(source: Source, r: GridRequest)
    requires ValidSource(source)
  {
    exists row, column, latitude, longitude ::
      0 <= row < r.rows && 0 <= column < r.columns && Centre(r, row, column, latitude, longitude) && Native(source, latitude, longitude).Some?
  }

  /** The request fails if and only if some centre cannot be read, and has no coverage if and only if no centre has an elevation. */
  lemma {:induction false} GridEndsIff(source: Source, r: GridRequest)
    requires ValidSource(source) && ValidRequest(r)
    ensures FetchedGrid(source, r).SourceFailed? <==> SomeCentreFails(source, r)
    ensures FetchedGrid(source, r).NoCoverage? <==> !SomeCentreFails(source, r) && !SomeCentreHasElevation(source, r)
  {
    FailureIff(source, r);
    ElevationIff(source, r);
  }

  lemma {:induction false} FailureIff(source: Source, r: GridRequest)
    requires ValidSource(source) && ValidRequest(r)
    ensures SomeCellFails(source, r) <==> SomeCentreFails(source, r)
  {
    if SomeCellFails(source, r) {
      var row, column :| 0 <= row < r.rows && 0 <= column < r.columns && GridCellFails(source, r, row, column);
      CentreIs(r, row, column, CellLatitude(r, row), CellLongitude(r, column));
    }
    if SomeCentreFails(source, r) {
      var row, column, latitude, longitude :| 0 <= row < r.rows && 0 <= column < r.columns && Centre(r, row, column, latitude, longitude)
                                              && NativeFails(source, latitude, longitude);
      CentreIs(r, row, column, latitude, longitude);
      assert GridCellFails(source, r, row, column);
    }
  }

  ghost predicate HasElevation(samples: seq<Option<real>>) {
    exists i :: 0 <= i < |samples| && samples[i].Some?
  }

  lemma MoreRows(row: int, rows: int, columns: int)
    requires columns > 0
    ensures row >= rows ==> row * columns >= rows * columns
  {
  }

  lemma RowAndColumn(i: int, rows: int, columns: int) returns (row: int, column: int)
    requires columns > 0 && 0 <= i < rows * columns
    ensures 0 <= row < rows && 0 <= column < columns && i == Index(row, column, columns)
  {
    row, column := i / columns, i % columns;
    MoreRows(row, rows, columns);
  }

  lemma {:induction false} ElevationIff(source: Source, r: GridRequest)
    requires ValidSource(source) && ValidRequest(r)
    ensures HasElevation(GridRows(source, r, r.rows)) <==> SomeCentreHasElevation(source, r)
  {
    var all := GridRows(source, r, r.rows);
    if HasElevation(all) {
      var i :| 0 <= i < |all| && all[i].Some?;
      RowsLength(source, r, r.rows);
      var row, column := RowAndColumn(i, r.rows, r.columns);
      InRows(source, r, r.rows, row, column);
      CentreIs(r, row, column, CellLatitude(r, row), CellLongitude(r, column));
    }
    if SomeCentreHasElevation(source, r) {
      var row, column, latitude, longitude :| 0 <= row < r.rows && 0 <= column < r.columns && Centre(r, row, column, latitude, longitude)
                                              && Native(source, latitude, longitude).Some?;
      CentreIs(r, row, column, latitude, longitude);
      InRows(source, r, r.rows, row, column);
      assert all[Index(row, column, r.columns)].Some?;
    }
  }

  // ---------------------------------------------------------------- tiles

  /** A place so many 64ths of a tile east and south of the north-west corner of tile (x, y): its longitude, and its share of the map's height. */
  predicate PlaceInTile(tile: TileAddress, column: real, row: real, longitude: real, share: real) {
    && (longitude + 180.0) * (64 * TileCount(tile.zoom)) as real == 360.0 * ((64 * tile.x) as real + column)
    && share * (64 * TileCount(tile.zoom)) as real == (64 * tile.y) as real + row
  }

  lemma ShareIs(i: int, offset: real, n: int, share: real)
    requires n > 0
    ensures share * (64 * n) as real == (64 * i) as real + offset <==> share == (i as real + offset / 64.0) / n as real
  {
    var place, count := (i as real + offset / 64.0) / n as real, (64 * n) as real;
    assert place * n as real == i as real + offset / 64.0;
    assert count == 64.0 * n as real && place * count == 64.0 * (place * n as real) == (64 * i) as real + offset;
    if share * count == place * count {
      Cancel(share, place, count);
      Cancel(place, share, count);
    }
  }

  lemma PlaceIs(tile: TileAddress, column: real, row: real, longitude: real, share: real)
    ensures PlaceInTile(tile, column, row, longitude, share)
            <==> longitude == LongitudeAt(Fraction(tile.zoom, tile.x, column)) && share == Fraction(tile.zoom, tile.y, row)
  {
    ShareIs(tile.x, column, TileCount(tile.zoom), (longitude + 180.0) / 360.0);
    ShareIs(tile.y, row, TileCount(tile.zoom), share);
    var count := (64 * TileCount(tile.zoom)) as real;
    assert (longitude + 180.0) / 360.0 * 360.0 == longitude + 180.0;
    TimesTurn((longitude + 180.0) / 360.0, count, (64 * tile.x) as real + column);
  }

  lemma TimesTurn(share: real, count: real, place: real)
    ensures share * 360.0 * count == 360.0 * place <==> share * count == place
  {
    assert share * 360.0 * count == 360.0 * (share * count);
  }

  /** A point sample of a filled tile is the bilinear sample of its place. */
  lemma {:induction false} PointSampleIsBilinear(source: Source, latitudeAt: real -> real, tile: TileAddress, samples: seq<Option<real>>,
                                                 row: int, column: int, longitude: real, share: real)
    requires ValidSource(source) && Fetched(source, latitudeAt, tile) == Filled(samples) && 0 <= row < GRID_SIZE && 0 <= column < GRID_SIZE
    requires PlaceInTile(tile, column as real, row as real, longitude, share) && PointSampled(source, latitudeAt, tile, row, column)
    ensures AreaMeans.SampleIn(samples, row, column) == Bilinear(source, latitudeAt(share), longitude)
  {
    PlaceIs(tile, column as real, row as real, longitude, share);
    AreaMeans.FetchedSample(source, latitudeAt, tile, samples, row, column);
  }

  /** The box of a sample reaches half a spacing to each side of its place. */
  lemma {:induction false} BoxIsAroundPlace(latitudeAt: real -> real, tile: TileAddress, row: int, column: int,
                                            west: real, north: real, east: real, south: real)
    requires PlaceInTile(tile, column as real - 0.5, row as real - 0.5, west, north)
    requires PlaceInTile(tile, column as real + 0.5, row as real + 0.5, east, south)
    ensures AreaMeans.BoxOfSample(latitudeAt, tile, row, column) == AreaMeans.SampleBox(west, east, latitudeAt(south), latitudeAt(north))
  {
    PlaceIs(tile, column as real - 0.5, row as real - 0.5, west, north);
    PlaceIs(tile, column as real + 0.5, row as real + 0.5, east, south);
    assert (column + 1) as real - 0.5 == column as real + 0.5 && (row + 1) as real - 0.5 == row as real + 0.5;
  }

  lemma AtLeastPixel(size: real, pixels: nat)
    requires pixels > 0
    ensures size >= 1.0 / pixels as real <==> size * pixels as real >= 1.0
  {
    var step, n := 1.0 / pixels as real, pixels as real;
    assert step * n == 1.0;
    if size * n >= 1.0 && size < step {
      assert (step - size) * n > 0.0;
      assert (step - size) * n == step * n - size * n;
    }
    if size >= step {
      assert (size - step) * n >= 0.0;
      assert (size - step) * n == size * n - step * n;
    }
  }

  /** A sample is a point sample at the native zoom, and below it where its box is narrower or lower than a pixel of the cell it lies in. */
  lemma {:induction false} PointSampledIff(source: Source, latitudeAt: real -> real, tile: TileAddress, row: int, column: int,
                                           longitude: real, share: real)
    requires ValidSource(source) && ValidTile(tile) && PlaceInTile(tile, column as real, row as real, longitude, share)
    ensures PointSampled(source, latitudeAt, tile, row, column)
            <==> || tile.zoom == 14
                 || (var base, box := CellOf(latitudeAt(share), longitude), AreaMeans.BoxOfSample(latitudeAt, tile, row, column);
                     match source(base.south, base.west)
                     case Loaded(raster) =>
                       (box.east - box.west) * raster.width as real < 1.0 || (box.north - box.south) * raster.height as real < 1.0
                     case _ => false)
  {
    PlaceIs(tile, column as real, row as real, longitude, share);
    var base, box := CellOf(latitudeAt(share), longitude), AreaMeans.BoxOfSample(latitudeAt, tile, row, column);
    if source(base.south, base.west).Loaded? {
      var raster := source(base.south, base.west).raster;
      AtLeastPixel(box.east - box.west, raster.width);
      AtLeastPixel(box.north - box.south, raster.height);
    }
  }

  predicate PlaceFails(source: Source, latitudeAt: real -> real, tile: TileAddress, row: int, column: int, longitude: real, share: real)
    requires ValidSource(source)
  {
    var base := CellOf(latitudeAt(share), longitude);
    || source(base.south, base.west).Broken?
    || (PointSampled(source, latitudeAt, tile, row, column) && BilinearFails(source, latitudeAt(share), longitude))
  }

  ghost predicate SomePlaceFails(source: Source, latitudeAt: real -> real, tile: TileAddress)
    requires ValidSource(source)
  {
    exists row: int, column: int, longitude, share ::
      && 0 <= row < 65 && 0 <= column < 65 && PlaceInTile(tile, column as real, row as real, longitude, share)
      && PlaceFails(source, latitudeAt, tile, row, column, longitude, share)
  }

  lemma {:induction false} SampleFailsIff(source: Source, latitudeAt: real -> real, tile: TileAddress)
    requires ValidSource(source)
    ensures (exists row, column :: 0 <= row < GRID_SIZE && 0 <= column < GRID_SIZE && SampleFails(source, latitudeAt, tile, row, column))
            <==> SomePlaceFails(source, latitudeAt, tile)
  {
    if SomePlaceFails(source, latitudeAt, tile) {
      var row: int, column: int, longitude, share :|
        && 0 <= row < 65 && 0 <= column < 65 && PlaceInTile(tile, column as real, row as real, longitude, share)
        && PlaceFails(source, latitudeAt, tile, row, column, longitude, share);
      PlaceIs(tile, column as real, row as real, longitude, share);
      assert SampleFails(source, latitudeAt, tile, row, column);
    }
    if row, column :| 0 <= row < GRID_SIZE && 0 <= column < GRID_SIZE && SampleFails(source, latitudeAt, tile, row, column) {
      var longitude, share := SampleLongitude(tile, column), Fraction(tile.zoom, tile.y, row as real);
      PlaceIs(tile, column as real, row as real, longitude, share);
      assert PlaceFails(source, latitudeAt, tile, row, column, longitude, share);
    }
  }

  /**
   * The request fails if and only if a candidate cell of the averages cannot be used, or the cell of some sample
   * is broken, or a point sample cannot be read.
   */
  lemma {:induction false} TileFailsIff(source: Source, latitudeAt: real -> real, tile: TileAddress)
    requires ValidSource(source) && ValidTile(tile)
    ensures Fetched(source, latitudeAt, tile).SourceFailed?
            <==> || (tile.zoom < 14 && !AllUsable(source, LongitudeEdges(tile), LatitudeEdges(latitudeAt, tile)))
                 || SomePlaceFails(source, latitudeAt, tile)
  {
    SampleFailsIff(source, latitudeAt, tile);
  }
}
