/**
 * Exactly which source cells a request lists before it reads: those that the tile or the grid reaches, by a
 * margin of 1/360 degree to the east and west and 1/3600 degree to the north and south.
 */
module ListedCells {
  import opened Numbers
  import opened AreaGrid
  import opened SourceCells
  import opened TileSamples
  import opened GridPrefetch
  import opened TilePrefetch
  import opened SamplePlaces

  // ---------------------------------------------------------------- tiles

  /** The band of cells [south, south + 1] reaches into [low, high]; cells own their north border, with the tolerance. */
  predicate BandReaches(south: int, low: real, high: real) {
    low <= (south + 1) as real + 0.000000000001 && high > south as real + 0.000000000001
  }

  /** The column of cells [west, west + 1) reaches into [low, high]. */
  predicate ColumnReaches(west: int, low: real, high: real) {
    low < (west + 1) as real && west as real <= high
  }

  /** Some whole number of turns away from `west`. */
  predicate SameMeridian(unwrapped: int, west: int) {
    -180 <= west < 180 && (unwrapped - west) % 360 == 0
  }

  lemma OneOfTurn(a: int, b: int, u: int)
    requires -180 <= a < 180 && (a - u) % 360 == 0
    ensures a == b <==> -180 <= b < 180 && (u - b) % 360 == 0
  {
    var m := (a - u) / 360;
    assert a == u + 360 * m;
    if -180 <= b < 180 && (u - b) % 360 == 0 {
      var n := (u - b) / 360;
      assert u == b + 360 * n && a - b == 360 * (m + n);
    }
    if a == b {
      assert u - b == 360 * -m;
    }
  }

  lemma WrappedIff(unwrapped: int, west: int)
    ensures WrappedWest(unwrapped) == west <==> SameMeridian(unwrapped, west)
  {
    WrappedWestIs(unwrapped);
    OneOfTurn(WrappedWest(unwrapped), west, unwrapped);
  }

  lemma SouthAtMost(low: real, south: int)
    requires -90.0 < low < 90.0
    ensures SourceSouth(low) <= south <==> low <= (south + 1) as real + TOLERANCE
  {
  }

  lemma SouthAtLeast(high: real, south: int)
    requires -90.0 < high < 90.0
    ensures south <= SourceSouth(high) <==> high > south as real + TOLERANCE
  {
  }

  lemma ColumnsIff(low: real, high: real, w: int)
    ensures Floor(low) <= w <= Floor(high) <==> ColumnReaches(w, low, high)
  {
  }

  ghost predicate ReachedColumn(west: int, low: real, high: real) {
    exists unwrapped: int :: SameMeridian(unwrapped, west) && ColumnReaches(unwrapped, low, high)
  }

  lemma {:induction false} InListIff(box: Box, a: Address)
    requires -88.0 < box.south <= box.north < 88.0
    ensures InList(box, a)
            <==> && BandReaches(a.south, box.south - LATITUDE_MARGIN, box.north + LATITUDE_MARGIN)
                 && ReachedColumn(a.west, box.west - LONGITUDE_MARGIN, box.east + LONGITUDE_MARGIN)
  {
    SouthAtMost(box.south - LATITUDE_MARGIN, a.south);
    SouthAtLeast(box.north + LATITUDE_MARGIN, a.south);
    forall w ensures WrappedWest(w) == a.west <==> SameMeridian(w, a.west) {
      WrappedIff(w, a.west);
    }
    var low, high := box.west - LONGITUDE_MARGIN, box.east + LONGITUDE_MARGIN;
    forall w ensures WestmostCell(box) <= w <= EastmostCell(box) <==> ColumnReaches(w, low, high) {
      ColumnsIff(low, high, w);
    }
  }

  /** The box of a tile: where it is averaged, half a spacing to each side of it. */
  lemma {:induction false} TileBoxIs(latitudeAt: real -> real, tile: TileAddress, beyond: real, west: real, north: real, east: real, south: real)
    requires Projection(latitudeAt) && ValidTile(tile) && beyond == (if tile.zoom < 14 then 0.5 else 0.0)
    requires PlaceInTile(tile, -beyond, -beyond, west, north) && PlaceInTile(tile, 64.0 + beyond, 64.0 + beyond, east, south)
    ensures TileBox(latitudeAt, tile) == Box(west, east, latitudeAt(south), latitudeAt(north))
  {
    PlaceIs(tile, -beyond, -beyond, west, north);
    PlaceIs(tile, 64.0 + beyond, 64.0 + beyond, east, south);
    FractionMonotone(tile.zoom, tile.x, -0.5, 0.0);
    FractionMonotone(tile.zoom, tile.x, 64.0, 64.5);
    LatitudesOrdered(latitudeAt, tile, 64.0, 64.5);
    LatitudesOrdered(latitudeAt, tile, -0.5, 0.0);
  }

  /** The cells listed for a tile are those its box reaches, across the antimeridian too, and no others. */
  lemma {:induction false} TileListIff(latitudeAt: real -> real, tile: TileAddress, addresses: set<Address>, a: Address,
                                       beyond: real, west: real, north: real, east: real, south: real)
    requires Projection(latitudeAt) && ValidTile(tile) && ListIs(TileBox(latitudeAt, tile), addresses)
    requires beyond == (if tile.zoom < 14 then 0.5 else 0.0)
    requires PlaceInTile(tile, -beyond, -beyond, west, north) && PlaceInTile(tile, 64.0 + beyond, 64.0 + beyond, east, south)
    ensures a in addresses
            <==> && BandReaches(a.south, latitudeAt(south) - 1.0 / 3600.0, latitudeAt(north) + 1.0 / 3600.0)
                 && ReachedColumn(a.west, west - 1.0 / 360.0, east + 1.0 / 360.0)
  {
    TileBoxIs(latitudeAt, tile, beyond, west, north, east, south);
    BoxIsSpread(latitudeAt, tile);
    InListIff(TileBox(latitudeAt, tile), a);
  }

  // ---------------------------------------------------------------- grids

  /** The cell holds the coordinate, or lies by the margin east or south of it; the map ends at longitude 180. */
  predicate Reaches(a: Address, latitude: real, longitude: real) {
    && -180 <= a.west <= 179 && a.west as real - 1.0 / 360.0 <= longitude && (longitude < (a.west + 1) as real || a.west == 179)
    && a.south as real + 0.000000000001 < latitude <= (a.south + 1) as real + 1.0 / 3600.0
  }

  lemma {:induction false} ListedIff(a: Address, latitude: real, longitude: real)
    requires -85.0 <= latitude <= 85.0 && -180.0 <= longitude <= 180.0
    ensures a in Listed(latitude, longitude) <==> Reaches(a, latitude, longitude)
  {
    SouthAtMost(latitude, a.south);
    SouthAtLeast(latitude, a.south);
    SouthAtMost(latitude, a.south + 1);
    SouthAtLeast(latitude, a.south + 1);
  }

  ghost predicate SomeCentreReaches(r: GridRequest, a: Address) {
    exists row, column, latitude, longitude ::
      0 <= row < r.rows && 0 <= column < r.columns && Centre(r, row, column, latitude, longitude) && Reaches(a, latitude, longitude)
  }

  /** The cells listed for a grid are those that the centre of some grid cell reaches. */
  lemma {:induction false} GridListIff(r: GridRequest, addresses: set<Address>, a: Address)
    requires ValidRequest(r) && HoldsListed(r, r.rows, 0, addresses)
    ensures a in addresses <==> SomeCentreReaches(r, a)
  {
    if a in addresses {
      assert ListedBefore(r, r.rows, 0, a);
      var row, column :| 0 <= row < r.rows && 0 <= column < r.columns && a in Listed(CellLatitude(r, row), CellLongitude(r, column));
      GridCellInside(r, row, column);
      ListedIff(a, CellLatitude(r, row), CellLongitude(r, column));
      CentreIs(r, row, column, CellLatitude(r, row), CellLongitude(r, column));
    }
    if SomeCentreReaches(r, a) {
      var row, column, latitude, longitude :| 0 <= row < r.rows && 0 <= column < r.columns && Centre(r, row, column, latitude, longitude)
                                              && Reaches(a, latitude, longitude);
      CentreIs(r, row, column, latitude, longitude);
      GridCellInside(r, row, column);
      ListedIff(a, latitude, longitude);
      assert ListedBefore(r, r.rows, 0, a);
    }
  }
}
