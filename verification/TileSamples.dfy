/**
 * The samples of a normalized terrain tile (src/lib/copernicus_terrain_provider.cpp): where they lie,
 * the box each one stands for, and the choice between box average and point sample.
 */
module TileSamples {
  import opened Wrappers
  import opened TileRange
  import opened AreaOverlap
  import opened AreaGrid
  import opened AreaCells
  import opened SourceCells
  import opened PointSample

  const CELL_COUNT: int := 64
  const GRID_SIZE: int := 65
  const MINIMUM_ZOOM: int := 8
  const NATIVE_ZOOM: int := 14

  datatype TileAddress = TileAddress(zoom: nat, x: int, y: int)

  predicate ValidTile(tile: TileAddress) {
    MINIMUM_ZOOM <= tile.zoom <= NATIVE_ZOOM && 0 <= tile.x < TileCount(tile.zoom) && 0 <= tile.y < TileCount(tile.zoom)
  }

  /**
   * Latitude in degrees of a fraction of the map's height, from the north edge down: atan(sinh(.)) of
   * the Mercator coordinate. All that is used is that it falls strictly and stays off the poles.
   */
  ghost predicate Projection(latitudeAt: real -> real) {
    && (forall s, t :: -0.01 <= s < t <= 1.01 ==> latitudeAt(s) > latitudeAt(t))
    && (forall t :: -0.01 <= t <= 1.01 ==> -88.0 < latitudeAt(t) < 88.0)
  }

  /** A place `offset` samples past the start of tile i, as a fraction of the map. */
  function Fraction(zoom: nat, i: int, offset: real): real {
    (i as real + offset / CELL_COUNT as real) / TileCount(zoom) as real
  }

  function LongitudeAt(fraction: real): real {
    fraction * 360.0 - 180.0
  }

  function SampleLongitude(tile: TileAddress, column: int): real {
    LongitudeAt(Fraction(tile.zoom, tile.x, column as real))
  }

  function SampleLatitude(latitudeAt: real -> real, tile: TileAddress, row: int): real {
    latitudeAt(Fraction(tile.zoom, tile.y, row as real))
  }

  /** Box edges lie half a sample spacing before each sample. */
  function EdgeLongitude(tile: TileAddress, edge: int): real {
    LongitudeAt(Fraction(tile.zoom, tile.x, edge as real - 0.5))
  }

  function EdgeLatitude(latitudeAt: real -> real, tile: TileAddress, edge: int): real {
    latitudeAt(Fraction(tile.zoom, tile.y, edge as real - 0.5))
  }

  function LongitudeEdges(tile: TileAddress): seq<real> {
    seq(GRID_SIZE + 1, edge => EdgeLongitude(tile, edge))
  }

  function LatitudeEdges(latitudeAt: real -> real, tile: TileAddress): seq<real> {
    seq(GRID_SIZE + 1, edge => EdgeLatitude(latitudeAt, tile, edge))
  }

  predicate UsesAreaAverage(tile: TileAddress) {
    tile.zoom < NATIVE_ZOOM
  }

  /** Whether a box of this size covers a source pixel at the coordinate, or there is no source there. */
  predicate BoxCoversPixel(source: Source, latitude: real, longitude: real, width: real, height: real)
    requires ValidSource(source)
  {
    match RasterAt(source, CellOf(latitude, longitude))
    case None => true
    case Some(raster) => width >= 1.0 / raster.width as real && height >= 1.0 / raster.height as real
  }

  /** The sum or the weight that accumulateAreaAverages leaves in the box of a sample. */
  ghost function BoxSum(source: Source, latitudeAt: real -> real, tile: TileAddress, row: int, column: int, mass: bool): real
    requires ValidSource(source)
  {
    var lon, lat := LongitudeEdges(tile), LatitudeEdges(latitudeAt, tile);
    PlainSum(source, lon, lat, row, column, mass, FirstSouth(lat), EndSouth(lat), FirstWest(lon), LastWest(lon) + 1)
  }

  ghost function TileSample(source: Source, latitudeAt: real -> real, tile: TileAddress, row: int, column: int): Option<real>
    requires ValidSource(source)
  {
    var latitude, longitude := SampleLatitude(latitudeAt, tile, row), SampleLongitude(tile, column);
    var width := EdgeLongitude(tile, column + 1) - EdgeLongitude(tile, column);
    var height := EdgeLatitude(latitudeAt, tile, row) - EdgeLatitude(latitudeAt, tile, row + 1);
    if !UsesAreaAverage(tile) || !BoxCoversPixel(source, latitude, longitude, width, height) then Bilinear(source, latitude, longitude)
    else
      var weight := BoxSum(source, latitudeAt, tile, row, column, true);
      if weight > 0.0 then Some(BoxSum(source, latitudeAt, tile, row, column, false) / weight) else None
  }

  // ---------------------------------------------------------------- where samples and edges lie

  lemma TileCountGrows(zoom: nat)
    requires zoom >= MINIMUM_ZOOM
    ensures TileCount(zoom) >= 256
  {
    if zoom > MINIMUM_ZOOM {
      TileCountGrows(zoom - 1);
    } else {
      assert TileCount(3) == 8 && TileCount(5) == 32 && TileCount(7) == 128;
    }
  }

  lemma StrictQuotient(p: real, q: real, n: real)
    requires p < q && n > 0.0
    ensures p / n < q / n
  {
    var a, b := p / n, q / n;
    assert a * n == p && b * n == q;
    PositiveProduct(a - b, n);
    assert (a - b) * n == p - q;
    assert a != b;
  }

  lemma FractionMonotone(zoom: nat, i: int, a: real, b: real)
    ensures a < b ==> Fraction(zoom, i, a) < Fraction(zoom, i, b)
  {
    if a < b {
      StrictQuotient(i as real + a / CELL_COUNT as real, i as real + b / CELL_COUNT as real, TileCount(zoom) as real);
    }
  }

  /** Every sample and box edge of a tile lies on the map, or less than a hundredth of it outside. */
  lemma {:induction false} FractionInside(tile: TileAddress, i: int, offset: real)
    requires ValidTile(tile) && 0 <= i < TileCount(tile.zoom) && -0.5 <= offset <= 64.5
    ensures -0.01 <= Fraction(tile.zoom, i, offset) <= 1.01
    ensures 0.0 <= offset <= 64.0 ==> 0.0 <= Fraction(tile.zoom, i, offset) <= 1.0
  {
    TileCountGrows(tile.zoom);
    FractionBounds(i as real + offset / CELL_COUNT as real, TileCount(tile.zoom) as real);
  }

  lemma FractionBounds(p: real, n: real)
    requires n >= 256.0 && -0.5 / 64.0 <= p <= n + 0.5 / 64.0
    ensures -0.01 <= p / n <= 1.01
    ensures 0.0 <= p <= n ==> 0.0 <= p / n <= 1.0
  {
    var q := p / n;
    assert q * n == p;
    Cancel(-0.01, q, n);
    Cancel(q, 1.01, n);
    if 0.0 <= p <= n {
      Cancel(0.0, q, n);
      Cancel(q, 1.0, n);
    }
  }

  lemma {:induction false} EdgesAreSorted(latitudeAt: real -> real, tile: TileAddress)
    requires Projection(latitudeAt) && ValidTile(tile)
    ensures Ascending(LongitudeEdges(tile)) && Descending(LatitudeEdges(latitudeAt, tile))
  {
    var lon, lat := LongitudeEdges(tile), LatitudeEdges(latitudeAt, tile);
    forall a, b | 0 <= a <= b < GRID_SIZE + 1 ensures lon[a] <= lon[b] && lat[a] >= lat[b] {
      if a < b {
        FractionMonotone(tile.zoom, tile.x, a as real - 0.5, b as real - 0.5);
        FractionMonotone(tile.zoom, tile.y, a as real - 0.5, b as real - 0.5);
        FractionInside(tile, tile.y, a as real - 0.5);
        FractionInside(tile, tile.y, b as real - 0.5);
      }
    }
  }
}
