/**
 * Tiles made from the source meet at their edges, and so do the elevations served from their files; and
 * where in a tile a coordinate is looked up.
 */
module TileSeams {
  import opened Wrappers
  import opened AreaGrid
  import Tiles = TileSamples
  import opened TileFetch
  import SharedEdges
  import EastEdges
  import LatitudeBands
  import TileRange
  import opened TerrainTileCodec
  import opened TerrainTileFile
  import opened TerrainTileRoundTrip
  import opened ElevationSampling

  function AsFloat(f: Float32, sample: Option<real>): Number {
    if sample.None? then NaN else Finite(f.round(sample.value))
  }

  /** The samples of a tile in file order, each narrowed to a float. */
  ghost function GridOf(f: Float32, source: Source, latitudeAt: real -> real, tile: Tiles.TileAddress): (grid: seq<Number>)
    requires ValidSource(source)
    ensures |grid| == SAMPLES
  {
    seq(SAMPLES, i requires 0 <= i < SAMPLES => AsFloat(f, AllSamples(source, latitudeAt, tile)[i]))
  }

  lemma GridAt(f: Float32, source: Source, latitudeAt: real -> real, tile: Tiles.TileAddress, row: int, column: int)
    requires ValidSource(source) && 0 <= row < GRID && 0 <= column < GRID
    ensures At(GridOf(f, source, latitudeAt, tile), row * GRID + column) == AsFloat(f, Tiles.TileSample(source, latitudeAt, tile, row, column))
  {
    var i := row * GRID + column;
    assert i / GRID == row && i % GRID == column;
  }

  function NeighbourOf(side: Side, tile: Tiles.TileAddress): Tiles.TileAddress {
    if side.East? then tile.(x := tile.x + 1) else tile.(y := tile.y + 1)
  }

  /** No cell is left out of the tile's east edge; the other edges are never short. */
  ghost predicate Meets(side: Side, source: Source, least: nat, latitudeAt: real -> real, tile: Tiles.TileAddress)
    requires least > 0
  {
    side.East? ==> !EastEdges.Gap(tile, least) || (LatitudeBands.Glo30Bands(source) && LatitudeBands.Below(latitudeAt, tile))
  }

  lemma {:induction false} EastSamples(f: Float32, source: Source, least: nat, latitudeAt: real -> real, tile: Tiles.TileAddress, next: Tiles.TileAddress, n: int)
    requires Tiles.Projection(latitudeAt) && Tiles.ValidTile(tile) && Tiles.ValidTile(next) && next == NeighbourOf(East, tile)
    requires least >= MIN_COLUMNS && Glo30(source, least) && Meets(East, source, least, latitudeAt, tile) && 0 <= n < GRID
    ensures At(GridOf(f, source, latitudeAt, tile), OwnSample(East, n)) == At(GridOf(f, source, latitudeAt, next), NeighbourSample(East, n))
  {
    GridAt(f, source, latitudeAt, tile, n, CELLS);
    GridAt(f, source, latitudeAt, next, n, 0);
    if EastEdges.Gap(tile, least) {
      LatitudeBands.EastNeighbourAgrees(source, latitudeAt, tile, n);
    } else {
      EastEdges.NoGapNeighboursAgree(least, source, latitudeAt, tile, n);
    }
  }

  lemma {:induction false} SouthSamples(f: Float32, source: Source, least: nat, latitudeAt: real -> real, tile: Tiles.TileAddress, next: Tiles.TileAddress, n: int)
    requires Tiles.Projection(latitudeAt) && Tiles.ValidTile(tile) && Tiles.ValidTile(next) && next == NeighbourOf(South, tile)
    requires Glo30(source, least) && 0 <= n < GRID
    ensures At(GridOf(f, source, latitudeAt, tile), OwnSample(South, n)) == At(GridOf(f, source, latitudeAt, next), NeighbourSample(South, n))
  {
    GridAt(f, source, latitudeAt, tile, CELLS, n);
    GridAt(f, source, latitudeAt, next, 0, n);
    SharedEdges.SouthNeighbourAgrees(source, least, latitudeAt, tile, n);
  }

  /** Neighbours made from the same source hold the same samples along the edge they share, where no cell is left out. */
  lemma {:induction false} NeighboursShareEdgeIf(f: Float32, source: Source, least: nat, latitudeAt: real -> real, side: Side,
                                                 tile: Tiles.TileAddress, next: Tiles.TileAddress)
    requires Tiles.Projection(latitudeAt) && Tiles.ValidTile(tile) && Tiles.ValidTile(next) && next == NeighbourOf(side, tile)
    requires least >= MIN_COLUMNS && Glo30(source, least) && Meets(side, source, least, latitudeAt, tile)
    ensures ShareEdge(side, GridOf(f, source, latitudeAt, tile), GridOf(f, source, latitudeAt, next))
  {
    var own, neighbour := GridOf(f, source, latitudeAt, tile), GridOf(f, source, latitudeAt, next);
    forall n | 0 <= n < GRID ensures At(own, OwnSample(side, n)) == At(neighbour, NeighbourSample(side, n)) {
      if side.East? {
        EastSamples(f, source, least, latitudeAt, tile, next, n);
      } else {
        SouthSamples(f, source, least, latitudeAt, tile, next, n);
      }
    }
  }

  /** End to end: the two files of neighbouring tiles serve elevations no further apart than the two tiles can lose. */
  lemma {:induction false} ServedElevationsMeetIf(f: Float32, source: Source, least: nat, latitudeAt: real -> real, side: Side,
                                                  tile: Tiles.TileAddress, own: Tile, neighbour: Tile, along: real)
    requires Ieee(f) && Tiles.Projection(latitudeAt) && Tiles.ValidTile(tile) && Tiles.ValidTile(NeighbourOf(side, tile))
    requires least >= MIN_COLUMNS && Glo30(source, least) && Meets(side, source, least, latitudeAt, tile)
    requires TilesOf(f, source, latitudeAt, side, tile, own, neighbour) && 0.0 <= along <= CELLS as real
    ensures Decoded(f, Encoded(f, own)).Some? && Decoded(f, Encoded(f, neighbour)).Some?
    ensures ServedClose(f, side, own, neighbour, along)
  {
    NeighboursShareEdgeIf(f, source, least, latitudeAt, side, tile, NeighbourOf(side, tile));
    ReadOfWritten(f, own);
    ReadOfWritten(f, neighbour);
    SeamIsClose(f, side, own, neighbour, along);
  }

  /** The tiles written for a tile and its neighbour. */
  ghost predicate TilesOf(f: Float32, source: Source, latitudeAt: real -> real, side: Side, tile: Tiles.TileAddress, own: Tile, neighbour: Tile)
    requires ValidSource(source)
  {
    && ValidTile(f, own) && own.elevations == GridOf(f, source, latitudeAt, tile) && FloatSamples(f, own.elevations)
    && ValidTile(f, neighbour) && neighbour.elevations == GridOf(f, source, latitudeAt, NeighbourOf(side, tile))
    && FloatSamples(f, neighbour.elevations)
  }

  /** At a place along the shared edge the two files read back give elevations as close as the losses of both tiles. */
  ghost predicate ServedClose(f: Float32, side: Side, own: Tile, neighbour: Tile, along: real)
    requires Ieee(f) && ValidTile(f, own) && ValidTile(f, neighbour) && 0.0 <= along <= CELLS as real
    requires Decoded(f, Encoded(f, own)).Some? && Decoded(f, Encoded(f, neighbour)).Some?
  {
    var p, q := OwnPlace(side, along), NeighbourPlace(side, along);
    CloseOptions(Interpolated(Decoded(f, Encoded(f, own)).value.elevations, p.column, p.row),
                 Interpolated(Decoded(f, Encoded(f, neighbour)).value.elevations, q.column, q.row),
                 LossOf(f, own) + LossOf(f, neighbour))
  }

  lemma UsualColumnsMeet(side: Side, source: Source, least: nat, latitudeAt: real -> real, tile: Tiles.TileAddress)
    requires least >= USUAL_COLUMNS
    ensures Meets(side, source, least, latitudeAt, tile)
  {
    EastEdges.UsualColumnsLeaveNoGap(least, tile);
  }

  /** With 600 columns or more all neighbours hold the same samples along the edge they share. */
  lemma {:induction false} NeighboursShareEdge(f: Float32, source: Source, latitudeAt: real -> real, side: Side, tile: Tiles.TileAddress,
                                               next: Tiles.TileAddress)
    requires Tiles.Projection(latitudeAt) && Tiles.ValidTile(tile) && Tiles.ValidTile(next) && next == NeighbourOf(side, tile)
    requires Glo30(source, USUAL_COLUMNS)
    ensures ShareEdge(side, GridOf(f, source, latitudeAt, tile), GridOf(f, source, latitudeAt, next))
  {
    UsualColumnsMeet(side, source, USUAL_COLUMNS, latitudeAt, tile);
    NeighboursShareEdgeIf(f, source, USUAL_COLUMNS, latitudeAt, side, tile, next);
  }

  /** And what their files serve meets along every edge. */
  lemma {:induction false} ServedElevationsMeet(f: Float32, source: Source, latitudeAt: real -> real, side: Side, tile: Tiles.TileAddress,
                                                own: Tile, neighbour: Tile, along: real)
    requires Ieee(f) && Tiles.Projection(latitudeAt) && Tiles.ValidTile(tile) && Tiles.ValidTile(NeighbourOf(side, tile))
    requires Glo30(source, USUAL_COLUMNS)
    requires TilesOf(f, source, latitudeAt, side, tile, own, neighbour) && 0.0 <= along <= CELLS as real
    ensures Decoded(f, Encoded(f, own)).Some? && Decoded(f, Encoded(f, neighbour)).Some?
    ensures ServedClose(f, side, own, neighbour, along)
  {
    UsualColumnsMeet(side, source, USUAL_COLUMNS, latitudeAt, tile);
    ServedElevationsMeetIf(f, source, USUAL_COLUMNS, latitudeAt, side, tile, own, neighbour, along);
  }

  // ---------------------------------------------------------------- where a coordinate lies

  const MAXIMUM_LATITUDE: real := 85.0511287798066

  /** asinh(tan(.)), as a place on the map from the north edge: the inverse of the projection on the map's latitudes. */
  ghost predicate Inverts(latitudeAt: real -> real, placeOf: real -> real) {
    forall latitude :: latitudeAt(1.0) <= latitude <= latitudeAt(0.0) ==>
      0.0 <= placeOf(latitude) <= 1.0 && latitudeAt(placeOf(latitude)) == latitude
  }

  datatype GridPosition = GridPosition(zoom: nat, x: int, y: int, column: real, row: real)

  function PositionOf(placeOf: real -> real, latitude: real, longitude: real, zoom: nat): Option<GridPosition> {
    if zoom > MAX_ZOOM || latitude < -MAXIMUM_LATITUDE || latitude > MAXIMUM_LATITUDE then None
    else
      var across, down := PositionAlong((longitude + 180.0) / 360.0, zoom), PositionAlong(placeOf(latitude), zoom);
      Some(GridPosition(zoom, across.index, down.index, across.place, down.place))
  }

  lemma {:induction false} PlaceIsExact(share: real, zoom: nat)
    requires 0.0 <= share <= 1.0
    ensures Tiles.Fraction(zoom, PositionAlong(share, zoom).index, PositionAlong(share, zoom).place) == share
  {
    PositionIsExact(share, zoom);
    var p, n := PositionAlong(share, zoom), TileRange.TileCount(zoom) as real;
    Unscale(share, n, p.index as real + p.place / CELLS as real);
  }

  lemma Unscale(share: real, n: real, scaled: real)
    requires n > 0.0 && scaled == Times(share, n)
    ensures scaled / n == share
  {
    var q := scaled / n;
    assert q * n == share * n;
    Cancel(q, share, n);
    Cancel(share, q, n);
  }

  /**
   * Every coordinate of the map has a tile at every zoom, and its place in the tile is exactly where the
   * samples of the tile say it is.
   */
  lemma {:induction false} PositionIsTheCoordinate(latitudeAt: real -> real, placeOf: real -> real, latitude: real, longitude: real, zoom: nat)
    requires Inverts(latitudeAt, placeOf) && latitudeAt(1.0) <= latitude <= latitudeAt(0.0)
    requires -MAXIMUM_LATITUDE <= latitude <= MAXIMUM_LATITUDE && -180.0 <= longitude <= 180.0 && zoom <= MAX_ZOOM
    ensures var p := PositionOf(placeOf, latitude, longitude, zoom);
      && p.Some? && ValidAddress(p.value.zoom, p.value.x, p.value.y)
      && 0.0 <= p.value.column <= CELLS as real && 0.0 <= p.value.row <= CELLS as real
      && Tiles.LongitudeAt(Tiles.Fraction(zoom, p.value.x, p.value.column)) == longitude
      && latitudeAt(Tiles.Fraction(zoom, p.value.y, p.value.row)) == latitude
  {
    var share := (longitude + 180.0) / 360.0;
    assert 0.0 <= share <= 1.0 && Tiles.LongitudeAt(share) == longitude;
    PositionIsExact(share, zoom);
    PositionIsExact(placeOf(latitude), zoom);
    PlaceIsExact(share, zoom);
    PlaceIsExact(placeOf(latitude), zoom);
  }
}
