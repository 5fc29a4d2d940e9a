/**
 * Sources whose cells have few columns near the poles only, as GLO-30 has: 600 or more below 85 degrees,
 * 360 or more above. What that means for the edges between tiles.
 */
module LatitudeBands {
  import opened AreaOverlap
  import opened AreaGrid
  import opened AreaCells
  import opened WideColumns
  import opened SourceCells
  import opened TileSamples
  import opened TilePrefetch
  import opened TileRange
  import AreaTheorems
  import Antimeridian
  import EastEdges

  const POLAR: int := 85

  /** GLO-30 rasters, with 600 columns or more in the cells below 85 degrees. */
  ghost predicate Glo30Bands(source: Source) {
    && Glo30(source, MIN_COLUMNS)
    && forall s, w :: source(s, w).Loaded? && -POLAR <= s < POLAR ==> USUAL_COLUMNS <= source(s, w).raster.width
  }

  /** The bands [from, to) of a source. */
  function Only(source: Source, from: int, to: int): Source {
    (s: int, w: int) => if from <= s < to then source(s, w) else Missing
  }

  lemma OnlyIsGlo30(source: Source, least: nat, from: int, to: int)
    requires Glo30(source, MIN_COLUMNS) && least > 0
    requires forall s, w :: from <= s < to && source(s, w).Loaded? ==> least <= source(s, w).raster.width
    ensures Glo30(Only(source, from, to), least)
  {
    var only := Only(source, from, to);
    forall s, w ensures only(s, w) == if from <= s < to then source(s, w) else Missing {
    }
  }

  /** All cells listed for the tile lie in these bands. */
  predicate TileWithin(latitudeAt: real -> real, tile: TileAddress, from: int, to: int) {
    from <= SouthmostCell(TileBox(latitudeAt, tile)) && NorthmostCell(TileBox(latitudeAt, tile)) < to
  }

  function ListOf(box: Box): set<Address> {
    set s, w | SouthmostCell(box) <= s <= NorthmostCell(box) && WestmostCell(box) <= w <= EastmostCell(box) :: Address(s, WrappedWest(w))
  }

  lemma ListOfIs(box: Box)
    ensures ListIs(box, ListOf(box))
  {
    forall a ensures a in ListOf(box) <==> InList(box, a) {
      if InList(box, a) {
        var w :| WestmostCell(box) <= w <= EastmostCell(box) && WrappedWest(w) == a.west;
        assert a == Address(a.south, WrappedWest(w));
      }
    }
  }

  /** The other bands do not matter to the tile. */
  lemma {:induction false} OtherBandsDoNotMatter(source: Source, latitudeAt: real -> real, tile: TileAddress, from: int, to: int, row: int, column: int)
    requires Projection(latitudeAt) && ValidTile(tile) && 0 <= row <= CELL_COUNT && 0 <= column <= CELL_COUNT
    requires Glo30(source, MIN_COLUMNS) && ValidSource(Only(source, from, to)) && TileWithin(latitudeAt, tile, from, to)
    ensures TileSample(source, latitudeAt, tile, row, column) == TileSample(Only(source, from, to), latitudeAt, tile, row, column)
  {
    var box := TileBox(latitudeAt, tile);
    ListOfIs(box);
    TileNeedsOnlyListedCells(source, Only(source, from, to), latitudeAt, tile, ListOf(box), row, column);
  }

  lemma BandsIsGlo30(source: Source)
    requires Glo30Bands(source)
    ensures Glo30(Only(source, -POLAR, POLAR), USUAL_COLUMNS)
  {
    OnlyIsGlo30(source, USUAL_COLUMNS, -POLAR, POLAR);
  }

  // ---------------------------------------------------------------- the area average

  /** For a window below 85 degrees no cell outside the candidate loops contributes. */
  lemma {:induction false} NoOtherCellContributes(source: Source, lon: seq<real>, lat: seq<real>, i: int, j: int, mass: bool, w0: int, w1: int)
    requires Glo30Bands(source) && |lon| >= 1 && Ascending(lon) && |lat| >= 1 && Descending(lat)
    requires -POLAR <= FirstSouth(lat) && LastSouth(lat) < POLAR && w0 <= FirstWest(lon) && LastWest(lon) < w1
    ensures Suffices(source, lon, lat, i, j, mass, w0, w1)
  {
    var only := Only(source, -POLAR, POLAR);
    BandsIsGlo30(source);
    AreaTheorems.NoOtherBandContributes(source, MIN_COLUMNS, lon, lat, i, j, mass, w0, w1);
    AreaTheorems.NoOtherBandContributes(only, USUAL_COLUMNS, lon, lat, i, j, mass, w0, w1);
    AreaTheorems.NoOtherCellContributes(only, lon, lat, i, j, mass, w0, w1);
    PlainSumDepends(source, only, lon, lat, i, j, mass, FirstSouth(lat), EndSouth(lat), w0, w1);
    PlainSumDepends(source, only, lon, lat, i, j, mass, FirstSouth(lat), EndSouth(lat), FirstWest(lon), LastWest(lon) + 1);
  }

  // ---------------------------------------------------------------- east edges

  predicate Below(latitudeAt: real -> real, tile: TileAddress) {
    TileWithin(latitudeAt, tile, -POLAR, POLAR)
  }

  predicate Polar(latitudeAt: real -> real, tile: TileAddress) {
    TileWithin(latitudeAt, tile, POLAR, 90) || TileWithin(latitudeAt, tile, -90, -POLAR)
  }

  /** Tiles of one row reach over the same bands. */
  lemma SameRowSameBands(latitudeAt: real -> real, tile: TileAddress, next: TileAddress, from: int, to: int)
    requires next.zoom == tile.zoom && next.y == tile.y
    ensures TileWithin(latitudeAt, next, from, to) == TileWithin(latitudeAt, tile, from, to)
  {
  }

  lemma {:induction false} NeighboursKeepBands(source: Source, latitudeAt: real -> real, tile: TileAddress, from: int, to: int, row: int)
    requires Projection(latitudeAt) && ValidTile(tile) && tile.x + 1 < TileCount(tile.zoom) && 0 <= row < GRID_SIZE
    requires Glo30(source, MIN_COLUMNS) && ValidSource(Only(source, from, to)) && TileWithin(latitudeAt, tile, from, to)
    ensures EastEdges.AgreesFor(source, latitudeAt, tile, row) == EastEdges.AgreesFor(Only(source, from, to), latitudeAt, tile, row)
  {
    var next := EastEdges.EastOf(tile);
    SameRowSameBands(latitudeAt, tile, next, from, to);
    OtherBandsDoNotMatter(source, latitudeAt, tile, from, to, row, CELL_COUNT);
    OtherBandsDoNotMatter(source, latitudeAt, next, from, to, row, 0);
  }

  ghost predicate EastEdgeAgrees(latitudeAt: real -> real, tile: TileAddress, row: int) {
    forall source: Source :: Glo30Bands(source) ==> EastEdges.AgreesFor(source, latitudeAt, tile, row)
  }

  /** Below 85 degrees every tile agrees with its east neighbour. */
  lemma {:induction false} EastNeighbourAgrees(source: Source, latitudeAt: real -> real, tile: TileAddress, row: int)
    requires Projection(latitudeAt) && ValidTile(tile) && tile.x + 1 < TileCount(tile.zoom) && 0 <= row < GRID_SIZE
    requires Glo30Bands(source) && Below(latitudeAt, tile)
    ensures EastEdges.AgreesFor(source, latitudeAt, tile, row)
  {
    BandsIsGlo30(source);
    NeighboursKeepBands(source, latitudeAt, tile, -POLAR, POLAR, row);
    EastEdges.EastNeighbourAgrees(Only(source, -POLAR, POLAR), latitudeAt, tile, row);
  }

  /** A source of narrow cells in one polar cap alone. */
  lemma CapIsBands(source: Source, from: int, to: int)
    requires Glo30(source, MIN_COLUMNS) && (from >= POLAR || to <= -POLAR)
    ensures Glo30Bands(Only(source, from, to))
  {
    OnlyIsGlo30(source, MIN_COLUMNS, from, to);
  }

  /** In a polar cap a tile with a gap disagrees with its neighbour for one of them. */
  lemma {:induction false} GapDisagrees(latitudeAt: real -> real, tile: TileAddress, from: int, to: int, row: int) returns (source: Source)
    requires Projection(latitudeAt) && ValidTile(tile) && tile.x + 1 < TileCount(tile.zoom) && 0 <= row < GRID_SIZE
    requires EastEdges.Gap(tile, MIN_COLUMNS) && TileWithin(latitudeAt, tile, from, to) && (from >= POLAR || to <= -POLAR)
    ensures Glo30Bands(source) && !EastEdges.AgreesFor(source, latitudeAt, tile, row)
  {
    var everywhere := EastEdges.GapDisagrees(MIN_COLUMNS, latitudeAt, tile, row);
    source := Only(everywhere, from, to);
    CapIsBands(everywhere, from, to);
    NeighboursKeepBands(everywhere, latitudeAt, tile, from, to, row);
  }

  /** For GLO-30 sources a tile agrees with its east neighbour if and only if it lies below 85 degrees or has no gap. */
  lemma {:induction false} EastEdgeAgreesIff(latitudeAt: real -> real, tile: TileAddress, row: int)
    requires Projection(latitudeAt) && ValidTile(tile) && tile.x + 1 < TileCount(tile.zoom) && 0 <= row < GRID_SIZE
    requires Below(latitudeAt, tile) || Polar(latitudeAt, tile)
    ensures EastEdgeAgrees(latitudeAt, tile, row) <==> Below(latitudeAt, tile) || !EastEdges.Gap(tile, MIN_COLUMNS)
  {
    if Below(latitudeAt, tile) {
      forall source: Source | Glo30Bands(source) ensures EastEdges.AgreesFor(source, latitudeAt, tile, row) {
        EastNeighbourAgrees(source, latitudeAt, tile, row);
      }
    } else if EastEdges.Gap(tile, MIN_COLUMNS) {
      var north := TileWithin(latitudeAt, tile, POLAR, 90);
      var source := GapDisagrees(latitudeAt, tile, if north then POLAR else -90, if north then 90 else -POLAR, row);
    } else {
      forall source: Source | Glo30Bands(source) ensures EastEdges.AgreesFor(source, latitudeAt, tile, row) {
        EastEdges.NoGapNeighboursAgree(MIN_COLUMNS, source, latitudeAt, tile, row);
      }
    }
  }

  // ---------------------------------------------------------------- the antimeridian

  ghost predicate AntimeridianAgrees(latitudeAt: real -> real, zoom: nat, y: int, row: int) {
    forall source: Source :: Glo30Bands(source) ==> Antimeridian.AgreesFor(source, latitudeAt, zoom, y, row)
  }

  lemma {:induction false} AntimeridianKeepsBands(source: Source, latitudeAt: real -> real, zoom: nat, y: int, row: int, from: int, to: int)
    requires Projection(latitudeAt) && ValidTile(Antimeridian.Westernmost(zoom, y)) && 0 <= row < GRID_SIZE
    requires Glo30(source, MIN_COLUMNS) && ValidSource(Only(source, from, to))
    requires TileWithin(latitudeAt, Antimeridian.Westernmost(zoom, y), from, to)
    ensures Antimeridian.AgreesFor(source, latitudeAt, zoom, y, row)
            == Antimeridian.AgreesFor(Only(source, from, to), latitudeAt, zoom, y, row)
  {
    var east, west := Antimeridian.Easternmost(zoom, y), Antimeridian.Westernmost(zoom, y);
    SameRowSameBands(latitudeAt, west, east, from, to);
    OtherBandsDoNotMatter(source, latitudeAt, east, from, to, row, CELL_COUNT);
    OtherBandsDoNotMatter(source, latitudeAt, west, from, to, row, 0);
  }

  /** Below 85 degrees the sides of the antimeridian agree at the zooms up to 11 whose boxes are a source pixel high, and only there. */
  lemma {:induction false} AntimeridianAgreesIff(latitudeAt: real -> real, zoom: nat, y: int, row: int)
    requires Projection(latitudeAt) && ValidTile(Antimeridian.Westernmost(zoom, y)) && 0 <= row < GRID_SIZE
    requires Below(latitudeAt, Antimeridian.Westernmost(zoom, y))
    ensures AntimeridianAgrees(latitudeAt, zoom, y, row)
            <==> zoom <= 11 && Antimeridian.BoxHeight(latitudeAt, Antimeridian.Westernmost(zoom, y), row) >= 1.0 / 3600.0
  {
    var least: nat := USUAL_COLUMNS;
    Antimeridian.WideEnoughIff(least, zoom, y);
    if zoom < NATIVE_ZOOM {
      EastEdges.CountOf(zoom);
    }
    if Antimeridian.AlwaysAveraged(least, latitudeAt, zoom, y, row) {
      forall source: Source | Glo30Bands(source) ensures Antimeridian.AgreesFor(source, latitudeAt, zoom, y, row) {
        BandsIsGlo30(source);
        AntimeridianKeepsBands(source, latitudeAt, zoom, y, row, -POLAR, POLAR);
        Antimeridian.AveragedEdgesAgree(least, Only(source, -POLAR, POLAR), latitudeAt, zoom, y, row);
      }
    } else {
      Antimeridian.SteppedDisagrees(least, latitudeAt, zoom, y, row);
      assert Glo30Bands(Antimeridian.Stepped(least));
    }
  }
}
