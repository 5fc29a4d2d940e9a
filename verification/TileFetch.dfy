/**
 * fetchTile of src/lib/copernicus_terrain_provider.cpp: the samples of a normalized tile, or the failure
 * that a source ends the request with. Both are determined by the cells listed beforehand.
 */
module TileFetch {
  import opened Wrappers
  import opened AreaAccumulate
  import opened AreaGrid
  import opened AreaCells
  import opened SourceCells
  import opened PointSample
  import opened TileSamples
  import opened TilePrefetch

  // ---------------------------------------------------------------- the specification

  /** Boxes smaller than a source pixel are point-sampled, and so is all of the native zoom. */
  predicate PointSampled(source: Source, latitudeAt: real -> real, tile: TileAddress, row: int, column: int)
    requires ValidSource(source)
  {
    !UsesAreaAverage(tile)
    || !BoxCoversPixel(source, SampleLatitude(latitudeAt, tile, row), SampleLongitude(tile, column),
                       EdgeLongitude(tile, column + 1) - EdgeLongitude(tile, column),
                       EdgeLatitude(latitudeAt, tile, row) - EdgeLatitude(latitudeAt, tile, row + 1))
  }

  /** Filling in this sample ends the request: the cell it lies in cannot be used, or the point sampler fails. */
  predicate SampleFails(source: Source, latitudeAt: real -> real, tile: TileAddress, row: int, column: int)
    requires ValidSource(source)
  {
    var latitude, longitude := SampleLatitude(latitudeAt, tile, row), SampleLongitude(tile, column);
    var base := CellOf(latitude, longitude);
    || source(base.south, base.west).Broken?
    || (PointSampled(source, latitudeAt, tile, row, column) && BilinearFails(source, latitude, longitude))
  }

  /** Some candidate cell of the average cannot be used, or some sample fails. */
  ghost predicate TileFails(source: Source, latitudeAt: real -> real, tile: TileAddress)
    requires ValidSource(source)
  {
    || (UsesAreaAverage(tile) && !AllUsable(source, LongitudeEdges(tile), LatitudeEdges(latitudeAt, tile)))
    || exists row, column :: 0 <= row < GRID_SIZE && 0 <= column < GRID_SIZE && SampleFails(source, latitudeAt, tile, row, column)
  }

  ghost function AllSamples(source: Source, latitudeAt: real -> real, tile: TileAddress): (samples: seq<Option<real>>)
    requires ValidSource(source)
    ensures |samples| == GRID_SIZE * GRID_SIZE
  {
    seq(GRID_SIZE * GRID_SIZE, i requires 0 <= i < GRID_SIZE * GRID_SIZE =>
      TileSample(source, latitudeAt, tile, i / GRID_SIZE, i % GRID_SIZE))
  }

  ghost function Fetched(source: Source, latitudeAt: real -> real, tile: TileAddress): Fetch
    requires ValidSource(source)
  {
    if TileFails(source, latitudeAt, tile) then SourceFailed else FetchOf(AllSamples(source, latitudeAt, tile))
  }

  // ---------------------------------------------------------------- the loops

  /** The sum or the weight of every box of the tile. */
  ghost predicate HoldsBoxes(result: seq<real>, source: Source, latitudeAt: real -> real, tile: TileAddress, mass: bool)
    requires ValidSource(source)
  {
    var lon, lat := LongitudeEdges(tile), LatitudeEdges(latitudeAt, tile);
    HoldsPlainSums(result, source, lon, lat, mass, FirstSouth(lat), EndSouth(lat), FirstWest(lon), LastWest(lon) + 1)
  }

  lemma {:induction false} BoxAt(result: seq<real>, source: Source, latitudeAt: real -> real, tile: TileAddress, mass: bool, row: int, column: int)
    requires ValidSource(source) && HoldsBoxes(result, source, latitudeAt, tile, mass)
    requires 0 <= row < GRID_SIZE && 0 <= column < GRID_SIZE
    ensures 0 <= Cell(row, column, GRID_SIZE) < |result|
    ensures result[Cell(row, column, GRID_SIZE)] == BoxSum(source, latitudeAt, tile, row, column, mass)
  {
    var lon, lat := LongitudeEdges(tile), LatitudeEdges(latitudeAt, tile);
    BoxOf(result, source, lon, lat, mass, FirstSouth(lat), EndSouth(lat), FirstWest(lon), LastWest(lon) + 1, row, column, GRID_SIZE);
  }

  lemma BoxOf(result: seq<real>, source: Source, lon: seq<real>, lat: seq<real>, mass: bool, s0: int, s1: int, w0: int, w1: int,
              row: int, column: int, columns: int)
    requires ValidSource(source) && HoldsPlainSums(result, source, lon, lat, mass, s0, s1, w0, w1)
    requires 0 <= row < |lat| - 1 && 0 <= column < columns == |lon| - 1
    ensures 0 <= Cell(row, column, columns) < |result|
    ensures result[Cell(row, column, columns)] == PlainSum(source, lon, lat, row, column, mass, s0, s1, w0, w1)
  {
    var sum := PlainSum(source, lon, lat, row, column, mass, s0, s1, w0, w1);
    assert result[Cell(row, column, |lon| - 1)] == sum;
  }

  method AverageBoxes(source: Source, latitudeAt: real -> real, tile: TileAddress) returns (ok: bool, sums: seq<real>, weights: seq<real>)
    requires Projection(latitudeAt) && ValidTile(tile) && ValidSource(source)
    ensures ok <==> (UsesAreaAverage(tile) ==> AllUsable(source, LongitudeEdges(tile), LatitudeEdges(latitudeAt, tile)))
    ensures ok && UsesAreaAverage(tile) ==> HoldsBoxes(sums, source, latitudeAt, tile, false) && HoldsBoxes(weights, source, latitudeAt, tile, true)
  {
    ok, sums, weights := true, [], [];
    if UsesAreaAverage(tile) {
      EdgesAreSorted(latitudeAt, tile);
      var lon, lat := LongitudeEdges(tile), LatitudeEdges(latitudeAt, tile);
      var boxSums, boxWeights;
      ok, boxSums, boxWeights := AccumulateAreaAverages(source, lon, lat);
      sums, weights := boxSums[..], boxWeights[..];
    }
  }

  /** One sample: the average of its box, the point sample, or nothing. */
  method FillSample(source: Source, latitudeAt: real -> real, tile: TileAddress, sums: seq<real>, weights: seq<real>, row: int, column: int)
    returns (elevation: Option<real>, failed: bool)
    requires ValidSource(source) && 0 <= row < GRID_SIZE && 0 <= column < GRID_SIZE
    requires UsesAreaAverage(tile) ==> HoldsBoxes(sums, source, latitudeAt, tile, false) && HoldsBoxes(weights, source, latitudeAt, tile, true)
    ensures failed == SampleFails(source, latitudeAt, tile, row, column)
    ensures elevation == TileSample(source, latitudeAt, tile, row, column)
  {
    var latitude, longitude := SampleLatitude(latitudeAt, tile, row), SampleLongitude(tile, column);
    var base := CellOf(latitude, longitude);
    if PointSampled(source, latitudeAt, tile, row, column) {
      elevation, failed := SampleBilinear(source, latitude, longitude);
    } else {
      BoxAt(sums, source, latitudeAt, tile, false, row, column);
      BoxAt(weights, source, latitudeAt, tile, true, row, column);
      var box := Cell(row, column, GRID_SIZE);
      elevation := if weights[box] > 0.0 then Some(sums[box] / weights[box]) else None;
      failed := source(base.south, base.west).Broken?;
    }
  }

  /** The samples before (row, column) in file order, none of which fails. */
  ghost predicate FilledTo(samples: seq<Option<real>>, source: Source, latitudeAt: real -> real, tile: TileAddress, row: int, column: int)
    requires ValidSource(source)
  {
    && |samples| == row * GRID_SIZE + column
    && forall i :: 0 <= i < |samples| ==>
         && samples[i] == TileSample(source, latitudeAt, tile, i / GRID_SIZE, i % GRID_SIZE)
         && !SampleFails(source, latitudeAt, tile, i / GRID_SIZE, i % GRID_SIZE)
  }

  lemma FilledNext(samples: seq<Option<real>>, source: Source, latitudeAt: real -> real, tile: TileAddress, row: int, column: int,
                   elevation: Option<real>)
    requires ValidSource(source) && 0 <= row && 0 <= column < GRID_SIZE
    requires FilledTo(samples, source, latitudeAt, tile, row, column) && !SampleFails(source, latitudeAt, tile, row, column)
    requires elevation == TileSample(source, latitudeAt, tile, row, column)
    ensures FilledTo(samples + [elevation], source, latitudeAt, tile, row, column + 1)
  {
    var i := row * GRID_SIZE + column;
    assert i / GRID_SIZE == row && i % GRID_SIZE == column;
  }

  /** All samples are there and none of them fails. */
  lemma {:induction false} FilledAll(samples: seq<Option<real>>, source: Source, latitudeAt: real -> real, tile: TileAddress)
    requires ValidSource(source) && FilledTo(samples, source, latitudeAt, tile, GRID_SIZE, 0)
    requires UsesAreaAverage(tile) ==> AllUsable(source, LongitudeEdges(tile), LatitudeEdges(latitudeAt, tile))
    ensures !TileFails(source, latitudeAt, tile) && samples == AllSamples(source, latitudeAt, tile)
  {
    forall row, column | 0 <= row < GRID_SIZE && 0 <= column < GRID_SIZE ensures !SampleFails(source, latitudeAt, tile, row, column) {
      var i := row * GRID_SIZE + column;
      assert i / GRID_SIZE == row && i % GRID_SIZE == column;
      assert 0 <= i < |samples|;
    }
  }

  /** The request ends at the first failure, and otherwise with all samples, if there is an elevation among them. */
  method FetchTile(source: Source, latitudeAt: real -> real, tile: TileAddress) returns (fetch: Fetch)
    requires Projection(latitudeAt) && ValidTile(tile) && ValidSource(source)
    ensures fetch == Fetched(source, latitudeAt, tile)
  {
    var ok, sums, weights := AverageBoxes(source, latitudeAt, tile);
    if !ok {
      return SourceFailed;
    }
    var samples: seq<Option<real>>, finite := [], 0;
    for row := 0 to GRID_SIZE
      invariant FilledTo(samples, source, latitudeAt, tile, row, 0)
      invariant finite >= 0 && (finite > 0 <==> exists i :: 0 <= i < |samples| && samples[i].Some?)
    {
      for column := 0 to GRID_SIZE
        invariant FilledTo(samples, source, latitudeAt, tile, row, column)
        invariant finite >= 0 && (finite > 0 <==> exists i :: 0 <= i < |samples| && samples[i].Some?)
      {
        var elevation, failed := FillSample(source, latitudeAt, tile, sums, weights, row, column);
        if failed {
          return SourceFailed;
        }
        FilledNext(samples, source, latitudeAt, tile, row, column, elevation);
        SomeNext(samples, elevation);
        samples := samples + [elevation];
        finite := finite + if elevation.Some? then 1 else 0;
      }
    }
    FilledAll(samples, source, latitudeAt, tile);
    fetch := if finite == 0 then NoCoverage else Filled(samples);
  }

  // ---------------------------------------------------------------- only listed cells decide

  lemma {:induction false} UsableDepends(source: Source, source': Source, lon: seq<real>, lat: seq<real>)
    requires ValidSource(source) && ValidSource(source') && |lon| >= 1 && |lat| >= 1 && SameCandidates(source, source', lon, lat)
    ensures AllUsable(source, lon, lat) ==> AllUsable(source', lon, lat)
  {
    if AllUsable(source, lon, lat) {
      forall s, w | FirstSouth(lat) <= s <= LastSouth(lat) && FirstWest(lon) <= w <= LastWest(lon) ensures Usable(source', lon, lat, s, w) {
        assert source(s, WrappedWest(w)) == source'(s, WrappedWest(w));
        assert Usable(source, lon, lat, s, w);
      }
    }
  }

  lemma {:induction false} SameFailure(source: Source, source': Source, latitudeAt: real -> real, tile: TileAddress, row: int, column: int)
    requires ValidSource(source) && ValidSource(source')
    requires SamePoint(source, source', SampleLatitude(latitudeAt, tile, row), SampleLongitude(tile, column))
    ensures SampleFails(source, latitudeAt, tile, row, column) == SampleFails(source', latitudeAt, tile, row, column)
  {
  }

  lemma {:induction false} FailureNeedsOnlyListed(source: Source, source': Source, latitudeAt: real -> real, tile: TileAddress,
                                                  addresses: set<Address>)
    requires Projection(latitudeAt) && ValidTile(tile) && ListIs(TileBox(latitudeAt, tile), addresses)
    requires Glo30(source, MIN_COLUMNS) && ValidSource(source') && Agree(source, source', addresses)
    ensures TileFails(source, latitudeAt, tile) == TileFails(source', latitudeAt, tile)
  {
    var lon, lat := LongitudeEdges(tile), LatitudeEdges(latitudeAt, tile);
    if UsesAreaAverage(tile) {
      CandidatesAgree(source, source', latitudeAt, tile, addresses);
      UsableDepends(source, source', lon, lat);
      UsableDepends(source', source, lon, lat);
    }
    forall row, column | 0 <= row < GRID_SIZE && 0 <= column < GRID_SIZE
      ensures SampleFails(source, latitudeAt, tile, row, column) == SampleFails(source', latitudeAt, tile, row, column)
    {
      SampleNeedsOnlyListed(source, source', latitudeAt, tile, addresses, row, column);
      SameFailure(source, source', latitudeAt, tile, row, column);
    }
  }

  /**
   * The outcome of the request, failure or samples, is a function of the listed cells: whatever the other
   * cells hold, readable or not, the CPU stage ends the same.
   */
  lemma {:induction false} FetchNeedsOnlyListedCells(source: Source, source': Source, latitudeAt: real -> real, tile: TileAddress,
                                                     addresses: set<Address>)
    requires Projection(latitudeAt) && ValidTile(tile) && ListIs(TileBox(latitudeAt, tile), addresses)
    requires Glo30(source, MIN_COLUMNS) && ValidSource(source') && Agree(source, source', addresses)
    ensures Fetched(source, latitudeAt, tile) == Fetched(source', latitudeAt, tile)
  {
    FailureNeedsOnlyListed(source, source', latitudeAt, tile, addresses);
    var samples, samples' := AllSamples(source, latitudeAt, tile), AllSamples(source', latitudeAt, tile);
    forall i | 0 <= i < |samples| ensures samples[i] == samples'[i] {
      TileNeedsOnlyListedCells(source, source', latitudeAt, tile, addresses, i / GRID_SIZE, i % GRID_SIZE);
    }
    assert samples == samples';
  }
}
