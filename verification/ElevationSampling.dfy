/**
 * Point elevations from normalized tiles (src/lib/terrain_data.cpp): where a coordinate lies in a
 * tile, the interpolation between its samples, and the search from the finest zoom outwards.
 */
module ElevationSampling {
  import opened Wrappers
  import opened Numbers
  import opened TileRange
  import opened TerrainTileCodec
  import opened TerrainTileFile
  import opened TerrainTileRoundTrip

  const CELLS: int := GRID - 1

  /** The double-precision epsilon, 2 to the -52. */
  const EPSILON: real := 1.0 / 4503599627370496.0

  // ---------------------------------------------------------------- where a coordinate lies

  /** One axis of terrainGridPosition: the tile and the place in it, in samples. */
  datatype AxisPosition = AxisPosition(index: int, place: real)

  /** Clamps to the map of `count` tiles and cuts off the whole tiles; the far edge belongs to the last tile. */
  function Cut(scaled: real, count: int): AxisPosition {
    var at := if scaled < 0.0 then 0.0 else if scaled > count as real then count as real else scaled;
    if at >= count as real then AxisPosition(count - 1, CELLS as real)
    else AxisPosition(Floor(at), (at - Floor(at) as real) * CELLS as real)
  }

  /** `share` is how far the coordinate lies along the map, from 0 to 1. */
  function PositionAlong(share: real, zoom: nat): AxisPosition {
    Cut(Times(share, TileCount(zoom) as real), TileCount(zoom))
  }

  lemma CutIsExact(at: real, count: int)
    requires 0.0 <= at <= count as real && count >= 1
    ensures var p := Cut(at, count);
      && 0 <= p.index < count
      && 0.0 <= p.place <= CELLS as real
      && p.index as real + p.place / CELLS as real == at
  {
    if at < count as real {
      WholeAndRest(at, Floor(at));
    }
  }

  lemma WholeAndRest(at: real, whole: int)
    requires whole as real <= at < whole as real + 1.0
    ensures var place := (at - whole as real) * CELLS as real;
      0.0 <= place <= CELLS as real && whole as real + place / CELLS as real == at
  {
  }

  /** The position names a tile of the map and a place inside it, and is exactly where the coordinate is. */
  lemma PositionIsExact(share: real, zoom: nat)
    requires 0.0 <= share <= 1.0
    ensures var p := PositionAlong(share, zoom);
      && 0 <= p.index < TileCount(zoom)
      && 0.0 <= p.place <= CELLS as real
      && p.index as real + p.place / CELLS as real == Times(share, TileCount(zoom) as real)
  {
    var count := TileCount(zoom);
    ShareOf(share, count as real);
    CutIsExact(Times(share, count as real), count);
  }

  lemma ShareOf(share: real, count: real)
    requires 0.0 <= share <= 1.0 && count > 0.0
    ensures 0.0 <= Times(share, count) <= count
  {
    assert share * count >= 0.0;
    assert (1.0 - share) * count >= 0.0;
    assert share * count == count - (1.0 - share) * count;
  }

  // ---------------------------------------------------------------- interpolation

  function Low(place: real): int
    requires 0.0 <= place <= CELLS as real
  {
    Min(Floor(place), CELLS)
  }

  function High(place: real): int
    requires 0.0 <= place <= CELLS as real
  {
    Min(Low(place) + 1, CELLS)
  }

  function Times(a: real, b: real): real { a * b }

  /** Corner k of the square around a place: west to east, then the row to the south. */
  function CornerIndex(column: real, row: real, k: int): int
    requires 0.0 <= column <= CELLS as real && 0.0 <= row <= CELLS as real
  {
    (if k < 2 then Low(row) else High(row)) * GRID + (if k % 2 == 0 then Low(column) else High(column))
  }

  function Weight(column: real, row: real, k: int): real
    requires 0.0 <= column <= CELLS as real && 0.0 <= row <= CELLS as real
  {
    var x, y := column - Low(column) as real, row - Low(row) as real;
    Times(if k % 2 == 0 then 1.0 - x else x, if k < 2 then 1.0 - y else y)
  }

  lemma CornerInside(column: real, row: real, k: int)
    requires 0.0 <= column <= CELLS as real && 0.0 <= row <= CELLS as real && 0 <= k < 4
    ensures 0 <= CornerIndex(column, row, k) < SAMPLES
  {
  }

  /** The sum over corners k and up; none when a corner that counts has no elevation. */
  function CornersFrom(elevations: seq<Number>, column: real, row: real, k: int): Option<real>
    requires |elevations| == SAMPLES && 0.0 <= column <= CELLS as real && 0.0 <= row <= CELLS as real && 0 <= k <= 4
    decreases 4 - k
  {
    if k == 4 then Some(0.0)
    else
      CornerInside(column, row, k);
      var rest := CornersFrom(elevations, column, row, k + 1);
      var w, e := Weight(column, row, k), elevations[CornerIndex(column, row, k)];
      if w <= EPSILON then rest
      else if !e.Finite? || rest.None? then None
      else Some(Times(w, e.value) + rest.value)
  }

  predicate InGrid(elevations: seq<Number>, column: real, row: real) {
    |elevations| == SAMPLES && 0.0 <= column <= CELLS as real && 0.0 <= row <= CELLS as real
  }

  function Interpolated(elevations: seq<Number>, column: real, row: real): Option<real> {
    if !InGrid(elevations, column, row) then None else CornersFrom(elevations, column, row, 0)
  }

  method BilinearElevation(elevations: seq<Number>, column: real, row: real) returns (elevation: Option<real>)
    ensures elevation == Interpolated(elevations, column, row)
  {
    if !InGrid(elevations, column, row) {
      return None;
    }
    var sum, k := 0.0, 0;
    while k < 4
      invariant 0 <= k <= 4
      invariant Interpolated(elevations, column, row)
        == var rest := CornersFrom(elevations, column, row, k); if rest.None? then None else Some(sum + rest.value)
    {
      CornerInside(column, row, k);
      var w, e := Weight(column, row, k), elevations[CornerIndex(column, row, k)];
      if w > EPSILON {
        if !e.Finite? {
          return None;
        }
        sum := sum + Times(w, e.value);
      }
      k := k + 1;
    }
    return Some(sum);
  }

  // ---------------------------------------------------------------- samples that are close give elevations that are close

  predicate Close(a: Number, b: Number, distance: real) {
    && (a.Finite? <==> b.Finite?)
    && (a.Finite? ==> -distance <= a.value - b.value <= distance)
  }

  predicate CloseOptions(a: Option<real>, b: Option<real>, distance: real) {
    && (a.None? <==> b.None?)
    && (a.Some? ==> -distance <= a.value - b.value <= distance)
  }

  /** A place in a tile, in samples from its north-west corner. */
  datatype Place = Place(column: real, row: real) {
    predicate Inside() {
      0.0 <= column <= CELLS as real && 0.0 <= row <= CELLS as real
    }
  }

  /** Two places whose squares weigh their corners alike. */
  ghost predicate SameWeights(p: Place, q: Place) {
    && p.Inside() && q.Inside()
    && forall k :: 0 <= k < 4 ==> Weight(p.column, p.row, k) == Weight(q.column, q.row, k)
  }

  function At(elevations: seq<Number>, index: int): Number {
    if 0 <= index < |elevations| then elevations[index] else NaN
  }

  ghost predicate CloseCorners(a: seq<Number>, p: Place, b: seq<Number>, q: Place, distance: real)
    requires |a| == SAMPLES && |b| == SAMPLES && SameWeights(p, q)
  {
    forall k :: 0 <= k < 4 && Weight(p.column, p.row, k) > EPSILON ==>
      Close(At(a, CornerIndex(p.column, p.row, k)), At(b, CornerIndex(q.column, q.row, k)), distance)
  }

  /** The weights that count, from corner k on. */
  ghost function Counted(column: real, row: real, k: int): real
    requires 0.0 <= column <= CELLS as real && 0.0 <= row <= CELLS as real && 0 <= k <= 4
    decreases 4 - k
  {
    if k == 4 then 0.0
    else (if Weight(column, row, k) <= EPSILON then 0.0 else Weight(column, row, k)) + Counted(column, row, k + 1)
  }

  lemma Spread(w: real, a: real, b: real, distance: real)
    requires w >= 0.0 && -distance <= a - b <= distance
    ensures -Times(w, distance) <= Times(w, a) - Times(w, b) <= Times(w, distance)
  {
    assert w * (a - b + distance) >= 0.0;
    assert w * (distance - (a - b)) >= 0.0;
    assert w * (a - b + distance) == w * a - w * b + w * distance;
    assert w * (distance - (a - b)) == w * distance - (w * a - w * b);
  }

  lemma Sums(v: real, w: real, distance: real)
    ensures Times(v + w, distance) == Times(v, distance) + Times(w, distance)
  {
  }

  /** One more corner of the sum. */
  function Added(w: real, e: Number, rest: Option<real>): Option<real> {
    if w <= EPSILON then rest
    else if !e.Finite? || rest.None? then None
    else Some(Times(w, e.value) + rest.value)
  }

  lemma AddedClose(w: real, x: Number, y: Number, a: Option<real>, b: Option<real>, counted: real, distance: real)
    requires w > EPSILON ==> Close(x, y, distance)
    requires CloseOptions(a, b, Times(counted, distance))
    ensures CloseOptions(Added(w, x, a), Added(w, y, b), Times((if w <= EPSILON then 0.0 else w) + counted, distance))
  {
    if w > EPSILON {
      Sums(w, counted, distance);
      if x.Finite? {
        Spread(w, x.value, y.value, distance);
      }
    }
  }

  lemma CornerAdded(elevations: seq<Number>, column: real, row: real, k: int)
    requires |elevations| == SAMPLES && 0.0 <= column <= CELLS as real && 0.0 <= row <= CELLS as real && 0 <= k < 4
    ensures CornersFrom(elevations, column, row, k)
            == Added(Weight(column, row, k), At(elevations, CornerIndex(column, row, k)), CornersFrom(elevations, column, row, k + 1))
  {
    CornerInside(column, row, k);
  }

  lemma {:induction false} CornersClose(a: seq<Number>, p: Place, b: seq<Number>, q: Place, distance: real, k: int)
    requires |a| == SAMPLES && |b| == SAMPLES && SameWeights(p, q) && 0 <= k <= 4
    requires CloseCorners(a, p, b, q, distance)
    ensures CloseOptions(CornersFrom(a, p.column, p.row, k), CornersFrom(b, q.column, q.row, k),
                         Times(Counted(p.column, p.row, k), distance))
    decreases 4 - k
  {
    if k < 4 {
      CornersClose(a, p, b, q, distance, k + 1);
      CornerAdded(a, p.column, p.row, k);
      CornerAdded(b, q.column, q.row, k);
      AddedClose(Weight(p.column, p.row, k), At(a, CornerIndex(p.column, p.row, k)), At(b, CornerIndex(q.column, q.row, k)),
                 CornersFrom(a, p.column, p.row, k + 1), CornersFrom(b, q.column, q.row, k + 1), Counted(p.column, p.row, k + 1), distance);
    }
  }

  lemma Product(a: real, b: real)
    requires a >= 0.0 && b >= 0.0
    ensures Times(a, b) >= 0.0
  {
  }

  lemma WeightsOfParts(x: real, y: real)
    requires 0.0 <= x <= 1.0 && 0.0 <= y <= 1.0
    ensures Times(1.0 - x, 1.0 - y) >= 0.0 && Times(x, 1.0 - y) >= 0.0 && Times(1.0 - x, y) >= 0.0 && Times(x, y) >= 0.0
    ensures Times(1.0 - x, 1.0 - y) + Times(x, 1.0 - y) + Times(1.0 - x, y) + Times(x, y) == 1.0
  {
    Product(1.0 - x, 1.0 - y);
    Product(x, 1.0 - y);
    Product(1.0 - x, y);
    Product(x, y);
    assert (1.0 - x) * (1.0 - y) + x * (1.0 - y) == 1.0 - y;
    assert (1.0 - x) * y + x * y == y;
  }

  lemma CountedIsAtMostOne(column: real, row: real)
    requires 0.0 <= column <= CELLS as real && 0.0 <= row <= CELLS as real
    ensures 0.0 <= Counted(column, row, 0) <= 1.0
  {
    WeightsOfParts(column - Low(column) as real, row - Low(row) as real);
    var w0, w1, w2, w3 := Weight(column, row, 0), Weight(column, row, 1), Weight(column, row, 2), Weight(column, row, 3);
    assert Counted(column, row, 3) == if w3 <= EPSILON then 0.0 else w3;
    assert Counted(column, row, 2) == (if w2 <= EPSILON then 0.0 else w2) + Counted(column, row, 3);
    assert Counted(column, row, 1) == (if w1 <= EPSILON then 0.0 else w1) + Counted(column, row, 2);
  }

  /** Samples within a distance of each other give elevations within that distance, and no elevation together. */
  lemma {:induction false} CloseSamplesCloseElevations(a: seq<Number>, p: Place, b: seq<Number>, q: Place, distance: real)
    requires |a| == SAMPLES && |b| == SAMPLES && SameWeights(p, q) && distance >= 0.0
    requires CloseCorners(a, p, b, q, distance)
    ensures CloseOptions(Interpolated(a, p.column, p.row), Interpolated(b, q.column, q.row), distance)
  {
    CornersClose(a, p, b, q, distance, 0);
    CountedIsAtMostOne(p.column, p.row);
    ShareOf(Counted(p.column, p.row, 0), if distance > 0.0 then distance else 1.0);
    assert Times(Counted(p.column, p.row, 0), 0.0) == 0.0;
  }

  // ---------------------------------------------------------------- the seam between two tiles

  /** The side of a tile on which its neighbour lies. */
  datatype Side = East | South

  /** Sample n of the edge, as the tile holds it and as its neighbour does. */
  function OwnSample(side: Side, n: int): int {
    if side.East? then n * GRID + CELLS else CELLS * GRID + n
  }

  function NeighbourSample(side: Side, n: int): int {
    if side.East? then n * GRID else n
  }

  /** A place along the edge, in the tile and in its neighbour. */
  function OwnPlace(side: Side, along: real): Place {
    if side.East? then Place(CELLS as real, along) else Place(along, CELLS as real)
  }

  function NeighbourPlace(side: Side, along: real): Place {
    if side.East? then Place(0.0, along) else Place(along, 0.0)
  }

  ghost predicate ShareEdge(side: Side, own: seq<Number>, neighbour: seq<Number>) {
    && |own| == SAMPLES && |neighbour| == SAMPLES
    && forall n :: 0 <= n < GRID ==> At(own, OwnSample(side, n)) == At(neighbour, NeighbourSample(side, n))
  }

  lemma SeamWeights(side: Side, along: real)
    requires 0.0 <= along <= CELLS as real
    ensures SameWeights(OwnPlace(side, along), NeighbourPlace(side, along))
    ensures var p := OwnPlace(side, along);
      if side.East? then Weight(p.column, p.row, 1) == Weight(p.column, p.row, 3) == 0.0
      else Weight(p.column, p.row, 2) == Weight(p.column, p.row, 3) == 0.0
  {
    assert Low(CELLS as real) == CELLS && Low(0.0) == 0;
  }

  lemma SeamCorners(side: Side, a: seq<Number>, b: seq<Number>, along: real, distance: real)
    requires |a| == SAMPLES && |b| == SAMPLES && 0.0 <= along <= CELLS as real
    requires SameWeights(OwnPlace(side, along), NeighbourPlace(side, along))
    requires forall n :: 0 <= n < GRID ==> Close(At(a, OwnSample(side, n)), At(b, NeighbourSample(side, n)), distance)
    ensures CloseCorners(a, OwnPlace(side, along), b, NeighbourPlace(side, along), distance)
  {
    SeamWeights(side, along);
    var p, q := OwnPlace(side, along), NeighbourPlace(side, along);
    forall k | 0 <= k < 4 && Weight(p.column, p.row, k) > EPSILON
      ensures Close(At(a, CornerIndex(p.column, p.row, k)), At(b, CornerIndex(q.column, q.row, k)), distance)
    {
      var first := if side.East? then k < 2 else k % 2 == 0;
      var n := if first then Low(along) else High(along);
      assert CornerIndex(p.column, p.row, k) == OwnSample(side, n) && CornerIndex(q.column, q.row, k) == NeighbourSample(side, n);
    }
  }

  /** The most that writing and reading a tile moves an elevation. */
  function LossOf(f: Float32, tile: Tile): real
    requires ValidTile(f, tile)
  {
    HasExtremes(tile.elevations);
    Loss(f, Lowest(tile.elevations).value, Highest(tile.elevations).value)
  }

  lemma {:induction false} LossIsNatural(f: Float32, tile: Tile)
    requires Ieee(f) && ValidTile(f, tile)
    ensures LossOf(f, tile) >= 0.0
  {
  }

  lemma {:induction false} EdgeSamplesClose(f: Float32, side: Side, own: Tile, neighbour: Tile, n: int)
    requires Ieee(f) && ValidTile(f, own) && ValidTile(f, neighbour) && ShareEdge(side, own.elevations, neighbour.elevations)
    requires 0 <= n < GRID
    ensures Close(At(Reread(f, own).elevations, OwnSample(side, n)), At(Reread(f, neighbour).elevations, NeighbourSample(side, n)),
                  LossOf(f, own) + LossOf(f, neighbour))
  {
    HasExtremes(own.elevations);
    HasExtremes(neighbour.elevations);
    SamplesComeBack(f, own, Lowest(own.elevations).value, Highest(own.elevations).value);
    SamplesComeBack(f, neighbour, Lowest(neighbour.elevations).value, Highest(neighbour.elevations).value);
    var i, j := OwnSample(side, n), NeighbourSample(side, n);
    assert At(own.elevations, i) == At(neighbour.elevations, j);
    assert ComesBack(own.elevations[i], Reread(f, own).elevations[i], Lowest(own.elevations).value, LossOf(f, own));
    assert ComesBack(neighbour.elevations[j], Reread(f, neighbour).elevations[j], Lowest(neighbour.elevations).value, LossOf(f, neighbour));
  }

  /**
   * Along the edge two tiles share, the elevations served from the two files differ by no more than what
   * the two tiles can lose, and both have one or neither has.
   */
  lemma {:induction false} SeamIsClose(f: Float32, side: Side, own: Tile, neighbour: Tile, along: real)
    requires Ieee(f) && ValidTile(f, own) && ValidTile(f, neighbour) && ShareEdge(side, own.elevations, neighbour.elevations)
    requires 0.0 <= along <= CELLS as real
    ensures var p, q := OwnPlace(side, along), NeighbourPlace(side, along);
      CloseOptions(Interpolated(Reread(f, own).elevations, p.column, p.row), Interpolated(Reread(f, neighbour).elevations, q.column, q.row),
                   LossOf(f, own) + LossOf(f, neighbour))
  {
    var a, b, distance := Reread(f, own).elevations, Reread(f, neighbour).elevations, LossOf(f, own) + LossOf(f, neighbour);
    SeamWeights(side, along);
    LossIsNatural(f, own);
    LossIsNatural(f, neighbour);
    forall n | 0 <= n < GRID ensures Close(At(a, OwnSample(side, n)), At(b, NeighbourSample(side, n)), distance) {
      EdgeSamplesClose(f, side, own, neighbour, n);
    }
    SeamCorners(side, a, b, along, distance);
    CloseSamplesCloseElevations(a, OwnPlace(side, along), b, NeighbourPlace(side, along), distance);
  }

  // ---------------------------------------------------------------- the search through the zoom levels

  /** What terrainTile says of the coordinate's tile at one zoom. */
  datatype Found = Absent | Broken(status: int) | Present(tile: Tile)

  datatype Sample = Value(zoom: nat, elevation: real) | Mismatch(zoom: nat) | Failed(zoom: nat, status: int)
                  | NoDataAt(zoom: nat) | NothingAnywhere

  /** The tiles of a coordinate, one for each zoom, and its place in them. */
  datatype Lookups = Lookups(found: seq<Found>, column: seq<real>, row: seq<real>) {
    predicate Valid() {
      |found| == |column| == |row| == MAX_ZOOM + 1
    }

    function Elevation(zoom: nat): Option<real>
      requires Valid() && zoom <= MAX_ZOOM && found[zoom].Present?
    {
      Interpolated(found[zoom].tile.elevations, column[zoom], row[zoom])
    }

    /** A zoom that ends the search. */
    predicate Settles(zoom: nat)
      requires Valid() && zoom <= MAX_ZOOM
    {
      found[zoom].Broken? || (found[zoom].Present? && Elevation(zoom).Some?)
    }

    /** The sample of a zoom that ends the search. */
    function OutcomeAt(zoom: nat, datum: Option<Datum>): Sample
      requires Valid() && zoom <= MAX_ZOOM && Settles(zoom)
    {
      match found[zoom]
      case Broken(status) => Failed(zoom, status)
      case Present(tile) =>
        if datum.Some? && datum.value != tile.datum then Mismatch(zoom) else Value(zoom, Elevation(zoom).value)
    }

    /** At this zoom there is no tile, or it has no elevation at the coordinate. */
    ghost predicate Passes(zoom: nat)
      requires Valid() && zoom <= MAX_ZOOM
    {
      found[zoom].Absent? || (found[zoom].Present? && Interpolated(found[zoom].tile.elevations, column[zoom], row[zoom]).None?)
    }

    /** What a sample says of the tiles, finest first. */
    ghost predicate Answers(r: Sample, datum: Option<Datum>)
      requires Valid()
    {
      match r
      case Value(z, elevation) =>
        && z <= 30 && found[z].Present? && Interpolated(found[z].tile.elevations, column[z], row[z]) == Some(elevation)
        && datum in {None, Some(found[z].tile.datum)} && forall finer: nat :: z < finer <= 30 ==> Passes(finer)
      case Mismatch(z) =>
        && z <= 30 && found[z].Present? && Interpolated(found[z].tile.elevations, column[z], row[z]).Some?
        && datum !in {None, Some(found[z].tile.datum)} && forall finer: nat :: z < finer <= 30 ==> Passes(finer)
      case Failed(z, status) =>
        z <= 30 && found[z] == Broken(status) && forall finer: nat :: z < finer <= 30 ==> Passes(finer)
      case NoDataAt(z) =>
        && z <= 30 && found[z].Present? && (forall any: nat :: any <= 30 ==> Passes(any))
        && forall finer: nat :: z < finer <= 30 ==> found[finer].Absent?
      case NothingAnywhere => forall any: nat :: any <= 30 ==> found[any].Absent?
    }

    ghost predicate SettlesFirst(zoom: nat)
      requires Valid()
    {
      zoom <= MAX_ZOOM && Settles(zoom) && NoneSettlesAbove(zoom)
    }

    ghost predicate PresentFirst(zoom: nat)
      requires Valid()
    {
      zoom <= MAX_ZOOM && found[zoom].Present? && NothingAbove(zoom)
    }

    ghost predicate NoneSettlesAbove(zoom: int)
      requires Valid()
    {
      forall finer: nat :: zoom < finer <= MAX_ZOOM ==> !Settles(finer)
    }

    ghost predicate NothingAbove(zoom: int)
      requires Valid()
    {
      forall finer: nat :: zoom < finer <= MAX_ZOOM ==> found[finer].Absent?
    }
  }

  lemma PassesIff(l: Lookups, zoom: nat)
    requires l.Valid() && zoom <= MAX_ZOOM
    ensures l.Passes(zoom) <==> !l.Settles(zoom)
  {
  }

  lemma SettledAnswer(l: Lookups, r: Sample, datum: Option<Datum>, z: nat)
    requires l.Valid() && l.Answers(r, datum) && l.SettlesFirst(z)
    ensures r == l.OutcomeAt(z, datum)
  {
    PassesIff(l, z);
    if (r.Value? || r.Mismatch? || r.Failed?) && r.zoom != z {
      PassesIff(l, r.zoom);
    }
  }

  lemma UnsettledAnswer(l: Lookups, r: Sample, datum: Option<Datum>, z: nat)
    requires l.Valid() && l.Answers(r, datum) && l.NoneSettlesAbove(-1) && l.PresentFirst(z)
    ensures r == NoDataAt(z)
  {
    if r.Value? || r.Mismatch? || r.Failed? {
      PassesIff(l, r.zoom);
    }
  }

  /** What a sample answers is what the zoom that settles it says, or else the finest tile there is. */
  lemma AnswersAreFirst(l: Lookups, r: Sample, datum: Option<Datum>)
    requires l.Valid() && l.Answers(r, datum)
    ensures forall z: nat :: l.SettlesFirst(z) ==> r == l.OutcomeAt(z, datum)
    ensures l.NoneSettlesAbove(-1) ==> forall z: nat :: l.PresentFirst(z) ==> r == NoDataAt(z)
    ensures l.NothingAbove(-1) ==> r.NothingAnywhere?
  {
    forall z: nat | l.SettlesFirst(z) ensures r == l.OutcomeAt(z, datum) {
      SettledAnswer(l, r, datum, z);
    }
    if l.NoneSettlesAbove(-1) {
      forall z: nat | l.PresentFirst(z) ensures r == NoDataAt(z) {
        UnsettledAnswer(l, r, datum, z);
      }
    }
  }

  /** The finest zoom that fails or has an elevation decides; coarser tiles are not looked at. */
  method SampleElevation(l: Lookups, datum: Option<Datum>) returns (r: Sample)
    requires l.Valid()
    ensures l.Answers(r, datum)
    ensures forall z: nat :: l.SettlesFirst(z) ==> r == l.OutcomeAt(z, datum)
    ensures l.NoneSettlesAbove(-1) ==> forall z: nat :: l.PresentFirst(z) ==> r == NoDataAt(z)
    ensures l.NothingAbove(-1) ==> r.NothingAnywhere?
  {
    r := FindSample(l, datum);
    AnswersAreFirst(l, r, datum);
  }

  method FindSample(l: Lookups, datum: Option<Datum>) returns (r: Sample)
    requires l.Valid()
    ensures l.Answers(r, datum)
  {
    r := NothingAnywhere;
    var zoom := MAX_ZOOM;
    while zoom >= 0
      invariant -1 <= zoom <= MAX_ZOOM
      invariant forall finer: nat :: zoom < finer <= 30 ==> l.Passes(finer)
      invariant if r.NothingAnywhere? then l.NothingAbove(zoom) else r.NoDataAt? && r.zoom > zoom && l.PresentFirst(r.zoom)
      decreases zoom
    {
      match l.found[zoom] {
        case Absent =>
        case Broken(status) =>
          return Failed(zoom, status);
        case Present(tile) =>
          var elevation := BilinearElevation(tile.elevations, l.column[zoom], l.row[zoom]);
          if elevation.Some? {
            return if datum.Some? && datum.value != tile.datum then Mismatch(zoom) else Value(zoom, elevation.value);
          }
          if r.NothingAnywhere? {
            r := NoDataAt(zoom);
          }
      }
      zoom := zoom - 1;
    }
  }

  /** acquireElevationSources fetches for the finest zoom a provider makes tiles of; `makes` says which. */
  method AcquiredZoom(makes: seq<bool>) returns (zoom: Option<nat>)
    requires |makes| == MAX_ZOOM + 1
    ensures zoom.Some? ==> zoom.value <= MAX_ZOOM && makes[zoom.value] && forall finer: nat :: zoom.value < finer <= MAX_ZOOM ==> !makes[finer]
    ensures zoom.None? ==> forall z: nat :: z <= MAX_ZOOM ==> !makes[z]
  {
    var z := MAX_ZOOM;
    while z >= 0
      invariant -1 <= z <= MAX_ZOOM
      invariant forall finer: nat :: z < finer <= MAX_ZOOM ==> !makes[finer]
    {
      if makes[z] {
        return Some(z);
      }
      z := z - 1;
    }
    return None;
  }
}
