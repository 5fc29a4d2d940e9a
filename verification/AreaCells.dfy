/** The cell loops of accumulateAreaAverages, against the plain sum over the candidate cells. */
module AreaCells {
  import opened Numbers
  import opened RealSums
  import opened RasterWindow
  import opened AreaOverlap
  import opened AreaAccumulate
  import opened AreaAverage
  import opened AreaGrid

  // ---------------------------------------------------------------- overlap lists of a cell

  lemma {:induction false} RepresentsPlus(begin: seq<nat>, entries: seq<Entry>, list: seq<Entry>, pixels: nat, first: int,
                                          boxes: nat, x: (int, int) -> real)
    requires Represents(Lists(begin + [|entries|], entries), pixels, first, boxes, x)
    requires AreaOverlap.Lists(list, boxes, Boxes(x, first + pixels))
    ensures Represents(Lists(begin + [|entries|] + [|entries + list|], entries + list), pixels + 1, first, boxes, x)
  {
    var was := Lists(begin + [|entries|], entries);
    var now := Lists(begin + [|entries|] + [|entries + list|], entries + list);
    forall p, q | 0 <= p <= q <= pixels + 1 ensures now.begin[p] <= now.begin[q] <= |now.entries| {
      assert p <= pixels ==> now.begin[p] == was.begin[p];
      assert q <= pixels ==> now.begin[q] == was.begin[q];
      assert p <= pixels && q > pixels ==> was.begin[p] <= was.begin[pixels];
    }
    forall p | 0 <= p < pixels + 1 ensures AreaOverlap.Lists(EntriesOf(now, p), boxes, Boxes(x, first + p)) {
      if p < pixels {
        assert now.begin[p] == was.begin[p] && now.begin[p + 1] == was.begin[p + 1];
        assert was.begin[p + 1] <= was.begin[pixels];
        assert EntriesOf(now, p) == EntriesOf(was, p);
      } else {
        assert EntriesOf(now, p) == list;
      }
    }
  }

  method BuildColumnLists(lon: seq<real>, cellWest: real, width: nat, first: int, last: int) returns (lists: Lists)
    requires |lon| >= 1 && Ascending(lon) && width > 0 && first <= last
    ensures Represents(lists, last - first + 1, first, |lon| - 1, ColumnMap(lon, cellWest, width))
  {
    var begin: seq<nat>, entries: seq<Entry> := [], [];
    ghost var x := ColumnMap(lon, cellWest, width);
    var column := first;
    while column <= last
      invariant first <= column <= last + 1
      invariant Represents(Lists(begin + [|entries|], entries), column - first, first, |lon| - 1, x)
    {
      var low, high := PixelWest(cellWest, column, width), PixelEast(cellWest, column, width);
      var list := OverlapsOfColumn(lon, low, high);
      assert AreaOverlap.Lists(list, |lon| - 1, Boxes(x, column));
      RepresentsPlus(begin, entries, list, column - first, first, |lon| - 1, x);
      begin := begin + [|entries|];
      entries := entries + list;
      column := column + 1;
    }
    lists := Lists(begin + [|entries|], entries);
  }

  method BuildRowLists(lat: seq<real>, cellNorth: real, height: nat, first: int, last: int) returns (lists: Lists)
    requires |lat| >= 1 && Descending(lat) && height > 0 && first <= last
    ensures Represents(lists, last - first + 1, first, |lat| - 1, RowMap(lat, cellNorth, height))
  {
    var begin: seq<nat>, entries: seq<Entry> := [], [];
    ghost var y := RowMap(lat, cellNorth, height);
    var row := first;
    while row <= last
      invariant first <= row <= last + 1
      invariant Represents(Lists(begin + [|entries|], entries), row - first, first, |lat| - 1, y)
    {
      var high, low := PixelNorth(cellNorth, row, height), PixelSouth(cellNorth, row, height);
      var list := OverlapsOfRow(lat, low, high);
      assert AreaOverlap.Lists(list, |lat| - 1, Boxes(y, row));
      RepresentsPlus(begin, entries, list, row - first, first, |lat| - 1, y);
      begin := begin + [|entries|];
      entries := entries + list;
      row := row + 1;
    }
    lists := Lists(begin + [|entries|], entries);
  }

  // ---------------------------------------------------------------- one cell

  ghost function RasterGain(raster: Raster, lon: seq<real>, lat: seq<real>, mass: bool, s: int, w: int): (int, int) -> real
    requires ValidRaster(raster)
  {
    (i, j) => RasterTerm(raster, lon, lat, i, j, mass, s, w)
  }

  ghost predicate CellReadable(raster: Raster, lon: seq<real>, lat: seq<real>, s: int, w: int)
    requires ValidRaster(raster) && |lon| >= 1 && |lat| >= 1
  {
    var c0, c1 := ColumnFirst(lon, w as real, raster.width), ColumnLast(lon, w as real, raster.width);
    var r0, r1 := RowFirst(lat, (s + 1) as real, raster.height), RowLast(lat, (s + 1) as real, raster.height);
    c0 > c1 || r0 > r1 || WindowReadable(raster, c0, c1, r0, r1)
  }

  ghost predicate Apart(sums: array<real>, weights: array<real>, rowSums: array<real>, rowWeights: array<real>) {
    sums != weights && sums != rowSums && sums != rowWeights && weights != rowSums && weights != rowWeights && rowSums != rowWeights
  }

  /** An empty window contributes nothing. */
  lemma {:induction false} EmptyWindow(raster: Raster, lon: seq<real>, lat: seq<real>, mass: bool, s: int, w: int,
                                       was: seq<real>, rows: nat, columns: nat)
    requires ValidRaster(raster) && |lon| >= 1 && Ascending(lon) && |lat| >= 1 && Descending(lat) && |was| == rows * columns
    requires || ColumnFirst(lon, w as real, raster.width) > ColumnLast(lon, w as real, raster.width)
             || RowFirst(lat, (s + 1) as real, raster.height) > RowLast(lat, (s + 1) as real, raster.height)
    ensures Gained(was, was, rows, columns, RasterGain(raster, lon, lat, mass, s, w))
  {
    forall i, j | 0 <= i < rows && 0 <= j < columns ensures RasterGain(raster, lon, lat, mass, s, w)(i, j) == 0.0 {
      WindowIsEnough(raster, lon, lat, i, j, mass, s, w);
      var term := PixelTerm(PixelsOf(raster), ColumnMap(lon, w as real, raster.width), RowMap(lat, (s + 1) as real, raster.height), i, j, mass);
      EmptyRect(term, ColumnFirst(lon, w as real, raster.width), ColumnLast(lon, w as real, raster.width) + 1,
                RowFirst(lat, (s + 1) as real, raster.height), RowLast(lat, (s + 1) as real, raster.height) + 1);
    }
    NothingGained(was, rows, columns, RasterGain(raster, lon, lat, mass, s, w));
  }

  lemma {:induction false} EmptyRect(f: (int, int) -> real, c0: int, c1: int, r0: int, r1: int)
    requires c0 >= c1 || r0 >= r1
    ensures RectSum(f, c0, c1, r0, r1) == 0.0
  {
    SumZero(RowOf(f, c0, c1), r0, r1);
  }

  lemma {:induction false} RunsMakeTheCell(raster: Raster, runs: seq<Run>, lon: seq<real>, lat: seq<real>, mass: bool, s: int, w: int,
                                           c0: int, c1: int, r0: int, r1: int, now: seq<real>, was: seq<real>, rows: nat, columns: nat)
    requires ValidRaster(raster) && |lon| >= 1 && Ascending(lon) && |lat| >= 1 && Descending(lat)
    requires c0 == ColumnFirst(lon, w as real, raster.width) && c1 == ColumnLast(lon, w as real, raster.width)
    requires r0 == RowFirst(lat, (s + 1) as real, raster.height) && r1 == RowLast(lat, (s + 1) as real, raster.height)
    requires Faithful(raster, runs, c0, c1, r0, r1) && VisitsOnce(runs, c0, c1, r0, r1)
    requires Gained(now, was, rows, columns, RunsGain(PixelsOf(raster), ColumnMap(lon, w as real, raster.width),
                                                      RowMap(lat, (s + 1) as real, raster.height), runs, mass))
    ensures Gained(now, was, rows, columns, RasterGain(raster, lon, lat, mass, s, w))
  {
    var x, y := ColumnMap(lon, w as real, raster.width), RowMap(lat, (s + 1) as real, raster.height);
    forall i, j | 0 <= i < rows && 0 <= j < columns
      ensures RasterGain(raster, lon, lat, mass, s, w)(i, j) == RunsGain(PixelsOf(raster), x, y, runs, mass)(i, j)
    {
      WindowIsEnough(raster, lon, lat, i, j, mass, s, w);
      VisitSum(raster, runs, PixelTerm(PixelsOf(raster), x, y, i, j, mass), c0, c1, r0, r1);
    }
    GainedSame(now, was, rows, columns, RunsGain(PixelsOf(raster), x, y, runs, mass), RasterGain(raster, lon, lat, mass, s, w));
  }

  lemma {:induction false} FaithfulIsWithin(raster: Raster, runs: seq<Run>, c0: int, c1: int, r0: int, r1: int)
    requires ValidRaster(raster) && Faithful(raster, runs, c0, c1, r0, r1) && c0 <= c1 && r0 <= r1
    ensures forall n :: 0 <= n < |runs| ==> Within(PixelsOf(raster), runs[n], c0, c1 - c0 + 1, r0, r1 - r0 + 1)
  {
    forall n | 0 <= n < |runs| ensures Within(PixelsOf(raster), runs[n], c0, c1 - c0 + 1, r0, r1 - r0 + 1) {
      assert FaithfulRun(raster, runs[n], c0, c1, r0, r1);
    }
  }

  method VisitCell(raster: Raster, s: int, w: int, lon: seq<real>, lat: seq<real>,
                   sums: array<real>, weights: array<real>, rowSums: array<real>, rowWeights: array<real>) returns (ok: bool)
    requires ValidRaster(raster) && |lon| >= 1 && Ascending(lon) && |lat| >= 1 && Descending(lat)
    requires Apart(sums, weights, rowSums, rowWeights)
    requires rowSums.Length == rowWeights.Length == |lon| - 1 && sums.Length == weights.Length == (|lat| - 1) * rowSums.Length
    requires AllZero(rowSums[..]) && AllZero(rowWeights[..])
    modifies sums, weights, rowSums, rowWeights
    ensures ok ==> AllZero(rowSums[..]) && AllZero(rowWeights[..])
    ensures ok ==> Gained(sums[..], old(sums[..]), |lat| - 1, |lon| - 1, RasterGain(raster, lon, lat, false, s, w))
    ensures ok ==> Gained(weights[..], old(weights[..]), |lat| - 1, |lon| - 1, RasterGain(raster, lon, lat, true, s, w))
    ensures ok <==> CellReadable(raster, lon, lat, s, w)
  {
    var cellWest, cellNorth := w as real, (s + 1) as real;
    var columnFirst, columnLast := ColumnFirst(lon, cellWest, raster.width), ColumnLast(lon, cellWest, raster.width);
    var rowFirst, rowLast := RowFirst(lat, cellNorth, raster.height), RowLast(lat, cellNorth, raster.height);
    if columnFirst > columnLast || rowFirst > rowLast {
      EmptyWindow(raster, lon, lat, false, s, w, sums[..], |lat| - 1, |lon| - 1);
      EmptyWindow(raster, lon, lat, true, s, w, weights[..], |lat| - 1, |lon| - 1);
      return true;
    }
    var columnLists := BuildColumnLists(lon, cellWest, raster.width, columnFirst, columnLast);
    var rowLists := BuildRowLists(lat, cellNorth, raster.height, rowFirst, rowLast);
    var runs;
    ok, runs := VisitWindow(raster, columnFirst, columnLast, rowFirst, rowLast);
    if ok {
      FaithfulIsWithin(raster, runs, columnFirst, columnLast, rowFirst, rowLast);
      VisitRuns(PixelsOf(raster), runs, columnLists, ColumnMap(lon, cellWest, raster.width), columnFirst, columnLast - columnFirst + 1,
                rowLists, RowMap(lat, cellNorth, raster.height), rowFirst, rowLast - rowFirst + 1, |lat| - 1,
                sums, weights, rowSums, rowWeights);
      RunsMakeTheCell(raster, runs, lon, lat, false, s, w, columnFirst, columnLast, rowFirst, rowLast,
                      sums[..], old(sums[..]), |lat| - 1, |lon| - 1);
      RunsMakeTheCell(raster, runs, lon, lat, true, s, w, columnFirst, columnLast, rowFirst, rowLast,
                      weights[..], old(weights[..]), |lat| - 1, |lon| - 1);
    }
  }

  // ---------------------------------------------------------------- all candidate cells

  /** Upper bounds of half a pixel, in degrees: 3 arc seconds of longitude, half of one of latitude. */
  const MAX_HALF_LONGITUDE: real := 1.0 / 1200.0
  const MAX_HALF_LATITUDE: real := 0.5 / 3600.0

  function FirstSouth(lat: seq<real>): int
    requires |lat| >= 1
  {
    Max(-90, Floor(lat[|lat| - 1] - MAX_HALF_LATITUDE))
  }

  function LastSouth(lat: seq<real>): int
    requires |lat| >= 1
  {
    Min(89, Ceil(lat[0] - MAX_HALF_LATITUDE) - 1)
  }

  function FirstWest(lon: seq<real>): int
    requires |lon| >= 1
  {
    Floor(lon[0])
  }

  function LastWest(lon: seq<real>): int
    requires |lon| >= 1
  {
    Floor(lon[|lon| - 1] + MAX_HALF_LONGITUDE)
  }

  /** The complete bands [s0, s) and the cells [w0, w) of band s. */
  ghost function Progress(source: Source, lon: seq<real>, lat: seq<real>, mass: bool,
                          s0: int, s: int, w0: int, w1: int, w: int): (int, int) -> real
    requires ValidSource(source)
  {
    (i, j) => PlainSum(source, lon, lat, i, j, mass, s0, s, w0, w1) + Sum(BandTerm(source, lon, lat, i, j, mass, s), w0, w)
  }

  ghost predicate Usable(source: Source, lon: seq<real>, lat: seq<real>, s: int, w: int)
    requires ValidSource(source) && |lon| >= 1 && |lat| >= 1
  {
    match source(s, WrappedWest(w))
    case Missing => true
    case Broken => false
    case Loaded(raster) => CellReadable(raster, lon, lat, s, w)
  }

  lemma ProgressStep(source: Source, lon: seq<real>, lat: seq<real>, mass: bool,
                     s0: int, s: int, w0: int, w1: int, w: int, i: int, j: int)
    requires ValidSource(source) && w0 <= w
    ensures Progress(source, lon, lat, mass, s0, s, w0, w1, w + 1)(i, j)
            == Progress(source, lon, lat, mass, s0, s, w0, w1, w)(i, j) + CellTerm(source, lon, lat, i, j, mass, s, w)
  {
    assert BandTerm(source, lon, lat, i, j, mass, s)(w) == CellTerm(source, lon, lat, i, j, mass, s, w);
  }

  /** Every box holds what the cells visited so far contribute. */
  ghost predicate Holds(now: seq<real>, rows: nat, columns: nat, g: (int, int) -> real) {
    && |now| == rows * columns
    && forall i, j :: 0 <= i < rows && 0 <= j < columns ==>
         0 <= Cell(i, j, columns) < |now| && now[Cell(i, j, columns)] == g(i, j)
  }

  /** Sums and weights after the bands [s0, s) and the cells [w0, w) of band s. */
  ghost predicate Reached(sums: seq<real>, weights: seq<real>, source: Source, lon: seq<real>, lat: seq<real>,
                          s0: int, s: int, w0: int, w1: int, w: int)
    requires ValidSource(source) && |lon| >= 1 && |lat| >= 1
  {
    && Holds(sums, |lat| - 1, |lon| - 1, Progress(source, lon, lat, false, s0, s, w0, w1, w))
    && Holds(weights, |lat| - 1, |lon| - 1, Progress(source, lon, lat, true, s0, s, w0, w1, w))
  }

  lemma {:induction false} OneMoreCell(source: Source, lon: seq<real>, lat: seq<real>, mass: bool,
                                       s0: int, s: int, w0: int, w1: int, w: int, now: seq<real>, mid: seq<real>, rows: nat, columns: nat)
    requires ValidSource(source) && w0 <= w
    requires Holds(mid, rows, columns, Progress(source, lon, lat, mass, s0, s, w0, w1, w))
    requires match source(s, WrappedWest(w))
             case Loaded(raster) => Gained(now, mid, rows, columns, RasterGain(raster, lon, lat, mass, s, w))
             case _ => now == mid
    ensures Holds(now, rows, columns, Progress(source, lon, lat, mass, s0, s, w0, w1, w + 1))
  {
    forall i, j | 0 <= i < rows && 0 <= j < columns
      ensures 0 <= Cell(i, j, columns) < |now|
      ensures now[Cell(i, j, columns)] == Progress(source, lon, lat, mass, s0, s, w0, w1, w + 1)(i, j)
    {
      ProgressStep(source, lon, lat, mass, s0, s, w0, w1, w, i, j);
      assert mid[Cell(i, j, columns)] == Progress(source, lon, lat, mass, s0, s, w0, w1, w)(i, j);
    }
  }

  lemma {:induction false} OneMoreBand(source: Source, lon: seq<real>, lat: seq<real>, mass: bool, s0: int, s: int, w0: int, w1: int,
                                       now: seq<real>, rows: nat, columns: nat)
    requires ValidSource(source) && s0 <= s
    requires Holds(now, rows, columns, Progress(source, lon, lat, mass, s0, s, w0, w1, w1))
    ensures Holds(now, rows, columns, Progress(source, lon, lat, mass, s0, s + 1, w0, w1, w0))
  {
    forall i, j | 0 <= i < rows && 0 <= j < columns
      ensures now[Cell(i, j, columns)] == Progress(source, lon, lat, mass, s0, s + 1, w0, w1, w0)(i, j)
    {
      assert BandSum(source, lon, lat, i, j, mass, w0, w1)(s) == Sum(BandTerm(source, lon, lat, i, j, mass, s), w0, w1);
      assert now[Cell(i, j, columns)] == Progress(source, lon, lat, mass, s0, s, w0, w1, w1)(i, j);
    }
  }

  lemma {:induction false} ReachedBand(sums: seq<real>, weights: seq<real>, source: Source, lon: seq<real>, lat: seq<real>,
                                       s0: int, s: int, w0: int, w1: int)
    requires ValidSource(source) && |lon| >= 1 && |lat| >= 1 && s0 <= s
    requires Reached(sums, weights, source, lon, lat, s0, s, w0, w1, w1)
    ensures Reached(sums, weights, source, lon, lat, s0, s + 1, w0, w1, w0)
  {
    OneMoreBand(source, lon, lat, false, s0, s, w0, w1, sums, |lat| - 1, |lon| - 1);
    OneMoreBand(source, lon, lat, true, s0, s, w0, w1, weights, |lat| - 1, |lon| - 1);
  }

  ghost predicate Clear(rowSums: array<real>, rowWeights: array<real>)
    reads rowSums, rowWeights
  {
    AllZero(rowSums[..]) && AllZero(rowWeights[..])
  }

  /** One candidate cell: missing ones are skipped, broken ones end the accumulation. */
  method VisitCandidate(source: Source, s: int, w: int, ghost s0: int, ghost w0: int, ghost w1: int, lon: seq<real>, lat: seq<real>,
                        sums: array<real>, weights: array<real>, rowSums: array<real>, rowWeights: array<real>) returns (ok: bool)
    requires ValidSource(source) && |lon| >= 1 && Ascending(lon) && |lat| >= 1 && Descending(lat) && w0 <= w
    requires Apart(sums, weights, rowSums, rowWeights)
    requires rowSums.Length == rowWeights.Length == |lon| - 1
    requires Clear(rowSums, rowWeights) && Reached(sums[..], weights[..], source, lon, lat, s0, s, w0, w1, w)
    modifies sums, weights, rowSums, rowWeights
    ensures ok ==> Clear(rowSums, rowWeights) && Reached(sums[..], weights[..], source, lon, lat, s0, s, w0, w1, w + 1)
    ensures ok <==> Usable(source, lon, lat, s, w)
  {
    match source(s, WrappedWest(w)) {
      case Missing => ok := true;
      case Broken => return false;
      case Loaded(raster) => ok := VisitCell(raster, s, w, lon, lat, sums, weights, rowSums, rowWeights);
    }
    if ok {
      OneMoreCell(source, lon, lat, false, s0, s, w0, w1, w, sums[..], old(sums[..]), |lat| - 1, |lon| - 1);
      OneMoreCell(source, lon, lat, true, s0, s, w0, w1, w, weights[..], old(weights[..]), |lat| - 1, |lon| - 1);
    }
  }

  /** The cells of one band of latitude. */
  method VisitBand(source: Source, s: int, ghost s0: int, firstWest: int, lastWest: int, lon: seq<real>, lat: seq<real>,
                   sums: array<real>, weights: array<real>, rowSums: array<real>, rowWeights: array<real>) returns (ok: bool)
    requires ValidSource(source) && |lon| >= 1 && Ascending(lon) && |lat| >= 1 && Descending(lat) && firstWest <= lastWest + 1
    requires Apart(sums, weights, rowSums, rowWeights)
    requires rowSums.Length == rowWeights.Length == |lon| - 1
    requires Clear(rowSums, rowWeights)
    requires Reached(sums[..], weights[..], source, lon, lat, s0, s, firstWest, lastWest + 1, firstWest)
    modifies sums, weights, rowSums, rowWeights
    ensures ok ==> Clear(rowSums, rowWeights)
    ensures ok ==> Reached(sums[..], weights[..], source, lon, lat, s0, s, firstWest, lastWest + 1, lastWest + 1)
    ensures ok <==> forall w :: firstWest <= w <= lastWest ==> Usable(source, lon, lat, s, w)
  {
    var w := firstWest;
    while w <= lastWest
      invariant firstWest <= w <= lastWest + 1
      invariant Clear(rowSums, rowWeights)
      invariant Reached(sums[..], weights[..], source, lon, lat, s0, s, firstWest, lastWest + 1, w)
      invariant forall w' :: firstWest <= w' < w ==> Usable(source, lon, lat, s, w')
    {
      ok := VisitCandidate(source, s, w, s0, firstWest, lastWest + 1, lon, lat, sums, weights, rowSums, rowWeights);
      if !ok {
        return;
      }
      w := w + 1;
    }
    ok := true;
  }

  lemma {:induction false} NothingReached(source: Source, lon: seq<real>, lat: seq<real>, s0: int, w0: int, w1: int,
                                          sums: seq<real>, weights: seq<real>)
    requires ValidSource(source) && |lon| >= 1 && |lat| >= 1
    requires |sums| == |weights| == (|lat| - 1) * (|lon| - 1) && AllZero(sums) && AllZero(weights)
    ensures Reached(sums, weights, source, lon, lat, s0, s0, w0, w1, w0)
  {
    var rows, columns := |lat| - 1, |lon| - 1;
    forall i, j | 0 <= i < rows && 0 <= j < columns ensures 0 <= Cell(i, j, columns) < |sums| {
      CellInside(i, j, rows, columns);
    }
  }

  /** Box (i, j) of the result holds the plain sum over the cells [s0, s1) x [w0, w1). */
  ghost predicate HoldsPlainSums(result: seq<real>, source: Source, lon: seq<real>, lat: seq<real>, mass: bool,
                                 s0: int, s1: int, w0: int, w1: int)
    requires ValidSource(source)
  {
    forall i, j :: 0 <= i < |lat| - 1 && 0 <= j < |lon| - 1 ==>
      && 0 <= Cell(i, j, |lon| - 1) < |result|
      && result[Cell(i, j, |lon| - 1)] == PlainSum(source, lon, lat, i, j, mass, s0, s1, w0, w1)
  }

  lemma {:induction false} ReachedIsPlain(sums: seq<real>, weights: seq<real>, source: Source, lon: seq<real>, lat: seq<real>,
                                          s0: int, s1: int, w0: int, w1: int)
    requires ValidSource(source) && |lon| >= 1 && |lat| >= 1
    requires Reached(sums, weights, source, lon, lat, s0, s1, w0, w1, w0)
    ensures HoldsPlainSums(sums, source, lon, lat, false, s0, s1, w0, w1)
    ensures HoldsPlainSums(weights, source, lon, lat, true, s0, s1, w0, w1)
  {
  }

  /** Whether every candidate cell is there or known to be missing, and reads. */
  ghost predicate AllUsable(source: Source, lon: seq<real>, lat: seq<real>)
    requires ValidSource(source) && |lon| >= 1 && |lat| >= 1
  {
    forall s, w :: FirstSouth(lat) <= s <= LastSouth(lat) && FirstWest(lon) <= w <= LastWest(lon) ==> Usable(source, lon, lat, s, w)
  }

  /** One past the last candidate band. */
  function EndSouth(lat: seq<real>): int
    requires |lat| >= 1
  {
    Max(FirstSouth(lat), LastSouth(lat) + 1)
  }

  /** All candidate bands. */
  method VisitBands(source: Source, firstSouth: int, lastSouth: int, ghost endSouth: int, firstWest: int, lastWest: int,
                    lon: seq<real>, lat: seq<real>,
                    sums: array<real>, weights: array<real>, rowSums: array<real>, rowWeights: array<real>) returns (ok: bool)
    requires ValidSource(source) && |lon| >= 1 && Ascending(lon) && |lat| >= 1 && Descending(lat) && firstWest <= lastWest + 1
    requires Apart(sums, weights, rowSums, rowWeights)
    requires rowSums.Length == rowWeights.Length == |lon| - 1 && endSouth == Max(firstSouth, lastSouth + 1)
    requires Clear(rowSums, rowWeights)
    requires Reached(sums[..], weights[..], source, lon, lat, firstSouth, firstSouth, firstWest, lastWest + 1, firstWest)
    modifies sums, weights, rowSums, rowWeights
    ensures ok ==> Reached(sums[..], weights[..], source, lon, lat, firstSouth, endSouth, firstWest, lastWest + 1, firstWest)
    ensures ok <==> forall s, w :: firstSouth <= s <= lastSouth && firstWest <= w <= lastWest ==> Usable(source, lon, lat, s, w)
  {
    var s := firstSouth;
    while s <= lastSouth
      invariant firstSouth <= s <= endSouth
      invariant Clear(rowSums, rowWeights)
      invariant Reached(sums[..], weights[..], source, lon, lat, firstSouth, s, firstWest, lastWest + 1, firstWest)
      invariant forall s', w :: firstSouth <= s' < s && firstWest <= w <= lastWest ==> Usable(source, lon, lat, s', w)
      decreases lastSouth - s
    {
      ok := VisitBand(source, s, firstSouth, firstWest, lastWest, lon, lat, sums, weights, rowSums, rowWeights);
      if !ok {
        return;
      }
      ReachedBand(sums[..], weights[..], source, lon, lat, firstSouth, s, firstWest, lastWest + 1);
      s := s + 1;
    }
    ok := true;
  }

  /** The accumulation over the given candidate cells. */
  method AccumulateOver(source: Source, firstSouth: int, lastSouth: int, ghost endSouth: int, firstWest: int, lastWest: int,
                        lon: seq<real>, lat: seq<real>)
    returns (ok: bool, sums: array<real>, weights: array<real>)
    requires ValidSource(source) && |lon| >= 1 && Ascending(lon) && |lat| >= 1 && Descending(lat)
    requires firstWest <= lastWest + 1 && endSouth == Max(firstSouth, lastSouth + 1)
    ensures ok <==> forall s, w :: firstSouth <= s <= lastSouth && firstWest <= w <= lastWest ==> Usable(source, lon, lat, s, w)
    ensures ok ==> HoldsPlainSums(sums[..], source, lon, lat, false, firstSouth, endSouth, firstWest, lastWest + 1)
    ensures ok ==> HoldsPlainSums(weights[..], source, lon, lat, true, firstSouth, endSouth, firstWest, lastWest + 1)
  {
    var columns, rows := |lon| - 1, |lat| - 1;
    RowCount(rows, columns);
    sums := new real[rows * columns](_ => 0.0);
    weights := new real[rows * columns](_ => 0.0);
    var rowSums := new real[columns](_ => 0.0);
    var rowWeights := new real[columns](_ => 0.0);
    NothingReached(source, lon, lat, firstSouth, firstWest, lastWest + 1, sums[..], weights[..]);
    ok := VisitBands(source, firstSouth, lastSouth, endSouth, firstWest, lastWest, lon, lat, sums, weights, rowSums, rowWeights);
    if ok {
      ReachedIsPlain(sums[..], weights[..], source, lon, lat, firstSouth, endSouth, firstWest, lastWest + 1);
    }
  }

  /** The separable, block-by-block accumulation yields the plain sums; it fails only on an unusable cell. */
  method AccumulateAreaAverages(source: Source, lon: seq<real>, lat: seq<real>)
    returns (ok: bool, sums: array<real>, weights: array<real>)
    requires ValidSource(source) && |lon| >= 1 && Ascending(lon) && |lat| >= 1 && Descending(lat)
    ensures ok <==> AllUsable(source, lon, lat)
    ensures ok ==> HoldsPlainSums(sums[..], source, lon, lat, false, FirstSouth(lat), EndSouth(lat), FirstWest(lon), LastWest(lon) + 1)
    ensures ok ==> HoldsPlainSums(weights[..], source, lon, lat, true, FirstSouth(lat), EndSouth(lat), FirstWest(lon), LastWest(lon) + 1)
  {
    assert lon[0] <= lon[|lon| - 1];
    ok, sums, weights := AccumulateOver(source, FirstSouth(lat), LastSouth(lat), EndSouth(lat), FirstWest(lon), LastWest(lon), lon, lat);
  }

  lemma RowCount(rows: nat, columns: nat)
    ensures rows * columns >= 0
  {
  }
}
