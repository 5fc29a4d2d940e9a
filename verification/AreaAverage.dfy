/**
 * accumulateAreaAverages of src/lib/copernicus_terrain_provider.cpp: the separable block-by-block
 * accumulation over all candidate source cells, proved equal to the plain sum, over every source
 * pixel, of x-overlap times y-overlap times value.
 */
module AreaAverage {
  import opened RealSums
  import opened RasterWindow
  import opened AreaOverlap
  import opened AreaAccumulate

  // ---------------------------------------------------------------- pixel footprints

  /** Pixel centres lie on whole multiples of the spacing from the cell's north-west corner. */
  function PixelWest(cellWest: real, column: int, width: nat): real
    requires width > 0
  {
    cellWest + (column as real - 0.5) / width as real
  }

  function PixelEast(cellWest: real, column: int, width: nat): real
    requires width > 0
  {
    cellWest + (column as real + 0.5) / width as real
  }

  function PixelNorth(cellNorth: real, row: int, height: nat): real
    requires height > 0
  {
    cellNorth - (row as real - 0.5) / height as real
  }

  function PixelSouth(cellNorth: real, row: int, height: nat): real
    requires height > 0
  {
    cellNorth - (row as real + 0.5) / height as real
  }

  ghost function ColumnMap(lon: seq<real>, cellWest: real, width: nat): (int, int) -> real
    requires width > 0
  {
    (column, j) => ColumnOverlap(lon, j, PixelWest(cellWest, column, width), PixelEast(cellWest, column, width))
  }

  ghost function RowMap(lat: seq<real>, cellNorth: real, height: nat): (int, int) -> real
    requires height > 0
  {
    (row, i) => RowOverlap(lat, i, PixelSouth(cellNorth, row, height), PixelNorth(cellNorth, row, height))
  }

  /** What pixel (column, row) contributes to box (i, j). */
  ghost function PixelTerm(pixels: (int, int) -> Sample, x: (int, int) -> real, y: (int, int) -> real, i: int, j: int, mass: bool): (int, int) -> real
  {
    (column, row) => y(row, i) * (x(column, j) * Counted(pixels(column, row), mass))
  }

  // ---------------------------------------------------------------- grids of boxes

  /** Every box of the grid has gained g(i, j). */
  ghost predicate Gained(now: seq<real>, was: seq<real>, rows: nat, columns: nat, g: (int, int) -> real) {
    && |now| == |was| == rows * columns
    && forall i, j :: 0 <= i < rows && 0 <= j < columns ==>
         && 0 <= Cell(i, j, columns) < |now|
         && now[Cell(i, j, columns)] == was[Cell(i, j, columns)] + g(i, j)
  }

  lemma {:induction false} GainedTwice(now: seq<real>, mid: seq<real>, was: seq<real>, rows: nat, columns: nat,
                                       g: (int, int) -> real, h: (int, int) -> real, k: (int, int) -> real)
    requires Gained(mid, was, rows, columns, g) && Gained(now, mid, rows, columns, h)
    requires forall i, j :: 0 <= i < rows && 0 <= j < columns ==> k(i, j) == g(i, j) + h(i, j)
    ensures Gained(now, was, rows, columns, k)
  {
  }

  lemma {:induction false} GainedSame(now: seq<real>, was: seq<real>, rows: nat, columns: nat,
                                      g: (int, int) -> real, h: (int, int) -> real)
    requires Gained(now, was, rows, columns, g)
    requires forall i, j :: 0 <= i < rows && 0 <= j < columns ==> h(i, j) == g(i, j)
    ensures Gained(now, was, rows, columns, h)
  {
  }

  lemma {:induction false} NothingGained(was: seq<real>, rows: nat, columns: nat, g: (int, int) -> real)
    requires |was| == rows * columns
    requires forall i, j :: 0 <= i < rows && 0 <= j < columns ==> g(i, j) == 0.0
    ensures Gained(was, was, rows, columns, g)
  {
    forall i, j | 0 <= i < rows && 0 <= j < columns ensures 0 <= Cell(i, j, columns) < |was| {
      CellInside(i, j, rows, columns);
    }
  }

  ghost function RunGain(pixels: (int, int) -> Sample, x: (int, int) -> real, y: (int, int) -> real, run: Run, mass: bool): (int, int) -> real
  {
    (i, j) => RunSum(run, PixelTerm(pixels, x, y, i, j, mass))
  }

  ghost function RunsGain(pixels: (int, int) -> Sample, x: (int, int) -> real, y: (int, int) -> real, runs: seq<Run>, mass: bool): (int, int) -> real
  {
    (i, j) => RunsSum(runs, PixelTerm(pixels, x, y, i, j, mass))
  }

  lemma {:induction false} SumShift(f: int -> real, g: int -> real, start: int, n: nat)
    requires forall k :: 0 <= k < n ==> f(start + k) == g(k)
    ensures Sum(f, start, start + n) == Sum(g, 0, n)
    decreases n
  {
    if n > 0 {
      SumShift(f, g, start, n - 1);
      assert f(start + (n - 1)) == g(n - 1);
    }
  }

  ghost function Scaled(f: int -> real, a: real): int -> real {
    k => a * f(k)
  }

  lemma TermAt(pixels: (int, int) -> Sample, x: (int, int) -> real, y: (int, int) -> real, run: Run, i: int, j: int, mass: bool, k: int)
    requires 0 <= k < |run.values| && run.values[k] == pixels(run.column + k, run.row)
    ensures At(PixelTerm(pixels, x, y, i, j, mass), run.row)(run.column + k)
            == Scaled(RunTerm(x, run.column, run.values, j, mass), y(run.row, i))(k)
  {
  }

  /** Distributing the gathered run adds, to each box, the terms of the run's pixels. */
  lemma {:induction false} RunTermsAre(pixels: (int, int) -> Sample, x: (int, int) -> real, y: (int, int) -> real, run: Run,
                                       i: int, j: int, mass: bool)
    requires forall k :: 0 <= k < |run.values| ==> run.values[k] == pixels(run.column + k, run.row)
    ensures RunGain(pixels, x, y, run, mass)(i, j)
            == y(run.row, i) * RunColumn(x, run.column, run.values, |run.values|, j, mass)
  {
    var pixel, term := At(PixelTerm(pixels, x, y, i, j, mass), run.row), RunTerm(x, run.column, run.values, j, mass);
    forall k | 0 <= k < |run.values| ensures pixel(run.column + k) == Scaled(term, y(run.row, i))(k) {
      TermAt(pixels, x, y, run, i, j, mass, k);
    }
    ScaledSum(pixel, term, y(run.row, i), run.column, |run.values|);
  }

  lemma {:induction false} ScaledSum(f: int -> real, g: int -> real, a: real, start: int, n: nat)
    requires forall k :: 0 <= k < n ==> f(start + k) == Scaled(g, a)(k)
    ensures Sum(f, start, start + n) == a * Sum(g, 0, n)
  {
    SumShift(f, Scaled(g, a), start, n);
    SumTimes(g, a, Scaled(g, a), 0, n);
  }

  lemma {:induction false} DistributedIsGain(pixels: (int, int) -> Sample, x: (int, int) -> real, y: (int, int) -> real, run: Run, mass: bool,
                                             now: seq<real>, was: seq<real>, rows: nat, entries: seq<Entry>, buffer: seq<real>)
    requires Distributed(now, was, rows, entries, buffer)
    requires Gathered(buffer, x, run.column, run.values, |run.values|, mass)
    requires AreaOverlap.Lists(entries, rows, Boxes(y, run.row))
    requires forall k :: 0 <= k < |run.values| ==> run.values[k] == pixels(run.column + k, run.row)
    ensures Gained(now, was, rows, |buffer|, RunGain(pixels, x, y, run, mass))
  {
    forall i, j | 0 <= i < rows && 0 <= j < |buffer|
      ensures Share(entries, i, buffer[j]) == RunGain(pixels, x, y, run, mass)(i, j)
    {
      ShareIs(entries, i, buffer[j]);
      assert ListWeight(entries, i) == Boxes(y, run.row)(i);
      RunTermsAre(pixels, x, y, run, i, j, mass);
    }
  }

  /** A run of these pixels inside the window of pixelColumns x pixelRows pixels. */
  ghost predicate Within(pixels: (int, int) -> Sample, run: Run, columnFirst: int, pixelColumns: nat, rowFirst: int, pixelRows: nat) {
    && rowFirst <= run.row < rowFirst + pixelRows
    && columnFirst <= run.column && run.column + |run.values| <= columnFirst + pixelColumns
    && forall k :: 0 <= k < |run.values| ==> run.values[k] == pixels(run.column + k, run.row)
  }

  ghost predicate AllZero(buffer: seq<real>) {
    forall j :: 0 <= j < |buffer| ==> buffer[j] == 0.0
  }

  /** The run visitor. The row buffers are zero before and after. */
  method VisitRun(ghost pixels: (int, int) -> Sample, run: Run, columnLists: Lists, ghost x: (int, int) -> real, columnFirst: int, ghost pixelColumns: nat,
                  rowLists: Lists, ghost y: (int, int) -> real, rowFirst: int, ghost pixelRows: nat, ghost rows: nat,
                  sums: array<real>, weights: array<real>, rowSums: array<real>, rowWeights: array<real>)
    requires Within(pixels, run, columnFirst, pixelColumns, rowFirst, pixelRows)
    requires Represents(columnLists, pixelColumns, columnFirst, rowSums.Length, x)
    requires Represents(rowLists, pixelRows, rowFirst, rows, y)
    requires sums != weights && sums != rowSums && sums != rowWeights && weights != rowSums && weights != rowWeights && rowSums != rowWeights
    requires rowSums.Length == rowWeights.Length && sums.Length == weights.Length == rows * rowSums.Length
    requires AllZero(rowSums[..]) && AllZero(rowWeights[..])
    modifies sums, weights, rowSums, rowWeights
    ensures AllZero(rowSums[..]) && AllZero(rowWeights[..])
    ensures Gained(sums[..], old(sums[..]), rows, rowSums.Length, RunGain(pixels, x, y, run, false))
    ensures Gained(weights[..], old(weights[..]), rows, rowSums.Length, RunGain(pixels, x, y, run, true))
  {
    var first, last := GatherRun(run.column, run.values, columnLists, pixelColumns, columnFirst, x, rowSums, rowWeights);
    if last < first {
      NothingGathered(pixels, x, y, run, false, rowSums[..], rows);
      NothingGathered(pixels, x, y, run, true, rowWeights[..], rows);
      NothingGained(sums[..], rows, rowSums.Length, RunGain(pixels, x, y, run, false));
      NothingGained(weights[..], rows, rowSums.Length, RunGain(pixels, x, y, run, true));
      return;
    }
    var entries := EntriesOf(rowLists, run.row - rowFirst);
    DistributeRow(entries, rows, sums, weights, rowSums, rowWeights, first, last);
    DistributedIsGain(pixels, x, y, run, false, sums[..], old(sums[..]), rows, entries, rowSums[..]);
    DistributedIsGain(pixels, x, y, run, true, weights[..], old(weights[..]), rows, entries, rowWeights[..]);
    ClearRange(rowSums, first, last);
    ClearRange(rowWeights, first, last);
  }

  lemma {:induction false} NothingGathered(pixels: (int, int) -> Sample, x: (int, int) -> real, y: (int, int) -> real, run: Run, mass: bool,
                                           buffer: seq<real>, rows: nat)
    requires AllZero(buffer) && Gathered(buffer, x, run.column, run.values, |run.values|, mass)
    requires forall k :: 0 <= k < |run.values| ==> run.values[k] == pixels(run.column + k, run.row)
    ensures forall i, j :: 0 <= i < rows && 0 <= j < |buffer| ==> RunGain(pixels, x, y, run, mass)(i, j) == 0.0
  {
    forall i, j | 0 <= i < rows && 0 <= j < |buffer| ensures RunGain(pixels, x, y, run, mass)(i, j) == 0.0 {
      RunTermsAre(pixels, x, y, run, i, j, mass);
      assert buffer[j] == 0.0;
    }
  }

  // ---------------------------------------------------------------- the pixels of a window

  /** All runs of one cell. */
  method VisitRuns(ghost pixels: (int, int) -> Sample, runs: seq<Run>, columnLists: Lists, ghost x: (int, int) -> real, columnFirst: int,
                   ghost pixelColumns: nat, rowLists: Lists, ghost y: (int, int) -> real, rowFirst: int, ghost pixelRows: nat,
                   ghost rows: nat, sums: array<real>, weights: array<real>, rowSums: array<real>, rowWeights: array<real>)
    requires forall n :: 0 <= n < |runs| ==> Within(pixels, runs[n], columnFirst, pixelColumns, rowFirst, pixelRows)
    requires Represents(columnLists, pixelColumns, columnFirst, rowSums.Length, x)
    requires Represents(rowLists, pixelRows, rowFirst, rows, y)
    requires sums != weights && sums != rowSums && sums != rowWeights && weights != rowSums && weights != rowWeights && rowSums != rowWeights
    requires rowSums.Length == rowWeights.Length && sums.Length == weights.Length == rows * rowSums.Length
    requires AllZero(rowSums[..]) && AllZero(rowWeights[..])
    modifies sums, weights, rowSums, rowWeights
    ensures AllZero(rowSums[..]) && AllZero(rowWeights[..])
    ensures Gained(sums[..], old(sums[..]), rows, rowSums.Length, RunsGain(pixels, x, y, runs, false))
    ensures Gained(weights[..], old(weights[..]), rows, rowSums.Length, RunsGain(pixels, x, y, runs, true))
  {
    NothingGained(sums[..], rows, rowSums.Length, RunsGain(pixels, x, y, [], false));
    NothingGained(weights[..], rows, rowSums.Length, RunsGain(pixels, x, y, [], true));
    var n := 0;
    while n < |runs|
      invariant 0 <= n <= |runs|
      invariant AllZero(rowSums[..]) && AllZero(rowWeights[..])
      invariant Gained(sums[..], old(sums[..]), rows, rowSums.Length, RunsGain(pixels, x, y, runs[..n], false))
      invariant Gained(weights[..], old(weights[..]), rows, rowSums.Length, RunsGain(pixels, x, y, runs[..n], true))
    {
      ghost var midSums, midWeights := sums[..], weights[..];
      VisitRun(pixels, runs[n], columnLists, x, columnFirst, pixelColumns, rowLists, y, rowFirst, pixelRows, rows,
               sums, weights, rowSums, rowWeights);
      OneMoreRun(pixels, x, y, runs, n, false, sums[..], midSums, old(sums[..]), rows, rowSums.Length);
      OneMoreRun(pixels, x, y, runs, n, true, weights[..], midWeights, old(weights[..]), rows, rowSums.Length);
      n := n + 1;
    }
    assert runs[..n] == runs;
  }

  lemma {:induction false} OneMoreRun(pixels: (int, int) -> Sample, x: (int, int) -> real, y: (int, int) -> real, runs: seq<Run>, n: nat, mass: bool,
                                      now: seq<real>, mid: seq<real>, was: seq<real>, rows: nat, columns: nat)
    requires n < |runs|
    requires Gained(mid, was, rows, columns, RunsGain(pixels, x, y, runs[..n], mass))
    requires Gained(now, mid, rows, columns, RunGain(pixels, x, y, runs[n], mass))
    ensures Gained(now, was, rows, columns, RunsGain(pixels, x, y, runs[..n + 1], mass))
  {
    assert runs[..n + 1] == runs[..n] + [runs[n]];
    forall i, j
      ensures RunsGain(pixels, x, y, runs[..n + 1], mass)(i, j)
              == RunsGain(pixels, x, y, runs[..n], mass)(i, j) + RunGain(pixels, x, y, runs[n], mass)(i, j)
    {
      assert runs[..n + 1][..n] == runs[..n];
    }
    GainedTwice(now, mid, was, rows, columns, RunsGain(pixels, x, y, runs[..n], mass),
                RunGain(pixels, x, y, runs[n], mass), RunsGain(pixels, x, y, runs[..n + 1], mass));
  }
}
