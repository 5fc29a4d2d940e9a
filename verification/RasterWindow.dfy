/**
 * The block-wise window visit of src/lib/copernicus_terrain_provider.cpp: every pixel of a window
 * is visited exactly once, with the value the point sampler reads, for tiles and for strips.
 */
module RasterWindow {
  import opened Wrappers
  import opened Numbers
  import opened RealSums

  /** A stored sample; None is a NaN or an infinity. */
  type Sample = Option<real>

  datatype Layout = Tiled(tileWidth: nat, tileHeight: nat) | Stripped(rowsPerStrip: nat)

  /** `blocks` yields the decoded samples of a block, or None when it cannot be decoded. */
  datatype Raster = Raster(width: nat, height: nat, layout: Layout, blocks: int -> Option<seq<Sample>>)

  /** What opening a raster has checked. */
  predicate ValidRaster(raster: Raster) {
    && raster.width > 0 && raster.height > 0
    && match raster.layout
       case Tiled(w, h) => w > 0 && h > 0
       case Stripped(rows) => rows > 0
  }

  predicate ValidElevation(sample: Sample) {
    sample.Some? && -10000.0 < sample.value < 100000.0
  }

  /** Samples the point samplers reject as no-data read as None. */
  function Accepted(sample: Sample): Sample {
    if ValidElevation(sample) then sample else None
  }

  function SampleAt(block: Option<seq<Sample>>, offset: int): Sample {
    if block.None? || offset < 0 || offset >= |block.value| then None else Accepted(block.value[offset])
  }

  function BlockStart(position: int, size: int): int
    requires size > 0
  {
    position / size * size
  }

  /** libtiff numbers tiles row by row. */
  function TileIndex(raster: Raster, x: int, y: int): int
    requires ValidRaster(raster) && raster.layout.Tiled?
  {
    var across := (raster.width + raster.layout.tileWidth - 1) / raster.layout.tileWidth;
    y / raster.layout.tileHeight * across + x / raster.layout.tileWidth
  }

  /** The point sampler: tiledPixel or strippedPixel. */
  function Pixel(raster: Raster, column: int, row: int): Sample
    requires ValidRaster(raster)
  {
    if column < 0 || row < 0 || column >= raster.width || row >= raster.height then None
    else match raster.layout
      case Tiled(w, h) =>
        var x, y := BlockStart(column, w), BlockStart(row, h);
        SampleAt(raster.blocks(TileIndex(raster, x, y)), (row - y) * w + (column - x))
      case Stripped(rows) =>
        SampleAt(raster.blocks(row / rows), row % rows * raster.width + column)
  }

  /** The block of a pixel decodes and is long enough to hold it. */
  predicate Readable(raster: Raster, column: int, row: int)
    requires ValidRaster(raster)
  {
    match raster.layout
    case Tiled(w, h) =>
      var x, y := BlockStart(column, w), BlockStart(row, h);
      var block := raster.blocks(TileIndex(raster, x, y));
      block.Some? && 0 <= (row - y) * w + (column - x) < |block.value|
    case Stripped(rows) =>
      var block := raster.blocks(row / rows);
      block.Some? && 0 <= row % rows * raster.width + column < |block.value|
  }

  ghost predicate WindowReadable(raster: Raster, c0: int, c1: int, r0: int, r1: int)
    requires ValidRaster(raster)
  {
    forall c, r :: c0 <= c <= c1 && r0 <= r <= r1 ==> Readable(raster, c, r)
  }

  /** Consecutive pixels of one row. */
  datatype Run = Run(row: int, column: int, values: seq<Sample>)

  predicate Covers(run: Run, column: int, row: int) {
    row == run.row && run.column <= column < run.column + |run.values|
  }

  function Visits(runs: seq<Run>, column: int, row: int): nat
    decreases |runs|
  {
    if runs == [] then 0
    else Visits(runs[..|runs| - 1], column, row) + if Covers(runs[|runs| - 1], column, row) then 1 else 0
  }

  lemma VisitsPlus(runs: seq<Run>, run: Run, column: int, row: int)
    ensures Visits(runs + [run], column, row) == Visits(runs, column, row) + if Covers(run, column, row) then 1 else 0
  {
    assert (runs + [run])[..|runs|] == runs;
  }

  predicate Window(c0: int, c1: int, r0: int, r1: int, column: int, row: int) {
    c0 <= column <= c1 && r0 <= row <= r1
  }

  /** A run inside the window that holds what the point sampler reads. */
  ghost predicate FaithfulRun(raster: Raster, run: Run, c0: int, c1: int, r0: int, r1: int)
    requires ValidRaster(raster)
  {
    && |run.values| > 0
    && r0 <= run.row <= r1 && c0 <= run.column && run.column + |run.values| <= c1 + 1
    && forall k :: 0 <= k < |run.values| ==> run.values[k] == Pixel(raster, run.column + k, run.row)
  }

  ghost predicate Faithful(raster: Raster, runs: seq<Run>, c0: int, c1: int, r0: int, r1: int)
    requires ValidRaster(raster)
  {
    forall i :: 0 <= i < |runs| ==> FaithfulRun(raster, runs[i], c0, c1, r0, r1)
  }

  /** Consecutive samples of a block, the rejected ones as None; fails when the block is too short. */
  method CopyRun(block: seq<Sample>, offset: int, count: int) returns (ok: bool, run: seq<Sample>)
    ensures ok <==> count > 0 && 0 <= offset && offset + count <= |block|
    ensures ok ==> |run| == count && forall k :: 0 <= k < count ==> run[k] == SampleAt(Some(block), offset + k)
  {
    if count <= 0 || offset < 0 || offset + count > |block| {
      return false, [];
    }
    run := block[offset..offset + count];
    var i := 0;
    while i < |run|
      invariant 0 <= i <= |run| == count
      invariant forall k :: 0 <= k < i ==> run[k] == SampleAt(Some(block), offset + k)
      invariant forall k :: i <= k < count ==> run[k] == block[offset + k]
    {
      if !ValidElevation(run[i]) {
        run := run[i := None];
      }
      i := i + 1;
    }
    ok := true;
  }

  // ---------------------------------------------------------------- block arithmetic

  /** Positions from a block's start up to the next belong to that block. */
  lemma SameBlock(start: int, position: int, size: int)
    requires size > 0 && 0 <= start && BlockStart(start, size) == start && start <= position < start + size
    ensures BlockStart(position, size) == start
    ensures position / size == start / size
  {
    var q := start / size;
    assert start == q * size;
    assert position - start == position - q * size;
    QuotientIs(position, q, size);
  }

  lemma QuotientIs(position: int, q: int, size: int)
    requires size > 0 && q * size <= position < q * size + size
    ensures position / size == q
  {
    var d := position / size - q;
    assert position == position / size * size + position % size;
    assert d * size == (position / size) * size - q * size;
    OneStep(d, size);
  }

  lemma OneStep(d: int, size: int)
    requires size > 0
    ensures d >= 1 ==> d * size >= size
    ensures d <= -1 ==> d * size <= -size
  {
    assert d >= 1 ==> (d - 1) * size >= 0;
    assert d <= -1 ==> (d + 1) * size <= 0;
  }

  lemma StartIsAligned(position: int, size: int)
    requires size > 0 && position >= 0
    ensures 0 <= BlockStart(position, size) <= position < BlockStart(position, size) + size
    ensures BlockStart(BlockStart(position, size), size) == BlockStart(position, size)
  {
    var q := position / size;
    assert position == q * size + position % size;
    OneStep(q, size);
    QuotientIs(q * size, q, size);
  }

  lemma NextIsAligned(start: int, size: int)
    requires size > 0 && 0 <= start && BlockStart(start, size) == start
    ensures BlockStart(start + size, size) == start + size
  {
    var q := start / size;
    assert start + size == (q + 1) * size;
    QuotientIs(start + size, q + 1, size);
  }

  /** A run of a tile holds what the point sampler reads. */
  lemma {:induction false} TileRunIsFaithful(raster: Raster, x: int, y: int, run: Run, c0: int, c1: int, r0: int, r1: int)
    requires ValidRaster(raster) && raster.layout.Tiled?
    requires 0 <= c0 && c1 < raster.width && 0 <= r0 && r1 < raster.height
    requires 0 <= x && BlockStart(x, raster.layout.tileWidth) == x
    requires 0 <= y && BlockStart(y, raster.layout.tileHeight) == y
    requires |run.values| > 0 && r0 <= run.row <= r1 && y <= run.row < y + raster.layout.tileHeight
    requires c0 <= run.column && run.column + |run.values| <= c1 + 1
    requires x <= run.column && run.column + |run.values| <= x + raster.layout.tileWidth
    requires var block := raster.blocks(TileIndex(raster, x, y));
             forall k :: 0 <= k < |run.values| ==>
               run.values[k] == SampleAt(block, (run.row - y) * raster.layout.tileWidth + (run.column - x) + k)
    ensures FaithfulRun(raster, run, c0, c1, r0, r1)
  {
    SameBlock(y, run.row, raster.layout.tileHeight);
    forall k | 0 <= k < |run.values| ensures run.values[k] == Pixel(raster, run.column + k, run.row) {
      SameBlock(x, run.column + k, raster.layout.tileWidth);
    }
  }

  /** Whether a run of a tile can be copied is whether each of its pixels can be read. */
  lemma {:induction false} TileRunIsReadable(raster: Raster, x: int, y: int, row: int, first: int, last: int)
    requires ValidRaster(raster) && raster.layout.Tiled?
    requires 0 <= x && BlockStart(x, raster.layout.tileWidth) == x
    requires 0 <= y && BlockStart(y, raster.layout.tileHeight) == y
    requires y <= row < y + raster.layout.tileHeight
    requires x <= first <= last < x + raster.layout.tileWidth
    ensures var block := raster.blocks(TileIndex(raster, x, y));
            var offset := (row - y) * raster.layout.tileWidth + (first - x);
            (block.Some? && 0 <= offset && offset + (last - first + 1) <= |block.value|)
              <==> WindowReadable(raster, first, last, row, row)
  {
    var block := raster.blocks(TileIndex(raster, x, y));
    var base := (row - y) * raster.layout.tileWidth;
    SameBlock(y, row, raster.layout.tileHeight);
    forall c | first <= c <= last
      ensures Readable(raster, c, row) <==> block.Some? && 0 <= base + (c - x) < |block.value|
    {
      SameBlock(x, c, raster.layout.tileWidth);
    }
    assert WindowReadable(raster, first, last, row, row) ==> Readable(raster, first, row) && Readable(raster, last, row);
  }

  // ---------------------------------------------------------------- the visit

  lemma {:induction false} AppendRun(raster: Raster, runs: seq<Run>, run: Run, c0: int, c1: int, r0: int, r1: int)
    requires ValidRaster(raster) && Faithful(raster, runs, c0, c1, r0, r1) && FaithfulRun(raster, run, c0, c1, r0, r1)
    ensures Faithful(raster, runs + [run], c0, c1, r0, r1)
    ensures forall c, r :: Visits(runs + [run], c, r) == Visits(runs, c, r) + if Covers(run, c, r) then 1 else 0
  {
    forall c, r ensures Visits(runs + [run], c, r) == Visits(runs, c, r) + if Covers(run, c, r) then 1 else 0 {
      VisitsPlus(runs, run, c, r);
    }
  }

  /** Beyond what was visited before, each pixel of the window once more, and no other. */
  ghost predicate AddsWindow(before: seq<Run>, runs: seq<Run>, c0: int, c1: int, r0: int, r1: int) {
    forall c, r :: Visits(runs, c, r) == Visits(before, c, r) + (if Window(c0, c1, r0, r1, c, r) then 1 else 0)
  }

  ghost predicate VisitsOnce(runs: seq<Run>, c0: int, c1: int, r0: int, r1: int) {
    AddsWindow([], runs, c0, c1, r0, r1)
  }

  /** One tile: its rows inside the window, one run each. */
  method VisitTile(raster: Raster, x: int, y: int, c0: int, c1: int, r0: int, r1: int, before: seq<Run>)
    returns (ok: bool, runs: seq<Run>)
    requires ValidRaster(raster) && raster.layout.Tiled?
    requires 0 <= c0 <= c1 < raster.width && 0 <= r0 <= r1 < raster.height
    requires 0 <= x <= c1 && c0 < x + raster.layout.tileWidth && BlockStart(x, raster.layout.tileWidth) == x
    requires 0 <= y <= r1 && r0 < y + raster.layout.tileHeight && BlockStart(y, raster.layout.tileHeight) == y
    requires Faithful(raster, before, c0, c1, r0, r1)
    ensures ok ==> Faithful(raster, runs, c0, c1, r0, r1)
    ensures ok ==> AddsWindow(before, runs, Max(c0, x), Min(c1, x + raster.layout.tileWidth - 1),
                              Max(r0, y), Min(r1, y + raster.layout.tileHeight - 1))
    ensures ok <==> WindowReadable(raster, Max(c0, x), Min(c1, x + raster.layout.tileWidth - 1),
                                   Max(r0, y), Min(r1, y + raster.layout.tileHeight - 1))
  {
    runs := before;
    TileRunIsReadable(raster, x, y, Max(r0, y), Max(c0, x), Max(c0, x));
    var block := raster.blocks(TileIndex(raster, x, y));
    if block.None? {
      assert !Readable(raster, Max(c0, x), Max(r0, y));
      return false, runs;
    }
    var firstColumn := Max(c0, x);
    var lastColumn := Min(c1, x + raster.layout.tileWidth - 1);
    var lastRow := Min(r1, y + raster.layout.tileHeight - 1);
    var row := Max(r0, y);
    while row <= lastRow
      invariant Max(r0, y) <= row <= lastRow + 1
      invariant Faithful(raster, runs, c0, c1, r0, r1)
      invariant AddsWindow(before, runs, firstColumn, lastColumn, Max(r0, y), row - 1)
      invariant WindowReadable(raster, firstColumn, lastColumn, Max(r0, y), row - 1)
    {
      var offset := (row - y) * raster.layout.tileWidth + (firstColumn - x);
      var copied, values := CopyRun(block.value, offset, lastColumn - firstColumn + 1);
      TileRunIsReadable(raster, x, y, row, firstColumn, lastColumn);
      if !copied {
        return false, runs;
      }
      var run := Run(row, firstColumn, values);
      TileRunIsFaithful(raster, x, y, run, c0, c1, r0, r1);
      AppendRun(raster, runs, run, c0, c1, r0, r1);
      runs := runs + [run];
      row := row + 1;
    }
    ok := true;
  }

  /** One row of tiles, from the window's first tile column to its last. */
  method VisitTileRow(raster: Raster, y: int, c0: int, c1: int, r0: int, r1: int, before: seq<Run>)
    returns (ok: bool, runs: seq<Run>)
    requires ValidRaster(raster) && raster.layout.Tiled?
    requires 0 <= c0 <= c1 < raster.width && 0 <= r0 <= r1 < raster.height
    requires 0 <= y <= r1 && r0 < y + raster.layout.tileHeight && BlockStart(y, raster.layout.tileHeight) == y
    requires Faithful(raster, before, c0, c1, r0, r1)
    ensures ok ==> Faithful(raster, runs, c0, c1, r0, r1)
    ensures ok ==> AddsWindow(before, runs, c0, c1, Max(r0, y), Min(r1, y + raster.layout.tileHeight - 1))
    ensures ok <==> WindowReadable(raster, c0, c1, Max(r0, y), Min(r1, y + raster.layout.tileHeight - 1))
  {
    var width := raster.layout.tileWidth;
    runs := before;
    StartIsAligned(c0, width);
    var x := BlockStart(c0, width);
    while x <= c1
      invariant 0 <= x && BlockStart(x, width) == x && c0 < x + width
      invariant Faithful(raster, runs, c0, c1, r0, r1)
      invariant AddsWindow(before, runs, c0, Min(c1, x - 1), Max(r0, y), Min(r1, y + raster.layout.tileHeight - 1))
      invariant WindowReadable(raster, c0, Min(c1, x - 1), Max(r0, y), Min(r1, y + raster.layout.tileHeight - 1))
      decreases c1 - x
    {
      ok, runs := VisitTile(raster, x, y, c0, c1, r0, r1, runs);
      if !ok {
        return;
      }
      NextIsAligned(x, width);
      x := x + width;
    }
    ok := true;
  }

  method VisitTiled(raster: Raster, c0: int, c1: int, r0: int, r1: int) returns (ok: bool, runs: seq<Run>)
    requires ValidRaster(raster) && raster.layout.Tiled?
    requires 0 <= c0 <= c1 < raster.width && 0 <= r0 <= r1 < raster.height
    ensures ok ==> Faithful(raster, runs, c0, c1, r0, r1)
    ensures ok ==> VisitsOnce(runs, c0, c1, r0, r1)
    ensures ok <==> WindowReadable(raster, c0, c1, r0, r1)
  {
    var height := raster.layout.tileHeight;
    runs := [];
    StartIsAligned(r0, height);
    var y := BlockStart(r0, height);
    while y <= r1
      invariant 0 <= y && BlockStart(y, height) == y && r0 < y + height
      invariant Faithful(raster, runs, c0, c1, r0, r1)
      invariant VisitsOnce(runs, c0, c1, r0, Min(r1, y - 1))
      invariant WindowReadable(raster, c0, c1, r0, Min(r1, y - 1))
      decreases r1 - y
    {
      ok, runs := VisitTileRow(raster, y, c0, c1, r0, r1, runs);
      if !ok {
        return;
      }
      NextIsAligned(y, height);
      y := y + height;
    }
    ok := true;
  }

  method VisitStripped(raster: Raster, c0: int, c1: int, r0: int, r1: int) returns (ok: bool, runs: seq<Run>)
    requires ValidRaster(raster) && raster.layout.Stripped?
    requires 0 <= c0 <= c1 < raster.width && 0 <= r0 <= r1 < raster.height
    ensures ok ==> Faithful(raster, runs, c0, c1, r0, r1)
    ensures ok ==> VisitsOnce(runs, c0, c1, r0, r1)
    ensures ok <==> WindowReadable(raster, c0, c1, r0, r1)
  {
    var rows := raster.layout.rowsPerStrip;
    runs := [];
    var row := r0;
    while row <= r1
      invariant r0 <= row <= r1 + 1
      invariant Faithful(raster, runs, c0, c1, r0, r1)
      invariant VisitsOnce(runs, c0, c1, r0, row - 1)
      invariant WindowReadable(raster, c0, c1, r0, row - 1)
    {
      assert WindowReadable(raster, c0, c1, r0, r1) ==> Readable(raster, c0, row) && Readable(raster, c1, row);
      var block := raster.blocks(row / rows);
      if block.None? {
        return false, runs;
      }
      var copied, values := CopyRun(block.value, row % rows * raster.width + c0, c1 - c0 + 1);
      if !copied {
        return false, runs;
      }
      var run := Run(row, c0, values);
      assert forall k :: 0 <= k < |values| ==> values[k] == Pixel(raster, c0 + k, row);
      AppendRun(raster, runs, run, c0, c1, r0, r1);
      runs := runs + [run];
      row := row + 1;
    }
    ok := true;
  }

  predicate WindowInside(raster: Raster, c0: int, c1: int, r0: int, r1: int) {
    0 <= c0 <= c1 < raster.width && 0 <= r0 <= r1 < raster.height
  }

  /**
   * Each pixel of a window is visited exactly once, with the value the point sampler reads, and
   * nothing else is visited. A window that is empty or leaves the raster is not visited at all.
   */
  method VisitWindow(raster: Raster, c0: int, c1: int, r0: int, r1: int) returns (ok: bool, runs: seq<Run>)
    requires ValidRaster(raster)
    ensures ok ==> Faithful(raster, runs, c0, c1, r0, r1)
    ensures if WindowInside(raster, c0, c1, r0, r1) then ok ==> VisitsOnce(runs, c0, c1, r0, r1) else ok && runs == []
    ensures WindowInside(raster, c0, c1, r0, r1) ==> (ok <==> WindowReadable(raster, c0, c1, r0, r1))
  {
    if c0 < 0 || r0 < 0 || c1 >= raster.width || r1 >= raster.height || c0 > c1 || r0 > r1 {
      return true, [];
    }
    match raster.layout {
      case Tiled(_, _) => ok, runs := VisitTiled(raster, c0, c1, r0, r1);
      case Stripped(_) => ok, runs := VisitStripped(raster, c0, c1, r0, r1);
    }
  }

  // ---------------------------------------------------------------- sums over a visit

  /** What a visitor adds up that adds f(c, r) for each pixel of a run. */
  ghost function RunSum(run: Run, f: (int, int) -> real): real {
    Sum(At(f, run.row), run.column, run.column + |run.values|)
  }

  ghost function RunsSum(runs: seq<Run>, f: (int, int) -> real): real
    decreases |runs|
  {
    if runs == [] then 0.0 else RunsSum(runs[..|runs| - 1], f) + RunSum(runs[|runs| - 1], f)
  }

  ghost function Weighted(runs: seq<Run>, f: (int, int) -> real): (int, int) -> real {
    (c, r) => Visits(runs, c, r) as real * f(c, r)
  }

  ghost function Only(run: Run, f: (int, int) -> real): (int, int) -> real {
    (c, r) => if Covers(run, c, r) then f(c, r) else 0.0
  }

  /** One run, seen as part of a rectangle that contains it. */
  lemma {:induction false} RunAsRect(run: Run, f: (int, int) -> real, c0: int, c1: int, r0: int, r1: int)
    requires r0 <= run.row <= r1 && c0 <= run.column && run.column + |run.values| <= c1 + 1
    ensures RectSum(Only(run, f), c0, c1 + 1, r0, r1 + 1) == RunSum(run, f)
  {
    var only := Only(run, f);
    var end := run.column + |run.values|;
    forall c, r ensures only(c, r) == if Covers(run, c, r) then f(c, r) else 0.0 {
    }
    RectNarrow(only, c0, c1 + 1, r0, r1 + 1, run.column, end, run.row, run.row + 1);
    forall c | run.column <= c < end ensures At(only, run.row)(c) == At(f, run.row)(c) {
    }
    SumSame(At(only, run.row), At(f, run.row), run.column, end);
    var row := RowOf(only, run.column, end);
    assert Sum(row, run.row, run.row + 1) == Sum(row, run.row, run.row) + row(run.row);
  }

  /** However the window was cut into runs, their sums make the sum over the window. */
  lemma {:induction false} RunsSumIsVisits(raster: Raster, runs: seq<Run>, f: (int, int) -> real, c0: int, c1: int, r0: int, r1: int)
    requires ValidRaster(raster) && Faithful(raster, runs, c0, c1, r0, r1)
    ensures RunsSum(runs, f) == RectSum(Weighted(runs, f), c0, c1 + 1, r0, r1 + 1)
    decreases |runs|
  {
    var all := Weighted(runs, f);
    if runs == [] {
      forall c, r ensures all(c, r) == 0.0 * all(c, r) {
        assert all(c, r) == Visits(runs, c, r) as real * f(c, r);
      }
      RectTimes(all, 0.0, all, c0, c1 + 1, r0, r1 + 1);
    } else {
      var rest, last := runs[..|runs| - 1], runs[|runs| - 1];
      RunsSumIsVisits(raster, rest, f, c0, c1, r0, r1);
      assert FaithfulRun(raster, last, c0, c1, r0, r1);
      RunAsRect(last, f, c0, c1, r0, r1);
      forall c, r ensures all(c, r) == Weighted(rest, f)(c, r) + Only(last, f)(c, r) {
        assert Visits(runs, c, r) == Visits(rest, c, r) + if Covers(last, c, r) then 1 else 0;
      }
      RectPlus(Weighted(rest, f), Only(last, f), all, c0, c1 + 1, r0, r1 + 1);
    }
  }

  lemma {:induction false} VisitSum(raster: Raster, runs: seq<Run>, f: (int, int) -> real, c0: int, c1: int, r0: int, r1: int)
    requires ValidRaster(raster) && Faithful(raster, runs, c0, c1, r0, r1)
    requires VisitsOnce(runs, c0, c1, r0, r1)
    ensures RunsSum(runs, f) == RectSum(f, c0, c1 + 1, r0, r1 + 1)
  {
    RunsSumIsVisits(raster, runs, f, c0, c1, r0, r1);
    forall c, r | c0 <= c < c1 + 1 && r0 <= r < r1 + 1 ensures Weighted(runs, f)(c, r) == f(c, r) {
      assert Visits(runs, c, r) == 1;
    }
    RectSame(Weighted(runs, f), f, c0, c1 + 1, r0, r1 + 1);
  }
}
