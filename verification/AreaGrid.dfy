/**
 * The loops of accumulateAreaAverages over source cells and pixel windows, and the theorem that
 * nothing outside the computed windows and candidate cells contributes.
 */
module AreaGrid {
  import opened Numbers
  import opened RealSums
  import opened RasterWindow
  import opened AreaOverlap
  import opened AreaAverage

  // ---------------------------------------------------------------- sources

  datatype SourceCell = Missing | Broken | Loaded(raster: Raster)

  /** The raster of the cell with this south and wrapped west edge. */
  type Source = (int, int) -> SourceCell

  ghost predicate ValidSource(source: Source) {
    forall s, w :: source(s, w).Loaded? ==> ValidRaster(source(s, w).raster)
  }

  /** The columns of GLO-30 cells near the poles, and the least number that the half pixel in the code allows for. */
  const MIN_COLUMNS: int := 360
  const USUAL_COLUMNS: int := 600

  /** The shape of GLO-30 rasters, with at least so many columns a cell. */
  ghost predicate Glo30(source: Source, least: nat) {
    && least > 0 && ValidSource(source)
    && forall s, w :: source(s, w).Loaded? ==>
         source(s, w).raster.height == 3600 && least <= source(s, w).raster.width <= 3600
  }

  function WrappedWest(unwrapped: int): int {
    TruncatedRemainder(TruncatedRemainder(unwrapped + 180, 360) + 360, 360) - 180
  }

  /** The wrapped cell is the one cell of [-180, 180) a whole number of turns away. */
  lemma WrappedWestIs(unwrapped: int)
    ensures -180 <= WrappedWest(unwrapped) < 180
    ensures (WrappedWest(unwrapped) - unwrapped) % 360 == 0
  {
  }

  // ---------------------------------------------------------------- the specification

  /** What all pixels of one cell contribute to box (i, j). */
  ghost function CellTerm(source: Source, lon: seq<real>, lat: seq<real>, i: int, j: int, mass: bool, s: int, w: int): real
    requires ValidSource(source)
  {
    match source(s, WrappedWest(w))
    case Loaded(raster) => RasterTerm(raster, lon, lat, i, j, mass, s, w)
    case _ => 0.0
  }

  ghost function PixelsOf(raster: Raster): (int, int) -> Sample
    requires ValidRaster(raster)
  {
    (column, row) => Pixel(raster, column, row)
  }

  ghost function RasterTerm(raster: Raster, lon: seq<real>, lat: seq<real>, i: int, j: int, mass: bool, s: int, w: int): real
    requires ValidRaster(raster)
  {
    RectSum(PixelTerm(PixelsOf(raster), ColumnMap(lon, w as real, raster.width), RowMap(lat, (s + 1) as real, raster.height), i, j, mass),
            0, raster.width, 0, raster.height)
  }

  ghost function BandTerm(source: Source, lon: seq<real>, lat: seq<real>, i: int, j: int, mass: bool, s: int): int -> real
    requires ValidSource(source)
  {
    w => CellTerm(source, lon, lat, i, j, mass, s, w)
  }

  /** The cells [w0, w1) of one band of latitude. */
  ghost function BandSum(source: Source, lon: seq<real>, lat: seq<real>, i: int, j: int, mass: bool, w0: int, w1: int): int -> real
    requires ValidSource(source)
  {
    s => Sum(BandTerm(source, lon, lat, i, j, mass, s), w0, w1)
  }

  /** The plain sum over every pixel of the cells [s0, s1) x [w0, w1). */
  ghost function PlainSum(source: Source, lon: seq<real>, lat: seq<real>, i: int, j: int, mass: bool,
                          s0: int, s1: int, w0: int, w1: int): real
    requires ValidSource(source)
  {
    Sum(BandSum(source, lon, lat, i, j, mass, w0, w1), s0, s1)
  }

  // ---------------------------------------------------------------- pixel windows

  function ColumnFirst(lon: seq<real>, cellWest: real, width: nat): int
    requires |lon| >= 1
  {
    Max(0, Floor((lon[0] - cellWest) * width as real - 0.5) + 1)
  }

  function ColumnLast(lon: seq<real>, cellWest: real, width: nat): int
    requires |lon| >= 1
  {
    Min(width - 1, Ceil((lon[|lon| - 1] - cellWest) * width as real + 0.5) - 1)
  }

  function RowFirst(lat: seq<real>, cellNorth: real, height: nat): int
    requires |lat| >= 1
  {
    Max(0, Floor((cellNorth - lat[0]) * height as real - 0.5) + 1)
  }

  function RowLast(lat: seq<real>, cellNorth: real, height: nat): int
    requires |lat| >= 1
  {
    Min(height - 1, Ceil((cellNorth - lat[|lat| - 1]) * height as real + 0.5) - 1)
  }

  /** Dividing by the pixel count turns pixel positions into degrees. */
  lemma AtMostInDegrees(position: real, distance: real, n: real, scaled: real)
    requires n > 0.0 && scaled == distance * n && position <= scaled
    ensures position / n <= distance
  {
    var degrees := position / n;
    assert degrees * n == position;
    Cancel(degrees, distance, n);
  }

  lemma AtLeastInDegrees(position: real, distance: real, n: real, scaled: real)
    requires n > 0.0 && scaled == distance * n && position >= scaled
    ensures position / n >= distance
  {
    var degrees := position / n;
    assert degrees * n == position;
    Cancel(distance, degrees, n);
  }

  lemma Cancel(a: real, b: real, n: real)
    requires n > 0.0 && a * n <= b * n
    ensures a <= b
  {
    assert (a - b) * n == a * n - b * n;
    PositiveProduct(a - b, n);
  }

  lemma PositiveProduct(x: real, n: real)
    requires n > 0.0
    ensures x > 0.0 ==> x * n > 0.0
  {
  }

  lemma BeforeFirst(first: real, cell: real, n: real, pixel: int)
    requires n > 0.0 && pixel < Floor((first - cell) * n - 0.5) + 1
    ensures (pixel as real + 0.5) / n <= first - cell
  {
    var scaled := (first - cell) * n;
    assert pixel as real + 0.5 <= scaled;
    AtMostInDegrees(pixel as real + 0.5, first - cell, n, scaled);
  }

  lemma AfterLast(last: real, cell: real, n: real, pixel: int)
    requires n > 0.0 && pixel > Ceil((last - cell) * n + 0.5) - 1
    ensures (pixel as real - 0.5) / n >= last - cell
  {
    var scaled := (last - cell) * n;
    assert pixel as real - 0.5 >= scaled;
    AtLeastInDegrees(pixel as real - 0.5, last - cell, n, scaled);
  }

  /** Columns outside the computed range overlap no box. */
  lemma {:induction false} ColumnsOutside(lon: seq<real>, cellWest: real, width: nat, column: int, j: int)
    requires |lon| >= 1 && Ascending(lon) && width > 0
    requires 0 <= column < width && !(ColumnFirst(lon, cellWest, width) <= column <= ColumnLast(lon, cellWest, width))
    ensures ColumnOverlap(lon, j, PixelWest(cellWest, column, width), PixelEast(cellWest, column, width)) == 0.0
  {
    if column < ColumnFirst(lon, cellWest, width) {
      BeforeFirst(lon[0], cellWest, width as real, column);
      assert 0 <= j < |lon| - 1 ==> lon[0] <= lon[j];
    } else {
      AfterLast(lon[|lon| - 1], cellWest, width as real, column);
      assert 0 <= j < |lon| - 1 ==> lon[j + 1] <= lon[|lon| - 1];
    }
  }

  lemma {:induction false} RowsOutside(lat: seq<real>, cellNorth: real, height: nat, row: int, i: int)
    requires |lat| >= 1 && Descending(lat) && height > 0
    requires 0 <= row < height && !(RowFirst(lat, cellNorth, height) <= row <= RowLast(lat, cellNorth, height))
    ensures RowOverlap(lat, i, PixelSouth(cellNorth, row, height), PixelNorth(cellNorth, row, height)) == 0.0
  {
    if row < RowFirst(lat, cellNorth, height) {
      BeforeFirst(cellNorth, lat[0], height as real, row);
      assert 0 <= i < |lat| - 1 ==> lat[i] <= lat[0];
    } else {
      AfterLast(cellNorth, lat[|lat| - 1], height as real, row);
      assert 0 <= i < |lat| - 1 ==> lat[i + 1] >= lat[|lat| - 1];
    }
  }

  /** The window holds every pixel of the cell that contributes to some box. */
  lemma {:induction false} WindowIsEnough(raster: Raster, lon: seq<real>, lat: seq<real>, i: int, j: int, mass: bool, s: int, w: int)
    requires ValidRaster(raster) && |lon| >= 1 && Ascending(lon) && |lat| >= 1 && Descending(lat)
    ensures var term := PixelTerm(PixelsOf(raster), ColumnMap(lon, w as real, raster.width), RowMap(lat, (s + 1) as real, raster.height), i, j, mass);
            RasterTerm(raster, lon, lat, i, j, mass, s, w)
            == RectSum(term, ColumnFirst(lon, w as real, raster.width), ColumnLast(lon, w as real, raster.width) + 1,
                       RowFirst(lat, (s + 1) as real, raster.height), RowLast(lat, (s + 1) as real, raster.height) + 1)
  {
    var x, y := ColumnMap(lon, w as real, raster.width), RowMap(lat, (s + 1) as real, raster.height);
    var term := PixelTerm(PixelsOf(raster), x, y, i, j, mass);
    var c0, c1 := ColumnFirst(lon, w as real, raster.width), ColumnLast(lon, w as real, raster.width) + 1;
    var r0, r1 := RowFirst(lat, (s + 1) as real, raster.height), RowLast(lat, (s + 1) as real, raster.height) + 1;
    forall c, r | 0 <= c < raster.width && 0 <= r < raster.height && !(c0 <= c < c1 && r0 <= r < r1) ensures term(c, r) == 0.0 {
      if c0 <= c < c1 {
        RowsOutside(lat, (s + 1) as real, raster.height, r, i);
      } else {
        ColumnsOutside(lon, w as real, raster.width, c, j);
      }
      TermVanishes(PixelsOf(raster), x, y, i, j, mass, c, r);
    }
    RectNarrow(term, 0, raster.width, 0, raster.height, c0, c1, r0, r1);
  }

  lemma TermVanishes(pixels: (int, int) -> Sample, x: (int, int) -> real, y: (int, int) -> real, i: int, j: int, mass: bool, c: int, r: int)
    requires x(c, j) == 0.0 || y(r, i) == 0.0
    ensures PixelTerm(pixels, x, y, i, j, mass)(c, r) == 0.0
  {
  }
}
