/**
 * What the area average means: no cell outside the candidate loops contributes, and all boxes
 * together weigh exactly the area of the valid pixel footprints inside the window.
 */
module AreaTheorems {
  import opened Numbers
  import opened RealSums
  import opened RasterWindow
  import opened AreaOverlap
  import opened AreaAccumulate
  import opened AreaAverage
  import opened AreaGrid
  import opened AreaCells

  // ---------------------------------------------------------------- candidate cells

  /** A pixel's footprint lies within half a pixel of its cell. */
  lemma FootprintWithin(pixel: int, n: int, half: real)
    requires 0 <= pixel < n && half >= 0.5 / n as real
    ensures (pixel as real - 0.5) / n as real >= -half
    ensures (pixel as real + 0.5) / n as real <= 1.0
    ensures (pixel as real + 0.5) / n as real == 1.0 - (n as real - 0.5 - pixel as real) / n as real
  {
    var m := n as real;
    assert (pixel as real - 0.5) / m == pixel as real / m - 0.5 / m;
    assert pixel as real / m >= 0.0;
    assert (pixel as real + 0.5) / m * m == pixel as real + 0.5 <= m;
    Cancel((pixel as real + 0.5) / m, 1.0, m);
    assert 1.0 - (m - 0.5 - pixel as real) / m == (m - (m - 0.5 - pixel as real)) / m;
  }

  /** The easternmost cell a pixel of which can overlap a box that ends at `east`, with `least` columns a cell. */
  function LastReached(east: real, least: nat): int
    requires least > 0
  {
    Ceil(east + 0.5 / least as real) - 1
  }

  /** The candidates go as far east as the pixels that can overlap box column j. */
  predicate Complete(lon: seq<real>, j: int, least: nat)
    requires |lon| >= 1 && least > 0
  {
    0 <= j < |lon| - 1 ==> LastReached(lon[j + 1], least) <= LastWest(lon)
  }

  /** Cells east or west of the candidates do not overlap box column j. */
  lemma {:induction false} NoColumnOutside(lon: seq<real>, w: int, width: nat, least: nat, column: int, j: int)
    requires |lon| >= 1 && Ascending(lon) && 0 < least <= width && 0 <= column < width
    requires w < FirstWest(lon) || (w > LastWest(lon) && Complete(lon, j, least))
    ensures ColumnOverlap(lon, j, PixelWest(w as real, column, width), PixelEast(w as real, column, width)) == 0.0
  {
    HalfAtMost(width, least);
    FootprintWithin(column, width, 0.5 / least as real);
    if w < FirstWest(lon) {
      assert (w + 1) as real <= lon[0];
      assert 0 <= j < |lon| - 1 ==> lon[0] <= lon[j];
    } else if 0 <= j < |lon| - 1 {
      assert w > LastReached(lon[j + 1], least);
      assert w as real >= lon[j + 1] + 0.5 / least as real;
    }
  }

  lemma HalfAtMost(width: nat, least: nat)
    requires width >= least > 0
    ensures 0.5 / width as real <= 0.5 / least as real
  {
    var half, most := 0.5 / width as real, 0.5 / least as real;
    assert half * width as real == 0.5 && most * least as real == 0.5;
    assert most * width as real >= most * least as real by {
      PositiveProduct(width as real - least as real, most);
      assert most * (width as real - least as real) == most * width as real - most * least as real;
    }
    Cancel(half, most, width as real);
  }

  lemma RowFootprint(s: int, row: int)
    requires 0 <= row < 3600
    ensures PixelSouth((s + 1) as real, row, 3600) >= s as real + MAX_HALF_LATITUDE
    ensures PixelNorth((s + 1) as real, row, 3600) <= (s + 1) as real + MAX_HALF_LATITUDE
  {
    var position := row as real;
    assert PixelSouth((s + 1) as real, row, 3600) == s as real + 1.0 - (position + 0.5) / 3600.0;
    assert PixelNorth((s + 1) as real, row, 3600) == s as real + 1.0 - (position - 0.5) / 3600.0;
  }

  /** Bands north or south of the candidates overlap no box. */
  lemma {:induction false} NoRowOutside(lat: seq<real>, s: int, row: int, i: int)
    requires |lat| >= 1 && Descending(lat) && 0 <= row < 3600 && -90 <= s < 90
    requires s < FirstSouth(lat) || s > LastSouth(lat)
    ensures RowOverlap(lat, i, PixelSouth((s + 1) as real, row, 3600), PixelNorth((s + 1) as real, row, 3600)) == 0.0
  {
    var south, north := lat[|lat| - 1], lat[0];
    RowFootprint(s, row);
    if s < FirstSouth(lat) {
      assert (s + 1) as real <= south - MAX_HALF_LATITUDE;
      assert 0 <= i < |lat| - 1 ==> lat[i + 1] >= south;
    } else {
      assert s as real >= north - MAX_HALF_LATITUDE;
      assert 0 <= i < |lat| - 1 ==> lat[i] <= north;
    }
  }

  lemma {:induction false} NoCellOutside(source: Source, least: nat, lon: seq<real>, lat: seq<real>, i: int, j: int, mass: bool, s: int, w: int)
    requires Glo30(source, least) && |lon| >= 1 && Ascending(lon) && |lat| >= 1 && Descending(lat) && -90 <= s < 90
    requires !(FirstSouth(lat) <= s <= LastSouth(lat)) || w < FirstWest(lon) || (w > LastWest(lon) && Complete(lon, j, least))
    ensures CellTerm(source, lon, lat, i, j, mass, s, w) == 0.0
  {
    if source(s, WrappedWest(w)).Loaded? {
      var raster := source(s, WrappedWest(w)).raster;
      var x, y := ColumnMap(lon, w as real, raster.width), RowMap(lat, (s + 1) as real, raster.height);
      var term := PixelTerm(PixelsOf(raster), x, y, i, j, mass);
      forall c, r | 0 <= c < raster.width && 0 <= r < raster.height ensures term(c, r) == 0.0 {
        if FirstSouth(lat) <= s <= LastSouth(lat) {
          NoColumnOutside(lon, w, raster.width, least, c, j);
        } else {
          NoRowOutside(lat, s, r, i);
        }
        TermVanishes(PixelsOf(raster), x, y, i, j, mass, c, r);
      }
      RectNarrow(term, 0, raster.width, 0, raster.height, 0, 0, 0, 0);
    }
  }

  /** No band of latitude outside the candidate bands contributes. */
  lemma {:induction false} NoOtherBandContributes(source: Source, least: nat, lon: seq<real>, lat: seq<real>, i: int, j: int, mass: bool, w0: int, w1: int)
    requires Glo30(source, least) && |lon| >= 1 && Ascending(lon) && |lat| >= 1 && Descending(lat)
    ensures PlainSum(source, lon, lat, i, j, mass, -90, 90, w0, w1)
            == PlainSum(source, lon, lat, i, j, mass, FirstSouth(lat), EndSouth(lat), w0, w1)
  {
    var bands := BandSum(source, lon, lat, i, j, mass, w0, w1);
    forall s | -90 <= s < 90 && !(FirstSouth(lat) <= s <= LastSouth(lat)) ensures bands(s) == 0.0 {
      var band := BandTerm(source, lon, lat, i, j, mass, s);
      forall w ensures band(w) == 0.0 {
        NoCellOutside(source, least, lon, lat, i, j, mass, s, w);
      }
      SumZero(band, w0, w1);
    }
    NarrowBands(bands, bands, FirstSouth(lat), LastSouth(lat) + 1);
  }

  lemma {:induction false} NarrowBands(wide: int -> real, narrow: int -> real, from: int, to: int)
    requires -90 <= from && to <= 90
    requires forall s :: -90 <= s < 90 ==> wide(s) == if from <= s < to then narrow(s) else 0.0
    ensures Sum(wide, -90, 90) == Sum(narrow, from, Max(from, to))
  {
    SumNarrow(wide, -90, from, to, 90);
    SumSame(wide, narrow, from, to);
  }

  lemma {:induction false} BandNarrows(source: Source, least: nat, lon: seq<real>, lat: seq<real>, i: int, j: int, mass: bool, s: int, w0: int, w1: int)
    requires Glo30(source, least) && |lon| >= 1 && Ascending(lon) && |lat| >= 1 && Descending(lat) && -90 <= s < 90
    requires w0 <= FirstWest(lon) && LastWest(lon) < w1 && Complete(lon, j, least)
    ensures var band := BandTerm(source, lon, lat, i, j, mass, s); Sum(band, w0, w1) == Sum(band, FirstWest(lon), LastWest(lon) + 1)
  {
    var band := BandTerm(source, lon, lat, i, j, mass, s);
    forall w | w < FirstWest(lon) || w > LastWest(lon) ensures band(w) == 0.0 {
      NoCellOutside(source, least, lon, lat, i, j, mass, s, w);
    }
    SumNarrow(band, w0, FirstWest(lon), LastWest(lon) + 1, w1);
  }

  /** No cell outside the candidate loops contributes to a box as far as the candidates go. */
  lemma {:induction false} NoOtherCellContributesIf(source: Source, least: nat, lon: seq<real>, lat: seq<real>, i: int, j: int, mass: bool, w0: int, w1: int)
    requires Glo30(source, least) && |lon| >= 1 && Ascending(lon) && |lat| >= 1 && Descending(lat)
    requires w0 <= FirstWest(lon) && LastWest(lon) < w1 && Complete(lon, j, least)
    ensures PlainSum(source, lon, lat, i, j, mass, -90, 90, w0, w1)
            == PlainSum(source, lon, lat, i, j, mass, FirstSouth(lat), EndSouth(lat), FirstWest(lon), LastWest(lon) + 1)
  {
    NoOtherBandContributes(source, least, lon, lat, i, j, mass, w0, w1);
    var wide := BandSum(source, lon, lat, i, j, mass, w0, w1);
    var narrow := BandSum(source, lon, lat, i, j, mass, FirstWest(lon), LastWest(lon) + 1);
    forall s | FirstSouth(lat) <= s < EndSouth(lat) ensures wide(s) == narrow(s) {
      BandNarrows(source, least, lon, lat, i, j, mass, s, w0, w1);
    }
    SumSame(wide, narrow, FirstSouth(lat), EndSouth(lat));
  }

  /** What accumulateAreaAverages returns are then the plain sums over every source pixel there is. */
  lemma {:induction false} SumsAreOverEverythingIf(result: seq<real>, source: Source, least: nat, lon: seq<real>, lat: seq<real>, mass: bool, w0: int, w1: int)
    requires Glo30(source, least) && |lon| >= 1 && Ascending(lon) && |lat| >= 1 && Descending(lat)
    requires w0 <= FirstWest(lon) && LastWest(lon) < w1 && AllComplete(lon, least)
    requires HoldsPlainSums(result, source, lon, lat, mass, FirstSouth(lat), EndSouth(lat), FirstWest(lon), LastWest(lon) + 1)
    ensures HoldsPlainSums(result, source, lon, lat, mass, -90, 90, w0, w1)
  {
    var rows, columns := |lat| - 1, |lon| - 1;
    forall i, j | 0 <= i < rows && 0 <= j < columns
      ensures 0 <= Cell(i, j, columns) < |result|
      ensures result[Cell(i, j, columns)] == PlainSum(source, lon, lat, i, j, mass, -90, 90, w0, w1)
    {
      ReachedInOrder(lon, j, least);
      NoOtherCellContributesIf(source, least, lon, lat, i, j, mass, w0, w1);
    }
  }

  /** The candidates reach as far as any pixel that overlaps the window. */
  predicate AllComplete(lon: seq<real>, least: nat)
    requires |lon| >= 1 && least > 0
  {
    LastReached(lon[|lon| - 1], least) <= LastWest(lon)
  }

  lemma ReachedInOrder(lon: seq<real>, j: int, least: nat)
    requires |lon| >= 1 && Ascending(lon) && least > 0 && AllComplete(lon, least)
    ensures Complete(lon, j, least)
  {
    assert 0 <= j < |lon| - 1 ==> lon[j + 1] <= lon[|lon| - 1];
  }

  /** With 600 columns or more a cell the candidates go far enough for every window. */
  lemma UsualColumnsReach(lon: seq<real>, least: nat)
    requires |lon| >= 1 && least >= USUAL_COLUMNS
    ensures AllComplete(lon, least)
  {
    HalfAtMost(least, USUAL_COLUMNS);
    assert LastReached(lon[|lon| - 1], least) as real < lon[|lon| - 1] + MAX_HALF_LONGITUDE;
  }

  /** With 600 columns or more no cell outside the candidate loops contributes to any box of any window. */
  lemma {:induction false} NoOtherCellContributes(source: Source, lon: seq<real>, lat: seq<real>, i: int, j: int, mass: bool, w0: int, w1: int)
    requires Glo30(source, USUAL_COLUMNS) && |lon| >= 1 && Ascending(lon) && |lat| >= 1 && Descending(lat)
    requires w0 <= FirstWest(lon) && LastWest(lon) < w1
    ensures PlainSum(source, lon, lat, i, j, mass, -90, 90, w0, w1)
            == PlainSum(source, lon, lat, i, j, mass, FirstSouth(lat), EndSouth(lat), FirstWest(lon), LastWest(lon) + 1)
  {
    UsualColumnsReach(lon, USUAL_COLUMNS);
    ReachedInOrder(lon, j, USUAL_COLUMNS);
    NoOtherCellContributesIf(source, USUAL_COLUMNS, lon, lat, i, j, mass, w0, w1);
  }

  /** With 600 columns or more what accumulateAreaAverages returns are the plain sums over every source pixel there is. */
  lemma {:induction false} SumsAreOverEverything(result: seq<real>, source: Source, lon: seq<real>, lat: seq<real>, mass: bool, w0: int, w1: int)
    requires Glo30(source, USUAL_COLUMNS) && |lon| >= 1 && Ascending(lon) && |lat| >= 1 && Descending(lat)
    requires w0 <= FirstWest(lon) && LastWest(lon) < w1
    requires HoldsPlainSums(result, source, lon, lat, mass, FirstSouth(lat), EndSouth(lat), FirstWest(lon), LastWest(lon) + 1)
    ensures HoldsPlainSums(result, source, lon, lat, mass, -90, 90, w0, w1)
  {
    UsualColumnsReach(lon, USUAL_COLUMNS);
    SumsAreOverEverythingIf(result, source, USUAL_COLUMNS, lon, lat, mass, w0, w1);
  }

  // ---------------------------------------------------------------- total weight

  /** What one pixel weighs in box (j, i). */
  ghost function PixelBoxes(pixels: (int, int) -> Sample, x: (int, int) -> real, y: (int, int) -> real): (int, int) -> (int, int) -> real {
    (c, r) => (j, i) => PixelTerm(pixels, x, y, i, j, true)(c, r)
  }

  /** A valid pixel weighs its share of the columns times its share of the rows. */
  ghost function PixelWeight(pixels: (int, int) -> Sample, across: int -> real, down: int -> real): (int, int) -> real {
    (c, r) => if pixels(c, r).None? then 0.0 else across(c) * down(r)
  }

  lemma BoxAt(pixels: (int, int) -> Sample, x: (int, int) -> real, y: (int, int) -> real, c: int, r: int, j: int, i: int)
    ensures PixelBoxes(pixels, x, y)(c, r)(j, i) == if pixels(c, r).None? then 0.0 else Boxes(x, c)(j) * Boxes(y, r)(i)
  {
    var mass := Counted(pixels(c, r), true);
    assert PixelBoxes(pixels, x, y)(c, r)(j, i) == PixelTerm(pixels, x, y, i, j, true)(c, r) == y(r, i) * (x(c, j) * mass);
    assert mass == if pixels(c, r).None? then 0.0 else 1.0;
  }

  lemma {:induction false} PixelWeighs(pixels: (int, int) -> Sample, x: (int, int) -> real, y: (int, int) -> real,
                                       across: int -> real, down: int -> real, c: int, r: int, columns: nat, rows: nat)
    requires across(c) == Sum(Boxes(x, c), 0, columns) && down(r) == Sum(Boxes(y, r), 0, rows)
    ensures RectSum(PixelBoxes(pixels, x, y)(c, r), 0, columns, 0, rows) == PixelWeight(pixels, across, down)(c, r)
  {
    var boxes := PixelBoxes(pixels, x, y)(c, r);
    forall j, i ensures boxes(j, i) == if pixels(c, r).None? then 0.0 else Boxes(x, c)(j) * Boxes(y, r)(i) {
      BoxAt(pixels, x, y, c, r, j, i);
    }
    if pixels(c, r).None? {
      RectNarrow(boxes, 0, columns, 0, rows, 0, 0, 0, 0);
    } else {
      RectProduct(Boxes(x, c), Boxes(y, r), boxes, 0, columns, 0, rows);
    }
  }

  /** All boxes together give the pixels of a raster the weight of their footprints. */
  lemma {:induction false} PixelsWeigh(pixels: (int, int) -> Sample, x: (int, int) -> real, y: (int, int) -> real,
                                       across: int -> real, down: int -> real, width: nat, height: nat, columns: nat, rows: nat,
                                       h: (int, int) -> real)
    requires forall c :: across(c) == Sum(Boxes(x, c), 0, columns)
    requires forall r :: down(r) == Sum(Boxes(y, r), 0, rows)
    requires forall j, i :: h(j, i) == RectSum(PixelTerm(pixels, x, y, i, j, true), 0, width, 0, height)
    ensures RectSum(h, 0, columns, 0, rows) == RectSum(PixelWeight(pixels, across, down), 0, width, 0, height)
  {
    var f, total := PixelBoxes(pixels, x, y), PixelWeight(pixels, across, down);
    forall j, i ensures h(j, i) == RectSum(Pick(f, j, i), 0, width, 0, height) {
      RectSame(Pick(f, j, i), PixelTerm(pixels, x, y, i, j, true), 0, width, 0, height);
    }
    forall c, r ensures total(c, r) == RectSum(f(c, r), 0, columns, 0, rows) {
      PixelWeighs(pixels, x, y, across, down, c, r, columns, rows);
    }
    RectRect(f, h, total, 0, width, 0, height, 0, columns, 0, rows);
  }

  /** How much of each pixel column lies inside the window, and of each pixel row. */
  ghost function ColumnShare(lon: seq<real>, cellWest: real, width: nat): int -> real
    requires |lon| >= 1 && width > 0
  {
    c => Overlap(PixelWest(cellWest, c, width), PixelEast(cellWest, c, width), lon[0], lon[|lon| - 1])
  }

  ghost function RowShare(lat: seq<real>, cellNorth: real, height: nat): int -> real
    requires |lat| >= 1 && height > 0
  {
    r => Overlap(PixelSouth(cellNorth, r, height), PixelNorth(cellNorth, r, height), lat[|lat| - 1], lat[0])
  }

  lemma PixelSpan(cell: real, pixel: int, n: nat)
    requires n > 0
    ensures PixelWest(cell, pixel, n) <= PixelEast(cell, pixel, n)
    ensures PixelSouth(cell, pixel, n) <= PixelNorth(cell, pixel, n)
  {
    assert (pixel as real + 0.5) / n as real == (pixel as real - 0.5) / n as real + 1.0 / n as real;
  }

  lemma {:induction false} ColumnShareTelescopes(lon: seq<real>, cellWest: real, width: nat, c: int)
    requires |lon| >= 1 && Ascending(lon) && width > 0
    ensures ColumnShare(lon, cellWest, width)(c) == Sum(Boxes(ColumnMap(lon, cellWest, width), c), 0, |lon| - 1)
  {
    var low, high := PixelWest(cellWest, c, width), PixelEast(cellWest, c, width);
    PixelSpan(cellWest, c, width);
    ColumnsTelescope(lon, low, high, |lon| - 1);
    SumSame(ColumnOverlaps(lon, low, high), Boxes(ColumnMap(lon, cellWest, width), c), 0, |lon| - 1);
  }

  lemma {:induction false} RowShareTelescopes(lat: seq<real>, cellNorth: real, height: nat, r: int)
    requires |lat| >= 1 && Descending(lat) && height > 0
    ensures RowShare(lat, cellNorth, height)(r) == Sum(Boxes(RowMap(lat, cellNorth, height), r), 0, |lat| - 1)
  {
    var low, high := PixelSouth(cellNorth, r, height), PixelNorth(cellNorth, r, height);
    PixelSpan(cellNorth, r, height);
    RowsTelescope(lat, low, high, |lat| - 1);
    SumSame(RowOverlaps(lat, low, high), Boxes(RowMap(lat, cellNorth, height), r), 0, |lat| - 1);
  }

  /** The area of the valid pixel footprints of one cell inside the window. */
  ghost function CellArea(source: Source, lon: seq<real>, lat: seq<real>, s: int, w: int): real
    requires ValidSource(source) && |lon| >= 1 && |lat| >= 1
  {
    match source(s, WrappedWest(w))
    case Loaded(raster) =>
      RectSum(PixelWeight(PixelsOf(raster), ColumnShare(lon, w as real, raster.width), RowShare(lat, (s + 1) as real, raster.height)),
              0, raster.width, 0, raster.height)
    case _ => 0.0
  }

  ghost function BandArea(source: Source, lon: seq<real>, lat: seq<real>, s: int): int -> real
    requires ValidSource(source) && |lon| >= 1 && |lat| >= 1
  {
    w => CellArea(source, lon, lat, s, w)
  }

  ghost function BandAreas(source: Source, lon: seq<real>, lat: seq<real>, w0: int, w1: int): int -> real
    requires ValidSource(source) && |lon| >= 1 && |lat| >= 1
  {
    s => Sum(BandArea(source, lon, lat, s), w0, w1)
  }

  /** The area of all valid pixel footprints of the cells [s0, s1) x [w0, w1) inside the window. */
  ghost function WindowArea(source: Source, lon: seq<real>, lat: seq<real>, s0: int, s1: int, w0: int, w1: int): real
    requires ValidSource(source) && |lon| >= 1 && |lat| >= 1
  {
    Sum(BandAreas(source, lon, lat, w0, w1), s0, s1)
  }

  ghost function WeightOf(source: Source, lon: seq<real>, lat: seq<real>, s0: int, s1: int, w0: int, w1: int): (int, int) -> real
    requires ValidSource(source)
  {
    (j, i) => PlainSum(source, lon, lat, i, j, true, s0, s1, w0, w1)
  }

  lemma {:induction false} CellWeighsItsArea(source: Source, lon: seq<real>, lat: seq<real>, s: int, w: int, h: (int, int) -> real)
    requires ValidSource(source) && |lon| >= 1 && Ascending(lon) && |lat| >= 1 && Descending(lat)
    requires forall j, i :: h(j, i) == CellTerm(source, lon, lat, i, j, true, s, w)
    ensures RectSum(h, 0, |lon| - 1, 0, |lat| - 1) == CellArea(source, lon, lat, s, w)
  {
    match source(s, WrappedWest(w))
    case Loaded(raster) => RasterWeighsItsArea(raster, lon, lat, s, w, h);
    case _ => RectNarrow(h, 0, |lon| - 1, 0, |lat| - 1, 0, 0, 0, 0);
  }

  lemma {:induction false} RasterWeighsItsArea(raster: Raster, lon: seq<real>, lat: seq<real>, s: int, w: int, h: (int, int) -> real)
    requires ValidRaster(raster) && |lon| >= 1 && Ascending(lon) && |lat| >= 1 && Descending(lat)
    requires forall j, i :: h(j, i) == RasterTerm(raster, lon, lat, i, j, true, s, w)
    ensures RectSum(h, 0, |lon| - 1, 0, |lat| - 1)
            == RectSum(PixelWeight(PixelsOf(raster), ColumnShare(lon, w as real, raster.width), RowShare(lat, (s + 1) as real, raster.height)),
                       0, raster.width, 0, raster.height)
  {
    var across, down := ColumnShare(lon, w as real, raster.width), RowShare(lat, (s + 1) as real, raster.height);
    var x, y := ColumnMap(lon, w as real, raster.width), RowMap(lat, (s + 1) as real, raster.height);
    forall c ensures across(c) == Sum(Boxes(x, c), 0, |lon| - 1) {
      ColumnShareTelescopes(lon, w as real, raster.width, c);
    }
    forall r ensures down(r) == Sum(Boxes(y, r), 0, |lat| - 1) {
      RowShareTelescopes(lat, (s + 1) as real, raster.height, r);
    }
    PixelsWeigh(PixelsOf(raster), x, y, across, down, raster.width, raster.height, |lon| - 1, |lat| - 1, h);
  }

  ghost function CellWeights(source: Source, lon: seq<real>, lat: seq<real>, s: int): int -> (int, int) -> real
    requires ValidSource(source)
  {
    w => (j, i) => CellTerm(source, lon, lat, i, j, true, s, w)
  }

  ghost function BandWeights(source: Source, lon: seq<real>, lat: seq<real>, w0: int, w1: int): int -> (int, int) -> real
    requires ValidSource(source)
  {
    s => (j, i) => BandSum(source, lon, lat, i, j, true, w0, w1)(s)
  }

  lemma {:induction false} BandWeighsItsArea(source: Source, lon: seq<real>, lat: seq<real>, s: int, w0: int, w1: int, h: (int, int) -> real)
    requires ValidSource(source) && |lon| >= 1 && Ascending(lon) && |lat| >= 1 && Descending(lat)
    requires forall j, i :: h(j, i) == BandSum(source, lon, lat, i, j, true, w0, w1)(s)
    ensures RectSum(h, 0, |lon| - 1, 0, |lat| - 1) == BandAreas(source, lon, lat, w0, w1)(s)
  {
    var g, area := CellWeights(source, lon, lat, s), BandArea(source, lon, lat, s);
    forall j, i ensures h(j, i) == Sum(Slice(g, j, i), w0, w1) {
      SumSame(Slice(g, j, i), BandTerm(source, lon, lat, i, j, true, s), w0, w1);
    }
    forall w ensures area(w) == RectSum(g(w), 0, |lon| - 1, 0, |lat| - 1) {
      CellWeighsItsArea(source, lon, lat, s, w, g(w));
    }
    RectSwap(g, h, area, w0, w1, 0, |lon| - 1, 0, |lat| - 1);
  }

  /** The weights of all boxes add up to the area of the valid pixel footprints inside the window. */
  lemma {:induction false} TotalWeightIsArea(source: Source, lon: seq<real>, lat: seq<real>, s0: int, s1: int, w0: int, w1: int)
    requires ValidSource(source) && |lon| >= 1 && Ascending(lon) && |lat| >= 1 && Descending(lat)
    ensures RectSum(WeightOf(source, lon, lat, s0, s1, w0, w1), 0, |lon| - 1, 0, |lat| - 1)
            == WindowArea(source, lon, lat, s0, s1, w0, w1)
  {
    var g, h := BandWeights(source, lon, lat, w0, w1), WeightOf(source, lon, lat, s0, s1, w0, w1);
    var areas := BandAreas(source, lon, lat, w0, w1);
    forall j, i ensures h(j, i) == Sum(Slice(g, j, i), s0, s1) {
      SumSame(Slice(g, j, i), BandSum(source, lon, lat, i, j, true, w0, w1), s0, s1);
    }
    forall s ensures areas(s) == RectSum(g(s), 0, |lon| - 1, 0, |lat| - 1) {
      BandWeighsItsArea(source, lon, lat, s, w0, w1, g(s));
    }
    RectSwap(g, h, areas, s0, s1, 0, |lon| - 1, 0, |lat| - 1);
  }
}
