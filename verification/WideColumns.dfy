/**
 * How far east the candidate cells of accumulateAreaAverages have to go. The half pixel they allow for is
 * that of 600 columns a cell; GLO-30 has 360 near the poles, and there a cell can be left out.
 */
module WideColumns {
  import opened Wrappers
  import opened Numbers
  import opened RealSums
  import opened RasterWindow
  import opened AreaOverlap
  import opened AreaAverage
  import opened AreaGrid
  import opened AreaCells
  import opened AreaTheorems
  import opened FlatRasters

  lemma HalfAbove(width: nat)
    requires 0 < width < 600
    ensures MAX_HALF_LONGITUDE < 0.5 / width as real <= 0.5
  {
    var half := 0.5 / width as real;
    assert half * width as real == 0.5;
    PositiveProduct(600.0 - width as real, MAX_HALF_LONGITUDE);
    Above(half, width as real);
    HalfAtMost(width, 1);
  }

  lemma Above(half: real, width: real)
    requires width > 0.0 && half * width == 0.5 && width < 600.0
    ensures half > MAX_HALF_LONGITUDE
  {
    SameOrder(MAX_HALF_LONGITUDE, half, width);
  }

  lemma SameOrder(a: real, b: real, n: real)
    requires n > 0.0
    ensures a < b <==> a * n < b * n
  {
    if a < b {
      assert (b - a) * n > 0.0;
    } else {
      assert (a - b) * n >= 0.0;
    }
  }

  /** A window that ends 4 arc seconds before cell 1: its first pixel column, 5 arc seconds to each side, is left out. */
  lemma WideColumnIsMissed(lon: seq<real>)
    requires lon == [0.5, 1.0 - 4.0 / 3600.0]
    ensures LastWest(lon) == 0 && ColumnOverlap(lon, 0, PixelWest(1.0, 0, MIN_COLUMNS), PixelEast(1.0, 0, MIN_COLUMNS)) > 0.0
  {
  }

  // ---------------------------------------------------------------- what is left out

  lemma {:induction false} TermIsNatural(raster: Raster, lon: seq<real>, lat: seq<real>, i: int, j: int, s: int, w: int, c: int, r: int)
    requires ValidRaster(raster)
    ensures PixelTerm(PixelsOf(raster), ColumnMap(lon, w as real, raster.width), RowMap(lat, (s + 1) as real, raster.height), i, j, true)(c, r) >= 0.0
  {
    var x, y := ColumnMap(lon, w as real, raster.width), RowMap(lat, (s + 1) as real, raster.height);
    TermOf(PixelsOf(raster), x, y, i, j, c, r);
    NaturalProduct(x(c, j), y(r, i));
  }

  lemma TermOf(pixels: (int, int) -> Sample, x: (int, int) -> real, y: (int, int) -> real, i: int, j: int, c: int, r: int)
    ensures PixelTerm(pixels, x, y, i, j, true)(c, r) == y(r, i) * (x(c, j) * (if pixels(c, r).None? then 0.0 else 1.0))
  {
  }

  lemma NaturalProduct(x: real, y: real)
    requires x >= 0.0 && y >= 0.0
    ensures y * (x * 1.0) >= 0.0 && y * (x * 0.0) >= 0.0
  {
  }

  lemma TermIsPositive(pixels: (int, int) -> Sample, x: (int, int) -> real, y: (int, int) -> real, i: int, j: int, c: int, r: int)
    requires pixels(c, r).Some? && x(c, j) > 0.0 && y(r, i) > 0.0
    ensures PixelTerm(pixels, x, y, i, j, true)(c, r) > 0.0
  {
    TermOf(pixels, x, y, i, j, c, r);
    PositiveTerm(x(c, j), y(r, i));
  }

  lemma PositiveTerm(x: real, y: real)
    requires x > 0.0 && y > 0.0
    ensures y * (x * 1.0) > 0.0
  {
  }

  lemma {:induction false} CellIsNatural(source: Source, lon: seq<real>, lat: seq<real>, i: int, j: int, s: int, w: int)
    requires ValidSource(source)
    ensures CellTerm(source, lon, lat, i, j, true, s, w) >= 0.0
  {
    if source(s, WrappedWest(w)).Loaded? {
      var raster := source(s, WrappedWest(w)).raster;
      var term := PixelTerm(PixelsOf(raster), ColumnMap(lon, w as real, raster.width), RowMap(lat, (s + 1) as real, raster.height), i, j, true);
      forall c, r ensures term(c, r) >= 0.0 {
        TermIsNatural(raster, lon, lat, i, j, s, w, c, r);
      }
      RectNatural(term, 0, raster.width, 0, raster.height);
    }
  }

  /** The band and the pixel row that a latitude lies in. */
  lemma RowAt(north: real) returns (s: int, r: int)
    requires -90.0 < north - 1.0 / 7200.0 && north <= 90.0
    ensures -90 <= s < 90 && 0 <= r < 3600
    ensures PixelSouth((s + 1) as real, r, 3600) < north <= PixelNorth((s + 1) as real, r, 3600)
  {
    s := Ceil(north - 1.0 / 7200.0) - 1;
    var position := ((s + 1) as real - north) * 3600.0;
    r := Floor(position + 0.5);
  }

  lemma ColumnReaches(least: nat, lon: seq<real>, j: int, n: int)
    requires least > 0 && 0 <= j < |lon| - 1 && lon[j] < lon[j + 1] && n as real - 0.5 / least as real < lon[j + 1] && lon[j] < n as real
    ensures ColumnMap(lon, n as real, least)(0, j) > 0.0
  {
  }

  lemma RowReaches(lat: seq<real>, i: int, s: int, r: int)
    requires 0 <= i < |lat| - 1 && lat[i + 1] < lat[i] && 0 <= r < 3600
    requires PixelSouth((s + 1) as real, r, 3600) < lat[i] <= PixelNorth((s + 1) as real, r, 3600)
    ensures RowMap(lat, (s + 1) as real, 3600)(r, i) > 0.0
  {
  }

  lemma {:induction false} FlatWeighs(least: nat, lon: seq<real>, lat: seq<real>, i: int, j: int, s: int, r: int, n: int, raster: Raster)
    requires least > 0 && raster == Flat(least, 1.0) && ValidRaster(raster) && 0 <= r < 3600
    requires ColumnMap(lon, n as real, least)(0, j) > 0.0 && RowMap(lat, (s + 1) as real, 3600)(r, i) > 0.0
    ensures RasterTerm(raster, lon, lat, i, j, true, s, n) > 0.0
  {
    var x, y := ColumnMap(lon, n as real, least), RowMap(lat, (s + 1) as real, 3600);
    var term := PixelTerm(PixelsOf(raster), x, y, i, j, true);
    FlatPixel(least, 1.0, 0, r);
    assert PixelsOf(raster)(0, r) == Some(1.0);
    TermIsPositive(PixelsOf(raster), x, y, i, j, 0, r);
    forall c, r ensures term(c, r) >= 0.0 {
      TermIsNatural(raster, lon, lat, i, j, s, n, c, r);
    }
    RectPositive(term, 0, least, 0, 3600, 0, r);
  }

  /** A box reached by the first pixel column of a cell has weight from it. */
  lemma {:induction false} FirstColumnWeighs(least: nat, lon: seq<real>, lat: seq<real>, i: int, j: int, n: int, source: Source) returns (s: int)
    requires least > 0 && source == OnlyAt(least, WrappedWest(n)) && ValidSource(source)
    requires 0 <= j < |lon| - 1 && 0 <= i < |lat| - 1 && lon[j] < lon[j + 1] && lat[i + 1] < lat[i]
    requires n as real - 0.5 / least as real < lon[j + 1] && lon[j] < n as real
    requires -89.0 < lat[i] <= 90.0
    ensures -90 <= s < 90 && CellTerm(source, lon, lat, i, j, true, s, n) > 0.0
  {
    var r;
    s, r := RowAt(lat[i]);
    ColumnReaches(least, lon, j, n);
    RowReaches(lat, i, s, r);
    assert source(s, WrappedWest(n)) == Loaded(Flat(least, 1.0));
    FlatWeighs(least, lon, lat, i, j, s, r, n, Flat(least, 1.0));
  }

  /** A box gets from the candidates what it gets from all cells [w0, w1). */
  ghost predicate Suffices(source: Source, lon: seq<real>, lat: seq<real>, i: int, j: int, mass: bool, w0: int, w1: int)
    requires ValidSource(source) && |lon| >= 1 && |lat| >= 1
  {
    PlainSum(source, lon, lat, i, j, mass, -90, 90, w0, w1)
    == PlainSum(source, lon, lat, i, j, mass, FirstSouth(lat), EndSouth(lat), FirstWest(lon), LastWest(lon) + 1)
  }

  /** Every box of the window gets all it should, whatever GLO-30 source there is with so many columns a cell. */
  ghost predicate CandidatesSuffice(least: nat, lon: seq<real>, lat: seq<real>)
    requires |lon| >= 1 && |lat| >= 1
  {
    forall source: Source, i, j, mass, w0, w1 :: Glo30(source, least) && w0 <= FirstWest(lon) && LastWest(lon) < w1 ==>
      Suffices(source, lon, lat, i, j, mass, w0, w1)
  }

  /** Cells beyond the candidates add to the weight of a box that their pixels reach. */
  lemma {:induction false} MissedWeight(least: nat, lon: seq<real>, lat: seq<real>, i: int, j: int, n: int, source: Source, w0: int, mid: int)
    requires |lon| >= 1 && Ascending(lon) && |lat| >= 1 && Descending(lat)
    requires source == OnlyAt(least, WrappedWest(n)) && Glo30(source, least) && w0 <= mid <= n
    requires 0 <= j < |lon| - 1 && 0 <= i < |lat| - 1 && lon[j] < lon[j + 1] < n as real && lat[i + 1] < lat[i]
    requires n as real - 0.5 / least as real < lon[j + 1] && -89.0 < lat[i] <= 90.0
    ensures PlainSum(source, lon, lat, i, j, true, -90, 90, w0, n + 1)
            > PlainSum(source, lon, lat, i, j, true, FirstSouth(lat), EndSouth(lat), w0, mid)
  {
    OneMoreCellWeighs(least, lon, lat, i, j, n, source, w0, mid);
    NoOtherBandContributes(source, least, lon, lat, i, j, true, w0, mid);
  }

  lemma {:induction false} OneMoreCellWeighs(least: nat, lon: seq<real>, lat: seq<real>, i: int, j: int, n: int, source: Source, w0: int, mid: int)
    requires least > 0 && source == OnlyAt(least, WrappedWest(n)) && ValidSource(source) && w0 <= mid <= n
    requires 0 <= j < |lon| - 1 && 0 <= i < |lat| - 1 && lon[j] < lon[j + 1] && lat[i + 1] < lat[i]
    requires n as real - 0.5 / least as real < lon[j + 1] && lon[j] < n as real
    requires -89.0 < lat[i] <= 90.0
    ensures PlainSum(source, lon, lat, i, j, true, -90, 90, w0, n + 1) > PlainSum(source, lon, lat, i, j, true, -90, 90, w0, mid)
  {
    var band := FirstColumnWeighs(least, lon, lat, i, j, n, source);
    RestWeighs(lon, lat, i, j, n, source, w0, mid, n + 1, band);
  }

  lemma {:induction false} RestWeighs(lon: seq<real>, lat: seq<real>, i: int, j: int, n: int, source: Source, w0: int, mid: int, w1: int, band: int)
    requires ValidSource(source) && w0 <= mid <= n < w1 && -90 <= band < 90
    requires CellTerm(source, lon, lat, i, j, true, band, n) > 0.0
    ensures PlainSum(source, lon, lat, i, j, true, -90, 90, w0, w1) > PlainSum(source, lon, lat, i, j, true, -90, 90, w0, mid)
  {
    var wide, narrow, rest := BandSum(source, lon, lat, i, j, true, w0, w1), BandSum(source, lon, lat, i, j, true, w0, mid),
                              BandSum(source, lon, lat, i, j, true, mid, w1);
    forall s ensures wide(s) == narrow(s) + rest(s) && rest(s) >= 0.0 && (s == band ==> rest(s) > 0.0) {
      BandSplits(lon, lat, i, j, n, source, w0, mid, w1, s);
    }
    SumPlus(narrow, rest, wide, -90, 90);
    SumPositive(rest, -90, 90, band);
  }

  lemma {:induction false} BandSplits(lon: seq<real>, lat: seq<real>, i: int, j: int, n: int, source: Source, w0: int, mid: int, w1: int, s: int)
    requires ValidSource(source) && w0 <= mid <= n < w1
    ensures var cells := BandTerm(source, lon, lat, i, j, true, s);
      && Sum(cells, w0, w1) == Sum(cells, w0, mid) + Sum(cells, mid, w1) && Sum(cells, mid, w1) >= 0.0
      && (cells(n) > 0.0 ==> Sum(cells, mid, w1) > 0.0)
  {
    var cells := BandTerm(source, lon, lat, i, j, true, s);
    SumSplit(cells, w0, mid, w1);
    forall w ensures cells(w) >= 0.0 {
      CellIsNatural(source, lon, lat, i, j, s, w);
    }
    SumNatural(cells, mid, w1);
    if cells(n) > 0.0 {
      SumPositive(cells, mid, w1, n);
    }
  }

  lemma LastIsReached(least: nat, lon: seq<real>, n: int)
    requires least > 0 && |lon| >= 1 && Ascending(lon) && n == LastReached(lon[|lon| - 1], least) && n > LastWest(lon)
    ensures FirstWest(lon) <= LastWest(lon) + 1 <= n && n as real - 0.5 / least as real < lon[|lon| - 1] < n as real
  {
    assert lon[0] <= lon[|lon| - 1];
  }

  lemma {:induction false} LastCellWeighs(least: nat, lon: seq<real>, lat: seq<real>, i: int, j: int, n: int, source: Source)
    requires least > 0 && |lon| >= 2 && Ascending(lon) && j == |lon| - 2 && lon[j] < lon[j + 1]
    requires i == 0 && |lat| >= 2 && Descending(lat) && lat[1] < lat[0] && -89.0 < lat[0] <= 90.0
    requires n == LastReached(lon[j + 1], least) && n > LastWest(lon)
    requires source == OnlyAt(least, WrappedWest(n)) && Glo30(source, least)
    ensures PlainSum(source, lon, lat, i, j, true, -90, 90, FirstWest(lon), n + 1)
            > PlainSum(source, lon, lat, i, j, true, FirstSouth(lat), EndSouth(lat), FirstWest(lon), LastWest(lon) + 1)
  {
    LastIsReached(least, lon, n);
    MissedWeight(least, lon, lat, i, j, n, source, FirstWest(lon), LastWest(lon) + 1);
  }

  lemma {:induction false} NotAllSuffice(least: nat, lon: seq<real>, lat: seq<real>, i: int, j: int, n: int, source: Source)
    requires least > 0 && |lon| >= 2 && Ascending(lon) && j == |lon| - 2 && lon[j] < lon[j + 1]
    requires i == 0 && |lat| >= 2 && Descending(lat) && lat[1] < lat[0] && -89.0 < lat[0] <= 90.0
    requires n == LastReached(lon[j + 1], least) && n > LastWest(lon)
    requires source == OnlyAt(least, WrappedWest(n)) && Glo30(source, least)
    ensures !Suffices(source, lon, lat, i, j, true, FirstWest(lon), n + 1)
  {
    LastCellWeighs(least, lon, lat, i, j, n, source);
  }

  /** The candidates suffice for a window if and only if they go as far east as the widest pixel that overlaps it. */
  lemma {:induction false} CandidatesSufficeIff(least: nat, lon: seq<real>, lat: seq<real>)
    requires 0 < least <= 3600
    requires |lon| >= 2 && Ascending(lon) && lon[|lon| - 2] < lon[|lon| - 1]
    requires |lat| >= 2 && Descending(lat) && lat[1] < lat[0] && -89.0 < lat[0] <= 90.0
    ensures CandidatesSuffice(least, lon, lat) <==> AllComplete(lon, least)
  {
    if AllComplete(lon, least) {
      forall source: Source, i, j, mass, w0, w1 | Glo30(source, least) && w0 <= FirstWest(lon) && LastWest(lon) < w1
        ensures Suffices(source, lon, lat, i, j, mass, w0, w1)
      {
        ReachedInOrder(lon, j, least);
        NoOtherCellContributesIf(source, least, lon, lat, i, j, mass, w0, w1);
      }
    } else {
      var i, j, n := 0, |lon| - 2, LastReached(lon[|lon| - 1], least);
      var source := OnlyAt(least, WrappedWest(n));
      OnlyAtIsGlo30(least, WrappedWest(n));
      NotAllSuffice(least, lon, lat, i, j, n, source);
      LastIsReached(least, lon, n);
      assert Glo30(source, least) && !Suffices(source, lon, lat, i, j, true, FirstWest(lon), n + 1);
    }
  }

  /** With at least this many columns a cell, the candidates suffice for every window. */
  ghost predicate WidthIsEnough(least: nat) {
    forall lon: seq<real>, lat: seq<real> :: |lon| >= 1 && Ascending(lon) && |lat| >= 1 && Descending(lat) ==>
      CandidatesSuffice(least, lon, lat)
  }

  lemma {:induction false} UsualColumnsSuffice(least: nat, lon: seq<real>, lat: seq<real>)
    requires least >= USUAL_COLUMNS && |lon| >= 1 && Ascending(lon) && |lat| >= 1 && Descending(lat)
    ensures CandidatesSuffice(least, lon, lat)
  {
    UsualColumnsReach(lon, least);
    forall source: Source, i, j, mass, w0, w1 | Glo30(source, least) && w0 <= FirstWest(lon) && LastWest(lon) < w1
      ensures Suffices(source, lon, lat, i, j, mass, w0, w1)
    {
      ReachedInOrder(lon, j, least);
      NoOtherCellContributesIf(source, least, lon, lat, i, j, mass, w0, w1);
    }
  }

  /** A window that ends between the two half pixels west of cell 1. */
  lemma {:induction false} FewColumnsDoNot(least: nat) returns (lon: seq<real>, lat: seq<real>)
    requires 0 < least < USUAL_COLUMNS
    ensures |lon| >= 1 && Ascending(lon) && |lat| >= 1 && Descending(lat) && !CandidatesSuffice(least, lon, lat)
  {
    HalfAbove(least);
    var gap := (0.5 / least as real + MAX_HALF_LONGITUDE) / 2.0;
    lon, lat := [0.0, 1.0 - gap], [1.0, 0.0];
    CandidatesSufficeIff(least, lon, lat);
  }

  /** The candidates hold every cell that contributes to a window, for every window, if and only if cells have 600 columns or more. */
  lemma {:induction false} WidthIsEnoughIff(least: nat)
    requires least > 0
    ensures WidthIsEnough(least) <==> least >= USUAL_COLUMNS
  {
    if least >= USUAL_COLUMNS {
      forall lon: seq<real>, lat: seq<real> | |lon| >= 1 && Ascending(lon) && |lat| >= 1 && Descending(lat)
        ensures CandidatesSuffice(least, lon, lat)
      {
        UsualColumnsSuffice(least, lon, lat);
      }
    } else {
      var lon, lat := FewColumnsDoNot(least);
    }
  }
}
