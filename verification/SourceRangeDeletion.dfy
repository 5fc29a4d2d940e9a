/**
 * deleteSourceData of src/lib/terrain_data.cpp: the geographic box of a range of map tiles, and that
 * deleting by it takes exactly the source cells under those tiles.
 */
module SourceRangeDeletion {
  import opened Numbers
  import opened TileRange
  import opened SourceCells
  import opened TileSamples
  import opened AreaGrid
  import opened SourceDeletion

  datatype Range = Range(zoom: nat, xMin: int, xMax: int, yMin: int, yMax: int) {
    function FirstRow(): int { Max(0, yMin) }

    function LastRow(): int { Min(TileCount(zoom) - 1, yMax) }

    /** Ranges that are neither refused nor empty. */
    predicate Reaches() {
      xMin <= xMax && FirstRow() <= LastRow()
    }
  }

  /** Place i of n, as a fraction. */
  function Share(i: int, n: int): real
    requires n >= 1
  {
    i as real / n as real
  }

  /** The west edge of column x; columns west of 0 and east of the last go on around the globe. */
  function ColumnEdge(zoom: nat, x: int): real {
    Share(x, TileCount(zoom)) * 360.0 - 180.0
  }

  /** The north edge of row y. */
  function RowEdge(latitudeAt: real -> real, zoom: nat, y: int): real {
    latitudeAt(Share(y, TileCount(zoom)))
  }

  function RangeBox(latitudeAt: real -> real, r: Range): DeletionBox {
    var whole := r.xMax - r.xMin + 1 >= TileCount(r.zoom);
    DeletionBox(if whole then -180.0 else ColumnEdge(r.zoom, r.xMin),
                if whole then 180.0 else ColumnEdge(r.zoom, r.xMax + 1),
                RowEdge(latitudeAt, r.zoom, r.LastRow() + 1),
                RowEdge(latitudeAt, r.zoom, r.FirstRow()))
  }

  function TileBox(latitudeAt: real -> real, zoom: nat, x: int, y: int): DeletionBox {
    DeletionBox(ColumnEdge(zoom, x), ColumnEdge(zoom, x + 1), RowEdge(latitudeAt, zoom, y + 1), RowEdge(latitudeAt, zoom, y))
  }

  // ---------------------------------------------------------------- intervals cut into steps

  /** An interval that meets a chain of adjoining ones meets one of them. */
  lemma {:induction false} SomeStepMeets(g: int -> real, lo: int, hi: int, a: real, b: real) returns (x: int)
    requires lo <= hi && a < b && g(lo) < b && a < g(hi + 1)
    ensures lo <= x <= hi && g(x) < b && a < g(x + 1)
    decreases hi - lo
  {
    if lo == hi || a < g(lo + 1) {
      x := lo;
    } else {
      x := SomeStepMeets(g, lo + 1, hi, a, b);
    }
  }

  lemma ShareTimes(i: int, n: int)
    requires n >= 1
    ensures Share(i, n) * n as real == i as real
  {
  }

  lemma SameProduct(p: real, q: real, d: real)
    requires d > 0.0
    ensures p < q <==> p * d < q * d
  {
    if p < q {
      assert (q - p) * d > 0.0;
    } else {
      assert (p - q) * d >= 0.0;
    }
  }

  lemma ShareRises(i: int, j: int, n: int)
    requires i < j && n >= 1
    ensures Share(i, n) < Share(j, n)
  {
    ShareTimes(i, n);
    ShareTimes(j, n);
    SameProduct(Share(i, n), Share(j, n), n as real);
  }

  lemma ShareOfWhole(i: int, n: int)
    requires n >= 1
    ensures Share(i + n, n) == Share(i, n) + 1.0
  {
    ShareTimes(i, n);
    ShareTimes(i + n, n);
    var p, q, d := Share(i, n) + 1.0, Share(i + n, n), n as real;
    assert (Share(i, n) + 1.0) * d == Share(i, n) * d + d;
    SameProduct(p, q, d);
    SameProduct(q, p, d);
  }

  lemma ColumnsRise(zoom: nat, i: int, j: int)
    requires i < j
    ensures ColumnEdge(zoom, i) < ColumnEdge(zoom, j)
  {
    ShareRises(i, j, TileCount(zoom));
  }

  lemma RowsFall(latitudeAt: real -> real, zoom: nat, i: int, j: int)
    requires Projection(latitudeAt) && 0 <= i < j <= TileCount(zoom)
    ensures RowEdge(latitudeAt, zoom, i) > RowEdge(latitudeAt, zoom, j)
    ensures -88.0 < RowEdge(latitudeAt, zoom, j) && RowEdge(latitudeAt, zoom, i) < 88.0
  {
    var n := TileCount(zoom);
    ShareRises(i, j, n);
    ShareInside(i, n);
    ShareInside(j, n);
  }

  lemma ShareInside(i: int, n: int)
    requires 0 <= i <= n && n >= 1
    ensures 0.0 <= Share(i, n) <= 1.0
  {
    ShareOfWhole(0, n);
    assert Share(0, n) == 0.0;
    if 0 < i {
      ShareRises(0, i, n);
    }
    if i < n {
      ShareRises(i, n, n);
    }
  }

  lemma WholeTurnOfColumns(zoom: nat, x: int)
    ensures ColumnEdge(zoom, x + TileCount(zoom)) == ColumnEdge(zoom, x) + 360.0
  {
    ShareOfWhole(x, TileCount(zoom));
  }

  // ---------------------------------------------------------------- columns and rows

  /** The unwrapped column u of cells meets the interval from west to east. */
  predicate Meets(u: int, west: real, east: real) {
    west < (u + 1) as real && u as real < east
  }

  ghost predicate SomeTurnMeets(cell: int, west: real, east: real) {
    exists u :: WrappedWest(u) == cell && Meets(u, west, east)
  }

  ghost predicate ColumnUnder(zoom: nat, x: int, cell: int) {
    SomeTurnMeets(cell, ColumnEdge(zoom, x), ColumnEdge(zoom, x + 1))
  }

  lemma {:induction false} ColumnsBetween(zoom: nat, lo: int, hi: int, u: int) returns (x: int)
    requires lo <= hi && Meets(u, ColumnEdge(zoom, lo), ColumnEdge(zoom, hi + 1))
    ensures lo <= x <= hi && Meets(u, ColumnEdge(zoom, x), ColumnEdge(zoom, x + 1))
  {
    x := SomeStepMeets(i => ColumnEdge(zoom, i), lo, hi, u as real, (u + 1) as real);
  }

  /** Every cell lies under one of as many columns as there are around the globe. */
  lemma {:induction false} ColumnOfCell(zoom: nat, xMin: int, cell: int) returns (u: int, x: int)
    requires -180 <= cell <= 179
    ensures WrappedWest(u) == cell && xMin <= x < xMin + TileCount(zoom)
    ensures Meets(u, ColumnEdge(zoom, x), ColumnEdge(zoom, x + 1))
  {
    u := TurnOfCell(ColumnEdge(zoom, xMin), cell);
    WholeTurnOfColumns(zoom, xMin);
    x := ColumnsBetween(zoom, xMin, xMin + TileCount(zoom) - 1, u);
  }

  lemma TurnOfCell(west: real, cell: int) returns (u: int)
    requires -180 <= cell <= 179
    ensures WrappedWest(u) == cell && Meets(u, west, west + 360.0)
  {
    var first := Floor(west);
    u := first + (cell - first) % 360;
    assert first <= u < first + 360 && (u - cell) % 360 == 0;
    SameWrap(u, cell);
  }

  /** The cell lies under a column of the range if and only if it meets the longitudes of the box. */
  lemma {:induction false} ColumnsOfRange(latitudeAt: real -> real, r: Range, cell: int)
    requires r.Reaches() && -180 <= cell <= 179
    ensures SomeTurnMeets(cell, RangeBox(latitudeAt, r).west, RangeBox(latitudeAt, r).east)
            <==> exists x :: r.xMin <= x <= r.xMax && ColumnUnder(r.zoom, x, cell)
  {
    if r.xMax - r.xMin + 1 >= TileCount(r.zoom) {
      var u, x := ColumnOfCell(r.zoom, r.xMin, cell);
      WrappedWestIs(cell);
      assert WrappedWest(cell) == cell && Meets(cell, -180.0, 180.0);
      assert ColumnUnder(r.zoom, x, cell);
    } else {
      ColumnsOfNarrowRange(r, cell);
    }
  }

  lemma {:induction false} ColumnsOfNarrowRange(r: Range, cell: int)
    requires r.Reaches()
    ensures SomeTurnMeets(cell, ColumnEdge(r.zoom, r.xMin), ColumnEdge(r.zoom, r.xMax + 1))
            <==> exists x :: r.xMin <= x <= r.xMax && ColumnUnder(r.zoom, x, cell)
  {
    var west, east := ColumnEdge(r.zoom, r.xMin), ColumnEdge(r.zoom, r.xMax + 1);
    if SomeTurnMeets(cell, west, east) {
      var u :| WrappedWest(u) == cell && Meets(u, west, east);
      var x := ColumnsBetween(r.zoom, r.xMin, r.xMax, u);
      assert ColumnUnder(r.zoom, x, cell);
    }
    if x :| r.xMin <= x <= r.xMax && ColumnUnder(r.zoom, x, cell) {
      var u :| WrappedWest(u) == cell && Meets(u, ColumnEdge(r.zoom, x), ColumnEdge(r.zoom, x + 1));
      if r.xMin < x {
        ColumnsRise(r.zoom, r.xMin, x);
      }
      if x < r.xMax {
        ColumnsRise(r.zoom, x + 1, r.xMax + 1);
      }
      assert Meets(u, west, east);
    }
  }

  ghost predicate RowUnder(latitudeAt: real -> real, zoom: nat, y: int, south: int) {
    RowEdge(latitudeAt, zoom, y + 1) < (south + 1) as real && south as real < RowEdge(latitudeAt, zoom, y)
  }

  lemma {:induction false} RowsOfRange(latitudeAt: real -> real, r: Range, south: int)
    requires Projection(latitudeAt) && r.Reaches()
    ensures RangeBox(latitudeAt, r).south < (south + 1) as real && south as real < RangeBox(latitudeAt, r).north
            <==> exists y :: r.FirstRow() <= y <= r.LastRow() && RowUnder(latitudeAt, r.zoom, y, south)
  {
    var lo, hi := r.FirstRow(), r.LastRow();
    if RowEdge(latitudeAt, r.zoom, hi + 1) < (south + 1) as real && south as real < RowEdge(latitudeAt, r.zoom, lo) {
      var y := SomeStepMeets(i => -RowEdge(latitudeAt, r.zoom, i), lo, hi, -((south + 1) as real), -(south as real));
      assert RowUnder(latitudeAt, r.zoom, y, south);
    }
    if y :| lo <= y <= hi && RowUnder(latitudeAt, r.zoom, y, south) {
      if lo < y {
        RowsFall(latitudeAt, r.zoom, lo, y);
      }
      if y < hi {
        RowsFall(latitudeAt, r.zoom, y + 1, hi + 1);
      }
    }
  }

  // ---------------------------------------------------------------- the whole range

  ghost predicate UnderTile(latitudeAt: real -> real, r: Range, x: int, y: int, a: Address) {
    && r.xMin <= x <= r.xMax && r.FirstRow() <= y <= r.LastRow()
    && SharesArea(TileBox(latitudeAt, r.zoom, x, y), a)
  }

  /** Deleting a range of tiles takes exactly the cells that share area with one of its tiles. */
  lemma {:induction false} RangeTakesCellsUnderItsTiles(latitudeAt: real -> real, r: Range, a: Address)
    requires Projection(latitudeAt) && r.Reaches() && OnEarth(a)
    ensures Selected(RangeBox(latitudeAt, r), a) <==> exists x, y :: UnderTile(latitudeAt, r, x, y, a)
  {
    var box := RangeBox(latitudeAt, r);
    RowsFall(latitudeAt, r.zoom, r.FirstRow(), r.LastRow() + 1);
    ColumnsRise(r.zoom, r.xMin, r.xMax + 1);
    SelectionIsExactIff(box);
    ColumnsOfRange(latitudeAt, r, a.west);
    RowsOfRange(latitudeAt, r, a.south);
    assert SharesArea(box, a) <==> SomeTurnMeets(a.west, box.west, box.east)
                                   && box.south < (a.south + 1) as real && a.south as real < box.north by {
      AreaByParts(box, a);
    }
    forall x, y ensures SharesArea(TileBox(latitudeAt, r.zoom, x, y), a)
                        <==> ColumnUnder(r.zoom, x, a.west) && RowUnder(latitudeAt, r.zoom, y, a.south) {
      AreaByParts(TileBox(latitudeAt, r.zoom, x, y), a);
    }
    if Selected(box, a) {
      var x :| r.xMin <= x <= r.xMax && ColumnUnder(r.zoom, x, a.west);
      var y :| r.FirstRow() <= y <= r.LastRow() && RowUnder(latitudeAt, r.zoom, y, a.south);
      assert UnderTile(latitudeAt, r, x, y, a);
    }
  }

  lemma AreaByParts(box: DeletionBox, a: Address)
    ensures SharesArea(box, a) <==> (SomeTurnMeets(a.west, box.west, box.east)
                                     && box.south < (a.south + 1) as real && a.south as real < box.north)
  {
    if SharesArea(box, a) {
      var u :| WrappedWest(u) == a.west && box.west < (u + 1) as real && u as real < box.east;
      assert Meets(u, box.west, box.east);
    }
    if SomeTurnMeets(a.west, box.west, box.east) {
      var u :| WrappedWest(u) == a.west && Meets(u, box.west, box.east);
    }
  }
}
