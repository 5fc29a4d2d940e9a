/**
 * The source cells listed before an analysis grid is read, and why they suffice: the nearest pixel
 * of a grid cell lies in one of them, so acquisition and the "available locally" test miss nothing.
 */
module GridPrefetch {
  import opened Wrappers
  import opened Numbers
  import opened AreaGrid
  import opened SourceCells
  import opened PointSample

  const LONGITUDE_MARGIN: real := 1.0 / 360.0
  const LATITUDE_MARGIN: real := 1.0 / 3600.0
  const MAX_GRID_CELLS: int := 16

  datatype GridRequest = GridRequest(columns: int, rows: int, west: real, east: real, south: real, north: real)

  predicate ValidRequest(r: GridRequest) {
    && 1 <= r.columns <= 512 && 1 <= r.rows <= 512
    && -180.0 <= r.west < r.east <= 180.0
    && -85.0 <= r.south < r.north <= 85.0
  }

  function CellLatitude(r: GridRequest, row: int): real
    requires r.rows > 0
  {
    r.north - (row as real + 0.5) * ((r.north - r.south) / r.rows as real)
  }

  function CellLongitude(r: GridRequest, column: int): real
    requires r.columns > 0
  {
    r.west + (column as real + 0.5) * ((r.east - r.west) / r.columns as real)
  }

  predicate NeedsEast(base: Address, longitude: real) {
    base.west < 179 && longitude - base.west as real >= 1.0 - LONGITUDE_MARGIN
  }

  predicate NeedsSouth(base: Address, latitude: real) {
    base.south > -90 && latitude - base.south as real <= LATITUDE_MARGIN
  }

  /** The cell of a coordinate and the neighbours its nearest pixel can round into. */
  function Listed(latitude: real, longitude: real): set<Address> {
    var base := CellOf(latitude, longitude);
    {base}
    + (if NeedsEast(base, longitude) then {Address(base.south, base.west + 1)} else {})
    + (if NeedsSouth(base, latitude) then {Address(base.south - 1, base.west)} else {})
    + (if NeedsEast(base, longitude) && NeedsSouth(base, latitude) then {Address(base.south - 1, base.west + 1)} else {})
  }

  /** Listed for one of the first grid cells, row by row. */
  ghost predicate ListedBefore(r: GridRequest, row: int, column: int, a: Address)
    requires ValidRequest(r)
  {
    exists i, j :: 0 <= i < r.rows && 0 <= j < r.columns && (i < row || (i == row && j < column))
                   && a in Listed(CellLatitude(r, i), CellLongitude(r, j))
  }

  ghost predicate HoldsListed(r: GridRequest, row: int, column: int, addresses: set<Address>)
    requires ValidRequest(r)
  {
    forall a :: a in addresses <==> ListedBefore(r, row, column, a)
  }

  lemma {:induction false} ListOneMore(r: GridRequest, row: int, column: int, addresses: set<Address>)
    requires ValidRequest(r) && 0 <= row < r.rows && 0 <= column < r.columns && HoldsListed(r, row, column, addresses)
    ensures HoldsListed(r, row, column + 1, addresses + Listed(CellLatitude(r, row), CellLongitude(r, column)))
  {
    var more := Listed(CellLatitude(r, row), CellLongitude(r, column));
    forall a ensures a in addresses + more <==> ListedBefore(r, row, column + 1, a) {
      if ListedBefore(r, row, column + 1, a) {
        var i, j :| 0 <= i < r.rows && 0 <= j < r.columns && (i < row || (i == row && j < column + 1))
                    && a in Listed(CellLatitude(r, i), CellLongitude(r, j));
        if !(i == row && j == column) {
          assert ListedBefore(r, row, column, a);
        }
      }
    }
  }

  lemma {:induction false} NextRow(r: GridRequest, row: int, addresses: set<Address>)
    requires ValidRequest(r) && HoldsListed(r, row, r.columns, addresses)
    ensures HoldsListed(r, row + 1, 0, addresses)
  {
    forall a ensures ListedBefore(r, row, r.columns, a) <==> ListedBefore(r, row + 1, 0, a) {
    }
  }

  method InsertListed(addresses: set<Address>, latitude: real, longitude: real) returns (all: set<Address>)
    ensures all == addresses + Listed(latitude, longitude)
  {
    var base := CellOf(latitude, longitude);
    var east, south := NeedsEast(base, longitude), NeedsSouth(base, latitude);
    all := addresses + {base};
    if east {
      all := all + {Address(base.south, base.west + 1)};
    }
    if south {
      all := all + {Address(base.south - 1, base.west)};
    }
    if east && south {
      all := all + {Address(base.south - 1, base.west + 1)};
    }
  }

  lemma {:induction false} ListedIsNeeded(r: GridRequest, row: int, column: int, addresses: set<Address>)
    requires ValidRequest(r) && 0 <= row < r.rows && 0 <= column <= r.columns && HoldsListed(r, row, column, addresses)
    ensures forall a :: a in addresses ==> ListedBefore(r, r.rows, 0, a)
  {
    forall a | a in addresses ensures ListedBefore(r, r.rows, 0, a) {
      assert ListedBefore(r, row, column, a);
    }
  }

  /** One row of grid cells. */
  method ListRow(r: GridRequest, row: int, before: set<Address>) returns (ok: bool, addresses: set<Address>)
    requires ValidRequest(r) && 0 <= row < r.rows && HoldsListed(r, row, 0, before) && |before| <= MAX_GRID_CELLS
    ensures ok ==> HoldsListed(r, row, r.columns, addresses) && |addresses| <= MAX_GRID_CELLS
    ensures !ok ==> |addresses| > MAX_GRID_CELLS && forall a :: a in addresses ==> ListedBefore(r, r.rows, 0, a)
  {
    addresses := before;
    var latitude := CellLatitude(r, row);
    var column := 0;
    while column < r.columns
      invariant 0 <= column <= r.columns && HoldsListed(r, row, column, addresses) && |addresses| <= MAX_GRID_CELLS
    {
      ListOneMore(r, row, column, addresses);
      addresses := InsertListed(addresses, latitude, CellLongitude(r, column));
      column := column + 1;
      if |addresses| > MAX_GRID_CELLS {
        ListedIsNeeded(r, row, column, addresses);
        return false, addresses;
      }
    }
    ok := true;
  }

  /**
   * Lists the source cells of a grid; gives up as soon as there are more than sixteen, and then the
   * cells found so far are all needed.
   */
  method AnalysisGridSources(r: GridRequest) returns (ok: bool, addresses: set<Address>)
    requires ValidRequest(r)
    ensures ok ==> HoldsListed(r, r.rows, 0, addresses) && |addresses| <= MAX_GRID_CELLS
    ensures !ok ==> |addresses| > MAX_GRID_CELLS && forall a :: a in addresses ==> ListedBefore(r, r.rows, 0, a)
  {
    addresses := {};
    var row := 0;
    while row < r.rows
      invariant 0 <= row <= r.rows && HoldsListed(r, row, 0, addresses) && |addresses| <= MAX_GRID_CELLS
    {
      ok, addresses := ListRow(r, row, addresses);
      if !ok {
        return;
      }
      NextRow(r, row, addresses);
      row := row + 1;
    }
    ok := true;
  }

  // ---------------------------------------------------------------- the list suffices

  /** Rounding to the nearest column reaches the east neighbour only from the last half pixel. */
  lemma {:induction false} NativeColumnRange(base: Address, width: nat, longitude: real)
    requires width >= 180 && base.west as real <= longitude <= (base.west + 1) as real
    ensures 0 <= NativeColumn(base, width, longitude) <= width
    ensures NativeColumn(base, width, longitude) == width ==> longitude - base.west as real >= 1.0 - LONGITUDE_MARGIN
  {
    var d, n := longitude - base.west as real, width as real;
    var x := InPixels(d, width);
    ScaledRange(d, n);
    RoundRange(x, width);
    if Round(x) == width {
      LastHalfPixel(d, n, x);
    }
  }

  lemma RoundRange(x: real, n: nat)
    requires 0.0 <= x <= n as real
    ensures 0 <= Round(x) <= n
    ensures Round(x) == n ==> x >= n as real - 0.5
  {
  }

  lemma LastHalfPixel(d: real, n: real, x: real)
    requires n >= 180.0 && x == d * n && x >= n - 0.5
    ensures d >= 1.0 - LONGITUDE_MARGIN
  {
    var bound := (1.0 - LONGITUDE_MARGIN) * n;
    assert bound == n - n / 360.0 <= n - 0.5;
    Cancel(1.0 - LONGITUDE_MARGIN, d, n);
  }

  lemma ScaledRange(d: real, n: real)
    requires 0.0 <= d <= 1.0 && n > 0.0
    ensures 0.0 <= d * n <= n
  {
    assert (1.0 - d) * n == n - d * n;
    PositiveProduct(d, n);
    PositiveProduct(1.0 - d, n);
  }

  lemma {:induction false} NativeRowRange(base: Address, latitude: real)
    requires base.south as real < latitude <= (base.south + 1) as real + TOLERANCE
    ensures 0 <= NativeRow(base, 3600, latitude) <= 3600
    ensures NativeRow(base, 3600, latitude) == 3600 ==> latitude - base.south as real <= LATITUDE_MARGIN
  {
    var y := InPixels((base.south + 1) as real - latitude, 3600);
    assert y < 3600.0;
  }

  /** The cell of the nearest pixel is listed. */
  lemma {:induction false} NativeIsListed(latitude: real, longitude: real, width: nat)
    requires -85.0 <= latitude <= 85.0 && -180.0 <= longitude <= 180.0 && 180 <= width
    ensures var base := CellOf(latitude, longitude);
            GridAddress(base, width, 3600, NativeColumn(base, width, longitude), NativeRow(base, 3600, latitude))
              in Listed(latitude, longitude)
  {
    var base := CellOf(latitude, longitude);
    SouthNearFloor(latitude);
    NativeColumnRange(base, width, longitude);
    NativeRowRange(base, latitude);
    ColumnCell(base, width, NativeColumn(base, width, longitude));
    RowCell(base, NativeRow(base, 3600, latitude));
  }

  lemma {:induction false} GridCellInside(r: GridRequest, row: int, column: int)
    requires ValidRequest(r) && 0 <= row < r.rows && 0 <= column < r.columns
    ensures r.south <= CellLatitude(r, row) <= r.north && r.west <= CellLongitude(r, column) <= r.east
  {
    StepsInside(row, r.rows, r.north - r.south);
    StepsInside(column, r.columns, r.east - r.west);
  }

  lemma StepsInside(k: int, n: int, length: real)
    requires 0 <= k < n && length > 0.0
    ensures 0.0 <= (k as real + 0.5) * (length / n as real) <= length
  {
    var step := length / n as real;
    assert step * n as real == length;
    QuotientAtMost(0.0, length, n as real);
    assert (n as real - (k as real + 0.5)) * step == length - (k as real + 0.5) * step;
    NonNegativeProduct(k as real + 0.5, step);
    NonNegativeProduct(n as real - (k as real + 0.5), step);
  }

  lemma NonNegativeProduct(a: real, b: real)
    requires a >= 0.0 && b >= 0.0
    ensures a * b >= 0.0
  {
  }

  /** An elevation of the grid, and whether reading it fails the request, are functions of the listed cells. */
  lemma {:induction false} GridNeedsOnlyListedCells(source: Source, source': Source, r: GridRequest, addresses: set<Address>, row: int, column: int)
    requires ValidRequest(r) && HoldsListed(r, r.rows, 0, addresses)
    requires Glo30(source, MIN_COLUMNS) && ValidSource(source') && Agree(source, source', addresses)
    requires 0 <= row < r.rows && 0 <= column < r.columns
    ensures Native(source, CellLatitude(r, row), CellLongitude(r, column)) == Native(source', CellLatitude(r, row), CellLongitude(r, column))
    ensures NativeFails(source, CellLatitude(r, row), CellLongitude(r, column))
            == NativeFails(source', CellLatitude(r, row), CellLongitude(r, column))
  {
    var latitude, longitude := CellLatitude(r, row), CellLongitude(r, column);
    GridCellInside(r, row, column);
    forall a | a in Listed(latitude, longitude) ensures a in addresses {
      assert ListedBefore(r, r.rows, 0, a);
    }
    var base := CellOf(latitude, longitude);
    if RasterAt(source, base).Some? {
      NativeIsListed(latitude, longitude, RasterAt(source, base).value.width);
    }
    NativeDepends(source, source', latitude, longitude, addresses);
  }

  // ---------------------------------------------------------------- reading the grid

  predicate GridCellFails(source: Source, r: GridRequest, row: int, column: int)
    requires ValidSource(source) && ValidRequest(r)
  {
    NativeFails(source, CellLatitude(r, row), CellLongitude(r, column))
  }

  ghost predicate SomeCellFails(source: Source, r: GridRequest)
    requires ValidSource(source) && ValidRequest(r)
  {
    exists row, column :: 0 <= row < r.rows && 0 <= column < r.columns && GridCellFails(source, r, row, column)
  }

  function GridRow(source: Source, r: GridRequest, row: int): seq<Option<real>>
    requires ValidSource(source) && ValidRequest(r)
  {
    seq(r.columns, column => Native(source, CellLatitude(r, row), CellLongitude(r, column)))
  }

  /** The first rows of the grid, one after the other. */
  function GridRows(source: Source, r: GridRequest, rows: nat): seq<Option<real>>
    requires ValidSource(source) && ValidRequest(r)
  {
    if rows == 0 then [] else GridRows(source, r, rows - 1) + GridRow(source, r, rows - 1)
  }

  ghost function FetchedGrid(source: Source, r: GridRequest): Fetch
    requires ValidSource(source) && ValidRequest(r)
  {
    if SomeCellFails(source, r) then SourceFailed else FetchOf(GridRows(source, r, r.rows))
  }

  /** The loops of fetchAnalysisGrid: they end at the first failure. */
  method FetchGrid(source: Source, r: GridRequest) returns (fetch: Fetch)
    requires ValidSource(source) && ValidRequest(r)
    ensures fetch == FetchedGrid(source, r)
  {
    var elevations: seq<Option<real>>, valid := [], 0;
    for row := 0 to r.rows
      invariant elevations == GridRows(source, r, row)
      invariant forall i, j :: 0 <= i < row && 0 <= j < r.columns ==> !GridCellFails(source, r, i, j)
      invariant valid >= 0 && (valid > 0 <==> exists i :: 0 <= i < |elevations| && elevations[i].Some?)
    {
      var latitude := CellLatitude(r, row);
      ghost var rowsBefore := elevations;
      for column := 0 to r.columns
        invariant elevations == rowsBefore + GridRow(source, r, row)[..column]
        invariant forall j :: 0 <= j < column ==> !GridCellFails(source, r, row, j)
        invariant valid >= 0 && (valid > 0 <==> exists i :: 0 <= i < |elevations| && elevations[i].Some?)
      {
        var longitude := CellLongitude(r, column);
        var elevation := Native(source, latitude, longitude);
        if NativeFails(source, latitude, longitude) {
          assert GridCellFails(source, r, row, column);
          return SourceFailed;
        }
        SomeNext(elevations, elevation);
        elevations := elevations + [elevation];
        valid := valid + if elevation.Some? then 1 else 0;
      }
    }
    fetch := if valid == 0 then NoCoverage else Filled(elevations);
  }

  /**
   * The outcome of the request, failure or elevations, is a function of the listed cells: whatever the
   * other cells hold, readable or not, the CPU stage ends the same.
   */
  lemma {:induction false} FetchNeedsOnlyListedCells(source: Source, source': Source, r: GridRequest, addresses: set<Address>)
    requires ValidRequest(r) && HoldsListed(r, r.rows, 0, addresses)
    requires Glo30(source, MIN_COLUMNS) && ValidSource(source') && Agree(source, source', addresses)
    ensures FetchedGrid(source, r) == FetchedGrid(source', r)
  {
    forall row, column | 0 <= row < r.rows && 0 <= column < r.columns
      ensures GridCellFails(source, r, row, column) == GridCellFails(source', r, row, column)
    {
      GridNeedsOnlyListedCells(source, source', r, addresses, row, column);
    }
    forall row | 0 <= row < r.rows ensures GridRow(source, r, row) == GridRow(source', r, row) {
      RowNeedsOnlyListedCells(source, source', r, addresses, row);
    }
    SameRows(source, source', r, r.rows);
  }

  lemma {:induction false} RowNeedsOnlyListedCells(source: Source, source': Source, r: GridRequest, addresses: set<Address>, row: int)
    requires ValidRequest(r) && HoldsListed(r, r.rows, 0, addresses) && 0 <= row < r.rows
    requires Glo30(source, MIN_COLUMNS) && ValidSource(source') && Agree(source, source', addresses)
    ensures GridRow(source, r, row) == GridRow(source', r, row)
  {
    var own, other := GridRow(source, r, row), GridRow(source', r, row);
    forall column | 0 <= column < r.columns ensures own[column] == other[column] {
      GridNeedsOnlyListedCells(source, source', r, addresses, row, column);
    }
  }

  lemma {:induction false} SameRows(source: Source, source': Source, r: GridRequest, rows: nat)
    requires ValidRequest(r) && ValidSource(source) && ValidSource(source')
    requires forall row :: 0 <= row < rows ==> GridRow(source, r, row) == GridRow(source', r, row)
    ensures GridRows(source, r, rows) == GridRows(source', r, rows)
    decreases rows
  {
    if rows > 0 {
      SameRows(source, source', r, rows - 1);
      assert GridRow(source, r, rows - 1) == GridRow(source', r, rows - 1);
    }
  }
}
