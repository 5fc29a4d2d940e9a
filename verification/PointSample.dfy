/**
 * The two point samplers of src/lib/copernicus_terrain_provider.cpp and the source cells they read:
 * the bilinear sample of the renderer and the nearest source pixel of the analyses.
 */
module PointSample {
  import opened Wrappers
  import opened Numbers
  import opened RasterWindow
  import opened SourceCells
  import opened AreaGrid

  function RasterAt(source: Source, address: Address): Option<Raster> {
    match source(address.south, address.west)
    case Loaded(raster) => Some(raster)
    case _ => None
  }

  function Clamp(value: int, low: int, high: int): int {
    if value < low then low else if value > high then high else value
  }

  function ClampReal(value: real, low: real, high: real): real {
    if value < low then low else if value > high then high else value
  }

  /** A distance from a cell's corner, in pixels. */
  function InPixels(degrees: real, pixels: int): real {
    degrees * pixels as real
  }

  // ---------------------------------------------------------------- one grid point

  function GridLongitude(base: Address, width: int, column: int): real
    requires width > 0
  {
    base.west as real + column as real / width as real
  }

  function GridLatitude(base: Address, height: int, row: int): real
    requires height > 0
  {
    (base.south + 1) as real - row as real / height as real
  }

  /** The cell that grid point (column, row) of a base cell lies in, which may be a neighbour. */
  function GridAddress(base: Address, width: int, height: int, column: int, row: int): Address
    requires width > 0 && height > 0
  {
    CellOf(GridLatitude(base, height, row), GridLongitude(base, width, column))
  }

  function NearestColumn(raster: Raster, address: Address, longitude: real): int {
    Clamp(Round(InPixels(longitude - address.west as real, raster.width)), 0, raster.width - 1)
  }

  function NearestRow(raster: Raster, address: Address, latitude: real): int {
    Clamp(Round(InPixels((address.south + 1) as real - latitude, raster.height)), 0, raster.height - 1)
  }

  function NearestPixel(raster: Raster, address: Address, latitude: real, longitude: real): Sample
    requires ValidRaster(raster)
  {
    Pixel(raster, NearestColumn(raster, address, longitude), NearestRow(raster, address, latitude))
  }

  function GridValue(source: Source, base: Address, width: int, height: int, column: int, row: int): Sample
    requires ValidSource(source) && width > 0 && height > 0
  {
    var address := GridAddress(base, width, height, column, row);
    match RasterAt(source, address)
    case None => None
    case Some(raster) => NearestPixel(raster, address, GridLatitude(base, height, row), GridLongitude(base, width, column))
  }

  /** Reading the grid point ends the whole request: its cell cannot be used, or the block of its pixel does not decode. */
  predicate GridFails(source: Source, base: Address, width: int, height: int, column: int, row: int)
    requires ValidSource(source) && width > 0 && height > 0
  {
    var address := GridAddress(base, width, height, column, row);
    match source(address.south, address.west)
    case Missing => false
    case Broken => true
    case Loaded(raster) =>
      !Readable(raster, NearestColumn(raster, address, GridLongitude(base, width, column)),
                NearestRow(raster, address, GridLatitude(base, height, row)))
  }

  // ---------------------------------------------------------------- the bilinear sample

  /** The machine epsilon of a double: corners of no more weight are not read. */
  const EPSILON: real := 1.0 / 4503599627370496.0

  datatype Corner = Corner(weight: real, column: int, row: int)

  /** The four grid points around a coordinate, with their bilinear weights. */
  function Corners(base: Address, width: int, height: int, latitude: real, longitude: real): (corners: seq<Corner>)
    ensures |corners| == 4
  {
    var x := InPixels(longitude - base.west as real, width);
    var y := InPixels((base.south + 1) as real - latitude, height);
    var column, row := Max(0, Floor(x)), Max(0, Floor(y));
    var u, v := ClampReal(x - column as real, 0.0, 1.0), ClampReal(y - row as real, 0.0, 1.0);
    CornersOf(column, row, u, v)
  }

  function CornersOf(column: int, row: int, u: real, v: real): (corners: seq<Corner>)
    ensures |corners| == 4
  {
    [Corner((1.0 - u) * (1.0 - v), column, row), Corner(u * (1.0 - v), column + 1, row),
     Corner((1.0 - u) * v, column, row + 1), Corner(u * v, column + 1, row + 1)]
  }

  function PlusWeighted(total: real, weight: real, value: real): real {
    total + weight * value
  }

  /** One corner more: light corners are not read, and a missing value makes the blend missing. */
  function AddCorner(before: Option<real>, weight: real, sample: Sample): Option<real> {
    if before.None? || weight <= EPSILON then before
    else if sample.None? then None
    else Some(PlusWeighted(before.value, weight, sample.value))
  }

  /** The weighted sum over the corners that count. */
  function Blend(value: (int, int) -> Sample, corners: seq<Corner>): Option<real>
    decreases |corners|
  {
    if corners == [] then Some(0.0)
    else
      var corner := corners[|corners| - 1];
      AddCorner(Blend(value, corners[..|corners| - 1]), corner.weight, value(corner.column, corner.row))
  }

  function GridValues(source: Source, base: Address, raster: Raster): (int, int) -> Sample
    requires ValidSource(source) && ValidRaster(raster)
  {
    (column, row) => GridValue(source, base, raster.width, raster.height, column, row)
  }

  /** The corner that makes the blend missing ends the corner loop; the request fails when that corner could not be read. */
  predicate BlendFails(value: (int, int) -> Sample, fails: (int, int) -> bool, corners: seq<Corner>)
    decreases |corners|
  {
    corners != [] &&
    var front, last := corners[..|corners| - 1], corners[|corners| - 1];
    || BlendFails(value, fails, front)
    || (Blend(value, front).Some? && Blend(value, corners).None? && fails(last.column, last.row))
  }

  function GridFailures(source: Source, base: Address, raster: Raster): (int, int) -> bool
    requires ValidSource(source) && ValidRaster(raster)
  {
    (column, row) => GridFails(source, base, raster.width, raster.height, column, row)
  }

  function Bilinear(source: Source, latitude: real, longitude: real): Option<real>
    requires ValidSource(source)
  {
    var base := CellOf(latitude, longitude);
    match RasterAt(source, base)
    case None => None
    case Some(raster) =>
      Blend(GridValues(source, base, raster), Corners(base, raster.width, raster.height, latitude, longitude))
  }

  predicate BilinearFails(source: Source, latitude: real, longitude: real)
    requires ValidSource(source)
  {
    var base := CellOf(latitude, longitude);
    match source(base.south, base.west)
    case Missing => false
    case Broken => true
    case Loaded(raster) =>
      BlendFails(GridValues(source, base, raster), GridFailures(source, base, raster),
                 Corners(base, raster.width, raster.height, latitude, longitude))
  }

  /** The corner loop of the sampler. */
  method BlendCorners(value: (int, int) -> Sample, fails: (int, int) -> bool, corners: seq<Corner>)
    returns (elevation: Option<real>, failed: bool)
    ensures elevation == Blend(value, corners) && failed == BlendFails(value, fails, corners)
  {
    var total := 0.0;
    var index := 0;
    while index < |corners|
      invariant 0 <= index <= |corners|
      invariant Blend(value, corners[..index]) == Some(total) && !BlendFails(value, fails, corners[..index])
    {
      BlendNext(value, corners, index);
      FailsNext(value, fails, corners, index);
      if corners[index].weight > EPSILON {
        var sample := value(corners[index].column, corners[index].row);
        if sample.None? {
          BlendStaysNone(value, fails, corners, index + 1);
          return None, fails(corners[index].column, corners[index].row);
        }
        total := PlusWeighted(total, corners[index].weight, sample.value);
      }
      index := index + 1;
    }
    assert corners[..index] == corners;
    elevation, failed := Some(total), false;
  }

  lemma BlendNext(value: (int, int) -> Sample, corners: seq<Corner>, n: nat)
    requires n < |corners|
    ensures Blend(value, corners[..n + 1])
            == AddCorner(Blend(value, corners[..n]), corners[n].weight, value(corners[n].column, corners[n].row))
  {
    assert corners[..n + 1][..n] == corners[..n];
  }

  lemma FailsNext(value: (int, int) -> Sample, fails: (int, int) -> bool, corners: seq<Corner>, n: nat)
    requires n < |corners|
    ensures BlendFails(value, fails, corners[..n + 1])
            <==> BlendFails(value, fails, corners[..n])
                 || (Blend(value, corners[..n]).Some? && Blend(value, corners[..n + 1]).None? && fails(corners[n].column, corners[n].row))
  {
    assert corners[..n + 1][..n] == corners[..n];
  }

  /** The bilinear sample, and whether reading it fails the request. */
  method SampleBilinear(source: Source, latitude: real, longitude: real) returns (elevation: Option<real>, failed: bool)
    requires ValidSource(source)
    ensures elevation == Bilinear(source, latitude, longitude) && failed == BilinearFails(source, latitude, longitude)
  {
    var base := CellOf(latitude, longitude);
    match source(base.south, base.west) {
      case Missing => return None, false;
      case Broken => return None, true;
      case Loaded(raster) =>
        elevation, failed := BlendCorners(GridValues(source, base, raster), GridFailures(source, base, raster),
                                          Corners(base, raster.width, raster.height, latitude, longitude));
    }
  }

  lemma {:induction false} BlendStaysNone(value: (int, int) -> Sample, fails: (int, int) -> bool, corners: seq<Corner>, n: nat)
    requires n <= |corners| && Blend(value, corners[..n]).None?
    ensures Blend(value, corners).None? && BlendFails(value, fails, corners) == BlendFails(value, fails, corners[..n])
    decreases |corners| - n
  {
    if n == |corners| {
      assert corners[..n] == corners;
    } else {
      BlendNext(value, corners, n);
      FailsNext(value, fails, corners, n);
      BlendStaysNone(value, fails, corners, n + 1);
    }
  }

  // ---------------------------------------------------------------- the nearest source pixel

  function NativeColumn(base: Address, width: int, longitude: real): int {
    Max(0, Round(InPixels(longitude - base.west as real, width)))
  }

  function NativeRow(base: Address, height: int, latitude: real): int {
    Max(0, Round(InPixels((base.south + 1) as real - latitude, height)))
  }

  function Native(source: Source, latitude: real, longitude: real): Option<real>
    requires ValidSource(source)
  {
    var base := CellOf(latitude, longitude);
    match RasterAt(source, base)
    case None => None
    case Some(raster) =>
      GridValue(source, base, raster.width, raster.height,
                NativeColumn(base, raster.width, longitude), NativeRow(base, raster.height, latitude))
  }

  predicate NativeFails(source: Source, latitude: real, longitude: real)
    requires ValidSource(source)
  {
    var base := CellOf(latitude, longitude);
    match source(base.south, base.west)
    case Missing => false
    case Broken => true
    case Loaded(raster) =>
      GridFails(source, base, raster.width, raster.height,
                NativeColumn(base, raster.width, longitude), NativeRow(base, raster.height, latitude))
  }

  // ---------------------------------------------------------------- the outcome of a request

  /** A source that cannot be used fails the whole request; so does a request without any elevation. */
  datatype Fetch = SourceFailed | NoCoverage | Filled(samples: seq<Option<real>>)

  function FetchOf(samples: seq<Option<real>>): Fetch {
    if exists i :: 0 <= i < |samples| && samples[i].Some? then Filled(samples) else NoCoverage
  }

  lemma SomeNext(samples: seq<Option<real>>, elevation: Option<real>)
    ensures (exists i :: 0 <= i < |samples + [elevation]| && (samples + [elevation])[i].Some?)
            <==> (exists i :: 0 <= i < |samples| && samples[i].Some?) || elevation.Some?
  {
    var all := samples + [elevation];
    assert all[|samples|] == elevation;
    forall i | 0 <= i < |samples| ensures all[i] == samples[i] {
    }
  }

  // ---------------------------------------------------------------- what a sampler depends on

  /** Two sources that hold the same in the given cells. */
  ghost predicate Agree(source: Source, source': Source, cells: set<Address>) {
    forall a :: a in cells ==> source(a.south, a.west) == source'(a.south, a.west)
  }

  /** Every corner that counts lies in one of the cells. */
  ghost predicate CornersIn(base: Address, width: int, height: int, corners: seq<Corner>, cells: set<Address>)
    requires width > 0 && height > 0
  {
    forall i :: 0 <= i < |corners| && corners[i].weight > EPSILON ==>
      GridAddress(base, width, height, corners[i].column, corners[i].row) in cells
  }

  lemma {:induction false} BlendDepends(value: (int, int) -> Sample, value': (int, int) -> Sample,
                                        fails: (int, int) -> bool, fails': (int, int) -> bool, corners: seq<Corner>)
    requires forall i :: 0 <= i < |corners| && corners[i].weight > EPSILON ==>
               value(corners[i].column, corners[i].row) == value'(corners[i].column, corners[i].row)
    requires forall i :: 0 <= i < |corners| && corners[i].weight > EPSILON ==>
               fails(corners[i].column, corners[i].row) == fails'(corners[i].column, corners[i].row)
    ensures Blend(value, corners) == Blend(value', corners) && BlendFails(value, fails, corners) == BlendFails(value', fails', corners)
    decreases |corners|
  {
    if corners != [] {
      var front, last := corners[..|corners| - 1], corners[|corners| - 1];
      BlendDepends(value, value', fails, fails', front);
      AddCornerDepends(Blend(value, front), last.weight, value(last.column, last.row), value'(last.column, last.row));
    }
  }

  lemma AddCornerDepends(before: Option<real>, weight: real, sample: Sample, sample': Sample)
    requires weight > EPSILON ==> sample == sample'
    ensures AddCorner(before, weight, sample) == AddCorner(before, weight, sample')
  {
  }

  lemma GridValueDepends(source: Source, source': Source, base: Address, width: int, height: int, column: int, row: int, cells: set<Address>)
    requires ValidSource(source) && ValidSource(source') && width > 0 && height > 0
    requires Agree(source, source', cells) && GridAddress(base, width, height, column, row) in cells
    ensures GridValue(source, base, width, height, column, row) == GridValue(source', base, width, height, column, row)
    ensures GridFails(source, base, width, height, column, row) == GridFails(source', base, width, height, column, row)
  {
    var address := GridAddress(base, width, height, column, row);
    assert RasterAt(source, address) == RasterAt(source', address);
  }

  /** The bilinear sample and its failure depend on the base cell and on the cells of the corners that count. */
  lemma {:induction false} BilinearDepends(source: Source, source': Source, latitude: real, longitude: real, cells: set<Address>)
    requires ValidSource(source) && ValidSource(source') && Agree(source, source', cells)
    requires var base := CellOf(latitude, longitude);
             base in cells && match RasterAt(source, base)
               case None => true
               case Some(raster) =>
                 CornersIn(base, raster.width, raster.height, Corners(base, raster.width, raster.height, latitude, longitude), cells)
    ensures Bilinear(source, latitude, longitude) == Bilinear(source', latitude, longitude)
    ensures BilinearFails(source, latitude, longitude) == BilinearFails(source', latitude, longitude)
  {
    var base := CellOf(latitude, longitude);
    assert RasterAt(source, base) == RasterAt(source', base);
    if RasterAt(source, base).Some? {
      CornersDepend(source, source', base, RasterAt(source, base).value,
                    Corners(base, RasterAt(source, base).value.width, RasterAt(source, base).value.height, latitude, longitude), cells);
    }
  }

  lemma {:induction false} CornersDepend(source: Source, source': Source, base: Address, raster: Raster, corners: seq<Corner>, cells: set<Address>)
    requires ValidSource(source) && ValidSource(source') && Agree(source, source', cells) && ValidRaster(raster)
    requires CornersIn(base, raster.width, raster.height, corners, cells)
    ensures Blend(GridValues(source, base, raster), corners) == Blend(GridValues(source', base, raster), corners)
    ensures BlendFails(GridValues(source, base, raster), GridFailures(source, base, raster), corners)
            == BlendFails(GridValues(source', base, raster), GridFailures(source', base, raster), corners)
  {
    var value, value' := GridValues(source, base, raster), GridValues(source', base, raster);
    var fails, fails' := GridFailures(source, base, raster), GridFailures(source', base, raster);
    forall i | 0 <= i < |corners| && corners[i].weight > EPSILON
      ensures value(corners[i].column, corners[i].row) == value'(corners[i].column, corners[i].row)
      ensures fails(corners[i].column, corners[i].row) == fails'(corners[i].column, corners[i].row)
    {
      GridValueDepends(source, source', base, raster.width, raster.height, corners[i].column, corners[i].row, cells);
    }
    BlendDepends(value, value', fails, fails', corners);
  }

  lemma {:induction false} NativeDepends(source: Source, source': Source, latitude: real, longitude: real, cells: set<Address>)
    requires ValidSource(source) && ValidSource(source') && Agree(source, source', cells)
    requires var base := CellOf(latitude, longitude);
             base in cells && match RasterAt(source, base)
               case None => true
               case Some(raster) =>
                 GridAddress(base, raster.width, raster.height, NativeColumn(base, raster.width, longitude),
                             NativeRow(base, raster.height, latitude)) in cells
    ensures Native(source, latitude, longitude) == Native(source', latitude, longitude)
    ensures NativeFails(source, latitude, longitude) == NativeFails(source', latitude, longitude)
  {
    var base := CellOf(latitude, longitude);
    assert RasterAt(source, base) == RasterAt(source', base);
    if RasterAt(source, base).Some? {
      var raster := RasterAt(source, base).value;
      GridValueDepends(source, source', base, raster.width, raster.height, NativeColumn(base, raster.width, longitude),
                       NativeRow(base, raster.height, latitude), cells);
    }
  }

  // ---------------------------------------------------------------- where grid points of a GLO-30 cell lie

  lemma Quotient(a: int, n: int)
    requires n > 0
    ensures a >= 0 ==> a as real / n as real >= 0.0
    ensures a <= n - 1 ==> a as real / n as real <= 1.0 - 1.0 / n as real
    ensures a >= 1 ==> a as real / n as real >= 1.0 / n as real
    ensures a == n ==> a as real / n as real == 1.0
    ensures a == 0 ==> a as real / n as real == 0.0
  {
    var m, p := n as real, a as real;
    QuotientAtMost(p, m - 1.0, m);
    QuotientAtMost(1.0, p, m);
    QuotientAtMost(0.0, p, m);
    assert (m - 1.0) / m == 1.0 - 1.0 / m;
  }

  lemma QuotientAtMost(a: real, b: real, n: real)
    requires n > 0.0
    ensures a <= b ==> a / n <= b / n
  {
    if a <= b {
      assert a / n * n == a && b / n * n == b;
      Cancel(a / n, b / n, n);
    }
  }

  lemma {:induction false} ColumnCell(base: Address, width: int, column: int)
    requires -180 <= base.west <= 179 && 1 <= width && 0 <= column <= width
    ensures SourceWest(GridLongitude(base, width, column)) == if column < width || base.west == 179 then base.west else base.west + 1
  {
    Quotient(column, width);
    Quotient(1, width);
  }

  lemma {:induction false} RowCell(base: Address, row: int)
    requires -89 <= base.south <= 88 && 0 <= row <= 3600
    ensures SourceSouth(GridLatitude(base, 3600, row)) == if row < 3600 then base.south else base.south - 1
  {
    var latitude := GridLatitude(base, 3600, row);
    if row == 0 {
      assert latitude == (base.south + 1) as real;
      OnBorder(base.south + 1);
    } else if row == 3600 {
      assert latitude == base.south as real;
      OnBorder(base.south);
    } else {
      Inside(base.south, row);
    }
  }

  lemma OnBorder(k: int)
    requires -89 <= k <= 89
    ensures SourceSouth(k as real) == k - 1
  {
  }

  lemma Inside(south: int, row: int)
    requires -89 <= south <= 88 && 0 < row < 3600
    ensures SourceSouth((south + 1) as real - row as real / 3600.0) == south
  {
    var latitude := (south + 1) as real - row as real / 3600.0;
    assert south as real + 1.0 / 3600.0 <= latitude <= (south + 1) as real - 1.0 / 3600.0;
    SouthOfInterior(south, latitude);
  }

  lemma SouthOfInterior(south: int, latitude: real)
    requires -90 <= south <= 89 && south as real + TOLERANCE < latitude < (south + 1) as real - TOLERANCE
    ensures SourceSouth(latitude) == south
  {
    var k := Round(latitude);
    assert k <= south ==> latitude - k as real > TOLERANCE;
    assert k >= south + 1 ==> k as real - latitude > TOLERANCE;
    assert Floor(latitude) == south;
  }
}
