/**
 * The .aowterrain format of src/lib/terrain_tile.cpp: a 64-byte header, the dataset name and a
 * payload of 16-bit elevation codes. Bytes are exact; elevations are exact reals, and the 32-bit
 * floating-point format enters only through the three header fields stored in it.
 */
module TerrainTileCodec {
  import opened Wrappers
  import opened Numbers
  import opened TileRange
  import opened Bytes

  const MAGIC: seq<byte> := [65, 79, 87, 84, 82, 78, 0, 0]
  const FIXED_HEADER: int := 64
  const FORMAT_VERSION: int := 1
  const GRID: int := 65
  const SAMPLES: int := 4225
  const PAYLOAD: int := 8450
  const NO_DATA_CODE: int := 65535
  const MAX_CODE: int := 65534
  const MAX_ZOOM: int := 30
  const MAX_DATASET_BYTES: int := 128
  const WEB_MERCATOR: byte := 1
  const UINT16_LINEAR: byte := 1

  // ---------------------------------------------------------------- values

  datatype Number = NaN | Infinite | Finite(value: real)

  datatype Datum = UnknownDatum | Wgs84Ellipsoid | Egm96 | Egm2008 | LocalDatum

  datatype Tile = Tile(zoom: int, x: int, y: int, dataset: seq<byte>, resolution: Number, datum: Datum, elevations: seq<Number>)

  /**
   * 32-bit floating point: rounding to it, the bits of a rounded value, the value of bits, the largest
   * value, the smallest normal one, and the spacing of the subnormal ones below it.
   */
  datatype Float32 = Float32(round: real -> real, bits: real -> int, value: int -> Number,
                             largest: real, normal: real, least: real)

  predicate InFloatRange(f: Float32, x: real) {
    -f.largest <= x <= f.largest
  }

  /** To the nearest integer, halves to the even one. */
  function HalfToEven(x: real): int {
    var k := Floor(x);
    if x - k as real < 0.5 || (x - k as real == 0.5 && k % 2 == 0) then k else k + 1
  }

  /** Half a unit in the last of 24 binary digits, relative to the value. */
  const PRECISION: real := 1.0 / 16777216.0

  /** How far rounding moves: below the normal values to the nearest multiple of the spacing, above by a relative error. */
  ghost predicate RoundsNearest(f: Float32) {
    && 0.0 < f.least && f.normal == 8388608.0 * f.least && f.normal <= f.largest
    && (forall x {:trigger f.round(x)} :: 0.0 <= x < f.normal ==> f.round(x) == HalfToEven(x / f.least) as real * f.least)
    && (forall x {:trigger f.round(x)} :: f.normal <= x <= f.largest ==> AbsReal(f.round(x) - x) <= x * PRECISION)
  }

  /** What is used of the format: rounding keeps sign and range, rounds once, and bits determine the value. */
  ghost predicate Ieee(f: Float32) {
    && f.largest > 0.0 && f.round(0.0) == 0.0
    && (forall x :: 0 <= f.bits(x) < 0x1_0000_0000)
    && (forall x :: f.round(f.round(x)) == f.round(x))
    && (forall x :: x >= 0.0 ==> f.round(x) >= 0.0)
    && (forall x {:trigger f.round(x)} :: InFloatRange(f, x) ==> InFloatRange(f, f.round(x)))
    && (forall x :: InFloatRange(f, x) && f.round(x) == x ==> f.value(f.bits(x)) == Finite(x))
  }

  predicate IsFloat(f: Float32, x: real) {
    InFloatRange(f, x) && f.round(x) == x
  }

  /** Samples are floats already. */
  ghost predicate FloatSamples(f: Float32, elevations: seq<Number>) {
    forall i :: 0 <= i < |elevations| && elevations[i].Finite? ==> IsFloat(f, elevations[i].value)
  }

  function DatumCode(datum: Datum): byte {
    match datum
    case Wgs84Ellipsoid => 1
    case Egm96 => 2
    case Egm2008 => 3
    case LocalDatum => 4
    case UnknownDatum => 0
  }

  function DatumFromCode(code: byte): Option<Datum> {
    if code == 0 then Some(UnknownDatum)
    else if code == 1 then Some(Wgs84Ellipsoid)
    else if code == 2 then Some(Egm96)
    else if code == 3 then Some(Egm2008)
    else if code == 4 then Some(LocalDatum)
    else None
  }

  // ---------------------------------------------------------------- validity

  predicate LetterOrDigit(b: byte) {
    97 <= b <= 122 || 48 <= b <= 57
  }

  predicate DatasetByte(b: byte) {
    LetterOrDigit(b) || b == 45 || b == 95 || b == 46
  }

  predicate ValidDataset(dataset: seq<byte>) {
    && 0 < |dataset| <= MAX_DATASET_BYTES
    && (forall i :: 0 <= i < |dataset| ==> DatasetByte(dataset[i]))
    && LetterOrDigit(dataset[0])
  }

  predicate ValidAddress(zoom: int, x: int, y: int) {
    0 <= zoom <= MAX_ZOOM && 0 <= x < TileCount(zoom) && 0 <= y < TileCount(zoom)
  }

  predicate HasFinite(elevations: seq<Number>) {
    exists i :: 0 <= i < |elevations| && elevations[i].Finite?
  }

  predicate ValidTile(f: Float32, tile: Tile) {
    && ValidAddress(tile.zoom, tile.x, tile.y)
    && ValidDataset(tile.dataset)
    && tile.resolution.Finite? && 0.0 <= tile.resolution.value <= f.largest
    && |tile.elevations| == SAMPLES
    && (forall i :: 0 <= i < |tile.elevations| ==> !tile.elevations[i].Infinite?)
    && HasFinite(tile.elevations)
  }

  // ---------------------------------------------------------------- little-endian fields

  function Put16(v: int): (s: seq<byte>)
    requires 0 <= v < 0x1_0000
    ensures |s| == 2
  {
    [v % 256, v / 256]
  }

  function Put32(v: int): (s: seq<byte>)
    requires 0 <= v < 0x1_0000_0000
    ensures |s| == 4
  {
    [v % 256, v / 256 % 256, v / 65536 % 256, v / 16777216]
  }

  function Get16(data: seq<byte>, offset: nat): (v: int)
    requires offset + 2 <= |data|
    ensures 0 <= v < 0x1_0000
  {
    data[offset] as int + 256 * data[offset + 1] as int
  }

  function Get32(data: seq<byte>, offset: nat): (v: int)
    requires offset + 4 <= |data|
    ensures 0 <= v < 0x1_0000_0000
  {
    data[offset] as int + 256 * data[offset + 1] as int + 65536 * data[offset + 2] as int + 16777216 * data[offset + 3] as int
  }

  lemma Get16OfPut16(data: seq<byte>, offset: nat, v: int)
    requires offset + 2 <= |data| && 0 <= v < 0x1_0000 && data[offset..offset + 2] == Put16(v)
    ensures Get16(data, offset) == v
  {
    var s := data[offset..offset + 2];
    assert s[0] == data[offset] && s[1] == data[offset + 1];
  }

  lemma Get32OfPut32(data: seq<byte>, offset: nat, v: int)
    requires offset + 4 <= |data| && 0 <= v < 0x1_0000_0000 && data[offset..offset + 4] == Put32(v)
    ensures Get32(data, offset) == v
  {
    var s := data[offset..offset + 4];
    assert s[0] == data[offset] && s[1] == data[offset + 1] && s[2] == data[offset + 2] && s[3] == data[offset + 3];
    Digits(v);
  }

  lemma Digits(v: int)
    requires 0 <= v < 0x1_0000_0000
    ensures v == v % 256 + 256 * (v / 256 % 256) + 65536 * (v / 65536 % 256) + 16777216 * (v / 16777216)
  {
    assert v / 256 / 256 == v / 65536;
    assert v / 65536 / 256 == v / 16777216;
    assert v == 256 * (v / 256) + v % 256;
    assert v / 256 == 256 * (v / 256 / 256) + v / 256 % 256;
    assert v / 65536 == 256 * (v / 65536 / 256) + v / 65536 % 256;
  }

  // ---------------------------------------------------------------- the quantizer

  function Lowest(elevations: seq<Number>): Option<real>
    decreases |elevations|
  {
    if elevations == [] then None
    else
      var rest, last := Lowest(elevations[..|elevations| - 1]), elevations[|elevations| - 1];
      if !last.Finite? then rest
      else if rest.Some? && rest.value <= last.value then rest
      else Some(last.value)
  }

  function Highest(elevations: seq<Number>): Option<real>
    decreases |elevations|
  {
    if elevations == [] then None
    else
      var rest, last := Highest(elevations[..|elevations| - 1]), elevations[|elevations| - 1];
      if !last.Finite? then rest
      else if rest.Some? && rest.value >= last.value then rest
      else Some(last.value)
  }

  /** The step between two codes, as the header stores it. */
  function Scale(f: Float32, low: real, high: real): real {
    if high - low > 0.0 then f.round((high - low) / MAX_CODE as real) else 0.0
  }

  /** How many steps a value lies above the lowest. */
  function StepsAbove(value: real, low: real, scale: real): real
    requires scale != 0.0
  {
    (value - low) / scale
  }

  /** The height of a number of steps. */
  function Rise(code: int, scale: real): real {
    code as real * scale
  }

  function ClampCode(code: int): int {
    if code < 0 then 0 else if code > MAX_CODE then MAX_CODE else code
  }

  function Code(elevation: Number, low: real, scale: real): (code: int)
    ensures 0 <= code <= NO_DATA_CODE
    ensures code == NO_DATA_CODE <==> !elevation.Finite?
  {
    if !elevation.Finite? then NO_DATA_CODE
    else if scale == 0.0 then 0
    else ClampCode(Round(StepsAbove(elevation.value, low, scale)))
  }

  function Payload(elevations: seq<Number>, low: real, scale: real): (payload: seq<byte>)
    ensures |payload| == 2 * |elevations|
    decreases |elevations|
  {
    if elevations == [] then []
    else Payload(elevations[..|elevations| - 1], low, scale) + Put16(Code(elevations[|elevations| - 1], low, scale))
  }

  /** What a code stands for. */
  function Elevation(code: int, low: real, scale: real): Number {
    if code == NO_DATA_CODE then NaN else Finite(low + Rise(code, scale))
  }

  // ---------------------------------------------------------------- the CRC field

  function BitValue(on: bool, value: int): int {
    if on then value else 0
  }

  predicate On(word: bv32, mask: bv32) {
    word & mask != 0
  }

  function ByteFrom(b0: bool, b1: bool, b2: bool, b3: bool, b4: bool, b5: bool, b6: bool, b7: bool): byte {
    BitValue(b0, 1) + BitValue(b1, 2) + BitValue(b2, 4) + BitValue(b3, 8)
    + BitValue(b4, 16) + BitValue(b5, 32) + BitValue(b6, 64) + BitValue(b7, 128)
  }

  /** The low byte of a word. */
  function ByteOf(word: bv32): byte {
    ByteFrom(On(word, 1), On(word, 2), On(word, 4), On(word, 8), On(word, 16), On(word, 32), On(word, 64), On(word, 128))
  }

  function CrcField(crc: bv32): (s: seq<byte>)
    ensures |s| == 4
  {
    [ByteOf(crc), ByteOf(crc >> 8), ByteOf(crc >> 16), ByteOf(crc >> 24)]
  }

  predicate SameByte(a: bv32, b: bv32) {
    && On(a, 1) == On(b, 1) && On(a, 2) == On(b, 2) && On(a, 4) == On(b, 4) && On(a, 8) == On(b, 8)
    && On(a, 16) == On(b, 16) && On(a, 32) == On(b, 32) && On(a, 64) == On(b, 64) && On(a, 128) == On(b, 128)
  }

  lemma BitsTell(a0: bool, a1: bool, a2: bool, a3: bool, a4: bool, a5: bool, a6: bool, a7: bool,
                 b0: bool, b1: bool, b2: bool, b3: bool, b4: bool, b5: bool, b6: bool, b7: bool)
    requires ByteFrom(a0, a1, a2, a3, a4, a5, a6, a7) == ByteFrom(b0, b1, b2, b3, b4, b5, b6, b7)
    ensures a0 == b0 && a1 == b1 && a2 == b2 && a3 == b3 && a4 == b4 && a5 == b5 && a6 == b6 && a7 == b7
  {
  }

  lemma ByteOfTells(a: bv32, b: bv32)
    requires ByteOf(a) == ByteOf(b)
    ensures SameByte(a, b)
  {
    BitsTell(On(a, 1), On(a, 2), On(a, 4), On(a, 8), On(a, 16), On(a, 32), On(a, 64), On(a, 128),
             On(b, 1), On(b, 2), On(b, 4), On(b, 8), On(b, 16), On(b, 32), On(b, 64), On(b, 128));
  }

  lemma FourBytesTell(a: bv32, b: bv32)
    requires SameByte(a, b) && SameByte(a >> 8, b >> 8) && SameByte(a >> 16, b >> 16) && SameByte(a >> 24, b >> 24)
    ensures a == b
  {
  }

  lemma FieldTells(a: bv32, b: bv32)
    requires CrcField(a) == CrcField(b)
    ensures ByteOf(a) == ByteOf(b) && ByteOf(a >> 8) == ByteOf(b >> 8)
    ensures ByteOf(a >> 16) == ByteOf(b >> 16) && ByteOf(a >> 24) == ByteOf(b >> 24)
  {
    assert CrcField(a)[0] == CrcField(b)[0] && CrcField(a)[1] == CrcField(b)[1];
    assert CrcField(a)[2] == CrcField(b)[2] && CrcField(a)[3] == CrcField(b)[3];
  }

  /** The header field determines the CRC. */
  lemma CrcFieldIsInjective(a: bv32, b: bv32)
    requires CrcField(a) == CrcField(b)
    ensures a == b
  {
    FieldTells(a, b);
    ByteOfTells(a, b);
    ByteOfTells(a >> 8, b >> 8);
    ByteOfTells(a >> 16, b >> 16);
    ByteOfTells(a >> 24, b >> 24);
    FourBytesTell(a, b);
  }
}
