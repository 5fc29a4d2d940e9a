/** What reading a written terrain tile yields, what writing it again yields, and what damage does. */
module TerrainTileRoundTrip {
  import opened Wrappers
  import opened Numbers
  import opened TileRange
  import opened Bytes
  import opened Crc32
  import opened TerrainTileCodec
  import opened TerrainTileFile

  // ---------------------------------------------------------------- fields of an assembled file

  /** A part of a concatenation is found where the parts before it end. */
  lemma PartAt(before: seq<byte>, part: seq<byte>, after: seq<byte>, from: nat, to: nat)
    requires from <= to <= |part|
    ensures (before + part + after)[|before| + from..|before| + to] == part[from..to]
  {
  }

  lemma {:induction false} StartRead(data: seq<byte>, rest: seq<byte>, datasetBytes: nat, datum: Datum)
    requires datasetBytes <= MAX_DATASET_BYTES && |rest| >= 44 && data == StartFields(datasetBytes, datum) + rest
    ensures data[..8] == MAGIC && Get16(data, 8) == FORMAT_VERSION && Get16(data, 10) == FIXED_HEADER + datasetBytes
    ensures Get32(data, 12) == 0 && data[16] == WEB_MERCATOR && data[17] == UINT16_LINEAR
    ensures data[18] == DatumCode(datum) && data[19] == 0
  {
    var start := StartFields(datasetBytes, datum);
    forall i | 0 <= i < 20 ensures data[i] == start[i] {
    }
    assert data[..8] == start[..8] == MAGIC;
    assert start[8..10] == Put16(FORMAT_VERSION) && start[10..12] == Put16(FIXED_HEADER + datasetBytes) && start[12..16] == Put32(0);
    assert data[8..10] == start[8..10] && data[10..12] == start[10..12] && data[12..16] == start[12..16];
    Get16OfPut16(data, 8, FORMAT_VERSION);
    Get16OfPut16(data, 10, FIXED_HEADER + datasetBytes);
    Get32OfPut32(data, 12, 0);
  }

  lemma {:induction false} GridRead(data: seq<byte>, before: seq<byte>, rest: seq<byte>, zoom: nat)
    requires zoom <= MAX_ZOOM && |before| == 20 && |rest| >= 36 && data == before + GridFields(zoom) + rest
    ensures Get16(data, 20) == GRID && Get16(data, 22) == GRID && data[24] == zoom && data[25] == 0 && data[26] == 0 && data[27] == 0
  {
    var grid := GridFields(zoom);
    forall i | 0 <= i < 8 ensures data[20 + i] == grid[i] {
    }
    assert data[24] == data[20 + 4] && data[25] == data[20 + 5] && data[26] == data[20 + 6] && data[27] == data[20 + 7];
    PartAt(before, grid, rest, 0, 2);
    PartAt(before, grid, rest, 2, 4);
    assert grid[0..2] == Put16(GRID) && grid[2..4] == Put16(GRID);
    Get16OfPut16(data, 20, GRID);
    Get16OfPut16(data, 22, GRID);
  }

  lemma {:induction false} NumbersRead(data: seq<byte>, before: seq<byte>, rest: seq<byte>, x: int, y: int, low: int, scale: int, resolution: int)
    requires 0 <= x < 0x1_0000_0000 && 0 <= y < 0x1_0000_0000 && 0 <= low < 0x1_0000_0000
    requires 0 <= scale < 0x1_0000_0000 && 0 <= resolution < 0x1_0000_0000
    requires |before| == 28 && |rest| >= 16 && data == before + NumberFields(x, y, low, scale, resolution) + rest
    ensures Get32(data, 28) == x && Get32(data, 32) == y && Get32(data, 36) == low && Get32(data, 40) == scale && Get32(data, 44) == resolution
  {
    var part := NumberFields(x, y, low, scale, resolution);
    assert part[0..4] == Put32(x) && part[4..8] == Put32(y) && part[8..12] == Put32(low);
    assert part[12..16] == Put32(scale) && part[16..] == Put32(resolution) && part[16..20] == part[16..];
    PartAt(before, part, rest, 0, 4);
    PartAt(before, part, rest, 4, 8);
    PartAt(before, part, rest, 8, 12);
    PartAt(before, part, rest, 12, 16);
    PartAt(before, part, rest, 16, 20);
    Get32OfPut32(data, 28, x);
    Get32OfPut32(data, 32, y);
    Get32OfPut32(data, 36, low);
    Get32OfPut32(data, 40, scale);
    Get32OfPut32(data, 44, resolution);
  }

  lemma {:induction false} EndRead(data: seq<byte>, before: seq<byte>, rest: seq<byte>, datasetBytes: nat, crc: bv32)
    requires datasetBytes <= MAX_DATASET_BYTES && |before| == 48 && data == before + EndFields(datasetBytes, crc) + rest
    ensures Get16(data, 48) == datasetBytes && Get16(data, 50) == 0 && Get32(data, 52) == SAMPLES && Get32(data, 56) == PAYLOAD
    ensures data[60..64] == CrcField(crc)
  {
    var part := EndFields(datasetBytes, crc);
    assert part[0..2] == Put16(datasetBytes) && part[2..4] == Put16(0) && part[4..8] == Put32(SAMPLES);
    assert part[8..12] == Put32(PAYLOAD) && part[12..] == CrcField(crc) && part[12..16] == part[12..];
    PartAt(before, part, rest, 0, 2);
    PartAt(before, part, rest, 2, 4);
    PartAt(before, part, rest, 4, 8);
    PartAt(before, part, rest, 8, 12);
    PartAt(before, part, rest, 12, 16);
    Get16OfPut16(data, 48, datasetBytes);
    Get16OfPut16(data, 50, 0);
    Get32OfPut32(data, 52, SAMPLES);
    Get32OfPut32(data, 56, PAYLOAD);
  }

  // ---------------------------------------------------------------- codes read back

  lemma {:induction false} CodeRead(elevations: seq<Number>, low: real, scale: real, i: nat)
    requires i < |elevations|
    ensures Get16(Payload(elevations, low, scale), 2 * i) == Code(elevations[i], low, scale)
    decreases |elevations|
  {
    var n := |elevations| - 1;
    var front, last := Payload(elevations[..n], low, scale), Put16(Code(elevations[n], low, scale));
    if i < n {
      CodeRead(elevations[..n], low, scale, i);
      assert elevations[..n][i] == elevations[i];
    } else {
      assert (front + last)[2 * n..2 * n + 2] == last;
      Get16OfPut16(front + last, 2 * n, Code(elevations[n], low, scale));
    }
  }

  /** The samples a reader makes of the codes. */
  function Quantized(elevations: seq<Number>, low: real, scale: real): (r: seq<Number>)
    ensures |r| == |elevations|
  {
    seq(|elevations|, i requires 0 <= i < |elevations| => Elevation(Code(elevations[i], low, scale), low, scale))
  }

  lemma {:induction false} SamplesRead(elevations: seq<Number>, low: real, scale: real)
    ensures Samples(Payload(elevations, low, scale), low, scale, |elevations|) == Quantized(elevations, low, scale)
  {
    var r := Samples(Payload(elevations, low, scale), low, scale, |elevations|);
    forall i | 0 <= i < |elevations| ensures r[i] == Quantized(elevations, low, scale)[i] {
      CodeRead(elevations, low, scale, i);
    }
  }

  // ---------------------------------------------------------------- extremes

  lemma {:induction false} LowestBounds(elevations: seq<Number>, i: nat)
    requires i < |elevations| && elevations[i].Finite?
    ensures Lowest(elevations).Some? && Lowest(elevations).value <= elevations[i].value
    ensures Highest(elevations).Some? && Highest(elevations).value >= elevations[i].value
    decreases |elevations|
  {
    if i < |elevations| - 1 {
      LowestBounds(elevations[..|elevations| - 1], i);
    }
  }

  lemma {:induction false} ExtremesAttained(elevations: seq<Number>) returns (i: nat, j: nat)
    requires Lowest(elevations).Some? && Highest(elevations).Some?
    ensures i < |elevations| && elevations[i] == Finite(Lowest(elevations).value)
    ensures j < |elevations| && elevations[j] == Finite(Highest(elevations).value)
    decreases |elevations|
  {
    var n := |elevations| - 1;
    var rest := elevations[..n];
    i, j := n, n;
    if Lowest(rest).Some? {
      BothOrNeither(rest);
      var a, b := ExtremesAttained(rest);
      if Lowest(elevations) == Lowest(rest) {
        i := a;
      }
      if Highest(elevations) == Highest(rest) {
        j := b;
      }
    } else {
      BothOrNeither(rest);
    }
  }

  lemma {:induction false} BothOrNeither(elevations: seq<Number>)
    ensures Lowest(elevations).Some? <==> Highest(elevations).Some?
    decreases |elevations|
  {
    if elevations != [] {
      BothOrNeither(elevations[..|elevations| - 1]);
    }
  }

  /** A value that occurs and bounds all others is the extreme. */
  lemma {:induction false} ExtremesAre(elevations: seq<Number>, low: real, high: real, i: nat, j: nat)
    requires i < |elevations| && elevations[i] == Finite(low) && j < |elevations| && elevations[j] == Finite(high)
    requires forall k :: 0 <= k < |elevations| && elevations[k].Finite? ==> low <= elevations[k].value <= high
    ensures Lowest(elevations) == Some(low) && Highest(elevations) == Some(high)
  {
    LowestBounds(elevations, i);
    LowestBounds(elevations, j);
    var a, b := ExtremesAttained(elevations);
    assert low <= elevations[a].value && elevations[b].value <= high;
  }

  // ---------------------------------------------------------------- reading what was written

  /** What a reader makes of a tile: everything as it was, the elevations as their codes say. */
  function Reread(f: Float32, tile: Tile): Tile
    requires ValidTile(f, tile)
  {
    HasExtremes(tile.elevations);
    var low := Lowest(tile.elevations).value;
    var scale := Scale(f, low, Highest(tile.elevations).value);
    tile.(resolution := Finite(f.round(tile.resolution.value)), elevations := Quantized(tile.elevations, low, scale))
  }

  lemma {:induction false} FieldsOfAssembled(f: Float32, tile: Tile, low: real, scale: real)
    requires Ieee(f) && ValidTile(f, tile)
    ensures var data := Assemble(f, tile, low, scale);
            && FixedFieldsOk(data) && LengthsOk(data)
            && Get32(data, 28) == tile.x && Get32(data, 32) == tile.y && Get32(data, 36) == f.bits(low)
            && Get32(data, 40) == f.bits(scale) && Get32(data, 44) == f.bits(f.round(tile.resolution.value))
            && data[18] == DatumCode(tile.datum) && data[24] == tile.zoom
            && DatasetOf(data) == tile.dataset && PayloadOf(data) == Payload(tile.elevations, low, scale)
            && data[60..64] == CrcField(Crc(Payload(tile.elevations, low, scale)))
  {
    ZoomBounds(tile.zoom);
    var payload := Payload(tile.elevations, low, scale);
    var start, grid := StartFields(|tile.dataset|, tile.datum), GridFields(tile.zoom);
    var numbers := NumberFields(tile.x, tile.y, f.bits(low), f.bits(scale), f.bits(f.round(tile.resolution.value)));
    var end := EndFields(|tile.dataset|, Crc(payload));
    var data := Assemble(f, tile, low, scale);
    Regroup(start, grid, numbers, end, tile.dataset, payload, data);
    StartRead(data, grid + numbers + end + tile.dataset + payload, |tile.dataset|, tile.datum);
    GridRead(data, start, numbers + end + tile.dataset + payload, tile.zoom);
    NumbersRead(data, start + grid, end + tile.dataset + payload, tile.x, tile.y, f.bits(low), f.bits(scale),
                f.bits(f.round(tile.resolution.value)));
    EndRead(data, start + grid + numbers, tile.dataset + payload, |tile.dataset|, Crc(payload));
    TailParts(start + grid + numbers + end, tile.dataset, payload, data);
  }

  lemma Regroup(a: seq<byte>, b: seq<byte>, c: seq<byte>, d: seq<byte>, e: seq<byte>, p: seq<byte>, data: seq<byte>)
    requires data == a + b + c + d + e + p
    ensures data == a + (b + c + d + e + p)
    ensures data == a + b + (c + d + e + p)
    ensures data == a + b + c + (d + e + p)
    ensures data == a + b + c + d + (e + p)
  {
  }

  lemma TailParts(header: seq<byte>, dataset: seq<byte>, payload: seq<byte>, data: seq<byte>)
    requires data == header + dataset + payload
    ensures data[|header|..|header| + |dataset|] == dataset && data[|header| + |dataset|..] == payload
  {
  }

  lemma DatumCodeRead(datum: Datum)
    ensures DatumFromCode(DatumCode(datum)) == Some(datum)
  {
  }

  /** The three header numbers of a valid tile of float samples are floats and are read back exactly. */
  lemma {:induction false} HeaderNumbersRead(f: Float32, tile: Tile, low: real, high: real)
    requires Ieee(f) && ValidTile(f, tile) && FloatSamples(f, tile.elevations)
    requires Lowest(tile.elevations) == Some(low) && Highest(tile.elevations) == Some(high)
    ensures f.value(f.bits(low)) == Finite(low)
    ensures f.value(f.bits(Scale(f, low, high))) == Finite(Scale(f, low, high)) && Scale(f, low, high) >= 0.0
    ensures f.value(f.bits(f.round(tile.resolution.value))) == Finite(f.round(tile.resolution.value))
    ensures f.round(tile.resolution.value) >= 0.0 && low <= high
  {
    var i, j := ExtremesAttained(tile.elevations);
    LowestBounds(tile.elevations, i);
    assert IsFloat(f, low) && IsFloat(f, high);
    var step := (high - low) / MAX_CODE as real;
    assert 0.0 <= step <= f.largest;
  }

  lemma {:induction false} QuantizedHasFinite(elevations: seq<Number>, low: real, scale: real)
    requires HasFinite(elevations)
    ensures HasFinite(Quantized(elevations, low, scale))
  {
    var i :| 0 <= i < |elevations| && elevations[i].Finite?;
    assert Quantized(elevations, low, scale)[i].Finite?;
  }

  /** What the reader does with the fields of an assembled file. */
  lemma {:induction false} ReadFields(f: Float32, tile: Tile, data: seq<byte>, low: real, scale: real, resolution: real)
    requires ValidTile(f, tile) && |data| >= FIXED_HEADER && FixedFieldsOk(data) && LengthsOk(data)
    requires Get32(data, 28) == tile.x && Get32(data, 32) == tile.y && data[18] == DatumCode(tile.datum) && data[24] == tile.zoom
    requires f.value(Get32(data, 36)) == Finite(low) && f.value(Get32(data, 40)) == Finite(scale) && scale >= 0.0
    requires f.value(Get32(data, 44)) == Finite(resolution) && resolution >= 0.0
    requires DatasetOf(data) == tile.dataset && data[60..64] == CrcField(Crc(PayloadOf(data)))
    requires Samples(PayloadOf(data), low, scale, SAMPLES) == Quantized(tile.elevations, low, scale)
    ensures Decoded(f, data) == Some(tile.(resolution := Finite(resolution), elevations := Quantized(tile.elevations, low, scale)))
  {
    DatumCodeRead(tile.datum);
    QuantizedHasFinite(tile.elevations, low, scale);
  }

  /** Reading a written tile yields its address, dataset and datum, the rounded resolution and the quantized samples. */
  lemma {:induction false} ReadOfWritten(f: Float32, tile: Tile)
    requires Ieee(f) && ValidTile(f, tile) && FloatSamples(f, tile.elevations)
    ensures Decoded(f, Encoded(f, tile)) == Some(Reread(f, tile))
  {
    HasExtremes(tile.elevations);
    var low, high := Lowest(tile.elevations).value, Highest(tile.elevations).value;
    ReadOfAssembled(f, tile, low, high, Scale(f, low, high));
  }

  lemma {:induction false} ReadOfAssembled(f: Float32, tile: Tile, low: real, high: real, scale: real)
    requires Ieee(f) && ValidTile(f, tile) && FloatSamples(f, tile.elevations)
    requires Lowest(tile.elevations) == Some(low) && Highest(tile.elevations) == Some(high) && scale == Scale(f, low, high)
    ensures Decoded(f, Assemble(f, tile, low, scale))
            == Some(tile.(resolution := Finite(f.round(tile.resolution.value)), elevations := Quantized(tile.elevations, low, scale)))
  {
    FieldsOfAssembled(f, tile, low, scale);
    HeaderNumbersRead(f, tile, low, high);
    SamplesRead(tile.elevations, low, scale);
    ReadFields(f, tile, Assemble(f, tile, low, scale), low, scale, f.round(tile.resolution.value));
  }

  // ---------------------------------------------------------------- the quantizer

  /** The stored step is the exact one. */
  predicate ExactScale(f: Float32, low: real, high: real) {
    high > low ==> f.round((high - low) / MAX_CODE as real) == (high - low) / MAX_CODE as real
  }

  function MaxReal(a: real, b: real): real { if a >= b then a else b }

  /** The most a tile can lose: half a stored step, or what the highest code falls short of the highest sample. */
  function Loss(f: Float32, low: real, high: real): real {
    var scale := Scale(f, low, high);
    MaxReal(scale / 2.0, high - low - Rise(MAX_CODE, scale))
  }

  /** The highest code reaches the highest sample, but for half a stored step. */
  predicate CodesReach(f: Float32, low: real, high: real) {
    high - low <= Rise(MAX_CODE, Scale(f, low, high)) + Scale(f, low, high) / 2.0
  }

  lemma Sign(x: real, n: real)
    requires n > 0.0
    ensures x < 0.0 ==> x * n < 0.0
    ensures x > 0.0 ==> x * n > 0.0
  {
  }

  /** Multiplying a difference. */
  lemma Scaled(a: real, b: real, n: real, an: real, bn: real)
    requires an == a * n && bn == b * n
    ensures (a - b) * n == an - bn
  {
  }

  lemma Ordered(a: real, b: real, n: real, an: real, bn: real)
    requires n > 0.0 && an == a * n && bn == b * n
    ensures a <= b <==> an <= bn
  {
    Scaled(b, a, n, bn, an);
    Sign(b - a, n);
  }

  lemma Undivide(a: real, n: real, q: real)
    requires n != 0.0 && q == a / n
    ensures q * n == a
  {
  }

  /** How many stored steps a sample lies above the lowest, and that many steps. */
  lemma Position(value: real, low: real, scale: real) returns (p: real, ps: real)
    requires low <= value && scale > 0.0
    ensures p == StepsAbove(value, low, scale) && p >= 0.0 && ps == p * scale && ps == value - low
    ensures value == low ==> p == 0.0
  {
    p := StepsAbove(value, low, scale);
    ps := p * scale;
    Undivide(value - low, scale, p);
    Ordered(0.0, p, scale, 0.0, ps);
    Ordered(p, 0.0, scale, ps, 0.0);
  }

  lemma HalfStep(c: real, p: real, scale: real, cs: real, ps: real)
    requires scale > 0.0 && -0.5 <= c - p <= 0.5 && cs == c * scale && ps == p * scale
    ensures -scale / 2.0 <= cs - ps <= scale / 2.0
  {
    Scaled(c, p, scale, cs, ps);
    Ordered(c - p, 0.5, scale, cs - ps, scale / 2.0);
    Ordered(-0.5, c - p, scale, -scale / 2.0, cs - ps);
  }

  lemma RiseOrdered(a: int, b: int, scale: real)
    requires a <= b && scale >= 0.0
    ensures Rise(a, scale) <= Rise(b, scale)
  {
    if scale > 0.0 {
      Ordered(a as real, b as real, scale, Rise(a, scale), Rise(b, scale));
    } else {
      assert Rise(a, 0.0) == 0.0 && Rise(b, 0.0) == 0.0;
    }
  }

  lemma RiseOfZero(scale: real)
    ensures Rise(0, scale) == 0.0
  {
  }

  /** A code never overshoots its sample by more than half a step, and falls short by more only at the highest code. */
  lemma {:induction false} CodeIsClose(value: real, low: real, scale: real)
    requires low <= value && scale >= 0.0
    ensures var code := Code(Finite(value), low, scale); var rise := Rise(code, scale);
            && code <= MAX_CODE
            && rise - (value - low) <= scale / 2.0
            && (-scale / 2.0 <= rise - (value - low) || rise == Rise(MAX_CODE, scale))
            && (value == low ==> rise == 0.0)
  {
    RiseOfZero(scale);
    if scale > 0.0 {
      var p, ps := Position(value, low, scale);
      HalfStep(Round(p) as real, p, scale, Rise(Round(p), scale), ps);
      if Round(p) > MAX_CODE {
        RiseOrdered(MAX_CODE, Round(p), scale);
      }
    } else {
      assert Rise(MAX_CODE, 0.0) == 0.0;
    }
  }

  /** One sample back from its code, compared with what it was. */
  predicate ComesBack(was: Number, back: Number, low: real, loss: real) {
    && (was.NaN? <==> back.NaN?) && !back.Infinite?
    && (was.Finite? ==> -loss <= back.value - was.value <= loss && (was.value == low ==> back.value == low))
  }

  lemma {:induction false} SampleComesBack(f: Float32, was: Number, low: real, high: real, scale: real)
    requires Ieee(f) && !was.Infinite? && (was.Finite? ==> low <= was.value <= high)
    requires scale == Scale(f, low, high)
    ensures ComesBack(was, Elevation(Code(was, low, scale), low, scale), low, Loss(f, low, high))
  {
    if was.Finite? {
      CodeIsClose(was.value, low, scale);
    }
  }

  /**
   * Every sample of every tile comes back: no-data as no-data, the minimum exactly, and every elevation
   * within the loss, which is half a stored step exactly when the highest code reaches the highest sample.
   */
  lemma {:induction false} SamplesComeBack(f: Float32, tile: Tile, low: real, high: real)
    requires Ieee(f) && ValidTile(f, tile)
    requires Lowest(tile.elevations) == Some(low) && Highest(tile.elevations) == Some(high)
    ensures forall i :: 0 <= i < |tile.elevations| ==>
              ComesBack(tile.elevations[i], Reread(f, tile).elevations[i], low, Loss(f, low, high))
    ensures Loss(f, low, high) == Scale(f, low, high) / 2.0 <==> CodesReach(f, low, high)
  {
    forall i | 0 <= i < |tile.elevations|
      ensures ComesBack(tile.elevations[i], Reread(f, tile).elevations[i], low, Loss(f, low, high))
    {
      if tile.elevations[i].Finite? {
        LowestBounds(tile.elevations, i);
      }
      SampleComesBack(f, tile.elevations[i], low, high, Scale(f, low, high));
    }
  }

  ghost predicate WithinHalfStep(was: seq<Number>, back: seq<Number>, scale: real)
    requires |was| == |back|
  {
    forall i :: 0 <= i < |was| && was[i].Finite? ==> back[i].Finite? && -scale / 2.0 <= back[i].value - was[i].value <= scale / 2.0
  }

  /** All elevations are within half a stored step if and only if the highest code reaches the highest sample. */
  lemma {:induction false} HalfStepIff(f: Float32, tile: Tile, low: real, high: real)
    requires Ieee(f) && ValidTile(f, tile)
    requires Lowest(tile.elevations) == Some(low) && Highest(tile.elevations) == Some(high)
    ensures WithinHalfStep(tile.elevations, Reread(f, tile).elevations, Scale(f, low, high)) <==> CodesReach(f, low, high)
  {
    var was, back, scale := tile.elevations, Reread(f, tile).elevations, Scale(f, low, high);
    SamplesComeBack(f, tile, low, high);
    var i, j := ExtremesAttained(was);
    LowestBounds(was, i);
    RiseOrdered(Code(was[j], low, scale), MAX_CODE, scale);
    if CodesReach(f, low, high) {
      forall k | 0 <= k < |was| && was[k].Finite?
        ensures back[k].Finite? && -scale / 2.0 <= back[k].value - was[k].value <= scale / 2.0
      {
        assert ComesBack(was[k], back[k], low, Loss(f, low, high));
      }
    }
  }

  // ---------------------------------------------------------------- ordinary steps and steps that vanish

  /** The exact step is a normal value, as it is for every range above 1e-33 m. */
  predicate NormalStep(f: Float32, low: real, high: real) {
    (high - low) / MAX_CODE as real >= f.normal
  }

  lemma StepInRange(f: Float32, low: real, high: real)
    requires Ieee(f) && InFloatRange(f, low) && InFloatRange(f, high) && low < high
    ensures 0.0 < (high - low) / MAX_CODE as real <= f.largest
    ensures high - low == (high - low) / MAX_CODE as real * MAX_CODE as real
  {
  }

  /** An ordinary stored step is so close to the exact one that the highest sample gets the highest code. */
  lemma {:induction false} NormalStepReaches(f: Float32, low: real, high: real)
    requires Ieee(f) && RoundsNearest(f) && InFloatRange(f, low) && InFloatRange(f, high) && NormalStep(f, low, high)
    ensures CodesReach(f, low, high) && Scale(f, low, high) > 0.0 && Code(Finite(high), low, Scale(f, low, high)) == MAX_CODE
  {
    var step := (high - low) / MAX_CODE as real;
    StepInRange(f, low, high);
    CloseStep(step, f.round(step), step * PRECISION);
    TopCode(low, high, f.round(step));
  }

  lemma TopCode(low: real, high: real, scale: real)
    requires scale > 0.0 && low <= high && -scale / 4.0 <= high - low - Rise(MAX_CODE, scale) <= scale / 4.0
    ensures Code(Finite(high), low, scale) == MAX_CODE
  {
    var p, ps := Position(high, low, scale);
    NearTop(p, scale, ps, MAX_CODE as real, Rise(MAX_CODE, scale));
  }

  lemma CloseStep(step: real, scale: real, error: real)
    requires step > 0.0 && error == step * PRECISION && AbsReal(scale - step) <= error
    ensures scale > 0.0
    ensures var top := scale * MAX_CODE as real; var range := step * MAX_CODE as real;
      Rise(MAX_CODE, scale) == top && range <= top + scale / 4.0 && top <= range + scale / 4.0
  {
  }

  lemma NearTop(p: real, scale: real, ps: real, top: real, ts: real)
    requires scale > 0.0 && ps == p * scale && ts == top * scale && -scale / 4.0 <= ps - ts <= scale / 4.0
    ensures -0.25 <= p - top <= 0.25
  {
    Scaled(p, top, scale, ps, ts);
    Ordered(p - top, 0.25, scale, ps - ts, scale / 4.0);
    Ordered(0.25, p - top, scale, scale / 4.0, ps - ts);
    Ordered(-0.25, p - top, scale, -scale / 4.0, ps - ts);
    Ordered(p - top, -0.25, scale, ps - ts, -scale / 4.0);
  }

  /** The stored step vanishes exactly for ranges up to 32767 times the least float. */
  lemma {:induction false} StepVanishesIff(f: Float32, low: real, high: real)
    requires Ieee(f) && RoundsNearest(f) && InFloatRange(f, low) && InFloatRange(f, high) && low < high
    ensures Scale(f, low, high) == 0.0 <==> high - low <= 32767.0 * f.least
  {
    var step := (high - low) / MAX_CODE as real;
    StepInRange(f, low, high);
    if NormalStep(f, low, high) {
      NormalStepReaches(f, low, high);
      LargeStep(f, step);
    } else {
      FaintStep(f, step);
    }
  }

  lemma {:induction false} FaintStep(f: Float32, step: real)
    requires RoundsNearest(f) && 0.0 < step < f.normal
    ensures f.round(step) == 0.0 <==> step * MAX_CODE as real <= 32767.0 * f.least
  {
    MultipleOfLeast(step / f.least, f.least, step);
  }

  lemma LargeStep(f: Float32, step: real)
    requires 0.0 < f.least < f.normal <= step
    ensures step * MAX_CODE as real > 32767.0 * f.least
  {
  }

  lemma MultipleOfLeast(q: real, least: real, step: real)
    requires least > 0.0 && step > 0.0 && q == step / least
    ensures HalfToEven(q) as real * least == 0.0 <==> step * MAX_CODE as real <= 32767.0 * least
  {
    Undivide(step, least, q);
    Ordered(q, 0.5, least, step, 0.5 * least);
    Ordered(0.0, q, least, 0.0, step);
    Ordered(q, 0.0, least, step, 0.0);
    Sign(HalfToEven(q) as real, least);
  }

  /** With a step that vanishes every elevation reads back as the minimum: the loss is the whole range. */
  lemma {:induction false} VanishedStepFlattens(f: Float32, tile: Tile, low: real, high: real)
    requires Ieee(f) && ValidTile(f, tile)
    requires Lowest(tile.elevations) == Some(low) && Highest(tile.elevations) == Some(high) && Scale(f, low, high) == 0.0
    ensures forall i :: 0 <= i < |tile.elevations| && tile.elevations[i].Finite? ==> Reread(f, tile).elevations[i] == Finite(low)
    ensures low < high ==> !CodesReach(f, low, high)
  {
    RiseOfZero(0.0);
    assert Rise(MAX_CODE, 0.0) == 0.0;
  }

  /** One sample that rises by `spike` out of a plain of zeros. */
  function SpikeTile(tile: Tile, spike: real): Tile {
    tile.(elevations := seq(SAMPLES, i => if i == 0 then Finite(spike) else Finite(0.0)))
  }

  lemma {:induction false} SpikeIsValid(f: Float32, tile: Tile, spike: real, t: Tile)
    requires Ieee(f) && ValidTile(f, tile) && spike > 0.0 && IsFloat(f, spike) && t == SpikeTile(tile, spike)
    ensures ValidTile(f, t) && FloatSamples(f, t.elevations)
    ensures Lowest(t.elevations) == Some(0.0) && Highest(t.elevations) == Some(spike)
  {
    assert t.elevations[0] == Finite(spike) && t.elevations[1] == Finite(0.0);
    ExtremesAre(t.elevations, 0.0, spike, 1, 0);
  }

  /** A spike of the least float is flattened: it reads back as zero. */
  lemma {:induction false} FaintSpikeIsFlattened(f: Float32, tile: Tile)
    requires Ieee(f) && RoundsNearest(f) && ValidTile(f, tile)
    ensures var faint := SpikeTile(tile, f.least);
      ValidTile(f, faint) && FloatSamples(f, faint.elevations)
      && faint.elevations[0] == Finite(f.least) && Reread(f, faint).elevations[0] == Finite(0.0)
  {
    FaintRound(f, 1.0, f.least);
    SpikeIsValid(f, tile, f.least, SpikeTile(tile, f.least));
    StepVanishesIff(f, 0.0, f.least);
    VanishedStepFlattens(f, SpikeTile(tile, f.least), 0.0, f.least);
  }

  lemma LeastMultiple(f: Float32, q: real, x: real)
    requires f.least > 0.0 && x == q * f.least
    ensures x / f.least == q
  {
    Undivide(x, f.least, x / f.least);
    Ordered(q, x / f.least, f.least, x, x);
    Ordered(x / f.least, q, f.least, x, x);
  }

  lemma {:induction false} FaintRound(f: Float32, q: real, x: real)
    requires RoundsNearest(f) && x == q * f.least && 0.0 <= q < 8388608.0
    ensures f.round(x) == HalfToEven(q) as real * f.least && 0.0 <= x < f.largest
  {
    LeastMultiple(f, q, x);
    Ordered(0.0, q, f.least, 0.0, x);
    Ordered(8388608.0, q, f.least, f.normal, x);
  }

  // ---------------------------------------------------------------- writing again

  /** The code of a code's elevation is the code. */
  lemma {:induction false} CodeOfCode(code: int, low: real, scale: real)
    requires 0 <= code <= MAX_CODE && scale >= 0.0 && (scale == 0.0 ==> code == 0)
    ensures Code(Finite(low + Rise(code, scale)), low, scale) == code
  {
    if scale > 0.0 {
      StepsOfRise(code, low, scale);
      assert Round(code as real) == code;
    }
  }

  lemma StepsOfRise(code: int, low: real, scale: real)
    requires scale > 0.0
    ensures StepsAbove(low + Rise(code, scale), low, scale) == code as real
  {
    var q := StepsAbove(low + Rise(code, scale), low, scale);
    Undivide(low + Rise(code, scale) - low, scale, q);
    Ordered(q, code as real, scale, q * scale, Rise(code, scale));
    Ordered(code as real, q, scale, Rise(code, scale), q * scale);
  }

  lemma {:induction false} CodeOfSample(sample: Number, low: real, scale: real)
    requires scale >= 0.0 && !sample.Infinite?
    ensures Code(Elevation(Code(sample, low, scale), low, scale), low, scale) == Code(sample, low, scale)
  {
    if sample.Finite? {
      CodeOfCode(Code(sample, low, scale), low, scale);
    }
  }

  lemma {:induction false} PayloadOfQuantized(elevations: seq<Number>, low: real, scale: real)
    requires scale >= 0.0
    requires forall i :: 0 <= i < |elevations| ==> !elevations[i].Infinite?
    ensures Payload(Quantized(elevations, low, scale), low, scale) == Payload(elevations, low, scale)
    decreases |elevations|
  {
    if elevations != [] {
      var n := |elevations| - 1;
      PayloadOfQuantized(elevations[..n], low, scale);
      assert Quantized(elevations, low, scale)[..n] == Quantized(elevations[..n], low, scale);
      CodeOfSample(elevations[n], low, scale);
    }
  }

  lemma RoundOrdered(p: real, q: real)
    requires p <= q
    ensures Round(p) <= Round(q)
  {
  }

  lemma {:induction false} CodesOrdered(value: real, high: real, low: real, scale: real)
    requires low <= value <= high && scale >= 0.0
    ensures Code(Finite(value), low, scale) <= Code(Finite(high), low, scale)
  {
    if scale > 0.0 {
      var p, ps := Position(value, low, scale);
      var q, qs := Position(high, low, scale);
      Ordered(q, p, scale, qs, ps);
      RoundOrdered(p, q);
    }
  }

  /** What the highest sample of a tile reads back as. */
  function HighestBack(f: Float32, low: real, high: real): real {
    var scale := Scale(f, low, high);
    low + Rise(Code(Finite(high), low, scale), scale)
  }

  /** Reading keeps the minimum; the maximum becomes what its code stands for. */
  lemma {:induction false} ExtremesComeBack(f: Float32, tile: Tile, low: real, high: real)
    requires Ieee(f) && ValidTile(f, tile)
    requires Lowest(tile.elevations) == Some(low) && Highest(tile.elevations) == Some(high)
    ensures Lowest(Reread(f, tile).elevations) == Some(low)
    ensures Highest(Reread(f, tile).elevations) == Some(HighestBack(f, low, high))
  {
    var was, back, scale := tile.elevations, Reread(f, tile).elevations, Scale(f, low, high);
    var i, j := ExtremesAttained(was);
    SamplesComeBack(f, tile, low, high);
    assert ComesBack(was[i], back[i], low, Loss(f, low, high));
    forall k | 0 <= k < |back| && back[k].Finite? ensures low <= back[k].value <= HighestBack(f, low, high) {
      assert ComesBack(was[k], back[k], low, Loss(f, low, high));
      LowestBounds(was, k);
      CodesOrdered(was[k].value, high, low, scale);
      RiseOfZero(scale);
      RiseOrdered(0, Code(was[k], low, scale), scale);
      RiseOrdered(Code(was[k], low, scale), Code(Finite(high), low, scale), scale);
    }
    ExtremesAre(back, low, HighestBack(f, low, high), i, j);
  }

  /** The maximum comes back exactly if and only if it lies a whole number of stored steps above the minimum. */
  lemma {:induction false} MaximumIsExactIff(f: Float32, low: real, high: real)
    requires Ieee(f) && low <= high
    ensures HighestBack(f, low, high) == high <==> exists k :: 0 <= k <= MAX_CODE && high - low == Rise(k, Scale(f, low, high))
  {
    var scale := Scale(f, low, high);
    var code := Code(Finite(high), low, scale);
    if HighestBack(f, low, high) == high {
      assert high - low == Rise(code, scale);
    }
    if k :| 0 <= k <= MAX_CODE && high - low == Rise(k, scale) {
      if scale > 0.0 {
        CodeOfCode(k, low, scale);
        assert low + Rise(k, scale) == high;
      } else {
        RiseOfZero(scale);
        assert Rise(k, 0.0) == 0.0;
      }
    }
  }

  /** For ordinary steps that means: if and only if the exact step can be stored. */
  lemma {:induction false} NormalMaximumIsExactIff(f: Float32, low: real, high: real)
    requires Ieee(f) && RoundsNearest(f) && InFloatRange(f, low) && InFloatRange(f, high) && NormalStep(f, low, high)
    ensures HighestBack(f, low, high) == high <==> ExactScale(f, low, high)
  {
    NormalStepReaches(f, low, high);
    StepInRange(f, low, high);
    var step, scale := (high - low) / MAX_CODE as real, Scale(f, low, high);
    SameMultiple(step, scale);
  }

  lemma SameMultiple(step: real, scale: real)
    ensures Rise(MAX_CODE, scale) == step * MAX_CODE as real <==> scale == step
  {
  }

  lemma {:induction false} RereadIsValid(f: Float32, tile: Tile)
    requires Ieee(f) && ValidTile(f, tile)
    ensures ValidTile(f, Reread(f, tile))
  {
    HasExtremes(tile.elevations);
    var low := Lowest(tile.elevations).value;
    QuantizedHasFinite(tile.elevations, low, Scale(f, low, Highest(tile.elevations).value));
  }

  /** Writing what was read gives the identical bytes. */
  ghost predicate Rewritable(f: Float32, tile: Tile)
    requires Ieee(f) && ValidTile(f, tile)
  {
    RereadIsValid(f, tile);
    Encoded(f, Reread(f, tile)) == Encoded(f, tile)
  }

  /** Writing what was read gives the identical bytes if and only if the read extremes have the stored step. */
  lemma {:induction false} WriteOfReadIsIdenticalIff(f: Float32, tile: Tile, low: real, high: real)
    requires Ieee(f) && ValidTile(f, tile) && FloatSamples(f, tile.elevations)
    requires Lowest(tile.elevations) == Some(low) && Highest(tile.elevations) == Some(high)
    ensures Rewritable(f, tile) <==> Scale(f, low, HighestBack(f, low, high)) == Scale(f, low, high)
  {
    RereadIsValid(f, tile);
    ExtremesComeBack(f, tile, low, high);
    HeaderNumbersRead(f, tile, low, high);
    var scale, scale' := Scale(f, low, high), Scale(f, low, HighestBack(f, low, high));
    if scale' == scale {
      PayloadOfQuantized(tile.elevations, low, scale);
    } else {
      ExtremesAreFloats(f, tile.elevations, low, high);
      StepsAreStored(f, low, high);
      StepsTell(f, tile, Reread(f, tile), Encoded(f, tile), Encoded(f, Reread(f, tile)), low, high, HighestBack(f, low, high));
    }
  }

  /** Bytes 40 to 43 of a file are its step. */
  lemma {:induction false} StepOfFile(f: Float32, tile: Tile, data: seq<byte>, low: real, high: real)
    requires Ieee(f) && ValidTile(f, tile) && data == Encoded(f, tile)
    requires Lowest(tile.elevations) == Some(low) && Highest(tile.elevations) == Some(high)
    ensures |data| >= FIXED_HEADER && Get32(data, 40) == f.bits(Scale(f, low, high))
  {
    FieldsOfAssembled(f, tile, low, Scale(f, low, high));
  }

  lemma {:induction false} ExtremesAreFloats(f: Float32, elevations: seq<Number>, low: real, high: real)
    requires FloatSamples(f, elevations) && Lowest(elevations) == Some(low) && Highest(elevations) == Some(high)
    ensures InFloatRange(f, low) && InFloatRange(f, high) && low <= high
  {
    var i, j := ExtremesAttained(elevations);
    LowestBounds(elevations, i);
    assert IsFloat(f, low) && IsFloat(f, high);
  }

  lemma {:induction false} StepsTell(f: Float32, tile: Tile, reread: Tile, data: seq<byte>, again: seq<byte>, low: real, high: real, high': real)
    requires Ieee(f) && ValidTile(f, tile) && ValidTile(f, reread) && data == Encoded(f, tile) && again == Encoded(f, reread)
    requires Lowest(tile.elevations) == Some(low) && Highest(tile.elevations) == Some(high)
    requires Lowest(reread.elevations) == Some(low) && Highest(reread.elevations) == Some(high')
    requires f.bits(Scale(f, low, high')) != f.bits(Scale(f, low, high))
    ensures again != data
  {
    StepOfFile(f, tile, data, low, high);
    StepOfFile(f, reread, again, low, high');
  }

  lemma {:induction false} StepsAreStored(f: Float32, low: real, high: real)
    requires Ieee(f) && InFloatRange(f, low) && InFloatRange(f, high) && low <= high
    requires Scale(f, low, HighestBack(f, low, high)) != Scale(f, low, high)
    ensures f.bits(Scale(f, low, HighestBack(f, low, high))) != f.bits(Scale(f, low, high))
  {
    RereadStepIsStored(f, low, high);
    if low < high {
      StepInRange(f, low, high);
    }
    assert f.value(f.bits(Scale(f, low, high))) == Finite(Scale(f, low, high));
  }

  lemma {:induction false} RereadStepIsStored(f: Float32, low: real, high: real)
    requires Ieee(f) && InFloatRange(f, low) && InFloatRange(f, high) && low <= high
    ensures f.value(f.bits(Scale(f, low, HighestBack(f, low, high)))) == Finite(Scale(f, low, HighestBack(f, low, high)))
  {
    var scale := Scale(f, low, high);
    CodeIsClose(high, low, scale);
    var step := (HighestBack(f, low, high) - low) / MAX_CODE as real;
    assert InFloatRange(f, (high - low) / MAX_CODE as real);
    assert scale <= f.largest;
    assert step <= f.largest;
  }

  /** Ordinary steps and steps that vanish keep the bytes. */
  lemma {:induction false} WriteOfReadIsIdentical(f: Float32, tile: Tile, low: real, high: real)
    requires Ieee(f) && RoundsNearest(f) && ValidTile(f, tile) && FloatSamples(f, tile.elevations)
    requires Lowest(tile.elevations) == Some(low) && Highest(tile.elevations) == Some(high)
    requires NormalStep(f, low, high) || Scale(f, low, high) == 0.0
    ensures Rewritable(f, tile)
  {
    ExtremesAreFloats(f, tile.elevations, low, high);
    StepIsKept(f, low, high);
    WriteOfReadIsIdenticalIff(f, tile, low, high);
  }

  lemma {:induction false} StepIsKept(f: Float32, low: real, high: real)
    requires Ieee(f) && RoundsNearest(f) && InFloatRange(f, low) && InFloatRange(f, high)
    requires NormalStep(f, low, high) || Scale(f, low, high) == 0.0
    ensures Scale(f, low, HighestBack(f, low, high)) == Scale(f, low, high)
  {
    if NormalStep(f, low, high) {
      NormalStepReaches(f, low, high);
      TopStep(Scale(f, low, high));
    } else {
      RiseOfZero(0.0);
    }
  }

  lemma TopStep(scale: real)
    ensures Rise(MAX_CODE, scale) / MAX_CODE as real == scale
    ensures scale > 0.0 ==> Rise(MAX_CODE, scale) > 0.0
  {
  }

  /**
   * Writing again can change the file: when the elevations reach from 0 to 229369 times the least float, the
   * exact step lies halfway between two floats, is rounded up the first time and down the second.
   */
  lemma {:induction false} HalfwayStepChangesFile(f: Float32, tile: Tile, high: real)
    requires Ieee(f) && RoundsNearest(f) && ValidTile(f, tile) && FloatSamples(f, tile.elevations)
    requires Lowest(tile.elevations) == Some(0.0) && Highest(tile.elevations) == Some(high) && high == 229369.0 * f.least
    ensures !Rewritable(f, tile)
  {
    HalfwayStep(f, high);
    WriteOfReadIsIdenticalIff(f, tile, 0.0, high);
  }

  /** There is such a tile: one sample of that height in a plain of zeros. */
  lemma {:induction false} HalfwayTile(f: Float32, tile: Tile) returns (halfway: Tile)
    requires Ieee(f) && RoundsNearest(f) && ValidTile(f, tile)
    ensures ValidTile(f, halfway) && FloatSamples(f, halfway.elevations)
    ensures Lowest(halfway.elevations) == Some(0.0) && Highest(halfway.elevations) == Some(229369.0 * f.least)
  {
    var high := 229369.0 * f.least;
    FaintRound(f, 229369.0, high);
    halfway := SpikeTile(tile, high);
    SpikeIsValid(f, tile, high, halfway);
  }

  lemma {:induction false} HalfwayStep(f: Float32, high: real)
    requires Ieee(f) && RoundsNearest(f) && high == 229369.0 * f.least
    ensures Scale(f, 0.0, high) == 4.0 * f.least
    ensures Scale(f, 0.0, HighestBack(f, 0.0, high)) == 3.0 * f.least
  {
    var scale := 4.0 * f.least;
    HalfwayRound(f, high / MAX_CODE as real);
    HalfwayCode(f.least, high, scale);
    StepOfRest(f, scale);
  }

  lemma {:induction false} HalfwayRound(f: Float32, step: real)
    requires RoundsNearest(f) && step == 3.5 * f.least
    ensures f.round(step) == 4.0 * f.least
  {
    FaintRound(f, 3.5, step);
  }

  lemma {:induction false} StepOfRest(f: Float32, scale: real)
    requires Ieee(f) && RoundsNearest(f) && scale == 4.0 * f.least
    ensures Scale(f, 0.0, 0.0 + Rise(57342, scale)) == 3.0 * f.least
  {
    var q := 229368.0 / 65534.0;
    assert HalfToEven(q) == 3;
    FaintRound(f, q, Rise(57342, scale) / MAX_CODE as real);
  }

  lemma HalfwayCode(least: real, high: real, scale: real)
    requires least > 0.0 && high == 229369.0 * least && scale == 4.0 * least
    ensures Code(Finite(high), 0.0, scale) == 57342
  {
    var p, ps := Position(high, 0.0, scale);
    assert ps == 57342.25 * scale;
    Ordered(p, 57342.25, scale, ps, ps);
    Ordered(57342.25, p, scale, ps, ps);
  }

  // ---------------------------------------------------------------- damage

  lemma SamePartsSameFile(data: seq<byte>, damaged: seq<byte>, header: int)
    requires 0 <= header <= |data| == |damaged| && damaged[..header] == data[..header]
    ensures damaged[header..] == data[header..] ==> damaged == data
  {
    assert data == data[..header] + data[header..];
    assert damaged == damaged[..header] + damaged[header..];
  }

  /** A file with up to four consecutive payload bytes damaged is refused. */
  lemma {:induction false} DamagedPayloadIsRefused(f: Float32, data: seq<byte>, damaged: seq<byte>, from: nat)
    requires Accepts(f, data) && |damaged| == |data| && damaged != data && from >= Get16(data, 10)
    requires forall i :: 0 <= i < |data| && !(from <= i < from + 4) ==> damaged[i] == data[i]
    ensures Decoded(f, damaged) == None
  {
    SameHeader(data, damaged);
    var payload, payload' := PayloadOf(data), PayloadOf(damaged);
    var header := Get16(data, 10);
    forall i | 0 <= i < |payload| && !(from - header <= i < from - header + 4) ensures payload'[i] == payload[i] {
      assert damaged[header + i] == data[header + i];
    }
    SamePartsSameFile(data, damaged, header);
    BurstChangesCrc(payload, payload', from - header);
    if CrcField(Crc(payload')) == CrcField(Crc(payload)) {
      CrcFieldIsInjective(Crc(payload'), Crc(payload));
    }
    assert damaged[60..64] == data[60..64];
  }

  lemma SameHeader(data: seq<byte>, damaged: seq<byte>)
    requires |data| == |damaged| && |data| >= FIXED_HEADER && LengthsOk(data)
    requires forall i :: 0 <= i < Get16(data, 10) ==> damaged[i] == data[i]
    ensures LengthsOk(damaged) && Get16(damaged, 10) == Get16(data, 10)
    ensures damaged[..Get16(data, 10)] == data[..Get16(data, 10)]
  {
  }
}
