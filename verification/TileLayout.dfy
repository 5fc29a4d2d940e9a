/**
 * The .aowterrain format, byte by byte, as docs/terrain-tile-format.md lays it out: the reader accepts exactly the
 * files of that layout, with the tile they describe, and the writer produces such files.
 */
module TileLayout {
  import opened Wrappers
  import opened TileRange
  import opened Bytes
  import opened Crc32
  import opened TerrainTileCodec
  import opened TerrainTileFile
  import opened TerrainTileRoundTrip

  function Little16(data: seq<byte>, at: nat): int
    requires at + 2 <= |data|
  {
    data[at] as int + 0x100 * data[at + 1] as int
  }

  function Little32(data: seq<byte>, at: nat): int
    requires at + 4 <= |data|
  {
    data[at] as int + 0x100 * data[at + 1] as int + 0x1_0000 * data[at + 2] as int + 0x100_0000 * data[at + 3] as int
  }

  /** Offsets 0 to 27 but for the datum and the zoom, and the constants after them. */
  predicate ConstantsAre(data: seq<byte>)
    requires |data| >= 64
  {
    && data[..8] == [65, 79, 87, 84, 82, 78, 0, 0]
    && Little16(data, 8) == 1 && Little32(data, 12) == 0 && data[16] == 1 && data[17] == 1 && data[19] == 0
    && Little16(data, 20) == 65 && Little16(data, 22) == 65 && data[25] == 0 && data[26] == 0 && data[27] == 0
    && Little16(data, 50) == 0 && Little32(data, 52) == 4225 && Little32(data, 56) == 8450
  }

  predicate DatumIs(code: byte, datum: Datum) {
    match datum
    case UnknownDatum => code == 0
    case Wgs84Ellipsoid => code == 1
    case Egm96 => code == 2
    case Egm2008 => code == 3
    case LocalDatum => code == 4
  }

  predicate AddressIs(data: seq<byte>, tile: Tile)
    requires |data| >= 64
  {
    && data[24] == tile.zoom <= 30 && Little32(data, 28) == tile.x && Little32(data, 32) == tile.y
    && 0 <= tile.x < TileCount(tile.zoom) && 0 <= tile.y < TileCount(tile.zoom)
  }

  /** The dataset identifier: 1 to 128 lower-case letters, digits, dashes, underscores and dots, the first a letter or digit. */
  predicate DatasetIs(data: seq<byte>, dataset: seq<byte>)
    requires |data| >= 64 + |dataset|
  {
    && Little16(data, 10) == 64 + |dataset| && Little16(data, 48) == |dataset| && 1 <= |dataset| <= 128
    && data[64..64 + |dataset|] == dataset
    && (forall i :: 0 <= i < |dataset| ==> 97 <= dataset[i] <= 122 || 48 <= dataset[i] <= 57 || dataset[i] in {45, 95, 46})
    && dataset[0] !in {45, 95, 46}
  }

  predicate NumbersAre(f: Float32, data: seq<byte>, low: real, scale: real, resolution: Number)
    requires |data| >= 64
  {
    && f.value(Little32(data, 36)) == Finite(low)
    && f.value(Little32(data, 40)) == Finite(scale) && scale >= 0.0
    && f.value(Little32(data, 44)) == resolution && resolution.Finite? && resolution.value >= 0.0
  }

  /** Sample i is the i-th code of the payload: no data, or so many steps above the minimum. */
  predicate SamplesAre(data: seq<byte>, start: nat, elevations: seq<Number>, low: real, scale: real)
    requires |data| == start + 8450
  {
    && |elevations| == 4225
    && forall i :: 0 <= i < 4225 ==>
         elevations[i] == var code := Little16(data, start + 2 * i); if code == 65535 then NaN else Finite(low + code as real * scale)
  }

  /** The whole file. */
  ghost predicate LaidOut(f: Float32, data: seq<byte>, tile: Tile, low: real, scale: real) {
    && |data| == 64 + |tile.dataset| + 8450
    && ConstantsAre(data) && DatumIs(data[18], tile.datum) && AddressIs(data, tile) && DatasetIs(data, tile.dataset)
    && NumbersAre(f, data, low, scale, tile.resolution)
    && CrcField(Crc(data[64 + |tile.dataset|..])) == data[60..64]
    && SamplesAre(data, 64 + |tile.dataset|, tile.elevations, low, scale)
    && exists i :: 0 <= i < 4225 && tile.elevations[i].Finite?
  }

  // ---------------------------------------------------------------- the reader

  lemma DatumTells(code: byte, datum: Datum)
    ensures DatumFromCode(code) == Some(datum) <==> DatumIs(code, datum)
  {
  }

  lemma DatasetIff(dataset: seq<byte>)
    ensures ValidDataset(dataset)
            <==> (1 <= |dataset| <= 128 && dataset[0] !in {45, 95, 46}
                  && forall i :: 0 <= i < |dataset| ==> 97 <= dataset[i] <= 122 || 48 <= dataset[i] <= 57 || dataset[i] in {45, 95, 46})
  {
  }

  lemma {:induction false} PayloadSamples(data: seq<byte>, start: nat, elevations: seq<Number>, low: real, scale: real)
    requires |data| == start + 8450
    ensures SamplesAre(data, start, elevations, low, scale) <==> elevations == Samples(data[start..], low, scale, SAMPLES)
  {
    var samples := Samples(data[start..], low, scale, SAMPLES);
    forall i | 0 <= i < 4225
      ensures samples[i] == var code := Little16(data, start + 2 * i); if code == 65535 then NaN else Finite(low + code as real * scale)
    {
      assert Get16(data[start..], 2 * i) == Little16(data, start + 2 * i);
    }
    if SamplesAre(data, start, elevations, low, scale) {
      assert forall i :: 0 <= i < 4225 ==> elevations[i] == samples[i];
    }
  }

  lemma ConstantsIff(data: seq<byte>)
    requires |data| >= 64
    ensures FixedFieldsOk(data) <==> ConstantsAre(data)
  {
  }

  lemma LengthsIff(data: seq<byte>, dataset: seq<byte>)
    requires |data| >= 64
    ensures LengthsOk(data) && DatasetOf(data) == dataset && ValidDataset(dataset)
            <==> |data| == 64 + |dataset| + 8450 && DatasetIs(data, dataset)
  {
    DatasetIff(dataset);
  }

  lemma NumbersIff(f: Float32, data: seq<byte>, low: real, scale: real, resolution: Number)
    requires |data| >= 64
    ensures NumbersOk(f, data) && f.value(Get32(data, 36)) == Finite(low) && f.value(Get32(data, 40)) == Finite(scale) && f.value(Get32(data, 44)) == resolution
            <==> NumbersAre(f, data, low, scale, resolution)
  {
  }

  /** The address, the datum and the checksum. */
  lemma MetadataIff(data: seq<byte>, tile: Tile)
    requires |data| == 64 + |tile.dataset| + 8450 && DatasetIs(data, tile.dataset) && LengthsOk(data) && DatasetOf(data) == tile.dataset
    ensures && MetadataOk(data) && tile.zoom == data[24] && tile.x == Get32(data, 28) && tile.y == Get32(data, 32)
            && DatumFromCode(data[18]) == Some(tile.datum)
            <==> && DatumIs(data[18], tile.datum) && AddressIs(data, tile) && CrcField(Crc(data[64 + |tile.dataset|..])) == data[60..64]
  {
    DatumTells(data[18], tile.datum);
    DatasetIff(tile.dataset);
    assert PayloadOf(data) == data[64 + |tile.dataset|..];
  }

  lemma DecodedParts(f: Float32, data: seq<byte>, tile: Tile)
    ensures Decoded(f, data) == Some(tile)
            <==> && |data| >= 64 && FixedFieldsOk(data) && LengthsOk(data) && NumbersOk(f, data) && MetadataOk(data)
                 && HasFinite(tile.elevations) && tile == TileOf(f, data)
  {
  }

  lemma TileParts(f: Float32, data: seq<byte>, tile: Tile, low: real, scale: real)
    requires |data| >= 64 && LengthsOk(data) && NumbersOk(f, data) && MetadataOk(data)
    requires f.value(Get32(data, 36)) == Finite(low) && f.value(Get32(data, 40)) == Finite(scale)
    ensures tile == TileOf(f, data)
            <==> && tile.zoom == data[24] && tile.x == Get32(data, 28) && tile.y == Get32(data, 32) && tile.dataset == DatasetOf(data)
                 && tile.resolution == f.value(Get32(data, 44)) && DatumFromCode(data[18]) == Some(tile.datum)
                 && tile.elevations == Samples(PayloadOf(data), low, scale, SAMPLES)
  {
  }

  lemma {:induction false} DecodedIsLaidOut(f: Float32, data: seq<byte>, tile: Tile) returns (low: real, scale: real)
    requires Decoded(f, data) == Some(tile)
    ensures LaidOut(f, data, tile, low, scale)
  {
    DecodedParts(f, data, tile);
    low, scale := f.value(Get32(data, 36)).value, f.value(Get32(data, 40)).value;
    PartsAreLaidOut(f, data, tile, low, scale);
  }

  lemma {:induction false} PartsAreLaidOut(f: Float32, data: seq<byte>, tile: Tile, low: real, scale: real)
    requires |data| >= 64 && FixedFieldsOk(data) && LengthsOk(data) && NumbersOk(f, data) && MetadataOk(data)
    requires HasFinite(tile.elevations) && tile == TileOf(f, data)
    requires f.value(Get32(data, 36)) == Finite(low) && f.value(Get32(data, 40)) == Finite(scale)
    ensures LaidOut(f, data, tile, low, scale)
  {
    TileParts(f, data, tile, low, scale);
    ConstantsIff(data);
    LengthsIff(data, tile.dataset);
    NumbersIff(f, data, low, scale, tile.resolution);
    MetadataIff(data, tile);
    PayloadSamples(data, 64 + |tile.dataset|, tile.elevations, low, scale);
  }

  lemma {:induction false} LaidOutParts(f: Float32, data: seq<byte>, tile: Tile, low: real, scale: real)
    requires LaidOut(f, data, tile, low, scale)
    ensures FixedFieldsOk(data) && LengthsOk(data) && NumbersOk(f, data) && MetadataOk(data)
    ensures f.value(Get32(data, 36)) == Finite(low) && f.value(Get32(data, 40)) == Finite(scale) && f.value(Get32(data, 44)) == tile.resolution
    ensures tile.zoom == data[24] && tile.x == Get32(data, 28) && tile.y == Get32(data, 32) && DatumFromCode(data[18]) == Some(tile.datum)
    ensures DatasetOf(data) == tile.dataset
  {
    ConstantsIff(data);
    LengthsIff(data, tile.dataset);
    NumbersIff(f, data, low, scale, tile.resolution);
    MetadataIff(data, tile);
  }

  lemma {:induction false} SamplesOfPayload(data: seq<byte>, start: nat, tile: Tile, low: real, scale: real)
    requires |data| == start + 8450 && LengthsOk(data) && start == 64 + |DatasetOf(data)|
    requires SamplesAre(data, start, tile.elevations, low, scale) && exists i :: 0 <= i < 4225 && tile.elevations[i].Finite?
    ensures tile.elevations == Samples(PayloadOf(data), low, scale, SAMPLES) && HasFinite(tile.elevations)
  {
    PayloadSamples(data, start, tile.elevations, low, scale);
    assert PayloadOf(data) == data[start..];
  }

  lemma {:induction false} LaidOutIsDecoded(f: Float32, data: seq<byte>, tile: Tile, low: real, scale: real)
    requires LaidOut(f, data, tile, low, scale)
    ensures Decoded(f, data) == Some(tile)
  {
    LaidOutParts(f, data, tile, low, scale);
    SamplesOfPayload(data, 64 + |tile.dataset|, tile, low, scale);
    TileParts(f, data, tile, low, scale);
    DecodedParts(f, data, tile);
  }

  /** The reader accepts a byte string, as this tile, if and only if it is laid out as the format says. */
  lemma {:induction false} DecodedIff(f: Float32, data: seq<byte>, tile: Tile)
    ensures Decoded(f, data) == Some(tile) <==> exists low, scale :: LaidOut(f, data, tile, low, scale)
  {
    if Decoded(f, data) == Some(tile) {
      var low, scale := DecodedIsLaidOut(f, data, tile);
    }
    if exists low, scale :: LaidOut(f, data, tile, low, scale) {
      var low, scale :| LaidOut(f, data, tile, low, scale);
      LaidOutIsDecoded(f, data, tile, low, scale);
    }
  }

  // ---------------------------------------------------------------- the writer

  lemma {:induction false} AssembledIsLaidOut(f: Float32, tile: Tile, low: real, high: real, scale: real, data: seq<byte>, reread: Tile)
    requires Ieee(f) && ValidTile(f, tile) && FloatSamples(f, tile.elevations)
    requires Lowest(tile.elevations) == Some(low) && Highest(tile.elevations) == Some(high) && scale == Scale(f, low, high)
    requires data == Assemble(f, tile, low, scale)
    requires reread == tile.(resolution := Finite(f.round(tile.resolution.value)), elevations := Quantized(tile.elevations, low, scale))
    ensures LaidOut(f, data, reread, low, scale)
  {
    ReadOfAssembled(f, tile, low, high, scale);
    FieldsOfAssembled(f, tile, low, scale);
    HeaderNumbersRead(f, tile, low, high);
    DecodedParts(f, data, reread);
    PartsAreLaidOut(f, data, reread, low, scale);
  }

  /** Every elevation is as close to its sample as the loss of the step allows, and no data stays no data. */
  ghost predicate Quantizes(f: Float32, was: seq<Number>, back: seq<Number>, low: real, high: real) {
    |was| == |back| && forall i :: 0 <= i < |was| ==> ComesBack(was[i], back[i], low, Loss(f, low, high))
  }

  lemma ScaleIs(f: Float32, low: real, high: real)
    ensures Scale(f, low, high) == if high > low then f.round((high - low) / 65534.0) else 0.0
  {
  }

  lemma {:induction false} EncodedIsAssembled(f: Float32, tile: Tile, low: real, high: real)
    requires Ieee(f) && ValidTile(f, tile) && Lowest(tile.elevations) == Some(low) && Highest(tile.elevations) == Some(high)
    ensures Encoded(f, tile) == Assemble(f, tile, low, Scale(f, low, high))
  {
  }

  lemma {:induction false} RereadQuantizes(f: Float32, tile: Tile, low: real, high: real, scale: real)
    requires Ieee(f) && ValidTile(f, tile) && FloatSamples(f, tile.elevations)
    requires Lowest(tile.elevations) == Some(low) && Highest(tile.elevations) == Some(high) && scale == Scale(f, low, high)
    ensures Quantizes(f, tile.elevations, Quantized(tile.elevations, low, scale), low, high)
  {
    SamplesComeBack(f, tile, low, high);
  }

  /**
   * A written file has the layout: the address, dataset and datum of its tile, the rounded resolution, the lowest
   * elevation as minimum, the rounded 65534th part of the range as step, and the samples as close as that allows.
   */
  lemma {:induction false} WrittenIsLaidOut(f: Float32, tile: Tile, low: real, high: real, scale: real) returns (elevations: seq<Number>)
    requires Ieee(f) && ValidTile(f, tile) && FloatSamples(f, tile.elevations)
    requires Lowest(tile.elevations) == Some(low) && Highest(tile.elevations) == Some(high)
    requires scale == (if high > low then f.round((high - low) / 65534.0) else 0.0)
    ensures LaidOut(f, Encoded(f, tile), tile.(resolution := Finite(f.round(tile.resolution.value)), elevations := elevations), low, scale)
    ensures Quantizes(f, tile.elevations, elevations, low, high)
  {
    ScaleIs(f, low, high);
    EncodedIsAssembled(f, tile, low, high);
    elevations := Quantized(tile.elevations, low, scale);
    AssembledIsLaidOut(f, tile, low, high, scale, Encoded(f, tile),
                       tile.(resolution := Finite(f.round(tile.resolution.value)), elevations := elevations));
    RereadQuantizes(f, tile, low, high, scale);
  }
}
