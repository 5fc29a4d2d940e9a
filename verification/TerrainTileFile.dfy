/** Writing and reading a whole .aowterrain file: the byte layout and every check of the reader. */
module TerrainTileFile {
  import opened Wrappers
  import opened Numbers
  import opened TileRange
  import opened Bytes
  import opened Crc32
  import opened TerrainTileCodec

  // ---------------------------------------------------------------- the layout

  /** Bytes 0 to 19: magic, version, header length, flags, projection, encoding, datum. */
  function StartFields(datasetBytes: nat, datum: Datum): (s: seq<byte>)
    requires datasetBytes <= MAX_DATASET_BYTES
    ensures |s| == 20
  {
    MAGIC + Put16(FORMAT_VERSION) + Put16(FIXED_HEADER + datasetBytes) + Put32(0)
    + [WEB_MERCATOR, UINT16_LINEAR, DatumCode(datum), 0]
  }

  /** Bytes 20 to 27: grid size and zoom. */
  function GridFields(zoom: nat): (s: seq<byte>)
    requires zoom <= MAX_ZOOM
    ensures |s| == 8
  {
    Put16(GRID) + Put16(GRID) + [zoom, 0, 0, 0]
  }

  /** Bytes 28 to 47: tile column and row, lowest elevation, step and resolution. */
  function NumberFields(x: int, y: int, low: int, scale: int, resolution: int): (s: seq<byte>)
    requires 0 <= x < 0x1_0000_0000 && 0 <= y < 0x1_0000_0000 && 0 <= low < 0x1_0000_0000
    requires 0 <= scale < 0x1_0000_0000 && 0 <= resolution < 0x1_0000_0000
    ensures |s| == 20
  {
    Put32(x) + Put32(y) + Put32(low) + Put32(scale) + Put32(resolution)
  }

  /** Bytes 48 to 63: dataset length, sample count, payload length and its CRC. */
  function EndFields(datasetBytes: nat, crc: bv32): (s: seq<byte>)
    requires datasetBytes <= MAX_DATASET_BYTES
    ensures |s| == 16
  {
    Put16(datasetBytes) + Put16(0) + Put32(SAMPLES) + Put32(PAYLOAD) + CrcField(crc)
  }

  lemma ZoomBounds(zoom: nat)
    requires zoom <= MAX_ZOOM
    ensures TileCount(zoom) <= 0x4000_0000
  {
    assert TileCount(5) == 32;
    assert TileCount(10) == 1024;
    Doubling(zoom, MAX_ZOOM);
    assert TileCount(15) == 32768;
    assert TileCount(20) == 1048576;
    assert TileCount(25) == 33554432;
    assert TileCount(30) == 1073741824;
  }

  lemma {:induction false} Doubling(a: nat, b: nat)
    requires a <= b
    ensures TileCount(a) <= TileCount(b)
    decreases b - a
  {
    if a < b {
      Doubling(a, b - 1);
    }
  }

  function Assemble(f: Float32, tile: Tile, low: real, scale: real): (data: seq<byte>)
    requires Ieee(f) && ValidTile(f, tile)
    ensures |data| == FIXED_HEADER + |tile.dataset| + PAYLOAD
  {
    ZoomBounds(tile.zoom);
    var payload := Payload(tile.elevations, low, scale);
    StartFields(|tile.dataset|, tile.datum) + GridFields(tile.zoom)
    + NumberFields(tile.x, tile.y, f.bits(low), f.bits(scale), f.bits(f.round(tile.resolution.value)))
    + EndFields(|tile.dataset|, Crc(payload)) + tile.dataset + payload
  }

  /** The file of a valid tile. */
  function Encoded(f: Float32, tile: Tile): (data: seq<byte>)
    requires Ieee(f) && ValidTile(f, tile)
    ensures |data| == FIXED_HEADER + |tile.dataset| + PAYLOAD
  {
    HasExtremes(tile.elevations);
    var low, high := Lowest(tile.elevations).value, Highest(tile.elevations).value;
    Assemble(f, tile, low, Scale(f, low, high))
  }

  /** What the encoder yields: the file of a valid tile, no bytes for any other. */
  function FileOf(f: Float32, tile: Tile): (data: seq<byte>)
    requires Ieee(f)
    ensures data != [] <==> ValidTile(f, tile)
  {
    if ValidTile(f, tile) then Encoded(f, tile) else []
  }

  lemma {:induction false} HasExtremes(elevations: seq<Number>)
    requires HasFinite(elevations)
    ensures Lowest(elevations).Some? && Highest(elevations).Some?
    decreases |elevations|
  {
    var i :| 0 <= i < |elevations| && elevations[i].Finite?;
    if i < |elevations| - 1 {
      assert elevations[..|elevations| - 1][i] == elevations[i];
      HasExtremes(elevations[..|elevations| - 1]);
    }
  }

  // ---------------------------------------------------------------- reading

  predicate FixedFieldsOk(data: seq<byte>)
    requires |data| >= FIXED_HEADER
  {
    && data[..8] == MAGIC
    && Get16(data, 8) == FORMAT_VERSION
    && Get32(data, 12) == 0
    && data[19] == 0 && data[25] == 0 && data[26] == 0 && data[27] == 0 && Get16(data, 50) == 0
    && data[16] == WEB_MERCATOR && data[17] == UINT16_LINEAR
    && Get16(data, 20) == GRID && Get16(data, 22) == GRID && Get32(data, 52) == SAMPLES && Get32(data, 56) == PAYLOAD
  }

  predicate LengthsOk(data: seq<byte>)
    requires |data| >= FIXED_HEADER
  {
    Get16(data, 10) == FIXED_HEADER + Get16(data, 48) && Get16(data, 10) + PAYLOAD == |data|
  }

  predicate NumbersOk(f: Float32, data: seq<byte>)
    requires |data| >= FIXED_HEADER
  {
    var low, scale, resolution := f.value(Get32(data, 36)), f.value(Get32(data, 40)), f.value(Get32(data, 44));
    low.Finite? && scale.Finite? && scale.value >= 0.0 && resolution.Finite? && resolution.value >= 0.0
  }

  function DatasetOf(data: seq<byte>): seq<byte>
    requires |data| >= FIXED_HEADER && LengthsOk(data)
  {
    data[FIXED_HEADER..FIXED_HEADER + Get16(data, 48)]
  }

  function PayloadOf(data: seq<byte>): (payload: seq<byte>)
    requires |data| >= FIXED_HEADER && LengthsOk(data)
    ensures |payload| == PAYLOAD
  {
    data[Get16(data, 10)..]
  }

  predicate MetadataOk(data: seq<byte>)
    requires |data| >= FIXED_HEADER && LengthsOk(data)
  {
    && DatumFromCode(data[18]).Some?
    && ValidAddress(data[24], Get32(data, 28), Get32(data, 32))
    && ValidDataset(DatasetOf(data))
    && CrcField(Crc(PayloadOf(data))) == data[60..64]
  }

  /** The first n samples of a payload. */
  function Samples(payload: seq<byte>, low: real, scale: real, n: nat): (elevations: seq<Number>)
    requires 2 * n <= |payload|
    ensures |elevations| == n
  {
    seq(n, i requires 0 <= i < n => Elevation(Get16(payload, 2 * i), low, scale))
  }

  function TileOf(f: Float32, data: seq<byte>): Tile
    requires |data| >= FIXED_HEADER && LengthsOk(data) && NumbersOk(f, data) && MetadataOk(data)
  {
    Tile(data[24], Get32(data, 28), Get32(data, 32), DatasetOf(data), f.value(Get32(data, 44)), DatumFromCode(data[18]).value,
         Samples(PayloadOf(data), f.value(Get32(data, 36)).value, f.value(Get32(data, 40)).value, SAMPLES))
  }

  predicate Accepts(f: Float32, data: seq<byte>) {
    && |data| >= FIXED_HEADER && FixedFieldsOk(data) && LengthsOk(data) && NumbersOk(f, data) && MetadataOk(data)
    && HasFinite(TileOf(f, data).elevations)
  }

  function Decoded(f: Float32, data: seq<byte>): Option<Tile> {
    if Accepts(f, data) then Some(TileOf(f, data)) else None
  }

  // ---------------------------------------------------------------- the encoder and the decoder

  method FindExtremes(elevations: seq<Number>) returns (low: Option<real>, high: Option<real>)
    ensures low == Lowest(elevations) && high == Highest(elevations)
  {
    low, high := None, None;
    var i := 0;
    while i < |elevations|
      invariant 0 <= i <= |elevations| && low == Lowest(elevations[..i]) && high == Highest(elevations[..i])
    {
      assert elevations[..i + 1][..i] == elevations[..i];
      if elevations[i].Finite? {
        var value := elevations[i].value;
        if low.None? || value < low.value {
          low := Some(value);
        }
        if high.None? || value > high.value {
          high := Some(value);
        }
      }
      i := i + 1;
    }
    assert elevations[..i] == elevations;
  }

  method EncodePayload(elevations: seq<Number>, low: real, scale: real) returns (payload: seq<byte>)
    ensures payload == Payload(elevations, low, scale)
  {
    payload := [];
    var i := 0;
    while i < |elevations|
      invariant 0 <= i <= |elevations| && payload == Payload(elevations[..i], low, scale)
    {
      assert elevations[..i + 1][..i] == elevations[..i];
      var code := NO_DATA_CODE;
      if elevations[i].Finite? {
        if scale == 0.0 {
          code := 0;
        } else {
          code := ClampCode(Round(StepsAbove(elevations[i].value, low, scale)));
        }
      }
      payload := payload + Put16(code);
      i := i + 1;
    }
    assert elevations[..i] == elevations;
  }

  /** Encodes a valid tile; anything else yields no bytes. */
  method EncodeTerrainTile(f: Float32, tile: Tile) returns (data: seq<byte>)
    requires Ieee(f)
    ensures data == FileOf(f, tile)
  {
    if !ValidTile(f, tile) {
      return [];
    }
    HasExtremes(tile.elevations);
    var low, high := FindExtremes(tile.elevations);
    var scale := Scale(f, low.value, high.value);
    var payload := EncodePayload(tile.elevations, low.value, scale);
    var crc := ComputeCrc32(payload);
    ZoomBounds(tile.zoom);
    data := StartFields(|tile.dataset|, tile.datum);
    data := data + GridFields(tile.zoom);
    data := data + NumberFields(tile.x, tile.y, f.bits(low.value), f.bits(scale), f.bits(f.round(tile.resolution.value)));
    data := data + EndFields(|tile.dataset|, crc);
    data := data + tile.dataset;
    data := data + payload;
  }

  method DecodeSamples(payload: seq<byte>, low: real, scale: real) returns (elevations: seq<Number>, finite: bool)
    requires |payload| == PAYLOAD
    ensures elevations == Samples(payload, low, scale, SAMPLES)
    ensures finite <==> HasFinite(elevations)
  {
    elevations, finite := [], false;
    var index := 0;
    while index < SAMPLES
      invariant 0 <= index <= SAMPLES && elevations == Samples(payload, low, scale, index)
      invariant finite <==> HasFinite(elevations)
    {
      var code := Get16(payload, 2 * index);
      ghost var before := elevations;
      if code == NO_DATA_CODE {
        elevations := elevations + [NaN];
      } else {
        elevations := elevations + [Finite(low + Rise(code, scale))];
        finite := true;
        assert elevations[index].Finite?;
      }
      assert elevations[index] == Elevation(code, low, scale);
      assert forall i :: 0 <= i < index ==> elevations[i] == before[i];
      index := index + 1;
    }
  }

  method DecodeTerrainTile(f: Float32, data: seq<byte>) returns (tile: Option<Tile>)
    ensures tile == Decoded(f, data)
  {
    if |data| < FIXED_HEADER || !FixedFieldsOk(data) || !LengthsOk(data) || !NumbersOk(f, data) {
      return None;
    }
    var datum := DatumFromCode(data[18]);
    if datum.None? || !ValidAddress(data[24], Get32(data, 28), Get32(data, 32)) || !ValidDataset(DatasetOf(data)) {
      return None;
    }
    var payload := PayloadOf(data);
    var crc := ComputeCrc32(payload);
    if CrcField(crc) != data[60..64] {
      return None;
    }
    var elevations, finite := DecodeSamples(payload, f.value(Get32(data, 36)).value, f.value(Get32(data, 40)).value);
    if !finite {
      return None;
    }
    tile := Some(Tile(data[24], Get32(data, 28), Get32(data, 32), DatasetOf(data), f.value(Get32(data, 44)), datum.value, elevations));
  }
}
