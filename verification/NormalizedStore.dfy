/**
 * The store of normalized terrain tiles (src/lib/terrain_data.cpp): reading, filling through the
 * providers under the lock of a tile, and deleting a range.
 */
module NormalizedStore {
  import opened Wrappers
  import opened Numbers
  import opened Bytes
  import opened TileRange
  import opened TerrainTileCodec
  import opened TerrainTileFile
  import opened TerrainTileRoundTrip

  const MAX_TILE_FILE_BYTES: int := FIXED_HEADER + MAX_DATASET_BYTES + 2 * SAMPLES

  datatype Key = Key(dataset: seq<byte>, zoom: int, x: int, y: int)

  /** Lookup statuses; a ready tile comes with the bytes of its file. */
  datatype Lookup = Ready(data: seq<byte>) | Unavailable | ReadError | Corrupt | FetchError | ProviderError

  /** One provider's part in a fill: not in charge or without a source, failed, or with a tile. */
  datatype Answer = Passes | NetworkFails | Fails | Makes(tile: Tile)

  predicate IsTileOf(tile: Tile, key: Key) {
    tile.dataset == key.dataset && tile.zoom == key.zoom && tile.x == key.x && tile.y == key.y
  }

  /** readNormalizedTile; `blocked` are paths that are there but cannot be read. */
  function Read(f: Float32, files: map<Key, seq<byte>>, blocked: set<Key>, key: Key): Lookup {
    if key !in files then Unavailable
    else if key in blocked then ReadError
    else if |files[key]| > MAX_TILE_FILE_BYTES then Corrupt
    else
      var tile := Decoded(f, files[key]);
      if tile.None? || !IsTileOf(tile.value, key) then Corrupt else Ready(files[key])
  }

  /** A read that ends the lookup: a tile, or a file that may not be replaced. */
  predicate Settled(r: Lookup) {
    r.Ready? || r.ReadError?
  }

  /** Whatever is in the directory, a tile read from it decodes to the tile that was asked for. */
  predicate Serves(f: Float32, data: seq<byte>, key: Key) {
    Decoded(f, data).Some? && IsTileOf(Decoded(f, data).value, key)
  }

  /** A provider builds the tile it is asked for, in floats. */
  ghost predicate Honest(f: Float32, key: Key, answers: seq<Answer>) {
    forall i :: 0 <= i < |answers| && answers[i].Makes? ==>
      IsTileOf(answers[i].tile, key) && FloatSamples(f, answers[i].tile.elevations)
  }

  /** A filled file is served for exactly the key its tile is of; for any other it would read as corrupt. */
  lemma FilledReadsBackIff(f: Float32, files: map<Key, seq<byte>>, blocked: set<Key>, key: Key, tile: Tile)
    requires Ieee(f) && ValidTile(f, tile) && FloatSamples(f, tile.elevations) && key !in blocked
    ensures var data := Encoded(f, tile);
      Read(f, files[key := data], blocked, key) == if IsTileOf(tile, key) then Ready(data) else Corrupt
  {
    ReadOfWritten(f, tile);
  }

  /** The answer that decides a fill: the first provider that does not pass. */
  ghost predicate Decides(answers: seq<Answer>, i: nat) {
    i < |answers| && !answers[i].Passes? && forall j :: 0 <= j < i ==> answers[j].Passes?
  }

  /** The deciding provider makes a valid tile, and it can be written. */
  ghost predicate Fills(f: Float32, answers: seq<Answer>, writable: bool) {
    writable && exists i: nat :: Decides(answers, i) && answers[i].Makes? && ValidTile(f, answers[i].tile)
  }

  /** What the answer of the deciding provider leads to. */
  ghost predicate LeadsTo(f: Float32, answer: Answer, writable: bool, r: Lookup)
    requires Ieee(f)
  {
    && (answer.NetworkFails? ==> r == FetchError)
    && (answer.Fails? ==> r == ProviderError)
    && (answer.Makes? && !ValidTile(f, answer.tile) ==> r == ProviderError)
    && (answer.Makes? && ValidTile(f, answer.tile) ==> r == if writable then Ready(Encoded(f, answer.tile)) else ReadError)
  }

  /** The deciding provider's outcome, or no tile when none is in charge. */
  ghost predicate FilledBy(f: Float32, answers: seq<Answer>, writable: bool, r: Lookup)
    requires Ieee(f)
  {
    && (r.Unavailable? <==> forall i :: 0 <= i < |answers| ==> answers[i].Passes?)
    && forall i: nat :: Decides(answers, i) ==> LeadsTo(f, answers[i], writable, r)
  }

  lemma OneDecides(answers: seq<Answer>, i: nat)
    ensures forall j: nat :: Decides(answers, i) && Decides(answers, j) ==> j == i
  {
  }

  class NormalizedTiles {
    const f: Float32
    var files: map<Key, seq<byte>>

    constructor (f: Float32)
      ensures this.f == f && files == map[]
    {
      this.f := f;
      files := map[];
    }

    /** Asks the providers in order; a tile is encoded and replaces the file at once, or nothing changes. */
    method FetchAndStore(key: Key, answers: seq<Answer>, writable: bool) returns (r: Lookup)
      requires Ieee(f)
      modifies this
      ensures r.Unavailable? <==> forall i :: 0 <= i < |answers| ==> answers[i].Passes?
      ensures forall i: nat :: Decides(answers, i) ==> LeadsTo(f, answers[i], writable, r)
      ensures r.Ready? ==> files == old(files)[key := r.data]
      ensures !r.Ready? ==> files == old(files)
    {
      var i := 0;
      while i < |answers|
        invariant 0 <= i <= |answers|
        invariant forall j :: 0 <= j < i ==> answers[j].Passes?
        invariant files == old(files)
      {
        if !answers[i].Passes? {
          OneDecides(answers, i);
          r := Store(key, answers[i], writable);
          return;
        }
        i := i + 1;
      }
      return Unavailable;
    }

    method Store(key: Key, answer: Answer, writable: bool) returns (r: Lookup)
      requires Ieee(f) && !answer.Passes?
      modifies this
      ensures LeadsTo(f, answer, writable, r)
      ensures r.Ready? <==> writable && answer.Makes? && ValidTile(f, answer.tile)
      ensures r.Ready? ==> files == old(files)[key := r.data]
      ensures !r.Ready? ==> files == old(files)
    {
      match answer {
        case NetworkFails => return FetchError;
        case Fails => return ProviderError;
        case Makes(tile) =>
          var data := EncodeTerrainTile(f, tile);
          if data == [] {
            return ProviderError;
          }
          if !writable {
            return ReadError;
          }
          files := files[key := data];
          return Ready(data);
      }
    }

    /**
     * terrainTile for a valid request. While it waits for the lock of the tile, other requests leave
     * the store as `meanwhile`; a corrupt file stays an error unless the fill repairs it.
     */
    method TerrainTile(key: Key, blocked: set<Key>, locked: bool, meanwhile: map<Key, seq<byte>>,
                       answers: seq<Answer>, writable: bool) returns (r: Lookup)
      requires Ieee(f) && Honest(f, key, answers)
      modifies this
      ensures r.Ready? ==> Serves(f, r.data, key) && (key !in blocked ==> Read(f, files, blocked, key) == r)
      ensures Settled(Read(f, old(files), blocked, key)) ==> r == Read(f, old(files), blocked, key) && files == old(files)
      ensures !Settled(Read(f, old(files), blocked, key)) && !locked ==> r.ProviderError? && files == old(files)
      ensures !Settled(Read(f, old(files), blocked, key)) && locked ==>
        forall k :: k != key ==> (k in files <==> k in meanwhile) && (k in files ==> files[k] == meanwhile[k])
      ensures !Settled(Read(f, old(files), blocked, key)) && locked ==>
        var held := Read(f, meanwhile, blocked, key);
        if Settled(held) then r == held && files == meanwhile
        else (r.Ready? <==> Fills(f, answers, writable))
             && (!r.Ready? && (Read(f, old(files), blocked, key).Corrupt? || held.Corrupt?) ==> r.Corrupt?)
             && (!Read(f, old(files), blocked, key).Corrupt? && !held.Corrupt? ==> FilledBy(f, answers, writable, r))
    {
      var first := Read(f, files, blocked, key);
      if Settled(first) {
        return first;
      }
      if !locked {
        return ProviderError;
      }
      files := meanwhile;
      r := FillUnderLock(key, blocked, answers, writable);
      if first.Corrupt? && !r.Ready? && !Settled(Read(f, meanwhile, blocked, key)) {
        r := Corrupt;
      }
    }

    /** The lookup once the lock of the tile is held: another request may have filled it by now. */
    method FillUnderLock(key: Key, blocked: set<Key>, answers: seq<Answer>, writable: bool) returns (r: Lookup)
      requires Ieee(f) && Honest(f, key, answers)
      modifies this
      ensures Settled(Read(f, old(files), blocked, key)) ==> r == Read(f, old(files), blocked, key) && files == old(files)
      ensures !Settled(Read(f, old(files), blocked, key)) ==> (r.Ready? <==> Fills(f, answers, writable))
      ensures Read(f, old(files), blocked, key).Corrupt? && !r.Ready? ==> r.Corrupt?
      ensures Read(f, old(files), blocked, key).Unavailable? ==> FilledBy(f, answers, writable, r)
      ensures r.Ready? ==> Serves(f, r.data, key) && (key !in blocked ==> Read(f, files, blocked, key) == r)
      ensures files == old(files) || (r.Ready? && files == old(files)[key := r.data])
    {
      r := Read(f, files, blocked, key);
      if Settled(r) {
        return;
      }
      var filled := FetchAndStore(key, answers, writable);
      if filled.Ready? {
        var i := FirstDecides(answers);
        FilledReadsBackIff(f, old(files), blocked - {key}, key, answers[i].tile);
      }
      if filled.Ready? || !r.Corrupt? {
        r := filled;
      }
    }

    /** Removes the tiles of a range of columns and rows; a file that cannot be removed is passed over. */
    method DeleteNormalizedTiles(dataset: seq<byte>, zoom: nat, xMin: int, xMax: int, yMin: int, yMax: int, stuck: set<Key>)
      returns (deleted: nat, ok: bool)
      modifies this
      ensures files == map k | k in old(files) && !(Selects(k, dataset, zoom, xMin, xMax, yMin, yMax) && k !in stuck) :: old(files)[k]
      ensures deleted == |old(files)| - |files|
      ensures ok ==> ValidRange(dataset, zoom, xMin, xMax, yMin, yMax)
      ensures ValidRange(dataset, zoom, xMin, xMax, yMin, yMax) ==>
        (ok <==> forall k :: k in old(files) && Selects(k, dataset, zoom, xMin, xMax, yMin, yMax) ==> k !in stuck)
    {
      deleted, ok := 0, ValidRange(dataset, zoom, xMin, xMax, yMin, yMax);
      if !ok {
        return;
      }
      var left := files.Keys;
      while left != {}
        invariant left <= files.Keys <= old(files).Keys
        invariant forall k :: k in files ==> files[k] == old(files)[k]
        invariant forall k :: k in old(files).Keys && k !in left ==>
          (k in files <==> !(Selects(k, dataset, zoom, xMin, xMax, yMin, yMax) && k !in stuck))
        invariant deleted == |old(files).Keys| - |files.Keys|
        invariant ok <==> forall k :: k in old(files).Keys - left && Selects(k, dataset, zoom, xMin, xMax, yMin, yMax) ==> k !in stuck
      {
        var key :| key in left;
        left := left - {key};
        if Selects(key, dataset, zoom, xMin, xMax, yMin, yMax) {
          if key in stuck {
            ok := false;
          } else {
            assert (files - {key}).Keys == files.Keys - {key};
            files := files - {key};
            deleted := deleted + 1;
          }
        }
      }
    }
  }

  lemma FirstDecides(answers: seq<Answer>) returns (i: nat)
    requires exists j :: 0 <= j < |answers| && !answers[j].Passes?
    ensures Decides(answers, i)
  {
    i := 0;
    while answers[i].Passes?
      invariant i < |answers| && forall j :: 0 <= j < i ==> answers[j].Passes?
      invariant exists j :: i <= j < |answers| && !answers[j].Passes?
      decreases |answers| - i
    {
      i := i + 1;
    }
  }

  /** Ranges that are not refused. */
  predicate ValidRange(dataset: seq<byte>, zoom: nat, xMin: int, xMax: int, yMin: int, yMax: int) {
    ValidDataset(dataset) && zoom <= MAX_ZOOM && xMin <= xMax && yMin <= yMax
  }

  predicate Selects(k: Key, dataset: seq<byte>, zoom: nat, xMin: int, xMax: int, yMin: int, yMax: int) {
    && ValidRange(dataset, zoom, xMin, xMax, yMin, yMax) && k.dataset == dataset && k.zoom == zoom
    && 0 <= k.x < TileCount(zoom) && XInsideRange(k.x, TileCount(zoom), xMin, xMax)
    && Max(0, yMin) <= k.y <= Min(TileCount(zoom) - 1, yMax)
  }
}
