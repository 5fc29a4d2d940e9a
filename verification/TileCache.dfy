/**
 * The tile cache of src/lib/maptiles.cpp as a state machine: cold reads, downloads, background
 * writes and deletion, one step for each stretch of code that runs without interleaving. Callbacks
 * and requests run on one thread; the read and write workers run beside them.
 */
module TileCache {
  import opened Wrappers
  import opened Numbers
  import opened TileRange
  import opened TileScheduler

  const MAX_PENDING_WRITES: int := 64
  const MAX_PENDING_READS: int := 64
  const MAX_PENDING_WRITE_BYTES: int := 67108864
  const MAX_PENDING_READ_BYTES: int := 67108864
  const MAX_TILE_BYTES: int := 10485760

  /** The bytes of a tile, known by the download that fetched them and by their number. */
  datatype Tile = Tile(author: nat, size: nat)

  datatype Range = Range(provider: string, zoom: nat, xMin: int, xMax: int, yMin: int, yMax: int)

  /** A cold read is keyed by tile and by the cache generation it was asked in. */
  datatype ReadKey = ReadKey(key: TileKey, generation: nat)

  datatype Read = Read(size: nat, requests: seq<ResponseKey>, fetched: Option<Option<Tile>>)

  datatype WritePhase = Waiting | Saving | Finished

  datatype Write = Write(key: TileKey, tile: Tile, responses: seq<ResponseKey>, phase: WritePhase, invalidated: bool)

  datatype Cache = Cache(
    scheduler: Scheduler,
    nextId: nat,
    invalidated: set<TileKey>,
    ram: map<TileKey, Tile>,
    disk: map<TileKey, Tile>,
    pendingReads: map<ReadKey, Read>,
    readBytes: int,
    writes: map<nat, Write>,
    registered: map<TileKey, nat>,
    writeKeys: set<TileKey>,
    writeCount: int,
    writeBytes: int,
    generation: nat,
    deleting: Option<Range>,
    waiting: set<ResponseKey>)

  const FRESH := Cache(IDLE, 0, {}, map[], map[], map[], 0, map[], map[], {}, 0, 0, 0, None, {})

  // ---------------------------------------------------------------- answering

  function KeySet(keys: seq<ResponseKey>): set<ResponseKey> {
    set k | k in keys
  }

  /** tileReady or tileFailed for each of the keys: every promise under them is resolved. */
  function Answer(c: Cache, keys: seq<ResponseKey>): Cache {
    c.(waiting := c.waiting - KeySet(keys))
  }

  function Wait(c: Cache, response: ResponseKey): Cache {
    c.(waiting := c.waiting + if response.NoResponse? then {} else {response})
  }

  // ---------------------------------------------------------------- requests

  datatype Reply = Ready(tile: Tile) | Pending | Invalid | Busy

  datatype Request = Request(key: TileKey, origin: Origin, response: ResponseKey, mayFetch: bool)

  function NewDownload(c: Cache, r: Request): Download {
    Download(r.key, r.origin, r.response, c.nextId)
  }

  /** getTile, past its checks of provider and coordinates. */
  function GetTile(c: Cache, limits: Limits, r: Request): (Cache, Reply) {
    if r.key in c.ram then (c, Ready(c.ram[r.key]))
    else if r.key in c.disk then (c.(ram := c.ram[r.key := c.disk[r.key]]), Ready(c.disk[r.key]))
    else if !r.mayFetch then (c, Invalid)
    else if QueueFull(c.scheduler, limits, NewDownload(c, r)) then (c, Busy)
    else (c.(scheduler := Schedule(c.scheduler, limits, NewDownload(c, r)), nextId := c.nextId + 1), Pending)
  }

  /** The cold-read branch of getTileForHttp, for a file that is there. */
  function ColdRead(c: Cache, key: TileKey, response: ResponseKey): (Cache, Reply)
    requires key in c.disk
  {
    var readKey := ReadKey(key, c.generation);
    var size := c.disk[key].size;
    if readKey in c.pendingReads then
      (c.(pendingReads := c.pendingReads[readKey := c.pendingReads[readKey].(requests := c.pendingReads[readKey].requests + [response])]), Pending)
    else if |c.pendingReads| >= MAX_PENDING_READS then (c, Busy)
    else if size <= 0 || size > MAX_PENDING_READ_BYTES || size > MAX_PENDING_READ_BYTES - c.readBytes then (c, Busy)
    else (c.(pendingReads := c.pendingReads[readKey := Read(size, [response], None)], readBytes := c.readBytes + size), Pending)
  }

  function GetTileForHttp(c: Cache, limits: Limits, r: Request): (Cache, Reply) {
    if r.key in c.ram then (c, Ready(c.ram[r.key]))
    else if r.key in c.disk then ColdRead(c, r.key, r.response)
    else GetTile(c, limits, r)
  }

  /** A pending answer leaves a promise behind, unless the caller asked not to wait or may not. */
  function AfterReply(after: (Cache, Reply), response: ResponseKey, waits: bool): Cache {
    if after.1.Pending? && waits then Wait(after.0, response) else after.0
  }

  // ---------------------------------------------------------------- cold reads

  /** The read worker: the file must still be there with the size that was reserved. */
  function ReadFetches(c: Cache, readKey: ReadKey): Cache
    requires readKey in c.pendingReads
  {
    var read := c.pendingReads[readKey];
    var found := if readKey.key in c.disk && c.disk[readKey.key].size == read.size then Some(c.disk[readKey.key]) else None;
    c.(pendingReads := c.pendingReads[readKey := read.(fetched := Some(found))])
  }

  /** A reply to a request that was already waiting. */
  function Settle(after: (Cache, Reply), response: ResponseKey): Cache {
    if after.1.Pending? then after.0 else Answer(after.0, [response])
  }

  /** A genuine miss sends each request down the ordinary path; the upstream host is chosen anew. */
  function Fallback(c: Cache, limits: Limits, key: TileKey, requests: seq<ResponseKey>,
                    origins: seq<Origin>, mayFetch: bool): Cache
    requires |origins| == |requests|
    decreases |requests|
  {
    if requests == [] then c
    else
      var next := Settle(GetTile(c, limits, Request(key, origins[0], requests[0], mayFetch)), requests[0]);
      Fallback(next, limits, key, requests[1..], origins[1..], mayFetch)
  }

  function ReadTaken(c: Cache, readKey: ReadKey): Cache
    requires readKey in c.pendingReads
  {
    c.(pendingReads := c.pendingReads - {readKey}, readBytes := c.readBytes - c.pendingReads[readKey].size)
  }

  function ReadEnds(c: Cache, limits: Limits, readKey: ReadKey, origins: seq<Origin>, mayFetch: bool): Cache
    requires readKey in c.pendingReads && c.pendingReads[readKey].fetched.Some? && |origins| == |c.pendingReads[readKey].requests|
  {
    var read := c.pendingReads[readKey];
    var c1 := ReadTaken(c, readKey);
    if readKey.generation == c.generation && read.fetched.value.Some? then
      Answer(c1.(ram := c1.ram[readKey.key := read.fetched.value.value]), read.requests)
    else if readKey.generation != c.generation then
      Answer(c1, read.requests)
    else
      Fallback(c1, limits, readKey.key, read.requests, origins, mayFetch)
  }

  // ---------------------------------------------------------------- downloads and writes

  /** The bookkeeping both download callbacks begin with. */
  function DownloadEnded(c: Cache, limits: Limits, key: TileKey): Cache
    requires key in c.scheduler.active
  {
    c.(scheduler := Finish(c.scheduler, limits, key).0, invalidated := c.invalidated - {key})
  }

  predicate Stores(c: Cache, key: TileKey, size: nat, mayStore: bool) {
    && key !in c.invalidated && mayStore
    && c.writeCount < MAX_PENDING_WRITES && size <= MAX_PENDING_WRITE_BYTES - c.writeBytes
  }

  function StartWrite(c: Cache, key: TileKey, tile: Tile, responses: seq<ResponseKey>): Cache {
    c.(ram := c.ram[key := tile],
       writeCount := c.writeCount + 1,
       writeBytes := c.writeBytes + tile.size,
       writeKeys := c.writeKeys + {key},
       registered := c.registered[key := c.nextId],
       writes := c.writes[c.nextId := Write(key, tile, responses, Waiting, false)],
       nextId := c.nextId + 1)
  }

  function DownloadSucceeds(c: Cache, limits: Limits, key: TileKey, size: nat, mayStore: bool): Cache
    requires key in c.scheduler.active
  {
    var d := c.scheduler.active[key];
    var responses := ResponseKeys(c.scheduler, d);
    var c1 := DownloadEnded(c, limits, key);
    if Stores(c, key, size, mayStore) then StartWrite(c1, key, Tile(d.id, size), responses)
    else Answer(c1, responses)
  }

  function DownloadFails(c: Cache, limits: Limits, key: TileKey): Cache
    requires key in c.scheduler.active
  {
    Answer(DownloadEnded(c, limits, key), ResponseKeys(c.scheduler, c.scheduler.active[key]))
  }

  /** The write worker takes its mutex and looks at the invalidation flag. */
  function WriterEnters(c: Cache, id: nat): Cache
    requires id in c.writes
  {
    var w := c.writes[id];
    c.(writes := c.writes[id := w.(phase := if w.invalidated then Finished else Saving)])
  }

  function WriterSaves(c: Cache, id: nat, ok: bool): Cache
    requires id in c.writes
  {
    var w := c.writes[id];
    c.(writes := c.writes[id := w.(phase := Finished)], disk := if ok then c.disk[w.key := w.tile] else c.disk)
  }

  /** The write callback. It clears the key's registration and marker, whoever set them. */
  function WriteEnds(c: Cache, id: nat): Cache
    requires id in c.writes
  {
    var w := c.writes[id];
    Answer(
      c.(writes := c.writes - {id},
         writeCount := c.writeCount - 1,
         writeBytes := c.writeBytes - w.tile.size,
         writeKeys := c.writeKeys - {w.key},
         registered := c.registered - {w.key},
         invalidated := c.invalidated - {w.key}),
      w.responses)
  }

  /** The queue is dropped; active downloads end later, each in its own callback. */
  function CancelUpstream(c: Cache): Cache {
    Answer(
      c.(scheduler := CancelQueued(c.scheduler), invalidated := c.invalidated - KeysOf(c.scheduler.queued)),
      QueuedResponses(c.scheduler, c.scheduler.queued))
  }

  // ---------------------------------------------------------------- deletion

  /** Deletion requests that get as far as touching the cache. */
  predicate Deletes(range: Range) {
    && range.zoom <= 30 && range.xMin <= range.xMax && range.yMin <= range.yMax
    && Max(0, range.yMin) <= Min(TileCount(range.zoom) - 1, range.yMax)
  }

  predicate InRange(range: Range, key: TileKey) {
    && key.provider == range.provider && key.zoom == range.zoom
    && Max(0, range.yMin) <= key.y <= Min(TileCount(range.zoom) - 1, range.yMax)
    && XInsideRange(key.x, TileCount(range.zoom), range.xMin, range.xMax)
  }

  predicate Flags(c: Cache, range: Range, id: nat, w: Write) {
    w.key in c.registered && c.registered[w.key] == id && InRange(range, w.key)
  }

  /** First half: reads of this generation are disowned and registered writes are told to stop. */
  function DeleteMarks(c: Cache, range: Range): Cache {
    c.(generation := c.generation + 1,
       deleting := Some(range),
       writes := map id | id in c.writes ::
         c.writes[id].(invalidated := c.writes[id].invalidated || Flags(c, range, id, c.writes[id])))
  }

  /** The mutex of every registered write in the range has been acquired and released. */
  predicate WritersAreOut(c: Cache, range: Range) {
    forall id :: id in c.writes ==> Flags(c, range, id, c.writes[id]) ==> !c.writes[id].phase.Saving?
  }

  function InProgress(c: Cache): set<TileKey> {
    c.scheduler.active.Keys + c.scheduler.queuedKeys + c.writeKeys
  }

  /** Second half; `kept` are files that could not be removed, and then the deletion reports failure. */
  function DeleteSweeps(c: Cache, range: Range, kept: set<TileKey>): Cache {
    c.(deleting := None,
       invalidated := c.invalidated + (set k | k in InProgress(c) && InRange(range, k)),
       ram := map k | k in c.ram && !InRange(range, k) :: c.ram[k],
       disk := map k | k in c.disk && (!InRange(range, k) || k in kept) :: c.disk[k])
  }

  function Reconfigure(c: Cache): Cache {
    c.(generation := c.generation + 1, ram := map[])
  }

  // ---------------------------------------------------------------- runs

  datatype Event =
    | HttpRequest(request: Request, waits: bool)
    | LibraryRequest(request: Request)
    | ReadFetched(readKey: ReadKey)
    | ReadEnded(readKey: ReadKey, origins: seq<Origin>, mayFetch: bool)
    | Downloaded(key: TileKey, size: nat, mayStore: bool)
    | DownloadFailed(key: TileKey)
    | WriterEntered(id: nat)
    | WriterSaved(id: nat, ok: bool)
    | WriteEnded(id: nat)
    | UpstreamCancelled
    | DeletionMarked(range: Range)
    | DeletionSwept(kept: set<TileKey>)
    | Evicted(key: TileKey)
    | Reconfigured

  /** Workers run at any time; the rest of the main thread waits while a deletion is under way. */
  predicate Enabled(c: Cache, e: Event) {
    match e
    case ReadFetched(readKey) => readKey in c.pendingReads && c.pendingReads[readKey].fetched.None?
    case WriterEntered(id) => id in c.writes && c.writes[id].phase.Waiting?
    case WriterSaved(id, _) => id in c.writes && c.writes[id].phase.Saving?
    case DeletionSwept(_) => c.deleting.Some? && WritersAreOut(c, c.deleting.value)
    case ReadEnded(readKey, origins, _) =>
      && c.deleting.None? && readKey in c.pendingReads && c.pendingReads[readKey].fetched.Some?
      && |origins| == |c.pendingReads[readKey].requests|
    case Downloaded(key, size, _) => c.deleting.None? && key in c.scheduler.active && 1 <= size <= MAX_TILE_BYTES
    case DownloadFailed(key) => c.deleting.None? && key in c.scheduler.active
    case WriteEnded(id) => c.deleting.None? && id in c.writes && c.writes[id].phase.Finished?
    case DeletionMarked(range) => c.deleting.None? && Deletes(range)
    case _ => c.deleting.None?
  }

  function Next(c: Cache, limits: Limits, e: Event): Cache
    requires Enabled(c, e)
  {
    match e
    case HttpRequest(r, waits) => AfterReply(GetTileForHttp(c, limits, r), r.response, waits)
    case LibraryRequest(r) => GetTile(c, limits, r).0
    case ReadFetched(readKey) => ReadFetches(c, readKey)
    case ReadEnded(readKey, origins, mayFetch) => ReadEnds(c, limits, readKey, origins, mayFetch)
    case Downloaded(key, size, mayStore) => DownloadSucceeds(c, limits, key, size, mayStore)
    case DownloadFailed(key) => DownloadFails(c, limits, key)
    case WriterEntered(id) => WriterEnters(c, id)
    case WriterSaved(id, ok) => WriterSaves(c, id, ok)
    case WriteEnded(id) => WriteEnds(c, id)
    case UpstreamCancelled => CancelUpstream(c)
    case DeletionMarked(range) => DeleteMarks(c, range)
    case DeletionSwept(kept) => DeleteSweeps(c, c.deleting.value, kept)
    case Evicted(key) => c.(ram := c.ram - {key})
    case Reconfigured => Reconfigure(c)
  }

  ghost predicate Reaches(c: Cache, limits: Limits, events: seq<Event>, c': Cache)
    decreases |events|
  {
    if events == [] then c' == c
    else Enabled(c, events[0]) && Reaches(Next(c, limits, events[0]), limits, events[1..], c')
  }

  lemma {:induction false} ReachesPlus(c: Cache, limits: Limits, first: seq<Event>, mid: Cache, rest: seq<Event>, c': Cache)
    requires Reaches(c, limits, first, mid) && Reaches(mid, limits, rest, c')
    ensures Reaches(c, limits, first + rest, c')
    decreases |first|
  {
    if first == [] {
      assert first + rest == rest;
    } else {
      assert (first + rest)[0] == first[0] && (first + rest)[1..] == first[1..] + rest;
      ReachesPlus(Next(c, limits, first[0]), limits, first[1..], mid, rest, c');
    }
  }
}
