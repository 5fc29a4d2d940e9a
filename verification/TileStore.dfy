/**
 * The map tile cache as the object updates it: each request, callback and half of a deletion
 * against the step of the state machine that specifies it.
 */
module TileStore {
  import opened Wrappers
  import opened Numbers
  import opened TileRange
  import opened TileScheduler
  import opened TileQueue
  import opened TileCache
  import opened TileCacheInvariants
  import opened TileSingleWrites

  /** Every registered write is unfinished and of the key it is registered under. */
  ghost predicate Tracked(writes: map<nat, Write>, registered: map<TileKey, nat>) {
    forall k :: k in registered ==> registered[k] in writes && writes[registered[k]].key == k
  }

  class MapTiles {
    const queue: DownloadQueue
    var nextId: nat
    var invalidated: set<TileKey>
    var ram: map<TileKey, Tile>
    var disk: map<TileKey, Tile>
    var pendingReads: map<ReadKey, Read>
    var readBytes: int
    var writes: map<nat, Write>
    var registered: map<TileKey, nat>
    var writeKeys: set<TileKey>
    var writeCount: int
    var writeBytes: int
    var generation: nat
    var deleting: Option<Range>
    var waiting: set<ResponseKey>

    ghost function Now(): Cache
      reads this, queue
    {
      Cache(queue.Now(), nextId, invalidated, ram, disk, pendingReads, readBytes, writes, registered,
            writeKeys, writeCount, writeBytes, generation, deleting, waiting)
    }

    constructor (limits: Limits)
      ensures Now() == FRESH && queue.limits == limits && fresh(queue)
    {
      queue := new DownloadQueue(limits);
      nextId, invalidated, ram, disk := 0, {}, map[], map[];
      pendingReads, readBytes := map[], 0;
      writes, registered, writeKeys, writeCount, writeBytes := map[], map[], {}, 0, 0;
      generation, deleting, waiting := 0, None, {};
    }

    /** One tileReady or tileFailed for each key. */
    method Emit(keys: seq<ResponseKey>)
      modifies this`waiting
      ensures Now() == Answer(old(Now()), keys)
    {
      var i := 0;
      while i < |keys|
        invariant 0 <= i <= |keys|
        invariant waiting == old(waiting) - KeySet(keys[..i])
      {
        assert keys[..i + 1] == keys[..i] + [keys[i]];
        waiting := waiting - {keys[i]};
        i := i + 1;
      }
      assert keys[..i] == keys;
    }

    // ---------------------------------------------------------------- requests

    method GetTileNow(r: Request) returns (reply: Reply)
      modifies this, queue
      ensures (Now(), reply) == GetTile(old(Now()), queue.limits, r)
    {
      if r.key in ram {
        return Ready(ram[r.key]);
      }
      if r.key in disk {
        ram := ram[r.key := disk[r.key]];
        return Ready(disk[r.key]);
      }
      if !r.mayFetch {
        return Invalid;
      }
      var status := queue.ScheduleMapTileDownload(Download(r.key, r.origin, r.response, nextId));
      if status.QueueFullStatus? {
        return Busy;
      }
      nextId := nextId + 1;
      return Pending;
    }

    method GetTileForHttpNow(r: Request) returns (reply: Reply)
      modifies this, queue
      ensures (Now(), reply) == GetTileForHttp(old(Now()), queue.limits, r)
    {
      if r.key in ram {
        return Ready(ram[r.key]);
      }
      if r.key !in disk {
        reply := GetTileNow(r);
        return;
      }
      var readKey := ReadKey(r.key, generation);
      if readKey in pendingReads {
        var read := pendingReads[readKey];
        pendingReads := pendingReads[readKey := read.(requests := read.requests + [r.response])];
        return Pending;
      }
      if |pendingReads| >= MAX_PENDING_READS {
        return Busy;
      }
      var size := disk[r.key].size;
      if size <= 0 || size > MAX_PENDING_READ_BYTES || size > MAX_PENDING_READ_BYTES - readBytes {
        return Busy;
      }
      readBytes := readBytes + size;
      pendingReads := pendingReads[readKey := Read(size, [r.response], None)];
      return Pending;
    }

    // ---------------------------------------------------------------- callbacks

    /** A read that found nothing: each of its requests goes down the ordinary path. */
    method FallBack(key: TileKey, requests: seq<ResponseKey>, origins: seq<Origin>, mayFetch: bool)
      requires |origins| == |requests|
      modifies this, queue
      ensures Now() == Fallback(old(Now()), queue.limits, key, requests, origins, mayFetch)
    {
      var i := 0;
      while i < |requests|
        invariant 0 <= i <= |requests|
        invariant Fallback(Now(), queue.limits, key, requests[i..], origins[i..], mayFetch)
               == Fallback(old(Now()), queue.limits, key, requests, origins, mayFetch)
      {
        var reply := GetTileNow(Request(key, origins[i], requests[i], mayFetch));
        if !reply.Pending? {
          Emit([requests[i]]);
        }
        i := i + 1;
      }
    }

    method ReadFinished(readKey: ReadKey, origins: seq<Origin>, mayFetch: bool)
      requires readKey in pendingReads && pendingReads[readKey].fetched.Some?
      requires |origins| == |pendingReads[readKey].requests|
      modifies this, queue
      ensures Now() == ReadEnds(old(Now()), queue.limits, readKey, origins, mayFetch)
    {
      var read := pendingReads[readKey];
      readBytes := readBytes - read.size;
      pendingReads := pendingReads - {readKey};
      if readKey.generation == generation && read.fetched.value.Some? {
        ram := ram[readKey.key := read.fetched.value.value];
        Emit(read.requests);
      } else if readKey.generation != generation {
        Emit(read.requests);
      } else {
        FallBack(readKey.key, read.requests, origins, mayFetch);
      }
    }

    method RequestFinished(key: TileKey, size: nat, mayStore: bool)
      requires key in queue.active && queue.active[key].key == key
      modifies this, queue
      ensures Now() == DownloadSucceeds(old(Now()), queue.limits, key, size, mayStore)
    {
      var tile := Tile(queue.active[key].id, size);
      var stopped := key in invalidated;
      invalidated := invalidated - {key};
      var responses, toStart := queue.DownloadEnded(key);
      if stopped || !mayStore || writeCount >= MAX_PENDING_WRITES || size > MAX_PENDING_WRITE_BYTES - writeBytes {
        Emit(responses);
        return;
      }
      BeginWrite(key, tile, responses);
    }

    /** Published to RAM at once; the answers wait for the write. */
    method BeginWrite(key: TileKey, tile: Tile, responses: seq<ResponseKey>)
      modifies this
      ensures Now() == StartWrite(old(Now()), key, tile, responses)
    {
      ram := ram[key := tile];
      writeCount := writeCount + 1;
      writeBytes := writeBytes + tile.size;
      RegisterWrite(key, Write(key, tile, responses, Waiting, false));
    }

    method RegisterWrite(key: TileKey, w: Write)
      modifies this`writeKeys, this`registered, this`writes, this`nextId
      ensures writeKeys == old(writeKeys) + {key}
      ensures registered == old(registered)[key := old(nextId)]
      ensures writes == old(writes)[old(nextId) := w]
      ensures nextId == old(nextId) + 1
    {
      writeKeys := writeKeys + {key};
      registered := registered[key := nextId];
      writes := writes[nextId := w];
      nextId := nextId + 1;
    }

    method RequestError(key: TileKey)
      requires key in queue.active && queue.active[key].key == key
      modifies this, queue
      ensures Now() == DownloadFails(old(Now()), queue.limits, key)
    {
      invalidated := invalidated - {key};
      var responses, toStart := queue.DownloadEnded(key);
      Emit(responses);
    }

    method WriteFinished(id: nat)
      requires id in writes
      modifies this
      ensures Now() == WriteEnds(old(Now()), id)
    {
      var w := writes[id];
      writes := writes - {id};
      writeCount := writeCount - 1;
      writeBytes := writeBytes - w.tile.size;
      writeKeys := writeKeys - {w.key};
      registered := registered - {w.key};
      invalidated := invalidated - {w.key};
      Emit(w.responses);
    }

    method CancelUpstreamDownloads()
      requires DistinctKeys(queue.queued)
      modifies this, queue
      ensures Now() == CancelUpstream(old(Now()))
    {
      invalidated := invalidated - KeysOf(queue.queued);
      var responses := queue.CancelQueuedDownloads();
      Emit(responses);
    }

    // ---------------------------------------------------------------- deletion

    /** Refuses a malformed range; an empty one is a deletion of nothing. */
    method DeleteTilesBegins(range: Range) returns (deletes: bool)
      requires Tracked(writes, registered)
      modifies this
      ensures deletes <==> Deletes(range)
      ensures Now() == if Deletes(range) then DeleteMarks(old(Now()), range) else old(Now())
    {
      if range.zoom > 30 || range.xMin > range.xMax || range.yMin > range.yMax {
        return false;
      }
      if Max(0, range.yMin) > Min(TileCount(range.zoom) - 1, range.yMax) {
        return false;
      }
      generation := generation + 1;
      deleting := Some(range);
      StopWrites(range);
      return true;
    }

    /** Tells every registered write in the range to stop. */
    method StopWrites(range: Range)
      requires Tracked(writes, registered)
      modifies this`writes
      ensures writes == StoppedWritesOf(old(writes), registered, range, registered.Keys)
    {
      var left := registered.Keys;
      ghost var done: set<TileKey> := {};
      while left != {}
        invariant left !! done && left + done == registered.Keys
        invariant writes == StoppedWritesOf(old(writes), registered, range, done)
      {
        var key :| key in left;
        ghost var was := writes;
        left := left - {key};
        if InRange(range, key) {
          var id := registered[key];
          writes := writes[id := writes[id].(invalidated := true)];
        }
        StoppedOneMore(old(writes), registered, range, done, key, was);
        done := done + {key};
      }
      assert done == registered.Keys;
    }

    /**
     * Marks the downloads and writes in progress, forgets the tiles in RAM and removes the files,
     * up to the first that cannot be removed. A count is returned, or -2.
     */
    method DeleteTilesEnds(stuck: set<TileKey>) returns (count: int, ghost kept: set<TileKey>)
      requires deleting.Some?
      modifies this
      ensures Now() == DeleteSweeps(old(Now()), old(deleting).value, kept)
      ensures kept <= old(disk).Keys
      ensures count == -2 || (kept == {} && count == |set k | k in old(disk) && InRange(old(deleting).value, k)|)
      ensures count == -2 <==> (exists k :: k in old(disk) && InRange(old(deleting).value, k) && k in stuck)
    {
      var range := deleting.value;
      deleting := None;
      MarkInProgress(range);
      MemoryForget(range);
      count, kept := RemoveFiles(range, stuck);
    }

    /** Every download or write of the range in progress is barred from the cache. */
    method MarkInProgress(range: Range)
      modifies this`invalidated
      ensures invalidated == old(invalidated) + set k | k in InProgress(Now()) && InRange(range, k)
    {
      var left := queue.active.Keys + queue.queuedKeys + writeKeys;
      ghost var done: set<TileKey> := {};
      while left != {}
        invariant left + done == queue.active.Keys + queue.queuedKeys + writeKeys
        invariant invalidated == old(invalidated) + set k | k in done && InRange(range, k)
      {
        var key :| key in left;
        left := left - {key};
        done := done + {key};
        if InRange(range, key) {
          invalidated := invalidated + {key};
        }
      }
    }

    method MemoryForget(range: Range)
      modifies this`ram
      ensures ram == map k | k in old(ram) && !InRange(range, k) :: old(ram)[k]
    {
      var left := ram.Keys;
      while left != {}
        invariant left <= ram.Keys <= old(ram).Keys
        invariant forall k :: k in ram ==> ram[k] == old(ram)[k]
        invariant forall k :: k in old(ram).Keys && k !in ram ==> InRange(range, k)
        invariant forall k :: k in ram && k !in left ==> !InRange(range, k)
      {
        var key :| key in left;
        left := left - {key};
        if InRange(range, key) {
          ram := ram - {key};
        }
      }
    }

    method RemoveFiles(range: Range, stuck: set<TileKey>) returns (count: int, ghost kept: set<TileKey>)
      modifies this`disk
      ensures disk == map k | k in old(disk) && (!InRange(range, k) || k in kept) :: old(disk)[k]
      ensures kept <= old(disk).Keys
      ensures count == -2 || (kept == {} && count == |set k | k in old(disk) && InRange(range, k)|)
      ensures count == -2 <==> (exists k :: k in old(disk) && InRange(range, k) && k in stuck)
    {
      count := 0;
      kept := {};
      var left := disk.Keys;
      ghost var removed: set<TileKey> := {};
      while left != {}
        invariant left <= disk.Keys && disk.Keys == old(disk).Keys - removed
        invariant forall k :: k in disk ==> disk[k] == old(disk)[k]
        invariant forall k :: k in removed ==> k in old(disk) && InRange(range, k)
        invariant forall k :: k in old(disk) && k !in left && InRange(range, k) ==> k in removed && k !in stuck
        invariant count == |removed|
      {
        var key :| key in left;
        left := left - {key};
        if InRange(range, key) {
          if key in stuck {
            kept := disk.Keys;
            return -2, kept;
          }
          disk := disk - {key};
          removed := removed + {key};
          count := count + 1;
        }
      }
      assert removed == set k | k in old(disk) && InRange(range, k);
    }
  }

  // ---------------------------------------------------------------- the writes stopped so far

  function StoppedWritesOf(writes: map<nat, Write>, registered: map<TileKey, nat>, range: Range, done: set<TileKey>): map<nat, Write> {
    map id | id in writes ::
      var w := writes[id];
      w.(invalidated := w.invalidated || (w.key in done && w.key in registered && registered[w.key] == id && InRange(range, w.key)))
  }

  lemma StoppedOneMore(writes: map<nat, Write>, registered: map<TileKey, nat>, range: Range, done: set<TileKey>, key: TileKey,
                       was: map<nat, Write>)
    requires Tracked(writes, registered) && key in registered && key !in done
    requires was == StoppedWritesOf(writes, registered, range, done)
    ensures registered[key] in was
    ensures var id := registered[key];
      StoppedWritesOf(writes, registered, range, done + {key})
      == if InRange(range, key) then was[id := was[id].(invalidated := true)] else was
  {
  }

  // ---------------------------------------------------------------- registrations over runs

  /** Callbacks end exactly the registrations of the write's own key, so none is ever left dangling. */
  lemma StepKeepsTracked(c: Cache, limits: Limits, e: Event)
    requires CacheOk(c, limits) && Tracked(c.writes, c.registered) && Enabled(c, e)
    ensures var c' := Next(c, limits, e); Tracked(c'.writes, c'.registered)
  {
    if e.Downloaded? {
      DownloadKeepsTracked(c, limits, e.key, e.size, e.mayStore);
    } else if UsesWrites(e) {
      WriterKeepsTracked(c, limits, e);
    } else {
      QuietKeepsRegistry(c, limits, e);
    }
  }

  lemma DownloadKeepsTracked(c: Cache, limits: Limits, key: TileKey, size: nat, mayStore: bool)
    requires WritesOk(c.writes, c.nextId) && Tracked(c.writes, c.registered) && key in c.scheduler.active
    ensures var c' := DownloadSucceeds(c, limits, key, size, mayStore); Tracked(c'.writes, c'.registered)
  {
  }

  lemma WriterKeepsTracked(c: Cache, limits: Limits, e: Event)
    requires Tracked(c.writes, c.registered) && Enabled(c, e) && UsesWrites(e) && !e.Downloaded?
    ensures var c' := Next(c, limits, e); Tracked(c'.writes, c'.registered)
  {
  }

  /** What the methods demand of their callers holds in every state a run reaches. */
  lemma {:induction false} RunKeepsTracked(c: Cache, limits: Limits, events: seq<Event>, c': Cache)
    requires CacheOk(c, limits) && Tracked(c.writes, c.registered) && Reaches(c, limits, events, c')
    ensures CacheOk(c', limits) && Tracked(c'.writes, c'.registered)
    decreases |events|
  {
    if events != [] {
      StepKeeps(c, limits, events[0]);
      StepKeepsTracked(c, limits, events[0]);
      RunKeepsTracked(Next(c, limits, events[0]), limits, events[1..], c');
    }
  }
}
