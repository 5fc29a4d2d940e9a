/** What every step of the tile cache keeps: exact counters, limits, generations and authorship. */
module TileCacheInvariants {
  import opened Wrappers
  import opened MapSum
  import opened TileScheduler
  import opened TileCache

  // ---------------------------------------------------------------- which downloads a scheduler holds

  ghost predicate Held(s: Scheduler, d: Download) {
    (d.key in s.active && s.active[d.key] == d) || d in s.queued
  }

  lemma ScheduleHeld(s: Scheduler, limits: Limits, d: Download, x: Download)
    requires Held(Schedule(s, limits, d), x)
    ensures Held(s, x) || x == d
  {
  }

  lemma {:induction false} StartQueuedHeld(s: Scheduler, limits: Limits, x: Download)
    requires Held(StartQueued(s, limits).0, x)
    ensures Held(s, x)
    decreases |s.queued|
  {
    var index := FirstEligible(s, limits, 0);
    if index < |s.queued| {
      StartQueuedHeld(StartAt(s, index), limits, x);
      assert s.queued[index] in s.queued;
    }
  }

  lemma {:induction false} FinishHeld(s: Scheduler, limits: Limits, key: TileKey, x: Download)
    requires SchedulerOk(s, limits) && key in s.active && Held(Finish(s, limits, key).0, x)
    ensures Held(s, x) && x.key != key
  {
    StartQueuedHeld(ForgetJoined(MarkFinished(s, s.active[key]), key), limits, x);
    if x in s.queued {
      assert x.key in s.queuedKeys;
    }
  }

  lemma CancelHeld(s: Scheduler, limits: Limits, x: Download)
    requires QueueOk(s, limits) && Held(CancelQueued(s), x)
    ensures Held(s, x) && x.key !in KeysOf(s.queued)
  {
  }

  // ---------------------------------------------------------------- components of the invariant

  const WRITE_SIZE: Write -> int := (w: Write) => w.tile.size
  const READ_SIZE: Read -> int := (r: Read) => r.size

  ghost predicate QueuesOk(s: Scheduler, limits: Limits) {
    SchedulerOk(s, limits) && NoneStartable(s, limits)
  }

  ghost predicate WriteAccount(writes: map<nat, Write>, count: int, bytes: int) {
    && count == |writes| <= MAX_PENDING_WRITES
    && bytes == Sum(writes, WRITE_SIZE) <= MAX_PENDING_WRITE_BYTES
  }

  ghost predicate ReadAccount(pending: map<ReadKey, Read>, bytes: int) {
    && |pending| <= MAX_PENDING_READS
    && bytes == Sum(pending, READ_SIZE) <= MAX_PENDING_READ_BYTES
  }

  /** Reads belong to this generation or an earlier one; a deletion under way has disowned them all. */
  ghost predicate GenerationsOk(c: Cache) {
    forall k :: k in c.pendingReads ==> k.generation <= c.generation && (c.deleting.Some? ==> k.generation < c.generation)
  }

  predicate TileOk(t: Tile, nextId: nat) {
    t.author < nextId && t.size >= 1
  }

  predicate Fetched(r: Read) {
    r.fetched.Some? && r.fetched.value.Some?
  }

  function FetchedTile(r: Read): Tile
    requires Fetched(r)
  {
    r.fetched.value.value
  }

  ghost predicate TilesOk(tiles: map<TileKey, Tile>, nextId: nat) {
    forall k :: k in tiles ==> TileOk(tiles[k], nextId)
  }

  ghost predicate WritesOk(writes: map<nat, Write>, nextId: nat) {
    forall id :: id in writes ==> id < nextId && TileOk(writes[id].tile, nextId)
  }

  ghost predicate FetchesOk(pending: map<ReadKey, Read>, nextId: nat) {
    forall k :: k in pending && Fetched(pending[k]) ==> TileOk(FetchedTile(pending[k]), nextId)
  }

  ghost predicate HeldOk(s: Scheduler, nextId: nat) {
    forall d :: Held(s, d) ==> d.id < nextId
  }

  ghost predicate AuthorsOk(c: Cache) {
    && TilesOk(c.ram, c.nextId) && TilesOk(c.disk, c.nextId)
    && WritesOk(c.writes, c.nextId) && FetchesOk(c.pendingReads, c.nextId) && HeldOk(c.scheduler, c.nextId)
  }

  ghost predicate CacheOk(c: Cache, limits: Limits) {
    && QueuesOk(c.scheduler, limits)
    && WriteAccount(c.writes, c.writeCount, c.writeBytes)
    && ReadAccount(c.pendingReads, c.readBytes)
    && GenerationsOk(c)
    && AuthorsOk(c)
  }

  // ---------------------------------------------------------------- what serving a request may change

  ghost predicate OnlyServes(c: Cache, c': Cache) {
    && c' == c.(scheduler := c'.scheduler, nextId := c'.nextId, ram := c'.ram, waiting := c'.waiting)
    && c'.nextId >= c.nextId
  }

  lemma GetTileOnlyServes(c: Cache, limits: Limits, r: Request)
    ensures OnlyServes(c, GetTile(c, limits, r).0)
  {
  }

  lemma {:induction false} FallbackOnlyServes(c: Cache, limits: Limits, key: TileKey, requests: seq<ResponseKey>,
                                              origins: seq<Origin>, mayFetch: bool)
    requires |origins| == |requests|
    ensures OnlyServes(c, Fallback(c, limits, key, requests, origins, mayFetch))
    decreases |requests|
  {
    if requests != [] {
      var r := Request(key, origins[0], requests[0], mayFetch);
      GetTileOnlyServes(c, limits, r);
      FallbackOnlyServes(Settle(GetTile(c, limits, r), requests[0]), limits, key, requests[1..], origins[1..], mayFetch);
    }
  }

  predicate Asks(e: Event) {
    e.HttpRequest? || e.LibraryRequest? || e.ReadEnded?
  }

  /** Requests, and reads that end, touch neither the disk nor writes, markers, generation or deletion. */
  ghost predicate AskFrame(c: Cache, c': Cache) {
    && c' == c.(scheduler := c'.scheduler, nextId := c'.nextId, ram := c'.ram, waiting := c'.waiting,
                pendingReads := c'.pendingReads, readBytes := c'.readBytes)
    && c'.nextId >= c.nextId
  }

  lemma HttpRequestFrame(c: Cache, limits: Limits, r: Request)
    ensures AskFrame(c, GetTileForHttp(c, limits, r).0)
  {
  }

  lemma ReadEndsFrame(c: Cache, limits: Limits, readKey: ReadKey, origins: seq<Origin>, mayFetch: bool)
    requires Enabled(c, ReadEnded(readKey, origins, mayFetch))
    ensures AskFrame(c, ReadEnds(c, limits, readKey, origins, mayFetch))
  {
    FallbackOnlyServes(ReadTaken(c, readKey), limits, readKey.key, c.pendingReads[readKey].requests, origins, mayFetch);
  }

  lemma AskingFrame(c: Cache, limits: Limits, e: Event)
    requires Enabled(c, e) && Asks(e)
    ensures AskFrame(c, Next(c, limits, e))
  {
    if e.HttpRequest? {
      HttpRequestFrame(c, limits, e.request);
    } else if e.LibraryRequest? {
      GetTileOnlyServes(c, limits, e.request);
    } else {
      ReadEndsFrame(c, limits, e.readKey, e.origins, e.mayFetch);
    }
  }

  // ---------------------------------------------------------------- the queue

  lemma GetTileKeepsQueues(c: Cache, limits: Limits, r: Request)
    requires QueuesOk(c.scheduler, limits)
    ensures QueuesOk(GetTile(c, limits, r).0.scheduler, limits)
  {
    ScheduleKeepsOk(c.scheduler, limits, NewDownload(c, r));
    ScheduleLeavesNone(c.scheduler, limits, NewDownload(c, r));
  }

  lemma {:induction false} FallbackKeepsQueues(c: Cache, limits: Limits, key: TileKey, requests: seq<ResponseKey>,
                                               origins: seq<Origin>, mayFetch: bool, c': Cache)
    requires QueuesOk(c.scheduler, limits) && |origins| == |requests|
    requires c' == Fallback(c, limits, key, requests, origins, mayFetch)
    ensures QueuesOk(c'.scheduler, limits)
    decreases |requests|
  {
    if requests != [] {
      var r := Request(key, origins[0], requests[0], mayFetch);
      GetTileKeepsQueues(c, limits, r);
      FallbackKeepsQueues(Settle(GetTile(c, limits, r), requests[0]), limits, key, requests[1..], origins[1..], mayFetch, c');
    }
  }

  /** How a read ends, in one of two ways: its requests are answered, or each falls back on getTile. */
  lemma ReadEndsEitherWay(c: Cache, limits: Limits, readKey: ReadKey, origins: seq<Origin>, mayFetch: bool)
    returns (c': Cache, requests: seq<ResponseKey>)
    requires Enabled(c, ReadEnded(readKey, origins, mayFetch))
    ensures c' == ReadTaken(c, readKey) && requests == c.pendingReads[readKey].requests && |origins| == |requests|
    ensures var after := ReadEnds(c, limits, readKey, origins, mayFetch);
            || after == Fallback(c', limits, readKey.key, requests, origins, mayFetch)
            || after == Answer(c', requests)
            || (after == Answer(c'.(ram := after.ram), requests)
                && readKey.generation == c.generation && Fetched(c.pendingReads[readKey])
                && after.ram == c.ram[readKey.key := FetchedTile(c.pendingReads[readKey])])
  {
    c' := ReadTaken(c, readKey);
    requests := c.pendingReads[readKey].requests;
  }

  lemma {:induction false} ReadEndsKeepsQueues(c: Cache, limits: Limits, readKey: ReadKey, origins: seq<Origin>, mayFetch: bool,
                                               after: Cache)
    requires Enabled(c, ReadEnded(readKey, origins, mayFetch)) && QueuesOk(c.scheduler, limits)
    requires after == ReadEnds(c, limits, readKey, origins, mayFetch)
    ensures QueuesOk(after.scheduler, limits)
  {
    var c1, requests := ReadEndsEitherWay(c, limits, readKey, origins, mayFetch);
    if after == Fallback(c1, limits, readKey.key, requests, origins, mayFetch) {
      FallbackKeepsQueues(c1, limits, readKey.key, requests, origins, mayFetch, after);
    }
  }

  lemma RequestKeepsQueues(c: Cache, limits: Limits, r: Request)
    requires QueuesOk(c.scheduler, limits)
    ensures QueuesOk(GetTileForHttp(c, limits, r).0.scheduler, limits)
  {
    if r.key in c.ram || r.key in c.disk {
      assert GetTileForHttp(c, limits, r).0.scheduler == c.scheduler;
    } else {
      GetTileKeepsQueues(c, limits, r);
    }
  }

  predicate UsesScheduler(e: Event) {
    e.HttpRequest? || e.LibraryRequest? || e.ReadEnded? || e.Downloaded? || e.DownloadFailed? || e.UpstreamCancelled?
  }

  lemma QuietKeepsScheduler(c: Cache, limits: Limits, e: Event)
    requires Enabled(c, e) && !UsesScheduler(e)
    ensures Next(c, limits, e).scheduler == c.scheduler
  {
  }

  lemma {:induction false} EndingKeepsQueues(c: Cache, limits: Limits, key: TileKey)
    requires QueuesOk(c.scheduler, limits) && key in c.scheduler.active
    ensures QueuesOk(DownloadEnded(c, limits, key).scheduler, limits)
  {
    FinishKeeps(c.scheduler, limits, key);
  }

  lemma {:induction false} AskingKeepsQueues(c: Cache, limits: Limits, e: Event)
    requires QueuesOk(c.scheduler, limits) && Enabled(c, e) && Asks(e)
    ensures QueuesOk(Next(c, limits, e).scheduler, limits)
  {
    if e.HttpRequest? {
      RequestKeepsQueues(c, limits, e.request);
    } else if e.LibraryRequest? {
      GetTileKeepsQueues(c, limits, e.request);
    } else {
      ReadEndsKeepsQueues(c, limits, e.readKey, e.origins, e.mayFetch, Next(c, limits, e));
    }
  }

  lemma {:induction false} StepKeepsQueues(c: Cache, limits: Limits, e: Event)
    requires QueuesOk(c.scheduler, limits) && Enabled(c, e)
    ensures QueuesOk(Next(c, limits, e).scheduler, limits)
  {
    if !UsesScheduler(e) {
      QuietKeepsScheduler(c, limits, e);
    } else if Asks(e) {
      AskingKeepsQueues(c, limits, e);
    } else if e.UpstreamCancelled? {
      CancelKeeps(c.scheduler, limits);
    } else {
      EndingKeepsQueues(c, limits, e.key);
    }
  }

  // ---------------------------------------------------------------- writes

  lemma {:induction false} SizesDecide(writes: map<nat, Write>, writes': map<nat, Write>, count: int, bytes: int)
    requires WriteAccount(writes, count, bytes)
    requires writes'.Keys == writes.Keys && forall id :: id in writes ==> writes'[id].tile == writes[id].tile
    ensures WriteAccount(writes', count, bytes)
  {
    SumSame(writes, writes', WRITE_SIZE, WRITE_SIZE);
    assert |writes| == |writes.Keys| && |writes'| == |writes'.Keys|;
  }

  lemma {:induction false} AddWrite(writes: map<nat, Write>, count: int, bytes: int, id: nat, w: Write)
    requires WriteAccount(writes, count, bytes) && id !in writes
    requires count < MAX_PENDING_WRITES && w.tile.size <= MAX_PENDING_WRITE_BYTES - bytes
    ensures WriteAccount(writes[id := w], count + 1, bytes + w.tile.size)
  {
    SumPut(writes, id, w, WRITE_SIZE);
    assert writes[id := w].Keys == writes.Keys + {id};
    assert |writes| == |writes.Keys| && |writes[id := w]| == |writes[id := w].Keys|;
  }

  lemma {:induction false} DropWrite(writes: map<nat, Write>, count: int, bytes: int, id: nat)
    requires WriteAccount(writes, count, bytes) && id in writes
    requires forall i :: i in writes ==> writes[i].tile.size >= 0
    ensures WriteAccount(writes - {id}, count - 1, bytes - writes[id].tile.size)
  {
    SumRemove(writes, id, WRITE_SIZE);
    assert writes.Keys == (writes - {id}).Keys + {id};
    assert |writes| == |writes.Keys| && |writes - {id}| == |(writes - {id}).Keys|;
  }

  predicate UsesWrites(e: Event) {
    e.Downloaded? || e.WriterEntered? || e.WriterSaved? || e.WriteEnded? || e.DeletionMarked?
  }

  lemma QuietKeepsWrites(c: Cache, limits: Limits, e: Event)
    requires Enabled(c, e) && !UsesWrites(e)
    ensures var c' := Next(c, limits, e);
            c'.writes == c.writes && c'.writeCount == c.writeCount && c'.writeBytes == c.writeBytes && c'.nextId >= c.nextId
  {
    if Asks(e) {
      AskingFrame(c, limits, e);
    }
  }

  lemma {:induction false} StoredKeepsWrites(c: Cache, key: TileKey, tile: Tile, responses: seq<ResponseKey>)
    requires WriteAccount(c.writes, c.writeCount, c.writeBytes) && c.nextId !in c.writes
    requires c.writeCount < MAX_PENDING_WRITES && tile.size <= MAX_PENDING_WRITE_BYTES - c.writeBytes
    ensures var c' := StartWrite(c, key, tile, responses); WriteAccount(c'.writes, c'.writeCount, c'.writeBytes)
  {
    AddWrite(c.writes, c.writeCount, c.writeBytes, c.nextId, Write(key, tile, responses, Waiting, false));
  }

  lemma {:induction false} DownloadKeepsWrites(c: Cache, limits: Limits, key: TileKey, size: nat, mayStore: bool)
    requires WriteAccount(c.writes, c.writeCount, c.writeBytes) && WritesOk(c.writes, c.nextId) && key in c.scheduler.active
    ensures var c' := DownloadSucceeds(c, limits, key, size, mayStore); WriteAccount(c'.writes, c'.writeCount, c'.writeBytes)
  {
    if Stores(c, key, size, mayStore) {
      StoredKeepsWrites(DownloadEnded(c, limits, key), key, Tile(c.scheduler.active[key].id, size),
                        ResponseKeys(c.scheduler, c.scheduler.active[key]));
    }
  }

  /** Workers and deletion change how writes stand, not which there are. */
  lemma {:induction false} ChangeKeepsWrites(c: Cache, limits: Limits, e: Event)
    requires WriteAccount(c.writes, c.writeCount, c.writeBytes) && Enabled(c, e)
    requires UsesWrites(e) && !e.Downloaded? && !e.WriteEnded?
    ensures var c' := Next(c, limits, e); WriteAccount(c'.writes, c'.writeCount, c'.writeBytes)
  {
    if e.WriterEntered? {
      SizesDecide(c.writes, WriterEnters(c, e.id).writes, c.writeCount, c.writeBytes);
    } else if e.WriterSaved? {
      SizesDecide(c.writes, WriterSaves(c, e.id, e.ok).writes, c.writeCount, c.writeBytes);
    } else {
      SizesDecide(c.writes, DeleteMarks(c, e.range).writes, c.writeCount, c.writeBytes);
    }
  }

  lemma {:induction false} StepKeepsWrites(c: Cache, limits: Limits, e: Event)
    requires WriteAccount(c.writes, c.writeCount, c.writeBytes) && WritesOk(c.writes, c.nextId) && Enabled(c, e)
    ensures var c' := Next(c, limits, e); WriteAccount(c'.writes, c'.writeCount, c'.writeBytes)
  {
    if !UsesWrites(e) {
      QuietKeepsWrites(c, limits, e);
    } else if e.Downloaded? {
      DownloadKeepsWrites(c, limits, e.key, e.size, e.mayStore);
    } else if e.WriteEnded? {
      DropWrite(c.writes, c.writeCount, c.writeBytes, e.id);
    } else {
      ChangeKeepsWrites(c, limits, e);
    }
  }

  // ---------------------------------------------------------------- reads

  lemma {:induction false} AddRead(pending: map<ReadKey, Read>, bytes: int, k: ReadKey, r: Read)
    requires ReadAccount(pending, bytes) && k !in pending
    requires |pending| < MAX_PENDING_READS && r.size <= MAX_PENDING_READ_BYTES - bytes
    ensures ReadAccount(pending[k := r], bytes + r.size)
  {
    SumPut(pending, k, r, READ_SIZE);
    assert pending[k := r].Keys == pending.Keys + {k};
    assert |pending| == |pending.Keys| && |pending[k := r]| == |pending[k := r].Keys|;
  }

  lemma {:induction false} ChangeRead(pending: map<ReadKey, Read>, bytes: int, k: ReadKey, r: Read)
    requires ReadAccount(pending, bytes) && k in pending && r.size == pending[k].size
    ensures ReadAccount(pending[k := r], bytes)
  {
    SumPut(pending, k, r, READ_SIZE);
    assert pending[k := r].Keys == pending.Keys;
    assert |pending| == |pending.Keys| && |pending[k := r]| == |pending[k := r].Keys|;
  }

  lemma {:induction false} DropRead(pending: map<ReadKey, Read>, bytes: int, k: ReadKey)
    requires ReadAccount(pending, bytes) && k in pending
    ensures ReadAccount(pending - {k}, bytes - pending[k].size)
  {
    SumRemove(pending, k, READ_SIZE);
    assert pending.Keys == (pending - {k}).Keys + {k};
    assert |pending| == |pending.Keys| && |pending - {k}| == |(pending - {k}).Keys|;
  }

  lemma {:induction false} ColdReadKeepsReads(c: Cache, key: TileKey, response: ResponseKey)
    requires ReadAccount(c.pendingReads, c.readBytes) && key in c.disk
    ensures var c' := ColdRead(c, key, response).0; ReadAccount(c'.pendingReads, c'.readBytes)
  {
    var k := ReadKey(key, c.generation);
    if k in c.pendingReads {
      ChangeRead(c.pendingReads, c.readBytes, k, c.pendingReads[k].(requests := c.pendingReads[k].requests + [response]));
    } else if |c.pendingReads| < MAX_PENDING_READS && c.disk[key].size <= MAX_PENDING_READ_BYTES - c.readBytes {
      AddRead(c.pendingReads, c.readBytes, k, Read(c.disk[key].size, [response], None));
    }
  }

  predicate UsesReads(e: Event) {
    e.HttpRequest? || e.ReadFetched? || e.ReadEnded?
  }

  lemma QuietKeepsReads(c: Cache, limits: Limits, e: Event)
    requires Enabled(c, e) && !UsesReads(e)
    ensures var c' := Next(c, limits, e); c'.pendingReads == c.pendingReads && c'.readBytes == c.readBytes
  {
    if e.LibraryRequest? {
      GetTileOnlyServes(c, limits, e.request);
    } else if e.Downloaded? {
      DownloadKeepsReads(c, limits, e.key, e.size, e.mayStore);
    }
  }

  lemma DownloadKeepsReads(c: Cache, limits: Limits, key: TileKey, size: nat, mayStore: bool)
    requires key in c.scheduler.active
    ensures var c' := DownloadSucceeds(c, limits, key, size, mayStore);
            c'.pendingReads == c.pendingReads && c'.readBytes == c.readBytes
  {
  }

  lemma ReadEndsTakes(c: Cache, limits: Limits, readKey: ReadKey, origins: seq<Origin>, mayFetch: bool)
    requires Enabled(c, ReadEnded(readKey, origins, mayFetch))
    ensures var c' := ReadEnds(c, limits, readKey, origins, mayFetch); var c1 := ReadTaken(c, readKey);
            c'.pendingReads == c1.pendingReads && c'.readBytes == c1.readBytes
  {
    FallbackOnlyServes(ReadTaken(c, readKey), limits, readKey.key, c.pendingReads[readKey].requests, origins, mayFetch);
  }

  lemma {:induction false} RequestKeepsReads(c: Cache, limits: Limits, r: Request)
    requires ReadAccount(c.pendingReads, c.readBytes)
    ensures var c' := GetTileForHttp(c, limits, r).0; ReadAccount(c'.pendingReads, c'.readBytes)
  {
    if r.key !in c.ram && r.key in c.disk {
      ColdReadKeepsReads(c, r.key, r.response);
    }
  }

  lemma {:induction false} StepKeepsReads(c: Cache, limits: Limits, e: Event)
    requires ReadAccount(c.pendingReads, c.readBytes) && Enabled(c, e)
    ensures var c' := Next(c, limits, e); ReadAccount(c'.pendingReads, c'.readBytes)
  {
    if !UsesReads(e) {
      QuietKeepsReads(c, limits, e);
    } else if e.HttpRequest? {
      RequestKeepsReads(c, limits, e.request);
    } else if e.ReadFetched? {
      ChangeRead(c.pendingReads, c.readBytes, e.readKey, ReadFetches(c, e.readKey).pendingReads[e.readKey]);
    } else {
      DropRead(c.pendingReads, c.readBytes, e.readKey);
      ReadEndsTakes(c, limits, e.readKey, e.origins, e.mayFetch);
    }
  }

  predicate Disowns(e: Event) {
    e.DeletionMarked? || e.DeletionSwept? || e.Reconfigured?
  }

  lemma GenerationsOnlyGrow(c: Cache, limits: Limits, e: Event)
    requires Enabled(c, e)
    ensures var c' := Next(c, limits, e);
            if Disowns(e) then c'.generation >= c.generation else c'.generation == c.generation && c'.deleting == c.deleting
  {
    if Asks(e) {
      AskingFrame(c, limits, e);
    }
  }

  lemma {:induction false} DisowningKeepsGenerations(c: Cache, limits: Limits, e: Event)
    requires GenerationsOk(c) && Enabled(c, e) && Disowns(e)
    ensures GenerationsOk(Next(c, limits, e))
  {
  }

  lemma {:induction false} RequestKeepsGenerations(c: Cache, limits: Limits, r: Request)
    requires GenerationsOk(c) && c.deleting.None?
    ensures GenerationsOk(GetTileForHttp(c, limits, r).0)
  {
  }

  lemma {:induction false} StepKeepsGenerations(c: Cache, limits: Limits, e: Event)
    requires GenerationsOk(c) && Enabled(c, e)
    ensures GenerationsOk(Next(c, limits, e))
  {
    if Disowns(e) {
      DisowningKeepsGenerations(c, limits, e);
    } else if e.HttpRequest? {
      RequestKeepsGenerations(c, limits, e.request);
    } else {
      GenerationsOnlyGrow(c, limits, e);
      if !UsesReads(e) {
        QuietKeepsReads(c, limits, e);
      } else if e.ReadEnded? {
        ReadEndsTakes(c, limits, e.readKey, e.origins, e.mayFetch);
      }
    }
  }

  // ---------------------------------------------------------------- authors

  lemma GetTileKeepsAuthors(c: Cache, limits: Limits, r: Request)
    requires TilesOk(c.ram, c.nextId) && TilesOk(c.disk, c.nextId) && HeldOk(c.scheduler, c.nextId)
    ensures var c' := GetTile(c, limits, r).0;
            TilesOk(c'.ram, c'.nextId) && TilesOk(c'.disk, c'.nextId) && HeldOk(c'.scheduler, c'.nextId)
  {
    var c' := GetTile(c, limits, r).0;
    forall d | Held(c'.scheduler, d) ensures d.id < c'.nextId {
      if !Held(c.scheduler, d) {
        ScheduleHeld(c.scheduler, limits, NewDownload(c, r), d);
      }
    }
  }

  lemma {:induction false} FallbackKeepsAuthors(c: Cache, limits: Limits, key: TileKey, requests: seq<ResponseKey>,
                                                origins: seq<Origin>, mayFetch: bool, c': Cache)
    requires TilesOk(c.ram, c.nextId) && TilesOk(c.disk, c.nextId) && HeldOk(c.scheduler, c.nextId)
    requires |origins| == |requests| && c' == Fallback(c, limits, key, requests, origins, mayFetch)
    ensures TilesOk(c'.ram, c'.nextId) && TilesOk(c'.disk, c'.nextId) && HeldOk(c'.scheduler, c'.nextId)
    decreases |requests|
  {
    if requests != [] {
      var r := Request(key, origins[0], requests[0], mayFetch);
      GetTileKeepsAuthors(c, limits, r);
      FallbackKeepsAuthors(Settle(GetTile(c, limits, r), requests[0]), limits, key, requests[1..], origins[1..], mayFetch, c');
    }
  }

  lemma {:induction false} FinishKeepsHeld(s: Scheduler, limits: Limits, key: TileKey, nextId: nat)
    requires SchedulerOk(s, limits) && HeldOk(s, nextId) && key in s.active
    ensures HeldOk(Finish(s, limits, key).0, nextId)
    ensures s.active[key].id < nextId
  {
    forall d | Held(Finish(s, limits, key).0, d) ensures d.id < nextId {
      FinishHeld(s, limits, key, d);
    }
    assert s.active[key].key == key;
    assert Held(s, s.active[key]);
  }

  lemma {:induction false} CancelKeepsHeld(s: Scheduler, limits: Limits, nextId: nat)
    requires QueueOk(s, limits) && HeldOk(s, nextId)
    ensures HeldOk(CancelQueued(s), nextId)
  {
    forall d | Held(CancelQueued(s), d) ensures d.id < nextId {
      CancelHeld(s, limits, d);
    }
  }

  lemma IdsOnlyGrow(c: Cache, limits: Limits, e: Event)
    requires Enabled(c, e)
    ensures Next(c, limits, e).nextId >= c.nextId
  {
    if Asks(e) {
      AskingFrame(c, limits, e);
    }
  }

  lemma {:induction false} ReadEndsKeepsTiles(c: Cache, limits: Limits, readKey: ReadKey, origins: seq<Origin>, mayFetch: bool)
    requires AuthorsOk(c) && Enabled(c, ReadEnded(readKey, origins, mayFetch))
    ensures var c' := ReadEnds(c, limits, readKey, origins, mayFetch);
            TilesOk(c'.ram, c'.nextId) && TilesOk(c'.disk, c'.nextId) && HeldOk(c'.scheduler, c'.nextId)
  {
    var c1 := ReadTaken(c, readKey);
    var requests := c.pendingReads[readKey].requests;
    FallbackKeepsAuthors(c1, limits, readKey.key, requests, origins, mayFetch,
                         Fallback(c1, limits, readKey.key, requests, origins, mayFetch));
  }

  lemma RequestKeepsAuthors(c: Cache, limits: Limits, r: Request)
    requires TilesOk(c.ram, c.nextId) && TilesOk(c.disk, c.nextId) && HeldOk(c.scheduler, c.nextId)
    ensures var c' := GetTileForHttp(c, limits, r).0;
            TilesOk(c'.ram, c'.nextId) && TilesOk(c'.disk, c'.nextId) && HeldOk(c'.scheduler, c'.nextId)
  {
    if r.key !in c.ram && r.key !in c.disk {
      GetTileKeepsAuthors(c, limits, r);
    } else {
      var c' := GetTileForHttp(c, limits, r).0;
      assert c'.ram == c.ram && c'.disk == c.disk && c'.scheduler == c.scheduler && c'.nextId == c.nextId;
    }
  }

  lemma {:induction false} AskingKeepsAuthors(c: Cache, limits: Limits, e: Event)
    requires AuthorsOk(c) && Enabled(c, e) && Asks(e)
    ensures var c' := Next(c, limits, e);
            TilesOk(c'.ram, c'.nextId) && TilesOk(c'.disk, c'.nextId) && HeldOk(c'.scheduler, c'.nextId)
  {
    if e.HttpRequest? {
      RequestKeepsAuthors(c, limits, e.request);
    } else if e.LibraryRequest? {
      GetTileKeepsAuthors(c, limits, e.request);
    } else {
      ReadEndsKeepsTiles(c, limits, e.readKey, e.origins, e.mayFetch);
    }
  }

  /** A tile that is downloaded carries a number that was given out. */
  lemma {:induction false} StoredKeepsAuthors(c: Cache, key: TileKey, tile: Tile, responses: seq<ResponseKey>)
    requires AuthorsOk(c) && TileOk(tile, c.nextId)
    ensures AuthorsOk(StartWrite(c, key, tile, responses))
  {
  }

  lemma {:induction false} EndedKeepsAuthors(c: Cache, limits: Limits, key: TileKey)
    requires AuthorsOk(c) && SchedulerOk(c.scheduler, limits) && key in c.scheduler.active
    ensures AuthorsOk(DownloadEnded(c, limits, key)) && c.scheduler.active[key].id < c.nextId
  {
    FinishKeepsHeld(c.scheduler, limits, key, c.nextId);
  }

  /** A tile that is downloaded carries a number that was given out. */
  lemma {:induction false} DownloadKeepsAuthors(c: Cache, limits: Limits, key: TileKey, size: nat, mayStore: bool)
    requires AuthorsOk(c) && SchedulerOk(c.scheduler, limits) && key in c.scheduler.active && size >= 1
    ensures AuthorsOk(DownloadSucceeds(c, limits, key, size, mayStore))
  {
    EndedKeepsAuthors(c, limits, key);
    if Stores(c, key, size, mayStore) {
      StoredKeepsAuthors(DownloadEnded(c, limits, key), key, Tile(c.scheduler.active[key].id, size),
                         ResponseKeys(c.scheduler, c.scheduler.active[key]));
    }
  }

  lemma {:induction false} StepKeepsTiles(c: Cache, limits: Limits, e: Event)
    requires AuthorsOk(c) && SchedulerOk(c.scheduler, limits) && Enabled(c, e)
    ensures var c' := Next(c, limits, e); TilesOk(c'.ram, c'.nextId) && TilesOk(c'.disk, c'.nextId)
  {
    if Asks(e) {
      AskingKeepsAuthors(c, limits, e);
    } else if e.Downloaded? {
      DownloadKeepsAuthors(c, limits, e.key, e.size, e.mayStore);
    } else {
      assert Next(c, limits, e).nextId == c.nextId;
    }
  }

  lemma {:induction false} StepKeepsHeld(c: Cache, limits: Limits, e: Event)
    requires AuthorsOk(c) && SchedulerOk(c.scheduler, limits) && Enabled(c, e)
    ensures HeldOk(Next(c, limits, e).scheduler, Next(c, limits, e).nextId)
  {
    if !UsesScheduler(e) {
      QuietKeepsScheduler(c, limits, e);
      IdsOnlyGrow(c, limits, e);
    } else if Asks(e) {
      AskingKeepsAuthors(c, limits, e);
    } else if e.Downloaded? {
      DownloadKeepsAuthors(c, limits, e.key, e.size, e.mayStore);
    } else if e.DownloadFailed? {
      FinishKeepsHeld(c.scheduler, limits, e.key, c.nextId);
    } else {
      CancelKeepsHeld(c.scheduler, limits, c.nextId);
    }
  }

  lemma {:induction false} StepKeepsWriteTiles(c: Cache, limits: Limits, e: Event)
    requires AuthorsOk(c) && SchedulerOk(c.scheduler, limits) && Enabled(c, e)
    ensures WritesOk(Next(c, limits, e).writes, Next(c, limits, e).nextId)
  {
    if !UsesWrites(e) {
      QuietKeepsWrites(c, limits, e);
    } else if e.Downloaded? {
      DownloadKeepsAuthors(c, limits, e.key, e.size, e.mayStore);
    } else {
      assert Next(c, limits, e).nextId == c.nextId;
    }
  }

  lemma {:induction false} RequestKeepsFetches(c: Cache, limits: Limits, r: Request)
    requires FetchesOk(c.pendingReads, c.nextId)
    ensures FetchesOk(GetTileForHttp(c, limits, r).0.pendingReads, c.nextId)
    ensures GetTileForHttp(c, limits, r).0.nextId >= c.nextId
  {
  }

  lemma {:induction false} StepKeepsFetches(c: Cache, limits: Limits, e: Event)
    requires AuthorsOk(c) && Enabled(c, e)
    ensures FetchesOk(Next(c, limits, e).pendingReads, Next(c, limits, e).nextId)
  {
    if e.HttpRequest? {
      RequestKeepsFetches(c, limits, e.request);
    } else {
      IdsOnlyGrow(c, limits, e);
      if !UsesReads(e) {
        QuietKeepsReads(c, limits, e);
      } else if e.ReadEnded? {
        ReadEndsTakes(c, limits, e.readKey, e.origins, e.mayFetch);
      }
    }
  }

  // ---------------------------------------------------------------- every reachable state

  lemma {:induction false} StepKeeps(c: Cache, limits: Limits, e: Event)
    requires CacheOk(c, limits) && Enabled(c, e)
    ensures CacheOk(Next(c, limits, e), limits)
  {
    StepKeepsQueues(c, limits, e);
    StepKeepsWrites(c, limits, e);
    StepKeepsReads(c, limits, e);
    StepKeepsGenerations(c, limits, e);
    StepKeepsTiles(c, limits, e);
    StepKeepsHeld(c, limits, e);
    StepKeepsWriteTiles(c, limits, e);
    StepKeepsFetches(c, limits, e);
  }

  lemma {:induction false} RunKeeps(c: Cache, limits: Limits, events: seq<Event>, c': Cache)
    requires CacheOk(c, limits) && Reaches(c, limits, events, c')
    ensures CacheOk(c', limits)
    decreases |events|
  {
    if events != [] {
      StepKeeps(c, limits, events[0]);
      RunKeeps(Next(c, limits, events[0]), limits, events[1..], c');
    }
  }

  lemma FreshOk(limits: Limits)
    ensures CacheOk(FRESH, limits)
  {
  }

  /** In every reachable state the byte and job counters are exact and within their limits. */
  lemma {:induction false} CountersAreExact(limits: Limits, events: seq<Event>, c: Cache)
    requires Reaches(FRESH, limits, events, c)
    ensures c.writeCount == |c.writes| <= MAX_PENDING_WRITES
    ensures 0 <= c.writeBytes == Sum(c.writes, WRITE_SIZE) <= MAX_PENDING_WRITE_BYTES
    ensures |c.pendingReads| <= MAX_PENDING_READS
    ensures 0 <= c.readBytes == Sum(c.pendingReads, READ_SIZE) <= MAX_PENDING_READ_BYTES
  {
    FreshOk(limits);
    RunKeeps(FRESH, limits, events, c);
    SumBounds(c.writes, 0, WRITE_SIZE);
    SumBounds(c.pendingReads, ReadKey(TileKey("", 0, 0, 0), 0), READ_SIZE);
  }
}
