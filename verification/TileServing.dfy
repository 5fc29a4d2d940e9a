/**
 * What the tile cache answers, and where what it answers comes from: a tile in RAM or on disk is served, a
 * missing one is fetched, a fetched one is stored, and no tile is ever served under another key.
 */
module TileServing {
  import opened Wrappers
  import opened MapSum
  import opened TileScheduler
  import opened TileQueueAdmission
  import opened TileCache
  import opened TileCacheInvariants

  // ---------------------------------------------------------------- requests

  ghost predicate Reachable(limits: Limits, c: Cache) {
    exists events :: Reaches(FRESH, limits, events, c)
  }

  lemma ReachableOk(limits: Limits, c: Cache)
    requires Reachable(limits, c)
    ensures CacheOk(c, limits)
  {
    var events :| Reaches(FRESH, limits, events, c);
    FreshOk(limits);
    RunKeeps(FRESH, limits, events, c);
  }

  /** The counters of a reachable cache are what they stand for. */
  lemma {:induction false} AccountsAreTrue(limits: Limits, c: Cache)
    requires Reachable(limits, c)
    ensures c.writeCount == |c.writes| && c.writeBytes == Sum(c.writes, WRITE_SIZE) && c.nextId !in c.writes
    ensures 0 <= c.readBytes == Sum(c.pendingReads, READ_SIZE) && |c.pendingReads| <= 64
  {
    ReachableOk(limits, c);
    SumBounds(c.pendingReads, ReadKey(TileKey("", 0, 0, 0), 0), READ_SIZE);
  }

  lemma QueueIsExact(limits: Limits, c: Cache, key: TileKey, origin: Origin)
    requires Reachable(limits, c)
    ensures Exact(c.scheduler, limits, key, origin)
  {
    ReachableOk(limits, c);
    CountersAreTrue(c.scheduler, limits, key, origin);
  }

  /** A tile in RAM is the answer, and nothing changes. */
  lemma FromMemory(c: Cache, limits: Limits, r: Request)
    requires r.key in c.ram
    ensures GetTile(c, limits, r) == (c, Ready(c.ram[r.key]))
    ensures GetTileForHttp(c, limits, r) == (c, Ready(c.ram[r.key]))
  {
  }

  /** A tile on disk is the answer of the direct route, which keeps it in RAM. */
  lemma FromDisk(c: Cache, limits: Limits, r: Request)
    requires r.key !in c.ram && r.key in c.disk
    ensures GetTile(c, limits, r) == (c.(ram := c.ram[r.key := c.disk[r.key]]), Ready(c.disk[r.key]))
  {
  }

  /** Whether the bytes of one more read fit beside the reads under way. */
  ghost predicate ReadFits(c: Cache, size: int) {
    |c.pendingReads| < 64 && 0 < size && Sum(c.pendingReads, READ_SIZE) + size <= 64 * 1024 * 1024
  }

  /** Over HTTP a tile on disk is read by a worker: the request joins a read of this generation, starts one, or is refused. */
  lemma {:induction false} ColdReadIff(limits: Limits, c: Cache, r: Request)
    requires Reachable(limits, c) && r.key !in c.ram && r.key in c.disk
    ensures var (c', reply) := GetTileForHttp(c, limits, r);
      var readKey, size := ReadKey(r.key, c.generation), c.disk[r.key].size;
      if readKey in c.pendingReads then
        reply == Pending && c' == c.(pendingReads := c.pendingReads[readKey :=
          Read(c.pendingReads[readKey].size, c.pendingReads[readKey].requests + [r.response], c.pendingReads[readKey].fetched)])
      else if ReadFits(c, size) then
        reply == Pending && c' == c.(pendingReads := c.pendingReads[readKey := Read(size, [r.response], None)], readBytes := c.readBytes + size)
      else reply == Busy && c' == c
  {
    AccountsAreTrue(limits, c);
  }

  /** A missing tile may not be fetched, or its download is refused, and nothing changes; or it is under way from now on. */
  ghost predicate MissAnswered(c: Cache, limits: Limits, r: Request, c': Cache, reply: Reply) {
    if !r.mayFetch then reply == Invalid && c' == c
    else if MustRefuse(c.scheduler, limits, r.key, r.origin) then reply == Busy && c' == c
    else reply == Pending && UnderWay(c'.scheduler, r.key) && c' == c.(scheduler := c'.scheduler, nextId := c.nextId + 1)
  }

  lemma {:induction false} MissOutcome(limits: Limits, c: Cache, r: Request)
    requires Exact(c.scheduler, limits, r.key, r.origin) && r.key !in c.ram && r.key !in c.disk
    ensures MissAnswered(c, limits, r, GetTile(c, limits, r).0, GetTile(c, limits, r).1)
  {
    if r.mayFetch && !MustRefuse(c.scheduler, limits, r.key, r.origin) {
      IsUnderWay(c.scheduler, limits, NewDownload(c, r));
    }
  }

  lemma {:induction false} MissIff(limits: Limits, c: Cache, r: Request)
    requires Reachable(limits, c) && r.key !in c.ram && r.key !in c.disk
    ensures GetTileForHttp(c, limits, r) == GetTile(c, limits, r)
    ensures MissAnswered(c, limits, r, GetTile(c, limits, r).0, GetTile(c, limits, r).1)
  {
    QueueIsExact(limits, c, r.key, r.origin);
    MissOutcome(limits, c, r);
  }

  lemma {:induction false} IsUnderWay(s: Scheduler, limits: Limits, d: Download)
    requires Exact(s, limits, d.key, d.origin) && !MustRefuse(s, limits, d.key, d.origin)
    ensures UnderWay(Schedule(s, limits, d), d.key)
  {
    if UnderWay(s, d.key) {
      StaysUnderWay(s, Join(s, d), d.key);
    } else if Saturated(s, limits, d.origin) {
      assert d in (s.queued + [d]);
    }
  }

  lemma StaysUnderWay(s: Scheduler, s': Scheduler, key: TileKey)
    requires UnderWay(s, key) && s'.active == s.active && s'.queued == s.queued
    ensures UnderWay(s', key)
  {
  }

  // ---------------------------------------------------------------- downloads

  /** A download may be stored unless a deletion has marked it or the writes are at their limits. */
  ghost predicate MayStore(c: Cache, key: TileKey, size: int, configured: bool) {
    && key !in c.invalidated && configured
    && |c.writes| < 64 && Sum(c.writes, WRITE_SIZE) + size <= 64 * 1024 * 1024
  }

  /** The tile of a download that may be stored is in RAM at once, and one write more is to put it on disk and answer. */
  lemma {:induction false} DownloadIsKept(limits: Limits, c: Cache, key: TileKey, size: nat, configured: bool)
    requires Reachable(limits, c) && Enabled(c, Downloaded(key, size, configured)) && MayStore(c, key, size, configured)
    ensures var c' := Next(c, limits, Downloaded(key, size, configured));
      var d := c.scheduler.active[key];
      && c'.ram == c.ram[key := Tile(d.id, size)] && c'.disk == c.disk && c'.waiting == c.waiting
      && c.nextId !in c.writes && c'.writes == c.writes[c.nextId := Write(key, Tile(d.id, size), ResponseKeys(c.scheduler, d), Waiting, false)]
  {
    AccountsAreTrue(limits, c);
  }

  /** Any other download answers its requesters at once and leaves nothing. */
  lemma {:induction false} DownloadIsDropped(limits: Limits, c: Cache, key: TileKey, size: nat, configured: bool)
    requires Reachable(limits, c) && Enabled(c, Downloaded(key, size, configured)) && !MayStore(c, key, size, configured)
    ensures var c' := Next(c, limits, Downloaded(key, size, configured));
      && c'.ram == c.ram && c'.disk == c.disk && c'.writes == c.writes
      && c'.waiting == c.waiting - KeySet(ResponseKeys(c.scheduler, c.scheduler.active[key]))
  {
    AccountsAreTrue(limits, c);
  }

  /** The write worker puts the tile on disk unless it was told to stop, and the callback answers. */
  lemma WriteReachesDisk(c: Cache, limits: Limits, id: nat)
    requires c.deleting.None? && id in c.writes && c.writes[id].phase.Waiting? && !c.writes[id].invalidated
    ensures var w := c.writes[id];
      var events := [WriterEntered(id), WriterSaved(id, true), WriteEnded(id)];
      exists c' :: Reaches(c, limits, events, c') && c'.disk == c.disk[w.key := w.tile] && c'.ram == c.ram
                   && c'.waiting == c.waiting - KeySet(w.responses) && c'.writes == c.writes - {id}
  {
    var c1 := Next(c, limits, WriterEntered(id));
    var c2 := Next(c1, limits, WriterSaved(id, true));
    var c3 := Next(c2, limits, WriteEnded(id));
    ThreeSteps(c, limits, WriterEntered(id), WriterSaved(id, true), WriteEnded(id), c1, c2, c3);
    assert c3.writes == c.writes - {id};
  }

  lemma ThreeSteps(c: Cache, limits: Limits, e1: Event, e2: Event, e3: Event, c1: Cache, c2: Cache, c3: Cache)
    requires Enabled(c, e1) && c1 == Next(c, limits, e1) && Enabled(c1, e2) && c2 == Next(c1, limits, e2) && Enabled(c2, e3) && c3 == Next(c2, limits, e3)
    ensures Reaches(c, limits, [e1, e2, e3], c3)
  {
    assert [e1, e2, e3][1..] == [e2, e3] && [e2, e3][1..] == [e3] && [e3][1..] == [];
    assert Reaches(c3, limits, [], c3);
    assert Reaches(c2, limits, [e3], c3);
    assert Reaches(c1, limits, [e2, e3], c3);
  }

  /** A read of the current generation that found its file puts the tile in RAM and answers all its requests. */
  lemma ReadIsServed(c: Cache, limits: Limits, readKey: ReadKey, tile: Tile, origins: seq<Origin>, mayFetch: bool)
    requires Enabled(c, ReadEnded(readKey, origins, mayFetch))
    requires readKey.generation == c.generation && c.pendingReads[readKey].fetched == Some(Some(tile))
    ensures var c' := Next(c, limits, ReadEnded(readKey, origins, mayFetch));
      && c'.ram == c.ram[readKey.key := tile] && c'.pendingReads == c.pendingReads - {readKey}
      && c'.waiting == c.waiting - KeySet(c.pendingReads[readKey].requests)
  {
  }

  // ---------------------------------------------------------------- where tiles come from

  /** The tile is in RAM or on disk under the key, or a read or a write carries it for the key. */
  ghost predicate Has(c: Cache, key: TileKey, tile: Tile) {
    || (key in c.ram && c.ram[key] == tile)
    || (key in c.disk && c.disk[key] == tile)
    || (exists generation :: ReadKey(key, generation) in c.pendingReads && c.pendingReads[ReadKey(key, generation)].fetched == Some(Some(tile)))
    || (exists id :: id in c.writes && c.writes[id].key == key && c.writes[id].tile == tile)
  }

  /** The event is the end of a download of this key, with these bytes. */
  predicate Brings(c: Cache, e: Event, key: TileKey, tile: Tile) {
    e.Downloaded? && e.key == key && key in c.scheduler.active && tile == Tile(c.scheduler.active[key].id, e.size)
  }

  /** Some download of this key that ended in the run brought the tile. */
  ghost predicate Brought(c: Cache, limits: Limits, events: seq<Event>, key: TileKey, tile: Tile)
    decreases |events|
  {
    events != [] && Enabled(c, events[0])
    && (Brings(c, events[0], key, tile) || Brought(Next(c, limits, events[0]), limits, events[1..], key, tile))
  }

  lemma {:induction false} GetTileHas(c: Cache, limits: Limits, r: Request, key: TileKey, tile: Tile)
    requires Has(GetTile(c, limits, r).0, key, tile)
    ensures Has(c, key, tile)
  {
    assert GetTile(c, limits, r).0.pendingReads == c.pendingReads && GetTile(c, limits, r).0.writes == c.writes;
  }

  lemma {:induction false} FallbackHas(c: Cache, limits: Limits, readKey: TileKey, requests: seq<ResponseKey>, origins: seq<Origin>, mayFetch: bool,
                                       key: TileKey, tile: Tile)
    requires |origins| == |requests| && Has(Fallback(c, limits, readKey, requests, origins, mayFetch), key, tile)
    ensures Has(c, key, tile)
    decreases |requests|
  {
    if requests != [] {
      var r := Request(readKey, origins[0], requests[0], mayFetch);
      var next := Settle(GetTile(c, limits, r), requests[0]);
      FallbackHas(next, limits, readKey, requests[1..], origins[1..], mayFetch, key, tile);
      assert Has(GetTile(c, limits, r).0, key, tile) by {
        assert next.ram == GetTile(c, limits, r).0.ram && next.disk == GetTile(c, limits, r).0.disk;
      }
      GetTileHas(c, limits, r, key, tile);
    }
  }

  lemma {:induction false} ReadEndHas(c: Cache, limits: Limits, e: Event, key: TileKey, tile: Tile)
    requires e.ReadEnded? && Enabled(c, e) && Has(Next(c, limits, e), key, tile)
    ensures Has(c, key, tile)
  {
    var taken := ReadTaken(c, e.readKey);
    var read := c.pendingReads[e.readKey];
    if e.readKey.generation == c.generation && read.fetched.value.None? {
      FallbackHas(taken, limits, e.readKey.key, read.requests, e.origins, e.mayFetch, key, tile);
    } else if e.readKey.generation == c.generation && key == e.readKey.key && read.fetched == Some(Some(tile)) {
      assert c.pendingReads[ReadKey(key, e.readKey.generation)].fetched == Some(Some(tile));
    }
  }

  lemma {:induction false} ColdReadHas(c: Cache, readKey: TileKey, response: ResponseKey, key: TileKey, tile: Tile)
    requires readKey in c.disk && Has(ColdRead(c, readKey, response).0, key, tile)
    ensures Has(c, key, tile)
  {
    var c' := ColdRead(c, readKey, response).0;
    assert c'.ram == c.ram && c'.disk == c.disk && c'.writes == c.writes;
    if exists generation :: ReadKey(key, generation) in c'.pendingReads && c'.pendingReads[ReadKey(key, generation)].fetched == Some(Some(tile)) {
      var generation :| ReadKey(key, generation) in c'.pendingReads && c'.pendingReads[ReadKey(key, generation)].fetched == Some(Some(tile));
      assert ReadKey(key, generation) in c.pendingReads && c.pendingReads[ReadKey(key, generation)].fetched == Some(Some(tile));
    }
  }

  lemma WaitingHasTheSame(c: Cache, waiting: set<ResponseKey>, key: TileKey, tile: Tile)
    requires Has(c.(waiting := waiting), key, tile)
    ensures Has(c, key, tile)
  {
  }

  lemma {:induction false} HttpHas(c: Cache, limits: Limits, e: Event, key: TileKey, tile: Tile)
    requires e.HttpRequest? && Enabled(c, e) && Has(Next(c, limits, e), key, tile)
    ensures Has(c, key, tile)
  {
    var after := GetTileForHttp(c, limits, e.request).0;
    WaitingHasTheSame(after, Next(c, limits, e).waiting, key, tile);
    if e.request.key in c.ram {
    } else if e.request.key in c.disk {
      ColdReadHas(c, e.request.key, e.request.response, key, tile);
    } else {
      GetTileHas(c, limits, e.request, key, tile);
    }
  }

  /** The end of a download leaves a tile and a write of its own, or nothing. */
  lemma DownloadLeaves(c: Cache, limits: Limits, key: TileKey, size: nat, mayStore: bool) returns (responses: seq<ResponseKey>)
    requires key in c.scheduler.active
    ensures var c' := DownloadSucceeds(c, limits, key, size, mayStore);
      var tile := Tile(c.scheduler.active[key].id, size);
      && c'.disk == c.disk && c'.pendingReads == c.pendingReads
      && ((c'.ram == c.ram && c'.writes == c.writes)
          || (c'.ram == c.ram[key := tile] && c'.writes == c.writes[c.nextId := Write(key, tile, responses, Waiting, false)]))
  {
    responses := ResponseKeys(c.scheduler, c.scheduler.active[key]);
  }

  lemma {:induction false} OneWriteMore(c: Cache, c': Cache, key: TileKey, tile: Tile, write: Write, other: TileKey, held: Tile)
    requires c'.disk == c.disk && c'.pendingReads == c.pendingReads && c'.ram == c.ram[key := tile]
    requires c'.writes == c.writes[c.nextId := write] && write.key == key && write.tile == tile && Has(c', other, held)
    ensures Has(c, other, held) || (other == key && held == tile)
  {
    if exists id :: id in c'.writes && c'.writes[id].key == other && c'.writes[id].tile == held {
      var id :| id in c'.writes && c'.writes[id].key == other && c'.writes[id].tile == held;
      assert id in c.writes || id == c.nextId;
    }
  }

  lemma {:induction false} SameTiles(c: Cache, c': Cache, key: TileKey, tile: Tile)
    requires c'.disk == c.disk && c'.pendingReads == c.pendingReads && c'.ram == c.ram && c'.writes == c.writes && Has(c', key, tile)
    ensures Has(c, key, tile)
  {
  }

  lemma {:induction false} DownloadBrings(c: Cache, limits: Limits, e: Event, key: TileKey, tile: Tile)
    requires e.Downloaded? && Enabled(c, e) && Has(Next(c, limits, e), key, tile)
    ensures Has(c, key, tile) || Brings(c, e, key, tile)
  {
    var c' := Next(c, limits, e);
    var brought := Tile(c.scheduler.active[e.key].id, e.size);
    var responses := DownloadLeaves(c, limits, e.key, e.size, e.mayStore);
    if c'.ram == c.ram && c'.writes == c.writes {
      SameTiles(c, c', key, tile);
    } else {
      OneWriteMore(c, c', e.key, brought, Write(e.key, brought, responses, Waiting, false), key, tile);
    }
  }

  lemma {:induction false} WorkersHave(c: Cache, limits: Limits, e: Event, key: TileKey, tile: Tile)
    requires e.ReadFetched? || e.WriterEntered? || e.WriterSaved? || e.WriteEnded? || e.DeletionMarked?
    requires Enabled(c, e) && Has(Next(c, limits, e), key, tile)
    ensures Has(c, key, tile)
  {
    var c' := Next(c, limits, e);
    if exists id :: id in c'.writes && c'.writes[id].key == key && c'.writes[id].tile == tile {
      var id :| id in c'.writes && c'.writes[id].key == key && c'.writes[id].tile == tile;
      assert id in c.writes && c.writes[id].key == key && c.writes[id].tile == tile;
    }
    if exists generation :: ReadKey(key, generation) in c'.pendingReads && c'.pendingReads[ReadKey(key, generation)].fetched == Some(Some(tile)) {
      var generation :| ReadKey(key, generation) in c'.pendingReads && c'.pendingReads[ReadKey(key, generation)].fetched == Some(Some(tile));
      assert ReadKey(key, generation) in c.pendingReads;
    }
  }

  lemma {:induction false} StepBrings(c: Cache, limits: Limits, e: Event, key: TileKey, tile: Tile)
    requires Enabled(c, e) && Has(Next(c, limits, e), key, tile)
    ensures Has(c, key, tile) || Brings(c, e, key, tile)
  {
    match e
    case ReadEnded(_, _, _) => ReadEndHas(c, limits, e, key, tile);
    case HttpRequest(_, _) => HttpHas(c, limits, e, key, tile);
    case LibraryRequest(r) => GetTileHas(c, limits, r, key, tile);
    case Downloaded(_, _, _) => DownloadBrings(c, limits, e, key, tile);
    case ReadFetched(_) => WorkersHave(c, limits, e, key, tile);
    case WriterEntered(_) => WorkersHave(c, limits, e, key, tile);
    case WriterSaved(_, _) => WorkersHave(c, limits, e, key, tile);
    case WriteEnded(_) => WorkersHave(c, limits, e, key, tile);
    case DeletionMarked(_) => WorkersHave(c, limits, e, key, tile);
    case _ => RestHas(c, limits, e, key, tile);
  }

  lemma {:induction false} RestHas(c: Cache, limits: Limits, e: Event, key: TileKey, tile: Tile)
    requires e.DownloadFailed? || e.UpstreamCancelled? || e.DeletionSwept? || e.Evicted? || e.Reconfigured?
    requires Enabled(c, e) && Has(Next(c, limits, e), key, tile)
    ensures Has(c, key, tile)
  {
    var c' := Next(c, limits, e);
    assert c'.writes == c.writes && c'.pendingReads == c.pendingReads;
  }

  lemma {:induction false} RunBrings(c: Cache, limits: Limits, events: seq<Event>, c': Cache, key: TileKey, tile: Tile)
    requires Reaches(c, limits, events, c') && Has(c', key, tile)
    ensures Has(c, key, tile) || Brought(c, limits, events, key, tile)
    decreases |events|
  {
    if events != [] {
      RunBrings(Next(c, limits, events[0]), limits, events[1..], c', key, tile);
      if Has(Next(c, limits, events[0]), key, tile) {
        StepBrings(c, limits, events[0], key, tile);
      }
    }
  }

  /** Over every run: a tile that is served under a key was brought by a download of that key. */
  lemma {:induction false} TilesComeFromTheirDownloads(limits: Limits, events: seq<Event>, c: Cache, r: Request, tile: Tile)
    requires Reaches(FRESH, limits, events, c)
    requires GetTile(c, limits, r).1 == Ready(tile) || GetTileForHttp(c, limits, r).1 == Ready(tile)
    ensures Brought(FRESH, limits, events, r.key, tile)
  {
    assert Has(c, r.key, tile);
    RunBrings(FRESH, limits, events, c, r.key, tile);
  }
}
