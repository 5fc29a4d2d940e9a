/**
 * Does a deletion let earlier work put a tile back? Exactly when, at the sweep, some tile of the
 * range has an unfinished write that is not stopped, or an unfinished write beside a download.
 */
module TileDeletion {
  import opened Wrappers
  import opened TileScheduler
  import opened TileCache
  import opened TileCacheInvariants

  // ---------------------------------------------------------------- what a deletion promises

  ghost predicate FreshTiles(tiles: map<TileKey, Tile>, range: Range, epoch: nat) {
    forall k :: k in tiles && InRange(range, k) ==> tiles[k].author >= epoch
  }

  /** A tile of the range fetched before the deletion is in RAM or on disk. */
  ghost predicate Resurrected(c: Cache, range: Range, epoch: nat) {
    !FreshTiles(c.ram, range, epoch) || !FreshTiles(c.disk, range, epoch)
  }

  /** A write that will not touch the disk any more. */
  predicate Harmless(w: Write) {
    w.phase.Finished? || (w.phase.Waiting? && w.invalidated)
  }

  predicate Leaks(c: Cache, range: Range, id: nat)
    requires id in c.writes
  {
    var w := c.writes[id];
    InRange(range, w.key) && (!Harmless(w) || Known(c.scheduler, w.key))
  }

  ghost predicate Leaky(c: Cache, range: Range) {
    exists id :: id in c.writes && Leaks(c, range, id)
  }

  // ---------------------------------------------------------------- the invariant of a clean deletion

  ghost predicate StoppedWrites(writes: map<nat, Write>, range: Range, epoch: nat) {
    forall id :: id in writes && InRange(range, writes[id].key) ==> writes[id].tile.author >= epoch || Harmless(writes[id])
  }

  ghost predicate HasWrite(writes: map<nat, Write>, key: TileKey) {
    exists id :: id in writes && writes[id].key == key
  }

  predicate Old(d: Download, range: Range, epoch: nat) {
    InRange(range, d.key) && d.id < epoch
  }

  ghost predicate Barred(s: Scheduler, invalidated: set<TileKey>, writes: map<nat, Write>, range: Range, epoch: nat) {
    forall d :: Held(s, d) && Old(d, range, epoch) ==> d.key in invalidated && !HasWrite(writes, d.key)
  }

  ghost predicate FreshFetches(pending: map<ReadKey, Read>, generation: nat, range: Range, epoch: nat) {
    forall k :: k in pending && k.generation == generation && InRange(range, k.key) && Fetched(pending[k]) ==>
      FetchedTile(pending[k]).author >= epoch
  }

  ghost predicate Clean(c: Cache, range: Range, epoch: nat) {
    && epoch <= c.nextId
    && FreshTiles(c.ram, range, epoch) && FreshTiles(c.disk, range, epoch)
    && StoppedWrites(c.writes, range, epoch)
    && Barred(c.scheduler, c.invalidated, c.writes, range, epoch)
    && FreshFetches(c.pendingReads, c.generation, range, epoch)
  }

  lemma {:induction false} SweepIsClean(c: Cache, limits: Limits, range: Range)
    requires CacheOk(c, limits) && c.deleting == Some(range) && !Leaky(c, range)
    ensures Clean(DeleteSweeps(c, range, {}), range, c.nextId)
  {
    var c' := DeleteSweeps(c, range, {});
    SweepBars(c, limits, range, c');
    assert forall id :: id in c.writes && InRange(range, c.writes[id].key) ==> !Leaks(c, range, id);
  }

  lemma {:induction false} SweepBars(c: Cache, limits: Limits, range: Range, c': Cache)
    requires QueueOk(c.scheduler, limits) && !Leaky(c, range)
    requires c' == DeleteSweeps(c, range, {})
    ensures Barred(c'.scheduler, c'.invalidated, c'.writes, range, c.nextId)
  {
    forall d | Held(c.scheduler, d) && Old(d, range, c.nextId)
      ensures d.key in c'.invalidated && !HasWrite(c.writes, d.key)
    {
      assert Known(c.scheduler, d.key);
      forall id | id in c.writes ensures c.writes[id].key != d.key {
        assert !Leaks(c, range, id);
      }
    }
  }

  // ---------------------------------------------------------------- each step keeps it

  lemma GetTileKeepsClean(c: Cache, limits: Limits, r: Request, range: Range, epoch: nat)
    requires epoch <= c.nextId && FreshTiles(c.ram, range, epoch) && FreshTiles(c.disk, range, epoch)
    requires Barred(c.scheduler, c.invalidated, c.writes, range, epoch)
    ensures var c' := GetTile(c, limits, r).0;
            FreshTiles(c'.ram, range, epoch) && Barred(c'.scheduler, c.invalidated, c.writes, range, epoch)
  {
    var c' := GetTile(c, limits, r).0;
    forall d | Held(c'.scheduler, d) && Old(d, range, epoch)
      ensures d.key in c.invalidated && !HasWrite(c.writes, d.key)
    {
      if !Held(c.scheduler, d) {
        ScheduleHeld(c.scheduler, limits, NewDownload(c, r), d);
      }
    }
  }

  lemma {:induction false} FallbackKeepsClean(c: Cache, limits: Limits, key: TileKey, requests: seq<ResponseKey>,
                                              origins: seq<Origin>, mayFetch: bool, range: Range, epoch: nat, c': Cache)
    requires epoch <= c.nextId && FreshTiles(c.ram, range, epoch) && FreshTiles(c.disk, range, epoch)
    requires Barred(c.scheduler, c.invalidated, c.writes, range, epoch)
    requires |origins| == |requests| && c' == Fallback(c, limits, key, requests, origins, mayFetch)
    ensures FreshTiles(c'.ram, range, epoch) && Barred(c'.scheduler, c.invalidated, c.writes, range, epoch)
    decreases |requests|
  {
    if requests != [] {
      var r := Request(key, origins[0], requests[0], mayFetch);
      GetTileKeepsClean(c, limits, r, range, epoch);
      GetTileOnlyServes(c, limits, r);
      var c1 := Settle(GetTile(c, limits, r), requests[0]);
      FallbackKeepsClean(c1, limits, key, requests[1..], origins[1..], mayFetch, range, epoch, c');
    }
  }

  lemma {:induction false} ReadEndsKeepsClean(c: Cache, limits: Limits, readKey: ReadKey, origins: seq<Origin>,
                                              mayFetch: bool, range: Range, epoch: nat, after: Cache)
    requires Clean(c, range, epoch) && Enabled(c, ReadEnded(readKey, origins, mayFetch))
    requires after == ReadEnds(c, limits, readKey, origins, mayFetch)
    ensures FreshTiles(after.ram, range, epoch) && Barred(after.scheduler, c.invalidated, c.writes, range, epoch)
  {
    var c1, requests := ReadEndsEitherWay(c, limits, readKey, origins, mayFetch);
    if after == Fallback(c1, limits, readKey.key, requests, origins, mayFetch) {
      FallbackKeepsClean(c1, limits, readKey.key, requests, origins, mayFetch, range, epoch, after);
    }
  }

  lemma {:induction false} ColdReadStaysFresh(c: Cache, limits: Limits, r: Request, range: Range, epoch: nat)
    requires FreshFetches(c.pendingReads, c.generation, range, epoch)
    ensures FreshFetches(GetTileForHttp(c, limits, r).0.pendingReads, c.generation, range, epoch)
  {
  }

  lemma {:induction false} FetchStaysFresh(c: Cache, readKey: ReadKey, range: Range, epoch: nat)
    requires FreshFetches(c.pendingReads, c.generation, range, epoch) && FreshTiles(c.disk, range, epoch)
    requires readKey in c.pendingReads
    ensures FreshFetches(ReadFetches(c, readKey).pendingReads, c.generation, range, epoch)
  {
  }

  lemma {:induction false} ReadsStayFresh(c: Cache, limits: Limits, e: Event, range: Range, epoch: nat)
    requires Clean(c, range, epoch) && Enabled(c, e) && UsesReads(e)
    ensures FreshFetches(Next(c, limits, e).pendingReads, c.generation, range, epoch)
  {
    if e.HttpRequest? {
      ColdReadStaysFresh(c, limits, e.request, range, epoch);
    } else if e.ReadFetched? {
      FetchStaysFresh(c, e.readKey, range, epoch);
    } else {
      ReadEndsTakes(c, limits, e.readKey, e.origins, e.mayFetch);
    }
  }

  lemma {:induction false} RequestKeepsClean(c: Cache, limits: Limits, r: Request, range: Range, epoch: nat, after: Cache)
    requires Clean(c, range, epoch) && after == GetTileForHttp(c, limits, r).0
    ensures FreshTiles(after.ram, range, epoch) && Barred(after.scheduler, c.invalidated, c.writes, range, epoch)
  {
    if r.key !in c.ram && r.key !in c.disk {
      GetTileKeepsClean(c, limits, r, range, epoch);
    } else {
      assert after.ram == c.ram && after.scheduler == c.scheduler;
    }
  }

  lemma {:induction false} AskingKeepsClean(c: Cache, limits: Limits, e: Event, range: Range, epoch: nat)
    requires Clean(c, range, epoch) && Enabled(c, e) && Asks(e)
    ensures Clean(Next(c, limits, e), range, epoch)
  {
    AskingFrame(c, limits, e);
    if e.HttpRequest? {
      RequestKeepsClean(c, limits, e.request, range, epoch, GetTileForHttp(c, limits, e.request).0);
      ReadsStayFresh(c, limits, e, range, epoch);
    } else if e.LibraryRequest? {
      GetTileKeepsClean(c, limits, e.request, range, epoch);
      QuietKeepsReads(c, limits, e);
    } else {
      ReadEndsKeepsClean(c, limits, e.readKey, e.origins, e.mayFetch, range, epoch, Next(c, limits, e));
      ReadsStayFresh(c, limits, e, range, epoch);
    }
  }

  /** The marker that goes with a download that ends bars no other download. */
  lemma {:induction false} EndedKeepsBarred(c: Cache, limits: Limits, key: TileKey, range: Range, epoch: nat)
    requires SchedulerOk(c.scheduler, limits) && key in c.scheduler.active
    requires Barred(c.scheduler, c.invalidated, c.writes, range, epoch)
    ensures var c' := DownloadEnded(c, limits, key); Barred(c'.scheduler, c'.invalidated, c.writes, range, epoch)
    ensures forall d :: Held(DownloadEnded(c, limits, key).scheduler, d) ==> d.key != key
  {
    var c' := DownloadEnded(c, limits, key);
    forall d | Held(c'.scheduler, d)
      ensures d.key != key && Held(c.scheduler, d)
    {
      FinishHeld(c.scheduler, limits, key, d);
    }
  }

  lemma {:induction false} OldDownloadIsNotStored(c: Cache, limits: Limits, key: TileKey, range: Range, epoch: nat)
    requires SchedulerOk(c.scheduler, limits) && key in c.scheduler.active
    requires Barred(c.scheduler, c.invalidated, c.writes, range, epoch)
    ensures InRange(range, key) && c.scheduler.active[key].id < epoch ==> key in c.invalidated
  {
    assert c.scheduler.active[key].key == key;
    assert Held(c.scheduler, c.scheduler.active[key]);
  }

  lemma {:induction false} WriteOfOtherKey(c: Cache, s: Scheduler, key: TileKey, tile: Tile, responses: seq<ResponseKey>,
                                           range: Range, epoch: nat)
    requires Barred(s, c.invalidated, c.writes, range, epoch) && c.nextId !in c.writes
    requires forall d :: Held(s, d) ==> d.key != key
    ensures Barred(s, c.invalidated, StartWrite(c, key, tile, responses).writes, range, epoch)
  {
    var c' := StartWrite(c, key, tile, responses);
    forall d | Held(s, d) && Old(d, range, epoch) ensures !HasWrite(c'.writes, d.key) {
      assert forall id :: id in c'.writes ==> id == c.nextId || (id in c.writes && c'.writes[id] == c.writes[id]);
    }
  }

  lemma {:induction false} StoredKeepsClean(c: Cache, key: TileKey, tile: Tile, responses: seq<ResponseKey>, range: Range, epoch: nat)
    requires Clean(c, range, epoch) && c.nextId !in c.writes
    requires InRange(range, key) ==> tile.author >= epoch
    requires forall d :: Held(c.scheduler, d) ==> d.key != key
    ensures Clean(StartWrite(c, key, tile, responses), range, epoch)
  {
    WriteOfOtherKey(c, c.scheduler, key, tile, responses, range, epoch);
  }

  lemma {:induction false} EndedKeepsClean(c: Cache, limits: Limits, key: TileKey, range: Range, epoch: nat)
    requires SchedulerOk(c.scheduler, limits) && key in c.scheduler.active && Clean(c, range, epoch)
    ensures Clean(DownloadEnded(c, limits, key), range, epoch)
  {
    EndedKeepsBarred(c, limits, key, range, epoch);
  }

  lemma {:induction false} AnswerKeepsClean(c: Cache, keys: seq<ResponseKey>, range: Range, epoch: nat)
    requires Clean(c, range, epoch)
    ensures Clean(Answer(c, keys), range, epoch)
  {
  }

  lemma {:induction false} DownloadKeepsClean(c: Cache, limits: Limits, key: TileKey, size: nat, mayStore: bool, range: Range, epoch: nat)
    requires Clean(c, range, epoch) && SchedulerOk(c.scheduler, limits) && key in c.scheduler.active && c.nextId !in c.writes
    ensures Clean(DownloadSucceeds(c, limits, key, size, mayStore), range, epoch)
  {
    var d := c.scheduler.active[key];
    var c1 := DownloadEnded(c, limits, key);
    EndedKeepsClean(c, limits, key, range, epoch);
    if Stores(c, key, size, mayStore) {
      OldDownloadIsNotStored(c, limits, key, range, epoch);
      EndedKeepsBarred(c, limits, key, range, epoch);
      StoredKeepsClean(c1, key, Tile(d.id, size), ResponseKeys(c.scheduler, d), range, epoch);
    } else {
      AnswerKeepsClean(c1, ResponseKeys(c.scheduler, d), range, epoch);
    }
  }

  lemma {:induction false} SameKeysKeepBarred(c: Cache, writes: map<nat, Write>, range: Range, epoch: nat)
    requires Barred(c.scheduler, c.invalidated, c.writes, range, epoch)
    requires writes.Keys <= c.writes.Keys && forall id :: id in writes ==> writes[id].key == c.writes[id].key
    ensures Barred(c.scheduler, c.invalidated, writes, range, epoch)
  {
    forall d | Held(c.scheduler, d) && Old(d, range, epoch) ensures !HasWrite(writes, d.key) {
      assert forall id :: id in writes ==> id in c.writes && c.writes[id].key != d.key;
    }
  }

  lemma {:induction false} WriterKeepsClean(c: Cache, limits: Limits, e: Event, range: Range, epoch: nat)
    requires Clean(c, range, epoch) && Enabled(c, e) && (e.WriterEntered? || e.WriterSaved?)
    ensures Clean(Next(c, limits, e), range, epoch)
  {
    SameKeysKeepBarred(c, Next(c, limits, e).writes, range, epoch);
  }

  /** The write callback clears its key's marker, but no old download of that key is left. */
  lemma {:induction false} WriteEndsKeepsClean(c: Cache, id: nat, range: Range, epoch: nat)
    requires Clean(c, range, epoch) && id in c.writes
    ensures Clean(WriteEnds(c, id), range, epoch)
  {
    var c' := WriteEnds(c, id);
    SameKeysKeepBarred(c, c'.writes, range, epoch);
    forall d | Held(c.scheduler, d) && Old(d, range, epoch) ensures d.key in c'.invalidated {
      assert !HasWrite(c.writes, d.key);
    }
  }

  lemma {:induction false} CancelKeepsClean(c: Cache, limits: Limits, range: Range, epoch: nat)
    requires Clean(c, range, epoch) && QueueOk(c.scheduler, limits)
    ensures Clean(CancelUpstream(c), range, epoch)
  {
    var c' := CancelUpstream(c);
    forall d | Held(c'.scheduler, d) && Old(d, range, epoch)
      ensures d.key in c'.invalidated && !HasWrite(c.writes, d.key)
    {
      CancelHeld(c.scheduler, limits, d);
    }
  }

  lemma {:induction false} MarksKeepClean(c: Cache, again: Range, range: Range, epoch: nat)
    requires Clean(c, range, epoch) && GenerationsOk(c)
    ensures Clean(DeleteMarks(c, again), range, epoch)
  {
    SameKeysKeepBarred(c, DeleteMarks(c, again).writes, range, epoch);
  }

  lemma {:induction false} OtherKeepsClean(c: Cache, limits: Limits, e: Event, range: Range, epoch: nat)
    requires Clean(c, range, epoch) && GenerationsOk(c) && Enabled(c, e)
    requires e.ReadFetched? || e.DeletionSwept? || e.Evicted? || e.Reconfigured?
    ensures Clean(Next(c, limits, e), range, epoch)
  {
    if e.ReadFetched? {
      ReadsStayFresh(c, limits, e, range, epoch);
    }
  }

  lemma {:induction false} StepKeepsClean(c: Cache, limits: Limits, e: Event, range: Range, epoch: nat)
    requires CacheOk(c, limits) && Clean(c, range, epoch) && Enabled(c, e)
    ensures Clean(Next(c, limits, e), range, epoch)
  {
    if Asks(e) {
      AskingKeepsClean(c, limits, e, range, epoch);
    } else {
      match e
      case Downloaded(key, size, mayStore) => DownloadKeepsClean(c, limits, key, size, mayStore, range, epoch);
      case DownloadFailed(key) =>
        EndedKeepsClean(c, limits, key, range, epoch);
        AnswerKeepsClean(DownloadEnded(c, limits, key), ResponseKeys(c.scheduler, c.scheduler.active[key]), range, epoch);
      case WriterEntered(_) => WriterKeepsClean(c, limits, e, range, epoch);
      case WriterSaved(_, _) => WriterKeepsClean(c, limits, e, range, epoch);
      case WriteEnded(id) => WriteEndsKeepsClean(c, id, range, epoch);
      case UpstreamCancelled => CancelKeepsClean(c, limits, range, epoch);
      case DeletionMarked(again) => MarksKeepClean(c, again, range, epoch);
      case _ => OtherKeepsClean(c, limits, e, range, epoch);
    }
  }

  lemma {:induction false} CleanRunsStayClean(c: Cache, limits: Limits, events: seq<Event>, c': Cache, range: Range, epoch: nat)
    requires CacheOk(c, limits) && Clean(c, range, epoch) && Reaches(c, limits, events, c')
    ensures !Resurrected(c', range, epoch)
    decreases |events|
  {
    if events != [] {
      StepKeeps(c, limits, events[0]);
      StepKeepsClean(c, limits, events[0], range, epoch);
      CleanRunsStayClean(Next(c, limits, events[0]), limits, events[1..], c', range, epoch);
    }
  }
}
