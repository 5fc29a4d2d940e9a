/**
 * Deletion in runs where no tile ever has two unfinished writes. There every write is registered
 * and gets stopped, so only one leak is left: the callback of a stopped write clears the marker
 * of a later download of the same tile.
 */
module TileSingleWrites {
  import opened Wrappers
  import opened TileScheduler
  import opened TileCache
  import opened TileCacheInvariants
  import opened TileDeletion
  import opened TileResurrection

  ghost predicate SingleWrites(c: Cache) {
    forall i, j :: i in c.writes && j in c.writes && c.writes[i].key == c.writes[j].key ==> i == j
  }

  /** A run in every state of which each tile has at most one unfinished write. */
  ghost predicate SingleRun(c: Cache, limits: Limits, events: seq<Event>, c': Cache)
    decreases |events|
  {
    && SingleWrites(c)
    && if events == [] then c' == c
       else Enabled(c, events[0]) && SingleRun(Next(c, limits, events[0]), limits, events[1..], c')
  }

  lemma {:induction false} SingleRunReaches(c: Cache, limits: Limits, events: seq<Event>, c': Cache)
    requires SingleRun(c, limits, events, c')
    ensures Reaches(c, limits, events, c')
    decreases |events|
  {
    if events != [] {
      SingleRunReaches(Next(c, limits, events[0]), limits, events[1..], c');
    }
  }

  // ---------------------------------------------------------------- registered writes are stopped

  predicate Registered(c: Cache, id: nat)
    requires id in c.writes
  {
    c.writes[id].key in c.registered && c.registered[c.writes[id].key] == id
  }

  ghost predicate AllRegistered(c: Cache) {
    forall id :: id in c.writes ==> Registered(c, id)
  }

  ghost predicate DeletionStops(c: Cache) {
    c.deleting.Some? ==> forall id :: id in c.writes && InRange(c.deleting.value, c.writes[id].key) ==> c.writes[id].invalidated
  }

  lemma QuietKeepsRegistry(c: Cache, limits: Limits, e: Event)
    requires Enabled(c, e) && !UsesWrites(e)
    ensures var c' := Next(c, limits, e); c'.writes == c.writes && c'.registered == c.registered
    ensures Next(c, limits, e).deleting == c.deleting || Next(c, limits, e).deleting.None?
  {
    if Asks(e) {
      AskingFrame(c, limits, e);
    }
  }

  lemma {:induction false} StoredKeepsRegistered(c: Cache, key: TileKey, tile: Tile, responses: seq<ResponseKey>)
    requires AllRegistered(c) && c.nextId !in c.writes && SingleWrites(StartWrite(c, key, tile, responses))
    ensures AllRegistered(StartWrite(c, key, tile, responses))
  {
    var c' := StartWrite(c, key, tile, responses);
    forall id | id in c.writes ensures c.writes[id].key != key {
      assert c'.writes[id] == c.writes[id] && c'.writes[c.nextId].key == key;
    }
  }

  lemma {:induction false} DownloadKeepsRegistered(c: Cache, limits: Limits, key: TileKey, size: nat, mayStore: bool)
    requires AllRegistered(c) && c.nextId !in c.writes && key in c.scheduler.active
    requires SingleWrites(DownloadSucceeds(c, limits, key, size, mayStore))
    ensures AllRegistered(DownloadSucceeds(c, limits, key, size, mayStore))
    ensures DownloadSucceeds(c, limits, key, size, mayStore).deleting == c.deleting
  {
    if Stores(c, key, size, mayStore) {
      StoredKeepsRegistered(DownloadEnded(c, limits, key), key, Tile(c.scheduler.active[key].id, size),
                            ResponseKeys(c.scheduler, c.scheduler.active[key]));
    }
  }

  lemma {:induction false} WriterKeepsRegistered(c: Cache, limits: Limits, e: Event)
    requires AllRegistered(c) && DeletionStops(c) && Enabled(c, e) && (e.WriterEntered? || e.WriterSaved?)
    ensures AllRegistered(Next(c, limits, e)) && DeletionStops(Next(c, limits, e))
  {
  }

  lemma {:induction false} WriteEndKeepsRegistered(c: Cache, id: nat)
    requires AllRegistered(c) && SingleWrites(c) && id in c.writes && c.deleting.None?
    ensures AllRegistered(WriteEnds(c, id)) && DeletionStops(WriteEnds(c, id))
  {
    var c' := WriteEnds(c, id);
    forall i | i in c'.writes ensures Registered(c', i) {
      assert c.writes[i].key != c.writes[id].key;
    }
  }

  lemma {:induction false} MarksStopWrites(c: Cache, range: Range)
    requires AllRegistered(c)
    ensures AllRegistered(DeleteMarks(c, range)) && DeletionStops(DeleteMarks(c, range))
  {
  }

  lemma {:induction false} StepKeepsRegistered(c: Cache, limits: Limits, e: Event)
    requires AllRegistered(c) && DeletionStops(c) && SingleWrites(c)
    requires WritesOk(c.writes, c.nextId) && Enabled(c, e) && SingleWrites(Next(c, limits, e))
    ensures AllRegistered(Next(c, limits, e)) && DeletionStops(Next(c, limits, e))
  {
    if !UsesWrites(e) {
      QuietKeepsRegistry(c, limits, e);
    } else if e.Downloaded? {
      DownloadKeepsRegistered(c, limits, e.key, e.size, e.mayStore);
    } else if e.WriteEnded? {
      WriteEndKeepsRegistered(c, e.id);
    } else if e.DeletionMarked? {
      MarksStopWrites(c, e.range);
    } else {
      WriterKeepsRegistered(c, limits, e);
    }
  }

  lemma {:induction false} SingleRunKeepsRegistered(c: Cache, limits: Limits, events: seq<Event>, c': Cache)
    requires CacheOk(c, limits) && AllRegistered(c) && DeletionStops(c) && SingleRun(c, limits, events, c')
    ensures AllRegistered(c') && DeletionStops(c') && SingleWrites(c')
    decreases |events|
  {
    if events != [] {
      var c1 := Next(c, limits, events[0]);
      assert SingleWrites(c1);
      StepKeeps(c, limits, events[0]);
      StepKeepsRegistered(c, limits, events[0]);
      SingleRunKeepsRegistered(c1, limits, events[1..], c');
    }
  }

  ghost predicate WriteBesideDownload(c: Cache, range: Range) {
    exists id :: id in c.writes && InRange(range, c.writes[id].key) && Known(c.scheduler, c.writes[id].key)
  }

  lemma {:induction false} StoppedUnlessBesideDownload(c: Cache, range: Range)
    requires AllRegistered(c) && DeletionStops(c) && c.deleting == Some(range) && WritersAreOut(c, range)
    ensures Leaky(c, range) <==> WriteBesideDownload(c, range)
  {
    forall id | id in c.writes && InRange(range, c.writes[id].key) ensures Harmless(c.writes[id]) {
      assert Registered(c, id) && Flags(c, range, id, c.writes[id]);
    }
    if Leaky(c, range) {
      var id :| id in c.writes && Leaks(c, range, id);
    }
    if WriteBesideDownload(c, range) {
      var id :| id in c.writes && InRange(range, c.writes[id].key) && Known(c.scheduler, c.writes[id].key);
      assert Leaks(c, range, id);
    }
  }

  /** With single writes, a deletion is final exactly when no tile of its range is written and downloaded at once. */
  lemma {:induction false} SingleWriteDeletionIff(limits: Limits, before: seq<Event>, c: Cache, range: Range)
    requires limits.active >= 1 && SingleRun(FRESH, limits, before, c)
    requires c.deleting == Some(range) && WritersAreOut(c, range)
    ensures StaysDeleted(DeleteSweeps(c, range, {}), limits, range, c.nextId) <==> !WriteBesideDownload(c, range)
  {
    SingleRunReaches(FRESH, limits, before, c);
    FreshOk(limits);
    SingleRunKeepsRegistered(FRESH, limits, before, c);
    StoppedUnlessBesideDownload(c, range);
    DeletionIsFinalIff(limits, before, c, range);
  }

  // ---------------------------------------------------------------- a run that brings a tile back

  predicate Idle(s: Scheduler) {
    s.active == map[] && s.perOrigin == map[] && s.queued == [] && s.queuedKeys == {}
  }

  /** A state with no deletion under way, nothing downloading, and at most one write, of `key`. */
  ghost predicate Calm(c: Cache, key: TileKey) {
    && c.deleting.None? && Idle(c.scheduler) && key !in c.ram && key !in c.disk
    && (forall i :: i in c.writes ==> c.writes[i].key == key && c.writes[i].phase.Waiting?)
    && SingleWrites(c)
  }

  lemma {:induction false} AskFor(c: Cache, limits: Limits, key: TileKey, origin: Origin) returns (e: Event, c': Cache)
    requires Calm(c, key) && limits.active >= 1
    ensures Enabled(c, e) && c' == Next(c, limits, e)
    ensures c' == c.(scheduler := c'.scheduler, nextId := c.nextId + 1)
    ensures exists d: Download :: d.key == key && c'.scheduler == MarkStarted(c.scheduler, d)
  {
    e := LibraryRequest(Request(key, origin, NoResponse, true));
    c' := Next(c, limits, e);
    var d := NewDownload(c, e.request);
    assert CanStart(c.scheduler, limits, d) && !Known(c.scheduler, key);
    assert c'.scheduler == MarkStarted(c.scheduler, d);
  }

  lemma {:induction false} EndOnly(s: Scheduler, limits: Limits, d: Download)
    requires Idle(s)
    ensures Idle(Finish(MarkStarted(s, d), limits, d.key).0)
  {
  }

  lemma {:induction false} StoreIt(c: Cache, limits: Limits, key: TileKey, s: Scheduler, d: Download) returns (e: Event, c': Cache)
    requires c.deleting.None? && Idle(s) && d.key == key && c.scheduler == MarkStarted(s, d)
    requires c.writes == map[] && c.writeCount == 0 && c.writeBytes == 0 && key !in c.invalidated
    ensures Enabled(c, e) && c' == Next(c, limits, e)
    ensures c'.deleting.None? && Idle(c'.scheduler) && c'.disk == c.disk && SingleWrites(c')
    ensures exists id :: c'.writes.Keys == {id} && c'.writes[id].key == key && c'.writes[id].phase.Waiting?
  {
    e := Downloaded(key, 1, true);
    EndOnly(s, limits, d);
    c' := Next(c, limits, e);
    assert c'.writes.Keys == {c.nextId};
  }

  /** Deleting a tile whose write waits leaves the write there, stopped. */
  lemma {:induction false} DeleteOnce(c: Cache, limits: Limits, key: TileKey, range: Range) returns (mark: Event, c1: Cache, sweep: Event, c2: Cache)
    requires c.deleting.None? && Deletes(range) && InRange(range, key) && Idle(c.scheduler) && SingleWrites(c)
    requires exists id :: c.writes.Keys == {id} && c.writes[id].key == key && c.writes[id].phase.Waiting?
    ensures Enabled(c, mark) && c1 == Next(c, limits, mark) && SingleWrites(c1)
    ensures Enabled(c1, sweep) && c2 == Next(c1, limits, sweep)
    ensures Calm(c2, key) && c2.writes != map[]
  {
    mark, sweep := DeletionMarked(range), DeletionSwept({});
    c1 := Next(c, limits, mark);
    c2 := Next(c1, limits, sweep);
    var id :| c.writes.Keys == {id} && c.writes[id].key == key && c.writes[id].phase.Waiting?;
    assert id in c1.writes && c1.writes.Keys == {id};
  }

  lemma {:induction false} DeleteAgain(c: Cache, limits: Limits, key: TileKey, range: Range) returns (mark: Event, c': Cache)
    requires c.deleting.None? && Deletes(range) && InRange(range, key) && SingleWrites(c) && key in c.scheduler.active
    requires c.writes != map[] && forall i :: i in c.writes ==> c.writes[i].key == key && c.writes[i].phase.Waiting?
    ensures Enabled(c, mark) && c' == Next(c, limits, mark) && SingleWrites(c')
    ensures c'.deleting == Some(range) && WritersAreOut(c', range) && WriteBesideDownload(c', range)
  {
    mark := DeletionMarked(range);
    c' := Next(c, limits, mark);
    assert c'.writes.Keys == c.writes.Keys;
    var id :| id in c.writes;
    assert id in c'.writes && c'.writes[id].key == key && Known(c'.scheduler, key);
  }

  /** Fetched, its write queued, deleted, asked for again and deleted again, up to the second sweep. */
  lemma {:induction false} UpToTheSecondSweep(limits: Limits, c4: Cache, key: TileKey, origin: Origin, range: Range)
    returns (events: seq<Event>, c: Cache)
    requires limits.active >= 1 && Deletes(range) && InRange(range, key) && Calm(c4, key) && c4.writes != map[]
    ensures SingleRun(c4, limits, events, c)
    ensures c.deleting == Some(range) && WritersAreOut(c, range) && WriteBesideDownload(c, range)
  {
    var e5, c5 := AskFor(c4, limits, key, origin);
    var e6, c6 := DeleteAgain(c5, limits, key, range);
    c := c6;
    events := PrependStep(c5, limits, e6, [], c);
    events := PrependStep(c4, limits, e5, events, c);
  }

  /**
   * Every tile of every deletable range can come back after a successful deletion, even with single
   * writes: it is fetched and its write queued; it is deleted; it is asked for again; it is deleted
   * again; the first write's callback clears the marker; and the second download is stored.
   */
  lemma {:induction false} StaleMarkerRevivesTile(limits: Limits, key: TileKey, origin: Origin, range: Range)
    returns (before: seq<Event>, c: Cache)
    requires limits.active >= 1 && Deletes(range) && InRange(range, key)
    ensures SingleRun(FRESH, limits, before, c)
    ensures c.deleting == Some(range) && WritersAreOut(c, range)
    ensures !StaysDeleted(DeleteSweeps(c, range, {}), limits, range, c.nextId)
  {
    var e1, c1 := AskFor(FRESH, limits, key, origin);
    var d: Download :| d.key == key && c1.scheduler == MarkStarted(IDLE, d);
    var e2, c2 := StoreIt(c1, limits, key, IDLE, d);
    var e3, c3, e4, c4 := DeleteOnce(c2, limits, key, range);
    before, c := UpToTheSecondSweep(limits, c4, key, origin, range);
    before := PrependStep(c3, limits, e4, before, c);
    before := PrependStep(c2, limits, e3, before, c);
    before := PrependStep(c1, limits, e2, before, c);
    before := PrependStep(FRESH, limits, e1, before, c);
    SingleWriteDeletionIff(limits, before, c, range);
  }

  lemma {:induction false} PrependStep(c: Cache, limits: Limits, e: Event, events: seq<Event>, c': Cache)
    returns (more: seq<Event>)
    requires SingleWrites(c) && Enabled(c, e) && SingleRun(Next(c, limits, e), limits, events, c')
    ensures SingleRun(c, limits, more, c')
  {
    more := [e] + events;
    assert more[1..] == events;
  }
}
