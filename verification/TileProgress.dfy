/** Why every raster waiter is answered: work that is under way runs out, and then nobody waits. */
module TileProgress {
  import opened Wrappers
  import opened MapSum
  import opened TileScheduler
  import opened TileCache
  import opened TileCacheInvariants
  import opened TileWaiters

  const READ_WORK: Read -> int := (r: Read) => if r.fetched.None? then 7 else 6

  const WRITE_WORK: Write -> int := (w: Write) => match w.phase case Waiting => 3 case Saving => 2 case Finished => 1

  function QueueWork(s: Scheduler): int {
    5 * |s.queued| + 4 * |s.active|
  }

  /** Steps still to come before the cache is at rest, if nothing new is asked. */
  ghost function Work(c: Cache): int {
    QueueWork(c.scheduler) + Sum(c.pendingReads, READ_WORK) + Sum(c.writes, WRITE_WORK) + if c.deleting.Some? then 1 else 0
  }

  /** The worker steps and callbacks that bring earlier work forward. */
  predicate Progresses(e: Event) {
    || e.ReadFetched? || e.ReadEnded? || e.Downloaded? || e.DownloadFailed?
    || e.WriterEntered? || e.WriterSaved? || e.WriteEnded? || e.DeletionSwept?
  }

  predicate AllProgress(events: seq<Event>) {
    events == [] || (Progresses(events[0]) && AllProgress(events[1..]))
  }

  lemma {:induction false} WorkIsNatural(c: Cache)
    ensures Work(c) >= 0
  {
    ReadsWeigh(c.pendingReads);
    WritesWeigh(c.writes);
  }

  lemma {:induction false} ReadsWeigh(pending: map<ReadKey, Read>)
    ensures Sum(pending, READ_WORK) >= 0
    ensures forall k :: k in pending ==> Sum(pending, READ_WORK) >= 6
  {
    SumBounds(pending, ReadKey(TileKey("", 0, 0, 0), 0), READ_WORK);
    forall k | k in pending ensures Sum(pending, READ_WORK) >= 6 {
      SumBounds(pending, k, READ_WORK);
    }
  }

  lemma {:induction false} WritesWeigh(writes: map<nat, Write>)
    ensures Sum(writes, WRITE_WORK) >= 0
    ensures forall id :: id in writes ==> Sum(writes, WRITE_WORK) >= 1
  {
    SumBounds(writes, 0, WRITE_WORK);
    forall id | id in writes ensures Sum(writes, WRITE_WORK) >= 1 {
      SumBounds(writes, id, WRITE_WORK);
    }
  }

  // ---------------------------------------------------------------- the queue

  lemma {:induction false} StartAtWork(s: Scheduler, index: nat)
    requires index < |s.queued| && s.queued[index].key !in s.active
    ensures QueueWork(StartAt(s, index)) == QueueWork(s) - 1
  {
    MapGrows(s.active, s.queued[index]);
  }

  lemma {:induction false} StartQueuedWork(s: Scheduler, limits: Limits, s': Scheduler)
    requires SchedulerOk(s, limits) && s' == StartQueued(s, limits).0
    ensures QueueWork(s') <= QueueWork(s)
    decreases |s.queued|
  {
    var index := FirstEligible(s, limits, 0);
    if index < |s.queued| {
      assert s.queued[index].key in s.queuedKeys;
      StartAtWork(s, index);
      StartAtKeeps(s, limits, index);
      StartQueuedWork(StartAt(s, index), limits, s');
    }
  }

  lemma {:induction false} FinishWork(s: Scheduler, limits: Limits, key: TileKey)
    requires SchedulerOk(s, limits) && key in s.active
    ensures QueueWork(Finish(s, limits, key).0) <= QueueWork(s) - 4
  {
    FinishMarkKeeps(s, limits, key);
    var s1 := ForgetJoined(MarkFinished(s, s.active[key]), key);
    SameActive(MarkFinished(s, s.active[key]), s1, limits);
    MapShrinks(s.active, key);
    StartQueuedWork(s1, limits, StartQueued(s1, limits).0);
  }

  lemma {:induction false} ScheduleWork(s: Scheduler, limits: Limits, d: Download)
    ensures QueueWork(Schedule(s, limits, d)) <= QueueWork(s) + if Known(s, d.key) then 0 else 5
    ensures !QueueFull(s, limits, d) ==> Known(Schedule(s, limits, d), d.key)
  {
    if !Known(s, d.key) {
      MapGrows(s.active, d);
    }
  }

  // ---------------------------------------------------------------- the fallback of a read

  /** Whether a request for the key can no longer add a download. */
  predicate Served(c: Cache, key: TileKey) {
    key in c.ram || Known(c.scheduler, key)
  }

  lemma {:induction false} GetTileWork(c: Cache, limits: Limits, r: Request)
    ensures var c' := GetTile(c, limits, r).0;
            && QueueWork(c'.scheduler) <= QueueWork(c.scheduler) + (if Served(c, r.key) then 0 else 5)
            && (Served(c, r.key) ==> Served(c', r.key))
            && (!Served(c', r.key) ==> c'.scheduler == c.scheduler)
  {
    ScheduleWork(c.scheduler, limits, NewDownload(c, r));
  }

  lemma {:induction false} FallbackWork(c: Cache, limits: Limits, key: TileKey, requests: seq<ResponseKey>,
                                        origins: seq<Origin>, mayFetch: bool, c': Cache)
    requires |origins| == |requests| && c' == Fallback(c, limits, key, requests, origins, mayFetch)
    ensures QueueWork(c'.scheduler) <= QueueWork(c.scheduler) + if Served(c, key) then 0 else 5
    decreases |requests|
  {
    if requests != [] {
      var r := Request(key, origins[0], requests[0], mayFetch);
      GetTileWork(c, limits, r);
      FallbackWork(Settle(GetTile(c, limits, r), requests[0]), limits, key, requests[1..], origins[1..], mayFetch, c');
    }
  }

  // ---------------------------------------------------------------- each step of progress

  lemma {:induction false} FetchWorks(c: Cache, readKey: ReadKey)
    requires readKey in c.pendingReads && c.pendingReads[readKey].fetched.None?
    ensures Work(ReadFetches(c, readKey)) < Work(c)
  {
    SumPut(c.pendingReads, readKey, ReadFetches(c, readKey).pendingReads[readKey], READ_WORK);
  }

  lemma {:induction false} ReadEndWorks(c: Cache, limits: Limits, readKey: ReadKey, origins: seq<Origin>, mayFetch: bool)
    requires Enabled(c, ReadEnded(readKey, origins, mayFetch))
    ensures Work(ReadEnds(c, limits, readKey, origins, mayFetch)) < Work(c)
  {
    var after := ReadEnds(c, limits, readKey, origins, mayFetch);
    var c1, requests := ReadEndsEitherWay(c, limits, readKey, origins, mayFetch);
    SumRemove(c.pendingReads, readKey, READ_WORK);
    if after == Fallback(c1, limits, readKey.key, requests, origins, mayFetch) {
      FallbackWork(c1, limits, readKey.key, requests, origins, mayFetch, after);
      FallbackOnlyServes(c1, limits, readKey.key, requests, origins, mayFetch);
    }
  }

  lemma {:induction false} EndedWorks(c: Cache, limits: Limits, key: TileKey)
    requires SchedulerOk(c.scheduler, limits) && key in c.scheduler.active
    ensures Work(DownloadEnded(c, limits, key)) <= Work(c) - 4
  {
    FinishWork(c.scheduler, limits, key);
  }

  lemma {:induction false} StoredWorks(c: Cache, key: TileKey, tile: Tile, responses: seq<ResponseKey>)
    requires c.nextId !in c.writes
    ensures Work(StartWrite(c, key, tile, responses)) == Work(c) + 3
  {
    SumPut(c.writes, c.nextId, Write(key, tile, responses, Waiting, false), WRITE_WORK);
  }

  lemma {:induction false} DownloadWorks(c: Cache, limits: Limits, key: TileKey, size: nat, mayStore: bool)
    requires SchedulerOk(c.scheduler, limits) && key in c.scheduler.active && c.nextId !in c.writes
    ensures Work(DownloadSucceeds(c, limits, key, size, mayStore)) < Work(c)
  {
    EndedWorks(c, limits, key);
    if Stores(c, key, size, mayStore) {
      StoredWorks(DownloadEnded(c, limits, key), key, Tile(c.scheduler.active[key].id, size),
                  ResponseKeys(c.scheduler, c.scheduler.active[key]));
    }
  }

  lemma {:induction false} DownloadFailWorks(c: Cache, limits: Limits, key: TileKey)
    requires SchedulerOk(c.scheduler, limits) && key in c.scheduler.active
    ensures Work(DownloadFails(c, limits, key)) < Work(c)
  {
    FinishWork(c.scheduler, limits, key);
  }

  lemma {:induction false} WriterWorks(c: Cache, limits: Limits, e: Event)
    requires Enabled(c, e) && (e.WriterEntered? || e.WriterSaved?)
    ensures Work(Next(c, limits, e)) < Work(c)
  {
    SumPut(c.writes, e.id, Next(c, limits, e).writes[e.id], WRITE_WORK);
  }

  lemma {:induction false} WriteEndWorks(c: Cache, id: nat)
    requires id in c.writes
    ensures Work(WriteEnds(c, id)) < Work(c)
  {
    SumRemove(c.writes, id, WRITE_WORK);
    assert forall i :: i in c.writes ==> WRITE_WORK(c.writes[i]) >= 1;
  }

  lemma {:induction false} ProgressWorks(c: Cache, limits: Limits, e: Event)
    requires CacheOk(c, limits) && Enabled(c, e) && Progresses(e)
    ensures Work(Next(c, limits, e)) < Work(c)
  {
    match e
    case ReadFetched(readKey) => FetchWorks(c, readKey);
    case ReadEnded(readKey, origins, mayFetch) => ReadEndWorks(c, limits, readKey, origins, mayFetch);
    case Downloaded(key, size, mayStore) => DownloadWorks(c, limits, key, size, mayStore);
    case DownloadFailed(key) => DownloadFailWorks(c, limits, key);
    case WriterEntered(_) => WriterWorks(c, limits, e);
    case WriterSaved(_, _) => WriterWorks(c, limits, e);
    case WriteEnded(id) => WriteEndWorks(c, id);
    case DeletionSwept(kept) => SweepWorks(c, kept);
  }

  lemma SweepWorks(c: Cache, kept: set<TileKey>)
    requires c.deleting.Some?
    ensures Work(DeleteSweeps(c, c.deleting.value, kept)) < Work(c)
  {
  }

  // ---------------------------------------------------------------- something can always move

  lemma {:induction false} QueueNeedsActive(s: Scheduler, limits: Limits) returns (key: TileKey)
    requires QueuesOk(s, limits) && limits.active >= 1 && (s.queued != [] || s.active != map[])
    ensures key in s.active
  {
    if s.active == map[] {
      var d := s.queued[0];
      assert ActiveOf(s, d.origin) == Sum(s.active, OriginWeight(d.origin));
      assert CanStart(s, limits, d);
    }
    key :| key in s.active;
  }

  lemma {:induction false} ReadCanMove(c: Cache, readKey: ReadKey, origin: Origin) returns (e: Event)
    requires c.deleting.None? && readKey in c.pendingReads
    ensures Enabled(c, e) && Progresses(e)
  {
    var n := |c.pendingReads[readKey].requests|;
    e := if c.pendingReads[readKey].fetched.None? then ReadFetched(readKey) else ReadEnded(readKey, seq(n, _ => origin), true);
  }

  lemma {:induction false} WriteCanMove(c: Cache, id: nat) returns (e: Event)
    requires c.deleting.None? && id in c.writes
    ensures Enabled(c, e) && Progresses(e)
  {
    e := match c.writes[id].phase
      case Waiting => WriterEntered(id)
      case Saving => WriterSaved(id, true)
      case Finished => WriteEnded(id);
  }

  lemma {:induction false} DeletionCanMove(c: Cache) returns (e: Event)
    requires c.deleting.Some?
    ensures Enabled(c, e) && Progresses(e)
  {
    if WritersAreOut(c, c.deleting.value) {
      e := DeletionSwept({});
    } else {
      var id :| id in c.writes && c.writes[id].phase.Saving?;
      e := WriterSaved(id, true);
    }
  }

  lemma {:induction false} WorkCanMove(c: Cache, limits: Limits) returns (e: Event)
    requires QueuesOk(c.scheduler, limits) && limits.active >= 1 && Work(c) > 0
    ensures Enabled(c, e) && Progresses(e)
  {
    if c.deleting.Some? {
      e := DeletionCanMove(c);
    } else if Sum(c.pendingReads, READ_WORK) > 0 {
      var readKey := SumPositive(c.pendingReads, READ_WORK);
      e := ReadCanMove(c, readKey, Origin(""));
    } else if Sum(c.writes, WRITE_WORK) > 0 {
      var id := SumPositive(c.writes, WRITE_WORK);
      e := WriteCanMove(c, id);
    } else {
      var key := QueueNeedsActive(c.scheduler, limits);
      e := DownloadFailed(key);
    }
  }

  // ---------------------------------------------------------------- the theorem

  lemma {:induction false} WaiterMeansWork(c: Cache, k: ResponseKey)
    requires NoOrphans(c) && k in c.waiting
    ensures Work(c) > 0
  {
    assert Attended(c, k);
    ReadsWeigh(c.pendingReads);
    WritesWeigh(c.writes);
    if DownloadAnswers(c.scheduler, k) {
      var d :| Held(c.scheduler, d) && k in ResponseKeys(c.scheduler, d);
      assert d.key in c.scheduler.active ==> |c.scheduler.active| > 0;
    }
  }

  /** While someone waits, a worker or a callback can move. */
  lemma {:induction false} WaitersAreServed(limits: Limits, events: seq<Event>, c: Cache) returns (e: Event)
    requires limits.active >= 1 && Reaches(FRESH, limits, events, c) && c.waiting != {}
    ensures Enabled(c, e) && Progresses(e)
  {
    FreshOk(limits);
    RunKeepsNoOrphans(FRESH, limits, events, c);
    var k :| k in c.waiting;
    WaiterMeansWork(c, k);
    e := WorkCanMove(c, limits);
  }

  lemma {:induction false} ProgressStep(limits: Limits, c: Cache, e: Event, c': Cache)
    requires CacheOk(c, limits) && Enabled(c, e) && Progresses(e) && c' == Next(c, limits, e)
    ensures CacheOk(c', limits) && Work(c') <= Work(c) - 1
  {
    ProgressWorks(c, limits, e);
    StepKeeps(c, limits, e);
  }

  /** And they cannot move for ever: without new requests a run has no more steps than the work there was. */
  lemma {:induction false} ProgressEnds(limits: Limits, c: Cache, events: seq<Event>, c': Cache)
    requires CacheOk(c, limits) && Reaches(c, limits, events, c')
    requires AllProgress(events)
    ensures |events| <= Work(c) - Work(c') && Work(c') >= 0
    decreases |events|
  {
    if events != [] {
      var c1 := Next(c, limits, events[0]);
      ProgressStep(limits, c, events[0], c1);
      ProgressEnds(limits, c1, events[1..], c');
    } else {
      WorkIsNatural(c');
    }
  }
}
