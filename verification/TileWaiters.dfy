/** No raster waiter is orphaned: whoever waits is listed by a read, a download or a write that will answer. */
module TileWaiters {
  import opened TileScheduler
  import opened TileQueueDrain
  import opened TileCache
  import opened TileCacheInvariants

  // ---------------------------------------------------------------- who will answer a response key

  ghost predicate DownloadAnswers(s: Scheduler, k: ResponseKey) {
    exists d :: Held(s, d) && k in ResponseKeys(s, d)
  }

  ghost predicate ReadAnswers(pending: map<ReadKey, Read>, k: ResponseKey) {
    exists readKey :: readKey in pending && k in pending[readKey].requests
  }

  ghost predicate WriteAnswers(writes: map<nat, Write>, k: ResponseKey) {
    exists id :: id in writes && k in writes[id].responses
  }

  ghost predicate Attended(c: Cache, k: ResponseKey) {
    DownloadAnswers(c.scheduler, k) || ReadAnswers(c.pendingReads, k) || WriteAnswers(c.writes, k)
  }

  /** Every waiter is attended, apart from those about to be dealt with. */
  ghost predicate NoOrphansBut(c: Cache, pending: seq<ResponseKey>) {
    && NoResponse !in c.waiting
    && forall k :: k in c.waiting ==> Attended(c, k) || k in pending
  }

  ghost predicate NoOrphans(c: Cache) {
    NoOrphansBut(c, [])
  }

  // ---------------------------------------------------------------- the queue keeps its promises

  lemma {:induction false} AddMissingHas(keys: seq<ResponseKey>, more: seq<ResponseKey>, k: ResponseKey)
    ensures k in AddMissing(keys, more) <==> k in keys || k in more
    decreases |more|
  {
    if more != [] {
      AddMissingHas(if more[0] in keys then keys else keys + [more[0]], more[1..], k);
    }
  }

  lemma ResponseKeysAre(s: Scheduler, d: Download, k: ResponseKey)
    ensures k in ResponseKeys(s, d) <==> (k == d.response && !d.response.NoResponse?) || k in Joined(s, d.key)
  {
    AddMissingHas(if d.response.NoResponse? then [] else [d.response], Joined(s, d.key), k);
  }

  lemma ScheduleKeepsHeld(s: Scheduler, limits: Limits, d: Download, x: Download)
    requires Held(s, x)
    ensures Held(Schedule(s, limits, d), x)
  {
  }

  lemma {:induction false} ScheduleKeepsAnswers(s: Scheduler, limits: Limits, d: Download, k: ResponseKey)
    requires DownloadAnswers(s, k)
    ensures DownloadAnswers(Schedule(s, limits, d), k)
  {
    var x :| Held(s, x) && k in ResponseKeys(s, x);
    ScheduleKeepsHeld(s, limits, d, x);
    ResponseKeysAre(s, x, k);
    ResponseKeysAre(Schedule(s, limits, d), x, k);
  }

  lemma {:induction false} KnownHasDownload(s: Scheduler, limits: Limits, key: TileKey) returns (d: Download)
    requires SchedulerOk(s, limits) && Known(s, key)
    ensures Held(s, d) && d.key == key
  {
    if key in s.active {
      d := s.active[key];
    } else {
      d :| d in s.queued && d.key == key;
    }
  }

  /** A request that is not turned away is answered by a download. */
  lemma {:induction false} ScheduleAnswers(s: Scheduler, limits: Limits, d: Download)
    requires SchedulerOk(s, limits) && !QueueFull(s, limits, d) && !d.response.NoResponse?
    ensures DownloadAnswers(Schedule(s, limits, d), d.response)
  {
    var s' := Schedule(s, limits, d);
    var x := d;
    if Known(s, d.key) {
      x := KnownHasDownload(s, limits, d.key);
      ScheduleKeepsHeld(s, limits, d, x);
      assert d.response in Joined(s', d.key);
    } else {
      assert Held(s', d);
    }
    ResponseKeysAre(s', x, d.response);
  }

  lemma {:induction false} StartQueuedKeepsJoined(s: Scheduler, limits: Limits)
    ensures StartQueued(s, limits).0.joined == s.joined
    decreases |s.queued|
  {
    var index := FirstEligible(s, limits, 0);
    if index < |s.queued| {
      StartQueuedKeepsJoined(StartAt(s, index), limits);
    }
  }

  lemma {:induction false} StartQueuedKeepsHeld(s: Scheduler, limits: Limits, x: Download)
    requires SchedulerOk(s, limits) && Held(s, x)
    ensures Held(StartQueued(s, limits).0, x)
  {
    assert Ahead(s, x, |s.queued|);
    StartQueuedKeepsAhead(s, limits, x, |s.queued|);
  }

  /** The end of one download leaves every other download, with its joined keys, in place. */
  lemma {:induction false} FinishKeepsOthers(s: Scheduler, limits: Limits, key: TileKey, x: Download)
    requires SchedulerOk(s, limits) && key in s.active && Held(s, x) && x.key != key
    ensures Held(Finish(s, limits, key).0, x)
    ensures Joined(Finish(s, limits, key).0, x.key) == Joined(s, x.key)
  {
    FinishMarkKeeps(s, limits, key);
    var s1 := ForgetJoined(MarkFinished(s, s.active[key]), key);
    SameActive(MarkFinished(s, s.active[key]), s1, limits);
    StartQueuedKeepsHeld(s1, limits, x);
    StartQueuedKeepsJoined(s1, limits);
  }

  lemma {:induction false} FinishKeepsAnswers(s: Scheduler, limits: Limits, key: TileKey, k: ResponseKey)
    requires SchedulerOk(s, limits) && key in s.active && DownloadAnswers(s, k)
    requires k !in ResponseKeys(s, s.active[key])
    ensures DownloadAnswers(Finish(s, limits, key).0, k)
  {
    var x :| Held(s, x) && k in ResponseKeys(s, x);
    assert x in s.queued ==> x.key in s.queuedKeys;
    assert x.key != key;
    FinishKeepsOthers(s, limits, key, x);
    ResponseKeysAre(s, x, k);
    ResponseKeysAre(Finish(s, limits, key).0, x, k);
  }

  lemma {:induction false} QueuedResponsesInclude(s: Scheduler, queued: seq<Download>, d: Download, k: ResponseKey)
    requires d in queued && k in ResponseKeys(s, d)
    ensures k in QueuedResponses(s, queued)
    decreases |queued|
  {
    if queued[0] != d {
      QueuedResponsesInclude(s, queued[1..], d, k);
    }
  }

  lemma {:induction false} CancelKeepsAnswers(s: Scheduler, limits: Limits, k: ResponseKey)
    requires SchedulerOk(s, limits) && DownloadAnswers(s, k) && k !in QueuedResponses(s, s.queued)
    ensures DownloadAnswers(CancelQueued(s), k)
  {
    var x :| Held(s, x) && k in ResponseKeys(s, x);
    if x in s.queued {
      QueuedResponsesInclude(s, s.queued, x, k);
    }
    assert x.key !in s.queuedKeys;
    ResponseKeysAre(s, x, k);
    ResponseKeysAre(CancelQueued(s), x, k);
  }

  // ---------------------------------------------------------------- serving requests

  lemma {:induction false} GetTileAttends(c: Cache, limits: Limits, r: Request, k: ResponseKey)
    requires SchedulerOk(c.scheduler, limits)
    ensures DownloadAnswers(c.scheduler, k) ==> DownloadAnswers(GetTile(c, limits, r).0.scheduler, k)
    ensures (GetTile(c, limits, r).1.Pending? && k == r.response && !k.NoResponse?) ==>
              DownloadAnswers(GetTile(c, limits, r).0.scheduler, k)
  {
    var d := NewDownload(c, r);
    if DownloadAnswers(c.scheduler, k) {
      ScheduleKeepsAnswers(c.scheduler, limits, d, k);
    }
    if !QueueFull(c.scheduler, limits, d) && !r.response.NoResponse? {
      ScheduleAnswers(c.scheduler, limits, d);
    }
  }

  lemma {:induction false} AttendedServing(c: Cache, c': Cache, k: ResponseKey)
    requires Attended(c, k) && c'.pendingReads == c.pendingReads && c'.writes == c.writes
    requires DownloadAnswers(c.scheduler, k) ==> DownloadAnswers(c'.scheduler, k)
    ensures Attended(c', k)
  {
  }

  lemma GetTileFrame(c: Cache, limits: Limits, r: Request)
    ensures var c' := GetTile(c, limits, r).0;
            c'.pendingReads == c.pendingReads && c'.writes == c.writes && c'.waiting == c.waiting
  {
  }

  lemma {:induction false} SettleAttends(c: Cache, limits: Limits, r: Request, after: (Cache, Reply), k: ResponseKey)
    requires after == GetTile(c, limits, r)
    requires SchedulerOk(c.scheduler, limits) && !k.NoResponse? && (Attended(c, k) || k == r.response)
    ensures k in Settle(after, r.response).waiting ==> Attended(Settle(after, r.response), k)
  {
    GetTileFrame(c, limits, r);
    GetTileAttends(c, limits, r, k);
    SettledAttends(c, r.response, after, k);
  }

  lemma {:induction false} SettledAttends(c: Cache, response: ResponseKey, after: (Cache, Reply), k: ResponseKey)
    requires after.0.pendingReads == c.pendingReads && after.0.writes == c.writes && after.0.waiting == c.waiting
    requires Attended(c, k) || k == response
    requires DownloadAnswers(c.scheduler, k) ==> DownloadAnswers(after.0.scheduler, k)
    requires after.1.Pending? && k == response ==> DownloadAnswers(after.0.scheduler, k)
    ensures k in Settle(after, response).waiting ==> Attended(Settle(after, response), k)
  {
    assert response in KeySet([response]);
  }

  lemma {:induction false} SettleKeeps(c: Cache, limits: Limits, r: Request, rest: seq<ResponseKey>)
    requires SchedulerOk(c.scheduler, limits) && NoOrphansBut(c, [r.response] + rest)
    ensures NoOrphansBut(Settle(GetTile(c, limits, r), r.response), rest)
  {
    var c' := Settle(GetTile(c, limits, r), r.response);
    forall k | k in c.waiting && k !in rest ensures k in c'.waiting ==> Attended(c', k) {
      SettleAttends(c, limits, r, GetTile(c, limits, r), k);
    }
  }

  lemma {:induction false} FallbackKeeps(c: Cache, limits: Limits, key: TileKey, requests: seq<ResponseKey>,
                                         origins: seq<Origin>, mayFetch: bool, c': Cache)
    requires QueuesOk(c.scheduler, limits) && NoOrphansBut(c, requests) && |origins| == |requests|
    requires c' == Fallback(c, limits, key, requests, origins, mayFetch)
    ensures NoOrphans(c')
    decreases |requests|
  {
    if requests != [] {
      var r := Request(key, origins[0], requests[0], mayFetch);
      assert requests == [r.response] + requests[1..];
      GetTileKeepsQueues(c, limits, r);
      SettleKeeps(c, limits, r, requests[1..]);
      FallbackKeeps(Settle(GetTile(c, limits, r), requests[0]), limits, key, requests[1..], origins[1..], mayFetch, c');
    }
  }

  lemma {:induction false} ReadTakenKeeps(c: Cache, readKey: ReadKey)
    requires NoOrphans(c) && readKey in c.pendingReads
    ensures NoOrphansBut(ReadTaken(c, readKey), c.pendingReads[readKey].requests)
  {
    var c' := ReadTaken(c, readKey);
    forall k | k in c.waiting && k !in c.pendingReads[readKey].requests ensures Attended(c', k) {
      if ReadAnswers(c.pendingReads, k) {
        var other :| other in c.pendingReads && k in c.pendingReads[other].requests;
        assert other in c'.pendingReads;
      }
    }
  }

  lemma {:induction false} AnswerKeeps(c: Cache, keys: seq<ResponseKey>)
    requires NoOrphansBut(c, keys)
    ensures NoOrphans(Answer(c, keys))
  {
    var c' := Answer(c, keys);
    forall k | k in c'.waiting ensures Attended(c', k) {
      assert Attended(c, k);
    }
  }

  lemma {:induction false} RamDoesNotMatter(c: Cache, ram: map<TileKey, Tile>, pending: seq<ResponseKey>)
    requires NoOrphansBut(c, pending)
    ensures NoOrphansBut(c.(ram := ram), pending)
  {
    forall k | k in c.waiting && k !in pending ensures Attended(c.(ram := ram), k) {
      assert Attended(c, k);
    }
  }

  lemma {:induction false} ReadEndsKeeps(c: Cache, limits: Limits, readKey: ReadKey, origins: seq<Origin>, mayFetch: bool)
    requires QueuesOk(c.scheduler, limits) && NoOrphans(c) && Enabled(c, ReadEnded(readKey, origins, mayFetch))
    ensures NoOrphans(ReadEnds(c, limits, readKey, origins, mayFetch))
  {
    var after := ReadEnds(c, limits, readKey, origins, mayFetch);
    var c1, requests := ReadEndsEitherWay(c, limits, readKey, origins, mayFetch);
    ReadTakenKeeps(c, readKey);
    if after == Fallback(c1, limits, readKey.key, requests, origins, mayFetch) {
      FallbackKeeps(c1, limits, readKey.key, requests, origins, mayFetch, after);
    } else {
      AnswerKeeps(c1, requests);
      RamDoesNotMatter(c1, after.ram, requests);
      AnswerKeeps(c1.(ram := after.ram), requests);
    }
  }

  lemma {:induction false} ColdReadAttends(c: Cache, key: TileKey, response: ResponseKey, k: ResponseKey)
    requires key in c.disk
    ensures Attended(c, k) ==> Attended(ColdRead(c, key, response).0, k)
    ensures ColdRead(c, key, response).1.Pending? ==> ReadAnswers(ColdRead(c, key, response).0.pendingReads, response)
  {
    var c' := ColdRead(c, key, response).0;
    var mine := ReadKey(key, c.generation);
    if ReadAnswers(c.pendingReads, k) {
      var other :| other in c.pendingReads && k in c.pendingReads[other].requests;
      assert other in c'.pendingReads && k in c'.pendingReads[other].requests;
    }
    if ColdRead(c, key, response).1.Pending? {
      assert mine in c'.pendingReads && response in c'.pendingReads[mine].requests;
    }
  }

  lemma {:induction false} HttpAttends(c: Cache, limits: Limits, r: Request, k: ResponseKey)
    requires SchedulerOk(c.scheduler, limits)
    ensures Attended(c, k) ==> Attended(GetTileForHttp(c, limits, r).0, k)
    ensures (GetTileForHttp(c, limits, r).1.Pending? && k == r.response && !k.NoResponse?) ==>
              Attended(GetTileForHttp(c, limits, r).0, k)
  {
    if r.key !in c.ram {
      if r.key in c.disk {
        ColdReadAttends(c, r.key, r.response, k);
      } else {
        GetTileAttends(c, limits, r, k);
        if Attended(c, k) {
          AttendedServing(c, GetTile(c, limits, r).0, k);
        }
      }
    }
  }

  lemma {:induction false} HttpRequestKeeps(c: Cache, limits: Limits, r: Request, waits: bool)
    requires SchedulerOk(c.scheduler, limits) && NoOrphans(c)
    ensures NoOrphans(AfterReply(GetTileForHttp(c, limits, r), r.response, waits))
  {
    var after := GetTileForHttp(c, limits, r);
    var c' := AfterReply(after, r.response, waits);
    HttpRequestFrame(c, limits, r);
    HttpKeepsWaiting(c, limits, r);
    forall k | k in c'.waiting ensures Attended(c', k) {
      HttpAttends(c, limits, r, k);
      assert Attended(after.0, k);
    }
  }

  lemma HttpKeepsWaiting(c: Cache, limits: Limits, r: Request)
    ensures GetTileForHttp(c, limits, r).0.waiting == c.waiting
  {
  }

  lemma {:induction false} LibraryRequestKeeps(c: Cache, limits: Limits, r: Request)
    requires SchedulerOk(c.scheduler, limits) && NoOrphans(c)
    ensures NoOrphans(GetTile(c, limits, r).0)
  {
    var c' := GetTile(c, limits, r).0;
    GetTileFrame(c, limits, r);
    forall k | k in c'.waiting ensures Attended(c', k) {
      GetTileAttends(c, limits, r, k);
      AttendedServing(c, c', k);
    }
  }

  // ---------------------------------------------------------------- downloads and writes

  lemma {:induction false} EndedKeeps(c: Cache, limits: Limits, key: TileKey)
    requires SchedulerOk(c.scheduler, limits) && NoOrphans(c) && key in c.scheduler.active
    ensures NoOrphansBut(DownloadEnded(c, limits, key), ResponseKeys(c.scheduler, c.scheduler.active[key]))
  {
    var c' := DownloadEnded(c, limits, key);
    var keys := ResponseKeys(c.scheduler, c.scheduler.active[key]);
    forall k | k in c.waiting && k !in keys ensures Attended(c', k) {
      if DownloadAnswers(c.scheduler, k) {
        FinishKeepsAnswers(c.scheduler, limits, key, k);
      }
    }
  }

  lemma {:induction false} StoredKeeps(c: Cache, key: TileKey, tile: Tile, responses: seq<ResponseKey>)
    requires NoOrphansBut(c, responses) && c.nextId !in c.writes
    ensures NoOrphans(StartWrite(c, key, tile, responses))
  {
    var c' := StartWrite(c, key, tile, responses);
    forall k | k in c.waiting ensures Attended(c', k) {
      if k in responses {
        assert k in c'.writes[c.nextId].responses;
      } else if WriteAnswers(c.writes, k) {
        var id :| id in c.writes && k in c.writes[id].responses;
        assert id in c'.writes && k in c'.writes[id].responses;
      }
    }
  }

  lemma {:induction false} DownloadKeeps(c: Cache, limits: Limits, key: TileKey, size: nat, mayStore: bool)
    requires SchedulerOk(c.scheduler, limits) && NoOrphans(c) && key in c.scheduler.active && c.nextId !in c.writes
    ensures NoOrphans(DownloadSucceeds(c, limits, key, size, mayStore))
  {
    var d := c.scheduler.active[key];
    EndedKeeps(c, limits, key);
    if Stores(c, key, size, mayStore) {
      StoredKeeps(DownloadEnded(c, limits, key), key, Tile(d.id, size), ResponseKeys(c.scheduler, d));
    } else {
      AnswerKeeps(DownloadEnded(c, limits, key), ResponseKeys(c.scheduler, d));
    }
  }

  lemma {:induction false} DownloadFailKeeps(c: Cache, limits: Limits, key: TileKey)
    requires SchedulerOk(c.scheduler, limits) && NoOrphans(c) && key in c.scheduler.active
    ensures NoOrphans(DownloadFails(c, limits, key))
  {
    EndedKeeps(c, limits, key);
    AnswerKeeps(DownloadEnded(c, limits, key), ResponseKeys(c.scheduler, c.scheduler.active[key]));
  }

  lemma {:induction false} WriteEndKeeps(c: Cache, id: nat)
    requires NoOrphans(c) && id in c.writes
    ensures NoOrphans(WriteEnds(c, id))
  {
    var c' := WriteEnds(c, id);
    forall k | k in c'.waiting ensures Attended(c', k) {
      assert Attended(c, k);
      if WriteAnswers(c.writes, k) {
        var other :| other in c.writes && k in c.writes[other].responses;
        assert other in c'.writes;
      }
    }
  }

  lemma {:induction false} CancelKeeps(c: Cache, limits: Limits)
    requires SchedulerOk(c.scheduler, limits) && NoOrphans(c)
    ensures NoOrphans(CancelUpstream(c))
  {
    var c' := CancelUpstream(c);
    forall k | k in c'.waiting ensures Attended(c', k) {
      assert Attended(c, k);
      if DownloadAnswers(c.scheduler, k) {
        CancelKeepsAnswers(c.scheduler, limits, k);
      }
    }
  }

  /** Steps that leave the lists of reads, downloads and writes as they are. */
  lemma {:induction false} SameListsKeep(c: Cache, c': Cache)
    requires NoOrphans(c) && c'.waiting == c.waiting && c'.scheduler == c.scheduler
    requires c'.pendingReads.Keys == c.pendingReads.Keys && c'.writes.Keys == c.writes.Keys
    requires forall k :: k in c.pendingReads ==> c'.pendingReads[k].requests == c.pendingReads[k].requests
    requires forall id :: id in c.writes ==> c'.writes[id].responses == c.writes[id].responses
    ensures NoOrphans(c')
  {
    forall k | k in c.waiting ensures Attended(c', k) {
      assert Attended(c, k);
      if ReadAnswers(c.pendingReads, k) {
        var readKey :| readKey in c.pendingReads && k in c.pendingReads[readKey].requests;
        assert readKey in c'.pendingReads && k in c'.pendingReads[readKey].requests;
      } else if WriteAnswers(c.writes, k) {
        var id :| id in c.writes && k in c.writes[id].responses;
        assert id in c'.writes && k in c'.writes[id].responses;
      }
    }
  }

  predicate Relists(e: Event) {
    Asks(e) || e.Downloaded? || e.DownloadFailed? || e.WriteEnded? || e.UpstreamCancelled?
  }

  lemma {:induction false} OtherKeepsNoOrphans(c: Cache, limits: Limits, e: Event)
    requires NoOrphans(c) && Enabled(c, e) && !Relists(e)
    ensures NoOrphans(Next(c, limits, e))
  {
    var c' := Next(c, limits, e);
    QuietKeepsScheduler(c, limits, e);
    if e.ReadFetched? {
      assert c'.writes == c.writes;
    } else {
      assert c'.pendingReads == c.pendingReads;
    }
    SameListsKeep(c, c');
  }

  lemma {:induction false} StepKeepsNoOrphans(c: Cache, limits: Limits, e: Event)
    requires CacheOk(c, limits) && NoOrphans(c) && Enabled(c, e)
    ensures NoOrphans(Next(c, limits, e))
  {
    if !Relists(e) {
      OtherKeepsNoOrphans(c, limits, e);
    } else {
      match e
      case HttpRequest(r, waits) => HttpRequestKeeps(c, limits, r, waits);
      case LibraryRequest(r) => LibraryRequestKeeps(c, limits, r);
      case ReadEnded(readKey, origins, mayFetch) => ReadEndsKeeps(c, limits, readKey, origins, mayFetch);
      case Downloaded(key, size, mayStore) => DownloadKeeps(c, limits, key, size, mayStore);
      case DownloadFailed(key) => DownloadFailKeeps(c, limits, key);
      case WriteEnded(id) => WriteEndKeeps(c, id);
      case UpstreamCancelled => CancelKeeps(c, limits);
    }
  }

  lemma {:induction false} RunKeepsNoOrphans(c: Cache, limits: Limits, events: seq<Event>, c': Cache)
    requires CacheOk(c, limits) && NoOrphans(c) && Reaches(c, limits, events, c')
    ensures CacheOk(c', limits) && NoOrphans(c')
    decreases |events|
  {
    if events != [] {
      StepKeeps(c, limits, events[0]);
      StepKeepsNoOrphans(c, limits, events[0]);
      RunKeepsNoOrphans(Next(c, limits, events[0]), limits, events[1..], c');
    }
  }

  /** In every reachable state, whoever waits is listed by a read, a download or a write. */
  lemma {:induction false} NoWaiterIsOrphaned(limits: Limits, events: seq<Event>, c: Cache, k: ResponseKey)
    requires Reaches(FRESH, limits, events, c) && k in c.waiting
    ensures DownloadAnswers(c.scheduler, k) || ReadAnswers(c.pendingReads, k) || WriteAnswers(c.writes, k)
  {
    FreshOk(limits);
    RunKeepsNoOrphans(FRESH, limits, events, c);
  }
}
