/** The other half of the deletion theorem: every leak can bring a deleted tile back. */
module TileResurrection {
  import opened Wrappers
  import opened TileScheduler
  import opened TileQueueDrain
  import opened TileCache
  import opened TileCacheInvariants
  import opened TileDeletion

  // ---------------------------------------------------------------- a write that was not stopped

  lemma {:induction false} SavePutsItBack(c: Cache, limits: Limits, id: nat, range: Range, epoch: nat)
    returns (c': Cache)
    requires id in c.writes && c.writes[id].phase.Saving? && InRange(range, c.writes[id].key)
    requires c.writes[id].tile.author < epoch
    ensures Enabled(c, WriterSaved(id, true)) && c' == Next(c, limits, WriterSaved(id, true))
    ensures Resurrected(c', range, epoch)
  {
    c' := Next(c, limits, WriterSaved(id, true));
    assert c.writes[id].key in c'.disk;
  }

  lemma {:induction false} UnstoppedWritePutsItBack(c: Cache, limits: Limits, id: nat, range: Range, epoch: nat)
    returns (events: seq<Event>, c': Cache)
    requires id in c.writes && !Harmless(c.writes[id]) && InRange(range, c.writes[id].key)
    requires c.writes[id].tile.author < epoch
    ensures Reaches(c, limits, events, c') && Resurrected(c', range, epoch)
  {
    var save := WriterSaved(id, true);
    if c.writes[id].phase.Saving? {
      c' := SavePutsItBack(c, limits, id, range, epoch);
      events := [save];
      OneStep(c, limits, save);
    } else {
      var enter := WriterEntered(id);
      var c1 := Next(c, limits, enter);
      c' := SavePutsItBack(c1, limits, id, range, epoch);
      events := [enter] + [save];
      OneStep(c, limits, enter);
      OneStep(c1, limits, save);
      ReachesPlus(c, limits, [enter], c1, [save], c');
    }
  }

  lemma OneStep(c: Cache, limits: Limits, e: Event)
    requires Enabled(c, e)
    ensures Reaches(c, limits, [e], Next(c, limits, e))
  {
    assert [e][1..] == [];
  }

  // ---------------------------------------------------------------- a download beside an unfinished write

  /** Nothing but failures of other downloads happens: markers and write capacity stay as they are. */
  ghost predicate RoomToStore(c: Cache, key: TileKey) {
    && c.deleting.None? && key !in c.invalidated
    && c.writeCount < MAX_PENDING_WRITES && c.writeBytes < MAX_PENDING_WRITE_BYTES
  }

  /** A stopped or finished write ends, and its callback clears the marker the deletion has set. */
  lemma {:induction false} WriteClearsMarker(c: Cache, limits: Limits, id: nat)
    returns (events: seq<Event>, c': Cache)
    requires CacheOk(c, limits) && c.deleting.None? && id in c.writes && Harmless(c.writes[id])
    ensures Reaches(c, limits, events, c') && CacheOk(c', limits)
    ensures RoomToStore(c', c.writes[id].key) && c'.scheduler == c.scheduler
  {
    var end := WriteEnded(id);
    if c.writes[id].phase.Finished? {
      c' := EndWrite(c, limits, id);
      events := [end];
    } else {
      var enter := WriterEntered(id);
      StepKeeps(c, limits, enter);
      OneStep(c, limits, enter);
      var c1 := Next(c, limits, enter);
      c' := EndWrite(c1, limits, id);
      events := [enter] + [end];
      ReachesPlus(c, limits, [enter], c1, [end], c');
    }
  }

  lemma {:induction false} EndWrite(c: Cache, limits: Limits, id: nat) returns (c': Cache)
    requires CacheOk(c, limits) && c.deleting.None? && id in c.writes && c.writes[id].phase.Finished?
    ensures Reaches(c, limits, [WriteEnded(id)], c') && CacheOk(c', limits)
    ensures RoomToStore(c', c.writes[id].key) && c'.scheduler == c.scheduler
  {
    var end := WriteEnded(id);
    c' := Next(c, limits, end);
    StepKeeps(c, limits, end);
    OneStep(c, limits, end);
    assert TileOk(c.writes[id].tile, c.nextId);
  }

  lemma {:induction false} FailOne(c: Cache, limits: Limits, victim: TileKey, key: TileKey) returns (c': Cache)
    requires CacheOk(c, limits) && RoomToStore(c, key) && victim in c.scheduler.active
    ensures Reaches(c, limits, [DownloadFailed(victim)], c') && CacheOk(c', limits) && RoomToStore(c', key)
    ensures c'.scheduler == Finish(c.scheduler, limits, victim).0
  {
    var fail := DownloadFailed(victim);
    c' := Next(c, limits, fail);
    StepKeeps(c, limits, fail);
    OneStep(c, limits, fail);
  }

  /** Failing other downloads brings a queued one to its start. */
  lemma {:induction false} Drain(c: Cache, limits: Limits, d: Download, i: nat)
    returns (events: seq<Event>, c': Cache)
    requires CacheOk(c, limits) && RoomToStore(c, d.key) && limits.active >= 1
    requires i < |c.scheduler.queued| && c.scheduler.queued[i] == d
    ensures Reaches(c, limits, events, c') && CacheOk(c', limits) && RoomToStore(c', d.key)
    ensures Started(c'.scheduler, d)
    decreases i
  {
    var victim := EndMovesUp(c.scheduler, limits, i);
    var c1 := FailOne(c, limits, victim, d.key);
    if Started(c1.scheduler, d) {
      events, c' := [DownloadFailed(victim)], c1;
    } else {
      var j :| 0 <= j < i && j < |c1.scheduler.queued| && c1.scheduler.queued[j] == d;
      var rest;
      rest, c' := Drain(c1, limits, d, j);
      events := [DownloadFailed(victim)] + rest;
      ReachesPlus(c, limits, [DownloadFailed(victim)], c1, rest, c');
    }
  }

  lemma {:induction false} StartedPutsItBack(c: Cache, limits: Limits, d: Download, range: Range, epoch: nat)
    returns (c': Cache)
    requires RoomToStore(c, d.key) && Started(c.scheduler, d) && Old(d, range, epoch)
    ensures Reaches(c, limits, [Downloaded(d.key, 1, true)], c') && Resurrected(c', range, epoch)
  {
    var e := Downloaded(d.key, 1, true);
    c' := Next(c, limits, e);
    OneStep(c, limits, e);
    assert Stores(c, d.key, 1, true);
    assert d.key in c'.ram && c'.ram[d.key].author == d.id;
  }

  lemma {:induction false} KnownIsHeld(s: Scheduler, limits: Limits, key: TileKey) returns (d: Download)
    requires SchedulerOk(s, limits) && Known(s, key)
    ensures Held(s, d) && d.key == key
  {
    if key in s.active {
      d := s.active[key];
    } else {
      d :| d in s.queued && d.key == key;
    }
  }

  /** Reaches the start of a download that is active or queued. */
  lemma {:induction false} BringToStart(c: Cache, limits: Limits, d: Download)
    returns (events: seq<Event>, c': Cache)
    requires CacheOk(c, limits) && RoomToStore(c, d.key) && limits.active >= 1 && Held(c.scheduler, d)
    ensures Reaches(c, limits, events, c') && RoomToStore(c', d.key) && Started(c'.scheduler, d)
  {
    if Started(c.scheduler, d) {
      events, c' := [], c;
    } else {
      var i :| 0 <= i < |c.scheduler.queued| && c.scheduler.queued[i] == d;
      events, c' := Drain(c, limits, d, i);
    }
  }

  lemma {:induction false} BusyWritePutsItBack(c: Cache, limits: Limits, id: nat, range: Range, epoch: nat)
    returns (events: seq<Event>, c': Cache)
    requires CacheOk(c, limits) && c.deleting.None? && limits.active >= 1 && epoch == c.nextId
    requires id in c.writes && Harmless(c.writes[id]) && InRange(range, c.writes[id].key)
    requires Known(c.scheduler, c.writes[id].key)
    ensures Reaches(c, limits, events, c') && Resurrected(c', range, epoch)
  {
    var d := KnownIsHeld(c.scheduler, limits, c.writes[id].key);
    var first, c1 := WriteClearsMarker(c, limits, id);
    var second, c2 := BringToStart(c1, limits, d);
    c' := StartedPutsItBack(c2, limits, d, range, epoch);
    ReachesPlus(c1, limits, second, c2, [Downloaded(d.key, 1, true)], c');
    events := first + (second + [Downloaded(d.key, 1, true)]);
    ReachesPlus(c, limits, first, c1, second + [Downloaded(d.key, 1, true)], c');
  }

  // ---------------------------------------------------------------- the theorem

  /** From here on, no tile of the range that was fetched before the deletion is seen again. */
  ghost predicate StaysDeleted(c: Cache, limits: Limits, range: Range, epoch: nat) {
    forall events: seq<Event>, c': Cache :: Reaches(c, limits, events, c') ==> !Resurrected(c', range, epoch)
  }

  lemma {:induction false} LeakPutsItBack(c: Cache, limits: Limits, range: Range, id: nat)
    requires CacheOk(c, limits) && limits.active >= 1
    requires c.deleting == Some(range) && WritersAreOut(c, range)
    requires id in c.writes && Leaks(c, range, id)
    ensures !StaysDeleted(DeleteSweeps(c, range, {}), limits, range, c.nextId)
  {
    var c1 := DeleteSweeps(c, range, {});
    StepKeeps(c, limits, DeletionSwept({}));
    assert TileOk(c.writes[id].tile, c.nextId);
    var events, c';
    if Harmless(c.writes[id]) {
      events, c' := BusyWritePutsItBack(c1, limits, id, range, c.nextId);
    } else {
      events, c' := UnstoppedWritePutsItBack(c1, limits, id, range, c.nextId);
    }
  }

  /**
   * A successful deletion is final exactly when, at its sweep, no tile of the range has an
   * unfinished write that is not stopped, nor an unfinished write beside an active or queued download.
   */
  lemma {:induction false} DeletionIsFinalIff(limits: Limits, before: seq<Event>, c: Cache, range: Range)
    requires limits.active >= 1 && Reaches(FRESH, limits, before, c)
    requires c.deleting == Some(range) && WritersAreOut(c, range)
    ensures StaysDeleted(DeleteSweeps(c, range, {}), limits, range, c.nextId) <==> !Leaky(c, range)
  {
    FreshOk(limits);
    RunKeeps(FRESH, limits, before, c);
    if Leaky(c, range) {
      var id :| id in c.writes && Leaks(c, range, id);
      LeakPutsItBack(c, limits, range, id);
    } else {
      var c1 := DeleteSweeps(c, range, {});
      StepKeeps(c, limits, DeletionSwept({}));
      SweepIsClean(c, limits, range);
      forall events: seq<Event>, c': Cache | Reaches(c1, limits, events, c') ensures !Resurrected(c', range, c.nextId) {
        CleanRunsStayClean(c1, limits, events, c', range, c.nextId);
      }
    }
  }
}
