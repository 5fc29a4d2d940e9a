/**
 * What becomes of a download request: it joins a download of its tile, starts, waits at the end of the
 * queue, or is refused, and exactly when each of these happens.
 */
module TileQueueAdmission {
  import opened MapSum
  import opened TileScheduler
  import opened TileSchedulerRuns

  function ActiveFrom(active: map<TileKey, Download>, origin: Origin): set<TileKey> {
    set key | key in active && active[key].origin == origin
  }

  /** Active and queued downloads, whatever the bookkeeping says. */
  ghost predicate UnderWay(s: Scheduler, key: TileKey) {
    key in s.active || exists d :: d in s.queued && d.key == key
  }

  /** No slot is free, or six active downloads come from the origin. */
  predicate Saturated(s: Scheduler, limits: Limits, origin: Origin) {
    |s.active| >= limits.active || |ActiveFrom(s.active, origin)| >= 6
  }

  lemma OneLess(active: map<TileKey, Download>, key: TileKey, origin: Origin)
    requires key in active
    ensures |ActiveFrom(active, origin)|
            == |ActiveFrom(active - {key}, origin)| + if active[key].origin == origin then 1 else 0
  {
    var rest := ActiveFrom(active - {key}, origin);
    assert key !in rest;
    if active[key].origin == origin {
      assert ActiveFrom(active, origin) == rest + {key};
    } else {
      assert ActiveFrom(active, origin) == rest;
    }
  }

  lemma {:induction false} SumIsCount(active: map<TileKey, Download>, origin: Origin, weight: Download -> int)
    requires forall d :: weight(d) == if d.origin == origin then 1 else 0
    ensures Sum(active, weight) == |ActiveFrom(active, origin)|
    decreases |active|
  {
    if active == map[] {
      assert ActiveFrom(active, origin) == {};
    } else {
      var key :| key in active;
      SumRemove(active, key, weight);
      SumIsCount(active - {key}, origin, weight);
      OneLess(active, key, origin);
    }
  }

  /** The counters and key sets are what they stand for, as far as this request is concerned. */
  ghost predicate Exact(s: Scheduler, limits: Limits, key: TileKey, origin: Origin) {
    && (key in s.active || key in s.queuedKeys <==> UnderWay(s, key))
    && (|s.active| < limits.active && ActiveOf(s, origin) < 6 <==> !Saturated(s, limits, origin))
    && |s.queued| <= limits.queued
  }

  lemma {:induction false} CountersAreTrue(s: Scheduler, limits: Limits, key: TileKey, origin: Origin)
    requires SchedulerOk(s, limits)
    ensures Exact(s, limits, key, origin)
  {
    SumIsCount(s.active, origin, OriginWeight(origin));
    assert ActiveOf(s, origin) == Sum(s.active, OriginWeight(origin));
  }

  lemma {:induction false} BookkeepingIsExact(limits: Limits, events: seq<Event>, r: Run, key: TileKey, origin: Origin)
    requires Reaches(EMPTY_RUN, limits, events, r)
    ensures Exact(r.s, limits, key, origin)
  {
    EmptyOk(limits);
    ReachableOkFrom(EMPTY_RUN, limits, events, r);
    CountersAreTrue(r.s, limits, key, origin);
  }

  /** The tile is not under way, the download cannot start, and the queue is at its limit. */
  ghost predicate MustRefuse(s: Scheduler, limits: Limits, key: TileKey, origin: Origin) {
    !UnderWay(s, key) && Saturated(s, limits, origin) && |s.queued| == limits.queued
  }

  /** The request was neither taken on nor counted to a download under way. */
  ghost predicate Refused(r: Run, r': Run, key: TileKey) {
    && !UnderWay(r'.s, key)
    && r'.s == r.s && r'.accepted == r.accepted && r'.started == r.started
  }

  /**
   * In every reachable run a request is refused if and only if its tile is not under way, it cannot
   * start, and the queue is at its limit.
   */
  lemma {:induction false} RefusedIff(limits: Limits, events: seq<Event>, r: Run, key: TileKey, origin: Origin, response: ResponseKey)
    requires Reaches(EMPTY_RUN, limits, events, r)
    ensures Refused(r, Next(r, limits, Requested(key, origin, response)), key)
            <==> MustRefuse(r.s, limits, key, origin)
  {
    BookkeepingIsExact(limits, events, r, key, origin);
    var r' := Next(r, limits, Requested(key, origin, response));
    if !UnderWay(r.s, key) && Saturated(r.s, limits, origin) && |r.s.queued| < limits.queued {
      Waits(limits, events, r, key, origin, response);
    }
  }

  /** A new request that can start is active at once. */
  lemma {:induction false} Starts(limits: Limits, events: seq<Event>, r: Run, key: TileKey, origin: Origin, response: ResponseKey)
    requires Reaches(EMPTY_RUN, limits, events, r) && !UnderWay(r.s, key) && !Saturated(r.s, limits, origin)
    ensures var d := Download(key, origin, response, r.next);
      var r' := Next(r, limits, Requested(key, origin, response));
      && r'.s.active == r.s.active[key := d] && r'.s.queued == r.s.queued && r'.s.joined == r.s.joined
      && r'.started == r.started + [d] && r'.accepted == r.accepted + {d}
  {
    BookkeepingIsExact(limits, events, r, key, origin);
  }

  /** A new request that cannot start is the last of the queue while there is room. */
  lemma {:induction false} Waits(limits: Limits, events: seq<Event>, r: Run, key: TileKey, origin: Origin, response: ResponseKey)
    requires Reaches(EMPTY_RUN, limits, events, r) && !UnderWay(r.s, key)
    requires Saturated(r.s, limits, origin) && |r.s.queued| < limits.queued
    ensures var d := Download(key, origin, response, r.next);
      var r' := Next(r, limits, Requested(key, origin, response));
      && r'.s.queued == r.s.queued + [d] && r'.s.active == r.s.active && r'.s.joined == r.s.joined
      && r'.started == r.started && r'.accepted == r.accepted + {d}
  {
    BookkeepingIsExact(limits, events, r, key, origin);
  }

  /** A request for a tile under way adds its response key to that download, once, and nothing else. */
  lemma {:induction false} Joins(limits: Limits, events: seq<Event>, r: Run, key: TileKey, origin: Origin, response: ResponseKey)
    requires Reaches(EMPTY_RUN, limits, events, r) && UnderWay(r.s, key)
    ensures var r' := Next(r, limits, Requested(key, origin, response));
      var waiting := if key in r.s.joined then r.s.joined[key] else [];
      && r'.s.active == r.s.active && r'.s.queued == r.s.queued && r'.started == r.started && r'.accepted == r.accepted
      && (if response.NoResponse? || response in waiting then r'.s.joined == r.s.joined
          else r'.s.joined == r.s.joined[key := waiting + [response]])
  {
    BookkeepingIsExact(limits, events, r, key, origin);
  }
}
