/** The download queue as the object updates it, each method against the function that specifies it. */
module TileQueue {
  import opened TileScheduler

  datatype ScheduleStatus = Scheduled | QueueFullStatus

  class DownloadQueue {
    const limits: Limits
    var active: map<TileKey, Download>
    var perOrigin: map<Origin, int>
    var queued: seq<Download>
    var queuedKeys: set<TileKey>
    var joined: map<TileKey, seq<ResponseKey>>

    ghost function Now(): Scheduler
      reads this
    {
      Scheduler(active, perOrigin, queued, queuedKeys, joined)
    }

    constructor (limits: Limits)
      ensures Now() == IDLE && this.limits == limits
    {
      this.limits := limits;
      active, perOrigin, queued, queuedKeys, joined := map[], map[], [], {}, map[];
    }

    predicate CanStartDownload(d: Download)
      reads this
      ensures CanStartDownload(d) <==> CanStart(Now(), limits, d)
    {
      && |active| < limits.active
      && (if d.origin in perOrigin then perOrigin[d.origin] else 0) < MAX_ACTIVE_PER_ORIGIN
    }

    method MarkDownloadStarted(d: Download)
      modifies this`active, this`perOrigin
      ensures Now() == MarkStarted(old(Now()), d)
    {
      active := active[d.key := d];
      perOrigin := perOrigin[d.origin := (if d.origin in perOrigin then perOrigin[d.origin] else 0) + 1];
    }

    method MarkDownloadFinished(d: Download)
      modifies this`active, this`perOrigin
      ensures Now() == MarkFinished(old(Now()), d)
    {
      active := active - {d.key};
      var remaining := (if d.origin in perOrigin then perOrigin[d.origin] else 0) - 1;
      if remaining > 0 {
        perOrigin := perOrigin[d.origin := remaining];
      } else {
        perOrigin := perOrigin - {d.origin};
      }
    }

    method TakeResponseKeys(d: Download) returns (keys: seq<ResponseKey>)
      modifies this`joined
      ensures keys == ResponseKeys(old(Now()), d)
      ensures Now() == ForgetJoined(old(Now()), d.key)
    {
      keys := if d.response.NoResponse? then [] else [d.response];
      var waiting := if d.key in joined then joined[d.key] else [];
      joined := joined - {d.key};
      ghost var all := AddMissing(keys, waiting);
      var i := 0;
      while i < |waiting|
        invariant 0 <= i <= |waiting|
        invariant all == AddMissing(keys, waiting[i..])
        invariant Now() == ForgetJoined(old(Now()), d.key)
      {
        if waiting[i] !in keys {
          keys := keys + [waiting[i]];
        }
        i := i + 1;
      }
    }

    method ScheduleMapTileDownload(d: Download) returns (status: ScheduleStatus)
      modifies this
      ensures Now() == Schedule(old(Now()), limits, d)
      ensures status.QueueFullStatus? <==> QueueFull(old(Now()), limits, d)
      ensures status.QueueFullStatus? <==> (&& d.key !in old(active) && d.key !in old(queuedKeys)
                                            && (|old(active)| >= limits.active || ActiveOf(old(Now()), d.origin) >= MAX_ACTIVE_PER_ORIGIN)
                                            && |old(queued)| >= limits.queued)
    {
      if d.key in active || d.key in queuedKeys {
        if !d.response.NoResponse? {
          var waiting := if d.key in joined then joined[d.key] else [];
          if d.response !in waiting {
            joined := joined[d.key := waiting + [d.response]];
          }
        }
        return Scheduled;
      }
      if CanStartDownload(d) {
        MarkDownloadStarted(d);
      } else {
        if |queued| >= limits.queued {
          return QueueFullStatus;
        }
        queued := queued + [d];
        queuedKeys := queuedKeys + {d.key};
      }
      return Scheduled;
    }

    /** The scan for the first queued download that may start; -1 when there is none. */
    method EligibleIndex() returns (eligible: int)
      ensures FirstEligible(Now(), limits, 0) == if eligible < 0 then |queued| else eligible
      ensures eligible < |queued|
    {
      var index := 0;
      while index < |queued|
        invariant 0 <= index <= |queued|
        invariant FirstEligible(Now(), limits, 0) == FirstEligible(Now(), limits, index)
      {
        if CanStartDownload(queued[index]) {
          return index;
        }
        index := index + 1;
      }
      return -1;
    }

    method StartEligible(index: nat) returns (d: Download)
      requires index < |queued|
      modifies this
      ensures d == old(queued)[index] && Now() == StartAt(old(Now()), index)
    {
      d := queued[index];
      queued := queued[..index] + queued[index + 1..];
      queuedKeys := queuedKeys - {d.key};
      MarkDownloadStarted(d);
    }

    /** One turn of the restart: starts the first eligible download, or nothing when none is. */
    method StartNext() returns (started: seq<Download>)
      modifies this
      ensures StartQueued(old(Now()), limits).0 == StartQueued(Now(), limits).0
      ensures StartQueued(old(Now()), limits).1 == started + StartQueued(Now(), limits).1
      ensures if started == [] then StartQueued(Now(), limits) == (Now(), []) else |queued| < old(|queued|)
    {
      var index := EligibleIndex();
      if index < 0 {
        return [];
      }
      var d := StartEligible(index);
      return [d];
    }

    method StartQueuedDownloads() returns (toStart: seq<Download>)
      modifies this
      ensures Now() == StartQueued(old(Now()), limits).0
      ensures toStart == StartQueued(old(Now()), limits).1
    {
      toStart := [];
      ghost var before := Now();
      while |active| < limits.active && queued != []
        invariant StartQueued(before, limits).0 == StartQueued(Now(), limits).0
        invariant StartQueued(before, limits).1 == toStart + StartQueued(Now(), limits).1
        decreases |queued|
      {
        var started := StartNext();
        JoinLists(toStart, started, StartQueued(Now(), limits).1);
        toStart := toStart + started;
        if started == [] {
          return;
        }
      }
      NothingToStart(Now(), limits);
    }

    /** The end of a download: who to answer, and which downloads the freed slot starts. */
    method DownloadEnded(key: TileKey) returns (responses: seq<ResponseKey>, toStart: seq<Download>)
      requires key in active && active[key].key == key
      modifies this
      ensures responses == ResponseKeys(old(Now()), old(active[key]))
      ensures Now() == Finish(old(Now()), limits, key).0 && toStart == Finish(old(Now()), limits, key).1
    {
      var d := active[key];
      MarkDownloadFinished(d);
      responses := TakeResponseKeys(d);
      toStart := StartQueuedDownloads();
    }

    /** One turn of the cancellation: the first queued download leaves with its response keys. */
    method CancelFirst(ghost before: Scheduler, ghost taken: nat) returns (keys: seq<ResponseKey>)
      requires taken < |before.queued| && DistinctKeys(before.queued)
      requires Now() == Cancelling(before, taken)
      modifies this`queued, this`joined
      ensures Now() == Cancelling(before, taken + 1)
      ensures QueuedResponses(before, old(queued)) == keys + QueuedResponses(before, queued)
    {
      KeysOfNext(before.queued, taken);
      var d := queued[0];
      queued := queued[1..];
      SameResponses(Now(), before, d);
      keys := TakeResponseKeys(d);
    }

    method CancelQueuedDownloads() returns (responses: seq<ResponseKey>)
      requires DistinctKeys(queued)
      modifies this
      ensures Now() == CancelQueued(old(Now()))
      ensures responses == QueuedResponses(old(Now()), old(queued))
    {
      responses := [];
      ghost var before := Now();
      ghost var taken := 0;
      assert Now() == Cancelling(before, 0);
      while queued != []
        invariant 0 <= taken <= |before.queued| && Now() == Cancelling(before, taken)
        invariant QueuedResponses(before, before.queued) == responses + QueuedResponses(before, queued)
        decreases |queued|
      {
        var keys := CancelFirst(before, taken);
        JoinLists(responses, keys, QueuedResponses(before, queued));
        responses := responses + keys;
        taken := taken + 1;
      }
      assert before.queued[..taken] == before.queued;
      queuedKeys := {};
    }
  }

  lemma NothingToStart(s: Scheduler, limits: Limits)
    requires |s.active| >= limits.active || s.queued == []
    ensures StartQueued(s, limits) == (s, [])
  {
  }

  lemma JoinLists<T>(a: seq<T>, b: seq<T>, c: seq<T>)
    ensures a + (b + c) == a + b + c
  {
  }

  /** The state after `taken` queued downloads were given up, before the key set is cleared. */
  function Cancelling(s: Scheduler, taken: nat): Scheduler
    requires taken <= |s.queued|
  {
    s.(queued := s.queued[taken..], joined := s.joined - KeysOf(s.queued[..taken]))
  }

  lemma {:induction false} KeysOfNext(queued: seq<Download>, taken: nat)
    requires taken < |queued| && DistinctKeys(queued)
    ensures KeysOf(queued[..taken + 1]) == KeysOf(queued[..taken]) + {queued[taken].key}
    ensures queued[taken].key !in KeysOf(queued[..taken])
    ensures queued[taken..] == [queued[taken]] + queued[taken + 1..]
  {
    assert queued[..taken + 1] == queued[..taken] + [queued[taken]];
    var before := queued[..taken];
    forall d | d in before ensures d.key != queued[taken].key {
      var i :| 0 <= i < |before| && before[i] == d;
      assert queued[i].key != queued[taken].key;
    }
  }

  lemma SameResponses(s: Scheduler, s': Scheduler, d: Download)
    requires Joined(s, d.key) == Joined(s', d.key)
    ensures ResponseKeys(s, d) == ResponseKeys(s', d)
  {
  }
}
