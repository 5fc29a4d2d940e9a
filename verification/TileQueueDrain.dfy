/** Why a queued download can always be brought to its start: each end of a well-chosen download moves it up. */
module TileQueueDrain {
  import opened MapSum
  import opened TileScheduler

  ghost predicate Started(s: Scheduler, d: Download) {
    d.key in s.active && s.active[d.key] == d
  }

  /** Started already, or among the first `places` of the queue. */
  ghost predicate Ahead(s: Scheduler, d: Download, places: nat) {
    Started(s, d) || exists j :: 0 <= j < places && j < |s.queued| && s.queued[j] == d
  }

  lemma {:induction false} StartAtKeepsAhead(s: Scheduler, limits: Limits, index: nat, d: Download, places: nat)
    requires QueueOk(s, limits) && index < |s.queued| && Ahead(s, d, places)
    ensures Ahead(StartAt(s, index), d, places)
  {
    var s' := StartAt(s, index);
    assert s.queued[index].key in s.queuedKeys;
    if !Started(s, d) {
      var j :| 0 <= j < places && j < |s.queued| && s.queued[j] == d;
      if j != index {
        assert s'.queued[if j < index then j else j - 1] == d;
      }
    }
  }

  lemma {:induction false} StartAtMovesUp(s: Scheduler, index: nat, i: nat)
    requires index <= i < |s.queued|
    ensures Ahead(StartAt(s, index), s.queued[i], i)
  {
    var s' := StartAt(s, index);
    if index < i {
      assert s'.queued[i - 1] == s.queued[i];
    }
  }

  lemma {:induction false} StartQueuedKeepsAhead(s: Scheduler, limits: Limits, d: Download, places: nat)
    requires SchedulerOk(s, limits) && Ahead(s, d, places)
    ensures Ahead(StartQueued(s, limits).0, d, places)
    decreases |s.queued|
  {
    var index := FirstEligible(s, limits, 0);
    if index < |s.queued| {
      StartAtKeepsAhead(s, limits, index, d, places);
      StartAtKeeps(s, limits, index);
      StartQueuedKeepsAhead(StartAt(s, index), limits, d, places);
    }
  }

  /** When the download at place i may start, it does, or one before it does and it moves up. */
  lemma {:induction false} EligibleMovesUp(s: Scheduler, limits: Limits, i: nat)
    requires SchedulerOk(s, limits) && i < |s.queued| && CanStart(s, limits, s.queued[i])
    ensures Ahead(StartQueued(s, limits).0, s.queued[i], i)
  {
    var index := FirstEligible(s, limits, 0);
    StartAtMovesUp(s, index, i);
    StartAtKeeps(s, limits, index);
    StartQueuedKeepsAhead(StartAt(s, index), limits, s.queued[i], i);
  }

  lemma {:induction false} VictimMakesRoom(s: Scheduler, limits: Limits, key: TileKey, d: Download)
    requires key in s.active && |s.active| <= limits.active && ActiveOf(s, d.origin) <= MAX_ACTIVE_PER_ORIGIN
    requires ActiveOf(s, d.origin) < MAX_ACTIVE_PER_ORIGIN || s.active[key].origin == d.origin
    ensures CanStart(MarkFinished(s, s.active[key].(key := key)), limits, d)
  {
    MapShrinks(s.active, key);
  }

  /** The download whose end makes room for d: one of its origin when that is saturated, else any. */
  lemma {:induction false} Victim(s: Scheduler, limits: Limits, d: Download) returns (key: TileKey)
    requires SchedulerOk(s, limits) && limits.active >= 1 && !CanStart(s, limits, d)
    ensures key in s.active
    ensures CanStart(MarkFinished(s, s.active[key]), limits, d)
  {
    assert ActiveOf(s, d.origin) == Sum(s.active, OriginWeight(d.origin));
    if ActiveOf(s, d.origin) >= MAX_ACTIVE_PER_ORIGIN {
      key := SumPositive(s.active, OriginWeight(d.origin));
    } else {
      assert |s.active.Keys| == |s.active| >= 1;
      assert s.active.Keys != {};
      key :| key in s.active;
    }
    VictimMakesRoom(s, limits, key, d);
  }

  /** One end brings the queued download at place i to its start or at least one place up. */
  lemma {:induction false} EndMovesUp(s: Scheduler, limits: Limits, i: nat) returns (victim: TileKey)
    requires SchedulerOk(s, limits) && NoneStartable(s, limits) && limits.active >= 1 && i < |s.queued|
    ensures victim in s.active
    ensures Ahead(Finish(s, limits, victim).0, s.queued[i], i)
  {
    var d := s.queued[i];
    victim := Victim(s, limits, d);
    FinishMarkKeeps(s, limits, victim);
    var s1 := ForgetJoined(MarkFinished(s, s.active[victim]), victim);
    SameActive(MarkFinished(s, s.active[victim]), s1, limits);
    EligibleMovesUp(s1, limits, i);
  }
}
