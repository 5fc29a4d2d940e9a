/**
 * The download queue of src/lib/maptiles.cpp: a bounded active set, at most six active downloads
 * an origin, and a first-in first-out queue that skips downloads of saturated origins.
 */
module TileScheduler {
  import opened MapSum

  const MAX_ACTIVE_PER_ORIGIN: int := 6

  datatype TileKey = TileKey(provider: string, zoom: int, x: int, y: int)

  /** Scheme, host and port of an upstream. */
  datatype Origin = Origin(text: string)

  /** The key a response is announced under; library callers may ask without one. */
  datatype ResponseKey = NoResponse | ResponseKey(text: string)

  /** `id` numbers the requests in the order they came; the source has no such field. */
  datatype Download = Download(key: TileKey, origin: Origin, response: ResponseKey, id: nat)

  /** `joined` holds the response keys of later requests for a download that is active or queued. */
  datatype Scheduler = Scheduler(
    active: map<TileKey, Download>,
    perOrigin: map<Origin, int>,
    queued: seq<Download>,
    queuedKeys: set<TileKey>,
    joined: map<TileKey, seq<ResponseKey>>)

  datatype Limits = Limits(active: nat, queued: nat)

  const IDLE := Scheduler(map[], map[], [], {}, map[])

  function ActiveOf(s: Scheduler, origin: Origin): int {
    if origin in s.perOrigin then s.perOrigin[origin] else 0
  }

  predicate CanStart(s: Scheduler, limits: Limits, d: Download) {
    |s.active| < limits.active && ActiveOf(s, d.origin) < MAX_ACTIVE_PER_ORIGIN
  }

  function MarkStarted(s: Scheduler, d: Download): Scheduler {
    s.(active := s.active[d.key := d], perOrigin := s.perOrigin[d.origin := ActiveOf(s, d.origin) + 1])
  }

  function MarkFinished(s: Scheduler, d: Download): Scheduler {
    var remaining := ActiveOf(s, d.origin) - 1;
    s.(active := s.active - {d.key},
       perOrigin := if remaining > 0 then s.perOrigin[d.origin := remaining] else s.perOrigin - {d.origin})
  }

  function Joined(s: Scheduler, key: TileKey): seq<ResponseKey> {
    if key in s.joined then s.joined[key] else []
  }

  /** The download's own response key and those that joined it, each once. */
  function ResponseKeys(s: Scheduler, d: Download): (keys: seq<ResponseKey>) {
    AddMissing(if d.response.NoResponse? then [] else [d.response], Joined(s, d.key))
  }

  function AddMissing(keys: seq<ResponseKey>, more: seq<ResponseKey>): seq<ResponseKey>
    decreases |more|
  {
    if more == [] then keys
    else AddMissing(if more[0] in keys then keys else keys + [more[0]], more[1..])
  }

  function ForgetJoined(s: Scheduler, key: TileKey): Scheduler {
    s.(joined := s.joined - {key})
  }

  // ---------------------------------------------------------------- scheduling

  predicate Known(s: Scheduler, key: TileKey) {
    key in s.active || key in s.queuedKeys
  }

  function Join(s: Scheduler, d: Download): Scheduler {
    if d.response.NoResponse? || d.response in Joined(s, d.key) then s
    else s.(joined := s.joined[d.key := Joined(s, d.key) + [d.response]])
  }

  function Enqueue(s: Scheduler, d: Download): Scheduler {
    s.(queued := s.queued + [d], queuedKeys := s.queuedKeys + {d.key})
  }

  predicate QueueFull(s: Scheduler, limits: Limits, d: Download) {
    !Known(s, d.key) && !CanStart(s, limits, d) && |s.queued| >= limits.queued
  }

  function Schedule(s: Scheduler, limits: Limits, d: Download): Scheduler {
    if Known(s, d.key) then Join(s, d)
    else if CanStart(s, limits, d) then MarkStarted(s, d)
    else if QueueFull(s, limits, d) then s
    else Enqueue(s, d)
  }

  /** The first queued download that may start, or the queue length when none may. */
  function FirstEligible(s: Scheduler, limits: Limits, from: nat): (index: nat)
    requires from <= |s.queued|
    ensures from <= index <= |s.queued|
    ensures forall i :: from <= i < index ==> !CanStart(s, limits, s.queued[i])
    ensures index < |s.queued| ==> CanStart(s, limits, s.queued[index])
    decreases |s.queued| - from
  {
    if from == |s.queued| || CanStart(s, limits, s.queued[from]) then from
    else FirstEligible(s, limits, from + 1)
  }

  function Without<T>(list: seq<T>, index: nat): seq<T>
    requires index < |list|
  {
    list[..index] + list[index + 1..]
  }

  function StartAt(s: Scheduler, index: nat): Scheduler
    requires index < |s.queued|
  {
    var d := s.queued[index];
    MarkStarted(s.(queued := Without(s.queued, index), queuedKeys := s.queuedKeys - {d.key}), d)
  }

  /** startQueuedDownloads: the state after, and the downloads started, in order. */
  function StartQueued(s: Scheduler, limits: Limits): (Scheduler, seq<Download>)
    decreases |s.queued|
  {
    var index := FirstEligible(s, limits, 0);
    if index == |s.queued| then (s, [])
    else
      var (s', started) := StartQueued(StartAt(s, index), limits);
      (s', [s.queued[index]] + started)
  }

  /** The end of an active download, successful or not, up to and including the restart of the queue. */
  function Finish(s: Scheduler, limits: Limits, key: TileKey): (Scheduler, seq<Download>)
    requires key in s.active
  {
    StartQueued(ForgetJoined(MarkFinished(s, s.active[key]), key), limits)
  }

  /** The response keys of all queued downloads, as cancelUpstreamDownloads collects them. */
  function QueuedResponses(s: Scheduler, queued: seq<Download>): seq<ResponseKey> {
    if queued == [] then [] else ResponseKeys(s, queued[0]) + QueuedResponses(s, queued[1..])
  }

  function KeysOf(queued: seq<Download>): set<TileKey> {
    set d | d in queued :: d.key
  }

  function CancelQueued(s: Scheduler): Scheduler {
    s.(queued := [], queuedKeys := {}, joined := s.joined - KeysOf(s.queued))
  }

  // ---------------------------------------------------------------- the invariant

  function OriginWeight(origin: Origin): Download -> int {
    (d: Download) => if d.origin == origin then 1 else 0
  }

  ghost predicate DistinctKeys(queued: seq<Download>) {
    forall i, j :: 0 <= i < j < |queued| ==> queued[i].key != queued[j].key
  }

  /** Counted so far: the per-origin counters are exactly the active downloads of that origin. */
  ghost predicate CountsExact(s: Scheduler) {
    forall origin :: ActiveOf(s, origin) == Sum(s.active, OriginWeight(origin))
  }

  ghost predicate CountsBounded(s: Scheduler) {
    forall origin :: origin in s.perOrigin ==> 1 <= s.perOrigin[origin] <= MAX_ACTIVE_PER_ORIGIN
  }

  ghost predicate ActiveOk(s: Scheduler, limits: Limits) {
    && (forall key :: key in s.active ==> s.active[key].key == key)
    && |s.active| <= limits.active
    && CountsExact(s)
    && CountsBounded(s)
  }

  ghost predicate QueueOk(s: Scheduler, limits: Limits) {
    && DistinctKeys(s.queued)
    && s.queuedKeys == KeysOf(s.queued)
    && s.queuedKeys !! s.active.Keys
    && |s.queued| <= limits.queued
    && s.joined.Keys <= s.active.Keys + s.queuedKeys
  }

  ghost predicate NoneStartable(s: Scheduler, limits: Limits) {
    forall i :: 0 <= i < |s.queued| ==> !CanStart(s, limits, s.queued[i])
  }

  ghost predicate SchedulerOk(s: Scheduler, limits: Limits) {
    ActiveOk(s, limits) && QueueOk(s, limits)
  }

  lemma {:induction false} StartedCounts(s: Scheduler, d: Download)
    requires CountsExact(s) && d.key !in s.active
    ensures CountsExact(MarkStarted(s, d))
  {
    var s' := MarkStarted(s, d);
    forall origin
      ensures ActiveOf(s', origin) == Sum(s'.active, OriginWeight(origin))
    {
      SumPut(s.active, d.key, d, OriginWeight(origin));
      assert ActiveOf(s, origin) == Sum(s.active, OriginWeight(origin));
    }
  }

  lemma {:induction false} FinishedCounts(s: Scheduler, key: TileKey)
    requires CountsExact(s) && key in s.active && ActiveOf(s, s.active[key].origin) >= 1
    ensures CountsExact(MarkFinished(s, s.active[key].(key := key)))
  {
    var d := s.active[key];
    var s' := MarkFinished(s, d.(key := key));
    forall origin
      ensures ActiveOf(s', origin) == Sum(s'.active, OriginWeight(origin))
    {
      SumRemove(s.active, key, OriginWeight(origin));
      assert ActiveOf(s, origin) == Sum(s.active, OriginWeight(origin));
    }
  }

  lemma {:induction false} CountsAreNatural(s: Scheduler, key: TileKey)
    requires CountsExact(s)
    ensures forall origin :: ActiveOf(s, origin) >= 0
    ensures key in s.active ==> ActiveOf(s, s.active[key].origin) >= 1
  {
    forall origin
      ensures ActiveOf(s, origin) >= 0
      ensures key in s.active && s.active[key].origin == origin ==> ActiveOf(s, origin) >= 1
    {
      SumBounds(s.active, key, OriginWeight(origin));
      assert ActiveOf(s, origin) == Sum(s.active, OriginWeight(origin));
    }
  }

  lemma MapGrows(m: map<TileKey, Download>, d: Download)
    requires d.key !in m
    ensures |m[d.key := d]| == |m| + 1
  {
    assert m[d.key := d].Keys == m.Keys + {d.key};
    assert |m[d.key := d]| == |m[d.key := d].Keys| && |m| == |m.Keys|;
  }

  lemma MapShrinks(m: map<TileKey, Download>, key: TileKey)
    requires key in m
    ensures |m - {key}| == |m| - 1
  {
    assert m.Keys == (m - {key}).Keys + {key};
    assert |m - {key}| == |(m - {key}).Keys| && |m| == |m.Keys|;
  }

  lemma {:induction false} StartKeeps(s: Scheduler, limits: Limits, d: Download)
    requires ActiveOk(s, limits) && CanStart(s, limits, d) && d.key !in s.active
    ensures ActiveOk(MarkStarted(s, d), limits)
  {
    StartedCounts(s, d);
    CountsAreNatural(s, d.key);
    MapGrows(s.active, d);
  }

  lemma {:induction false} FinishMarkKeeps(s: Scheduler, limits: Limits, key: TileKey)
    requires ActiveOk(s, limits) && key in s.active
    ensures ActiveOk(MarkFinished(s, s.active[key]), limits)
  {
    CountsAreNatural(s, key);
    FinishedCounts(s, key);
    MapShrinks(s.active, key);
  }

  lemma {:induction false} WithoutKeys(queued: seq<Download>, index: nat)
    requires index < |queued| && DistinctKeys(queued)
    ensures DistinctKeys(Without(queued, index))
    ensures KeysOf(Without(queued, index)) == KeysOf(queued) - {queued[index].key}
  {
    var rest := Without(queued, index);
    forall i | 0 <= i < |queued| && i != index
      ensures queued[i] in rest
    {
      assert queued[i] == rest[if i < index then i else i - 1];
    }
  }

  lemma {:induction false} StartAtKeepsActive(s: Scheduler, limits: Limits, index: nat)
    requires ActiveOk(s, limits) && index < |s.queued| && CanStart(s, limits, s.queued[index])
    requires s.queued[index].key !in s.active
    ensures ActiveOk(StartAt(s, index), limits)
  {
    var d := s.queued[index];
    var s1 := s.(queued := Without(s.queued, index), queuedKeys := s.queuedKeys - {d.key});
    assert forall origin :: ActiveOf(s1, origin) == ActiveOf(s, origin);
    assert CountsExact(s1);
    StartKeeps(s1, limits, d);
  }

  lemma {:induction false} StartAtKeepsQueue(s: Scheduler, limits: Limits, index: nat)
    requires QueueOk(s, limits) && index < |s.queued|
    ensures QueueOk(StartAt(s, index), limits)
  {
    assert s.queued[index].key in s.queuedKeys;
    WithoutKeys(s.queued, index);
  }

  lemma {:induction false} StartAtKeeps(s: Scheduler, limits: Limits, index: nat)
    requires SchedulerOk(s, limits) && index < |s.queued| && CanStart(s, limits, s.queued[index])
    ensures SchedulerOk(StartAt(s, index), limits)
  {
    assert s.queued[index].key in s.queuedKeys;
    StartAtKeepsActive(s, limits, index);
    StartAtKeepsQueue(s, limits, index);
  }

  lemma {:induction false} StartQueuedKeepsOk(s: Scheduler, limits: Limits, s': Scheduler)
    requires SchedulerOk(s, limits) && s' == StartQueued(s, limits).0
    ensures SchedulerOk(s', limits)
    decreases |s.queued|
  {
    var index := FirstEligible(s, limits, 0);
    if index < |s.queued| {
      StartAtKeeps(s, limits, index);
      StartQueuedKeepsOk(StartAt(s, index), limits, s');
    }
  }

  lemma {:induction false} StartQueuedLeavesNone(s: Scheduler, limits: Limits)
    ensures NoneStartable(StartQueued(s, limits).0, limits)
    decreases |s.queued|
  {
    var index := FirstEligible(s, limits, 0);
    if index < |s.queued| {
      StartQueuedLeavesNone(StartAt(s, index), limits);
    }
  }

  /** However many downloads a slot frees, the limits hold and nothing startable is left behind. */
  lemma {:induction false} StartQueuedKeeps(s: Scheduler, limits: Limits)
    requires SchedulerOk(s, limits)
    ensures SchedulerOk(StartQueued(s, limits).0, limits)
    ensures NoneStartable(StartQueued(s, limits).0, limits)
  {
    StartQueuedKeepsOk(s, limits, StartQueued(s, limits).0);
    StartQueuedLeavesNone(s, limits);
  }

  lemma {:induction false} EnqueueKeeps(s: Scheduler, limits: Limits, d: Download)
    requires QueueOk(s, limits) && !Known(s, d.key) && |s.queued| < limits.queued
    ensures QueueOk(Enqueue(s, d), limits)
  {
    assert forall i :: 0 <= i < |s.queued| ==> s.queued[i] in s.queued && s.queued[i].key in s.queuedKeys;
    assert KeysOf(s.queued + [d]) == KeysOf(s.queued) + {d.key};
  }

  lemma {:induction false} SameActive(s: Scheduler, s': Scheduler, limits: Limits)
    requires ActiveOk(s, limits) && s'.active == s.active && s'.perOrigin == s.perOrigin
    ensures ActiveOk(s', limits)
  {
    assert forall origin :: ActiveOf(s', origin) == ActiveOf(s, origin);
    assert CountsExact(s');
  }

  lemma {:induction false} ScheduleKeepsActive(s: Scheduler, limits: Limits, d: Download)
    requires ActiveOk(s, limits)
    ensures ActiveOk(Schedule(s, limits, d), limits)
  {
    if !Known(s, d.key) && CanStart(s, limits, d) {
      StartKeeps(s, limits, d);
    } else {
      SameActive(s, Schedule(s, limits, d), limits);
    }
  }

  lemma {:induction false} ScheduleKeepsQueue(s: Scheduler, limits: Limits, d: Download)
    requires QueueOk(s, limits)
    ensures QueueOk(Schedule(s, limits, d), limits)
  {
    if !Known(s, d.key) && !CanStart(s, limits, d) && |s.queued| < limits.queued {
      EnqueueKeeps(s, limits, d);
    }
  }

  lemma {:induction false} ScheduleKeepsOk(s: Scheduler, limits: Limits, d: Download)
    requires SchedulerOk(s, limits)
    ensures SchedulerOk(Schedule(s, limits, d), limits)
  {
    ScheduleKeepsActive(s, limits, d);
    ScheduleKeepsQueue(s, limits, d);
  }

  lemma {:induction false} ScheduleLeavesNone(s: Scheduler, limits: Limits, d: Download)
    requires NoneStartable(s, limits)
    ensures NoneStartable(Schedule(s, limits, d), limits)
  {
    if !Known(s, d.key) && CanStart(s, limits, d) {
      var s' := MarkStarted(s, d);
      assert s'.active.Keys >= s.active.Keys;
      assert |s'.active| >= |s.active| by {
        MapGrows(s.active, d);
        assert |s'.active| == |s'.active.Keys| && |s.active| == |s.active.Keys|;
      }
      forall i | 0 <= i < |s'.queued| ensures !CanStart(s', limits, s'.queued[i]) {
        assert !CanStart(s, limits, s.queued[i]);
      }
    }
  }

  lemma {:induction false} FinishKeeps(s: Scheduler, limits: Limits, key: TileKey)
    requires SchedulerOk(s, limits) && key in s.active
    ensures SchedulerOk(Finish(s, limits, key).0, limits)
    ensures NoneStartable(Finish(s, limits, key).0, limits)
  {
    FinishMarkKeeps(s, limits, key);
    var s1 := ForgetJoined(MarkFinished(s, s.active[key]), key);
    SameActive(MarkFinished(s, s.active[key]), s1, limits);
    StartQueuedKeeps(s1, limits);
  }

  lemma {:induction false} CancelKeeps(s: Scheduler, limits: Limits)
    requires SchedulerOk(s, limits)
    ensures SchedulerOk(CancelQueued(s), limits) && NoneStartable(CancelQueued(s), limits)
  {
    SameActive(s, CancelQueued(s), limits);
  }
}
