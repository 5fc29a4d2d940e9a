/**
 * Whole runs of the download queue. A run records which downloads were started, in order, and which
 * were given up by a cancellation, so that fairness and conservation can be stated.
 */
module TileSchedulerRuns {
  import opened MapSum
  import opened TileScheduler

  datatype Event =
    | Requested(key: TileKey, origin: Origin, response: ResponseKey)
    | Ended(key: TileKey)
    | CancelledAll

  datatype Run = Run(s: Scheduler, next: nat, accepted: set<Download>, started: seq<Download>, cancelled: set<Download>)

  const EMPTY_RUN := Run(IDLE, 0, {}, [], {})

  predicate Enabled(r: Run, e: Event) {
    e.Ended? ==> e.key in r.s.active
  }

  function Numbered(r: Run, e: Event): Download
    requires e.Requested?
  {
    Download(e.key, e.origin, e.response, r.next)
  }

  function AfterRequest(r: Run, limits: Limits, d: Download): Run {
    if Known(r.s, d.key) || QueueFull(r.s, limits, d) then
      r.(s := Schedule(r.s, limits, d), next := r.next + 1)
    else
      r.(s := Schedule(r.s, limits, d), next := r.next + 1, accepted := r.accepted + {d},
         started := if CanStart(r.s, limits, d) then r.started + [d] else r.started)
  }

  function Next(r: Run, limits: Limits, e: Event): Run
    requires Enabled(r, e)
  {
    match e
    case Requested(_, _, _) => AfterRequest(r, limits, Numbered(r, e))
    case Ended(key) =>
      var (s, started) := Finish(r.s, limits, key);
      r.(s := s, started := r.started + started)
    case CancelledAll =>
      r.(s := CancelQueued(r.s), cancelled := r.cancelled + Members(r.s.queued))
  }

  function Members(list: seq<Download>): set<Download> {
    set d | d in list
  }

  ghost predicate Reaches(r: Run, limits: Limits, events: seq<Event>, r': Run)
    decreases |events|
  {
    if events == [] then r' == r
    else Enabled(r, events[0]) && Reaches(Next(r, limits, events[0]), limits, events[1..], r')
  }

  // ---------------------------------------------------------------- order

  ghost predicate StartedInOrder(started: seq<Download>) {
    forall i, j :: 0 <= i < j < |started| && started[i].origin == started[j].origin ==> started[i].id < started[j].id
  }

  ghost predicate QueuedInOrder(queued: seq<Download>) {
    forall i, j :: 0 <= i < j < |queued| ==> queued[i].id < queued[j].id
  }

  ghost predicate QueuedAfterStarted(started: seq<Download>, queued: seq<Download>) {
    forall i, j :: 0 <= i < |started| && 0 <= j < |queued| && started[i].origin == queued[j].origin ==>
      started[i].id < queued[j].id
  }

  ghost predicate Ordered(started: seq<Download>, queued: seq<Download>) {
    StartedInOrder(started) && QueuedInOrder(queued) && QueuedAfterStarted(started, queued)
  }

  ghost predicate NumbersBelow(list: seq<Download>, next: nat) {
    forall i :: 0 <= i < |list| ==> list[i].id < next
  }

  lemma {:induction false} WithoutIsSorted(queued: seq<Download>, index: nat)
    requires index < |queued| && QueuedInOrder(queued)
    ensures QueuedInOrder(Without(queued, index))
    ensures forall d :: d in Without(queued, index) ==> d in queued
  {
    var rest := Without(queued, index);
    forall i, j | 0 <= i < j < |rest| ensures rest[i].id < rest[j].id {
      assert rest[i] == queued[if i < index then i else i + 1];
      assert rest[j] == queued[if j < index then j else j + 1];
    }
  }

  /** A download overtakes only downloads of other origins. */
  lemma {:induction false} StartOneInOrder(s: Scheduler, limits: Limits, index: nat, started: seq<Download>)
    requires index == FirstEligible(s, limits, 0) && index < |s.queued|
    requires Ordered(started, s.queued)
    ensures Ordered(started + [s.queued[index]], Without(s.queued, index))
  {
    var d := s.queued[index];
    var rest := Without(s.queued, index);
    WithoutIsSorted(s.queued, index);
    assert forall j :: 0 <= j < index ==> s.queued[j].origin != d.origin;
    forall j | 0 <= j < |rest| && rest[j].origin == d.origin ensures d.id < rest[j].id {
      assert rest[j] == s.queued[if j < index then j else j + 1];
    }
    assert forall j :: 0 <= j < |rest| ==> rest[j] in s.queued;
  }

  lemma Append(first: seq<Download>, d: Download, rest: seq<Download>)
    ensures first + ([d] + rest) == first + [d] + rest
  {
  }

  lemma {:induction false} StartQueuedInOrder(s: Scheduler, limits: Limits, started: seq<Download>,
                                              s': Scheduler, started': seq<Download>)
    requires Ordered(started, s.queued)
    requires s' == StartQueued(s, limits).0 && started' == started + StartQueued(s, limits).1
    ensures Ordered(started', s'.queued)
    decreases |s.queued|
  {
    var index := FirstEligible(s, limits, 0);
    if index < |s.queued| {
      StartOneInOrder(s, limits, index, started);
      var s1 := StartAt(s, index);
      Append(started, s.queued[index], StartQueued(s1, limits).1);
      StartQueuedInOrder(s1, limits, started + [s.queued[index]], s', started');
    } else {
      assert started' == started;
    }
  }

  lemma {:induction false} WithoutMembers(queued: seq<Download>, index: nat)
    requires index < |queued|
    ensures Members(queued) == {queued[index]} + Members(Without(queued, index))
  {
    assert queued == queued[..index] + [queued[index]] + queued[index + 1..];
  }

  lemma {:induction false} MembersPlus(first: Download, rest: seq<Download>)
    ensures Members([first] + rest) == {first} + Members(rest)
  {
  }

  lemma {:induction false} StartQueuedMoves(s: Scheduler, limits: Limits)
    ensures Members(s.queued) == Members(StartQueued(s, limits).1) + Members(StartQueued(s, limits).0.queued)
    decreases |s.queued|
  {
    var index := FirstEligible(s, limits, 0);
    if index < |s.queued| {
      var s1 := StartAt(s, index);
      StartQueuedMoves(s1, limits);
      WithoutMembers(s.queued, index);
      MembersPlus(s.queued[index], StartQueued(s1, limits).1);
    }
  }

  // ---------------------------------------------------------------- the run invariant

  /** Every accepted download was started, waits, or was given up, and never two of these. */
  ghost predicate Conserved(r: Run) {
    && r.accepted == Members(r.started) + Members(r.s.queued) + r.cancelled
    && Members(r.started) !! Members(r.s.queued)
    && r.cancelled !! Members(r.started) + Members(r.s.queued)
    && (forall d :: d in r.accepted ==> d.id < r.next)
  }

  ghost predicate RunOk(r: Run, limits: Limits) {
    && SchedulerOk(r.s, limits)
    && NoneStartable(r.s, limits)
    && Ordered(r.started, r.s.queued)
    && Conserved(r)
  }

  lemma {:induction false} RequestKeepsOrder(r: Run, limits: Limits, d: Download)
    requires NoneStartable(r.s, limits) && Ordered(r.started, r.s.queued)
    requires NumbersBelow(r.started, d.id) && NumbersBelow(r.s.queued, d.id)
    ensures Ordered(AfterRequest(r, limits, d).started, AfterRequest(r, limits, d).s.queued)
  {
    if !Known(r.s, d.key) && CanStart(r.s, limits, d) {
      forall j | 0 <= j < |r.s.queued| ensures r.s.queued[j].origin != d.origin {
        assert !CanStart(r.s, limits, r.s.queued[j]);
      }
    }
  }

  lemma {:induction false} RequestConserves(r: Run, limits: Limits, d: Download)
    requires Conserved(r) && d.id == r.next
    ensures Conserved(AfterRequest(r, limits, d))
  {
    assert d !in r.accepted;
    assert Members(r.started + [d]) == Members(r.started) + {d};
    assert Members(r.s.queued + [d]) == Members(r.s.queued) + {d};
  }

  lemma {:induction false} NumbersFromConservation(r: Run)
    requires Conserved(r)
    ensures NumbersBelow(r.started, r.next) && NumbersBelow(r.s.queued, r.next)
  {
    assert forall i :: 0 <= i < |r.started| ==> r.started[i] in Members(r.started);
    assert forall i :: 0 <= i < |r.s.queued| ==> r.s.queued[i] in Members(r.s.queued);
  }

  /** Downloads moving from the queue to the started ones disturb no account. */
  lemma {:induction false} MovesConserve(r: Run, r': Run, more: seq<Download>)
    requires Conserved(r) && QueuedAfterStarted(r'.started, r'.s.queued)
    requires r'.started == r.started + more && Members(r.s.queued) == Members(more) + Members(r'.s.queued)
    requires r'.next == r.next && r'.accepted == r.accepted && r'.cancelled == r.cancelled
    ensures Conserved(r')
  {
    assert Members(r.started + more) == Members(r.started) + Members(more);
    DistinctBeforeAfter(r'.started, r'.s.queued);
  }

  lemma {:induction false} DistinctBeforeAfter(started: seq<Download>, queued: seq<Download>)
    requires QueuedAfterStarted(started, queued)
    ensures Members(started) !! Members(queued)
  {
    assert forall i, j :: 0 <= i < |started| && 0 <= j < |queued| ==> started[i] != queued[j];
  }

  lemma {:induction false} StepKeeps(r: Run, limits: Limits, e: Event)
    requires RunOk(r, limits) && Enabled(r, e)
    ensures RunOk(Next(r, limits, e), limits)
  {
    match e
    case Requested(_, _, _) =>
      var d := Numbered(r, e);
      ScheduleKeepsOk(r.s, limits, d);
      ScheduleLeavesNone(r.s, limits, d);
      NumbersFromConservation(r);
      RequestKeepsOrder(r, limits, d);
      RequestConserves(r, limits, d);
    case Ended(key) =>
      FinishKeeps(r.s, limits, key);
      var s1 := ForgetJoined(MarkFinished(r.s, r.s.active[key]), key);
      var r' := Next(r, limits, e);
      StartQueuedInOrder(s1, limits, r.started, r'.s, r'.started);
      StartQueuedMoves(s1, limits);
      MovesConserve(r, r', StartQueued(s1, limits).1);
    case CancelledAll =>
      CancelKeeps(r.s, limits);
  }

  lemma {:induction false} EmptyOk(limits: Limits)
    ensures RunOk(EMPTY_RUN, limits)
  {
  }

  lemma {:induction false} ReachableOkFrom(r: Run, limits: Limits, events: seq<Event>, r': Run)
    requires RunOk(r, limits) && Reaches(r, limits, events, r')
    ensures RunOk(r', limits)
    decreases |events|
  {
    if events != [] {
      StepKeeps(r, limits, events[0]);
      ReachableOkFrom(Next(r, limits, events[0]), limits, events[1..], r');
    }
  }

  // ---------------------------------------------------------------- what every run keeps

  /** Limits, exact counters, a queue without duplicates, and nothing startable left waiting. */
  lemma {:induction false} LimitsHold(limits: Limits, events: seq<Event>, r: Run)
    requires Reaches(EMPTY_RUN, limits, events, r)
    ensures |r.s.active| <= limits.active && |r.s.queued| <= limits.queued
    ensures forall origin :: 0 <= ActiveOf(r.s, origin) == Sum(r.s.active, OriginWeight(origin)) <= MAX_ACTIVE_PER_ORIGIN
    ensures DistinctKeys(r.s.queued) && r.s.queuedKeys == KeysOf(r.s.queued) && r.s.queuedKeys !! r.s.active.Keys
    ensures forall d :: d in r.s.queued ==> !CanStart(r.s, limits, d)
  {
    EmptyOk(limits);
    ReachableOkFrom(EMPTY_RUN, limits, events, r);
    forall origin
      ensures 0 <= ActiveOf(r.s, origin) == Sum(r.s.active, OriginWeight(origin)) <= MAX_ACTIVE_PER_ORIGIN
    {
      assert ActiveOf(r.s, origin) == Sum(r.s.active, OriginWeight(origin));
    }
  }

  /** Two downloads of one origin start in the order they were asked for, whatever happens between. */
  lemma {:induction false} FirstInFirstOut(limits: Limits, events: seq<Event>, r: Run, i: nat, j: nat)
    requires Reaches(EMPTY_RUN, limits, events, r)
    requires i < j < |r.started| && r.started[i].origin == r.started[j].origin
    ensures r.started[i].id < r.started[j].id
  {
    EmptyOk(limits);
    ReachableOkFrom(EMPTY_RUN, limits, events, r);
  }

  /** No accepted download is lost or started twice. */
  lemma {:induction false} NothingIsLost(limits: Limits, events: seq<Event>, r: Run)
    requires Reaches(EMPTY_RUN, limits, events, r)
    ensures r.accepted == Members(r.started) + Members(r.s.queued) + r.cancelled
    ensures Members(r.started) !! Members(r.s.queued) && r.cancelled !! Members(r.started) + Members(r.s.queued)
    ensures forall i, j :: 0 <= i < j < |r.started| ==> r.started[i] != r.started[j]
  {
    EmptyOk(limits);
    ReachableOkFrom(EMPTY_RUN, limits, events, r);
  }

  /** A waiting download always has an active one whose end will look at the queue again. */
  lemma {:induction false} WaitingImpliesActivity(limits: Limits, events: seq<Event>, r: Run)
    requires limits.active >= 1 && Reaches(EMPTY_RUN, limits, events, r) && r.s.queued != []
    ensures r.s.active != map[]
  {
    LimitsHold(limits, events, r);
    var d := r.s.queued[0];
    assert !CanStart(r.s, limits, d);
    assert ActiveOf(r.s, d.origin) == Sum(r.s.active, OriginWeight(d.origin));
    assert r.s.active == map[] ==> Sum(r.s.active, OriginWeight(d.origin)) == 0;
  }
}
