/** What the terrain state machine guarantees in every reachable state, and how it comes to rest. */
module TerrainGuarantees {
  import opened Wrappers
  import opened MapSum
  import opened TerrainFlights
  import opened TerrainFlightSafety

  ghost predicate ValidLimits(limits: Limits) {
    limits.pending >= 0 && limits.jobs >= 1 && limits.remote >= 1 && limits.gridBytes >= 0
  }

  /** `s` is what some run of the server arrives at. */
  ghost predicate Reachable(limits: Limits, s: State) {
    exists events :: Reaches(INITIAL, limits, events, s)
  }

  lemma ReachableOk(limits: Limits, s: State)
    requires ValidLimits(limits) && Reachable(limits, s)
    ensures Inv(s, limits)
  {
    var events :| Reaches(INITIAL, limits, events, s);
    RunKeeps(INITIAL, limits, events, s);
  }

  /** Every counter is exact and within its limit, stale flights and rejected requests included. */
  lemma AdmissionsAreConserved(limits: Limits, s: State)
    requires ValidLimits(limits) && Reachable(limits, s)
    ensures s.waiters == Sum(s.pending, Length) <= limits.pending
    ensures s.jobCount == Sum(s.jobs, JobAdmission) + s.plainJobs <= limits.jobs
    ensures s.remoteCount == Sum(s.jobs, RemoteAdmission) <= limits.remote
    ensures s.gridBytes == Sum(s.jobs, ReservedBytes) <= limits.gridBytes
  {
    ReachableOk(limits, s);
  }

  /** A registered key has exactly one uncancelled job, the one whose token it registered. */
  lemma OneLiveJobPerKey(limits: Limits, s: State, key: FlightKey)
    requires ValidLimits(limits) && Reachable(limits, s) && key in s.pending
    ensures key in s.cancellations && s.pending[key] != []
    ensures forall t :: t in s.jobs && s.jobs[t].key == key && t !in s.cancelled <==> t == s.cancellations[key]
  {
    ReachableOk(limits, s);
  }

  /** No promise is ever answered twice; an unanswered one waits in exactly one registry list. */
  lemma AnsweredAtMostOnce(limits: Limits, s: State, p: Promise)
    requires ValidLimits(limits) && Reachable(limits, s) && p < s.nextPromise
    ensures p in s.results && s.results[p] <= 1
    ensures s.results[p] == 0 <==> exists key :: WaitsIn(s, key, p)
    ensures forall k1, k2 :: WaitsIn(s, k1, p) && WaitsIn(s, k2, p) ==> k1 == k2
  {
    ReachableOk(limits, s);
    assert Waiting(s, p) <==> exists key :: WaitsIn(s, key, p);
  }

  lemma StepKeepsCancelled(s: State, limits: Limits, e: Event)
    requires Enabled(s, e)
    ensures s.cancelled <= Next(s, limits, e).cancelled
  {
  }

  lemma {:induction false} CancelledStaysCancelled(s: State, limits: Limits, events: seq<Event>, s': State)
    requires Reaches(s, limits, events, s')
    ensures s.cancelled <= s'.cancelled
    decreases |events|
  {
    if events != [] {
      StepKeepsCancelled(s, limits, events[0]);
      CancelledStaysCancelled(Next(s, limits, events[0]), limits, events[1..], s');
    }
  }

  /**
   * Once the last waiter of a flight is gone its callback is stale for good: whenever it runs,
   * it frees the grid bytes it reserved and touches no registry, no waiter and no result, even
   * if a replacement flight for the same key is under way by then.
   */
  lemma StaleCallbackAltersNothing(limits: Limits, s: State, events: seq<Event>, s': State, t: Token)
    requires ValidLimits(limits) && Reachable(limits, s) && t in s.cancelled
    requires Reaches(s, limits, events, s') && Enabled(s', Delivered(t))
    ensures Next(s', limits, Delivered(t))
            == s'.(jobs := s'.jobs - {t}, gridBytes := s'.gridBytes - s'.jobs[t].bytes)
  {
    ReachableOk(limits, s);
    RunKeeps(s, limits, events, s');
    CancelledStaysCancelled(s, limits, events, s');
  }

  /** A disconnect takes exactly the flights without other waiters out, and marks their tokens. */
  lemma DisconnectCancelsExactlyTheOrphans(limits: Limits, s: State, socket: Socket, key: FlightKey)
    requires ValidLimits(limits) && Reachable(limits, s) && s.stage.Running? && key in s.pending
    ensures var s' := Disconnect(s, socket);
            && key in s.cancellations
            && (key !in s'.pending <==> forall p :: p in s.pending[key] ==> Attached(s.sockets, p, socket))
            && (key !in s'.pending <==> s.cancellations[key] in s'.cancelled)
            && (key in s'.pending ==> s'.cancellations[key] == s.cancellations[key])
  {
    ReachableOk(limits, s);
    StayingMembers(s.pending[key], s.sockets, socket);
    var kept := Staying(s.pending[key], s.sockets, socket);
    if kept != [] {
      assert kept[0] in kept;
    }
  }

  // ---------------------------------------------------------------- coming to rest

  lemma {:induction false} SumZero<K, V>(m: map<K, V>, weight: V -> int)
    requires forall k :: k in m ==> weight(m[k]) == 0
    ensures Sum(m, weight) == 0
    decreases |m|
  {
    if m != map[] {
      var k :| k in m;
      SumRemove(m, k, weight);
      SumZero(m - {k}, weight);
    }
  }

  /** With no job and no callback left, nobody waits and every admission has been returned. */
  lemma IdleMeansEverythingReturned(limits: Limits, s: State)
    requires ValidLimits(limits) && Reachable(limits, s) && s.jobs == map[]
    ensures s.pending == map[] && s.waiters == 0
    ensures s.jobCount == s.plainJobs && s.remoteCount == 0 && s.gridBytes == 0
    ensures forall p: Promise :: p < s.nextPromise ==> p in s.results && s.results[p] == 1
  {
    ReachableOk(limits, s);
    assert s.pending == map[] by {
      assert s.pending.Keys == {};
    }
    assert forall key, p :: !WaitsIn(s, key, p);
    assert forall p :: !Waiting(s, p);
  }

  function Steps(phase: Phase): nat {
    match phase
    case Acquiring => 5
    case Acquired(_) => 4
    case Processing => 3
    case Leaving(_) => 2
    case Posted => 1
  }

  function JobSteps(job: Job): int { Steps(job.phase) }

  predicate Advances(e: Event) {
    e.RemoteReleased? || e.HandedOff? || e.Processed? || e.CallbackPosted? || e.Delivered?
  }

  /** Every step of a job uses up some of a finite supply. */
  lemma JobsRunOut(s: State, limits: Limits, e: Event)
    requires Enabled(s, e) && Advances(e)
    ensures 0 <= Sum(Next(s, limits, e).jobs, JobSteps) < Sum(s.jobs, JobSteps)
  {
    var s' := Next(s, limits, e);
    SumRemove(s.jobs, e.t, JobSteps);
    if !e.Delivered? {
      SumPut(s.jobs, e.t, s'.jobs[e.t], JobSteps);
    }
    SumBounds(s'.jobs, e.t, JobSteps);
  }

  /** While a job is left and the server runs, some job can take its next step. */
  lemma JobsAreNeverStuck(s: State) returns (e: Event)
    requires s.stage.Running? && s.jobs != map[]
    ensures Advances(e) && Enabled(s, e)
  {
    var t :| t in s.jobs;
    match s.jobs[t].phase
    case Acquiring => e := RemoteReleased(t, true);
    case Acquired(_) => e := HandedOff(t);
    case Processing => e := Processed(t);
    case Leaving(_) => e := CallbackPosted(t);
    case Posted => e := Delivered(t);
  }

  // ---------------------------------------------------------------- shutdown

  /**
   * After the destructor has drained the remote pool and then the CPU pool, no job can run any
   * more, the admissions that pools hold are back, the grid bytes still reserved are those of callbacks
   * that were posted and will not be delivered, and every promise ever made has its one result.
   */
  lemma ShutdownAnswersEveryone(limits: Limits, s: State)
    requires ValidLimits(limits) && Reachable(limits, s) && s.stage.Closed?
    ensures forall p: Promise :: p < s.nextPromise ==> p in s.results && s.results[p] == 1
    ensures s.jobCount == 0 && s.remoteCount == 0 && s.waiters == 0
    ensures s.gridBytes == Sum(s.jobs, ReservedBytes) && forall t :: t in s.jobs ==> s.jobs[t].phase.Posted?
    ensures forall e :: Enabled(s, e) ==> e.Submitted? || e.PlainSubmitted?
    ensures forall e :: Enabled(s, e) ==> Next(s, limits, e) == s
  {
    ReachableOk(limits, s);
    assert forall t :: t in s.jobs ==> s.jobs[t].phase.Posted?;
    SumZero(s.jobs, JobAdmission);
    SumZero(s.jobs, RemoteAdmission);
    assert forall key, p :: !WaitsIn(s, key, p);
    assert forall p :: !Waiting(s, p);
    forall e | Enabled(s, e)
      ensures (e.Submitted? || e.PlainSubmitted?) && Next(s, limits, e) == s
    {
    }
  }

  /** The order of the two waits matters: an idle CPU pool can still be handed a job by a remote worker. */
  lemma DrainingCpuFirstWouldLeaveAJob(limits: Limits) returns (before: State, events: seq<Event>, after: State)
    requires ValidLimits(limits) && limits.pending > 0
    ensures Reachable(limits, before) && CpuPoolIdle(before)
    ensures Reaches(before, limits, events, after) && RemotePoolIdle(after) && !CpuPoolIdle(after)
    ensures forall i :: 0 <= i < |events| ==> !events[i].Submitted? && !events[i].PlainSubmitted?
  {
    var key := FlightKey(Tile, "");
    var submitted := Submitted(key, 0, true, None);
    before := Next(INITIAL, limits, submitted);
    assert Reaches(before, limits, [], before);
    assert [submitted][1..] == [];
    assert Reaches(INITIAL, limits, [submitted], before);
    var released, handed := RemoteReleased(0, true), HandedOff(0);
    var mid := Next(before, limits, released);
    after := Next(mid, limits, handed);
    events := [released, handed];
    assert events[1..] == [handed] && [handed][1..] == [];
    assert Reaches(after, limits, [], after) && Reaches(mid, limits, [handed], after);
  }
}
