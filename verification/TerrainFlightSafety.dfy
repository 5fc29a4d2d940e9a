/** Single-flight safety, conservation of admissions, and shutdown, over every interleaving. */
module TerrainFlightSafety {
  import opened Wrappers
  import opened MapSum
  import opened TerrainFlights

  // ---------------------------------------------------------------- what the counters count

  function Length(list: seq<Promise>): int { |list| }

  function JobAdmission(job: Job): int {
    if job.phase.Acquiring? || job.phase.Acquired? || job.phase.Processing? then 1 else 0
  }

  function RemoteAdmission(job: Job): int {
    if job.phase.Acquiring? then 1 else 0
  }

  function ReservedBytes(job: Job): int { job.bytes }

  // ---------------------------------------------------------------- the invariant

  ghost predicate Distinct(list: seq<Promise>) {
    forall i, j :: 0 <= i < j < |list| ==> list[i] != list[j]
  }

  /** Registered keys have waiters; every promise waits in one place of one list. */
  ghost predicate RegistryOk(s: State) {
    && (forall key :: key in s.pending ==> s.pending[key] != [] && Distinct(s.pending[key]))
    && (forall k1, k2, p :: WaitsIn(s, k1, p) && WaitsIn(s, k2, p) ==> k1 == k2)
    && (forall p :: p in s.sockets ==> Waiting(s, p))
  }

  /** A promise has been finished once, unless it still waits: then not at all. */
  ghost predicate ResultsOk(s: State) {
    && (forall p: Promise :: p in s.results <==> p < s.nextPromise)
    && (forall p :: p in s.results ==> s.results[p] == if Waiting(s, p) then 0 else 1)
    && (forall p :: Waiting(s, p) ==> p in s.results)
  }

  /** Registered tokens and live jobs with an unset token are the same thing. */
  ghost predicate FlightsOk(s: State) {
    && s.pending.Keys == s.cancellations.Keys
    && (forall t :: t in s.jobs ==> t < s.nextToken)
    && (forall t :: t in s.cancelled ==> t < s.nextToken)
    && (forall key :: key in s.cancellations ==>
          s.cancellations[key] in s.jobs && s.cancellations[key] !in s.cancelled
          && s.jobs[s.cancellations[key]].key == key)
    && (!s.stage.Closed? ==> forall t :: t in s.jobs && t !in s.cancelled ==> Current(s, t))
  }

  ghost predicate CountersOk(s: State, limits: Limits) {
    && s.waiters == Sum(s.pending, Length) <= limits.pending
    && s.jobCount == Sum(s.jobs, JobAdmission) + s.plainJobs <= limits.jobs
    && s.remoteCount == Sum(s.jobs, RemoteAdmission) <= limits.remote
    && s.gridBytes == Sum(s.jobs, ReservedBytes) <= limits.gridBytes
  }

  ghost predicate StagesOk(s: State) {
    && (s.stage.DrainingCpu? || s.stage.Closed? ==> RemotePoolIdle(s))
    && (s.stage.Closed? ==> CpuPoolIdle(s) && s.pending == map[])
  }

  ghost predicate Inv(s: State, limits: Limits) {
    RegistryOk(s) && ResultsOk(s) && FlightsOk(s) && CountersOk(s, limits) && StagesOk(s)
  }

  // ---------------------------------------------------------------- submission

  lemma JoinWaits(s: State, key: FlightKey, socket: Option<Socket>)
    ensures var s' := Join(s, key, socket);
            && (forall k, q :: WaitsIn(s', k, q) <==> WaitsIn(s, k, q) || (k == key && q == s.nextPromise))
            && (forall q :: Waiting(s', q) <==> Waiting(s, q) || q == s.nextPromise)
  {
    var s' := Join(s, key, socket);
    assert s'.pending[key] == Waiters(s, key) + [s.nextPromise];
    assert WaitsIn(s', key, s.nextPromise);
    forall q | Waiting(s, q)
      ensures Waiting(s', q)
    {
      var k :| WaitsIn(s, k, q);
      assert WaitsIn(s', k, q);
    }
  }

  lemma DistinctAppend(list: seq<Promise>, p: Promise)
    requires Distinct(list) && p !in list
    ensures Distinct(list + [p])
  {
  }

  lemma NewPromiseIsFresh(s: State, key: FlightKey)
    requires ResultsOk(s)
    ensures forall k :: !WaitsIn(s, k, s.nextPromise)
    ensures s.nextPromise !in Waiters(s, key)
  {
    assert !Waiting(s, s.nextPromise);
    assert !WaitsIn(s, key, s.nextPromise);
  }

  lemma JoinRegistry(s: State, key: FlightKey, socket: Option<Socket>)
    requires RegistryOk(s) && ResultsOk(s)
    ensures RegistryOk(Join(s, key, socket))
  {
    JoinWaits(s, key, socket);
    NewPromiseIsFresh(s, key);
    DistinctAppend(Waiters(s, key), s.nextPromise);
  }

  lemma JoinResults(s: State, key: FlightKey, socket: Option<Socket>)
    requires ResultsOk(s)
    ensures ResultsOk(Join(s, key, socket))
  {
    JoinWaits(s, key, socket);
  }

  lemma JoinKeeps(s: State, limits: Limits, key: FlightKey, socket: Option<Socket>)
    requires RegistryOk(s) && ResultsOk(s)
    requires s.waiters == Sum(s.pending, Length) < limits.pending
    ensures var s' := Join(s, key, socket);
            && RegistryOk(s') && ResultsOk(s')
            && s'.waiters == Sum(s'.pending, Length) <= limits.pending
  {
    JoinRegistry(s, key, socket);
    JoinResults(s, key, socket);
    SumPut(s.pending, key, Waiters(s, key) + [s.nextPromise], Length);
  }

  /** States with the same registry have the same waiters. */
  lemma SameWaiters(s: State, s': State)
    requires s'.pending == s.pending
    ensures forall p :: Waiting(s', p) <==> Waiting(s, p)
    ensures forall k, p :: WaitsIn(s', k, p) <==> WaitsIn(s, k, p)
  {
    assert forall k, p :: WaitsIn(s', k, p) <==> WaitsIn(s, k, p);
  }

  lemma LaunchCounters(s: State, limits: Limits, key: FlightKey, bytes: nat, remote: bool)
    requires CountersOk(s, limits) && s.nextToken !in s.jobs
    requires s.gridBytes + Reservation(key, bytes) <= limits.gridBytes && s.jobCount < limits.jobs
    requires remote ==> s.remoteCount < limits.remote
    ensures CountersOk(Launch(s, key, bytes, remote), limits)
  {
    var s' := Launch(s, key, bytes, remote);
    var t, job := s.nextToken, s'.jobs[s.nextToken];
    SumPut(s.jobs, t, job, JobAdmission);
    SumPut(s.jobs, t, job, RemoteAdmission);
    SumPut(s.jobs, t, job, ReservedBytes);
  }

  lemma LaunchFlights(s: State, key: FlightKey, bytes: nat, remote: bool, socket: Option<Socket>)
    requires FlightsOk(s) && s.stage.Running? && key !in s.pending
    ensures FlightsOk(Launch(Join(s, key, socket), key, bytes, remote))
  {
  }

  lemma SameRegistry(s: State, s': State)
    requires RegistryOk(s) && ResultsOk(s)
    requires s'.pending == s.pending && s'.sockets == s.sockets && s'.results == s.results && s'.nextPromise == s.nextPromise
    ensures RegistryOk(s') && ResultsOk(s')
  {
    SameWaiters(s, s');
  }

  lemma JoinFlights(s: State, key: FlightKey, socket: Option<Socket>)
    requires FlightsOk(s) && key in s.pending
    ensures FlightsOk(Join(s, key, socket))
  {
    assert s.pending.Keys + {key} == s.pending.Keys;
  }

  lemma LaunchKeeps(s: State, limits: Limits, key: FlightKey, bytes: nat, remote: bool, socket: Option<Socket>)
    requires Inv(s, limits) && Accepts(s, limits, key, bytes, remote) && key !in s.pending
    ensures Inv(Launch(Join(s, key, socket), key, bytes, remote), limits)
  {
    var joined := Join(s, key, socket);
    JoinKeeps(s, limits, key, socket);
    LaunchCounters(joined, limits, key, bytes, remote);
    LaunchFlights(s, key, bytes, remote, socket);
    SameRegistry(joined, Launch(joined, key, bytes, remote));
  }

  lemma SubmitKeeps(s: State, limits: Limits, key: FlightKey, bytes: nat, remote: bool, socket: Option<Socket>)
    requires Inv(s, limits)
    ensures Inv(Submit(s, limits, key, bytes, remote, socket), limits)
  {
    if Accepts(s, limits, key, bytes, remote) {
      if key in s.pending {
        JoinKeeps(s, limits, key, socket);
        JoinFlights(s, key, socket);
      } else {
        LaunchKeeps(s, limits, key, bytes, remote, socket);
      }
    }
  }

  // ---------------------------------------------------------------- worker steps

  /** A step that only moves one job on: the registry part of the invariant does not notice. */
  lemma MoveKeeps(s: State, s': State, limits: Limits, t: Token, phase: Phase)
    requires Inv(s, limits) && t in s.jobs
    requires s' == Move(s, t, phase).(jobCount := s'.jobCount, remoteCount := s'.remoteCount)
    requires s'.jobCount - s.jobCount == JobAdmission(s.jobs[t].(phase := phase)) - JobAdmission(s.jobs[t]) <= 0
    requires s'.remoteCount - s.remoteCount == RemoteAdmission(s.jobs[t].(phase := phase)) - RemoteAdmission(s.jobs[t]) <= 0
    requires OnRemotePool(phase) ==> OnRemotePool(s.jobs[t].phase)
    requires OnCpuPool(phase) ==> OnCpuPool(s.jobs[t].phase) || OnRemotePool(s.jobs[t].phase)
    ensures Inv(s', limits)
  {
    SameWaiters(s, s');
    var job := s.jobs[t].(phase := phase);
    SumPut(s.jobs, t, job, JobAdmission);
    SumPut(s.jobs, t, job, RemoteAdmission);
    SumPut(s.jobs, t, job, ReservedBytes);
  }

  lemma WorkerStepKeeps(s: State, limits: Limits, e: Event)
    requires Inv(s, limits) && Enabled(s, e)
    requires e.RemoteReleased? || e.HandedOff? || e.Processed? || e.CallbackPosted?
    ensures Inv(Next(s, limits, e), limits)
  {
    var s' := Next(s, limits, e);
    MoveKeeps(s, s', limits, e.t, s'.jobs[e.t].phase);
  }

  // ---------------------------------------------------------------- callbacks

  lemma {:induction false} DistinctCount(list: seq<Promise>, p: Promise)
    requires Distinct(list)
    ensures multiset(list)[p] == if p in list then 1 else 0
  {
    if list != [] {
      var front, last := list[..|list| - 1], list[|list| - 1];
      DistinctCount(front, p);
      assert list == front + [last];
    }
  }

  lemma DrainPending(s: State, key: FlightKey)
    requires RegistryOk(s) && key in s.pending
    ensures forall k, p :: WaitsIn(Drain(s, key), k, p) <==> WaitsIn(s, k, p) && k != key
    ensures forall p :: Waiting(Drain(s, key), p) <==> Waiting(s, p) && p !in s.pending[key]
    ensures forall p :: p in s.pending[key] ==> Waiting(s, p)
  {
    var s' := Drain(s, key);
    assert forall k, p :: WaitsIn(s', k, p) <==> WaitsIn(s, k, p) && k != key;
    assert forall p :: p in s.pending[key] ==> WaitsIn(s, key, p);
    forall p | Waiting(s, p) && p !in s.pending[key]
      ensures Waiting(s', p)
    {
      var k :| WaitsIn(s, k, p);
      assert WaitsIn(s', k, p);
    }
  }

  /** Draining a flight finishes each of its waiters once, and no other promise. */
  lemma DrainResults(s: State, key: FlightKey)
    requires RegistryOk(s) && ResultsOk(s) && key in s.pending
    ensures ResultsOk(Drain(s, key))
    ensures forall p :: p in s.results ==>
              Drain(s, key).results[p] == s.results[p] + (if p in s.pending[key] then 1 else 0)
  {
    DrainPending(s, key);
    var list := s.pending[key];
    forall p
      ensures multiset(list)[p] == if p in list then 1 else 0
    {
      DistinctCount(list, p);
    }
  }

  lemma DrainRegistry(s: State, key: FlightKey)
    requires RegistryOk(s) && key in s.pending
    ensures RegistryOk(Drain(s, key))
  {
    DrainPending(s, key);
  }

  lemma DeliverCounters(s: State, limits: Limits, t: Token)
    requires CountersOk(s, limits) && InPhase(s, t, Posted)
    ensures CountersOk(Deliver(s, t), limits)
  {
    SumRemove(s.jobs, t, JobAdmission);
    SumRemove(s.jobs, t, RemoteAdmission);
    SumRemove(s.jobs, t, ReservedBytes);
    if Current(s, t) {
      var key := s.jobs[t].key;
      if key in s.pending {
        SumRemove(s.pending, key, Length);
      } else {
        assert s.pending - {key} == s.pending;
      }
    }
  }

  lemma DeliverFlights(s: State, t: Token)
    requires FlightsOk(s) && s.stage.Running? && InPhase(s, t, Posted)
    ensures FlightsOk(Deliver(s, t))
  {
  }

  lemma DeliverKeeps(s: State, limits: Limits, t: Token)
    requires Inv(s, limits) && s.stage.Running? && InPhase(s, t, Posted)
    ensures Inv(Deliver(s, t), limits)
  {
    DeliverCounters(s, limits, t);
    DeliverFlights(s, t);
    var done := s.(jobs := s.jobs - {t}, gridBytes := s.gridBytes - s.jobs[t].bytes);
    SameRegistry(s, done);
    if Current(s, t) {
      DrainRegistry(done, s.jobs[t].key);
      DrainResults(done, s.jobs[t].key);
    }
  }

  // ---------------------------------------------------------------- disconnects

  lemma {:induction false} StayingMembers(list: seq<Promise>, sockets: map<Promise, Socket>, socket: Socket)
    ensures var kept := Staying(list, sockets, socket);
            && |kept| <= |list|
            && (forall p :: p in kept <==> p in list && !Attached(sockets, p, socket))
            && (Distinct(list) ==> Distinct(kept))
  {
    if list != [] {
      var front, last := list[..|list| - 1], list[|list| - 1];
      StayingMembers(front, sockets, socket);
      assert list == front + [last];
      var rest := Staying(front, sockets, socket);
      if Distinct(list) && !Attached(sockets, last, socket) {
        DistinctAppend(rest, last);
      }
    }
  }

  ghost function StayingMap(m: map<FlightKey, seq<Promise>>, sockets: map<Promise, Socket>, socket: Socket): map<FlightKey, seq<Promise>> {
    map key | key in m && Staying(m[key], sockets, socket) != [] :: Staying(m[key], sockets, socket)
  }

  lemma StayingMapRemove(m: map<FlightKey, seq<Promise>>, key: FlightKey, sockets: map<Promise, Socket>, socket: Socket)
    ensures StayingMap(m - {key}, sockets, socket) == StayingMap(m, sockets, socket) - {key}
  {
  }

  /** What is left in the registry and what left it add up to what was there. */
  lemma {:induction false} StayingSum(m: map<FlightKey, seq<Promise>>, sockets: map<Promise, Socket>, socket: Socket)
    ensures Sum(StayingMap(m, sockets, socket), Length) == Sum(m, Length) - Sum(m, LeavingWeight(sockets, socket))
    ensures Sum(m, LeavingWeight(sockets, socket)) >= 0
    decreases |m|
  {
    var kept := StayingMap(m, sockets, socket);
    if m != map[] {
      var key :| key in m;
      StayingSum(m - {key}, sockets, socket);
      SumRemove(m, key, Length);
      SumRemove(m, key, LeavingWeight(sockets, socket));
      StayingMembers(m[key], sockets, socket);
      StayingMapRemove(m, key, sockets, socket);
      if key in kept {
        SumRemove(kept, key, Length);
      } else {
        assert kept - {key} == kept;
      }
    } else {
      assert kept == map[];
    }
  }

  lemma DisconnectPending(s: State, socket: Socket)
    ensures Disconnect(s, socket).pending == StayingMap(s.pending, s.sockets, socket)
    ensures forall k, p :: WaitsIn(Disconnect(s, socket), k, p)
                           <==> WaitsIn(s, k, p) && !Attached(s.sockets, p, socket)
    ensures forall p :: Waiting(Disconnect(s, socket), p) <==> Waiting(s, p) && !Attached(s.sockets, p, socket)
    ensures forall p :: p in Abandoned(s, socket) <==> Waiting(s, p) && Attached(s.sockets, p, socket)
  {
    var s' := Disconnect(s, socket);
    forall key | key in s.pending
      ensures forall p :: p in Staying(s.pending[key], s.sockets, socket)
                          <==> p in s.pending[key] && !Attached(s.sockets, p, socket)
    {
      StayingMembers(s.pending[key], s.sockets, socket);
    }
    assert forall k, p :: WaitsIn(s', k, p) <==> WaitsIn(s, k, p) && !Attached(s.sockets, p, socket);
    forall p
      ensures Waiting(s', p) <==> Waiting(s, p) && !Attached(s.sockets, p, socket)
      ensures p in Abandoned(s, socket) <==> Waiting(s, p) && Attached(s.sockets, p, socket)
    {
      if Waiting(s, p) {
        var k :| WaitsIn(s, k, p);
        assert WaitsIn(s', k, p) <==> !Attached(s.sockets, p, socket);
      }
      if p in Abandoned(s, socket) {
        var k :| k in s.pending && p in s.pending[k];
        assert WaitsIn(s, k, p);
      }
    }
  }

  lemma DisconnectRegistry(s: State, socket: Socket)
    requires RegistryOk(s)
    ensures RegistryOk(Disconnect(s, socket))
  {
    DisconnectPending(s, socket);
    var s' := Disconnect(s, socket);
    forall key | key in s'.pending
      ensures s'.pending[key] != [] && Distinct(s'.pending[key])
    {
      StayingMembers(s.pending[key], s.sockets, socket);
    }
    assert forall p :: p in s'.sockets ==> Waiting(s', p);
  }

  lemma DisconnectResults(s: State, socket: Socket)
    requires ResultsOk(s)
    ensures ResultsOk(Disconnect(s, socket))
  {
    DisconnectPending(s, socket);
  }

  lemma DisconnectFlights(s: State, socket: Socket)
    requires FlightsOk(s)
    ensures FlightsOk(Disconnect(s, socket))
  {
  }

  lemma DisconnectKeeps(s: State, limits: Limits, socket: Socket)
    requires Inv(s, limits) && s.stage.Running?
    ensures Inv(Disconnect(s, socket), limits)
  {
    DisconnectPending(s, socket);
    DisconnectRegistry(s, socket);
    DisconnectResults(s, socket);
    DisconnectFlights(s, socket);
    StayingSum(s.pending, s.sockets, socket);
  }

  // ---------------------------------------------------------------- shutdown

  lemma CloseKeeps(s: State, limits: Limits)
    requires Inv(s, limits) && Enabled(s, CpuJoinedAndClosed)
    ensures Inv(Close(s), limits)
  {
    var s' := Close(s);
    assert forall p :: !Waiting(s', p) by {
      assert forall k, p :: !WaitsIn(s', k, p);
    }
    SumBounds(s.pending, FlightKey(Tile, ""), Length);
  }

  lemma StageKeeps(s: State, limits: Limits, stage: Stage)
    requires Inv(s, limits) && !s.stage.Closed?
    requires stage.DrainingRemote? || (stage.DrainingCpu? && RemotePoolIdle(s))
    ensures Inv(s.(stage := stage), limits)
  {
    SameRegistry(s, s.(stage := stage));
  }

  lemma SameFlights(s: State, s': State)
    requires FlightsOk(s)
    requires s'.pending == s.pending && s'.cancellations == s.cancellations && s'.cancelled == s.cancelled
    requires s'.jobs == s.jobs && s'.nextToken == s.nextToken && s'.stage == s.stage
    ensures FlightsOk(s')
  {
  }

  lemma PlainKeeps(s: State, s': State, limits: Limits)
    requires Inv(s, limits) && (s' == SubmitPlain(s, limits) || (s.plainJobs > 0 && s' == FinishPlain(s)))
    ensures Inv(s', limits)
  {
    SameRegistry(s, s');
    SameFlights(s, s');
  }

  // ---------------------------------------------------------------- every run

  /** Every step keeps every part of the invariant. */
  lemma StepKeeps(s: State, limits: Limits, e: Event)
    requires Inv(s, limits) && Enabled(s, e)
    ensures Inv(Next(s, limits, e), limits)
  {
    match e
    case Submitted(key, bytes, remote, socket) => SubmitKeeps(s, limits, key, bytes, remote, socket);
    case Delivered(t) => DeliverKeeps(s, limits, t);
    case Disconnected(socket) => DisconnectKeeps(s, limits, socket);
    case PlainSubmitted => PlainKeeps(s, SubmitPlain(s, limits), limits);
    case PlainFinished => PlainKeeps(s, FinishPlain(s), limits);
    case ShutdownBegun => StageKeeps(s, limits, DrainingRemote);
    case RemoteJoined => StageKeeps(s, limits, DrainingCpu);
    case CpuJoinedAndClosed => CloseKeeps(s, limits);
    case _ => WorkerStepKeeps(s, limits, e);
  }

  lemma {:induction false} RunKeeps(s: State, limits: Limits, events: seq<Event>, s': State)
    requires Inv(s, limits) && Reaches(s, limits, events, s')
    ensures Inv(s', limits)
    decreases |events|
  {
    if events != [] {
      StepKeeps(s, limits, events[0]);
      RunKeeps(Next(s, limits, events[0]), limits, events[1..], s');
    }
  }
}
