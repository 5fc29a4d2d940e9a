/**
 * What becomes of a terrain request: it joins the flight of its key, starts a flight of its own, or is
 * answered 503, and exactly when each of these happens.
 */
module TerrainSubmission {
  import opened Wrappers
  import opened MapSum
  import opened TerrainFlights
  import opened TerrainFlightSafety
  import opened TerrainGuarantees

  /** The server runs, and fewer promises wait than may. */
  ghost predicate TakesWaiters(s: State, limits: Limits) {
    s.stage.Running? && Sum(s.pending, Length) < limits.pending
  }

  /** The bytes, the remote slot and the job slot of a new flight are free beside what the jobs hold. */
  ghost predicate Free(s: State, limits: Limits, key: FlightKey, bytes: nat, remote: bool) {
    && Sum(s.jobs, ReservedBytes) + (if key.kind.Grid? then bytes else 0) <= limits.gridBytes
    && (remote ==> Sum(s.jobs, RemoteAdmission) < limits.remote)
    && Sum(s.jobs, JobAdmission) + s.plainJobs < limits.jobs
  }

  /** Promise `p` is the newest waiter of the key, unanswered, and belongs to the socket. */
  ghost predicate WaitsLast(s: State, s': State, key: FlightKey, socket: Option<Socket>, p: Promise) {
    && s'.pending == s.pending[key := (if key in s.pending then s.pending[key] else []) + [p]]
    && s'.results == s.results[p := 0]
    && s'.sockets == (if socket.Some? then s.sockets[p := socket.value] else s.sockets)
    && s'.waiters == s.waiters + 1
  }

  ghost predicate SameJobs(s: State, s': State) {
    && s'.jobs == s.jobs && s'.cancellations == s.cancellations && s'.cancelled == s.cancelled && s'.nextToken == s.nextToken
    && s'.jobCount == s.jobCount && s'.remoteCount == s.remoteCount && s'.gridBytes == s.gridBytes
    && s'.plainJobs == s.plainJobs && s'.stage == s.stage
  }

  /** A request for a key in flight joins it, however exhausted the admissions are. */
  lemma {:induction false} InFlightIsJoined(limits: Limits, s: State, key: FlightKey, bytes: nat, remote: bool, socket: Option<Socket>)
    requires ValidLimits(limits) && Reachable(limits, s) && TakesWaiters(s, limits) && key in s.pending
    ensures var s' := Next(s, limits, Submitted(key, bytes, remote, socket));
      WaitsLast(s, s', key, socket, s.nextPromise) && SameJobs(s, s') && s'.nextPromise == s.nextPromise + 1
  {
    AdmissionsAreConserved(limits, s);
  }

  /** One job more, with a token of its own, on the pool the request asks for. */
  ghost predicate OneJobMore(s: State, s': State, key: FlightKey, bytes: nat, remote: bool) {
    var reserved := if key.kind.Grid? then bytes else 0;
    && s.nextToken !in s.jobs && s.nextToken !in s.cancelled && s'.nextToken == s.nextToken + 1
    && s'.jobs == s.jobs[s.nextToken := Job(key, if remote then Acquiring else Processing, reserved)]
    && s'.cancellations == s.cancellations[key := s.nextToken] && s'.cancelled == s.cancelled
    && s'.jobCount == s.jobCount + 1 && s'.remoteCount == s.remoteCount + (if remote then 1 else 0)
    && s'.gridBytes == s.gridBytes + reserved
    && s'.plainJobs == s.plainJobs && s'.stage == s.stage
  }

  /** A request for a new key for which everything is free starts one job and waits for it. */
  lemma {:induction false} NewKeyStartsAJob(limits: Limits, s: State, key: FlightKey, bytes: nat, remote: bool, socket: Option<Socket>)
    requires ValidLimits(limits) && Reachable(limits, s) && TakesWaiters(s, limits)
    requires key !in s.pending && Free(s, limits, key, bytes, remote)
    ensures var s' := Next(s, limits, Submitted(key, bytes, remote, socket));
      WaitsLast(s, s', key, socket, s.nextPromise) && OneJobMore(s, s', key, bytes, remote) && s'.nextPromise == s.nextPromise + 1
  {
    AdmissionsAreConserved(limits, s);
    ReachableOk(limits, s);
  }

  /** Any other request is refused, and a refusal changes nothing; there is no other case. */
  lemma {:induction false} RefusedIff(limits: Limits, s: State, key: FlightKey, bytes: nat, remote: bool, socket: Option<Socket>)
    requires ValidLimits(limits) && Reachable(limits, s)
    ensures Next(s, limits, Submitted(key, bytes, remote, socket)) == s
            <==> !TakesWaiters(s, limits) || (key !in s.pending && !Free(s, limits, key, bytes, remote))
  {
    AdmissionsAreConserved(limits, s);
    if TakesWaiters(s, limits) && key in s.pending {
      InFlightIsJoined(limits, s, key, bytes, remote, socket);
    } else if TakesWaiters(s, limits) && Free(s, limits, key, bytes, remote) {
      NewKeyStartsAJob(limits, s, key, bytes, remote, socket);
    }
  }

  /** A job outside the registries is taken if and only if the server runs and a job slot is free. */
  lemma {:induction false} PlainJobIsTakenIff(limits: Limits, s: State)
    requires ValidLimits(limits) && Reachable(limits, s)
    ensures Next(s, limits, PlainSubmitted)
            == if s.stage.Running? && Sum(s.jobs, JobAdmission) + s.plainJobs < limits.jobs
               then s.(plainJobs := s.plainJobs + 1, jobCount := s.jobCount + 1) else s
  {
    AdmissionsAreConserved(limits, s);
  }
}
