/**
 * The terrain part of src/server/server.cpp as a state machine: waiters that share one job a
 * key, jobs that move from a remote stage to a CPU stage and post a callback, disconnecting
 * clients, and the shutdown sequence. Each worker statement that others can observe is a step.
 */
module TerrainFlights {
  import opened Wrappers
  import opened MapSum

  type Promise = nat
  type Token = nat
  type Socket = nat

  datatype Kind = Tile | Elevation | Grid

  /** The three registries of the server are one map here, keyed by kind and name. */
  datatype FlightKey = FlightKey(kind: Kind, name: string)

  datatype Limits = Limits(pending: int, jobs: int, remote: int, gridBytes: int)

  /**
   * Where a job is. Acquiring holds a remote and a job admission, Acquired and Processing hold
   * a job admission, Leaving holds none and is about to post its callback, Posted waits in the
   * event queue of the server thread.
   */
  datatype Phase = Acquiring | Acquired(ready: bool) | Processing | Leaving(onRemotePool: bool) | Posted

  /** `bytes` is the grid-byte reservation of the job, 0 for tiles and elevations. */
  datatype Job = Job(key: FlightKey, phase: Phase, bytes: nat)

  datatype Stage = Running | DrainingRemote | DrainingCpu | Closed

  datatype State = State(
    stage: Stage,
    pending: map<FlightKey, seq<Promise>>,
    cancellations: map<FlightKey, Token>,
    cancelled: set<Token>,
    sockets: map<Promise, Socket>,
    waiters: int,
    jobCount: int,
    remoteCount: int,
    gridBytes: int,
    jobs: map<Token, Job>,
    plainJobs: nat,
    results: map<Promise, nat>,
    nextPromise: Promise,
    nextToken: Token)

  const INITIAL := State(Running, map[], map[], {}, map[], 0, 0, 0, 0, map[], 0, map[], 0, 0)

  // ---------------------------------------------------------------- submission

  function Reservation(key: FlightKey, bytes: nat): nat {
    if key.kind.Grid? then bytes else 0
  }

  /** A new flight needs every admission at once; a key already in flight needs none. */
  predicate Admits(s: State, limits: Limits, key: FlightKey, bytes: nat, remote: bool) {
    || key in s.pending
    || (&& s.gridBytes + Reservation(key, bytes) <= limits.gridBytes
        && (remote ==> s.remoteCount < limits.remote)
        && s.jobCount < limits.jobs)
  }

  predicate Accepts(s: State, limits: Limits, key: FlightKey, bytes: nat, remote: bool) {
    s.stage.Running? && s.waiters < limits.pending && Admits(s, limits, key, bytes, remote)
  }

  function Waiters(s: State, key: FlightKey): seq<Promise> {
    if key in s.pending then s.pending[key] else []
  }

  function Join(s: State, key: FlightKey, socket: Option<Socket>): State {
    var p := s.nextPromise;
    s.(pending := s.pending[key := Waiters(s, key) + [p]],
       sockets := if socket.Some? then s.sockets[p := socket.value] else s.sockets,
       waiters := s.waiters + 1,
       results := s.results[p := 0],
       nextPromise := p + 1)
  }

  function Launch(s: State, key: FlightKey, bytes: nat, remote: bool): State {
    var t := s.nextToken;
    s.(cancellations := s.cancellations[key := t],
       jobs := s.jobs[t := Job(key, if remote then Acquiring else Processing, Reservation(key, bytes))],
       jobCount := s.jobCount + 1,
       remoteCount := s.remoteCount + (if remote then 1 else 0),
       gridBytes := s.gridBytes + Reservation(key, bytes),
       nextToken := t + 1)
  }

  /** A rejected request changes nothing: it is answered 503 on the spot. */
  function Submit(s: State, limits: Limits, key: FlightKey, bytes: nat, remote: bool, socket: Option<Socket>): State {
    if !Accepts(s, limits, key, bytes, remote) then s
    else if key in s.pending then Join(s, key, socket)
    else Launch(Join(s, key, socket), key, bytes, remote)
  }

  // ---------------------------------------------------------------- worker steps

  predicate InPhase(s: State, t: Token, phase: Phase) {
    t in s.jobs && s.jobs[t].phase == phase
  }

  function Move(s: State, t: Token, phase: Phase): State
    requires t in s.jobs
  {
    s.(jobs := s.jobs[t := s.jobs[t].(phase := phase)])
  }

  /** The remote worker hands its slot back before it decides what happens next. */
  function ReleaseRemote(s: State, t: Token, ready: bool): State
    requires InPhase(s, t, Acquiring)
  {
    Move(s, t, Acquired(ready)).(remoteCount := s.remoteCount - 1)
  }

  /** Sources ready and nobody cancelled: enqueue the CPU stage; otherwise give up the job slot. */
  function HandOff(s: State, t: Token): State
    requires t in s.jobs && s.jobs[t].phase.Acquired?
  {
    if s.jobs[t].phase.ready && t !in s.cancelled then Move(s, t, Processing)
    else Move(s, t, Leaving(true)).(jobCount := s.jobCount - 1)
  }

  function FinishProcessing(s: State, t: Token): State
    requires InPhase(s, t, Processing)
  {
    Move(s, t, Leaving(false)).(jobCount := s.jobCount - 1)
  }

  function Post(s: State, t: Token): State
    requires t in s.jobs && s.jobs[t].phase.Leaving?
  {
    Move(s, t, Posted)
  }

  // ---------------------------------------------------------------- callbacks and disconnects

  /** One finish() for every occurrence of a promise in `list`. */
  function FinishAll(results: map<Promise, nat>, list: seq<Promise>): map<Promise, nat> {
    map p | p in results :: results[p] + multiset(list)[p]
  }

  /** One finish() for every promise in `finished`. */
  function FinishSet(results: map<Promise, nat>, finished: set<Promise>): map<Promise, nat> {
    map p | p in results :: results[p] + (if p in finished then 1 else 0)
  }

  predicate Current(s: State, t: Token)
    requires t in s.jobs
  {
    s.jobs[t].key in s.cancellations && s.cancellations[s.jobs[t].key] == t
  }

  /** Takes the registered flight of `key` out and answers all its waiters. */
  function Drain(s: State, key: FlightKey): State {
    var list := Waiters(s, key);
    s.(pending := s.pending - {key},
       cancellations := s.cancellations - {key},
       sockets := s.sockets - (set p | p in list),
       waiters := s.waiters - |list|,
       results := FinishAll(s.results, list))
  }

  /** A queued callback: it answers the flight whose token it carries, or only frees its bytes. */
  function Deliver(s: State, t: Token): State
    requires InPhase(s, t, Posted)
  {
    var done := s.(jobs := s.jobs - {t}, gridBytes := s.gridBytes - s.jobs[t].bytes);
    if Current(s, t) then Drain(done, s.jobs[t].key) else done
  }

  predicate Attached(sockets: map<Promise, Socket>, p: Promise, socket: Socket) {
    p in sockets && sockets[p] == socket
  }

  /** The waiters of `list` that the closed connection did not own, in order. */
  function Staying(list: seq<Promise>, sockets: map<Promise, Socket>, socket: Socket): seq<Promise> {
    if list == [] then []
    else
      var rest := Staying(list[..|list| - 1], sockets, socket);
      if Attached(sockets, list[|list| - 1], socket) then rest else rest + [list[|list| - 1]]
  }

  function LeavingWeight(sockets: map<Promise, Socket>, socket: Socket): seq<Promise> -> int {
    list => |list| - |Staying(list, sockets, socket)|
  }

  function Abandoned(s: State, socket: Socket): set<Promise> {
    set key, p | key in s.pending && p in s.pending[key] && Attached(s.sockets, p, socket) :: p
  }

  function Orphans(s: State, socket: Socket): set<FlightKey> {
    set key | key in s.pending && Staying(s.pending[key], s.sockets, socket) == []
  }

  /** abandonTerrainWaiters: finish the waiters of a connection; cancel flights nobody waits for. */
  ghost function Disconnect(s: State, socket: Socket): State {
    var gone := Abandoned(s, socket);
    var orphans := Orphans(s, socket);
    s.(pending := map key | key in s.pending && key !in orphans :: Staying(s.pending[key], s.sockets, socket),
       cancellations := s.cancellations - orphans,
       cancelled := s.cancelled + (set key | key in orphans && key in s.cancellations :: s.cancellations[key]),
       sockets := s.sockets - gone,
       waiters := s.waiters - Sum(s.pending, LeavingWeight(s.sockets, socket)),
       results := FinishSet(s.results, gone))
  }

  // ---------------------------------------------------------------- plain jobs and shutdown

  /** submitTerrainJob: one job admission, no registry. */
  function SubmitPlain(s: State, limits: Limits): State {
    if s.stage.Running? && s.jobCount < limits.jobs
    then s.(plainJobs := s.plainJobs + 1, jobCount := s.jobCount + 1)
    else s
  }

  function FinishPlain(s: State): State
    requires s.plainJobs > 0
  {
    s.(plainJobs := s.plainJobs - 1, jobCount := s.jobCount - 1)
  }

  predicate OnRemotePool(phase: Phase) {
    phase.Acquiring? || phase.Acquired? || phase == Leaving(true)
  }

  predicate OnCpuPool(phase: Phase) {
    phase.Processing? || phase == Leaving(false)
  }

  ghost predicate RemotePoolIdle(s: State) {
    forall t :: t in s.jobs ==> !OnRemotePool(s.jobs[t].phase)
  }

  ghost predicate CpuPoolIdle(s: State) {
    s.plainJobs == 0 && forall t :: t in s.jobs ==> !OnCpuPool(s.jobs[t].phase)
  }

  predicate WaitsIn(s: State, key: FlightKey, p: Promise) {
    key in s.pending && p in s.pending[key]
  }

  ghost predicate Waiting(s: State, p: Promise) {
    exists key :: WaitsIn(s, key, p)
  }

  /** The end of ~Server: every waiter still registered is answered, the registries are cleared. */
  ghost function Close(s: State): State {
    s.(stage := Closed, pending := map[], cancellations := map[], sockets := map[], waiters := 0,
       results := map p | p in s.results :: s.results[p] + (if Waiting(s, p) then 1 else 0))
  }

  // ---------------------------------------------------------------- events

  datatype Event =
    | Submitted(key: FlightKey, bytes: nat, remote: bool, socket: Option<Socket>)
    | RemoteReleased(t: Token, ready: bool)
    | HandedOff(t: Token)
    | Processed(t: Token)
    | CallbackPosted(t: Token)
    | Delivered(t: Token)
    | Disconnected(closed: Socket)
    | PlainSubmitted
    | PlainFinished
    | ShutdownBegun
    | RemoteJoined
    | CpuJoinedAndClosed

  /** Callbacks and disconnects run on the server thread, which the destructor occupies. */
  ghost predicate Enabled(s: State, e: Event) {
    match e
    case Submitted(_, _, _, _) => true
    case RemoteReleased(t, _) => InPhase(s, t, Acquiring)
    case HandedOff(t) => t in s.jobs && s.jobs[t].phase.Acquired?
    case Processed(t) => InPhase(s, t, Processing)
    case CallbackPosted(t) => t in s.jobs && s.jobs[t].phase.Leaving?
    case Delivered(t) => s.stage.Running? && InPhase(s, t, Posted)
    case Disconnected(_) => s.stage.Running?
    case PlainSubmitted => true
    case PlainFinished => s.plainJobs > 0
    case ShutdownBegun => s.stage.Running?
    case RemoteJoined => s.stage.DrainingRemote? && RemotePoolIdle(s)
    case CpuJoinedAndClosed => s.stage.DrainingCpu? && CpuPoolIdle(s)
  }

  ghost function Next(s: State, limits: Limits, e: Event): State
    requires Enabled(s, e)
  {
    match e
    case Submitted(key, bytes, remote, socket) => Submit(s, limits, key, bytes, remote, socket)
    case RemoteReleased(t, ready) => ReleaseRemote(s, t, ready)
    case HandedOff(t) => HandOff(s, t)
    case Processed(t) => FinishProcessing(s, t)
    case CallbackPosted(t) => Post(s, t)
    case Delivered(t) => Deliver(s, t)
    case Disconnected(socket) => Disconnect(s, socket)
    case PlainSubmitted => SubmitPlain(s, limits)
    case PlainFinished => FinishPlain(s)
    case ShutdownBegun => s.(stage := DrainingRemote)
    case RemoteJoined => s.(stage := DrainingCpu)
    case CpuJoinedAndClosed => Close(s)
  }

  ghost predicate Reaches(s: State, limits: Limits, events: seq<Event>, s': State)
    decreases |events|
  {
    if events == [] then s == s'
    else Enabled(s, events[0]) && Reaches(Next(s, limits, events[0]), limits, events[1..], s')
  }
}
