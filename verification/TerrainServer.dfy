/**
 * The server-thread methods of src/server/server.cpp as they update their registries: admission
 * in the order the code asks for it, the loops over waiter lists, and the destructor. Each is
 * proved to do exactly what the corresponding step of the state machine says.
 */
module TerrainServer {
  import opened Wrappers
  import opened MapSum
  import opened TerrainFlights
  import opened TerrainFlightSafety

  // ---------------------------------------------------------------- one list, then all of them

  function Dropped(list: seq<Promise>, sockets: map<Promise, Socket>, socket: Socket): set<Promise> {
    set p | p in list && Attached(sockets, p, socket)
  }

  function Gone(s: State, done: set<FlightKey>, socket: Socket): set<Promise> {
    set key, p | key in done && key in s.pending && p in s.pending[key] && Attached(s.sockets, p, socket) :: p
  }

  /** Part of a disconnect: only the lists of the keys in `done` have been gone through. */
  ghost function DropAll(s: State, done: set<FlightKey>, socket: Socket): State {
    var gone := Gone(s, done, socket);
    s.(pending := map key | key in s.pending ::
                    if key in done then Staying(s.pending[key], s.sockets, socket) else s.pending[key],
       sockets := s.sockets - gone,
       waiters := s.waiters - Sum(Restrict(s.pending, done), LeavingWeight(s.sockets, socket)),
       results := FinishSet(s.results, gone))
  }

  function Restrict(m: map<FlightKey, seq<Promise>>, keys: set<FlightKey>): map<FlightKey, seq<Promise>> {
    map key | key in m && key in keys :: m[key]
  }

  ghost function DropList(s: State, key: FlightKey, socket: Socket): State
    requires key in s.pending
  {
    var list := s.pending[key];
    s.(pending := s.pending[key := Staying(list, s.sockets, socket)],
       sockets := s.sockets - Dropped(list, s.sockets, socket),
       waiters := s.waiters - LeavingWeight(s.sockets, socket)(list),
       results := FinishSet(s.results, Dropped(list, s.sockets, socket)))
  }

  lemma {:induction false} StayingSame(list: seq<Promise>, a: map<Promise, Socket>, b: map<Promise, Socket>, socket: Socket)
    requires forall p :: p in list ==> (Attached(a, p, socket) <==> Attached(b, p, socket))
    ensures Staying(list, a, socket) == Staying(list, b, socket)
  {
    if list != [] {
      StayingSame(list[..|list| - 1], a, b, socket);
    }
  }

  lemma FinishTwoSets(results: map<Promise, nat>, a: set<Promise>, b: set<Promise>)
    requires a !! b
    ensures FinishSet(FinishSet(results, a), b) == FinishSet(results, a + b)
  {
  }

  lemma GoneGrows(s: State, done: set<FlightKey>, key: FlightKey, socket: Socket)
    requires RegistryOk(s) && key in s.pending && key !in done
    ensures Gone(s, done + {key}, socket) == Gone(s, done, socket) + Dropped(s.pending[key], s.sockets, socket)
    ensures forall p :: p in s.pending[key] ==> p !in Gone(s, done, socket)
  {
    forall p | p in s.pending[key]
      ensures p !in Gone(s, done, socket)
    {
      assert WaitsIn(s, key, p);
      if p in Gone(s, done, socket) {
        var k :| k in done && k in s.pending && p in s.pending[k];
        assert WaitsIn(s, k, p);
      }
    }
  }

  /** What is still attached in a list that has not been gone through is what was attached at first. */
  lemma UntouchedList(s: State, done: set<FlightKey>, key: FlightKey, socket: Socket)
    requires RegistryOk(s) && key in s.pending && key !in done
    ensures var before := DropAll(s, done, socket);
            var list := s.pending[key];
            && before.pending[key] == list
            && Staying(list, before.sockets, socket) == Staying(list, s.sockets, socket)
            && Dropped(list, before.sockets, socket) == Dropped(list, s.sockets, socket)
  {
    GoneGrows(s, done, key, socket);
    StayingSame(s.pending[key], DropAll(s, done, socket).sockets, s.sockets, socket);
  }

  lemma DropOneMoreCount(s: State, done: set<FlightKey>, key: FlightKey, socket: Socket)
    requires RegistryOk(s) && key in s.pending && key !in done
    ensures DropList(DropAll(s, done, socket), key, socket).waiters == DropAll(s, done + {key}, socket).waiters
  {
    UntouchedList(s, done, key, socket);
    var m := Restrict(s.pending, done + {key});
    assert m - {key} == Restrict(s.pending, done);
    SumRemove(m, key, LeavingWeight(s.sockets, socket));
  }

  lemma DropOneMorePending(s: State, done: set<FlightKey>, key: FlightKey, socket: Socket)
    requires RegistryOk(s) && key in s.pending && key !in done
    ensures DropList(DropAll(s, done, socket), key, socket).pending == DropAll(s, done + {key}, socket).pending
  {
    UntouchedList(s, done, key, socket);
  }

  /** Going through one more list extends what has been dropped so far. */
  lemma DropOneMore(s: State, done: set<FlightKey>, key: FlightKey, socket: Socket)
    requires RegistryOk(s) && key in s.pending && key !in done
    ensures DropList(DropAll(s, done, socket), key, socket) == DropAll(s, done + {key}, socket)
  {
    GoneGrows(s, done, key, socket);
    UntouchedList(s, done, key, socket);
    DropOneMoreCount(s, done, key, socket);
    var list := s.pending[key];
    var gone, more := Gone(s, done, socket), Dropped(list, s.sockets, socket);
    FinishTwoSets(s.results, gone, more);
    assert s.sockets - gone - more == s.sockets - (gone + more);
    DropOneMorePending(s, done, key, socket);
  }

  // ---------------------------------------------------------------- lemmas of the loops

  /** Scanning a list from its end: the rest of the list decides the rest of the result. */
  lemma StayingStep(list: seq<Promise>, index: nat, sockets: map<Promise, Socket>, socket: Socket)
    requires index < |list|
    ensures Staying(list[..index + 1], sockets, socket)
            == Staying(list[..index], sockets, socket) + (if Attached(sockets, list[index], socket) then [] else [list[index]])
  {
    assert list[..index + 1][..index] == list[..index];
  }

  lemma DroppedStep(list: seq<Promise>, index: nat, sockets: map<Promise, Socket>, socket: Socket)
    requires index < |list| && Distinct(list)
    ensures list[index] !in Dropped(list[index + 1..], sockets, socket)
    ensures Dropped(list[index..], sockets, socket)
            == Dropped(list[index + 1..], sockets, socket) + (if Attached(sockets, list[index], socket) then {list[index]} else {})
  {
    assert list[index..] == [list[index]] + list[index + 1..];
  }

  lemma FinishSetStep(results: map<Promise, nat>, finished: set<Promise>, p: Promise)
    requires p in results && p !in finished
    ensures FinishSet(results, finished + {p})
            == FinishSet(results, finished)[p := FinishSet(results, finished)[p] + 1]
  {
  }

  lemma DropNone(s: State, socket: Socket)
    ensures DropAll(s, {}, socket) == s
  {
    assert Gone(s, {}, socket) == {};
    assert Restrict(s.pending, {}) == map[];
  }

  /** A disconnect is: go through every list, then take out the flights left without waiters. */
  lemma DropAllThenOrphans(s: State, socket: Socket)
    requires RegistryOk(s)
    ensures var dropped := DropAll(s, s.pending.Keys, socket);
            var orphans := Orphans(s, socket);
            && orphans == (set key | key in dropped.pending && dropped.pending[key] == [])
            && Disconnect(s, socket)
               == dropped.(pending := dropped.pending - orphans,
                           cancellations := s.cancellations - orphans,
                           cancelled := s.cancelled
                                        + (set key | key in orphans && key in s.cancellations :: s.cancellations[key]))
  {
    var dropped := DropAll(s, s.pending.Keys, socket);
    assert Gone(s, s.pending.Keys, socket) == Abandoned(s, socket);
    assert Restrict(s.pending, s.pending.Keys) == s.pending;
    assert dropped.pending - Orphans(s, socket) == Disconnect(s, socket).pending;
  }

  lemma FinishAllStep(results: map<Promise, nat>, list: seq<Promise>, i: nat)
    requires i < |list| && list[i] in results
    ensures FinishAll(results, list[..i + 1])
            == FinishAll(results, list[..i])[list[i] := FinishAll(results, list[..i])[list[i]] + 1]
  {
    assert list[..i + 1] == list[..i] + [list[i]];
  }

  lemma RegisteredHaveResults(s: State, key: FlightKey)
    requires RegistryOk(s) && ResultsOk(s) && key in s.pending
    ensures Distinct(s.pending[key])
    ensures forall p :: p in s.pending[key] ==> p in s.results
  {
    assert forall p :: p in s.pending[key] ==> WaitsIn(s, key, p);
  }

  /** Counters raised before the registration are the counters a launch raises. */
  lemma AdmittedThenLaunched(s: State, mid: State, key: FlightKey, bytes: nat, remote: bool, socket: Option<Socket>)
    requires mid == s.(jobCount := s.jobCount + 1, remoteCount := s.remoteCount + (if remote then 1 else 0),
                       gridBytes := s.gridBytes + Reservation(key, bytes))
    ensures Launch(Join(mid, key, socket), key, bytes, remote)
              .(jobCount := mid.jobCount, remoteCount := mid.remoteCount, gridBytes := mid.gridBytes)
            == Launch(Join(s, key, socket), key, bytes, remote)
  {
  }

  function WaitersOf(s: State, done: set<FlightKey>): set<Promise> {
    set key, p | key in done && key in s.pending && p in s.pending[key] :: p
  }

  lemma FinishAllOfDistinct(results: map<Promise, nat>, list: seq<Promise>)
    requires Distinct(list)
    ensures FinishAll(results, list) == FinishSet(results, set p | p in list)
  {
    forall p
      ensures multiset(list)[p] == if p in list then 1 else 0
    {
      DistinctCount(list, p);
    }
  }

  /** Answering one more list extends the set of answered promises by exactly its members. */
  lemma FinishOneMoreList(s: State, done: set<FlightKey>, key: FlightKey)
    requires RegistryOk(s) && key in s.pending && key !in done
    ensures FinishAll(FinishSet(s.results, WaitersOf(s, done)), s.pending[key])
            == FinishSet(s.results, WaitersOf(s, done + {key}))
  {
    var list := s.pending[key];
    var more := set p | p in list;
    FinishAllOfDistinct(FinishSet(s.results, WaitersOf(s, done)), list);
    assert WaitersOf(s, done) !! more by {
      forall k, p | k in done && k in s.pending && p in s.pending[k] && p in list
        ensures false
      {
        assert WaitsIn(s, k, p) && WaitsIn(s, key, p);
      }
    }
    FinishTwoSets(s.results, WaitersOf(s, done), more);
    assert WaitersOf(s, done + {key}) == WaitersOf(s, done) + more;
  }

  lemma ClosedResults(s: State)
    ensures FinishSet(s.results, WaitersOf(s, s.pending.Keys)) == Close(s).results
  {
    forall p
      ensures p in WaitersOf(s, s.pending.Keys) <==> Waiting(s, p)
    {
      if p in WaitersOf(s, s.pending.Keys) {
        var k :| k in s.pending && p in s.pending[k];
        assert WaitsIn(s, k, p);
      }
    }
  }

  // ---------------------------------------------------------------- the server

  class Server {
    const limits: Limits
    var stage: Stage
    var pending: map<FlightKey, seq<Promise>>
    var cancellations: map<FlightKey, Token>
    var cancelled: set<Token>
    var sockets: map<Promise, Socket>
    var waiters: int
    var jobCount: int
    var remoteCount: int
    var gridBytes: int
    var jobs: map<Token, Job>
    var plainJobs: nat
    var results: map<Promise, nat>
    var nextPromise: Promise
    var nextToken: Token

    constructor (limits: Limits)
      ensures this.limits == limits && Now() == INITIAL
    {
      this.limits := limits;
      stage, pending, cancellations, cancelled, sockets := Running, map[], map[], {}, map[];
      waiters, jobCount, remoteCount, gridBytes := 0, 0, 0, 0;
      jobs, plainJobs, results, nextPromise, nextToken := map[], 0, map[], 0, 0;
    }

    function Now(): State
      reads this
    {
      State(stage, pending, cancellations, cancelled, sockets, waiters, jobCount, remoteCount,
            gridBytes, jobs, plainJobs, results, nextPromise, nextToken)
    }

    method TryAcquireJob() returns (ok: bool)
      modifies this`jobCount
      ensures ok == (old(jobCount) < limits.jobs)
      ensures jobCount == old(jobCount) + (if ok then 1 else 0)
    {
      ok := jobCount < limits.jobs;
      if ok {
        jobCount := jobCount + 1;
      }
    }

    method TryAcquireRemote() returns (ok: bool)
      modifies this`remoteCount
      ensures ok == (old(remoteCount) < limits.remote)
      ensures remoteCount == old(remoteCount) + (if ok then 1 else 0)
    {
      ok := remoteCount < limits.remote;
      if ok {
        remoteCount := remoteCount + 1;
      }
    }

    method TryAcquireBytes(bytes: nat) returns (ok: bool)
      modifies this`gridBytes
      ensures ok == (old(gridBytes) + bytes <= limits.gridBytes)
      ensures gridBytes == old(gridBytes) + (if ok then bytes else 0)
    {
      ok := gridBytes + bytes <= limits.gridBytes;
      if ok {
        gridBytes := gridBytes + bytes;
      }
    }

    /** Every request gets a promise of its own in the list of its key. */
    method AddWaiter(key: FlightKey, socket: Option<Socket>) returns (promise: Promise)
      modifies this`pending, this`sockets, this`waiters, this`results, this`nextPromise
      ensures promise == old(nextPromise)
      ensures Now() == Join(old(Now()), key, socket)
    {
      promise := nextPromise;
      nextPromise := nextPromise + 1;
      results := results[promise := 0];
      pending := pending[key := (if key in pending then pending[key] else []) + [promise]];
      if socket.Some? {
        sockets := sockets[promise := socket.value];
      }
      waiters := waiters + 1;
    }

    /** A new key gets a token and a job; its admissions have been acquired already. */
    method StartFlight(key: FlightKey, remote: bool, bytes: nat)
      modifies this`cancellations, this`jobs, this`nextToken
      ensures Now() == Launch(old(Now()), key, bytes, remote)
                         .(jobCount := jobCount, remoteCount := remoteCount, gridBytes := gridBytes)
    {
      var token := nextToken;
      nextToken := nextToken + 1;
      cancellations := cancellations[key := token];
      jobs := jobs[token := Job(key, if remote then Acquiring else Processing, Reservation(key, bytes))];
    }

    /** Admission of a new tile or elevation flight: remote slot first, then the job slot. */
    method AdmitTileOrElevation(remote: bool) returns (admitted: bool)
      modifies this`jobCount, this`remoteCount
      ensures admitted == (stage.Running? && waiters < limits.pending
                           && (remote ==> old(remoteCount) < limits.remote) && old(jobCount) < limits.jobs)
      ensures jobCount == old(jobCount) + (if admitted then 1 else 0)
      ensures remoteCount == old(remoteCount) + (if admitted && remote then 1 else 0)
    {
      var remoteAdmitted := false;
      if stage.Running? && waiters < limits.pending {
        remoteAdmitted := true;
        if remote {
          remoteAdmitted := TryAcquireRemote();
        }
      }
      admitted := false;
      if remoteAdmitted {
        admitted := TryAcquireJob();
      }
      if remote && remoteAdmitted && !admitted {
        remoteCount := remoteCount - 1;
      }
    }

    /** Admission of a new grid flight: bytes, remote slot, job slot; a refusal undoes what was acquired. */
    method AdmitGrid(bytes: nat, remote: bool) returns (admitted: bool)
      modifies this`jobCount, this`remoteCount, this`gridBytes
      ensures admitted == (stage.Running? && waiters < limits.pending && old(gridBytes) + bytes <= limits.gridBytes
                           && (remote ==> old(remoteCount) < limits.remote) && old(jobCount) < limits.jobs)
      ensures jobCount == old(jobCount) + (if admitted then 1 else 0)
      ensures remoteCount == old(remoteCount) + (if admitted && remote then 1 else 0)
      ensures gridBytes == old(gridBytes) + (if admitted then bytes else 0)
    {
      admitted := false;
      if stage.Running? && waiters < limits.pending {
        var bytesAdmitted := TryAcquireBytes(bytes);
        if bytesAdmitted {
          var remoteAdmitted := true;
          if remote {
            remoteAdmitted := TryAcquireRemote();
          }
          if remoteAdmitted {
            admitted := TryAcquireJob();
          }
          if !admitted {
            if remote && remoteAdmitted {
              remoteCount := remoteCount - 1;
            }
            gridBytes := gridBytes - bytes;
          }
        }
      }
    }

    /** submitTerrainTile, submitTerrainElevation and submitTerrainGrid; None is the 503 answer. */
    method SubmitTerrain(key: FlightKey, bytes: nat, remote: bool, socket: Option<Socket>) returns (promise: Option<Promise>)
      requires 0 <= gridBytes <= limits.gridBytes
      modifies this
      ensures Now() == Submit(old(Now()), limits, key, bytes, remote, socket)
      ensures promise == if Accepts(old(Now()), limits, key, bytes, remote) then Some(old(nextPromise)) else None
      ensures promise.Some? <==> (&& old(stage).Running? && old(waiters) < limits.pending
                                  && (key in old(pending)
                                      || (&& old(gridBytes) + (if key.kind.Grid? then bytes else 0) <= limits.gridBytes
                                          && (remote ==> old(remoteCount) < limits.remote) && old(jobCount) < limits.jobs)))
      ensures promise.None? ==> Now() == old(Now())
    {
      var existing := key in pending;
      var admitted := existing;
      if !existing {
        if key.kind.Grid? {
          admitted := AdmitGrid(bytes, remote);
        } else {
          admitted := AdmitTileOrElevation(remote);
        }
      }
      if !stage.Running? || waiters >= limits.pending || !admitted {
        return None;
      }
      ghost var admittedState := Now();
      var p := AddWaiter(key, socket);
      promise := Some(p);
      if !existing {
        StartFlight(key, remote, bytes);
        AdmittedThenLaunched(old(Now()), admittedState, key, bytes, remote, socket);
      }
    }

    /** One finish() for each waiter of a list taken out of the registry. */
    method FinishWaiters(list: seq<Promise>)
      requires forall p :: p in list ==> p in results
      modifies this`results, this`sockets
      ensures results == FinishAll(old(results), list)
      ensures sockets == old(sockets) - (set p | p in list)
    {
      assert FinishAll(results, list[..0]) == results;
      for i := 0 to |list|
        invariant results == FinishAll(old(results), list[..i])
        invariant sockets == old(sockets) - (set p | p in list[..i])
      {
        FinishAllStep(old(results), list, i);
        assert list[..i + 1] == list[..i] + [list[i]];
        sockets := sockets - {list[i]};
        results := results[list[i] := results[list[i]] + 1];
      }
      assert list[..|list|] == list;
    }

    /** Takes a finished flight out of the registries and answers its waiters. */
    method DrainFlight(key: FlightKey)
      requires key in pending && forall p :: p in pending[key] ==> p in results
      modifies this`pending, this`cancellations, this`sockets, this`waiters, this`results
      ensures Now() == Drain(old(Now()), key)
    {
      cancellations := cancellations - {key};
      var list := pending[key];
      pending := pending - {key};
      waiters := waiters - |list|;
      FinishWaiters(list);
    }

    /** The queued completion callback of a job. */
    method DeliverCallback(t: Token)
      requires InPhase(Now(), t, Posted)
      requires forall key, p :: WaitsIn(Now(), key, p) ==> p in results
      requires pending.Keys == cancellations.Keys
      modifies this
      ensures Now() == Deliver(old(Now()), t)
    {
      var job := jobs[t];
      jobs := jobs - {t};
      if job.key !in cancellations || cancellations[job.key] != t {
        gridBytes := gridBytes - job.bytes;
        return;
      }
      assert forall p :: p in pending[job.key] ==> WaitsIn(old(Now()), job.key, p);
      DrainFlight(job.key);
      gridBytes := gridBytes - job.bytes;
    }

    /** The inner loop of abandonTerrainWaiters: one waiter list, scanned from its end. */
    method ScanList(list: seq<Promise>, socket: Socket) returns (kept: seq<Promise>)
      requires Distinct(list) && forall p :: p in list ==> p in results
      modifies this`sockets, this`waiters, this`results
      ensures kept == Staying(list, old(sockets), socket)
      ensures sockets == old(sockets) - Dropped(list, old(sockets), socket)
      ensures results == FinishSet(old(results), Dropped(list, old(sockets), socket))
      ensures waiters == old(waiters) - (|list| - |kept|)
    {
      ghost var S, R := sockets, results;
      kept := [];
      var index := |list|;
      assert list[..|list|] == list;
      while index > 0
        invariant 0 <= index <= |list|
        invariant Staying(list, S, socket) == Staying(list[..index], S, socket) + kept
        invariant sockets == S - Dropped(list[index..], S, socket)
        invariant results == FinishSet(R, Dropped(list[index..], S, socket))
        invariant waiters == old(waiters) - (|list| - index - |kept|)
      {
        index := index - 1;
        var promise := list[index];
        StayingStep(list, index, S, socket);
        DroppedStep(list, index, S, socket);
        if promise in sockets && sockets[promise] == socket {
          FinishSetStep(R, Dropped(list[index + 1..], S, socket), promise);
          sockets := sockets - {promise};
          waiters := waiters - 1;
          results := results[promise := results[promise] + 1];
        } else {
          kept := [promise] + kept;
        }
      }
      assert list[0..] == list && list[..0] == [];
    }

    method AbandonInList(key: FlightKey, socket: Socket)
      requires key in pending && Distinct(pending[key])
      requires forall p :: p in pending[key] ==> p in results
      modifies this`pending, this`sockets, this`waiters, this`results
      ensures Now() == DropList(old(Now()), key, socket)
    {
      var kept := ScanList(pending[key], socket);
      pending := pending[key := kept];
    }

    method AbandonNext(ghost s0: State, ghost done: set<FlightKey>, key: FlightKey, socket: Socket)
      requires RegistryOk(s0) && key in s0.pending && key !in done && Now() == DropAll(s0, done, socket)
      requires forall p :: p in s0.pending[key] ==> p in s0.results
      modifies this
      ensures Now() == DropAll(s0, done + {key}, socket)
    {
      assert pending[key] == s0.pending[key];
      AbandonInList(key, socket);
      DropOneMore(s0, done, key, socket);
    }

    /** The end of abandonTerrainWaiters: cancel and unregister the flights without waiters. */
    method RemoveOrphans()
      modifies this`pending, this`cancellations, this`cancelled
      ensures var orphans := set key | key in old(pending) && old(pending)[key] == [];
              Now() == old(Now()).(pending := old(pending) - orphans,
                                   cancellations := old(cancellations) - orphans,
                                   cancelled := old(cancelled)
                                     + (set key | key in orphans && key in old(cancellations) :: old(cancellations)[key]))
    {
      var orphans := set key | key in pending && pending[key] == [];
      cancelled := cancelled + (set key | key in orphans && key in cancellations :: cancellations[key]);
      cancellations := cancellations - orphans;
      pending := pending - orphans;
    }

    /** abandonTerrainWaiters: every registry list, then the flights nobody waits for any more. */
    method AbandonTerrainWaiters(socket: Socket)
      requires RegistryOk(Now()) && ResultsOk(Now())
      modifies this
      ensures Now() == Disconnect(old(Now()), socket)
    {
      ghost var s0 := Now();
      var todo := pending.Keys;
      ghost var done: set<FlightKey> := {};
      DropNone(s0, socket);
      while todo != {}
        invariant done + todo == s0.pending.Keys && done !! todo
        invariant Now() == DropAll(s0, done, socket)
        decreases todo
      {
        var key :| key in todo;
        RegisteredHaveResults(s0, key);
        AbandonNext(s0, done, key, socket);
        todo := todo - {key};
        done := done + {key};
      }
      assert done == s0.pending.Keys;
      DropAllThenOrphans(s0, socket);
      RemoveOrphans();
    }

    /** The loops over the registries at the end of ~Server: every waiter gets its answer. */
    method AnswerAllWaiters()
      requires RegistryOk(Now()) && ResultsOk(Now())
      modifies this`results, this`sockets
      ensures results == Close(old(Now())).results
    {
      ghost var s0 := Now();
      var todo := pending.Keys;
      ghost var done: set<FlightKey> := {};
      assert WaitersOf(s0, {}) == {} && FinishSet(s0.results, {}) == s0.results;
      while todo != {}
        invariant done + todo == s0.pending.Keys && done !! todo
        invariant results == FinishSet(s0.results, WaitersOf(s0, done))
        decreases todo
      {
        var key :| key in todo;
        RegisteredHaveResults(s0, key);
        FinishWaiters(pending[key]);
        FinishOneMoreList(s0, done, key);
        todo := todo - {key};
        done := done + {key};
      }
      assert done == s0.pending.Keys;
      ClosedResults(s0);
    }

    /** The end of ~Server. */
    method CloseRegistries()
      requires RegistryOk(Now()) && ResultsOk(Now())
      modifies this
      ensures Now() == Close(old(Now()))
    {
      AnswerAllWaiters();
      pending, cancellations, sockets, waiters := map[], map[], map[], 0;
      stage := Closed;
    }

    // What the pool threads do between two points others can observe. In every reachable state the
    // counters are the numbers of jobs in the phases that hold a slot, and each step keeps them so.

    /** The remote worker hands its slot back, once, before it decides what happens next; the job slot stays taken. */
    method ReleaseRemoteSlot(t: Token, ready: bool)
      requires Inv(Now(), limits) && InPhase(Now(), t, Acquiring)
      modifies this`jobs, this`remoteCount
      ensures Inv(Now(), limits) && Now() == ReleaseRemote(old(Now()), t, ready)
      ensures SlotsGivenBack(old(Now()), Now(), 1, 0)
    {
      RemoteReleaseKeeps(Now(), limits, t, ready);
      remoteCount := remoteCount - 1;
      jobs := jobs[t := jobs[t].(phase := Acquired(ready))];
    }

    /** The job slot goes on to the CPU stage if the sources are there and somebody still waits, and is returned if not. */
    method HandOffOrGiveUp(t: Token)
      requires Inv(Now(), limits) && t in jobs && jobs[t].phase.Acquired? && !stage.Closed?
      modifies this`jobs, this`jobCount
      ensures Inv(Now(), limits) && Now() == HandOff(old(Now()), t)
      ensures GoesOn(old(Now()), Now(), t, old(jobs[t].phase.ready))
    {
      HandOffKeeps(Now(), limits, t);
      if jobs[t].phase.ready && t !in cancelled {
        jobs := jobs[t := jobs[t].(phase := Processing)];
      } else {
        jobCount := jobCount - 1;
        jobs := jobs[t := jobs[t].(phase := Leaving(true))];
      }
    }

    /** The CPU stage returns the job slot, once, before its callback is posted; nobody is answered yet. */
    method ReleaseJobSlot(t: Token)
      requires Inv(Now(), limits) && InPhase(Now(), t, Processing)
      modifies this`jobs, this`jobCount
      ensures Inv(Now(), limits) && Now() == FinishProcessing(old(Now()), t)
      ensures SlotsGivenBack(old(Now()), Now(), 0, 1)
    {
      ProcessedKeeps(Now(), limits, t);
      jobCount := jobCount - 1;
      jobs := jobs[t := jobs[t].(phase := Leaving(false))];
    }
  }

  // ---------------------------------------------------------------- slots

  /** So many fewer jobs hold a remote slot and a job slot, and the same promises wait in the same places. */
  ghost predicate SlotsGivenBack(s: State, s': State, remote: nat, job: nat) {
    && Sum(s'.jobs, RemoteAdmission) == Sum(s.jobs, RemoteAdmission) - remote == s'.remoteCount
    && Sum(s'.jobs, JobAdmission) == Sum(s.jobs, JobAdmission) - job == s'.jobCount - s'.plainJobs
    && s'.pending == s.pending && s'.results == s.results && s'.cancellations == s.cancellations
  }

  /** The job goes on to the CPU stage with its slot exactly if its sources are there and its flight is still registered. */
  ghost predicate GoesOn(s: State, s': State, t: Token, ready: bool)
    requires t in s.jobs
  {
    && t in s'.jobs
    && (s'.jobs[t].phase.Processing? <==> ready && Current(s, t))
    && SlotsGivenBack(s, s', 0, if ready && Current(s, t) then 0 else 1)
  }

  lemma RemoteReleaseKeeps(s: State, limits: Limits, t: Token, ready: bool)
    requires Inv(s, limits) && InPhase(s, t, Acquiring)
    ensures var s' := ReleaseRemote(s, t, ready); Inv(s', limits) && SlotsGivenBack(s, s', 1, 0)
  {
    StepKeeps(s, limits, RemoteReleased(t, ready));
  }

  lemma HandOffKeeps(s: State, limits: Limits, t: Token)
    requires Inv(s, limits) && t in s.jobs && s.jobs[t].phase.Acquired? && !s.stage.Closed?
    ensures var s' := HandOff(s, t); Inv(s', limits) && GoesOn(s, s', t, s.jobs[t].phase.ready)
  {
    StepKeeps(s, limits, HandedOff(t));
  }

  lemma ProcessedKeeps(s: State, limits: Limits, t: Token)
    requires Inv(s, limits) && InPhase(s, t, Processing)
    ensures var s' := FinishProcessing(s, t); Inv(s', limits) && SlotsGivenBack(s, s', 0, 1)
  {
    StepKeeps(s, limits, Processed(t));
  }
}
