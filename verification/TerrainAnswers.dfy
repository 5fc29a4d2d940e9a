/** Whom a callback and a disconnect answer: exactly the waiters of the flight, exactly the waiters of the connection. */
module TerrainAnswers {
  import opened TerrainFlights
  import opened TerrainFlightSafety
  import opened TerrainGuarantees

  /** One more answer for each promise of `list`, which had none, and for no other. */
  ghost predicate AnswersExactly(s: State, s': State, list: seq<Promise>) {
    && (forall p :: p in list ==> p in s.results && s.results[p] == 0)
    && s'.results.Keys == s.results.Keys
    && forall p :: p in s.results ==> s'.results[p] == if p in list then 1 else s.results[p]
  }

  lemma {:induction false} WaitersAreOpen(limits: Limits, s: State, key: FlightKey)
    requires Inv(s, limits) && key in s.pending
    ensures Distinct(s.pending[key])
    ensures forall p :: p in s.pending[key] ==> p in s.results && s.results[p] == 0
  {
    forall p | p in s.pending[key] ensures p in s.results && s.results[p] == 0 {
      assert WaitsIn(s, key, p);
      assert Waiting(s, p);
    }
  }

  lemma {:induction false} FinishingDistinct(results: map<Promise, nat>, list: seq<Promise>, p: Promise)
    requires Distinct(list) && p in results
    ensures FinishAll(results, list)[p] == results[p] + if p in list then 1 else 0
  {
    DistinctCount(list, p);
  }

  /** The callback of a flight that nobody cancelled answers everyone who waits for its key, once, and ends the flight. */
  lemma {:induction false} CallbackAnswersItsFlight(limits: Limits, s: State, t: Token)
    requires ValidLimits(limits) && Reachable(limits, s) && s.stage.Running? && InPhase(s, t, Posted) && t !in s.cancelled
    ensures var s', key := Next(s, limits, Delivered(t)), s.jobs[t].key;
      && key in s.pending && s.pending[key] != [] && AnswersExactly(s, s', s.pending[key])
      && s'.pending == s.pending - {key} && s'.cancellations == s.cancellations - {key} && s'.waiters == s.waiters - |s.pending[key]|
      && s'.jobs == s.jobs - {t} && s'.gridBytes == s.gridBytes - s.jobs[t].bytes
      && s'.jobCount == s.jobCount && s'.remoteCount == s.remoteCount && s'.cancelled == s.cancelled
  {
    ReachableOk(limits, s);
    var key := s.jobs[t].key;
    assert Current(s, t);
    OneLiveJobPerKey(limits, s, key);
    WaitersAreOpen(limits, s, key);
    forall p | p in s.results ensures Next(s, limits, Delivered(t)).results[p] == if p in s.pending[key] then 1 else s.results[p] {
      FinishingDistinct(s.results, s.pending[key], p);
    }
  }

  /** A disconnect answers the waiters of the connection, takes them out of their flights, and leaves all others waiting. */
  lemma {:induction false} DisconnectAnswersItsOwn(limits: Limits, s: State, socket: Socket, p: Promise)
    requires ValidLimits(limits) && Reachable(limits, s) && s.stage.Running? && p < s.nextPromise
    ensures var s' := Next(s, limits, Disconnected(socket));
      && p in s.results && p in s'.results
      && s'.results[p] == (if s.results[p] == 0 && Attached(s.sockets, p, socket) then 1 else s.results[p])
      && (forall key :: WaitsIn(s', key, p) <==> WaitsIn(s, key, p) && !Attached(s.sockets, p, socket))
      && s'.jobs == s.jobs && s'.jobCount == s.jobCount && s'.remoteCount == s.remoteCount && s'.gridBytes == s.gridBytes
  {
    ReachableOk(limits, s);
    AnsweredAtMostOnce(limits, s, p);
    var s' := Next(s, limits, Disconnected(socket));
    assert p in Abandoned(s, socket) <==> Attached(s.sockets, p, socket) && exists key :: WaitsIn(s, key, p);
    forall key ensures WaitsIn(s', key, p) <==> WaitsIn(s, key, p) && !Attached(s.sockets, p, socket) {
      if key in s.pending {
        StayingMembers(s.pending[key], s.sockets, socket);
      }
    }
  }
}
