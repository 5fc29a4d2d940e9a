/** The lock-free admission counters: compare-and-swap loops interleaved by any number of callers. */
module Admission {
  import opened MapSum

  /** A counter with its largest admitted value and the modulus its unsigned arithmetic wraps at. */
  datatype Counter = Counter(maximum: nat, modulus: nat) {
    ghost predicate Valid() { maximum < modulus }
  }

  const JobRequest: nat := 1

  type CallId = nat

  /** Unsigned arithmetic: the representative of `x` below the modulus. */
  function Wrap(k: Counter, x: int): (r: int)
    requires k.Valid()
    ensures 0 <= r < k.modulus
    ensures 0 <= x < k.modulus ==> r == x
  {
    x % k.modulus
  }

  /** Where one call stands; `seen` is the value of its local variable `current`. */
  datatype Call =
    | Entered(bytes: nat)
    | Loaded(bytes: nat, seen: int)
    | Holding(bytes: nat)
    | Refused(bytes: nat)

  datatype State = State(reserved: int, calls: map<CallId, Call>)

  datatype Event =
    | Enter(c: CallId, bytes: nat)
    | Load(c: CallId)
    | Loop(c: CallId, spurious: bool)
    | Release(c: CallId)

  const Start: State := State(0, map[])

  /** One atomic access of one call; the arithmetic wraps as the machine's does. */
  function Step(k: Counter, s: State, e: Event): State
    requires k.Valid()
  {
    match e
    case Enter(c, bytes) =>
      if c in s.calls || bytes >= k.modulus then s
      else s.(calls := s.calls[c := if bytes > k.maximum then Refused(bytes) else Entered(bytes)])
    case Load(c) =>
      if c !in s.calls || !s.calls[c].Entered? then s
      else s.(calls := s.calls[c := Loaded(s.calls[c].bytes, s.reserved)])
    case Loop(c, spurious) =>
      if c !in s.calls || !s.calls[c].Loaded? then s
      else
        var Loaded(bytes, seen) := s.calls[c];
        if seen > Wrap(k, k.maximum - bytes) then s.(calls := s.calls[c := Refused(bytes)])
        else if s.reserved == seen && !spurious then
          State(Wrap(k, seen + bytes), s.calls[c := Holding(bytes)])
        else s.(calls := s.calls[c := Loaded(bytes, s.reserved)])
    case Release(c) =>
      if c !in s.calls || !s.calls[c].Holding? then s
      else State(Wrap(k, s.reserved - s.calls[c].bytes), s.calls - {c})
  }

  function Run(k: Counter, es: seq<Event>): State
    requires k.Valid()
  {
    if es == [] then Start else Step(k, Run(k, es[..|es| - 1]), es[|es| - 1])
  }

  function HeldBy(call: Call): (n: int)
    ensures n >= 0
  {
    if call.Holding? then call.bytes else 0
  }

  ghost function Held(s: State): int { Sum(s.calls, HeldBy) }

  ghost predicate Invariant(k: Counter, s: State) {
    && s.reserved == Held(s)
    && 0 <= s.reserved <= k.maximum
    && forall c :: c in s.calls && !s.calls[c].Refused? ==> s.calls[c].bytes <= k.maximum
  }

  lemma StepKeepsInvariant(k: Counter, s: State, e: Event)
    requires k.Valid() && Invariant(k, s)
    ensures Invariant(k, Step(k, s, e))
  {
    var s' := Step(k, s, e);
    if s' != s {
      SumBounds(s.calls, e.c, HeldBy);
      if e.Release? {
        SumRemove(s.calls, e.c, HeldBy);
      } else {
        SumPut(s.calls, e.c, s'.calls[e.c], HeldBy);
      }
    }
  }

  lemma {:induction false} RunKeepsInvariant(k: Counter, es: seq<Event>)
    requires k.Valid()
    ensures Invariant(k, Run(k, es))
    decreases |es|
  {
    if es != [] {
      RunKeepsInvariant(k, es[..|es| - 1]);
      StepKeepsInvariant(k, Run(k, es[..|es| - 1]), es[|es| - 1]);
    }
  }

  /** In every interleaving the counter is the sum of what calls hold and stays within its limit. */
  lemma CounterIsWhatIsHeld(k: Counter, es: seq<Event>)
    requires k.Valid()
    ensures Run(k, es).reserved == Held(Run(k, es))
    ensures 0 <= Run(k, es).reserved <= k.maximum
  {
    RunKeepsInvariant(k, es);
  }

  // ---- The simple form: each request is decided in one indivisible step ----

  /** What callers can tell: who holds how much, and who has been turned away. */
  datatype Budget = Budget(held: map<CallId, nat>, refused: set<CallId>)

  datatype Request = Try(c: CallId, bytes: nat) | GiveBack(c: CallId)

  ghost function TotalHeld(b: Budget): int { Sum(b.held, (n: nat) => n) }

  /** A request is granted exactly when it fits beside everything held at that moment. */
  ghost function Decide(maximum: nat, b: Budget, r: Request): Budget {
    match r
    case Try(c, bytes) =>
      if TotalHeld(b) + bytes <= maximum then b.(held := b.held[c := bytes])
      else b.(refused := b.refused + {c})
    case GiveBack(c) => b.(held := b.held - {c})
  }

  ghost function DecideAll(maximum: nat, rs: seq<Request>): Budget {
    if rs == [] then Budget(map[], {})
    else Decide(maximum, DecideAll(maximum, rs[..|rs| - 1]), rs[|rs| - 1])
  }

  /** A call whose last look showed too little room can only be refused, so it counts as refused from then on. */
  predicate Doomed(k: Counter, call: Call) {
    call.Refused? || (call.Loaded? && call.seen + call.bytes > k.maximum)
  }

  ghost function Seen(k: Counter, s: State): Budget {
    Budget(map c | c in s.calls && s.calls[c].Holding? :: s.calls[c].bytes,
           set c | c in s.calls && Doomed(k, s.calls[c]))
  }

  /** The requests that a step decides: none or one, always of the stepping call and with its own amount. */
  function Decided(k: Counter, s: State, e: Event): (rs: seq<Request>)
    requires k.Valid()
    ensures |rs| <= 1
    ensures rs != [] ==> rs[0].c == e.c
  {
    var s' := Step(k, s, e);
    if s' == s then []
    else if e.Release? then [GiveBack(e.c)]
    else if s'.calls[e.c].Holding? || (Doomed(k, s'.calls[e.c]) && !(e.c in s.calls && Doomed(k, s.calls[e.c])))
    then [Try(e.c, s'.calls[e.c].bytes)]
    else []
  }

  function Decisions(k: Counter, es: seq<Event>): seq<Request>
    requires k.Valid()
  {
    if es == [] then []
    else Decisions(k, es[..|es| - 1]) + Decided(k, Run(k, es[..|es| - 1]), es[|es| - 1])
  }

  lemma {:induction false} HeldAgrees(k: Counter, calls: map<CallId, Call>, held: map<CallId, nat>)
    requires held == map c | c in calls && calls[c].Holding? :: calls[c].bytes
    ensures Sum(calls, HeldBy) == Sum(held, (n: nat) => n)
    decreases |calls|
  {
    var weight := (n: nat) => n;
    if calls != map[] {
      var c :| c in calls;
      SumRemove(calls, c, HeldBy);
      HeldAgrees(k, calls - {c}, held - {c});
      if c in held {
        SumRemove(held, c, weight);
      } else {
        assert held - {c} == held;
      }
    } else {
      assert held == map[];
    }
  }

  lemma EnterIsDecision(k: Counter, s: State, e: Event, s': State)
    requires k.Valid() && Invariant(k, s) && s' == Step(k, s, e) && (e.Enter? || e.Load?)
    requires TotalHeld(Seen(k, s)) == s.reserved
    ensures Matches(k, s, e, s')
  {
    if s' != s {
      assert Seen(k, s').held == Seen(k, s).held;
      var refused := Seen(k, s).refused;
      assert Seen(k, s').refused == if Doomed(k, s'.calls[e.c]) then refused + {e.c} else refused;
    }
  }

  lemma LoopIsDecision(k: Counter, s: State, e: Event, s': State)
    requires k.Valid() && Invariant(k, s) && s' == Step(k, s, e) && e.Loop?
    requires TotalHeld(Seen(k, s)) == s.reserved
    ensures Matches(k, s, e, s')
  {
    if s' != s {
      var refused, held := Seen(k, s).refused, Seen(k, s).held;
      var call' := s'.calls[e.c];
      assert Seen(k, s').held == if call'.Holding? then held[e.c := call'.bytes] else held;
      assert Seen(k, s').refused == if Doomed(k, call') then refused + {e.c} else refused;
    }
  }

  lemma ReleaseIsDecision(k: Counter, s: State, e: Event, s': State)
    requires k.Valid() && s' == Step(k, s, e) && e.Release?
    ensures Matches(k, s, e, s')
  {
    if s' != s {
      assert Seen(k, s').held == Seen(k, s).held - {e.c};
      assert Seen(k, s').refused == Seen(k, s).refused;
    }
  }

  /** What callers can tell after a step is what the indivisible request it decides would have left. */
  ghost predicate Matches(k: Counter, s: State, e: Event, s': State)
    requires k.Valid()
  {
    var rs := Decided(k, s, e);
    Seen(k, s') == if rs == [] then Seen(k, s) else Decide(k.maximum, Seen(k, s), rs[0])
  }

  lemma StepIsDecision(k: Counter, s: State, e: Event, s': State)
    requires k.Valid() && Invariant(k, s) && s' == Step(k, s, e)
    ensures Matches(k, s, e, s')
  {
    HeldAgrees(k, s.calls, Seen(k, s).held);
    match e
    case Enter(_, _) => EnterIsDecision(k, s, e, s');
    case Load(_) => EnterIsDecision(k, s, e, s');
    case Loop(_, _) => LoopIsDecision(k, s, e, s');
    case Release(_) => ReleaseIsDecision(k, s, e, s');
  }

  lemma {:induction false} DecideAllAppend(maximum: nat, rs: seq<Request>, r: Request)
    ensures DecideAll(maximum, rs + [r]) == Decide(maximum, DecideAll(maximum, rs), r)
  {
    assert (rs + [r])[..|rs + [r]| - 1] == rs;
  }

  /** Every interleaving of the retry loops gives each caller what indivisible requests would have. */
  lemma {:induction false} LoopsAreIndivisible(k: Counter, es: seq<Event>)
    requires k.Valid()
    ensures Seen(k, Run(k, es)) == DecideAll(k.maximum, Decisions(k, es))
    decreases |es|
  {
    if es == [] {
      assert Seen(k, Start).held == map[];
      assert Seen(k, Start).refused == {};
    } else {
      var before, e := es[..|es| - 1], es[|es| - 1];
      LoopsAreIndivisible(k, before);
      RunKeepsInvariant(k, before);
      StepIsDecision(k, Run(k, before), e, Run(k, es));
      var rs := Decided(k, Run(k, before), e);
      if rs == [] {
        assert Decisions(k, es) == Decisions(k, before);
      } else {
        assert rs == [rs[0]];
        DecideAllAppend(k.maximum, Decisions(k, before), rs[0]);
      }
    }
  }

  // ---- The job counters: the same loops with every request of size one ----

  ghost predicate OfOne(calls: map<CallId, Call>) {
    forall c :: c in calls ==> calls[c].bytes == JobRequest
  }

  ghost function Holders(calls: map<CallId, Call>): set<CallId> {
    set c | c in calls && calls[c].Holding?
  }

  lemma HoldersBut(calls: map<CallId, Call>, c: CallId)
    requires c in calls
    ensures |Holders(calls)| == |Holders(calls - {c})| + (if calls[c].Holding? then 1 else 0)
  {
    if calls[c].Holding? {
      assert Holders(calls) == Holders(calls - {c}) + {c};
    } else {
      assert Holders(calls) == Holders(calls - {c});
    }
  }

  lemma {:induction false} OnesCount(calls: map<CallId, Call>)
    requires OfOne(calls)
    ensures Sum(calls, HeldBy) == |Holders(calls)|
    decreases |calls|
  {
    if calls != map[] {
      var c :| c in calls;
      var rest := calls - {c};
      SumRemove(calls, c, HeldBy);
      OnesCount(rest);
      HoldersBut(calls, c);
    }
  }

  lemma {:induction false} RunIsOfOne(k: Counter, es: seq<Event>)
    requires k.Valid() && forall e :: e in es && e.Enter? ==> e.bytes == JobRequest
    ensures OfOne(Run(k, es).calls)
    decreases |es|
  {
    if es != [] {
      RunIsOfOne(k, es[..|es| - 1]);
    }
  }

  /** Jobs admitted and not yet released are exactly what the counter says, never above its limit. */
  lemma JobsAreCounted(k: Counter, es: seq<Event>)
    requires k.Valid() && forall e :: e in es && e.Enter? ==> e.bytes == JobRequest
    ensures Run(k, es).reserved == |Holders(Run(k, es).calls)| <= k.maximum
  {
    RunIsOfOne(k, es);
    CounterIsWhatIsHeld(k, es);
    OnesCount(Run(k, es).calls);
  }

  /**
   * An idle counter grants: a call that runs alone with a true compare-and-swap ends in one pass,
   * and holds its amount exactly when it fits.
   */
  lemma AloneIsExact(k: Counter, s: State, c: CallId, bytes: nat)
    requires k.Valid() && Invariant(k, s) && c !in s.calls && bytes < k.modulus
    ensures var done := Step(k, Step(k, Step(k, s, Enter(c, bytes)), Load(c)), Loop(c, false));
      && c in done.calls
      && done.calls[c] == (if s.reserved + bytes <= k.maximum then Holding(bytes) else Refused(bytes))
      && done.reserved == (if s.reserved + bytes <= k.maximum then s.reserved + bytes else s.reserved)
  {
  }
}
