/**
 * The promises of raster tile requests (src/server/server.cpp): they wait in lists under response keys until
 * the tile cache announces the key, and the server's end answers those that are left.
 */
module RasterPromises {
  import opened Wrappers
  import opened MapSum
  import opened TileScheduler
  import opened TileCache
  import opened TileCacheInvariants
  import opened TileWaiters

  type Promise = nat

  /** connections_pending with its count, and how often each promise has been finished. */
  datatype Book = Book(pending: map<ResponseKey, seq<Promise>>, count: int, results: map<Promise, nat>, next: Promise, closed: bool)

  const EMPTY: Book := Book(map[], 0, map[], 0, false)

  const LENGTH: seq<Promise> -> int := (list: seq<Promise>) => |list|

  predicate WaitsUnder(b: Book, key: ResponseKey, p: Promise) {
    key in b.pending && p in b.pending[key]
  }

  function ListOf(b: Book, key: ResponseKey): seq<Promise> {
    if key in b.pending then b.pending[key] else []
  }

  // ---------------------------------------------------------------- the book's operations

  /** A promise that is finished at once. */
  function AnswerAtOnce(b: Book): Book {
    b.(results := b.results[b.next := 1], next := b.next + 1)
  }

  predicate CanAppend(b: Book, maximum: int) {
    !b.closed && b.count < maximum
  }

  /** appendPendingPromise; a promise that is turned away is finished on the spot. */
  function AppendPromise(b: Book, maximum: int, key: ResponseKey): Book {
    if CanAppend(b, maximum) then
      b.(pending := b.pending[key := ListOf(b, key) + [b.next]], count := b.count + 1, results := b.results[b.next := 0], next := b.next + 1)
    else AnswerAtOnce(b)
  }

  ghost predicate WaitsUnderSome(b: Book, keys: set<ResponseKey>, p: Promise) {
    exists key :: key in keys && WaitsUnder(b, key, p)
  }

  ghost function Finished(b: Book, keys: set<ResponseKey>): map<Promise, nat> {
    map p | p in b.results :: b.results[p] + (if WaitsUnderSome(b, keys, p) then 1 else 0)
  }

  function Restrict(pending: map<ResponseKey, seq<Promise>>, keys: set<ResponseKey>): map<ResponseKey, seq<Promise>> {
    map key | key in pending && key in keys :: pending[key]
  }

  /** takePendingPromises for each of the keys, and one result for each promise taken. */
  ghost function AnswerKeys(b: Book, keys: set<ResponseKey>): Book {
    b.(pending := b.pending - keys, count := b.count - Sum(Restrict(b.pending, keys), LENGTH), results := Finished(b, keys))
  }

  /** The part of ~Server that concerns raster promises: all lists are taken and answered, and no more are made. */
  ghost function CloseBook(b: Book): Book {
    b.(pending := map[], count := 0, results := Finished(b, b.pending.Keys), closed := true)
  }

  // ---------------------------------------------------------------- its invariant

  ghost predicate Distinct(list: seq<Promise>) {
    forall i, j :: 0 <= i < j < |list| ==> list[i] != list[j]
  }

  ghost predicate ListsOk(b: Book) {
    && (forall key :: key in b.pending ==> b.pending[key] != [] && Distinct(b.pending[key]))
    && (forall k1, k2, p :: WaitsUnder(b, k1, p) && WaitsUnder(b, k2, p) ==> k1 == k2)
    && (forall key, p: Promise :: WaitsUnder(b, key, p) ==> p < b.next)
  }

  ghost predicate Open(b: Book, p: Promise) {
    exists key :: WaitsUnder(b, key, p)
  }

  ghost predicate ResultsOk(b: Book) {
    && (forall p: Promise :: p in b.results <==> p < b.next)
    && (forall p :: p in b.results ==> b.results[p] == if Open(b, p) then 0 else 1)
  }

  ghost predicate CountOk(b: Book, maximum: int) {
    b.count == Sum(b.pending, LENGTH) <= maximum
  }

  ghost predicate BookOk(b: Book, maximum: int) {
    ListsOk(b) && ResultsOk(b) && CountOk(b, maximum) && (b.closed ==> b.pending == map[])
  }

  lemma {:induction false} SumOfParts(m: map<ResponseKey, seq<Promise>>, keys: set<ResponseKey>)
    ensures Sum(m, LENGTH) == Sum(Restrict(m, keys), LENGTH) + Sum(m - keys, LENGTH)
    decreases |keys|
  {
    if keys == {} {
      assert Restrict(m, keys) == map[] && m - keys == m;
    } else {
      var k :| k in keys;
      var rest := keys - {k};
      SumOfParts(m, rest);
      if k in m {
        SumRemove(Restrict(m, keys), k, LENGTH);
        SumRemove(m - rest, k, LENGTH);
        assert Restrict(m, keys) - {k} == Restrict(m, rest);
        assert m - rest - {k} == m - keys;
      } else {
        assert Restrict(m, keys) == Restrict(m, rest);
        assert m - rest == m - keys;
      }
    }
  }

  lemma {:induction false} SumIsNatural(m: map<ResponseKey, seq<Promise>>)
    ensures Sum(m, LENGTH) >= 0
  {
    SumBounds(m, NoResponse, LENGTH);
  }

  lemma {:induction false} AppendKeeps(b: Book, maximum: int, key: ResponseKey)
    requires BookOk(b, maximum)
    ensures BookOk(AppendPromise(b, maximum, key), maximum)
  {
    if CanAppend(b, maximum) {
      AppendKeepsLists(b, maximum, key);
      AppendKeepsResults(b, maximum, key);
      SumPut(b.pending, key, ListOf(b, key) + [b.next], LENGTH);
    } else {
      AtOnceKeeps(b, maximum);
    }
  }

  lemma {:induction false} AppendKeepsLists(b: Book, maximum: int, key: ResponseKey)
    requires ListsOk(b) && CanAppend(b, maximum)
    ensures ListsOk(AppendPromise(b, maximum, key))
    ensures forall k, p :: WaitsUnder(AppendPromise(b, maximum, key), k, p) <==> WaitsUnder(b, k, p) || (k == key && p == b.next)
  {
    var b' := AppendPromise(b, maximum, key);
    forall k, p ensures WaitsUnder(b', k, p) <==> WaitsUnder(b, k, p) || (k == key && p == b.next) {
    }
    var list := ListOf(b, key);
    forall i | 0 <= i < |list| ensures list[i] != b.next {
      assert WaitsUnder(b, key, list[i]);
    }
  }

  lemma {:induction false} AppendKeepsResults(b: Book, maximum: int, key: ResponseKey)
    requires ListsOk(b) && ResultsOk(b) && CanAppend(b, maximum)
    ensures ResultsOk(AppendPromise(b, maximum, key))
  {
    var b' := AppendPromise(b, maximum, key);
    AppendKeepsLists(b, maximum, key);
    assert WaitsUnder(b', key, b.next);
    forall p: Promise | p < b.next ensures Open(b', p) <==> Open(b, p) {
      if Open(b, p) {
        var k :| WaitsUnder(b, k, p);
        assert WaitsUnder(b', k, p);
      }
    }
  }

  lemma {:induction false} AtOnceKeeps(b: Book, maximum: int)
    requires BookOk(b, maximum)
    ensures BookOk(AnswerAtOnce(b), maximum)
  {
    var b' := AnswerAtOnce(b);
    forall k, p ensures WaitsUnder(b', k, p) <==> WaitsUnder(b, k, p) {
    }
    forall p ensures Open(b', p) <==> Open(b, p) {
      if Open(b, p) {
        var k :| WaitsUnder(b, k, p);
        assert WaitsUnder(b', k, p);
      }
    }
  }

  lemma {:induction false} AnswerKeeps(b: Book, maximum: int, keys: set<ResponseKey>, b': Book)
    requires BookOk(b, maximum)
    requires b' == AnswerKeys(b, keys)
    ensures BookOk(b', maximum)
    ensures forall p :: p in b.results ==> b'.results[p] == if WaitsUnderSome(b, keys, p) then 1 else b.results[p]
  {
    SumOfParts(b.pending, keys);
    SumIsNatural(Restrict(b.pending, keys));
    forall k, p ensures WaitsUnder(b', k, p) <==> WaitsUnder(b, k, p) && k !in keys {
    }
    forall p | p in b.results ensures b'.results[p] == if Open(b', p) then 0 else 1 {
      OpenAfter(b, keys, b', p);
    }
  }

  /** A promise is open after the answer if it was and waits under none of the keys. */
  lemma {:induction false} OpenAfter(b: Book, keys: set<ResponseKey>, b': Book, p: Promise)
    requires ListsOk(b)
    requires forall k :: WaitsUnder(b', k, p) <==> WaitsUnder(b, k, p) && k !in keys
    ensures Open(b', p) <==> Open(b, p) && !WaitsUnderSome(b, keys, p)
    ensures WaitsUnderSome(b, keys, p) ==> Open(b, p)
  {
    if Open(b, p) {
      var k :| WaitsUnder(b, k, p);
      if k !in keys {
        assert WaitsUnder(b', k, p);
      }
    }
  }

  lemma {:induction false} CloseKeeps(b: Book, maximum: int)
    requires BookOk(b, maximum)
    ensures BookOk(CloseBook(b), maximum)
  {
    var b' := AnswerKeys(b, b.pending.Keys);
    AnswerKeeps(b, maximum, b.pending.Keys, b');
    assert b'.pending == map[];
    var closed := CloseBook(b);
    SumIsNatural(b.pending);
    forall k, p ensures !WaitsUnder(closed, k, p) && !WaitsUnder(b', k, p) {
    }
    assert forall p :: !Open(closed, p) && !Open(b', p);
  }

  // ---------------------------------------------------------------- the book as the server updates it

  class PendingPromises {
    const maximum: int
    var pending: map<ResponseKey, seq<Promise>>
    var count: int
    var results: map<Promise, nat>
    var next: Promise
    var closed: bool

    ghost function Now(): Book
      reads this
    {
      Book(pending, count, results, next, closed)
    }

    constructor (maximum: int)
      ensures Now() == EMPTY && this.maximum == maximum
    {
      this.maximum := maximum;
      pending, count, results, next, closed := map[], 0, map[], 0, false;
    }

    /** One addResult and finish for each promise of a list. */
    method FinishEach(list: seq<Promise>)
      requires forall p :: p in list ==> p in results
      requires Distinct(list)
      modifies this`results
      ensures results == map p | p in old(results) :: old(results)[p] + (if p in list then 1 else 0)
    {
      var i := 0;
      while i < |list|
        invariant 0 <= i <= |list|
        invariant results == map p | p in old(results) :: old(results)[p] + (if p in list[..i] then 1 else 0)
      {
        assert list[..i + 1] == list[..i] + [list[i]];
        results := results[list[i] := results[list[i]] + 1];
        i := i + 1;
      }
      assert list[..i] == list;
    }

    /** A new promise for a pending request: it waits, or is turned away and finished. */
    method AppendPendingPromise(key: ResponseKey) returns (waits: bool)
      modifies this
      ensures Now() == AppendPromise(old(Now()), maximum, key) && waits == CanAppend(old(Now()), maximum)
    {
      var p := next;
      next := next + 1;
      if closed || count >= maximum {
        results := results[p := 1];
        return false;
      }
      pending := pending[key := (if key in pending then pending[key] else []) + [p]];
      count := count + 1;
      results := results[p := 0];
      return true;
    }

    /** onTileReady and onTileFailed: the list of the key is taken, and its promises are finished. */
    method KeyAnnounced(key: ResponseKey)
      requires ListsOk(Now()) && ResultsOk(Now())
      modifies this
      ensures Now() == AnswerKeys(old(Now()), {key})
    {
      ghost var before := Now();
      var promises := if key in pending then pending[key] else [];
      OneKey(before, key);
      pending := pending - {key};
      count := count - |promises|;
      FinishEach(promises);
    }

    /** The server's end: every list is taken and its promises are finished, and no more are made. */
    method End()
      requires BookOk(Now(), maximum)
      modifies this
      ensures Now() == CloseBook(old(Now()))
    {
      ghost var before, done := Now(), {};
      NothingAnswered(before);
      var left := pending.Keys;
      while left != {}
        invariant left + done == before.pending.Keys && Now() == AnswerKeys(before, done)
      {
        var key :| key in left;
        NextKey(before, maximum, done, key);
        KeyAnnounced(key);
        left, done := left - {key}, done + {key};
      }
      AllAnswered(before, done);
      count := 0;
      closed := true;
    }
  }

  lemma {:induction false} NextKey(b: Book, maximum: int, done: set<ResponseKey>, key: ResponseKey)
    requires BookOk(b, maximum)
    ensures BookOk(AnswerKeys(b, done), maximum)
    ensures AnswerKeys(AnswerKeys(b, done), {key}) == AnswerKeys(b, done + {key})
  {
    AnswerKeeps(b, maximum, done, AnswerKeys(b, done));
    AnswersAdd(b, done, {key});
  }

  lemma {:induction false} NothingAnswered(b: Book)
    ensures AnswerKeys(b, {}) == b
  {
    assert Restrict(b.pending, {}) == map[];
    assert b.pending - {} == b.pending;
    assert Finished(b, {}) == b.results;
  }

  lemma {:induction false} AllAnswered(b: Book, done: set<ResponseKey>)
    requires done == b.pending.Keys
    ensures AnswerKeys(b, done).pending == map[] && AnswerKeys(b, done).results == CloseBook(b).results
  {
  }

  /** Taking one key takes its list. */
  lemma {:induction false} OneKey(b: Book, key: ResponseKey)
    requires ListsOk(b) && ResultsOk(b)
    ensures Sum(Restrict(b.pending, {key}), LENGTH) == |ListOf(b, key)|
    ensures Finished(b, {key}) == map p | p in b.results :: b.results[p] + (if p in ListOf(b, key) then 1 else 0)
    ensures Distinct(ListOf(b, key)) && forall p :: p in ListOf(b, key) ==> p in b.results
  {
    if key in b.pending {
      assert Restrict(b.pending, {key}) == map[key := b.pending[key]];
      SumPut(map[], key, b.pending[key], LENGTH);
    } else {
      assert Restrict(b.pending, {key}) == map[];
    }
    forall p ensures WaitsUnderSome(b, {key}, p) <==> WaitsUnder(b, key, p) {
      assert key in {key};
    }
    forall p | p in ListOf(b, key) ensures p in b.results {
      assert WaitsUnder(b, key, p);
    }
  }

  /** What waits under two sets of keys waits under the first, or still under the second when the first are taken. */
  lemma {:induction false} WaitsUnderTwo(b: Book, first: set<ResponseKey>, second: set<ResponseKey>, mid: Book, p: Promise)
    requires ListsOk(b) && mid.pending == b.pending - first
    ensures WaitsUnderSome(b, first + second, p) <==> WaitsUnderSome(b, first, p) || WaitsUnderSome(mid, second, p)
    ensures !(WaitsUnderSome(b, first, p) && WaitsUnderSome(mid, second, p))
  {
    if WaitsUnderSome(b, first + second, p) {
      var key :| key in first + second && WaitsUnder(b, key, p);
      if key !in first {
        assert WaitsUnder(mid, key, p);
      }
    }
    if WaitsUnderSome(mid, second, p) {
      var key :| key in second && WaitsUnder(mid, key, p);
      assert key !in first && WaitsUnder(b, key, p);
    }
  }

  lemma {:induction false} CountsAdd(pending: map<ResponseKey, seq<Promise>>, first: set<ResponseKey>, second: set<ResponseKey>)
    ensures Sum(Restrict(pending, first + second), LENGTH) == Sum(Restrict(pending, first), LENGTH) + Sum(Restrict(pending - first, second), LENGTH)
  {
    var both := Restrict(pending, first + second);
    SumOfParts(both, first);
    assert Restrict(both, first) == Restrict(pending, first);
    assert both - first == Restrict(pending - first, second);
  }

  /** Announcing keys one after another is announcing them all. */
  lemma {:induction false} AnswersAdd(b: Book, first: set<ResponseKey>, second: set<ResponseKey>)
    requires ListsOk(b)
    ensures AnswerKeys(AnswerKeys(b, first), second) == AnswerKeys(b, first + second)
  {
    var mid := AnswerKeys(b, first);
    CountsAdd(b.pending, first, second);
    forall p | p in b.results ensures Finished(mid, second)[p] == Finished(b, first + second)[p] {
      WaitsUnderTwo(b, first, second, mid, p);
    }
    assert b.pending - first - second == b.pending - (first + second);
  }

  // ---------------------------------------------------------------- the server and the cache together

  datatype Site = Site(cache: Cache, book: Book)

  const NEW: Site := Site(FRESH, EMPTY)

  /** A tile request over HTTP, some other step of the cache, or the server's end. */
  datatype Action = Asked(request: Request, cacheFirst: bool) | Stepped(e: Event) | Ended

  predicate Possible(s: Site, a: Action) {
    match a
    case Asked(request, _) => !s.book.closed && !request.response.NoResponse? && s.cache.deleting.None?
    case Stepped(e) => !e.HttpRequest? && Enabled(s.cache, e)
    case Ended => !s.book.closed
  }

  /** The request waits if the cache has it pending, the client wants to wait and there is room. */
  predicate Waits(s: Site, limits: Limits, maximum: int, request: Request, cacheFirst: bool) {
    GetTileForHttp(s.cache, limits, request).1.Pending? && !cacheFirst && CanAppend(s.book, maximum)
  }

  ghost function Act(s: Site, limits: Limits, maximum: int, a: Action): Site
    requires Possible(s, a)
  {
    match a
    case Asked(request, cacheFirst) =>
      var waits := Waits(s, limits, maximum, request, cacheFirst);
      Site(Next(s.cache, limits, HttpRequest(request, waits)),
           if waits then AppendPromise(s.book, maximum, request.response) else AnswerAtOnce(s.book))
    case Stepped(e) =>
      var next := Next(s.cache, limits, e);
      Site(next, if s.book.closed then s.book else AnswerKeys(s.book, s.cache.waiting - next.waiting))
    case Ended => s.(book := CloseBook(s.book))
  }

  ghost predicate ActsTo(s: Site, limits: Limits, maximum: int, actions: seq<Action>, s': Site)
    decreases |actions|
  {
    if actions == [] then s' == s
    else Possible(s, actions[0]) && ActsTo(Act(s, limits, maximum, actions[0]), limits, maximum, actions[1..], s')
  }

  /** As long as the server lives, promises wait under exactly the keys the cache still has to announce. */
  ghost predicate SiteOk(s: Site, limits: Limits, maximum: int) {
    && CacheOk(s.cache, limits) && NoOrphans(s.cache) && BookOk(s.book, maximum)
    && (!s.book.closed ==> s.book.pending.Keys == s.cache.waiting)
  }

  // ---------------------------------------------------------------- the cache only announces

  lemma {:induction false} FallbackAnnounces(c: Cache, limits: Limits, key: TileKey, requests: seq<ResponseKey>,
                                             origins: seq<Origin>, mayFetch: bool)
    requires |origins| == |requests|
    ensures Fallback(c, limits, key, requests, origins, mayFetch).waiting <= c.waiting
    decreases |requests|
  {
    if requests != [] {
      var r := Request(key, origins[0], requests[0], mayFetch);
      GetTileFrame(c, limits, r);
      FallbackAnnounces(Settle(GetTile(c, limits, r), requests[0]), limits, key, requests[1..], origins[1..], mayFetch);
    }
  }

  lemma {:induction false} ReadEndAnnounces(c: Cache, limits: Limits, readKey: ReadKey, origins: seq<Origin>, mayFetch: bool)
    requires Enabled(c, ReadEnded(readKey, origins, mayFetch))
    ensures ReadEnds(c, limits, readKey, origins, mayFetch).waiting <= c.waiting
  {
    FallbackAnnounces(ReadTaken(c, readKey), limits, readKey.key, c.pendingReads[readKey].requests, origins, mayFetch);
  }

  lemma {:induction false} DownloadAnnounces(c: Cache, limits: Limits, key: TileKey, size: nat, mayStore: bool)
    requires key in c.scheduler.active
    ensures DownloadSucceeds(c, limits, key, size, mayStore).waiting <= c.waiting
    ensures DownloadFails(c, limits, key).waiting <= c.waiting
  {
  }

  lemma {:induction false} StepAnnounces(c: Cache, limits: Limits, e: Event)
    requires Enabled(c, e) && !e.HttpRequest?
    ensures Next(c, limits, e).waiting <= c.waiting
  {
    match e
    case LibraryRequest(r) => GetTileFrame(c, limits, r);
    case ReadEnded(readKey, origins, mayFetch) => ReadEndAnnounces(c, limits, readKey, origins, mayFetch);
    case Downloaded(key, size, mayStore) => DownloadAnnounces(c, limits, key, size, mayStore);
    case DownloadFailed(key) => DownloadAnnounces(c, limits, key, 1, false);
    case _ =>
  }

  lemma HttpLeavesWaiting(c: Cache, limits: Limits, r: Request)
    ensures GetTileForHttp(c, limits, r).0.waiting == c.waiting
  {
    GetTileFrame(c, limits, r);
  }

  lemma ReplyWaits(after: (Cache, Reply), response: ResponseKey, waits: bool)
    requires !response.NoResponse?
    ensures AfterReply(after, response, waits).waiting == after.0.waiting + if waits && after.1.Pending? then {response} else {}
  {
  }

  // ---------------------------------------------------------------- every run

  lemma {:induction false} AskedKeeps(s: Site, limits: Limits, maximum: int, request: Request, cacheFirst: bool, s': Site)
    requires SiteOk(s, limits, maximum) && Possible(s, Asked(request, cacheFirst))
    requires s' == Act(s, limits, maximum, Asked(request, cacheFirst))
    ensures SiteOk(s', limits, maximum)
  {
    var waits := Waits(s, limits, maximum, request, cacheFirst);
    StepKeeps(s.cache, limits, HttpRequest(request, waits));
    StepKeepsNoOrphans(s.cache, limits, HttpRequest(request, waits));
    AskedKeepsBook(s, limits, maximum, request, waits, s');
  }

  lemma {:induction false} AskedKeepsBook(s: Site, limits: Limits, maximum: int, request: Request, waits: bool, s': Site)
    requires BookOk(s.book, maximum) && !s.book.closed && s.book.pending.Keys == s.cache.waiting && !request.response.NoResponse?
    requires waits ==> GetTileForHttp(s.cache, limits, request).1.Pending? && CanAppend(s.book, maximum)
    requires s'.cache == AfterReply(GetTileForHttp(s.cache, limits, request), request.response, waits)
    requires s'.book == if waits then AppendPromise(s.book, maximum, request.response) else AnswerAtOnce(s.book)
    ensures BookOk(s'.book, maximum) && s'.book.pending.Keys == s'.cache.waiting
  {
    HttpLeavesWaiting(s.cache, limits, request);
    ReplyWaits(GetTileForHttp(s.cache, limits, request), request.response, waits);
    if waits {
      AppendKeeps(s.book, maximum, request.response);
    } else {
      AtOnceKeeps(s.book, maximum);
    }
  }

  lemma {:induction false} SteppedKeeps(s: Site, limits: Limits, maximum: int, e: Event, s': Site)
    requires SiteOk(s, limits, maximum) && Possible(s, Stepped(e)) && s' == Act(s, limits, maximum, Stepped(e))
    ensures SiteOk(s', limits, maximum)
  {
    StepKeeps(s.cache, limits, e);
    StepKeepsNoOrphans(s.cache, limits, e);
    StepAnnounces(s.cache, limits, e);
    var keys := s.cache.waiting - s'.cache.waiting;
    if !s.book.closed {
      AnswerKeeps(s.book, maximum, keys, s'.book);
    }
  }

  lemma {:induction false} ActKeeps(s: Site, limits: Limits, maximum: int, a: Action)
    requires SiteOk(s, limits, maximum) && Possible(s, a)
    ensures SiteOk(Act(s, limits, maximum, a), limits, maximum)
  {
    match a
    case Asked(request, cacheFirst) => AskedKeeps(s, limits, maximum, request, cacheFirst, Act(s, limits, maximum, a));
    case Stepped(e) => SteppedKeeps(s, limits, maximum, e, Act(s, limits, maximum, a));
    case Ended => CloseKeeps(s.book, maximum);
  }

  lemma {:induction false} RunKeeps(s: Site, limits: Limits, maximum: int, actions: seq<Action>, s': Site)
    requires SiteOk(s, limits, maximum) && ActsTo(s, limits, maximum, actions, s')
    ensures SiteOk(s', limits, maximum)
    decreases |actions|
  {
    if actions != [] {
      ActKeeps(s, limits, maximum, actions[0]);
      RunKeeps(Act(s, limits, maximum, actions[0]), limits, maximum, actions[1..], s');
    }
  }

  lemma {:induction false} NewIsOk(limits: Limits, maximum: int)
    requires maximum >= 0
    ensures SiteOk(NEW, limits, maximum)
  {
    FreshOk(limits);
  }

  /**
   * In every reachable state each promise ever made was finished at most once; one that was not waits in
   * exactly one list, and while the server lives a read, a download or a write will announce its key.
   */
  lemma {:induction false} RasterPromisesAreKept(limits: Limits, maximum: int, actions: seq<Action>, s: Site, p: Promise)
    requires maximum >= 0 && ActsTo(NEW, limits, maximum, actions, s) && p < s.book.next
    ensures p in s.book.results && s.book.results[p] <= 1
    ensures s.book.results[p] == 0 <==> exists key :: WaitsUnder(s.book, key, p)
    ensures forall k1, k2 :: WaitsUnder(s.book, k1, p) && WaitsUnder(s.book, k2, p) ==> k1 == k2
    ensures forall key :: WaitsUnder(s.book, key, p) ==> !s.book.closed && Attended(s.cache, key)
  {
    NewIsOk(limits, maximum);
    RunKeeps(NEW, limits, maximum, actions, s);
  }

  /** The count of pending requests is exact and within its limit. */
  lemma {:induction false} PendingRequestsAreCounted(limits: Limits, maximum: int, actions: seq<Action>, s: Site)
    requires maximum >= 0 && ActsTo(NEW, limits, maximum, actions, s)
    ensures s.book.count == Sum(s.book.pending, LENGTH) <= maximum
  {
    NewIsOk(limits, maximum);
    RunKeeps(NEW, limits, maximum, actions, s);
  }

  /** Once the cache is at rest, or the server has ended, every promise ever made has exactly one result. */
  lemma {:induction false} RestAnswersEveryone(limits: Limits, maximum: int, actions: seq<Action>, s: Site, p: Promise)
    requires maximum >= 0 && ActsTo(NEW, limits, maximum, actions, s) && p < s.book.next
    requires s.book.closed || s.cache.waiting == {}
    ensures p in s.book.results && s.book.results[p] == 1
  {
    NewIsOk(limits, maximum);
    RunKeeps(NEW, limits, maximum, actions, s);
    assert forall key :: !WaitsUnder(s.book, key, p);
  }
}
