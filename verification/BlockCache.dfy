/**
 * Decoded raster blocks (src/lib/copernicus_decoded_block_cache.h): each reader keeps its own bounded
 * first-in first-out cache, and all of them charge one shared budget.
 */
module BlockCache {
  import opened Wrappers
  import opened MapSum
  import opened Bytes

  type Key = nat

  type Block = seq<byte>

  datatype Budget = Budget(maximum: int, reserved: int)

  predicate CanReserve(b: Budget, bytes: int) {
    0 < bytes <= b.maximum - b.reserved
  }

  function Reserve(b: Budget, bytes: int): Budget { b.(reserved := b.reserved + bytes) }

  function Release(b: Budget, bytes: int): Budget { b.(reserved := b.reserved - bytes) }

  datatype Cache = Cache(maximum: int, blocks: map<Key, Block>, order: seq<Key>, stored: int)

  function Empty(maximum: int): Cache {
    Cache(if maximum > 0 then maximum else 0, map[], [], 0)
  }

  predicate HasRoom(c: Cache, bytes: int) {
    c.stored <= c.maximum - bytes
  }

  /** The bytes that dropping the oldest block frees; a key of the queue without block frees none. */
  function OldestBytes(c: Cache): int
    requires c.order != []
  {
    if c.order[0] in c.blocks then |c.blocks[c.order[0]]| else 0
  }

  function DropOldest(c: Cache): Cache
    requires c.order != []
  {
    c.(blocks := c.blocks - {c.order[0]}, order := c.order[1..], stored := c.stored - OldestBytes(c))
  }

  function MakeRoom(c: Cache, bytes: int): Cache
    decreases |c.order|
  {
    if HasRoom(c, bytes) || c.order == [] then c else MakeRoom(DropOldest(c), bytes)
  }

  function Append(c: Cache, key: Key, block: Block): Cache {
    c.(blocks := c.blocks[key := block], order := c.order + [key], stored := c.stored + |block|)
  }

  /** Whether a block is worth making room for. */
  predicate Insertable(c: Cache, key: Key, block: Block) {
    block != [] && |block| <= c.maximum && key !in c.blocks
  }

  datatype Outcome = Outcome(cache: Cache, budget: Budget, inserted: bool)

  /** insert: evictions stand even when the budget refuses the new block. */
  function Insert(c: Cache, b: Budget, key: Key, block: Block): Outcome {
    if !Insertable(c, key, block) then Outcome(c, b, false)
    else
      var c1 := MakeRoom(c, |block|);
      var b1 := Release(b, c.stored - c1.stored);
      if !HasRoom(c1, |block|) || !CanReserve(b1, |block|) then Outcome(c1, b1, false)
      else Outcome(Append(c1, key, block), Reserve(b1, |block|), true)
  }

  // ---------------------------------------------------------------- the invariant of one cache

  const BLOCK_BYTES: Block -> int := (block: Block) => |block|

  ghost predicate Distinct(order: seq<Key>) {
    forall i, j :: 0 <= i < j < |order| ==> order[i] != order[j]
  }

  /** Stored bytes are exact and bounded; the queue lists the retained keys, each once. */
  ghost predicate CacheOk(c: Cache) {
    && Distinct(c.order)
    && (forall k :: k in c.blocks <==> k in c.order)
    && c.stored == Sum(c.blocks, BLOCK_BYTES) <= c.maximum
  }

  lemma {:induction false} DropKeeps(c: Cache)
    requires CacheOk(c) && c.order != []
    ensures CacheOk(DropOldest(c))
  {
    var oldest := c.order[0];
    SumRemove(c.blocks, oldest, BLOCK_BYTES);
    forall k ensures k in c.order[1..] <==> k in c.order && k != oldest {
    }
  }

  lemma {:induction false} AppendKeeps(c: Cache, key: Key, block: Block)
    requires CacheOk(c) && key !in c.blocks && HasRoom(c, |block|)
    ensures CacheOk(Append(c, key, block))
  {
    SumPut(c.blocks, key, block, BLOCK_BYTES);
  }

  /** The cache without its n oldest keys. */
  function Without(c: Cache, n: nat): Cache
    requires n <= |c.order|
    decreases n
  {
    if n == 0 then c else Without(DropOldest(c), n - 1)
  }

  lemma {:induction false} WithoutOrder(c: Cache, n: nat)
    requires n <= |c.order|
    ensures Without(c, n).order == c.order[n..] && Without(c, n).maximum == c.maximum
    decreases n
  {
    if n > 0 {
      WithoutOrder(DropOldest(c), n - 1);
      assert c.order[1..][n - 1..] == c.order[n..];
    }
  }

  lemma {:induction false} WithoutKeeps(c: Cache, n: nat)
    requires CacheOk(c) && n <= |c.order|
    ensures CacheOk(Without(c, n))
    decreases n
  {
    if n > 0 {
      DropKeeps(c);
      WithoutKeeps(DropOldest(c), n - 1);
    }
  }

  /** Dropping changes no block that stays. */
  lemma {:induction false} WithoutKeepsBlocks(c: Cache, n: nat, key: Key)
    requires n <= |c.order| && key in Without(c, n).blocks
    ensures key in c.blocks && Without(c, n).blocks[key] == c.blocks[key]
    decreases n
  {
    if n > 0 {
      WithoutKeepsBlocks(DropOldest(c), n - 1, key);
    }
  }

  lemma EmptyHasRoom(c: Cache, bytes: int)
    requires CacheOk(c) && c.order == [] && bytes <= c.maximum
    ensures HasRoom(c, bytes)
  {
    assert c.blocks == map[];
  }

  /** None of the first n evictions makes room yet. */
  ghost predicate AllNeeded(c: Cache, bytes: int, n: nat)
    requires n <= |c.order|
  {
    forall m :: 0 <= m < n ==> !HasRoom(Without(c, m), bytes)
  }

  lemma {:induction false} OneMoreNeeded(c: Cache, bytes: int, n: nat)
    requires c.order != [] && n < |c.order| && !HasRoom(c, bytes) && AllNeeded(DropOldest(c), bytes, n)
    ensures AllNeeded(c, bytes, n + 1)
  {
    forall m | 0 <= m < n + 1 ensures !HasRoom(Without(c, m), bytes) {
      if m > 0 {
        assert Without(c, m) == Without(DropOldest(c), m - 1);
      }
    }
  }

  lemma {:induction false} MakeRoomIs(c: Cache, bytes: int) returns (n: nat)
    ensures n <= |c.order| && MakeRoom(c, bytes) == Without(c, n) && AllNeeded(c, bytes, n)
    ensures HasRoom(Without(c, n), bytes) || Without(c, n).order == []
    decreases |c.order|
  {
    n := 0;
    if !HasRoom(c, bytes) && c.order != [] {
      var k := MakeRoomIs(DropOldest(c), bytes);
      OneMoreNeeded(c, bytes, k);
      n := k + 1;
    }
  }

  /** Eviction drops the oldest keys, and as few of them as make room. */
  lemma {:induction false} MakeRoomDropsOldest(c: Cache, bytes: int) returns (n: nat)
    requires CacheOk(c) && 0 <= bytes <= c.maximum
    ensures n <= |c.order| && MakeRoom(c, bytes) == Without(c, n) && HasRoom(Without(c, n), bytes)
    ensures AllNeeded(c, bytes, n)
  {
    n := MakeRoomIs(c, bytes);
    WithoutKeeps(c, n);
    WithoutOrder(c, n);
    if Without(c, n).order == [] {
      EmptyHasRoom(Without(c, n), bytes);
    }
  }

  /** What an insertion leaves: the n oldest keys dropped, as few as make room, and the new key last. */
  ghost predicate InsertedInto(c: Cache, b: Budget, key: Key, block: Block, o: Outcome, n: nat)
    requires n <= |c.order|
  {
    && o.cache == (if o.inserted then Append(Without(c, n), key, block) else Without(c, n))
    && o.budget.reserved - b.reserved == o.cache.stored - c.stored && o.budget.maximum == b.maximum
    && (o.inserted ==> o.budget.reserved <= b.maximum)
    && AllNeeded(c, |block|, n)
  }

  lemma {:induction false} InsertMeans(c: Cache, b: Budget, key: Key, block: Block) returns (n: nat)
    requires CacheOk(c)
    ensures n <= |c.order| && InsertedInto(c, b, key, block, Insert(c, b, key, block), n)
    ensures CacheOk(Insert(c, b, key, block).cache)
    ensures Insert(c, b, key, block).cache.order == c.order[n..] + (if Insert(c, b, key, block).inserted then [key] else [])
    ensures Insert(c, b, key, block).inserted
            <==> block != [] && |block| <= c.maximum && key !in c.blocks && b.reserved - (c.stored - Without(c, n).stored) + |block| <= b.maximum
    ensures Insert(c, b, key, block).inserted ==> key in Insert(c, b, key, block).cache.blocks && Insert(c, b, key, block).cache.blocks[key] == block
    ensures block == [] || |block| > c.maximum || key in c.blocks ==> n == 0
  {
    n := 0;
    if Insertable(c, key, block) {
      n := MakeRoomDropsOldest(c, |block|);
      WithoutKeeps(c, n);
      WithoutOrder(c, n);
      KeyStaysOut(c, n, key);
      AppendKeepsIf(Without(c, n), key, block);
    }
  }

  lemma {:induction false} KeyStaysOut(c: Cache, n: nat, key: Key)
    requires n <= |c.order| && key !in c.blocks
    ensures key !in Without(c, n).blocks
  {
    if key in Without(c, n).blocks {
      WithoutKeepsBlocks(c, n, key);
    }
  }

  lemma AppendKeepsIf(c: Cache, key: Key, block: Block)
    requires CacheOk(c) && key !in c.blocks
    ensures HasRoom(c, |block|) ==> CacheOk(Append(c, key, block))
  {
    if HasRoom(c, |block|) {
      AppendKeeps(c, key, block);
    }
  }

  // ---------------------------------------------------------------- many caches, one budget

  /** Readers in use, by number, and the budget they share; steps of different readers interleave. */
  datatype Shared = Shared(budget: Budget, caches: map<nat, Cache>)

  datatype Event =
    | Opened(id: nat, maximum: int)
    | OldestDropped(id: nat)
    | Appended(id: nat, key: Key, block: Block)
    | Closed(id: nat)

  predicate Enabled(s: Shared, e: Event) {
    match e
    case Opened(id, _) => id !in s.caches
    case OldestDropped(id) => id in s.caches && s.caches[id].order != []
    case Appended(id, key, block) =>
      && id in s.caches && key !in s.caches[id].blocks && block != []
      && HasRoom(s.caches[id], |block|) && CanReserve(s.budget, |block|)
    case Closed(id) => id in s.caches
  }

  function Next(s: Shared, e: Event): Shared
    requires Enabled(s, e)
  {
    match e
    case Opened(id, maximum) => s.(caches := s.caches[id := Empty(maximum)])
    case OldestDropped(id) =>
      var c := s.caches[id];
      Shared(Release(s.budget, OldestBytes(c)), s.caches[id := DropOldest(c)])
    case Appended(id, key, block) =>
      Shared(Reserve(s.budget, |block|), s.caches[id := Append(s.caches[id], key, block)])
    case Closed(id) => Shared(Release(s.budget, s.caches[id].stored), s.caches - {id})
  }

  ghost predicate Reaches(s: Shared, events: seq<Event>, s': Shared)
    decreases |events|
  {
    if events == [] then s' == s
    else Enabled(s, events[0]) && Reaches(Next(s, events[0]), events[1..], s')
  }

  const STORED: Cache -> int := (c: Cache) => c.stored

  ghost predicate SharedOk(s: Shared) {
    && (forall id :: id in s.caches ==> CacheOk(s.caches[id]))
    && s.budget.reserved == Sum(s.caches, STORED) <= s.budget.maximum
  }

  lemma {:induction false} StoredIsNatural(c: Cache)
    requires CacheOk(c)
    ensures c.stored >= 0
  {
    SumBounds(c.blocks, 0, BLOCK_BYTES);
  }

  lemma {:induction false} StepKeeps(s: Shared, e: Event)
    requires SharedOk(s) && Enabled(s, e)
    ensures SharedOk(Next(s, e))
  {
    match e
    case Opened(id, maximum) =>
      SumPut(s.caches, id, Empty(maximum), STORED);
    case OldestDropped(id) =>
      DropKeeps(s.caches[id]);
      SumPut(s.caches, id, DropOldest(s.caches[id]), STORED);
    case Appended(id, key, block) =>
      AppendKeeps(s.caches[id], key, block);
      SumPut(s.caches, id, Append(s.caches[id], key, block), STORED);
    case Closed(id) =>
      StoredIsNatural(s.caches[id]);
      SumRemove(s.caches, id, STORED);
  }

  lemma {:induction false} RunKeeps(s: Shared, events: seq<Event>, s': Shared)
    requires SharedOk(s) && Reaches(s, events, s')
    ensures SharedOk(s')
    decreases |events|
  {
    if events != [] {
      StepKeeps(s, events[0]);
      RunKeeps(Next(s, events[0]), events[1..], s');
    }
  }

  /**
   * After any interleaving of insertions, evictions and closings across any number of readers: each
   * cache is exact and within its limit, and the shared budget is the sum over the live caches.
   */
  lemma {:induction false} SharedBudgetIsExact(maximum: nat, events: seq<Event>, s: Shared)
    requires Reaches(Shared(Budget(maximum, 0), map[]), events, s)
    ensures forall id :: id in s.caches ==>
              s.caches[id].stored == Sum(s.caches[id].blocks, BLOCK_BYTES) <= s.caches[id].maximum
              && Distinct(s.caches[id].order) && forall k :: k in s.caches[id].blocks <==> k in s.caches[id].order
    ensures s.budget.reserved == Sum(s.caches, STORED) <= s.budget.maximum
  {
    RunKeeps(Shared(Budget(maximum, 0), map[]), events, s);
  }

  function InsertedBy(e: Event, id: nat, key: Key, was: Option<Block>): Option<Block> {
    match e
    case Appended(i, k, block) => if i == id && k == key then Some(block) else was
    case Opened(i, _) => if i == id then None else was
    case _ => was
  }

  /** The block last inserted under a key since its reader was opened; `was` is the answer before. */
  function LastInserted(events: seq<Event>, id: nat, key: Key, was: Option<Block>): Option<Block> {
    if events == [] then was else LastInserted(events[1..], id, key, InsertedBy(events[0], id, key, was))
  }

  ghost predicate Hits(s: Shared, id: nat, key: Key, block: Option<Block>) {
    id in s.caches && key in s.caches[id].blocks ==> block == Some(s.caches[id].blocks[key])
  }

  lemma HitsAfterStep(s: Shared, e: Event, id: nat, key: Key, was: Option<Block>)
    requires Enabled(s, e) && Hits(s, id, key, was)
    ensures Hits(Next(s, e), id, key, InsertedBy(e, id, key, was))
  {
  }

  lemma {:induction false} HitsOverRun(s: Shared, events: seq<Event>, s': Shared, id: nat, key: Key, was: Option<Block>)
    requires Reaches(s, events, s') && Hits(s, id, key, was)
    ensures Hits(s', id, key, LastInserted(events, id, key, was))
    decreases |events|
  {
    if events != [] {
      var now := InsertedBy(events[0], id, key, was);
      HitsAfterStep(s, events[0], id, key, was);
      HitsOverRun(Next(s, events[0]), events[1..], s', id, key, now);
    }
  }

  /** Over every run of any number of readers, a hit returns the block last inserted under that key. */
  lemma {:induction false} HitReturnsWhatWasInserted(maximum: nat, events: seq<Event>, s: Shared, id: nat, key: Key)
    requires Reaches(Shared(Budget(maximum, 0), map[]), events, s)
    requires id in s.caches && key in s.caches[id].blocks
    ensures LastInserted(events, id, key, None) == Some(s.caches[id].blocks[key])
  {
    HitsOverRun(Shared(Budget(maximum, 0), map[]), events, s, id, key, None);
  }

  lemma {:induction false} DropsAreSteps(s: Shared, id: nat, bytes: int) returns (events: seq<Event>, s': Shared)
    requires id in s.caches
    ensures Reaches(s, events, s') && id in s'.caches
    ensures s'.caches == s.caches[id := MakeRoom(s.caches[id], bytes)]
    ensures s'.budget == Release(s.budget, s.caches[id].stored - MakeRoom(s.caches[id], bytes).stored)
    decreases |s.caches[id].order|
  {
    var c := s.caches[id];
    if HasRoom(c, bytes) || c.order == [] {
      events, s' := [], s;
    } else {
      var e := OldestDropped(id);
      var rest;
      rest, s' := DropsAreSteps(Next(s, e), id, bytes);
      events := [e] + rest;
      assert events[1..] == rest;
      assert s.caches[id := DropOldest(c)][id := MakeRoom(DropOldest(c), bytes)] == s.caches[id := MakeRoom(DropOldest(c), bytes)];
    }
  }

  /** An insertion is a run of single steps, so runs of insertions are covered. */
  lemma {:induction false} InsertIsSteps(s: Shared, id: nat, key: Key, block: Block) returns (events: seq<Event>, s': Shared)
    requires id in s.caches && CacheOk(s.caches[id])
    ensures Reaches(s, events, s')
    ensures var o := Insert(s.caches[id], s.budget, key, block); s' == Shared(o.budget, s.caches[id := o.cache])
  {
    var c := s.caches[id];
    if !Insertable(c, key, block) {
      events, s' := [], s;
      assert s.caches[id := c] == s.caches;
    } else {
      var n := MakeRoomDropsOldest(c, |block|);
      NotKept(c, |block|, key);
      events, s' := DropsAreSteps(s, id, |block|);
      if CanReserve(s'.budget, |block|) {
        var e := Appended(id, key, block);
        ReachesPlus(s, events, s', e);
        events, s' := events + [e], Next(s', e);
      }
    }
  }

  lemma {:induction false} NotKept(c: Cache, bytes: int, key: Key)
    requires key !in c.blocks
    ensures key !in MakeRoom(c, bytes).blocks
    decreases |c.order|
  {
    if !HasRoom(c, bytes) && c.order != [] {
      NotKept(DropOldest(c), bytes, key);
    }
  }

  lemma {:induction false} ReachesPlus(s: Shared, events: seq<Event>, s': Shared, e: Event)
    requires Reaches(s, events, s') && Enabled(s', e)
    ensures Reaches(s, events + [e], Next(s', e))
    decreases |events|
  {
    if events == [] {
      assert (events + [e])[1..] == [];
    } else {
      assert (events + [e])[0] == events[0] && (events + [e])[1..] == events[1..] + [e];
      ReachesPlus(Next(s, events[0]), events[1..], s', e);
    }
  }
}
