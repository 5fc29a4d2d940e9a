/** The block cache and the budget as the objects update them, against the functions that specify them. */
module DecodedBlocks {
  import opened Wrappers
  import opened BlockCache

  class DecodedBlockBudget {
    const maximum: int
    var reserved: int

    ghost function Now(): Budget
      reads this
    {
      Budget(maximum, reserved)
    }

    constructor (maximum: int)
      ensures Now() == Budget(if maximum > 0 then maximum else 0, 0)
    {
      this.maximum := if maximum > 0 then maximum else 0;
      reserved := 0;
    }

    method ReserveBytes(bytes: int) returns (ok: bool)
      modifies this
      ensures ok <==> CanReserve(old(Now()), bytes)
      ensures Now() == if ok then Reserve(old(Now()), bytes) else old(Now())
    {
      if bytes <= 0 || bytes > maximum - reserved {
        return false;
      }
      reserved := reserved + bytes;
      ok := true;
    }

    method ReleaseBytes(bytes: int)
      requires 0 <= bytes <= reserved
      modifies this
      ensures Now() == Release(old(Now()), bytes)
    {
      reserved := reserved - bytes;
    }
  }

  /** A charge on the temporary decode budget for as long as one block is being decoded. */
  class TemporaryDecodeReservation {
    const budget: DecodedBlockBudget
    var reserved: int

    constructor (budget: DecodedBlockBudget, bytes: int)
      modifies budget
      ensures this.budget == budget
      ensures reserved == if CanReserve(old(budget.Now()), bytes) then bytes else 0
      ensures budget.Now() == if CanReserve(old(budget.Now()), bytes) then Reserve(old(budget.Now()), bytes) else old(budget.Now())
    {
      this.budget := budget;
      var ok := budget.ReserveBytes(bytes);
      reserved := if ok then bytes else 0;
    }

    predicate Acquired()
      reads this
    {
      reserved > 0
    }

    /** The end of the reservation's life gives back exactly what it took. */
    method End()
      requires 0 <= reserved <= budget.reserved
      modifies budget
      ensures budget.Now() == Release(old(budget.Now()), reserved)
    {
      if reserved > 0 {
        budget.ReleaseBytes(reserved);
      }
    }
  }

  lemma InsertKeepsCharge(c: Cache, b: Budget, key: Key, block: Block)
    requires CacheOk(c) && c.stored <= b.reserved
    ensures var o := Insert(c, b, key, block);
      CacheOk(o.cache) && o.cache.stored <= o.budget.reserved
  {
    var n := InsertMeans(c, b, key, block);
  }

  class DecodedBlockCache {
    const maximum: int
    const shared: DecodedBlockBudget
    var stored: int
    var blocks: map<Key, Block>
    var order: seq<Key>

    ghost function Now(): Cache
      reads this
    {
      Cache(maximum, blocks, order, stored)
    }

    /** What this reader holds is part of what the budget has handed out. */
    ghost predicate Charged()
      reads this, shared
    {
      CacheOk(Now()) && stored <= shared.reserved
    }

    constructor (maximum: int, shared: DecodedBlockBudget)
      ensures Now() == Empty(maximum) && this.shared == shared
    {
      this.maximum := if maximum > 0 then maximum else 0;
      this.shared := shared;
      stored, blocks, order := 0, map[], [];
    }

    function Find(key: Key): Option<Block>
      reads this
      ensures Find(key).Some? ==> key in Now().blocks && Find(key).value == Now().blocks[key]
      ensures Find(key).None? <==> key !in Now().blocks
    {
      if key in blocks then Some(blocks[key]) else None
    }

    /** One turn of the eviction loop. */
    method EvictOldest()
      requires Charged() && order != []
      modifies this, shared
      ensures Now() == DropOldest(old(Now())) && Charged()
      ensures shared.Now() == Release(old(shared.Now()), OldestBytes(old(Now())))
    {
      DropKeeps(Now());
      StoredIsNatural(DropOldest(Now()));
      var oldest := order[0];
      order := order[1..];
      if oldest in blocks {
        var evicted := |blocks[oldest]|;
        stored := stored - evicted;
        shared.ReleaseBytes(evicted);
        blocks := blocks - {oldest};
      }
    }

    /** The eviction loop: drops the oldest blocks until the new one fits, or there are none left. */
    method EvictUntilRoom(bytes: nat) returns (ok: bool)
      requires Charged() && bytes <= maximum
      modifies this, shared
      ensures Charged()
      ensures Now() == MakeRoom(old(Now()), bytes)
      ensures shared.Now() == Release(old(shared.Now()), old(stored) - stored)
      ensures ok <==> stored <= maximum - bytes
    {
      while stored > maximum - bytes
        invariant Charged() && MakeRoom(Now(), bytes) == MakeRoom(old(Now()), bytes)
        invariant shared.Now() == Release(old(shared.Now()), old(stored) - stored)
        decreases |order|
      {
        if order == [] {
          return false;
        }
        EvictOldest();
      }
      ok := true;
    }

    /** Inserts a block, evicting the oldest ones to make room; evictions stand when the budget refuses. */
    method InsertBlock(key: Key, block: Block) returns (ok: bool)
      requires Charged()
      modifies this, shared
      ensures Outcome(Now(), shared.Now(), ok) == Insert(old(Now()), old(shared.Now()), key, block)
      ensures Charged()
    {
      if block == [] || |block| > maximum || key in blocks {
        return false;
      }
      InsertKeepsCharge(Now(), shared.Now(), key, block);
      ok := EvictUntilRoom(|block|);
      if ok {
        ok := shared.ReserveBytes(|block|);
      }
      if ok {
        blocks := blocks[key := block];
        order := order + [key];
        stored := stored + |block|;
      }
    }

    /** The end of the cache's life gives back everything it still holds. */
    method End()
      requires Charged()
      modifies shared
      ensures shared.Now() == Release(old(shared.Now()), stored)
    {
      StoredIsNatural(Now());
      if stored > 0 {
        shared.ReleaseBytes(stored);
      }
    }
  }
}
