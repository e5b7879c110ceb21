/** tinyserve/kv_cache/manager.py and tinyserve/admission/controller.py: block accounting
    and the admission check in front of it. */
module KvCache {
  import opened Requests
  import opened FiniteSets

  /** The accounting as a value: free blocks, and blocks held per request. */
  datatype Kv = Kv(free: int, table: map<RequestId, nat>)

  datatype Reply = Reserved | Refused | AlreadyHeld
  datatype Verdict = Accepted | QueueFull | KvFull | Duplicate

  /** ceil(n / bs). */
  function BlocksNeeded(n: nat, bs: nat): (blocks: nat)
    requires bs >= 1
  {
    (n + bs - 1) / bs
  }

  /** Rounding up does not matter: the blocks are there exactly if the tokens fit into them. */
  lemma FitsIff(n: nat, bs: nat, free: int)
    requires bs >= 1 && free >= 0
    ensures BlocksNeeded(n, bs) <= free <==> n <= free * bs
  {
    var q := BlocksNeeded(n, bs);
    BlocksSuffice(n, bs);
    if q <= free {
      TimesMono(q, free, bs);
    } else {
      TimesMono(free, q - 1, bs);
      assert (q - 1) * bs == q * bs - bs;
    }
  }

  lemma TimesMono(a: int, b: int, c: nat)
    requires a <= b
    ensures a * c <= b * c
  {
    assert b * c == a * c + (b - a) * c;
  }

  /** Enough, and not a block more. */
  lemma BlocksSuffice(n: nat, bs: nat)
    requires bs >= 1
    ensures n <= BlocksNeeded(n, bs) * bs < n + bs
  {
    var m := n + bs - 1;
    assert m == bs * (m / bs) + m % bs;
  }

  function Held(kv: Kv, id: RequestId): (blocks: nat)
  {
    if id in kv.table then kv.table[id] else 0
  }

  function AfterReserve(kv: Kv, id: RequestId, n: nat, bs: nat): (kv': Kv)
    requires bs >= 1
  {
    var needed := BlocksNeeded(n, bs);
    if id in kv.table || needed > kv.free then kv
    else Kv(kv.free - needed, kv.table[id := needed])
  }

  function AfterRelease(kv: Kv, id: RequestId): (kv': Kv)
  {
    Kv(kv.free + Held(kv, id), kv.table - {id})
  }

  /** Conservation: free plus held is the total, and nothing is overdrawn. */
  ghost predicate Balanced(kv: Kv, total: nat)
  {
    kv.free >= 0 && kv.free + Sum(kv.table.Keys, id => Held(kv, id)) == total
  }

  lemma ReserveBalanced(kv: Kv, total: nat, id: RequestId, n: nat, bs: nat)
    requires bs >= 1 && Balanced(kv, total)
    ensures Balanced(AfterReserve(kv, id, n, bs), total)
  {
    var kv' := AfterReserve(kv, id, n, bs);
    if kv' != kv {
      assert kv'.table.Keys == kv.table.Keys + {id};
      SumAdd(kv.table.Keys, x => Held(kv', x), id);
      SumSame(kv.table.Keys, x => Held(kv, x), x => Held(kv', x));
    }
  }

  lemma ReleaseBalanced(kv: Kv, total: nat, id: RequestId)
    requires Balanced(kv, total)
    ensures Balanced(AfterRelease(kv, id), total)
  {
    var kv' := AfterRelease(kv, id);
    if id in kv.table {
      SumRemove(kv.table.Keys, x => Held(kv, x), id);
      assert kv'.table.Keys == kv.table.Keys - {id};
      SumSame(kv'.table.Keys, x => Held(kv, x), x => Held(kv', x));
    } else {
      assert kv'.table == kv.table;
    }
  }

  /** Releasing gives back exactly what a successful reservation took. */
  lemma ReserveThenRelease(kv: Kv, id: RequestId, n: nat, bs: nat)
    requires bs >= 1 && id !in kv.table
    ensures AfterRelease(AfterReserve(kv, id, n, bs), id) == kv
  {
    assert AfterReserve(kv, id, n, bs).table - {id} == kv.table;
  }

  class KVCacheManager {
    const blockSize: nat
    const totalBlocks: nat
    var freeBlocks: int
    var blockTable: map<RequestId, nat>

    ghost function View(): (kv: Kv)
      reads this
    {
      Kv(freeBlocks, blockTable)
    }

    constructor (totalTokens: nat, blockSize: nat)
      requires blockSize >= 1
      ensures this.blockSize == blockSize && totalBlocks == totalTokens / blockSize
      ensures View() == Kv(totalBlocks, map[]) && Balanced(View(), totalBlocks)
    {
      this.blockSize := blockSize;
      totalBlocks := totalTokens / blockSize;
      freeBlocks := totalTokens / blockSize;
      blockTable := map[];
    }

    method Reserve(id: RequestId, nTokens: nat) returns (reply: Reply)
      requires blockSize >= 1 && Balanced(View(), totalBlocks)
      modifies this
      ensures View() == AfterReserve(old(View()), id, nTokens, blockSize) && Balanced(View(), totalBlocks)
      ensures reply == if id in old(blockTable) then AlreadyHeld
                       else if BlocksNeeded(nTokens, blockSize) > old(freeBlocks) then Refused else Reserved
    {
      ReserveBalanced(View(), totalBlocks, id, nTokens, blockSize);
      if id in blockTable {
        return AlreadyHeld;
      }
      var needed := BlocksNeeded(nTokens, blockSize);
      if needed > freeBlocks {
        return Refused;
      }
      freeBlocks := freeBlocks - needed;
      blockTable := blockTable[id := needed];
      reply := Reserved;
    }

    method Release(id: RequestId)
      requires Balanced(View(), totalBlocks)
      modifies this
      ensures View() == AfterRelease(old(View()), id) && Balanced(View(), totalBlocks)
    {
      ReleaseBalanced(View(), totalBlocks, id);
      if id in blockTable {
        var blocks := blockTable[id];
        blockTable := blockTable - {id};
        freeBlocks := freeBlocks + blocks;
      } else {
        assert blockTable - {id} == blockTable;
      }
    }
  }

  class AdmissionController {
    const kvCache: KVCacheManager
    const maxQueueDepth: nat

    constructor (kvCache: KVCacheManager, maxQueueDepth: nat)
      ensures this.kvCache == kvCache && this.maxQueueDepth == maxQueueDepth
    {
      this.kvCache, this.maxQueueDepth := kvCache, maxQueueDepth;
    }

    /** Queue depth first, then the worst case of the request in blocks. Only an accepted
        request holds anything afterwards. */
    method Admit(id: RequestId, promptTokens: nat, maxTokens: nat, queueDepth: nat) returns (verdict: Verdict)
      requires kvCache.blockSize >= 1 && Balanced(kvCache.View(), kvCache.totalBlocks)
      modifies kvCache
      ensures Balanced(kvCache.View(), kvCache.totalBlocks)
      ensures verdict == Decide(old(kvCache.View()), id, promptTokens + maxTokens, kvCache.blockSize, queueDepth,
                                maxQueueDepth)
      ensures var depthOk, unheld, fits := queueDepth < maxQueueDepth, id !in old(kvCache.blockTable),
                                           promptTokens + maxTokens <= old(kvCache.freeBlocks) * kvCache.blockSize;
              && (verdict == QueueFull <==> !depthOk)
              && (verdict == Duplicate <==> depthOk && !unheld)
              && (verdict == KvFull <==> depthOk && unheld && !fits)
              && (verdict == Accepted <==> depthOk && unheld && fits)
      ensures kvCache.View() == if verdict == Accepted
                                then AfterReserve(old(kvCache.View()), id, promptTokens + maxTokens, kvCache.blockSize)
                                else old(kvCache.View())
    {
      DecidedByRoom(kvCache.View(), id, promptTokens + maxTokens, kvCache.blockSize, queueDepth, maxQueueDepth);
      if queueDepth >= maxQueueDepth {
        return QueueFull;
      }
      var reply := kvCache.Reserve(id, promptTokens + maxTokens);
      verdict := match reply case Reserved => Accepted case Refused => KvFull case AlreadyHeld => Duplicate;
    }
  }

  /** What is decided, in tokens: too deep a queue first, then an id that is held already, then
      more tokens than the free blocks hold. */
  lemma DecidedByRoom(kv: Kv, id: RequestId, worstCase: nat, bs: nat, depth: nat, maxDepth: nat)
    requires bs >= 1 && kv.free >= 0
    ensures Decide(kv, id, worstCase, bs, depth, maxDepth) ==
            if depth >= maxDepth then QueueFull
            else if id in kv.table then Duplicate
            else if worstCase > kv.free * bs then KvFull
            else Accepted
  {
    FitsIff(worstCase, bs, kv.free);
  }

  function Decide(kv: Kv, id: RequestId, worstCase: nat, bs: nat, depth: nat, maxDepth: nat): (verdict: Verdict)
    requires bs >= 1
  {
    if depth >= maxDepth then QueueFull
    else if id in kv.table then Duplicate
    else if BlocksNeeded(worstCase, bs) > kv.free then KvFull
    else Accepted
  }
}
