/** Building the batch, advancing the sequences and handling the samples keep the invariant. */
module ServingTick {
  import opened FiniteSets
  import opened Requests
  import opened KvCache
  import opened Batch
  import opened Serving
  import opened ServingInvariant

  // ---------------------------------------------------------------- room

  /** What a request may come to: its prompt and its whole budget. */
  ghost function Need(s: State, id: RequestId): (n: int)
  {
    if id in s.accepted then |s.accepted[id].prompt| + s.accepted[id].maxTokens else 0
  }

  lemma NeedIsReserved(cfg: Config, s: State, owed: set<RequestId>, dirty: bool, id: RequestId)
    requires Inv(cfg, s, owed, dirty) && id in s.active
    ensures 0 <= Need(s, id) <= cfg.blockSize * Held(s.kv, id)
  {
    var seats := SeatsOf(s.active);
    assert id in seats;
    assert PlacedAt(s.waiting, seats, s.accepted, s.outcome, id);
    BlocksSuffice(Need(s, id), cfg.blockSize);
  }

  /** Anything the active requests use within their own needs fits into the context
      together, shared prefixes or not. */
  lemma ReservedFits(cfg: Config, s: State, owed: set<RequestId>, dirty: bool, f: RequestId -> int)
    requires Inv(cfg, s, owed, dirty) && forall id :: id in s.active ==> f(id) <= Need(s, id)
    ensures Sum(s.active.Keys, f) <= cfg.nCtx
  {
    var seats := SeatsOf(s.active);
    forall id | id in s.active ensures f(id) <= cfg.blockSize * Held(s.kv, id) && id in s.kv.table {
      NeedIsReserved(cfg, s, owed, dirty, id);
      assert id in seats;
    }
    HeldFits(s.kv, TotalBlocks(cfg), cfg.blockSize, cfg.nCtx, s.active.Keys, f);
  }

  lemma HeldFits(kv: Kv, total: nat, bs: nat, n: nat, keys: set<RequestId>, f: RequestId -> int)
    requires Balanced(kv, total) && bs >= 1 && total == n / bs
    requires forall id :: id in keys ==> id in kv.table && f(id) <= bs * Held(kv, id)
    ensures Sum(keys, f) <= n
  {
    var held := (id: RequestId) => Held(kv, id) as int;
    var tokens := (id: RequestId) => bs * held(id);
    SumMono(keys, f, tokens);
    SumScale(keys, held, tokens, bs);
    SumSubset(keys, kv.table.Keys, held);
    SumSame(kv.table.Keys, held, id => Held(kv, id));
    BlocksFit(bs, Sum(keys, held), total, n);
  }

  lemma BlocksFit(bs: nat, used: int, total: nat, n: nat)
    requires bs >= 1 && used <= total && total == n / bs
    ensures bs * used <= n
  {
    assert n == bs * total + n % bs;
    assert bs * used + bs * (total - used) == bs * total;
  }

  // ---------------------------------------------------------------- the batch

  lemma PendingWithinNeed(cfg: Config, s: State, owed: set<RequestId>, dirty: bool, id: RequestId)
    requires Inv(cfg, s, owed, dirty) && id in s.active
    ensures |s.active[id].pending| <= Need(s, id)
    ensures id !in owed ==> s.active[id].pending != []
  {
    assert SeqAt(cfg, s, owed, dirty, id);
  }

  lemma {:induction false} DemandOfList(active: map<RequestId, ActiveSeq>, order: seq<RequestId>, chunk: nat,
                                        f: RequestId -> int)
    requires forall i :: 0 <= i < |order| ==> order[i] in active
    requires forall id :: id in active ==> f(id) == Share(active[id], chunk)
    ensures Demand(Listed(active, order), chunk) == SumSeq(order, f)
  {
    if order != [] {
      var n := |order| - 1;
      DemandOfList(active, order[..n], chunk, f);
      assert Listed(active, order)[..n] == Listed(active, order[..n]);
    }
  }

  /** Every tick has room for everybody's full share. */
  lemma DemandFits(cfg: Config, s: State, order: seq<RequestId>)
    requires Inv(cfg, s, {}, false) && ListsAll(order, s.active)
    ensures Demand(Listed(s.active, order), cfg.chunkSize) <= cfg.nCtx
  {
    var f := (id: RequestId) => if id in s.active then Share(s.active[id], cfg.chunkSize) else 0;
    DemandOfList(s.active, order, cfg.chunkSize, f);
    forall x ensures x in s.active.Keys <==> x in order {
      if x in order {
        var i :| 0 <= i < |order| && order[i] == x;
      }
    }
    SumSeqIsSum(order, s.active.Keys, f);
    forall id | id in s.active ensures f(id) <= Need(s, id) {
      PendingWithinNeed(cfg, s, {}, false, id);
    }
    ReservedFits(cfg, s, {}, false, f);
  }

  lemma ListedSlots(cfg: Config, s: State, order: seq<RequestId>)
    requires Inv(cfg, s, {}, false) && ListsAll(order, s.active)
    ensures DistinctSlots(Listed(s.active, order))
  {
    var list, seats := Listed(s.active, order), SeatsOf(s.active);
    forall i, j | 0 <= i < j < |list| ensures list[i].seqId != list[j].seqId {
      assert seats[order[i]] != seats[order[j]];
    }
  }

  lemma BuildIsBatched(cfg: Config, s: State, order: seq<RequestId>)
    requires Inv(cfg, s, {}, false) && ListsAll(order, s.active)
    ensures Batched(cfg, s, Build(Listed(s.active, order), cfg.nCtx, cfg.chunkSize))
  {
    var list := Listed(s.active, order);
    var rows := Build(list, cfg.nCtx, cfg.chunkSize);
    DemandFits(cfg, s, order);
    ListedSlots(cfg, s, order);
    BuildPacks(list, cfg.nCtx, cfg.chunkSize);
    forall id | id in s.active ensures RowsOf(rows, s.active[id].seqId) ==
      Slice(s.active[id], Share(s.active[id], cfg.chunkSize)) {
      var i :| 0 <= i < |order| && order[i] == id;
      assert list[i] == s.active[id];
      BuildGivesFullShares(list, cfg.nCtx, cfg.chunkSize, s.active[id]);
    }
    forall slot: nat | RowsOf(rows, slot) != [] ensures exists id :: id in s.active && s.active[id].seqId == slot {
      RowsHaveOwner(s.active, order, cfg.nCtx, cfg.chunkSize, slot);
    }
  }

  lemma RowsHaveOwner(active: map<RequestId, ActiveSeq>, order: seq<RequestId>, capacity: nat, chunk: nat, slot: nat)
    requires forall i :: 0 <= i < |order| ==> order[i] in active
    requires RowsOf(Build(Listed(active, order), capacity, chunk), slot) != []
    ensures exists id :: id in active && active[id].seqId == slot
  {
    var list := Listed(active, order);
    if forall i :: 0 <= i < |list| ==> list[i].seqId != slot {
      BuildRowsAreOwned(list, capacity, chunk, slot);
    } else {
      var i :| 0 <= i < |list| && list[i].seqId == slot;
      var id := order[i];
      assert id in active && active[id].seqId == slot;
    }
  }

  /** The empty batch happens only when nothing is active. */
  lemma EmptyBatchMeansIdle(cfg: Config, s: State, order: seq<RequestId>)
    requires Inv(cfg, s, {}, false) && ListsAll(order, s.active)
    ensures Build(Listed(s.active, order), cfg.nCtx, cfg.chunkSize) == [] <==> s.active == map[]
  {
    var rows := Build(Listed(s.active, order), cfg.nCtx, cfg.chunkSize);
    BuildIsBatched(cfg, s, order);
    BuildPacks(Listed(s.active, order), cfg.nCtx, cfg.chunkSize);
    if order == [] {
      forall x ensures x !in s.active {}
      assert s.active == map[];
    } else {
      var id := order[0];
      PendingWithinNeed(cfg, s, {}, false, id);
      assert |RowsOf(rows, s.active[id].seqId)| == Share(s.active[id], cfg.chunkSize) >= 1;
    }
  }
}
