/** The server as it runs (tinyserve/api/app.py): the batch loop and the handlers work on
    shared component objects in place. Every handler, and each of the two parts of the loop's
    turn, is proved to be one event of the state machine, so whatever holds of its runs holds of
    this code. */
module BatchLoop {
  import opened FiniteSets
  import opened Requests
  import opened KvCache
  import opened Waiting
  import opened Streaming
  import opened Batch
  import opened Runtime
  import opened WfqPolicy
  import opened Policies
  import opened PythonCache
  import opened Serving
  import opened ServingInvariant
  import opened ServingQueue
  import opened ServingAdmit
  import opened ServingSample
  import opened ServingRuns
  import PrefixClaims
  import RadixTree

  // ---------------------------------------------------------------- lookups by slot

  /** request_id_of: every slot in use, and who sits there. */
  ghost predicate IsIndex(index: map<nat, RequestId>, requests: map<RequestId, ReqState>)
  {
    && (forall slot :: slot in index ==> index[slot] in requests && requests[index[slot]].seqId == slot)
    && (forall id :: id in requests ==> requests[id].seqId in index && index[requests[id].seqId] == id)
  }

  ghost predicate Seated(requests: map<RequestId, ReqState>)
  {
    forall id, other :: id in requests && other in requests && id != other ==>
      requests[id].seqId != requests[other].seqId
  }

  method IndexBySlot(requests: map<RequestId, ReqState>) returns (index: map<nat, RequestId>)
    requires Seated(requests)
    ensures IsIndex(index, requests)
  {
    var ids := Enumerate(requests.Keys);
    index := map[];
    for i := 0 to |ids|
      invariant forall slot :: slot in index ==> index[slot] in requests && requests[index[slot]].seqId == slot
      invariant forall j :: 0 <= j < i ==> requests[ids[j]].seqId in index && index[requests[ids[j]].seqId] == ids[j]
    {
      index := index[requests[ids[i]].seqId := ids[i]];
    }
  }

  /** The active table once the slots in `done` have been advanced. */
  ghost function AdvancedSome(active: map<RequestId, ActiveSeq>, rows: seq<Row>,
                              done: set<nat>): (r: map<RequestId, ActiveSeq>)
  {
    map id | id in active :: if active[id].seqId in done then Advanced(active[id], rows) else active[id]
  }

  lemma AdvanceOneMore(active: map<RequestId, ActiveSeq>, rows: seq<Row>, done: set<nat>, id: RequestId)
    requires id in active && active[id].seqId !in done
    requires forall x :: x in active && x != id ==> active[x].seqId != active[id].seqId
    ensures AdvancedSome(active, rows, done)[id] == active[id]
    ensures AdvancedSome(active, rows, done)[id := Advanced(active[id], rows)] ==
            AdvancedSome(active, rows, done + {active[id].seqId})
  {
    var before, after := AdvancedSome(active, rows, done), AdvancedSome(active, rows, done + {active[id].seqId});
    var step := before[id := Advanced(active[id], rows)];
    assert step.Keys == after.Keys == active.Keys;
    forall x | x in active ensures step[x] == after[x] {
      assert x != id ==> active[x].seqId != active[id].seqId;
    }
  }

  lemma {:induction false} NoRows(rows: seq<Row>, slot: nat)
    requires forall i :: 0 <= i < |rows| ==> rows[i].seqId != slot
    ensures RowsOf(rows, slot) == []
  {
    if rows != [] { NoRows(rows[..|rows| - 1], slot); }
  }

  /** Whoever has no row in the batch is not changed by it. */
  lemma AdvancedAll(active: map<RequestId, ActiveSeq>, rows: seq<Row>, done: set<nat>)
    requires forall i :: 0 <= i < |rows| ==> rows[i].seqId in done
    ensures AdvancedSome(active, rows, done) == map id | id in active :: Advanced(active[id], rows)
  {
    forall id | id in active && active[id].seqId !in done ensures Advanced(active[id], rows) == active[id] {
      NoRows(rows, active[id].seqId);
    }
  }

  function SlotsOf(rows: seq<Row>): (slots: set<nat>)
  {
    set i | 0 <= i < |rows| :: rows[i].seqId
  }

  ghost function Among(slots: seq<nat>): (r: set<nat>)
  {
    set i | 0 <= i < |slots| :: slots[i]
  }

  lemma AdvancedNone(s: State, rows: seq<Row>, slots: seq<nat>)
    ensures s == s.(active := AdvancedSome(s.active, rows, Among(slots[..0])))
  {
    assert AdvancedSome(s.active, rows, Among(slots[..0])) == s.active;
  }

  lemma EverySlot(rows: seq<Row>, slots: seq<nat>)
    requires forall slot :: slot in slots <==> slot in SlotsOf(rows)
    ensures forall i :: 0 <= i < |rows| ==> rows[i].seqId in Among(slots[..|slots|])
  {
    forall i | 0 <= i < |rows| ensures rows[i].seqId in Among(slots[..|slots|]) {
      assert rows[i].seqId in SlotsOf(rows);
      assert slots[..|slots|] == slots;
    }
  }

  function Consumed(s: State, id: RequestId, n: nat): (s': State)
    requires id in s.active
  {
    var a := s.active[id];
    s.(active := s.active[id := ActiveSeq(a.seqId, if n <= |a.pending| then a.pending[n..] else [], a.nPast + n)])
  }

  lemma NextToAdvance(s: State, rows: seq<Row>, slots: seq<nat>, i: nat, index: map<nat, RequestId>)
    requires Staffed(s.active, s.requests) && IsIndex(index, s.requests)
    requires Distinct(slots) && i < |slots| && slots[i] in index
    ensures var id, t := index[slots[i]], s.(active := AdvancedSome(s.active, rows, Among(slots[..i])));
            && id in t.active
            && Consumed(t, id, RowCount(rows, slots[i])) ==
              s.(active := AdvancedSome(s.active, rows, Among(slots[..i + 1])))
  {
    var id := index[slots[i]];
    assert slots[i] !in Among(slots[..i]);
    assert Among(slots[..i + 1]) == Among(slots[..i]) + {slots[i]} by {
      assert slots[..i + 1] == slots[..i] + [slots[i]];
    }
    AdvanceOneMore(s.active, rows, Among(slots[..i]), id);
  }

  // ---------------------------------------------------------------- the server

  class Server {
    const cfg: Config
    const queue: RequestQueue
    const kvCache: KVCacheManager
    const admission: AdmissionController
    const streams: StreamManager
    const runtime: LlamaRuntime
    const prefixCache: PythonPrefixCache?
    const policy: ActivePolicy

    var active: map<RequestId, ActiveSeq>
    var requests: map<RequestId, ReqState>
    var freeSlots: seq<nat>
    /** Where the loop's coroutine stands. */
    var phase: Phase

    ghost var accepted: map<RequestId, Request>
    ghost var outcome: map<RequestId, Outcome>

    ghost predicate Wired()
    {
      && Sane(cfg)
      && kvCache.blockSize == cfg.blockSize && kvCache.totalBlocks == TotalBlocks(cfg)
      && admission.kvCache == kvCache && admission.maxQueueDepth == cfg.maxQueueDepth
      && runtime.Valid() && runtime.capacity == cfg.nCtx && runtime.next == cfg.next
      && (prefixCache != null <==> cfg.prefixEnabled)
      && (prefixCache != null ==> prefixCache.blockSize == cfg.blockSize)
    }

    ghost predicate Books()
      reads kvCache
    {
      Balanced(kvCache.View(), kvCache.totalBlocks)
    }

    ghost predicate CacheOk()
      reads prefixCache, CacheNodes()
    {
      prefixCache != null ==> prefixCache.Valid()
    }

    ghost predicate Valid()
      reads kvCache, prefixCache, CacheNodes()
    {
      Wired() && Books() && CacheOk()
    }

    ghost function CacheNodes(): (nodes: set<RadixTree.Node>)
      reads prefixCache
    {
      if prefixCache == null then {} else prefixCache.repr
    }

    /** Everything the server may change. */
    ghost function Footprint(): (objects: set<object>)
      reads prefixCache, policy
    {
      {this, queue, kvCache, streams, policy, policy.wfq.fairness} + runtime.Repr()
      + (if prefixCache == null then {} else {prefixCache}) + CacheNodes()
    }

    /** Nodes that were not there before are new. */
    twostate predicate OnlyNew(before: set<RadixTree.Node>)
      reads prefixCache
    {
      forall n :: n in CacheNodes() ==> n in before || fresh(n)
    }

    ghost function Claims(): (claims: seq<PrefixClaims.Claim>)
      reads prefixCache
    {
      if prefixCache == null then [] else prefixCache.claims
    }

    ghost function View(): (s: State)
      reads this, queue, kvCache, streams, runtime, prefixCache
    {
      State(queue.waiting, kvCache.View(), active, requests, freeSlots, Claims(), runtime.store, streams.View(),
            phase, accepted, outcome)
    }

    constructor (cfg: Config, kind: Kind)
      requires Sane(cfg)
      ensures this.cfg == cfg && Valid() && View() == Init(cfg) && policy.View() == Policy(kind, map[])
      ensures fresh(queue) && fresh(kvCache) && fresh(streams) && fresh(runtime.Repr())
      ensures fresh(policy) && fresh(policy.wfq.fairness)
      ensures (prefixCache != null ==> fresh(prefixCache)) && fresh(CacheNodes())
    {
      this.cfg := cfg;
      runtime := new LlamaRuntime(cfg.nCtx, cfg.nSeqMax, cfg.next);
      policy := new ActivePolicy(kind);
      queue := new RequestQueue();
      streams := new StreamManager();
      var kv := new KVCacheManager(cfg.nCtx, cfg.blockSize);
      kvCache := kv;
      admission := new AdmissionController(kv, cfg.maxQueueDepth);
      if cfg.prefixEnabled {
        prefixCache := new PythonPrefixCache(cfg.blockSize);
      } else {
        prefixCache := null;
      }
      active, requests, freeSlots, phase := map[], map[], seq(cfg.nSeqMax, i => i), Ready;
      accepted, outcome := map[], map[];
    }

    // -------------------------------------------------------------- handlers

    /** The part of /generate up to the first await. */
    method Generate(r: Request) returns (verdict: Verdict)
      requires Valid() && r.maxTokens >= 0
      modifies this`accepted, queue, kvCache, streams
      ensures Valid() && CacheNodes() == old(CacheNodes()) && View() == AfterArrive(cfg, old(View()), r)
      ensures verdict == Decide(old(kvCache.View()), r.id, |r.prompt| + r.maxTokens, cfg.blockSize,
                                old(|queue.waiting|), cfg.maxQueueDepth)
      ensures verdict == Accepted <==>
                && old(|queue.waiting|) < cfg.maxQueueDepth && r.id !in old(kvCache.blockTable)
                && |r.prompt| + r.maxTokens <= old(kvCache.freeBlocks) * cfg.blockSize
    {
      DecidedByRoom(kvCache.View(), r.id, |r.prompt| + r.maxTokens, cfg.blockSize, |queue.waiting|, cfg.maxQueueDepth);
      var depth := queue.Depth();
      verdict := Reserve(r, depth);
      if verdict == Accepted {
        Enqueue(r);
      }
    }

    method Reserve(r: Request, depth: nat) returns (verdict: Verdict)
      requires Valid() && r.maxTokens >= 0
      modifies kvCache
      ensures Valid() && CacheNodes() == old(CacheNodes())
              && verdict == Decide(old(kvCache.View()), r.id, |r.prompt| + r.maxTokens, cfg.blockSize, depth,
                                   cfg.maxQueueDepth)
      ensures View() == old(View()).(kv := if verdict == Accepted then
                                     AfterReserve(old(kvCache.View()), r.id, |r.prompt| + r.maxTokens, cfg.blockSize)
                                           else old(kvCache.View()))
    {
      verdict := admission.Admit(r.id, |r.prompt|, r.maxTokens, depth);
    }

    method Enqueue(r: Request)
      requires Valid()
      modifies this`accepted, queue, streams
      ensures Valid() && CacheNodes() == old(CacheNodes())
      ensures View() == old(View()).(streams := AfterCreate(old(streams.View()), r.id),
                                     waiting := Pushed(old(queue.waiting), r),
                                     accepted := old(accepted)[r.id := r])
    {
      streams.Create(r.id);
      queue.Push(r);
      accepted := accepted[r.id := r];
    }

    method CancelStream(id: RequestId)
      requires Valid()
      modifies streams
      ensures Valid() && CacheNodes() == old(CacheNodes())
              && View() == old(View()).(streams := AfterCancel(old(streams.View()), id))
    {
      streams.Cancel(id);
    }

    method TakeChunk(id: RequestId) returns (got: Delivery)
      requires Valid()
      modifies streams
      ensures Valid() && CacheNodes() == old(CacheNodes())
              && View() == old(View()).(streams := AfterTake(old(streams.View()), id))
      ensures got == if id in old(streams.streams) && old(streams.streams)[id].queue != []
                     then Delivered(old(streams.streams)[id].queue[0]) else Nothing
    {
      got := streams.Take(id);
    }

    method DropStream(id: RequestId)
      requires Valid()
      modifies streams
      ensures Valid() && CacheNodes() == old(CacheNodes())
              && View() == old(View()).(streams := AfterDrop(old(streams.View()), id))
    {
      streams.Drop(id);
    }

    method SetPolicy(name: string) returns (known: bool)
      requires Valid()
      modifies policy
      ensures Valid() && CacheNodes() == old(CacheNodes()) && View() == old(View())
      ensures known == Known(name) && policy.View() == Switched(old(policy.View()), name)
      ensures policy.wfq.fairness == old(policy.wfq.fairness) || fresh(policy.wfq.fairness)
    {
      known := policy.Set(name);
    }

    // -------------------------------------------------------------- pieces of the loop

    /** Look the prompt up, copy what can be copied, and publish the prompt. */
    method ClaimPrefix(prompt: seq<Token>, slot: nat) returns (reused: nat)
      requires Valid()
      modifies runtime`store, prefixCache, CacheNodes()
      ensures Valid() && OnlyNew(old(CacheNodes()))
      ensures reused == Reused(cfg, old(View()), prompt, slot)
      ensures View() == Claimed(cfg, old(View()), prompt, slot)
    {
      reused := 0;
      if prefixCache == null {
        return;
      }
      var hit := prefixCache.MatchForReuse(prompt);
      if hit.nTokens > 0 {
        reused := Copy(hit, slot);
      }
      Insert(prompt, slot);
    }

    method Copy(hit: PrefixClaims.PrefixMatch, slot: nat) returns (reused: nat)
      requires Valid()
      modifies runtime`store
      ensures Valid() && CacheNodes() == old(CacheNodes())
              && reused == if CanReuse(old(runtime.store), hit.seqId, slot, hit.nTokens) then hit.nTokens else 0
      ensures View() == old(View()).(store := AfterReuse(old(runtime.store), hit.seqId, slot, hit.nTokens))
    {
      var ok := runtime.ReusePrefix(hit.seqId, slot, hit.nTokens);
      reused := if ok then hit.nTokens else 0;
    }

    method Insert(prompt: seq<Token>, slot: nat)
      requires Valid() && prefixCache != null
      modifies prefixCache, CacheNodes()
      ensures Valid() && OnlyNew(old(CacheNodes()))
      ensures View() == old(View()).(claims := PrefixClaims.Insert(old(Claims()), slot,
                                                                   PrefixClaims.Blocks(prompt, cfg.blockSize)))
    {
      var published := prefixCache.Insert(prompt, slot);
    }

    method Evict(slot: nat)
      requires Valid()
      modifies prefixCache, CacheNodes()
      ensures Valid() && CacheNodes() == old(CacheNodes())
      ensures View() == old(View()).(claims := if cfg.prefixEnabled then PrefixClaims.Evict(old(Claims()), slot)
                                     else old(Claims()))
    {
      if prefixCache != null {
        prefixCache.Evict(slot);
      }
    }

    method Dequeue(id: RequestId)
      requires Valid() && DistinctIds(queue.waiting) && Waits(queue.waiting, id)
      modifies queue
      ensures Valid() && CacheNodes() == old(CacheNodes()) && DistinctIds(queue.waiting)
      ensures View() == old(View()).(waiting := Removed(old(queue.waiting), id))
    {
      RemovedDistinct(queue.waiting, id);
      var taken := queue.Remove(id);
    }

    method Seat(r: Request, slot: nat, nPast: nat)
      requires Valid()
      modifies this`active, this`requests
      ensures Valid() && CacheNodes() == old(CacheNodes())
      ensures View() == Enlisted(old(View()), r, slot, nPast)
    {
      active := active[r.id := ActiveSeq(slot, if nPast <= |r.prompt| then r.prompt[nPast..] else [], nPast)];
      requests := requests[r.id := ReqState(slot, r.maxTokens, 0)];
    }

    method PopSlot() returns (slot: nat)
      requires Valid() && freeSlots != []
      modifies this`freeSlots
      ensures Valid() && CacheNodes() == old(CacheNodes()) && slot == old(freeSlots)[|old(freeSlots)| - 1]
      ensures View() == old(View()).(freeSlots := old(freeSlots)[..|old(freeSlots)| - 1])
    {
      slot := freeSlots[|freeSlots| - 1];
      freeSlots := freeSlots[..|freeSlots| - 1];
    }

    method Admit(r: Request)
      requires Valid() && freeSlots != []
      requires DistinctIds(queue.waiting) && Waits(queue.waiting, r.id)
      modifies this`active, this`requests, this`freeSlots, queue, runtime`store, prefixCache, CacheNodes()
      ensures Valid() && OnlyNew(old(CacheNodes()))
      ensures View() == AdmitOne(cfg, old(View()), r)
    {
      ghost var s := View();
      Dequeue(r.id);
      var slot := PopSlot();
      var nPast := ClaimPrefix(r.prompt, slot);
      Seat(r, slot, nPast);
      AdmitOneInSteps(cfg, s, r);
    }

    method FreeSlot(slot: nat)
      requires Valid()
      modifies runtime`store, this`freeSlots
      ensures Valid() && CacheNodes() == old(CacheNodes())
              && View() == old(View()).(store := AfterFree(old(runtime.store), slot),
                                        freeSlots := old(freeSlots) + [slot])
    {
      runtime.FreeSequence(slot);
      freeSlots := freeSlots + [slot];
    }

    /** Give the blocks back and end the stream. */
    method Settle(id: RequestId, how: Outcome)
      requires Valid()
      modifies this`outcome, kvCache, streams
      ensures Valid() && CacheNodes() == old(CacheNodes())
      ensures View() == old(View()).(kv := AfterRelease(old(kvCache.View()), id),
                                     streams := AfterPut(old(streams.View()), id, End),
                                     outcome := old(outcome)[id := how])
    {
      kvCache.Release(id);
      streams.Close(id);
      outcome := outcome[id := how];
    }

    method FinishRequest(id: RequestId, how: Outcome)
      requires Valid() && id in requests && id in active
      modifies this`active, this`requests, this`freeSlots, this`outcome, kvCache, streams, runtime`store, prefixCache,
               CacheNodes()
      ensures Valid() && CacheNodes() == old(CacheNodes())
      ensures View() == Finish(cfg, old(View()), id, how)
    {
      var slot := requests[id].seqId;
      Evict(slot);
      FreeSlot(slot);
      Unseat(id);
      Settle(id, how);
    }

    method Unseat(id: RequestId)
      requires Valid()
      modifies this`active, this`requests
      ensures Valid() && CacheNodes() == old(CacheNodes())
              && View() == old(View()).(requests := old(requests) - {id}, active := old(active) - {id})
    {
      requests := requests - {id};
      active := active - {id};
    }

    method ExpireWaiter(id: RequestId)
      requires Valid() && DistinctIds(queue.waiting) && Waits(queue.waiting, id)
      modifies this`outcome, queue, kvCache, streams
      ensures Valid() && CacheNodes() == old(CacheNodes()) && DistinctIds(queue.waiting)
              && View() == ExpireOne(old(View()), id)
    {
      Dequeue(id);
      Settle(id, QueueTimeout);
    }

    method ExpireStaleWaiters(expired: set<RequestId>)
      requires Valid() && DistinctIds(queue.waiting)
      modifies this`outcome, queue, kvCache, streams
      ensures Valid() && CacheNodes() == old(CacheNodes()) && DistinctIds(queue.waiting)
      ensures View() == ExpireAll(old(View()), old(queue.waiting), expired)
    {
      var pool := queue.waiting;
      ghost var s := View();
      for i := 0 to |pool|
        invariant Valid() && DistinctIds(queue.waiting)
        invariant View() == ExpireAll(s, pool[..i], expired)
      {
        NextToExpire(s, i, expired);
        if pool[i].id in expired {
          ExpireWaiter(pool[i].id);
        }
      }
      assert pool[..|pool|] == pool;
    }

    method AdmitChosen(chosen: seq<Request>)
      requires Valid() && |chosen| <= |freeSlots|
      requires DistinctIds(queue.waiting) && DistinctIds(chosen) && forall r :: r in chosen ==> r in queue.waiting
      modifies this`active, this`requests, this`freeSlots, queue, runtime`store, prefixCache, CacheNodes()
      ensures Valid() && OnlyNew(old(CacheNodes()))
      ensures View() == AdmitAll(cfg, old(View()), chosen)
    {
      ghost var s := View();
      for i := 0 to |chosen|
        invariant Valid() && OnlyNew(old(CacheNodes()))
        invariant View() == AdmitAll(cfg, s, chosen[..i])
      {
        NextToAdmit(cfg, s, chosen, i);
        Admit(chosen[i]);
      }
      assert chosen[..|chosen|] == chosen;
    }

    /** The choice is the one of the policy in force. */
    method Choose() returns (chosen: seq<Request>, ghost grants: seq<Grant>)
      requires Valid() && DistinctIds(queue.waiting)
      modifies policy.wfq.fairness
      ensures Valid() && View() == old(View()) && CacheNodes() == old(CacheNodes())
      ensures Chose(old(policy.View()), queue.waiting, |freeSlots|, chosen, grants, policy.View())
    {
      chosen, grants := [], [];
      ChoseNobody(policy.View(), queue.waiting, 0);
      if freeSlots != [] {
        chosen, grants := policy.Select(queue.waiting, |freeSlots|);
      }
    }

    method FillBatch() returns (order: seq<RequestId>)
      requires Valid()
      modifies this`phase
      ensures Valid() && CacheNodes() == old(CacheNodes()) && ListsAll(order, active)
              && policy.View() == old(policy.View())
      ensures var rows := Build(Listed(active, order), cfg.nCtx, cfg.chunkSize);
              View() == old(View()).(phase := if rows == [] then Ready else Decoding(rows))
    {
      order := Enumerate(active.Keys);
      var rows := BuildBatch(Listed(active, order), runtime.capacity, cfg.chunkSize);
      phase := if rows == [] then Ready else Decoding(rows);
    }

    /** Fill the free slots and build the batch. */
    method Schedule() returns (chosen: seq<Request>, order: seq<RequestId>, ghost grants: seq<Grant>)
      requires Valid() && DistinctIds(queue.waiting)
      modifies this`active, this`requests, this`freeSlots, this`phase, queue, runtime`store, prefixCache,
               CacheNodes(), policy.wfq.fairness
      ensures Valid() && OnlyNew(old(CacheNodes()))
      ensures Chose(old(policy.View()), old(queue.waiting), |old(freeSlots)|, chosen, grants, policy.View())
      ensures ListsAll(order, AdmitAll(cfg, old(View()), chosen).active)
      ensures View() == AfterSchedule(cfg, old(View()), chosen, order)
    {
      chosen, grants := Choose();
      assert IsSelection(queue.waiting, |freeSlots|, chosen);
      ghost var p := policy.View();
      AdmitChosen(chosen);
      assert policy.View() == p;
      order := FillBatch();
    }

    method Park()
      requires Valid()
      modifies this`phase
      ensures Valid() && CacheNodes() == old(CacheNodes()) && View() == old(View()).(phase := Parked)
    {
      phase := Parked;
    }

    /** The first part of the loop's turn: expire, then park or fill a batch. */
    method TickStart(expired: set<RequestId>)
      returns (chosen: seq<Request>, order: seq<RequestId>, ghost grants: seq<Grant>)
      requires Valid() && DistinctIds(queue.waiting)
      requires phase == Ready || (phase == Parked && queue.waiting != [])
      modifies this, queue, kvCache, streams, runtime`store, prefixCache, CacheNodes(), policy.wfq.fairness
      ensures Valid() && OnlyNew(old(CacheNodes()))
      ensures Step(cfg, old(View()), Event.TickStart(expired, chosen, order), View())
      ensures var t := ExpireAll(old(View()), old(queue.waiting), expired);
              Chose(old(policy.View()), t.waiting, |t.freeSlots|, chosen, grants, policy.View())
    {
      ghost var s := View();
      ExpireStaleWaiters(expired);
      var depth := queue.Depth();
      if phase == Ready && active == map[] && depth == 0 {
        Park();
        ParkStep(cfg, s, expired);
        ChoseNobody(policy.View(), [], |freeSlots|);
        return [], [], [];
      }
      chosen, order, grants := Schedule();
      ScheduleStep(cfg, s, expired, chosen, order);
    }

    // -------------------------------------------------------------- after the decode call

    method Consume(id: RequestId, consumed: nat)
      requires Valid() && id in active
      modifies this`active
      ensures Valid() && CacheNodes() == old(CacheNodes()) && View() == Consumed(old(View()), id, consumed)
    {
      var a := active[id];
      active := active[id := ActiveSeq(a.seqId, if consumed <= |a.pending| then a.pending[consumed..] else [],
                                       a.nPast + consumed)];
    }

    /** n_past and pending_tokens of every sequence in the batch. */
    method Advance(rows: seq<Row>, index: map<nat, RequestId>)
      requires Valid() && Staffed(active, requests) && IsIndex(index, requests)
      requires forall slot :: slot in SlotsOf(rows) ==> slot in index
      modifies this`active
      ensures Valid() && CacheNodes() == old(CacheNodes())
              && View() == old(View()).(active := map id | id in old(active) :: Advanced(old(active)[id], rows))
    {
      ghost var s := View();
      var slots := Enumerate(SlotsOf(rows));
      AdvancedNone(s, rows, slots);
      for i := 0 to |slots|
        invariant Valid() && View() == s.(active := AdvancedSome(s.active, rows, Among(slots[..i])))
      {
        NextToAdvance(s, rows, slots, i, index);
        Consume(index[slots[i]], RowCount(rows, slots[i]));
      }
      EverySlot(rows, slots);
      AdvancedAll(s.active, rows, Among(slots[..|slots|]));
    }

    method CountDown(id: RequestId)
      requires Valid() && id in requests
      modifies this`requests
      ensures Valid() && CacheNodes() == old(CacheNodes()) && View() == CountedDown(old(View()), id)
    {
      requests := requests[id := requests[id].(remaining := requests[id].remaining - 1)];
    }

    method Push(id: RequestId, token: Token)
      requires Valid() && id in requests && id in active
      modifies this`requests, this`active, streams
      ensures Valid() && CacheNodes() == old(CacheNodes()) && View() == FedBack(old(View()), id, token)
    {
      requests := requests[id := requests[id].(emitted := requests[id].emitted + 1)];
      streams.PushToken(id, token);
      active := active[id := active[id].(pending := [token])];
    }

    /** Finish, or push and feed back. */
    method SampleToken(id: RequestId, token: Token, timedOut: set<RequestId>)
      requires Valid() && id in requests && id in active
      modifies this`active, this`requests, this`freeSlots, this`outcome, kvCache, streams, runtime`store, prefixCache,
               CacheNodes()
      ensures Valid() && CacheNodes() == old(CacheNodes())
      ensures View() == SampleOne(cfg, old(View()), id, token, timedOut)
    {
      CountDown(id);
      var cancelled := streams.IsStreamCancelled(id);
      if token == cfg.eos || requests[id].remaining <= 0 {
        FinishRequest(id, Completed);
      } else if cancelled {
        FinishRequest(id, Disconnected);
      } else if id in timedOut {
        FinishRequest(id, GenerationTimeout);
      } else {
        Push(id, token);
      }
    }

    method HandleSamples(sampled: map<nat, Token>, index: map<nat, RequestId>, timedOut: set<RequestId>)
      returns (order: seq<RequestId>)
      requires Valid() && Staffed(active, requests) && IsIndex(index, requests)
      requires forall slot :: slot in sampled ==> slot in index
      modifies this`active, this`requests, this`freeSlots, this`outcome, kvCache, streams, runtime`store, prefixCache,
               CacheNodes()
      ensures Valid() && CacheNodes() == old(CacheNodes())
      ensures ListsSampled(order, old(View()), sampled)
      ensures View() == SampleAll(cfg, old(View()), order, sampled, timedOut)
    {
      ghost var s := View();
      var slots := Enumerate(sampled.Keys);
      order := [];
      for i := 0 to |slots|
        invariant Valid() && CacheNodes() == old(CacheNodes())
        invariant Called(index, slots[..i], order)
        invariant View() == SampleAll(cfg, s, order, sampled, timedOut)
      {
        var id := index[slots[i]];
        NextToSample(cfg, s, slots, i, index, order, sampled, timedOut);
        SampleToken(id, sampled[slots[i]], timedOut);
        order := order + [id];
      }
      assert slots[..|slots|] == slots;
      AllCalled(s, index, slots, order, sampled);
    }

    /** A failed decode call ends every active request. */
    method FinishEverybody() returns (ids: seq<RequestId>)
      requires Valid() && active.Keys == requests.Keys
      modifies this`active, this`requests, this`freeSlots, this`outcome, kvCache, streams, runtime`store, prefixCache,
               CacheNodes()
      ensures Valid() && CacheNodes() == old(CacheNodes())
      ensures Distinct(ids) && forall id :: id in ids <==> id in old(requests)
      ensures View() == FinishAll(cfg, old(View()), ids)
    {
      ghost var s := View();
      ids := Enumerate(requests.Keys);
      for i := 0 to |ids|
        invariant Valid() && CacheNodes() == old(CacheNodes())
        invariant View() == FinishAll(cfg, s, ids[..i])
      {
        NextToFinish(cfg, s, ids, i);
        FinishRequest(ids[i], DecodeError);
      }
      assert ids[..|ids|] == ids;
    }

    method Wake()
      requires Valid()
      modifies this`phase
      ensures Valid() && CacheNodes() == old(CacheNodes()) && View() == old(View()).(phase := Ready)
    {
      phase := Ready;
    }

    method Decode(rows: seq<Row>, fails: bool, garbage: Store) returns (ok: bool, sampled: map<nat, Token>)
      requires Valid() && |rows| <= cfg.nCtx
      modifies runtime, runtime.tokenBuf, runtime.posBuf, runtime.seqBuf, runtime.logitsBuf
      ensures Valid() && CacheNodes() == old(CacheNodes()) && ok == !fails
      ensures View() == old(View()).(store := if ok then Written(old(runtime.store), rows)
                                     else Scrambled(old(runtime.store), rows, garbage))
      ensures ok ==> sampled == Sampled(cfg.next, runtime.store, rows)
    {
      ok, sampled := runtime.Decode(rows, fails, garbage);
    }

    /** Everything after a successful decode call. */
    method UseSamples(rows: seq<Row>, sampled: map<nat, Token>, timedOut: set<RequestId>)
      returns (order: seq<RequestId>)
      requires Valid() && Staffed(active, requests) && Occupied(rows, requests)
      requires sampled == Sampled(cfg.next, runtime.store, rows)
      modifies this, kvCache, streams, runtime`store, prefixCache, CacheNodes()
      ensures Valid() && CacheNodes() == old(CacheNodes())
      ensures var t := old(View()).(active := map id | id in old(active) :: Advanced(old(active)[id], rows));
              && ListsSampled(order, t, sampled)
              && View() == SampleAll(cfg, t, order, sampled, timedOut).(phase := Ready)
    {
      var index := IndexBySlot(requests);
      OccupiedIndex(rows, requests, index);
      SampledOccupied(cfg.next, runtime.store, rows);
      ghost var before := active;
      Advance(rows, index);
      StaffedStays(before, active, requests);
      order := HandleSamples(sampled, index, timedOut);
      Wake();
    }

    /** From the decode call to the end of the loop's turn. Whether it fails is up to the library. */
    method DecodeReturns(fails: bool, garbage: Store, timedOut: set<RequestId>) returns (ghost e: Event)
      requires Valid() && Good(cfg, View()) && phase.Decoding?
      modifies this, kvCache, streams, runtime, runtime.tokenBuf, runtime.posBuf, runtime.seqBuf, runtime.logitsBuf,
               prefixCache, CacheNodes()
      ensures Valid() && CacheNodes() == old(CacheNodes())
      ensures if fails then e.TickFail? && e.garbage == garbage else e.TickEnd? && e.timedOut == timedOut
      ensures Step(cfg, old(View()), e, View())
    {
      ghost var s := View();
      var rows := phase.rows;
      GoodStaff(cfg, s);
      var ok, sampled := Decode(rows, fails, garbage);
      if ok {
        var order := UseSamples(rows, sampled, timedOut);
        EndStep(cfg, s, timedOut, order);
        e := TickEnd(timedOut, order);
      } else {
        var ids := FinishEverybody();
        Wake();
        FailStep(cfg, s, garbage, ids);
        e := TickFail(garbage, ids);
      }
    }
  }

  // ---------------------------------------------------------------- what the loops need

  /** Every row of the batch is for a slot somebody sits in. */
  ghost predicate Occupied(rows: seq<Row>, requests: map<RequestId, ReqState>)
  {
    forall i :: 0 <= i < |rows| ==> exists id :: id in requests && requests[id].seqId == rows[i].seqId
  }

  lemma GoodStaff(cfg: Config, s: State)
    requires Good(cfg, s) && s.phase.Decoding?
    ensures Staffed(s.active, s.requests) && Occupied(s.phase.rows, s.requests) && |s.phase.rows| <= cfg.nCtx
  {
    var rows, seats := s.phase.rows, SeatsOf(s.active);
    forall id | id in s.active ensures id in s.requests && s.active[id].seqId == s.requests[id].seqId
      && seats[id] == s.active[id].seqId {
      assert SeqAt(cfg, s, {}, false, id);
    }
    forall i | 0 <= i < |rows| ensures exists id :: id in s.requests && s.requests[id].seqId == rows[i].seqId {
      RowsThere(rows, i);
      var id :| id in s.active && s.active[id].seqId == rows[i].seqId;
      assert s.requests[id].seqId == rows[i].seqId;
    }
  }

  lemma OccupiedIndex(rows: seq<Row>, requests: map<RequestId, ReqState>, index: map<nat, RequestId>)
    requires Occupied(rows, requests) && IsIndex(index, requests)
    ensures forall slot :: slot in SlotsOf(rows) ==> slot in index
  {
  }

  /** Only slots with a row are sampled. */
  lemma {:induction false} SampledOccupied(next: Model, store: Store, rows: seq<Row>)
    ensures forall slot :: slot in Sampled(next, store, rows) ==> slot in SlotsOf(rows)
  {
    if rows != [] {
      var n := |rows| - 1;
      SampledOccupied(next, store, rows[..n]);
      assert SlotsOf(rows) == SlotsOf(rows[..n]) + {rows[n].seqId} by {
        assert rows == rows[..n] + [rows[n]];
      }
    }
  }

  lemma StaffedStays(active: map<RequestId, ActiveSeq>, active': map<RequestId, ActiveSeq>,
                     requests: map<RequestId, ReqState>)
    requires Staffed(active, requests) && active'.Keys == active.Keys
    requires forall id :: id in active ==> active'[id].seqId == active[id].seqId
    ensures Staffed(active', requests)
  {
  }

  lemma EndStep(cfg: Config, s: State, timedOut: set<RequestId>, order: seq<RequestId>)
    requires cfg.blockSize >= 1 && s.phase.Decoding?
    requires var t := AdvanceAll(s, s.phase.rows);
             ListsSampled(order, t, Sampled(cfg.next, t.store, s.phase.rows))
    ensures var t := AdvanceAll(s, s.phase.rows);
            Step(cfg, s, TickEnd(timedOut, order),
                 SampleAll(cfg, t, order, Sampled(cfg.next, t.store, s.phase.rows), timedOut).(phase := Ready))
  {
    var rows := s.phase.rows;
    var t, sampled := AdvanceAll(s, rows), Sampled(cfg.next, Written(s.store, rows), rows);
    forall id ensures id in order <==> id in s.active && s.active[id].seqId in sampled {
      assert id in order <==> id in t.active && t.active[id].seqId in sampled;
    }
  }

  lemma FailStep(cfg: Config, s: State, garbage: Store, ids: seq<RequestId>)
    requires cfg.blockSize >= 1 && s.phase.Decoding? && Distinct(ids) && forall id :: id in ids <==> id in s.requests
    ensures Step(cfg, s, TickFail(garbage, ids),
                 FinishAll(cfg, s.(store := Scrambled(s.store, s.phase.rows, garbage)), ids).(phase := Ready))
  {
  }

  /** The cells and the claims after a new slot has looked for a donor and published. */
  function Claimed(cfg: Config, s: State, prompt: seq<Token>, slot: nat): (s': State)
    requires cfg.blockSize >= 1
  {
    var hit := PrefixClaims.MatchForReuse(s.claims, prompt, cfg.blockSize);
    if !cfg.prefixEnabled then s
    else s.(store := AfterReuse(s.store, hit.seqId, slot, hit.nTokens),
            claims := PrefixClaims.Insert(s.claims, slot, PrefixClaims.Blocks(prompt, cfg.blockSize)))
  }

  /** The tables after a request has been given a slot. */
  function Enlisted(s: State, r: Request, slot: nat, nPast: nat): (s': State)
  {
    s.(active := s.active[r.id := ActiveSeq(slot, if nPast <= |r.prompt| then r.prompt[nPast..] else [], nPast)],
       requests := s.requests[r.id := ReqState(slot, r.maxTokens, 0)])
  }

  /** Leaving the pool and taking a slot. */
  function Summoned(s: State, id: RequestId): (s': State)
    requires s.freeSlots != []
  {
    s.(waiting := Removed(s.waiting, id), freeSlots := s.freeSlots[..|s.freeSlots| - 1])
  }

  lemma AdmitOneInSteps(cfg: Config, s: State, r: Request)
    requires cfg.blockSize >= 1 && s.freeSlots != []
    ensures var slot, t := TopSlot(s), Summoned(s, r.id);
            AdmitOne(cfg, s, r) == Enlisted(Claimed(cfg, t, r.prompt, slot), r, slot, Reused(cfg, t, r.prompt, slot))
  {
  }

  lemma NextToExpire(s: State, i: nat, expired: set<RequestId>)
    requires DistinctIds(s.waiting) && i < |s.waiting|
    ensures var id, t := s.waiting[i].id, ExpireAll(s, s.waiting[..i], expired);
            && (id in expired ==> Waits(t.waiting, id))
            && ExpireAll(s, s.waiting[..i + 1], expired) == if id in expired then ExpireOne(t, id) else t
  {
    var id, pool := s.waiting[i].id, s.waiting[..i + 1];
    assert pool[..i] == s.waiting[..i];
    LastIsNew(s.waiting, pool);
    ExpireAllWaits(s, s.waiting[..i], expired, id);
  }

  lemma ParkStep(cfg: Config, s: State, expired: set<RequestId>)
    requires cfg.blockSize >= 1 && s.phase == Ready && Idle(ExpireAll(s, s.waiting, expired))
    ensures Step(cfg, s, TickStart(expired, [], []), ExpireAll(s, s.waiting, expired).(phase := Parked))
  {
  }

  lemma ScheduleStep(cfg: Config, s: State, expired: set<RequestId>, chosen: seq<Request>, order: seq<RequestId>)
    requires cfg.blockSize >= 1 && (s.phase == Ready || (s.phase == Parked && s.waiting != []))
    requires var t := ExpireAll(s, s.waiting, expired);
             && !Idle(t) && IsSelection(t.waiting, |t.freeSlots|, chosen)
             && ListsAll(order, AdmitAll(cfg, t, chosen).active)
    ensures Step(cfg, s, TickStart(expired, chosen, order),
                 AfterSchedule(cfg, ExpireAll(s, s.waiting, expired), chosen, order))
  {
  }

  lemma NextToAdmit(cfg: Config, s: State, chosen: seq<Request>, i: nat)
    requires cfg.blockSize >= 1 && |chosen| <= |s.freeSlots| && i < |chosen|
    requires DistinctIds(s.waiting) && DistinctIds(chosen) && forall r :: r in chosen ==> r in s.waiting
    ensures var t := AdmitAll(cfg, s, chosen[..i]);
            && t.freeSlots != [] && DistinctIds(t.waiting) && Waits(t.waiting, chosen[i].id)
            && AdmitAll(cfg, s, chosen[..i + 1]) == AdmitOne(cfg, t, chosen[i])
  {
    var more := chosen[..i + 1];
    assert more[..i] == chosen[..i] && more[i] == chosen[i];
    forall r | r in more ensures r in s.waiting {
      assert r in chosen;
    }
    StillWaits(cfg, s, more);
    AdmitAllFrame(cfg, s, more[..i]);
  }

  /** The two tables of active requests agree, and no two of them share a slot. */
  ghost predicate Staffed(active: map<RequestId, ActiveSeq>, requests: map<RequestId, ReqState>)
  {
    && active.Keys == requests.Keys && Seated(requests)
    && forall id :: id in active ==> active[id].seqId == requests[id].seqId
  }

  /** The requests behind the slots, in the same order. */
  ghost predicate Called(index: map<nat, RequestId>, slots: seq<nat>, order: seq<RequestId>)
  {
    |order| == |slots| && forall i :: 0 <= i < |slots| ==> slots[i] in index && order[i] == index[slots[i]]
  }

  lemma NextToSample(cfg: Config, s: State, slots: seq<nat>, i: nat, index: map<nat, RequestId>, order: seq<RequestId>,
                     sampled: map<nat, Token>, timedOut: set<RequestId>)
    requires Staffed(s.active, s.requests) && IsIndex(index, s.requests)
    requires i < |slots| && Distinct(slots) && slots[i] in sampled && slots[i] in index
             && Called(index, slots[..i], order)
    ensures var id, t := index[slots[i]], SampleAll(cfg, s, order, sampled, timedOut);
            && Called(index, slots[..i + 1], order + [id])
            && id in t.requests && id in t.active
            && SampleAll(cfg, s, order + [id], sampled, timedOut) == SampleOne(cfg, t, id, sampled[slots[i]], timedOut)
  {
    var id := index[slots[i]];
    assert (order + [id])[..|order|] == order;
    assert id !in order by {
      forall j | 0 <= j < |order| ensures order[j] != id {
        assert slots[..i][j] == slots[j] != slots[i];
      }
    }
    SampleAllLeavesOthers(cfg, s, order, sampled, timedOut, id);
  }

  lemma AllCalled(s: State, index: map<nat, RequestId>, slots: seq<nat>, order: seq<RequestId>,
                  sampled: map<nat, Token>)
    requires Staffed(s.active, s.requests) && IsIndex(index, s.requests) && Called(index, slots, order)
    requires Distinct(slots) && forall slot :: slot in slots <==> slot in sampled
    ensures ListsSampled(order, s, sampled)
  {
    forall i, j | 0 <= i < j < |order| ensures order[i] != order[j] {
      assert slots[i] != slots[j];
    }
    forall id ensures id in order <==> id in s.active && s.active[id].seqId in sampled {
      if id in order {
        var i :| 0 <= i < |order| && order[i] == id;
        assert slots[i] in slots;
      }
      if id in s.active && s.active[id].seqId in sampled {
        var i :| 0 <= i < |slots| && slots[i] == s.active[id].seqId;
        assert order[i] == id;
      }
    }
  }

  lemma NextToFinish(cfg: Config, s: State, ids: seq<RequestId>, i: nat)
    requires s.active.Keys == s.requests.Keys && Distinct(ids) && i < |ids| && forall id :: id in ids ==>
             id in s.requests
    ensures var t := FinishAll(cfg, s, ids[..i]);
            && ids[i] in t.requests && ids[i] in t.active
            && FinishAll(cfg, s, ids[..i + 1]) == Finish(cfg, t, ids[i], DecodeError)
  {
    assert ids[..i + 1][..i] == ids[..i];
    forall id | id in ids[..i] ensures id in s.active {
      assert id in ids;
    }
    FinishAllKeys(cfg, s, ids[..i]);
    assert ids[i] in ids;
    forall j | 0 <= j < i ensures ids[..i][j] != ids[i] {
      assert ids[j] != ids[i];
    }
    assert ids[i] in Minus(s.active.Keys, ids[..i]);
  }
}
