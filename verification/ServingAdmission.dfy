/** Who is let in, over whole runs, said in tokens. */
module ServingAdmission {
  import opened FiniteSets
  import opened Requests
  import opened KvCache
  import opened Waiting
  import opened Streaming
  import opened Serving
  import opened ServingInvariant
  import opened ServingRuns
  import opened ServingTheorems
  import opened ServingEffects
  import opened ServingEndings

  /** Every arrival of every run: the request is let in exactly if the queue is not at its limit and
      prompt and budget fit into the free blocks. Let in, it waits last with an empty stream of its
      own and holds just enough blocks; turned away, it leaves no trace. */
  lemma LetInIff(cfg: Config, states: seq<State>, events: seq<Event>, n: nat)
    requires IsRun(cfg, states, events) && n < |events| && events[n].Arrive?
    ensures var s, s', r := states[n], states[n + 1], events[n].r;
            var need := |r.prompt| + r.maxTokens;
            && (r.id in s'.accepted <==> |s.waiting| < cfg.maxQueueDepth && need <= s.kv.free * cfg.blockSize)
            && (r.id in s'.accepted ==>
                  && s'.accepted[r.id] == r && s'.waiting == s.waiting + [r]
                  && r.id in s'.streams.open && s'.streams.open[r.id] == Stream([], false)
                  && r.id in s'.kv.table && s'.kv.free == s.kv.free - s'.kv.table[r.id]
                  && need <= s'.kv.table[r.id] * cfg.blockSize < need + cfg.blockSize)
            && (r.id !in s'.accepted ==> s' == s)
  {
    var s, r := states[n], events[n].r;
    StepInRun(cfg, states, events, n);
    WhereItIs(cfg, s, r.id);
    assert r.id !in SeatsOf(s.active);
    DecidedByRoom(s.kv, r.id, |r.prompt| + r.maxTokens, cfg.blockSize, |s.waiting|, cfg.maxQueueDepth);
    BlocksSuffice(|r.prompt| + r.maxTokens, cfg.blockSize);
    NotInPool(s.waiting, r);
  }

  lemma NotInPool(waiting: seq<Request>, r: Request)
    requires !Waits(waiting, r.id)
    ensures Pushed(waiting, r) == waiting + [r]
  {
  }

  /** The free blocks at any time: what the context holds, less what the waiting and the active
      requests hold, each of them just enough blocks for its prompt and budget. */
  lemma FreeBlocksAre(cfg: Config, states: seq<State>, events: seq<Event>, i: nat, held: RequestId -> int)
    requires IsRun(cfg, states, events) && i < |states|
    requires forall id :: id in states[i].kv.table ==> held(id) == states[i].kv.table[id]
    ensures var s := states[i];
            && s.kv.free == cfg.nCtx / cfg.blockSize - Sum(s.kv.table.Keys, held) && s.kv.free >= 0
            && (forall id :: id in s.kv.table <==> id in s.active || Waits(s.waiting, id))
            && (forall id :: id in s.kv.table ==>
                  id in s.accepted && HoldsJustEnough(cfg, s.accepted[id], s.kv.table[id]))
  {
    var s := states[i];
    RunIsGood(cfg, states, events, i);
    ResourcesArePartitioned(cfg, states, events, i);
    SumSame(s.kv.table.Keys, held, id => Held(s.kv, id));
    forall id | id in s.kv.table ensures id in s.accepted && HoldsJustEnough(cfg, s.accepted[id], s.kv.table[id]) {
      JustEnough(cfg, s, id);
    }
  }

  lemma JustEnough(cfg: Config, s: State, id: RequestId)
    requires Good(cfg, s) && id in s.kv.table
    ensures id in s.accepted && HoldsJustEnough(cfg, s.accepted[id], s.kv.table[id])
  {
    assert PlacedAt(s.waiting, SeatsOf(s.active), s.accepted, s.outcome, id);
    BlocksSuffice(|s.accepted[id].prompt| + s.accepted[id].maxTokens, cfg.blockSize);
  }

  ghost predicate HoldsJustEnough(cfg: Config, r: Request, blocks: int)
  {
    |r.prompt| + r.maxTokens <= blocks * cfg.blockSize < |r.prompt| + r.maxTokens + cfg.blockSize
  }
}
