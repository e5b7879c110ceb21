/** A run in which two requests admitted in the same tick share: request 10 is prefilled, then 11
    and 12 are admitted together; 11 copies a token from 10, and 12 copies it from 11. */
module ServingInstance {
  import opened Requests
  import opened KvCache
  import opened Waiting
  import opened Streaming
  import opened Batch
  import opened Runtime
  import opened Serving
  import opened ServingInvariant
  import opened ServingAdmit
  import opened ServingTick
  import opened ServingSample
  import opened ServingRuns
  import opened ServingTheorems
  import PrefixClaims

  // ---------------------------------------------------------------- lookups

  lemma TwoBlocks(x: Token, y: Token)
    ensures PrefixClaims.Blocks([x, y], 1) == [[x], [y]]
  {
    assert [x, y][..1] == [x] && [x, y][1..] == [y] && [y][..1] == [y] && [y][1..] == [];
    assert PrefixClaims.Blocks([y], 1) == [[y]] + PrefixClaims.Blocks([], 1);
  }

  /** The newest claim shares exactly the first token, and no older one shares more. */
  lemma NewestShares(claims: seq<PrefixClaims.Claim>, owner: int, y: Token, x: Token)
    requires x != y && PrefixClaims.MatchLen(claims, [[1], [x]]) <= 1
    ensures var all := claims + [PrefixClaims.Claim(owner, [[1], [y]])];
            PrefixClaims.MatchForReuse(all, [1, x], 1) == PrefixClaims.PrefixMatch(1, owner)
              && PrefixClaims.MatchLen(all, [[1], [x]]) == 1
  {
    var all, path := claims + [PrefixClaims.Claim(owner, [[1], [y]])], [[1], [x]];
    TwoBlocks(1, x);
    assert all[..|claims|] == claims;
    assert [x] != [y] by { assert [x][0] == x && [y][0] == y; }
    assert PrefixClaims.Common([[1], [y]], path) == 1;
    assert path[..1] == [[1]] && [[1]] <= [[1], [y]];
  }

  /** A copy of one token into the top slot. */
  lemma CopiesOne(cfg: Config, s: State, r: Request, src: nat)
    requires cfg.blockSize == 1 && cfg.prefixEnabled && s.freeSlots != [] && r.prompt != []
    requires PrefixClaims.MatchForReuse(s.claims, r.prompt, 1) == PrefixClaims.PrefixMatch(1, src)
    requires src != TopSlot(s) && 0 in CellsOf(s.store, src)
    ensures var t, slot := AdmitOne(cfg, s, r), TopSlot(s);
            && CanReuse(s.store, src, slot, 1)
            && r.id in t.active && t.active[r.id].seqId == slot && t.active[r.id].nPast == 1
            && 0 in CellsOf(t.store, slot)
            && t.freeSlots == s.freeSlots[..|s.freeSlots| - 1]
            && t.claims == PrefixClaims.Insert(s.claims, slot, PrefixClaims.Blocks(r.prompt, 1))
  {
    assert Reaches(CellsOf(s.store, src), 1);
    assert 0 in Below(CellsOf(s.store, src), 1);
  }

  lemma OnlyClaim(o: int, y: Token, x: Token)
    requires x != y
    ensures var claims := [PrefixClaims.Claim(o, [[1], [y]])];
            PrefixClaims.MatchForReuse(claims, [1, x], 1) == PrefixClaims.PrefixMatch(1, o)
              && PrefixClaims.MatchLen(claims, [[1], [x]]) == 1
  {
    NewestShares([], o, y, x);
    assert [] + [PrefixClaims.Claim(o, [[1], [y]])] == [PrefixClaims.Claim(o, [[1], [y]])];
  }

  // ---------------------------------------------------------------- the requests

  const d := Request(10, [1, 2], 2, 1, 0.0)
  const a := Request(11, [1, 3], 1, 1, 0.0)
  const b := Request(12, [1, 4], 1, 1, 0.0)

  /** Blocks of one token, three slots, room for the three requests, and a model that does not end
      right after the first prompt. */
  ghost predicate Roomy(cfg: Config)
  {
    && cfg.blockSize == 1 && cfg.prefixEnabled && cfg.nSeqMax == 3 && cfg.nCtx >= 10
    && cfg.chunkSize >= 2 && cfg.maxQueueDepth >= 2 && cfg.next(ContextOf([1, 2])) != cfg.eos
  }

  lemma Arrives(cfg: Config, s: State, r: Request)
    requires Roomy(cfg) && Worthy(r) && r.id !in s.accepted && r.id !in s.kv.table
    requires |s.waiting| < cfg.maxQueueDepth && |r.prompt| + r.maxTokens <= s.kv.free && !Waits(s.waiting, r.id)
    ensures Enabled(cfg, s, Arrive(r))
    ensures var s' := Apply(cfg, s, Arrive(r));
            && s' == s.(waiting := s.waiting + [r], accepted := s.accepted[r.id := r],
                        streams := AfterCreate(s.streams, r.id),
                        kv := Kv(s.kv.free - (|r.prompt| + r.maxTokens), s.kv.table[r.id := |r.prompt| + r.maxTokens]))
  {
    assert BlocksNeeded(|r.prompt| + r.maxTokens, 1) == |r.prompt| + r.maxTokens;
  }

  // ---------------------------------------------------------------- 10 is admitted and prefilled

  ghost predicate OneWaits(cfg: Config, s: State)
    requires cfg.blockSize == 1
  {
    && s.waiting == [d] && s.active == map[] && s.requests == map[] && s.freeSlots == [0, 1, 2] && s.claims == []
    && s.phase == Ready && s.kv == Kv(TotalBlocks(cfg) - 4, map[10 := 4]) && s.accepted == map[10 := d]
    && s.streams == AfterCreate(Streams(map[], map[], map[]), 10)
  }

  lemma FirstArrival(cfg: Config)
    requires Roomy(cfg)
    ensures Enabled(cfg, Init(cfg), Arrive(d)) && OneWaits(cfg, Apply(cfg, Init(cfg), Arrive(d)))
  {
    Arrives(cfg, Init(cfg), d);
    assert Init(cfg).freeSlots == [0, 1, 2];
  }

  ghost predicate OneSits(cfg: Config, s: State)
    requires cfg.blockSize == 1
  {
    && s.waiting == [] && s.active == map[10 := ActiveSeq(2, [1, 2], 0)] && s.requests == map[10 := ReqState(2, 2, 0)]
    && s.freeSlots == [0, 1] && s.claims == [PrefixClaims.Claim(2, [[1], [2]])]
    && s.kv == Kv(TotalBlocks(cfg) - 4, map[10 := 4]) && s.accepted == map[10 := d]
    && s.streams == AfterCreate(Streams(map[], map[], map[]), 10)
  }

  lemma SitsDown(cfg: Config, s: State)
    requires Roomy(cfg) && OneWaits(cfg, s)
    ensures AdmitAll(cfg, s, [d]) == AdmitOne(cfg, s, d) && OneSits(cfg, AdmitOne(cfg, s, d))
  {
    assert [d][..0] == [];
    assert AdmitAll(cfg, s, []) == s;
    assert s.waiting[..0] == [];
    assert Removed(s.waiting, 10) == [];
    PrefixClaims.NothingClaimed([1, 2], 1);
    TwoBlocks(1, 2);
    assert [1, 2][0..] == [1, 2];
  }

  lemma NobodyExpires(s: State, pool: seq<Request>)
    ensures ExpireAll(s, pool, {}) == s
  {
    if pool != [] { NobodyExpires(s, pool[..|pool| - 1]); }
  }

  lemma FirstTick(cfg: Config, s: State)
    requires Roomy(cfg) && OneWaits(cfg, s) && Good(cfg, s)
    ensures var e := TickStart({}, [d], [10]);
            && Enabled(cfg, s, e)
            && OneSits(cfg, Apply(cfg, s, e)) && Apply(cfg, s, e).phase.Decoding? && Good(cfg, Apply(cfg, s, e))
  {
    var e := TickStart({}, [d], [10]);
    NobodyExpires(s, s.waiting);
    SitsDown(cfg, s);
    AdmitAllKeeps(cfg, s, [d]);
    var u := AdmitAll(cfg, s, [d]);
    assert ListsAll([10], u.active);
    EmptyBatchMeansIdle(cfg, u, [10]);
    assert 10 in u.active && u.active != map[];
    TickStartKeeps(cfg, s, e);
  }

  /** After the first tick: 10 has prefilled its prompt. */
  ghost predicate OnePrefilled(cfg: Config, s: State)
    requires cfg.blockSize == 1
  {
    && s.waiting == [] && s.active.Keys == {10} && s.active[10].seqId == 2 && s.active[10].nPast == 2
    && s.freeSlots == [0, 1] && s.claims == [PrefixClaims.Claim(2, [[1], [2]])]
    && CellsOf(s.store, 2) == ContextOf([1, 2])
    && s.phase == Ready && s.kv == Kv(TotalBlocks(cfg) - 4, map[10 := 4]) && s.accepted == map[10 := d]
  }

  lemma FirstAdvance(cfg: Config, s: State, act: ActiveSeq)
    requires Roomy(cfg) && s.active == map[10 := act] && act == ActiveSeq(2, [1, 2], 0) && s.phase.Decoding?
    requires RowsOf(s.phase.rows, 2) == Slice(act, 2) && CellsOf(s.store, 2) == ContextOf([])
    ensures var t := AdvanceAll(s, s.phase.rows);
            t.active == map[10 := ActiveSeq(2, [], 2)] && CellsOf(t.store, 2) == ContextOf([1, 2])
  {
    assert [1, 2][0..] == [1, 2] && [1, 2][..0] == [] && [1, 2][..2] == [1, 2];
    assert Advanced(act, s.phase.rows) == ActiveSeq(2, [], 2);
    AdvancedCells([1, 2], act, s.store, s.phase.rows, 2);
  }

  lemma FirstSample(cfg: Config, s: State)
    requires Roomy(cfg) && OneSits(cfg, s) && s.phase.Decoding? && Good(cfg, s)
    ensures var t := AdvanceAll(s, s.phase.rows);
            var sampled := Sampled(cfg.next, t.store, s.phase.rows);
            && t.active == map[10 := ActiveSeq(2, [], 2)] && CellsOf(t.store, 2) == ContextOf([1, 2])
            && 2 in sampled && sampled[2] == cfg.next(ContextOf([1, 2]))
            && ListsSampled([10], s, sampled)
  {
    var rows := s.phase.rows;
    SampledTells(cfg, s, rows, 10);
    assert 10 in Owed(cfg, s);
    assert d.prompt + Tokens([]) == [1, 2];
    assert [1, 2][..0] == [];
    assert SeqAt(cfg, s, {}, false, 10);
    FirstAdvance(cfg, s, s.active[10]);
  }

  lemma FirstEnd(cfg: Config, s: State)
    requires Roomy(cfg) && OneSits(cfg, s) && s.phase.Decoding? && Good(cfg, s)
    ensures Enabled(cfg, s, TickEnd({}, [10])) && OnePrefilled(cfg, Apply(cfg, s, TickEnd({}, [10])))
  {
    var t := AdvanceAll(s, s.phase.rows);
    var sampled := Sampled(cfg.next, t.store, s.phase.rows);
    FirstSample(cfg, s);
    OnlySample(cfg, t, sampled);
  }

  lemma OnlySample(cfg: Config, t: State, sampled: map<nat, Token>)
    requires t.active == map[10 := ActiveSeq(2, [], 2)] && t.requests == map[10 := ReqState(2, 2, 0)]
    requires 2 in sampled && sampled[2] != cfg.eos && 10 in t.streams.open && !t.streams.open[10].cancelled
    ensures SampleAll(cfg, t, [10], sampled, {}) == FedBack(CountedDown(t, 10), 10, sampled[2])
  {
    assert [10][..0] == [];
    assert SampleAll(cfg, t, [], sampled, {}) == t;
  }

  // ---------------------------------------------------------------- 11 and 12 come together

  ghost predicate TwoWait(cfg: Config, s: State)
  {
    && s.waiting == [a, b] && s.active.Keys == {10} && s.active[10].seqId == 2
    && s.freeSlots == [0, 1] && s.claims == [PrefixClaims.Claim(2, [[1], [2]])]
    && CellsOf(s.store, 2) == ContextOf([1, 2])
    && s.phase == Ready
  }

  lemma TwoArrivals(cfg: Config, s: State)
    requires Roomy(cfg) && OnePrefilled(cfg, s)
    ensures Enabled(cfg, s, Arrive(a)) && Enabled(cfg, Apply(cfg, s, Arrive(a)), Arrive(b))
    ensures TwoWait(cfg, Apply(cfg, Apply(cfg, s, Arrive(a)), Arrive(b)))
  {
    Arrives(cfg, s, a);
    var t := Apply(cfg, s, Arrive(a));
    assert t.waiting == [a];
    Arrives(cfg, t, b);
  }

  /** 11 has copied a token from slot 2 into slot 1 and published its prompt. */
  ghost predicate FirstCopied(t: State)
  {
    && 11 in t.active && t.active[11].seqId == 1 && t.active[11].nPast == 1 && 0 in CellsOf(t.store, 1)
    && t.freeSlots == [0]
    && t.claims == [PrefixClaims.Claim(2, [[1], [2]])] + [PrefixClaims.Claim(1, [[1], [3]])]
  }

  lemma FirstCopies(cfg: Config, s: State)
    requires Roomy(cfg) && TwoWait(cfg, s)
    ensures FirstCopied(AdmitOne(cfg, s, a))
  {
    OnlyClaim(2, 2, 3);
    assert 0 in ContextOf([1, 2]);
    CopiesOne(cfg, s, a, 2);
    TwoBlocks(1, 3);
    PrefixClaims.EvictAbsent(s.claims, 1);
  }

  /** 12 copies it from slot 1 into slot 0. */
  lemma SecondCopies(cfg: Config, t: State)
    requires Roomy(cfg) && FirstCopied(t)
    ensures PrefixClaims.MatchForReuse(t.claims, b.prompt, 1) == PrefixClaims.PrefixMatch(1, 1)
    ensures CanReuse(t.store, 1, 0, 1) && AdmitOne(cfg, t, b).active[12].nPast == 1
  {
    OnlyClaim(2, 2, 4);
    NewestShares([PrefixClaims.Claim(2, [[1], [2]])], 1, 3, 4);
    CopiesOne(cfg, t, b, 1);
  }

  lemma ThreeListed(active: map<RequestId, ActiveSeq>)
    requires active.Keys == {10, 11, 12}
    ensures ListsAll([10, 11, 12], active)
  {
    var order := [10, 11, 12];
    assert order[0] == 10 && order[1] == 11 && order[2] == 12;
    forall id | id in active ensures id in order {
      assert id in active.Keys;
    }
  }

  lemma BothAdmitted(cfg: Config, s: State)
    requires Roomy(cfg) && TwoWait(cfg, s) && AdmitOne(cfg, s, a).freeSlots == [0]
    ensures AdmitAll(cfg, s, [a]) == AdmitOne(cfg, s, a)
    ensures AdmitAll(cfg, s, [a, b]) == AdmitOne(cfg, AdmitOne(cfg, s, a), b)
    ensures AdmitAll(cfg, s, [a, b]).active.Keys == {10, 11, 12}
  {
    assert [a, b][..1] == [a] && [a][..0] == [];
    assert AdmitAll(cfg, s, []) == s;
    assert AdmitAll(cfg, s, [a]) == AdmitOne(cfg, s, a);
  }

  /** The tick in which 11 and 12 are admitted. */
  lemma SharedWithinATick(cfg: Config, s: State)
    requires Roomy(cfg) && TwoWait(cfg, s)
    ensures var e := TickStart({}, [a, b], [10, 11, 12]);
            && Enabled(cfg, s, e) && FirstCopied(AtLookup(cfg, s, e, 1))
            && 12 in Apply(cfg, s, e).active && Apply(cfg, s, e).active[12].nPast == 1
  {
    NobodyExpires(s, s.waiting);
    FirstCopies(cfg, s);
    SecondCopies(cfg, AdmitOne(cfg, s, a));
    BothAdmitted(cfg, s);
    ThreeListed(AdmitAll(cfg, s, [a, b]).active);
    assert [a, b][..1] == [a];
  }

  // ---------------------------------------------------------------- the run

  lemma OneMoreState(cfg: Config, states: seq<State>, events: seq<Event>, e: Event)
    requires IsRun(cfg, states, events) && Enabled(cfg, states[|events|], e)
    ensures IsRun(cfg, states + [Apply(cfg, states[|events|], e)], events + [e])
  {
    var states', events' := states + [Apply(cfg, states[|events|], e)], events + [e];
    forall i {:trigger StepAt(cfg, states', events', i)} | 0 <= i < |events'| ensures StepAt(cfg, states', events', i) {
      assert i < |events| ==> StepAt(cfg, states, events, i);
    }
  }

  lemma PrefilledRun(cfg: Config) returns (states: seq<State>, events: seq<Event>)
    requires Roomy(cfg)
    ensures IsRun(cfg, states, events) && |events| == 3 && OnePrefilled(cfg, states[3])
  {
    states, events := [Init(cfg)], [];
    FirstArrival(cfg);
    OneMoreState(cfg, states, events, Arrive(d));
    states, events := states + [Apply(cfg, states[0], Arrive(d))], events + [Arrive(d)];
    RunIsGood(cfg, states, events, 1);
    FirstTick(cfg, states[1]);
    var e := TickStart({}, [d], [10]);
    OneMoreState(cfg, states, events, e);
    states, events := states + [Apply(cfg, states[1], e)], events + [e];
    FirstEnd(cfg, states[2]);
    var f := TickEnd({}, [10]);
    OneMoreState(cfg, states, events, f);
    states, events := states + [Apply(cfg, states[2], f)], events + [f];
  }

  lemma BurstRun(cfg: Config) returns (states: seq<State>, events: seq<Event>)
    requires Roomy(cfg)
    ensures IsRun(cfg, states, events) && |events| == 5 && TwoWait(cfg, states[5])
  {
    states, events := PrefilledRun(cfg);
    TwoArrivals(cfg, states[3]);
    OneMoreState(cfg, states, events, Arrive(a));
    states, events := states + [Apply(cfg, states[3], Arrive(a))], events + [Arrive(a)];
    OneMoreState(cfg, states, events, Arrive(b));
    states, events := states + [Apply(cfg, states[4], Arrive(b))], events + [Arrive(b)];
  }

  /** From the initial state to a tick in which 12 copies a token from the slot of 11, which is
      admitted in the same tick. */
  lemma SharingRun(cfg: Config) returns (states: seq<State>, events: seq<Event>)
    requires Roomy(cfg)
    ensures IsRun(cfg, states, events) && |events| == 6
    ensures events[5].TickStart? && events[5].chosen == [a, b] && states[5].active.Keys == {10}
    ensures CopiesFromEleven(cfg, AtLookup(cfg, states[5], events[5], 1))
    ensures 12 in states[6].active && states[6].active[12].nPast == 1
  {
    states, events := BurstRun(cfg);
    var s, e := states[5], TickStart({}, [a, b], [10, 11, 12]);
    SharedWithinATick(cfg, s);
    SecondCopies(cfg, AtLookup(cfg, s, e, 1));
    OneMoreState(cfg, states, events, e);
    states, events := states + [Apply(cfg, s, e)], events + [e];
  }

  /** The lookup of 12 names the slot of 11, and the copy is made. */
  ghost predicate CopiesFromEleven(cfg: Config, t: State)
  {
    && 11 in t.active && t.freeSlots != []
    && PrefixClaims.MatchForReuse(t.claims, b.prompt, 1) == PrefixClaims.PrefixMatch(1, t.active[11].seqId)
    && CanReuse(t.store, t.active[11].seqId, TopSlot(t), 1)
  }
}
