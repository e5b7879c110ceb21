/** The results about the server, read off the invariant, for every state of every run. */
module ServingTheorems {
  import opened FiniteSets
  import opened Requests
  import opened KvCache
  import opened Waiting
  import opened Streaming
  import opened Batch
  import opened Runtime
  import opened Serving
  import opened Greedy
  import opened ServingInvariant
  import opened ServingAdmit
  import opened ServingTick
  import opened ServingSample
  import opened ServingRuns
  import opened ServingQueue
  import PrefixClaims

  // ---------------------------------------------------------------- output

  /** The tokens pushed for a request. */
  ghost function Output(s: State, id: RequestId): (tokens: seq<Token>)
  {
    Tokens(SentTo(s.streams, id))
  }

  /** Batching, chunked prefill, slot recycling and reuse of other requests' cells refine the
      one-request decoder: what a client has been sent is always a prefix of what it would be
      sent alone, and all of it once the request completes. */
  lemma OutputRefinesReference(cfg: Config, states: seq<State>, events: seq<Event>, i: nat, id: RequestId)
    requires IsRun(cfg, states, events) && i < |states| && id in states[i].accepted
    ensures var s, r := states[i], states[i].accepted[id];
            && Output(s, id) <= Reference(cfg, r.prompt, r.maxTokens)
            && (id in s.outcome && s.outcome[id] == Completed ==>
                Output(s, id) == Reference(cfg, r.prompt, r.maxTokens))
  {
    var s := states[i];
    var seats := SeatsOf(s.active);
    RunIsGood(cfg, states, events, i);
    assert PlacedAt(s.waiting, seats, s.accepted, s.outcome, id);
    assert StreamedAt(cfg, s.streams, s.waiting, s.accepted, s.outcome, id);
    assert SeqAt(cfg, s, {}, false, id);
  }

  /** The same, without a decoder: the output of a completed request is the greedy
      continuation of its own prompt, cut before the end of sequence or at one token less
      than its budget. */
  lemma CompletedOutputIsCut(cfg: Config, states: seq<State>, events: seq<Event>, i: nat, id: RequestId)
    requires IsRun(cfg, states, events) && i < |states| && id in states[i].accepted
    requires id in states[i].outcome && states[i].outcome[id] == Completed
    ensures IsCut(cfg, states[i].accepted[id].prompt, states[i].accepted[id].maxTokens, Output(states[i], id))
  {
    OutputRefinesReference(cfg, states, events, i, id);
    ReferenceIsCut(cfg, states[i].accepted[id].prompt, states[i].accepted[id].maxTokens);
  }

  lemma {:induction false} ReferenceIgnoresServing(a: Config, b: Config, h: seq<Token>, budget: int)
    requires a.next == b.next && a.eos == b.eos
    ensures Reference(a, h, budget) == Reference(b, h, budget)
    decreases budget
  {
    var t := a.next(ContextOf(h));
    if !(t == a.eos || budget - 1 <= 0) {
      ReferenceIgnoresServing(a, b, h + [t], budget - 1);
    }
  }

  /** Two servers with the same model, one with the prefix cache and one without, say, or
      with different chunk sizes and loads, answer a completed request alike. */
  lemma CompletedRunsAgree(a: Config, statesA: seq<State>, eventsA: seq<Event>, i: nat, x: RequestId,
                           b: Config, statesB: seq<State>, eventsB: seq<Event>, j: nat, y: RequestId)
    requires a.next == b.next && a.eos == b.eos
    requires IsRun(a, statesA, eventsA) && i < |statesA| && IsRun(b, statesB, eventsB) && j < |statesB|
    requires x in statesA[i].accepted && y in statesB[j].accepted
    requires statesA[i].accepted[x].prompt == statesB[j].accepted[y].prompt
    requires statesA[i].accepted[x].maxTokens == statesB[j].accepted[y].maxTokens
    requires x in statesA[i].outcome && statesA[i].outcome[x] == Completed
    requires y in statesB[j].outcome && statesB[j].outcome[y] == Completed
    ensures Output(statesA[i], x) == Output(statesB[j], y)
  {
    OutputRefinesReference(a, statesA, eventsA, i, x);
    OutputRefinesReference(b, statesB, eventsB, j, y);
    ReferenceIgnoresServing(a, b, statesA[i].accepted[x].prompt, statesA[i].accepted[x].maxTokens);
  }

  // ---------------------------------------------------------------- cells

  /** The cells of an active slot are exactly the tokens before n_past of its own prompt and
      output, and the cells of a free slot are empty. */
  lemma CellsAreExact(cfg: Config, states: seq<State>, events: seq<Event>, i: nat)
    requires IsRun(cfg, states, events) && i < |states|
    ensures var s := states[i];
            && (forall id :: id in s.active ==>
                  && id in s.accepted
                  && s.active[id].nPast < |s.accepted[id].prompt + Output(s, id)|
                  && CellsOf(s.store, s.active[id].seqId) ==
                    ContextOf((s.accepted[id].prompt + Output(s, id))[..s.active[id].nPast])
                  && s.active[id].pending == (s.accepted[id].prompt + Output(s, id))[s.active[id].nPast..])
            && (forall slot :: slot in s.freeSlots ==> CellsOf(s.store, slot) == map[])
  {
    var s := states[i];
    RunIsGood(cfg, states, events, i);
    forall id | id in s.active
      ensures id in s.accepted
      ensures s.active[id].nPast < |s.accepted[id].prompt + Output(s, id)|
      ensures CellsOf(s.store, s.active[id].seqId) ==
              ContextOf((s.accepted[id].prompt + Output(s, id))[..s.active[id].nPast])
      ensures s.active[id].pending == (s.accepted[id].prompt + Output(s, id))[s.active[id].nPast..]
    {
      assert SeqAt(cfg, s, {}, false, id);
    }
  }

  /** While a decode call runs, each of its rows is for an active sequence and the k-th row of
      a sequence goes to the k-th position after its cells, which is unused. */
  lemma RowsHitUnusedPositions(cfg: Config, states: seq<State>, events: seq<Event>, i: nat, id: RequestId, k: nat)
    requires IsRun(cfg, states, events) && i < |states| && states[i].phase.Decoding? && id in states[i].active
    requires k < |RowsOf(states[i].phase.rows, states[i].active[id].seqId)|
    ensures var s := states[i];
            var a := s.active[id];
            var row := RowsOf(s.phase.rows, a.seqId)[k];
            && k < |a.pending| && row.token == a.pending[k] && row.pos == a.nPast + k
            && row.pos !in CellsOf(s.store, a.seqId)
            && (forall p: nat :: p < a.nPast ==> p in CellsOf(s.store, a.seqId))
            && (row.needsLogits <==> k == |a.pending| - 1)
    ensures forall n :: 0 <= n < |states[i].phase.rows| ==> IsSeat(states[i], states[i].phase.rows[n].seqId)
  {
    RunIsGood(cfg, states, events, i);
    CellsAreExact(cfg, states, events, i);
    EveryRowHasASeat(cfg, states[i]);
  }

  /** Somebody active sits in this slot. */
  ghost predicate IsSeat(s: State, slot: nat)
  {
    exists id :: id in s.active && s.active[id].seqId == slot
  }

  lemma EveryRowHasASeat(cfg: Config, s: State)
    requires Good(cfg, s) && s.phase.Decoding?
    ensures forall n :: 0 <= n < |s.phase.rows| ==> IsSeat(s, s.phase.rows[n].seqId)
  {
    forall n | 0 <= n < |s.phase.rows| ensures IsSeat(s, s.phase.rows[n].seqId) {
      RowsThere(s.phase.rows, n);
    }
  }

  // ---------------------------------------------------------------- progress

  /** Nobody is starved of a tick: every active sequence has min(chunk, pending) >= 1 rows. */
  lemma EveryTickServesEverybody(cfg: Config, states: seq<State>, events: seq<Event>, i: nat, id: RequestId)
    requires IsRun(cfg, states, events) && i < |states| && states[i].phase.Decoding? && id in states[i].active
    ensures var s := states[i];
            && RowCount(s.phase.rows, s.active[id].seqId) == Min(cfg.chunkSize, |s.active[id].pending|) >= 1
            && |s.phase.rows| <= cfg.nCtx
  {
    RunIsGood(cfg, states, events, i);
    PendingWithinNeed(cfg, states[i], {}, false, id);
  }

  /** A tick that schedules builds an empty batch only when nothing is active; and after its
      selection either no slot is free or nothing waits. */
  lemma SchedulingUsesEverySlot(cfg: Config, states: seq<State>, events: seq<Event>, i: nat)
    requires IsRun(cfg, states, events) && i < |events| && events[i].TickStart?
    requires states[i + 1].phase != Parked
    ensures var s := states[i + 1];
            && (s.phase == Ready <==> s.active == map[])
            && (s.freeSlots == [] || s.waiting == [])
  {
    var s, e := states[i], events[i];
    RunIsGood(cfg, states, events, i);
    assert StepAt(cfg, states, events, i);
    var t := ExpireAll(s, s.waiting, e.expired);
    ExpireAllKeeps(cfg, s, s.waiting, e.expired, {}, false);
    AdmitAllKeeps(cfg, t, e.chosen);
    AdmitAllFrame(cfg, t, e.chosen);
    EmptyBatchMeansIdle(cfg, AdmitAll(cfg, t, e.chosen), e.order);
  }

  // ---------------------------------------------------------------- room

  /** Admitted means room to finish: what is cached, pending and still allowed adds up to the
      prompt and the budget, which are within the blocks held. */
  lemma RoomToFinish(cfg: Config, states: seq<State>, events: seq<Event>, i: nat, id: RequestId)
    requires IsRun(cfg, states, events) && i < |states| && id in states[i].active
    ensures var s := states[i];
            && id in s.requests && id in s.accepted && id in s.kv.table
            && s.active[id].nPast + |s.active[id].pending| + s.requests[id].remaining
               == |s.accepted[id].prompt| + s.accepted[id].maxTokens
               <= cfg.blockSize * s.kv.table[id]
            && s.requests[id].remaining >= 1
  {
    var s := states[i];
    RunIsGood(cfg, states, events, i);
    assert SeqAt(cfg, s, {}, false, id);
    assert id in SeatsOf(s.active);
    NeedIsReserved(cfg, s, {}, false, id);
  }

  /** The cells in use by all active sequences together never exceed the context, even if no
      prefix were shared. */
  lemma CellsNeverExceedContext(cfg: Config, states: seq<State>, events: seq<Event>, i: nat, used: RequestId -> int)
    requires IsRun(cfg, states, events) && i < |states|
    requires forall id :: id in states[i].active ==> used(id) == states[i].active[id].nPast
    ensures Sum(states[i].active.Keys, used) <= cfg.nCtx
  {
    var s := states[i];
    RunIsGood(cfg, states, events, i);
    forall id | id in s.active ensures used(id) <= Need(s, id) {
      assert SeqAt(cfg, s, {}, false, id);
    }
    ReservedFits(cfg, s, {}, false, used);
  }

  // ---------------------------------------------------------------- resources

  /** Slots, blocks and queue places are where they should be in every state. */
  lemma ResourcesArePartitioned(cfg: Config, states: seq<State>, events: seq<Event>, i: nat)
    requires IsRun(cfg, states, events) && i < |states|
    ensures var s := states[i];
            && s.active.Keys == s.requests.Keys
            && (forall id :: id in s.active ==> id in s.requests && s.requests[id].seqId == s.active[id].seqId)
            && Partition(cfg.nSeqMax, SeatsOf(s.active), s.freeSlots)
            && (forall id :: id in s.kv.table <==> id in s.active || Waits(s.waiting, id))
            && Balanced(s.kv, TotalBlocks(cfg))
            && |s.waiting| <= cfg.maxQueueDepth
  {
    var s := states[i];
    RunIsGood(cfg, states, events, i);
    forall id | id in s.active ensures id in s.requests && s.requests[id].seqId == s.active[id].seqId {
      assert SeqAt(cfg, s, {}, false, id);
    }
    forall id ensures id in s.kv.table <==> id in s.active || Waits(s.waiting, id) {
      assert id in SeatsOf(s.active) <==> id in s.active;
    }
  }

  /** Every claim in the tree belongs to an active slot and is that slot's own prompt; and
      with the cache on every active prompt that fills a block is claimed. */
  lemma ClaimsAreActivePrompts(cfg: Config, states: seq<State>, events: seq<Event>, i: nat)
    requires IsRun(cfg, states, events) && i < |states|
    ensures Published(cfg, states[i].claims, SeatsOf(states[i].active), states[i].accepted)
    ensures PrefixClaims.DistinctOwners(states[i].claims)
    ensures forall k :: 0 <= k < |states[i].claims| ==> states[i].claims[k].owner !in states[i].freeSlots
  {
    var s := states[i];
    var seats := SeatsOf(s.active);
    RunIsGood(cfg, states, events, i);
    forall k | 0 <= k < |s.claims| ensures s.claims[k].owner !in s.freeSlots {
      var id :| IsClaimOf(cfg, s.claims[k], seats, s.accepted, id);
    }
  }

  /** The state in which the k-th chosen request of a tick looks for a donor. */
  ghost function AtLookup(cfg: Config, s: State, e: Event, k: nat): (t: State)
    requires cfg.blockSize >= 1 && e.TickStart? && k <= |e.chosen|
  {
    var t := ExpireAll(s, s.waiting, e.expired);
    if k <= |t.freeSlots| then AdmitAll(cfg, t, e.chosen[..k]) else t
  }

  lemma DonorAtLookup(cfg: Config, s: State, e: Event, k: nat) returns (donor: RequestId)
    requires Good(cfg, s) && e.TickStart? && Enabled(cfg, s, e) && Apply(cfg, s, e).phase != Parked && k < |e.chosen|
    requires PrefixClaims.MatchForReuse(AtLookup(cfg, s, e, k).claims, e.chosen[k].prompt, cfg.blockSize).nTokens > 0
    ensures SoundDonor(cfg, AtLookup(cfg, s, e, k), e.chosen[k], donor)
  {
    var u := ExpireAll(s, s.waiting, e.expired);
    ExpireAllKeeps(cfg, s, s.waiting, e.expired, {}, false);
    MidAdmission(cfg, u, e.chosen, k);
    donor := SoundDonorOf(cfg, AdmitAll(cfg, u, e.chosen[..k]), e.chosen[k]);
  }

  lemma MidAdmission(cfg: Config, u: State, chosen: seq<Request>, k: nat)
    requires Inv(cfg, u, {}, false) && IsSelection(u.waiting, |u.freeSlots|, chosen) && k < |chosen|
    ensures var t := AdmitAll(cfg, u, chosen[..k]);
            Inv(cfg, t, {}, false) && t.freeSlots != [] && chosen[k] in t.waiting
  {
    Earlier(u.waiting, chosen, k);
    AdmitAllKeeps(cfg, u, chosen[..k]);
    StillWaits(cfg, u, chosen[..k + 1]);
  }

  lemma Earlier(waiting: seq<Request>, chosen: seq<Request>, k: nat)
    requires DistinctIds(chosen) && k < |chosen| && forall r :: r in chosen ==> r in waiting
    ensures chosen[..k + 1][..k] == chosen[..k] && chosen[..k + 1][k] == chosen[k]
    ensures DistinctIds(chosen[..k]) && DistinctIds(chosen[..k + 1])
    ensures (forall r :: r in chosen[..k] ==> r in waiting) && (forall r :: r in chosen[..k + 1] ==> r in waiting)
  {
    forall r | r in chosen[..k + 1] ensures r in waiting {
      assert r in chosen;
    }
    forall r | r in chosen[..k] ensures r in waiting {
      assert r in chosen;
    }
  }

  ghost predicate SoundDonor(cfg: Config, t: State, r: Request, donor: RequestId)
    requires cfg.blockSize >= 1
  {
    var hit := PrefixClaims.MatchForReuse(t.claims, r.prompt, cfg.blockSize);
    && t.freeSlots != [] && hit.nTokens < |r.prompt| && hit.nTokens % cfg.blockSize == 0
    && donor in t.active && donor in t.accepted && donor != r.id
    && t.active[donor].seqId == hit.seqId != TopSlot(t)
    && r.prompt[..hit.nTokens] <= t.accepted[donor].prompt
    && (CanReuse(t.store, hit.seqId, TopSlot(t), hit.nTokens) <==> hit.nTokens <= t.active[donor].nPast)
    && (hit.nTokens <= t.active[donor].nPast ==>
          Below(CellsOf(t.store, hit.seqId), hit.nTokens) == ContextOf(r.prompt[..hit.nTokens]))
  }

  lemma SoundDonorOf(cfg: Config, t: State, r: Request) returns (donor: RequestId)
    requires Inv(cfg, t, {}, false) && t.freeSlots != [] && r in t.waiting
    requires PrefixClaims.MatchForReuse(t.claims, r.prompt, cfg.blockSize).nTokens > 0
    ensures SoundDonor(cfg, t, r, donor)
  {
    var seats := SeatsOf(t.active);
    assert Waits(t.waiting, r.id);
    assert PlacedAt(t.waiting, seats, t.accepted, t.outcome, r.id);
    donor := ReuseRefusedOnlyByProgress(cfg, t, {}, r.prompt);
    assert donor in seats;
    PrefixClaims.ReuseIsClamped(t.claims, r.prompt, cfg.blockSize);
    Multiple(PrefixClaims.ReuseLen(t.claims, r.prompt, cfg.blockSize), cfg.blockSize);
  }

  lemma Multiple(k: nat, bs: nat)
    requires bs >= 1
    ensures (k * bs) % bs == 0
  {
    assert k * bs == bs * k + 0;
    PrefixClaims.DivUnique(k * bs, bs, k);
  }

  /** Donor soundness, for every admission of every run: a donor that is found is another
      active request with the matched tokens as its own prompt's prefix; the copy is refused
      exactly when the donor has prefilled fewer tokens than were matched; and a copy that is
      made leaves exactly the matched tokens in the new slot. */
  lemma DonorsAreSound(cfg: Config, states: seq<State>, events: seq<Event>, i: nat, k: nat) returns (donor: RequestId)
    requires IsRun(cfg, states, events) && i < |events| && events[i].TickStart? && states[i + 1].phase != Parked
    requires k < |events[i].chosen|
    requires PrefixClaims.MatchForReuse(AtLookup(cfg, states[i], events[i], k).claims, events[i].chosen[k].prompt,
                                        cfg.blockSize).nTokens > 0
    ensures SoundDonor(cfg, AtLookup(cfg, states[i], events[i], k), events[i].chosen[k], donor)
  {
    var s, e := states[i], events[i];
    RunIsGood(cfg, states, events, i);
    assert StepAt(cfg, states, events, i);
    donor := DonorAtLookup(cfg, s, e, k);
  }

  // ---------------------------------------------------------------- streams

  ghost function EndMarkers(items: seq<Item>): (n: nat)
  {
    if items == [] then 0 else EndMarkers(items[..|items| - 1]) + if items[|items| - 1] == End then 1 else 0
  }

  lemma {:induction false} NoEndMarkers(items: seq<Item>)
    requires OnlyChunks(items)
    ensures EndMarkers(items) == 0
  {
    if items != [] { NoEndMarkers(items[..|items| - 1]); }
  }

  /** A request's stream gets the end marker at most once and nothing after it; a finished
      request whose stream is still registered has got it; what the consumer has taken and
      what it has yet to take are what was sent. */
  lemma StreamsEndOnce(cfg: Config, states: seq<State>, events: seq<Event>, i: nat, id: RequestId)
    requires IsRun(cfg, states, events) && i < |states| && id in states[i].accepted
    ensures var s, items := states[i], SentTo(states[i].streams, id);
            && EndMarkers(items) <= 1
            && (forall k :: 0 <= k < |items| && items[k] == End ==> k == |items| - 1)
            && (id in s.outcome && id in s.streams.open ==> EndMarkers(items) == 1)
            && (id !in s.outcome ==> EndMarkers(items) == 0)
            && TakenBy(s.streams, id) <= items
            && (id in s.streams.open ==> TakenBy(s.streams, id) + s.streams.open[id].queue == items)
  {
    var s, items := states[i], SentTo(states[i].streams, id);
    RunIsGood(cfg, states, events, i);
    assert PlacedAt(s.waiting, SeatsOf(s.active), s.accepted, s.outcome, id);
    assert StreamedAt(cfg, s.streams, s.waiting, s.accepted, s.outcome, id);
    assert SeqAt(cfg, s, {}, false, id);
    if id in s.outcome {
      if items != [] { NoEndMarkers(items[..|items| - 1]); }
    } else {
      NoEndMarkers(items);
    }
  }

  // ---------------------------------------------------------------- ticks to finish

  /** The ticks an active request still needs at most: the chunks of its pending tokens and
      one tick per further token. */
  ghost function TicksLeft(cfg: Config, s: State, id: RequestId): (n: int)
    requires cfg.chunkSize >= 1 && id in s.active && id in s.requests
  {
    BlocksNeeded(|s.active[id].pending|, cfg.chunkSize) + s.requests[id].remaining - 1
  }

  lemma ChunksLeft(n: nat, c: nat)
    requires c >= 1 && n >= 1
    ensures n <= c ==> BlocksNeeded(n, c) == 1
    ensures n > c ==> BlocksNeeded(n - c, c) == BlocksNeeded(n, c) - 1
    ensures BlocksNeeded(n, c) >= 1
  {
    BlocksSuffice(n, c);
    var q := BlocksNeeded(n, c);
    assert 0 * c == 0 && (q - 1) * c == q * c - c;
    PrefixClaims.DivBounds(n + c - 1, c);
    if n <= c {
      PrefixClaims.DivUnique(n + c - 1, c, 1);
    } else {
      PrefixClaims.DivUnique(n - c + c - 1, c, q - 1);
    }
  }

  /** A successful tick brings a request that stays active exactly one tick closer. */
  lemma TickCountsDown(cfg: Config, s: State, e: Event, id: RequestId)
    requires Good(cfg, s) && e.TickEnd? && Enabled(cfg, s, e) && id in s.active && id in s.requests
    ensures var s' := Apply(cfg, s, e);
            id in s'.active && id in s'.requests ==> TicksLeft(cfg, s', id) == TicksLeft(cfg, s, id) - 1
  {
    PendingWithinNeed(cfg, s, {}, false, id);
    ChunksLeft(|s.active[id].pending|, cfg.chunkSize);
    if id in Owed(cfg, s) {
      SampledIsFedBack(cfg, s, e, id);
      ChunksLeft(1, cfg.chunkSize);
    } else {
      UnsampledMovesOn(cfg, s, e, id);
    }
  }

  /** A request still in prefill has a chunk less pending and its whole budget. */
  lemma UnsampledMovesOn(cfg: Config, s: State, e: Event, id: RequestId)
    requires Good(cfg, s) && e.TickEnd? && Enabled(cfg, s, e) && id in s.active && id in s.requests
             && id !in Owed(cfg, s)
    ensures var s' := Apply(cfg, s, e);
            && id in s'.active && id in s'.requests && s'.requests[id] == s.requests[id]
            && |s'.active[id].pending| == |s.active[id].pending| - cfg.chunkSize
  {
    var rows := s.phase.rows;
    var t := AdvanceAll(s, rows);
    NobodyIsLeftOwed(cfg, s, e.order);
    SampleAllLeavesOthers(cfg, t, e.order, Sampled(cfg.next, t.store, rows), e.timedOut, id);
  }

  /** A sampled request that goes on has exactly its new token pending and one token less in
      its budget. */
  lemma SampledIsFedBack(cfg: Config, s: State, e: Event, id: RequestId)
    requires Good(cfg, s) && e.TickEnd? && Enabled(cfg, s, e) && id in Owed(cfg, s) && id in s.requests
    ensures var s' := Apply(cfg, s, e);
            id in s'.active && id in s'.requests ==>
              |s'.active[id].pending| == 1 && s'.requests[id].remaining == s.requests[id].remaining - 1
  {
    var t := AdvanceAll(s, s.phase.rows);
    var sampled := Sampled(cfg.next, t.store, s.phase.rows);
    SampledTells(cfg, s, s.phase.rows, id);
    assert id in e.order;
    HandledOnce(cfg, t, e.order, sampled, e.timedOut, id);
  }

  lemma {:induction false} HandledOnce(cfg: Config, s: State, order: seq<RequestId>, sampled: map<nat, Token>,
                                       timedOut: set<RequestId>, id: RequestId)
    requires id in order && forall i, j :: 0 <= i < j < |order| ==> order[i] != order[j]
    requires id in s.active && id in s.requests && s.requests[id].seqId in sampled
    ensures var t := SampleAll(cfg, s, order, sampled, timedOut);
            id in t.active && id in t.requests ==>
              |t.active[id].pending| == 1 && t.requests[id].remaining == s.requests[id].remaining - 1
  {
    var n := |order| - 1;
    assert order == order[..n] + [order[n]];
    var t := SampleAll(cfg, s, order[..n], sampled, timedOut);
    if order[n] == id {
      SampleAllLeavesOthers(cfg, s, order[..n], sampled, timedOut, id);
    } else {
      HandledOnce(cfg, s, order[..n], sampled, timedOut, id);
      if order[n] in t.requests && order[n] in t.active && t.requests[order[n]].seqId in sampled {
        SampleOneLeavesOthers(cfg, t, order[n], sampled[t.requests[order[n]].seqId], timedOut, id);
      }
    }
  }

  /** Every other step leaves an active request's remaining ticks alone, or finishes it. */
  lemma OtherStepsDoNotDelay(cfg: Config, s: State, e: Event, id: RequestId)
    requires Good(cfg, s) && !e.TickEnd? && Enabled(cfg, s, e) && id in s.active && id in s.requests
    ensures var s' := Apply(cfg, s, e);
            id in s'.active ==> id in s'.requests && TicksLeft(cfg, s', id) == TicksLeft(cfg, s, id)
  {
    match e {
      case TickStart(expired, chosen, order) =>
        var t := ExpireAll(s, s.waiting, expired);
        ExpireAllKeeps(cfg, s, s.waiting, expired, {}, false);
        ExpireAllFrame(s, s.waiting, expired);
        if !Idle(t) {
          AdmittedElsewhere(cfg, t, chosen, id);
        }
      case TickFail(_, _) => TickFailKeeps(cfg, s, e);
      case _ =>
    }
  }

  lemma {:induction false} ExpireAllFrame(s: State, pool: seq<Request>, expired: set<RequestId>)
    ensures ExpireAll(s, pool, expired).active == s.active && ExpireAll(s, pool, expired).requests == s.requests
  {
    if pool != [] { ExpireAllFrame(s, pool[..|pool| - 1], expired); }
  }

  lemma {:induction false} AdmittedElsewhere(cfg: Config, s: State, chosen: seq<Request>, id: RequestId)
    requires Inv(cfg, s, {}, false) && |chosen| <= |s.freeSlots| && id in s.active && id in s.requests
    requires forall r :: r in chosen ==> r in s.waiting
    ensures var t := AdmitAll(cfg, s, chosen);
            id in t.active && id in t.requests && t.active[id] == s.active[id] && t.requests[id] == s.requests[id]
  {
    if chosen != [] {
      var n := |chosen| - 1;
      assert chosen[n] in chosen && forall r :: r in chosen[..n] ==> r in chosen;
      AdmittedElsewhere(cfg, s, chosen[..n], id);
      assert Waits(s.waiting, chosen[n].id);
      assert PlacedAt(s.waiting, SeatsOf(s.active), s.accepted, s.outcome, chosen[n].id);
    }
  }

  /** A request never comes back: once it has left it stays out. */
  lemma DoneStaysDone(cfg: Config, s: State, e: Event, id: RequestId)
    requires Good(cfg, s) && Enabled(cfg, s, e) && id in s.accepted && id !in s.active && !Waits(s.waiting, id)
    ensures var s' := Apply(cfg, s, e);
            id in s'.accepted && id !in s'.active && !Waits(s'.waiting, id)
  {
    assert PlacedAt(s.waiting, SeatsOf(s.active), s.accepted, s.outcome, id);
    OutcomeGrows(cfg, s, e, id);
    StepKeeps(cfg, s, e);
    var s' := Apply(cfg, s, e);
    assert PlacedAt(s'.waiting, SeatsOf(s'.active), s'.accepted, s'.outcome, id);
    assert id in s'.active ==> id in SeatsOf(s'.active);
  }

  lemma OutcomeGrows(cfg: Config, s: State, e: Event, id: RequestId)
    requires Enabled(cfg, s, e) && id in s.outcome
    ensures id in Apply(cfg, s, e).outcome
  {
    match e {
      case TickStart(expired, chosen, order) =>
        ExpireOutcome(s, s.waiting, expired, id);
        var t := ExpireAll(s, s.waiting, expired);
        if !Idle(t) { AdmitOutcome(cfg, t, chosen); }
      case TickEnd(timedOut, order) =>
        var t := AdvanceAll(s, s.phase.rows);
        SampleOutcome(cfg, t, order, Sampled(cfg.next, t.store, s.phase.rows), timedOut, id);
      case TickFail(garbage, ids) =>
        FinishOutcome(cfg, s.(store := Scrambled(s.store, s.phase.rows, garbage)), ids, id);
      case _ =>
    }
  }

  lemma {:induction false} ExpireOutcome(s: State, pool: seq<Request>, expired: set<RequestId>, id: RequestId)
    requires id in s.outcome
    ensures id in ExpireAll(s, pool, expired).outcome
  {
    if pool != [] { ExpireOutcome(s, pool[..|pool| - 1], expired, id); }
  }

  lemma {:induction false} AdmitOutcome(cfg: Config, s: State, chosen: seq<Request>)
    requires cfg.blockSize >= 1 && |chosen| <= |s.freeSlots|
    ensures AdmitAll(cfg, s, chosen).outcome == s.outcome
  {
    if chosen != [] { AdmitOutcome(cfg, s, chosen[..|chosen| - 1]); }
  }

  lemma {:induction false} SampleOutcome(cfg: Config, s: State, order: seq<RequestId>, sampled: map<nat, Token>,
                                         timedOut: set<RequestId>, id: RequestId)
    requires id in s.outcome
    ensures id in SampleAll(cfg, s, order, sampled, timedOut).outcome
  {
    if order != [] { SampleOutcome(cfg, s, order[..|order| - 1], sampled, timedOut, id); }
  }

  lemma {:induction false} FinishOutcome(cfg: Config, s: State, ids: seq<RequestId>, id: RequestId)
    requires id in s.outcome
    ensures id in FinishAll(cfg, s, ids).outcome
  {
    if ids != [] { FinishOutcome(cfg, s, ids[..|ids| - 1], id); }
  }

  /** The number of successful ticks among the events. */
  ghost function Ticks(events: seq<Event>): (n: nat)
  {
    if events == [] then 0 else Ticks(events[..|events| - 1]) + if events[|events| - 1].TickEnd? then 1 else 0
  }

  /** Accepted, and neither waiting nor active any more. */
  ghost predicate Gone(s: State, id: RequestId)
  {
    id in s.accepted && id !in s.active && !Waits(s.waiting, id)
  }

  lemma LeavesForGood(cfg: Config, s: State, e: Event, id: RequestId)
    requires Good(cfg, s) && Enabled(cfg, s, e) && id in s.active && id !in Apply(cfg, s, e).active
    ensures Gone(Apply(cfg, s, e), id)
  {
    var s' := Apply(cfg, s, e);
    assert SeqAt(cfg, s, {}, false, id);
    assert id in SeatsOf(s.active);
    assert PlacedAt(s.waiting, SeatsOf(s.active), s.accepted, s.outcome, id);
    PoolOnlyGrowsByArrival(cfg, s, e, id);
  }

  /** Nobody re-enters the queue, and acceptance is for ever. */
  lemma PoolOnlyGrowsByArrival(cfg: Config, s: State, e: Event, id: RequestId)
    requires Good(cfg, s) && Enabled(cfg, s, e) && id in s.accepted && !Waits(s.waiting, id)
    ensures id in Apply(cfg, s, e).accepted && !Waits(Apply(cfg, s, e).waiting, id)
  {
    match e {
      case Arrive(r) =>
        assert !Waits(s.waiting, r.id) by {
          assert PlacedAt(s.waiting, SeatsOf(s.active), s.accepted, s.outcome, r.id);
        }
        WaitsOneMore(s.waiting, r, id);
        assert Pushed(s.waiting, r) == s.waiting + [r];
      case TickStart(expired, chosen, order) =>
        ExpireAllKeeps(cfg, s, s.waiting, expired, {}, false);
        ExpireAllWaits(s, s.waiting, expired, id);
        var t := ExpireAll(s, s.waiting, expired);
        if !Idle(t) {
          AdmitAllFrame(cfg, t, chosen);
          AdmitAllPool(cfg, t, chosen, id);
        }
      case TickEnd(timedOut, order) =>
        var t := AdvanceAll(s, s.phase.rows);
        SampleAllPool(cfg, t, order, Sampled(cfg.next, t.store, s.phase.rows), timedOut);
      case TickFail(garbage, ids) =>
        FinishAllPool(cfg, s.(store := Scrambled(s.store, s.phase.rows, garbage)), ids);
      case _ =>
    }
  }

  lemma AdmitAllPool(cfg: Config, s: State, chosen: seq<Request>, id: RequestId)
    requires cfg.blockSize >= 1 && |chosen| <= |s.freeSlots| && !Waits(s.waiting, id)
    ensures !Waits(AdmitAll(cfg, s, chosen).waiting, id)
  {
    var pool := AdmitAll(cfg, s, chosen).waiting;
    forall i | 0 <= i < |pool| ensures pool[i].id != id {
      AdmitAllWaiting(cfg, s, chosen, pool[i]);
    }
  }

  lemma SampleOnePool(cfg: Config, s: State, id: RequestId, token: Token, timedOut: set<RequestId>)
    requires id in s.requests && id in s.active
    ensures SampleOne(cfg, s, id, token, timedOut).waiting == s.waiting
            && SampleOne(cfg, s, id, token, timedOut).accepted == s.accepted
  {
  }

  lemma {:induction false} SampleAllPool(cfg: Config, s: State, order: seq<RequestId>, sampled: map<nat, Token>,
                                         timedOut: set<RequestId>)
    ensures SampleAll(cfg, s, order, sampled, timedOut).waiting == s.waiting
    ensures SampleAll(cfg, s, order, sampled, timedOut).accepted == s.accepted
  {
    if order != [] {
      var n := |order| - 1;
      SampleAllPool(cfg, s, order[..n], sampled, timedOut);
      var t, id := SampleAll(cfg, s, order[..n], sampled, timedOut), order[n];
      if id in t.requests && id in t.active && t.requests[id].seqId in sampled {
        SampleOnePool(cfg, t, id, sampled[t.requests[id].seqId], timedOut);
      }
    }
  }

  lemma {:induction false} FinishAllPool(cfg: Config, s: State, ids: seq<RequestId>)
    ensures FinishAll(cfg, s, ids).waiting == s.waiting && FinishAll(cfg, s, ids).accepted == s.accepted
  {
    if ids != [] { FinishAllPool(cfg, s, ids[..|ids| - 1]); }
  }

  lemma CountdownStep(cfg: Config, s: State, e: Event, id: RequestId)
    requires Good(cfg, s) && Enabled(cfg, s, e) && (id in s.active || Gone(s, id))
    ensures var s' := Apply(cfg, s, e);
            if id in s'.active
            then && id in s.active && id in s.requests && id in s'.requests
                 && TicksLeft(cfg, s', id) == TicksLeft(cfg, s, id) - (if e.TickEnd? then 1 else 0)
            else Gone(s', id)
  {
    var s' := Apply(cfg, s, e);
    StepKeeps(cfg, s, e);
    if id !in s.active {
      DoneStaysDone(cfg, s, e, id);
    } else if id in s'.active {
      if e.TickEnd? { TickCountsDown(cfg, s, e, id); } else { OtherStepsDoNotDelay(cfg, s, e, id); }
    } else {
      LeavesForGood(cfg, s, e, id);
    }
  }

  lemma OneMoreEvent(events: seq<Event>, i: nat, j: nat)
    requires i < j <= |events|
    ensures Ticks(events[i..j]) == Ticks(events[i..j - 1]) + if events[j - 1].TickEnd? then 1 else 0
  {
    assert events[i..j][..|events[i..j]| - 1] == events[i..j - 1];
  }

  /** After so many ticks, the request has the rest of its total left, or is gone. */
  ghost predicate OnSchedule(cfg: Config, s: State, id: RequestId, total: int, ticks: int)
  {
    if id in s.active
    then cfg.chunkSize >= 1 && id in s.requests && ticks + TicksLeft(cfg, s, id) == total
    else Gone(s, id)
  }

  lemma StaysOnSchedule(cfg: Config, s: State, e: Event, id: RequestId, total: int, ticks: int)
    requires Good(cfg, s) && Enabled(cfg, s, e) && OnSchedule(cfg, s, id, total, ticks)
    ensures OnSchedule(cfg, Apply(cfg, s, e), id, total, ticks + if e.TickEnd? then 1 else 0)
  {
    CountdownStep(cfg, s, e, id);
  }

  lemma OnScheduleInRun(cfg: Config, states: seq<State>, events: seq<Event>, k: nat, id: RequestId, total: int,
                        ticks: int)
    requires IsRun(cfg, states, events) && k < |events| && OnSchedule(cfg, states[k], id, total, ticks)
    ensures OnSchedule(cfg, states[k + 1], id, total, ticks + if events[k].TickEnd? then 1 else 0)
  {
    RunIsGood(cfg, states, events, k);
    assert StepAt(cfg, states, events, k);
    StaysOnSchedule(cfg, states[k], events[k], id, total, ticks);
  }

  /** Along a run an active request counts down one per successful tick, until it is gone. */
  lemma {:induction false} Countdown(cfg: Config, states: seq<State>, events: seq<Event>, i: nat, j: nat, id: RequestId)
    requires IsRun(cfg, states, events) && i <= j < |states| && id in states[i].active && id in states[i].requests
    ensures OnSchedule(cfg, states[j], id, TicksLeft(cfg, states[i], id), Ticks(events[i..j]))
  {
    if i < j {
      var k := j - 1;
      Countdown(cfg, states, events, i, k, id);
      OnScheduleInRun(cfg, states, events, k, id, TicksLeft(cfg, states[i], id), Ticks(events[i..k]));
      OneMoreEvent(events, i, j);
    } else {
      assert events[i..j] == [];
    }
  }

  lemma ActiveNeedsATick(cfg: Config, s: State, id: RequestId)
    requires Good(cfg, s) && id in s.active
    ensures id in s.requests && TicksLeft(cfg, s, id) >= 1
  {
    assert SeqAt(cfg, s, {}, false, id);
    ChunksLeft(|s.active[id].pending|, cfg.chunkSize);
  }

  /** Every active request is gone after as many successful ticks as it had left, whatever
      else happens, and holds nothing then: no slot, no blocks. */
  lemma FinishesInTime(cfg: Config, states: seq<State>, events: seq<Event>, i: nat, j: nat, id: RequestId)
    requires IsRun(cfg, states, events) && i <= j < |states| && id in states[i].active && id in states[i].requests
    requires Ticks(events[i..j]) >= TicksLeft(cfg, states[i], id)
    ensures Gone(states[j], id) && id !in states[j].requests && id !in states[j].kv.table
  {
    Countdown(cfg, states, events, i, j, id);
    RunIsGood(cfg, states, events, j);
    if id in states[j].active {
      ActiveNeedsATick(cfg, states[j], id);
    }
    assert id !in SeatsOf(states[j].active);
  }

  /** A request that has just been given a slot needs ceil((prompt - reused) / chunk) +
      max_tokens - 1 ticks, where what it reused is its n_past. */
  lemma TicksAtAdmission(cfg: Config, states: seq<State>, events: seq<Event>, i: nat, r: Request)
    requires IsRun(cfg, states, events) && i < |events| && events[i].TickStart? && states[i + 1].phase != Parked
    requires r in events[i].chosen
    ensures var s := states[i + 1];
            && r.id in s.active && r.id in s.requests && s.active[r.id].nPast < |r.prompt|
            && TicksLeft(cfg, s, r.id) == BlocksNeeded(|r.prompt| - s.active[r.id].nPast, cfg.chunkSize)
              + r.maxTokens - 1
  {
    RunIsGood(cfg, states, events, i);
    RunIsGood(cfg, states, events, i + 1);
    assert StepAt(cfg, states, events, i);
    ChosenAreAdmitted(cfg, states[i], events[i], r);
    FreshTicks(cfg, states[i + 1], r);
  }

  /** Every admitted request is gone, with its slot, its blocks and its claim, after at most
      ceil((prompt - reused) / chunk) + max_tokens - 1 successful ticks. */
  lemma AdmittedFinishesInTime(cfg: Config, states: seq<State>, events: seq<Event>, i: nat, j: nat, r: Request)
    requires IsRun(cfg, states, events) && i < j < |states| && events[i].TickStart? && states[i + 1].phase != Parked
    requires r in events[i].chosen
    ensures var s := states[i + 1];
            && r.id in s.active && s.active[r.id].nPast < |r.prompt|
            && (Ticks(events[i + 1..j]) >= BlocksNeeded(|r.prompt| - s.active[r.id].nPast,
                                                        cfg.chunkSize) + r.maxTokens - 1 ==>
                  Gone(states[j], r.id) && r.id !in states[j].requests && r.id !in states[j].kv.table
                  && Returned(cfg, states[j], r.id, s.active[r.id].seqId))
  {
    TicksAtAdmission(cfg, states, events, i, r);
    if Ticks(events[i + 1..j]) >= TicksLeft(cfg, states[i + 1], r.id) {
      FinishesInTime(cfg, states, events, i + 1, j, r.id);
      SlotReturned(cfg, states, events, i + 1, j, r.id);
    }
  }

  /** The slot is free again or somebody else's, and so is every claim made in it. */
  ghost predicate Returned(cfg: Config, s: State, id: RequestId, slot: nat)
  {
    && cfg.blockSize >= 1
    && (slot in s.freeSlots || exists x :: x != id && x in s.active && s.active[x].seqId == slot)
    && forall k :: 0 <= k < |s.claims| && s.claims[k].owner == slot ==>
         exists x :: x != id && IsClaimOf(cfg, s.claims[k], SeatsOf(s.active), s.accepted, x)
  }

  lemma SlotReturned(cfg: Config, states: seq<State>, events: seq<Event>, i: nat, j: nat, id: RequestId)
    requires IsRun(cfg, states, events) && i <= j < |states| && id in states[i].active && id !in states[j].active
    ensures Returned(cfg, states[j], id, states[i].active[id].seqId)
  {
    RunIsGood(cfg, states, events, i);
    RunIsGood(cfg, states, events, j);
    SlotInRange(cfg, states[i], id);
    GoneIsReturned(cfg, states[j], id, states[i].active[id].seqId);
  }

  lemma SlotInRange(cfg: Config, s: State, id: RequestId)
    requires Good(cfg, s) && id in s.active
    ensures s.active[id].seqId < cfg.nSeqMax
  {
    assert id in SeatsOf(s.active);
  }

  lemma GoneIsReturned(cfg: Config, s: State, id: RequestId, slot: nat)
    requires Good(cfg, s) && id !in s.active && slot < cfg.nSeqMax
    ensures Returned(cfg, s, id, slot)
  {
    var seats := SeatsOf(s.active);
    if slot !in s.freeSlots {
      var x :| x in seats && seats[x] == slot;
      assert x != id && x in s.active && s.active[x].seqId == slot;
    }
    forall k | 0 <= k < |s.claims| && s.claims[k].owner == slot
      ensures exists x :: x != id && IsClaimOf(cfg, s.claims[k], seats, s.accepted, x)
    {
      assert ClaimOk(cfg, s.claims[k], seats, s.accepted);
      var x :| IsClaimOf(cfg, s.claims[k], seats, s.accepted, x);
      assert x != id;
    }
  }

  lemma ChosenAreAdmitted(cfg: Config, s: State, e: Event, r: Request)
    requires Good(cfg, s) && e.TickStart? && Enabled(cfg, s, e) && Apply(cfg, s, e).phase != Parked && r in e.chosen
    ensures var s' := Apply(cfg, s, e);
            && r.id in s'.active && r.id in s'.requests && r.id in s'.accepted && s'.accepted[r.id] == r
            && s'.requests[r.id].remaining == r.maxTokens && s'.requests[r.id].emitted == 0
  {
    var t := ExpireAll(s, s.waiting, e.expired);
    ExpireAllKeeps(cfg, s, s.waiting, e.expired, {}, false);
    AdmittedState(cfg, t, e.chosen, r);
    AdmitAllFrame(cfg, t, e.chosen);
  }

  lemma FreshTicks(cfg: Config, s: State, r: Request)
    requires Good(cfg, s) && r.id in s.active && r.id in s.requests && r.id in s.accepted && s.accepted[r.id] == r
    requires s.requests[r.id].remaining == r.maxTokens && s.requests[r.id].emitted == 0
    ensures s.active[r.id].nPast < |r.prompt|
    ensures TicksLeft(cfg, s, r.id) == BlocksNeeded(|r.prompt| - s.active[r.id].nPast, cfg.chunkSize) + r.maxTokens - 1
  {
    assert SeqAt(cfg, s, {}, false, r.id);
  }

  lemma {:induction false} AdmittedState(cfg: Config, s: State, chosen: seq<Request>, r: Request)
    requires cfg.blockSize >= 1 && |chosen| <= |s.freeSlots| && DistinctIds(chosen) && r in chosen
    ensures var t := AdmitAll(cfg, s, chosen);
            && r.id in t.active && r.id in t.requests
            && t.requests[r.id].remaining == r.maxTokens && t.requests[r.id].emitted == 0
  {
    var n := |chosen| - 1;
    if chosen[n] != r {
      assert chosen == chosen[..n] + [chosen[n]];
      AdmittedState(cfg, s, chosen[..n], r);
    }
  }
}
