/** After the decode call: the sequences advance, the sampled tokens are pushed or end their
    requests, and a failed call ends everything. */
module ServingSample {
  import opened Requests
  import opened Waiting
  import opened Streaming
  import opened Batch
  import opened Runtime
  import opened Serving
  import opened Greedy
  import opened ServingInvariant
  import opened ServingFinish

  // ---------------------------------------------------------------- advancing

  /** The sequences whose whole pending list fits this tick: they are owed a sample. */
  ghost function Owed(cfg: Config, s: State): (owed: set<RequestId>)
  {
    set id | id in s.active && |s.active[id].pending| <= cfg.chunkSize
  }

  lemma SeatsStay(active: map<RequestId, ActiveSeq>, active': map<RequestId, ActiveSeq>)
    requires active.Keys == active'.Keys && forall id :: id in active ==> active'[id].seqId == active[id].seqId
    ensures SeatsOf(active') == SeatsOf(active)
  {
    var a, b := SeatsOf(active), SeatsOf(active');
    assert a.Keys == b.Keys;
    forall id | id in a ensures a[id] == b[id] {}
  }

  /** The rows are written right behind the cells: no gap, no overwrite. */
  lemma AdvancedCells(h: seq<Token>, a: ActiveSeq, store: Store, rows: seq<Row>, take: nat)
    requires a.nPast <= |h| && a.pending == h[a.nPast..] && take <= |a.pending|
    requires RowsOf(rows, a.seqId) == Slice(a, take) && CellsOf(store, a.seqId) == ContextOf(h[..a.nPast])
    ensures CellsOf(Written(store, rows), a.seqId) == ContextOf(h[..a.nPast + take])
  {
    var mine := Slice(a, take);
    assert mine[..take] == mine;
    WriteSlice(h, a, take, take);
    WrittenSlot(store, rows, a.seqId);
  }

  /** One sequence: cells and n_past move by the same rows. */
  lemma SeqAdvances(cfg: Config, r: Request, a: ActiveSeq, q: ReqState, items: seq<Item>, store: Store, rows: seq<Row>)
    requires SeqOk(cfg, r, a, q, items, CellsOf(store, a.seqId), false, false)
    requires RowsOf(rows, a.seqId) == Slice(a, Share(a, cfg.chunkSize))
    ensures SeqOk(cfg, r, Advanced(a, rows), q, items, CellsOf(Written(store, rows), a.seqId),
                  |a.pending| <= cfg.chunkSize, false)
  {
    var h, take := r.prompt + Tokens(items), Share(a, cfg.chunkSize);
    AdvancedCells(h, a, store, rows, take);
    assert Advanced(a, rows) == ActiveSeq(a.seqId, h[a.nPast + take..], a.nPast + take);
  }

  lemma CellsFitAdvance(n: nat, seats: Seats, freeSlots: seq<nat>, store: Store, rows: seq<Row>)
    requires Partition(n, seats, freeSlots) && CellsFit(n, freeSlots, store)
    requires forall slot: nat :: RowsOf(rows, slot) != [] ==> exists id :: id in seats && seats[id] == slot
    ensures CellsFit(n, freeSlots, Written(store, rows))
  {
    forall slot: nat ensures slot in Written(store, rows) <==> slot < n {
      WrittenSlot(store, rows, slot);
    }
    forall slot | slot in freeSlots ensures CellsOf(Written(store, rows), slot) == map[] {
      WrittenSlot(store, rows, slot);
    }
  }

  lemma AdvanceKeeps(cfg: Config, s: State, rows: seq<Row>)
    requires Inv(cfg, s, {}, false) && Batched(cfg, s, rows)
    ensures Inv(cfg, AdvanceAll(s, rows), Owed(cfg, s), false)
  {
    var s', owed, seats := AdvanceAll(s, rows), Owed(cfg, s), SeatsOf(s.active);
    SeatsStay(s.active, s'.active);
    forall slot: nat | RowsOf(rows, slot) != [] ensures exists id :: id in seats && seats[id] == slot {
      var id :| id in s.active && s.active[id].seqId == slot;
      assert id in seats && seats[id] == slot;
    }
    CellsFitAdvance(cfg.nSeqMax, seats, s.freeSlots, s.store, rows);
    forall x ensures SeqAt(cfg, s', owed, false, x) {
      assert SeqAt(cfg, s, {}, false, x);
      if x in s.active {
        SeqAdvances(cfg, s.accepted[x], s.active[x], s.requests[x], s.streams.sent[x], s.store, rows);
      }
    }
  }

  // ---------------------------------------------------------------- sampling

  /** The sampled token of a request is what the model says after its prompt and everything
      it has been sent. */
  ghost predicate Tells(cfg: Config, s: State, sampled: map<nat, Token>, id: RequestId)
  {
    && id in s.active && id in s.requests && id in s.accepted && id in s.streams.sent
    && s.requests[id].seqId in sampled
    && sampled[s.requests[id].seqId] == cfg.next(ContextOf(s.accepted[id].prompt + Tokens(s.streams.sent[id])))
  }

  /** The decode call samples exactly the sequences that are owed, from their own tokens. */
  lemma SampledTells(cfg: Config, s: State, rows: seq<Row>, id: RequestId)
    requires Inv(cfg, s, {}, false) && Batched(cfg, s, rows) && id in s.active
    ensures var t := AdvanceAll(s, rows);
            var sampled := Sampled(cfg.next, t.store, rows);
            && (s.active[id].seqId in sampled <==> id in Owed(cfg, s))
            && (id in Owed(cfg, s) ==> Tells(cfg, t, sampled, id))
  {
    var t, a := AdvanceAll(s, rows), s.active[id];
    var take := Share(a, cfg.chunkSize);
    assert SeqAt(cfg, s, {}, false, id);
    var h := s.accepted[id].prompt + Tokens(s.streams.sent[id]);
    AdvancedCells(h, a, s.store, rows, take);
    SampledFor(cfg, h, a, t.store, rows, take);
  }

  lemma SampledFor(cfg: Config, h: seq<Token>, a: ActiveSeq, store: Store, rows: seq<Row>, take: nat)
    requires a.nPast < |h| && a.pending == h[a.nPast..] && take <= |a.pending|
    requires RowsOf(rows, a.seqId) == Slice(a, take) && CellsOf(store, a.seqId) == ContextOf(h[..a.nPast + take])
    ensures var sampled := Sampled(cfg.next, store, rows);
            && (a.seqId in sampled <==> take == |a.pending|)
            && (take == |a.pending| ==> sampled[a.seqId] == cfg.next(ContextOf(h)))
  {
    SampledSlot(cfg.next, store, rows, a.seqId);
    SampledSlice(cfg.next, store, a, take);
    if take == |a.pending| {
      assert h[..a.nPast + take] == h;
      BelowAll(h);
    }
  }

  lemma StreamedPush(cfg: Config, st: Streams, waiting: seq<Request>, accepted: map<RequestId, Request>,
                     outcome: map<RequestId, Outcome>, id: RequestId, token: Token)
    requires Streamed(cfg, st, waiting, accepted, outcome) && id in st.open && id in st.sent
    requires !Waits(waiting, id) && id !in outcome
    ensures Streamed(cfg, AfterPut(st, id, Chunk(token)), waiting, accepted, outcome)
  {
    var st' := AfterPut(st, id, Chunk(token));
    forall x ensures StreamedAt(cfg, st', waiting, accepted, outcome, x) {
      assert StreamedAt(cfg, st, waiting, accepted, outcome, x);
    }
  }

  /** Pushing the sampled token keeps one sequence on track. */
  lemma SeqPushes(cfg: Config, r: Request, a: ActiveSeq, q: ReqState, items: seq<Item>, ctx: Context, token: Token)
    requires SeqOk(cfg, r, a, q, items, ctx, true, false)
    requires token == cfg.next(ContextOf(r.prompt + Tokens(items))) && token != cfg.eos && q.remaining - 1 > 0
    ensures SeqOk(cfg, r, a.(pending := [token]), ReqState(q.seqId, q.remaining - 1, q.emitted + 1),
                  items + [Chunk(token)], ctx, false, false)
  {
    var out := Tokens(items);
    var h := r.prompt + out;
    TokensPut(items, Chunk(token));
    TrackStep(cfg, r.prompt, r.maxTokens, out, q.remaining);
    assert r.prompt + (out + [token]) == h + [token];
    assert (h + [token])[a.nPast..] == [token];
    assert (h + [token])[..a.nPast] == h[..a.nPast];
  }

  /** The state after the last branch of the sampling loop. */
  ghost predicate IsPush(s: State, s': State, id: RequestId, token: Token)
    requires id in s.requests && id in s.active
  {
    s' == s.(requests := s.requests[id := ReqState(s.requests[id].seqId, s.requests[id].remaining - 1,
                                                   s.requests[id].emitted + 1)],
             streams := AfterPut(s.streams, id, Chunk(token)),
             active := s.active[id := s.active[id].(pending := [token])])
  }

  lemma FeedsBack(s: State, id: RequestId, token: Token)
    requires id in s.requests && id in s.active
    ensures IsPush(s, FedBack(CountedDown(s, id), id, token), id, token)
  {
    var q := ReqState(s.requests[id].seqId, s.requests[id].remaining - 1, s.requests[id].emitted + 1);
    assert CountedDown(s, id).requests[id := q] == s.requests[id := q];
  }

  lemma SequencesPush(cfg: Config, s: State, s': State, owed: set<RequestId>, id: RequestId, token: Token)
    requires Sequences(cfg, s, owed, false) && id in owed && id in s.active && id in s.requests && id in s.streams.open
    requires id in s.accepted && id in s.streams.sent
    requires token == cfg.next(ContextOf(s.accepted[id].prompt + Tokens(s.streams.sent[id])))
    requires token != cfg.eos && s.requests[id].remaining - 1 > 0
    requires IsPush(s, s', id, token)
    ensures Sequences(cfg, s', owed - {id}, false)
  {
    var owed' := owed - {id};
    assert SeqAt(cfg, s, owed, false, id);
    SeqPushes(cfg, s.accepted[id], s.active[id], s.requests[id], s.streams.sent[id],
              CellsOf(s.store, s.active[id].seqId), token);
    forall x ensures SeqAt(cfg, s', owed', false, x) {
      assert SeqAt(cfg, s, owed, false, x);
    }
  }

  lemma PushKeeps(cfg: Config, s: State, s': State, owed: set<RequestId>, id: RequestId, token: Token)
    requires Inv(cfg, s, owed, false) && id in owed && id in s.active && id in s.requests && id in s.streams.open
    requires id in s.accepted && id in s.streams.sent
    requires token == cfg.next(ContextOf(s.accepted[id].prompt + Tokens(s.streams.sent[id])))
    requires token != cfg.eos && s.requests[id].remaining - 1 > 0
    requires IsPush(s, s', id, token)
    ensures Inv(cfg, s', owed - {id}, false)
  {
    var seats := SeatsOf(s.active);
    SeatsStay(s.active, s'.active);
    assert id in seats;
    assert PlacedAt(s.waiting, seats, s.accepted, s.outcome, id);
    StreamedPush(cfg, s.streams, s.waiting, s.accepted, s.outcome, id, token);
    SequencesPush(cfg, s, s', owed, id, token);
  }

  /** Finishing does not look at the remaining budget. */
  lemma FinishIgnoresBudget(cfg: Config, s: State, id: RequestId, how: Outcome)
    requires id in s.requests
    ensures Finish(cfg, CountedDown(s, id), id, how) == Finish(cfg, s, id, how)
  {
    assert CountedDown(s, id).requests - {id} == s.requests - {id};
  }

  lemma EndKeeps(cfg: Config, s: State, owed: set<RequestId>, id: RequestId, how: Outcome)
    requires Inv(cfg, s, owed, false) && id in s.active && id in s.requests && how != QueueTimeout
    requires how == Completed && id in s.accepted && id in s.streams.sent ==>
               Tokens(s.streams.sent[id]) == Reference(cfg, s.accepted[id].prompt, s.accepted[id].maxTokens)
    ensures Inv(cfg, Finish(cfg, CountedDown(s, id), id, how), owed - {id}, false)
  {
    FinishIgnoresBudget(cfg, s, id, how);
    FinishKeeps(cfg, s, owed, false, id, how);
  }

  /** How a sample is handled. */
  ghost function Ending(cfg: Config, s: State, id: RequestId, token: Token, timedOut: set<RequestId>): (how: Outcome)
    requires id in s.requests
  {
    if token == cfg.eos || s.requests[id].remaining - 1 <= 0 then Completed
    else if IsCancelled(s.streams, id) then Disconnected
    else GenerationTimeout
  }

  ghost predicate Ends(cfg: Config, s: State, id: RequestId, token: Token, timedOut: set<RequestId>)
    requires id in s.requests
  {
    token == cfg.eos || s.requests[id].remaining - 1 <= 0 || IsCancelled(s.streams, id) || id in timedOut
  }

  lemma SampleEnds(cfg: Config, s: State, owed: set<RequestId>, sampled: map<nat, Token>, id: RequestId,
                   timedOut: set<RequestId>)
    requires Inv(cfg, s, owed, false) && id in owed && Tells(cfg, s, sampled, id)
    requires Ends(cfg, s, id, sampled[s.requests[id].seqId], timedOut)
    ensures Inv(cfg, Finish(cfg, CountedDown(s, id), id,
                            Ending(cfg, s, id, sampled[s.requests[id].seqId], timedOut)), owed - {id}, false)
  {
    var token := sampled[s.requests[id].seqId];
    var how := Ending(cfg, s, id, token, timedOut);
    if how == Completed { CompletedIsAll(cfg, s, owed, sampled, id); }
    EndKeeps(cfg, s, owed, id, how);
  }

  /** A sample that completes the request finds everything pushed. */
  lemma CompletedIsAll(cfg: Config, s: State, owed: set<RequestId>, sampled: map<nat, Token>, id: RequestId)
    requires Sequences(cfg, s, owed, false) && id in owed && Tells(cfg, s, sampled, id)
    requires sampled[s.requests[id].seqId] == cfg.eos || s.requests[id].remaining - 1 <= 0
    ensures Tokens(s.streams.sent[id]) == Reference(cfg, s.accepted[id].prompt, s.accepted[id].maxTokens)
  {
    assert SeqAt(cfg, s, owed, false, id);
    TrackStep(cfg, s.accepted[id].prompt, s.accepted[id].maxTokens, Tokens(s.streams.sent[id]),
              s.requests[id].remaining);
  }

  lemma SampleIsFinish(cfg: Config, s: State, id: RequestId, token: Token, timedOut: set<RequestId>)
    requires id in s.requests && id in s.active && Ends(cfg, s, id, token, timedOut)
    ensures SampleOne(cfg, s, id, token, timedOut) ==
            Finish(cfg, CountedDown(s, id), id, Ending(cfg, s, id, token, timedOut))
  {
  }

  lemma SampleOneKeeps(cfg: Config, s: State, owed: set<RequestId>, sampled: map<nat, Token>, id: RequestId,
                       timedOut: set<RequestId>)
    requires Inv(cfg, s, owed, false) && id in owed && Tells(cfg, s, sampled, id)
    ensures Inv(cfg, SampleOne(cfg, s, id, sampled[s.requests[id].seqId], timedOut), owed - {id}, false)
  {
    var token := sampled[s.requests[id].seqId];
    if Ends(cfg, s, id, token, timedOut) {
      SampleEnds(cfg, s, owed, sampled, id, timedOut);
      SampleIsFinish(cfg, s, id, token, timedOut);
    } else {
      FeedsBack(s, id, token);
      PushKeeps(cfg, s, FedBack(CountedDown(s, id), id, token), owed, id, token);
    }
  }

  /** Nothing about request x differs between two states. */
  ghost predicate SameFor(s: State, t: State, x: RequestId)
  {
    && (x in t.active <==> x in s.active) && (x in s.active ==> t.active[x] == s.active[x])
    && (x in t.requests <==> x in s.requests) && (x in s.requests ==> t.requests[x] == s.requests[x])
    && (x in t.streams.sent <==> x in s.streams.sent)
    && (x in s.streams.sent ==> t.streams.sent[x] == s.streams.sent[x])
    && t.accepted == s.accepted && t.phase == s.phase
  }

  lemma FinishLeavesOthers(cfg: Config, s: State, id: RequestId, how: Outcome, x: RequestId)
    requires id in s.requests && x != id
    ensures SameFor(s, Finish(cfg, s, id, how), x)
  {
  }

  /** Handling one request leaves every other one's data alone. */
  lemma SampleOneLeavesOthers(cfg: Config, s: State, id: RequestId, token: Token, timedOut: set<RequestId>,
                              x: RequestId)
    requires id in s.requests && id in s.active && x != id
    ensures SameFor(s, SampleOne(cfg, s, id, token, timedOut), x)
  {
    if Ends(cfg, s, id, token, timedOut) {
      var how := Ending(cfg, s, id, token, timedOut);
      FinishIgnoresBudget(cfg, s, id, how);
      FinishLeavesOthers(cfg, s, id, how, x);
    }
  }

  lemma {:induction false} SampleAllLeavesOthers(cfg: Config, s: State, order: seq<RequestId>,
                                                 sampled: map<nat, Token>, timedOut: set<RequestId>, x: RequestId)
    requires x !in order
    ensures SameFor(s, SampleAll(cfg, s, order, sampled, timedOut), x)
  {
    if order != [] {
      var n := |order| - 1;
      assert order[n] in order && forall y :: y in order[..n] ==> y in order;
      SampleAllLeavesOthers(cfg, s, order[..n], sampled, timedOut, x);
      var t, id := SampleAll(cfg, s, order[..n], sampled, timedOut), order[n];
      if id in t.requests && id in t.active && t.requests[id].seqId in sampled {
        SampleOneLeavesOthers(cfg, t, id, sampled[t.requests[id].seqId], timedOut, x);
      }
    }
  }

  lemma {:induction false} SampleAllKeeps(cfg: Config, s: State, owed: set<RequestId>, order: seq<RequestId>,
                                          sampled: map<nat, Token>, timedOut: set<RequestId>)
    requires Inv(cfg, s, owed, false)
    requires forall i, j :: 0 <= i < j < |order| ==> order[i] != order[j]
    requires forall id :: id in order ==> id in owed && Tells(cfg, s, sampled, id)
    ensures Inv(cfg, SampleAll(cfg, s, order, sampled, timedOut), Minus(owed, order), false)
  {
    if order == [] {
      assert Minus(owed, order) == owed;
    } else {
      var n := |order| - 1;
      var init, id := order[..n], order[n];
      MinusOneMore(owed, order);
      SampleAllKeeps(cfg, s, owed, init, sampled, timedOut);
      SampleAllLeavesOthers(cfg, s, init, sampled, timedOut, id);
      SampleOneKeeps(cfg, SampleAll(cfg, s, init, sampled, timedOut), Minus(owed, init), sampled, id, timedOut);
    }
  }

  ghost function Minus(owed: set<RequestId>, order: seq<RequestId>): (left: set<RequestId>)
  {
    set id | id in owed && id !in order
  }

  lemma MinusOneMore(owed: set<RequestId>, order: seq<RequestId>)
    requires order != [] && forall i, j :: 0 <= i < j < |order| ==> order[i] != order[j]
    requires forall id :: id in order ==> id in owed
    ensures var n := |order| - 1;
            && order[n] !in order[..n] && order[n] in order && order[n] in Minus(owed, order[..n])
            && Minus(owed, order) == Minus(owed, order[..n]) - {order[n]}
            && forall x :: x in order[..n] ==> x in order
  {
    var n := |order| - 1;
    var last := order[n];
    assert order == order[..n] + [last];
    assert last in order && last !in order[..n];
    assert last in Minus(owed, order[..n]);
  }

  // ---------------------------------------------------------------- failure

  lemma ScrambleKeeps(cfg: Config, s: State, rows: seq<Row>, garbage: Store)
    requires Inv(cfg, s, {}, false) && Batched(cfg, s, rows)
    ensures Inv(cfg, s.(store := Scrambled(s.store, rows, garbage)), {}, true)
  {
    var s', seats := s.(store := Scrambled(s.store, rows, garbage)), SeatsOf(s.active);
    forall id | id in s.active ensures s.active[id].seqId !in s.freeSlots {
      assert id in seats;
    }
    forall x ensures SeqAt(cfg, s', {}, true, x) {
      assert SeqAt(cfg, s, {}, false, x);
    }
  }

  lemma {:induction false} FinishAllKeys(cfg: Config, s: State, ids: seq<RequestId>)
    requires s.active.Keys == s.requests.Keys
    requires forall id :: id in ids ==> id in s.active
    ensures var t := FinishAll(cfg, s, ids);
            t.active.Keys == Minus(s.active.Keys, ids) && t.requests.Keys == t.active.Keys
  {
    if ids != [] {
      var n := |ids| - 1;
      assert ids == ids[..n] + [ids[n]];
      FinishAllKeys(cfg, s, ids[..n]);
    }
  }

  /** A failed call finishes everybody. */
  lemma {:induction false} FinishAllKeeps(cfg: Config, s: State, ids: seq<RequestId>)
    requires Inv(cfg, s, {}, true)
    requires forall i, j :: 0 <= i < j < |ids| ==> ids[i] != ids[j]
    requires forall id :: id in ids ==> id in s.active
    ensures Inv(cfg, FinishAll(cfg, s, ids), {}, true)
  {
    if ids != [] {
      var n := |ids| - 1;
      MinusOneMore(s.active.Keys, ids);
      FinishAllKeeps(cfg, s, ids[..n]);
      FinishAllKeys(cfg, s, ids[..n]);
      FinishKeeps(cfg, FinishAll(cfg, s, ids[..n]), {}, true, ids[n], DecodeError);
      assert {} - {ids[n]} == {};
    }
  }

  lemma CleanWhenEmpty(cfg: Config, s: State)
    requires Inv(cfg, s, {}, true) && s.active == map[]
    ensures Inv(cfg, s, {}, false)
  {
    forall x ensures SeqAt(cfg, s, {}, false, x) {
      assert SeqAt(cfg, s, {}, true, x);
    }
  }
}
