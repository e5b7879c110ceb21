/** What each event of the loop does to one request, said in terms of its prompt, its output, its
    stream and what the event names. */
module ServingEffects {
  import opened Requests
  import opened Waiting
  import opened Streaming
  import opened Batch
  import opened Runtime
  import opened Serving
  import opened ServingInvariant
  import opened ServingQueue
  import opened ServingAdmit
  import opened ServingTick
  import opened ServingSample
  import opened ServingRuns
  import opened ServingTheorems

  /** The client has cancelled or gone away. */
  ghost predicate Left(st: Streams, id: RequestId)
  {
    id !in st.open || st.open[id].cancelled
  }

  /** The request has left the loop's tables, for this reason. */
  ghost predicate EndedAs(s: State, id: RequestId, how: Outcome)
  {
    id !in s.active && id !in s.requests && id in s.outcome && s.outcome[id] == how
  }

  /** The request goes on: it has been sent these tokens and has these to decode. */
  ghost predicate GoesOn(s: State, id: RequestId, out: seq<Token>, pending: seq<Token>)
  {
    id in s.active && id !in s.outcome && Output(s, id) == out && s.active[id].pending == pending
  }

  /** The loop does not register or unregister a stream, cancel it or take from it. */
  ghost predicate SameLook(st: Streams, st': Streams)
  {
    && st'.taken == st.taken && st'.open.Keys == st.open.Keys
    && forall x :: x in st.open ==> st'.open[x].cancelled == st.open[x].cancelled
  }

  lemma PutLook(st: Streams, id: RequestId, item: Item)
    ensures SameLook(st, AfterPut(st, id, item))
  {
  }

  // ---------------------------------------------------------------- samples

  /** One event leaves a request as it was, as far as its end is concerned. */
  ghost predicate Untouched(s: State, t: State, x: RequestId)
  {
    && SameFor(s, t, x) && (x in t.outcome <==> x in s.outcome) && (x in s.outcome ==> t.outcome[x] == s.outcome[x])
    && (Left(t.streams, x) <==> Left(s.streams, x)) && (x in t.streams.open <==> x in s.streams.open)
  }

  /** What a sampled token leads to. */
  ghost predicate SampledInto(cfg: Config, s: State, t: State, id: RequestId, token: Token, timedOut: set<RequestId>)
    requires id in s.requests && id in s.streams.sent
  {
    if token == cfg.eos || s.requests[id].remaining <= 1 then EndedAs(t, id, Completed)
    else if Left(s.streams, id) then EndedAs(t, id, Disconnected)
    else if id in timedOut then EndedAs(t, id, GenerationTimeout)
    else
      && id in t.active && (id in t.outcome <==> id in s.outcome) && t.active[id].pending == [token]
      && id in t.streams.sent && t.streams.sent[id] == s.streams.sent[id] + [Chunk(token)]
  }

  lemma SampleOneInto(cfg: Config, s: State, id: RequestId, token: Token, timedOut: set<RequestId>)
    requires id in s.requests && id in s.active && id in s.streams.sent
    ensures SampledInto(cfg, s, SampleOne(cfg, s, id, token, timedOut), id, token, timedOut)
  {
  }

  lemma SampleOneUntouched(cfg: Config, s: State, id: RequestId, token: Token, timedOut: set<RequestId>, x: RequestId)
    requires id in s.requests && id in s.active && x != id
    ensures Untouched(s, SampleOne(cfg, s, id, token, timedOut), x)
  {
    SampleOneLeavesOthers(cfg, s, id, token, timedOut, x);
  }

  lemma {:induction false} SampleAllUntouched(cfg: Config, s: State, order: seq<RequestId>, sampled: map<nat, Token>,
                                              timedOut: set<RequestId>, x: RequestId)
    requires x !in order
    ensures Untouched(s, SampleAll(cfg, s, order, sampled, timedOut), x)
  {
    if order != [] {
      var n := |order| - 1;
      assert order[n] in order && forall y :: y in order[..n] ==> y in order;
      SampleAllUntouched(cfg, s, order[..n], sampled, timedOut, x);
      var t, id := SampleAll(cfg, s, order[..n], sampled, timedOut), order[n];
      if id in t.requests && id in t.active && t.requests[id].seqId in sampled {
        SampleOneUntouched(cfg, t, id, sampled[t.requests[id].seqId], timedOut, x);
      }
    }
  }

  lemma IntoAround(cfg: Config, s: State, t: State, u: State, v: State, id: RequestId, token: Token,
                   timedOut: set<RequestId>)
    requires id in s.requests && id in s.streams.sent && id in s.active
    requires Untouched(s, t, id) && Untouched(u, v, id) && SampledInto(cfg, t, u, id, token, timedOut)
    ensures SampledInto(cfg, s, v, id, token, timedOut)
  {
  }

  lemma {:induction false} SampleAllInto(cfg: Config, s: State, order: seq<RequestId>, sampled: map<nat, Token>,
                                         timedOut: set<RequestId>, id: RequestId)
    requires id in order && forall i, j :: 0 <= i < j < |order| ==> order[i] != order[j]
    requires id in s.requests && id in s.active && id in s.streams.sent && s.requests[id].seqId in sampled
    ensures SampledInto(cfg, s, SampleAll(cfg, s, order, sampled, timedOut), id, sampled[s.requests[id].seqId],
                        timedOut)
  {
    var n := |order| - 1;
    assert order == order[..n] + [order[n]];
    var t := SampleAll(cfg, s, order[..n], sampled, timedOut);
    var u := SampleAll(cfg, s, order, sampled, timedOut);
    var token := sampled[s.requests[id].seqId];
    if order[n] == id {
      SampleAllUntouched(cfg, s, order[..n], sampled, timedOut, id);
      SampleOneInto(cfg, t, id, token, timedOut);
      assert Untouched(u, u, id);
      IntoAround(cfg, s, t, u, u, id, token, timedOut);
    } else {
      SampleAllInto(cfg, s, order[..n], sampled, timedOut, id);
      OneMoreUntouched(cfg, t, order[n], sampled, timedOut, id, u);
      assert Untouched(s, s, id);
      IntoAround(cfg, s, s, t, u, id, token, timedOut);
    }
  }

  lemma OneMoreUntouched(cfg: Config, t: State, id: RequestId, sampled: map<nat, Token>, timedOut: set<RequestId>,
                         x: RequestId, u: State)
    requires x != id
    requires u == if id in t.requests && id in t.active && t.requests[id].seqId in sampled
                  then SampleOne(cfg, t, id, sampled[t.requests[id].seqId], timedOut) else t
    ensures Untouched(t, u, x)
  {
    if id in t.requests && id in t.active && t.requests[id].seqId in sampled {
      SampleOneUntouched(cfg, t, id, sampled[t.requests[id].seqId], timedOut, x);
    }
  }

  // ---------------------------------------------------------------- a successful tick

  /** The whole effect of a successful tick on an active request. With more pending than a chunk it
      goes on with the rest. Otherwise the model's next token decides: it completes if that ends
      the sequence or the budget; else it ends as disconnected if the client has left, or as timed
      out if it is one of those; else the token is sent and is the next to be decoded. */
  ghost predicate TickEffect(cfg: Config, s: State, s': State, timedOut: set<RequestId>, id: RequestId)
    requires id in s.active && id in s.accepted
  {
    var r, out, pending := s.accepted[id], Output(s, id), s.active[id].pending;
    var token := cfg.next(ContextOf(r.prompt + out));
    if |pending| > cfg.chunkSize then GoesOn(s', id, out, pending[cfg.chunkSize..])
    else if token == cfg.eos || |out| + 1 >= r.maxTokens then EndedAs(s', id, Completed)
    else if Left(s.streams, id) then EndedAs(s', id, Disconnected)
    else if id in timedOut then EndedAs(s', id, GenerationTimeout)
    else GoesOn(s', id, out + [token], [token])
  }

  lemma TickEndEffect(cfg: Config, s: State, e: Event, id: RequestId)
    requires Good(cfg, s) && e.TickEnd? && Enabled(cfg, s, e) && id in s.active
    ensures id in s.accepted && TickEffect(cfg, s, Apply(cfg, s, e), e.timedOut, id)
  {
    assert SeqAt(cfg, s, {}, false, id);
    ActiveHasNoOutcome(cfg, s, id);
    if |s.active[id].pending| > cfg.chunkSize {
      UnsampledEffect(cfg, s, e, id);
    } else {
      SampledEffect(cfg, s, e, id);
    }
  }

  lemma ActiveHasNoOutcome(cfg: Config, s: State, id: RequestId)
    requires Good(cfg, s) && id in s.active
    ensures id !in s.outcome && !Waits(s.waiting, id) && id in s.accepted
  {
    assert id in SeatsOf(s.active);
    assert PlacedAt(s.waiting, SeatsOf(s.active), s.accepted, s.outcome, id);
  }

  lemma UnsampledEffect(cfg: Config, s: State, e: Event, id: RequestId)
    requires Good(cfg, s) && e.TickEnd? && Enabled(cfg, s, e) && id in s.active && id in s.requests
    requires |s.active[id].pending| > cfg.chunkSize && id !in s.outcome
    ensures GoesOn(Apply(cfg, s, e), id, Output(s, id), s.active[id].pending[cfg.chunkSize..])
  {
    var rows, a := s.phase.rows, s.active[id];
    var t := AdvanceAll(s, rows);
    SampledTells(cfg, s, rows, id);
    assert id !in e.order;
    SampleAllUntouched(cfg, t, e.order, Sampled(cfg.next, t.store, rows), e.timedOut, id);
    assert RowsOf(rows, a.seqId) == Slice(a, cfg.chunkSize);
    assert Advanced(a, rows).pending == a.pending[cfg.chunkSize..];
  }

  lemma SampledEffect(cfg: Config, s: State, e: Event, id: RequestId)
    requires Good(cfg, s) && e.TickEnd? && Enabled(cfg, s, e) && id in s.active && id in s.accepted
    requires |s.active[id].pending| <= cfg.chunkSize && id !in s.outcome && SeqAt(cfg, s, {}, false, id)
    ensures TickEffect(cfg, s, Apply(cfg, s, e), e.timedOut, id)
  {
    var rows := s.phase.rows;
    var t := AdvanceAll(s, rows);
    var sampled := Sampled(cfg.next, t.store, rows);
    SampledTells(cfg, s, rows, id);
    assert id in Owed(cfg, s) && id in e.order;
    SampleAllInto(cfg, t, e.order, sampled, e.timedOut, id);
    IntoEffect(cfg, s, Apply(cfg, s, e), e.timedOut, id);
  }

  lemma IntoEffect(cfg: Config, s: State, s': State, timedOut: set<RequestId>, id: RequestId)
    requires id in s.active && id in s.accepted && id in s.requests && id in s.streams.sent && id !in s.outcome
    requires |s.active[id].pending| <= cfg.chunkSize
    requires s.requests[id].remaining + |Tokens(s.streams.sent[id])| == s.accepted[id].maxTokens
    requires SampledInto(cfg, s, s', id, cfg.next(ContextOf(s.accepted[id].prompt + Tokens(s.streams.sent[id]))),
                         timedOut)
    ensures TickEffect(cfg, s, s', timedOut, id)
  {
    var token := cfg.next(ContextOf(s.accepted[id].prompt + Output(s, id)));
    TokensPut(s.streams.sent[id], Chunk(token));
  }

  // ---------------------------------------------------------------- the other events

  /** Who is named and waits ends in the queue; nobody else does. */
  lemma {:induction false} ExpireAllOutcome(s: State, pool: seq<Request>, expired: set<RequestId>, id: RequestId)
    ensures var t := ExpireAll(s, pool, expired);
            if Waits(pool, id) && id in expired then id in t.outcome && t.outcome[id] == QueueTimeout
            else (id in t.outcome <==> id in s.outcome) && (id in s.outcome ==> t.outcome[id] == s.outcome[id])
    ensures SameLook(s.streams, ExpireAll(s, pool, expired).streams)
  {
    if pool != [] {
      var n := |pool| - 1;
      ExpireAllOutcome(s, pool[..n], expired, id);
      assert pool == pool[..n] + [pool[n]];
      WaitsOneMore(pool[..n], pool[n], id);
      PutLook(ExpireAll(s, pool[..n], expired).streams, pool[n].id, End);
    }
  }

  /** A scheduling tick ends exactly the waiting requests it names as expired. Everybody else who
      waited goes on waiting or is active afterwards. */
  ghost predicate StartEffect(s: State, s': State, expired: set<RequestId>, id: RequestId)
  {
    if Waits(s.waiting, id) && id in expired then EndedAs(s', id, QueueTimeout) && !Waits(s'.waiting, id)
    else
      && SameOutcome(s, s', id)
      && (Waits(s.waiting, id) ==> Waits(s'.waiting, id) || id in s'.active)
  }

  ghost predicate SameOutcome(s: State, s': State, id: RequestId)
  {
    (id in s'.outcome <==> id in s.outcome) && (id in s.outcome ==> s'.outcome[id] == s.outcome[id])
  }

  lemma StartOutcome(cfg: Config, s: State, e: Event, id: RequestId)
    requires Good(cfg, s) && e.TickStart? && Enabled(cfg, s, e)
    ensures var s' := Apply(cfg, s, e);
            && SameLook(s.streams, s'.streams) && s'.accepted == s.accepted
            && if Waits(s.waiting, id) && id in e.expired then id in s'.outcome && s'.outcome[id] == QueueTimeout
               else SameOutcome(s, s', id)
  {
    var t := ExpireAll(s, s.waiting, e.expired);
    ExpireAllOutcome(s, s.waiting, e.expired, id);
    ExpireAllKeeps(cfg, s, s.waiting, e.expired, {}, false);
    if !Idle(t) { AdmitAllQuiet(cfg, t, e.chosen); }
  }

  lemma TickStartEffect(cfg: Config, s: State, e: Event, id: RequestId)
    requires Good(cfg, s) && e.TickStart? && Enabled(cfg, s, e)
    ensures SameLook(s.streams, Apply(cfg, s, e).streams) && StartEffect(s, Apply(cfg, s, e), e.expired, id)
  {
    StartOutcome(cfg, s, e, id);
    TickStartKeeps(cfg, s, e);
    WhereItIs(cfg, s, id);
    WhereItIs(cfg, Apply(cfg, s, e), id);
  }

  /** An accepted request is in one of three places. */
  lemma WhereItIs(cfg: Config, s: State, id: RequestId)
    requires Good(cfg, s)
    ensures Waits(s.waiting, id) ==> id in s.accepted && id !in s.outcome && id !in s.active
    ensures id in s.active ==> id in s.accepted && id !in s.outcome && !Waits(s.waiting, id)
    ensures id in s.outcome ==> id in s.accepted && id !in s.active && id !in s.requests && !Waits(s.waiting, id)
    ensures id in s.accepted ==> Waits(s.waiting, id) || id in s.active || id in s.outcome
  {
    assert PlacedAt(s.waiting, SeatsOf(s.active), s.accepted, s.outcome, id);
    assert id in s.active <==> id in SeatsOf(s.active);
    assert id in s.active.Keys <==> id in s.requests.Keys;
  }

  lemma {:induction false} FinishAllOutcome(cfg: Config, s: State, ids: seq<RequestId>, id: RequestId)
    requires forall x :: x in s.requests ==> x !in s.outcome
    ensures var t := FinishAll(cfg, s, ids);
            && SameLook(s.streams, t.streams) && (forall x :: x in t.requests ==> x in s.requests && x !in t.outcome)
            && if id in ids && id in s.requests then id !in t.requests && id in t.outcome
              && t.outcome[id] == DecodeError
               else SameOutcome(s, t, id)
    ensures id !in ids ==> (id in FinishAll(cfg, s, ids).requests <==> id in s.requests)
  {
    if ids != [] {
      var n := |ids| - 1;
      FinishAllOutcome(cfg, s, ids[..n], id);
      assert ids == ids[..n] + [ids[n]];
      PutLook(FinishAll(cfg, s, ids[..n]).streams, ids[n], End);
    }
  }

  /** A failed decode call ends every active request, and nothing else changes its outcome. */
  lemma TickFailEffect(cfg: Config, s: State, e: Event, id: RequestId)
    requires Good(cfg, s) && e.TickFail? && Enabled(cfg, s, e)
    ensures var s' := Apply(cfg, s, e);
            && SameLook(s.streams, s'.streams)
            && if id in s.active then EndedAs(s', id, DecodeError) else SameOutcome(s, s', id)
  {
    var t := s.(store := Scrambled(s.store, s.phase.rows, e.garbage));
    forall x | x in t.requests ensures x !in t.outcome {
      WhereItIs(cfg, s, x);
    }
    FinishAllOutcome(cfg, t, e.ids, id);
    TickFailKeeps(cfg, s, e);
    assert id in s.active.Keys <==> id in s.requests.Keys;
  }

  /** A tick has no effect on the outcome of a request that is not active. */
  lemma TickEndElsewhere(cfg: Config, s: State, e: Event, id: RequestId)
    requires Good(cfg, s) && e.TickEnd? && Enabled(cfg, s, e) && id !in s.active
    ensures SameOutcome(s, Apply(cfg, s, e), id)
  {
    var t := AdvanceAll(s, s.phase.rows);
    assert id !in e.order;
    SampleAllUntouched(cfg, t, e.order, Sampled(cfg.next, t.store, s.phase.rows), e.timedOut, id);
  }

  lemma {:induction false} SampleAllLook(cfg: Config, s: State, order: seq<RequestId>, sampled: map<nat, Token>,
                                         timedOut: set<RequestId>)
    ensures SameLook(s.streams, SampleAll(cfg, s, order, sampled, timedOut).streams)
  {
    if order != [] {
      var n := |order| - 1;
      SampleAllLook(cfg, s, order[..n], sampled, timedOut);
      var t, id := SampleAll(cfg, s, order[..n], sampled, timedOut), order[n];
      if id in t.requests && id in t.active && t.requests[id].seqId in sampled {
        SampleOneLook(cfg, t, id, sampled[t.requests[id].seqId], timedOut);
      }
    }
  }

  lemma SampleOneLook(cfg: Config, t: State, id: RequestId, token: Token, timedOut: set<RequestId>)
    requires id in t.requests && id in t.active
    ensures SameLook(t.streams, SampleOne(cfg, t, id, token, timedOut).streams)
  {
    PutLook(t.streams, id, End);
    PutLook(t.streams, id, Chunk(token));
  }

  /** The loop leaves it to the clients which streams are registered and cancelled and what has
      been taken from them. */
  lemma LoopKeepsLook(cfg: Config, s: State, e: Event)
    requires Good(cfg, s) && Enabled(cfg, s, e) && (e.TickStart? || e.TickEnd? || e.TickFail?)
    ensures SameLook(s.streams, Apply(cfg, s, e).streams)
  {
    match e {
      case TickStart(_, _, _) => StartOutcome(cfg, s, e, 0);
      case TickFail(_, _) => TickFailEffect(cfg, s, e, 0);
      case TickEnd(timedOut, order) =>
        var t := AdvanceAll(s, s.phase.rows);
        SampleAllLook(cfg, t, order, Sampled(cfg.next, t.store, s.phase.rows), timedOut);
    }
  }
}
