/** What reaches the clients, over whole runs: the consumers take what was sent, in order, and a
    client that stays until the end marker of a completed request has received the reference. */
module ServingDelivery {
  import opened Requests
  import opened Waiting
  import opened Streaming
  import opened Serving
  import opened Greedy
  import opened ServingInvariant
  import opened ServingRuns
  import opened ServingTheorems
  import opened ServingEffects
  import opened ServingEndings
  import ServingAdmit
  import Runtime

  lemma {:induction false} TokensPrefix(a: seq<Item>, b: seq<Item>)
    requires a <= b
    ensures Tokens(a) <= Tokens(b)
    decreases |b|
  {
    if |a| < |b| {
      TokensPrefix(a, b[..|b| - 1]);
    } else {
      assert a == b;
    }
  }

  lemma DeliveredInRun(cfg: Config, states: seq<State>, events: seq<Event>, i: nat, id: RequestId)
    requires IsRun(cfg, states, events) && i < |states| && id in states[i].accepted
    ensures DeliveredAt(states[i].streams, id)
  {
    RunIsGood(cfg, states, events, i);
    var s := states[i];
    assert StreamedAt(cfg, s.streams, s.waiting, s.accepted, s.outcome, id);
  }

  /** What a client has received is at all times a prefix of what the one-request decoder sends. */
  lemma ReceivedIsPrefix(cfg: Config, states: seq<State>, events: seq<Event>, i: nat, id: RequestId)
    requires IsRun(cfg, states, events) && i < |states| && id in states[i].accepted
    ensures var s, r := states[i], states[i].accepted[id];
            Tokens(TakenBy(s.streams, id)) <= Reference(cfg, r.prompt, r.maxTokens)
  {
    DeliveredInRun(cfg, states, events, i, id);
    TokensPrefix(TakenBy(states[i].streams, id), SentTo(states[i].streams, id));
    OutputRefinesReference(cfg, states, events, i, id);
  }

  // ---------------------------------------------------------------- one turn of a consumer

  /** A turn of the consumer brings the oldest item it has not taken, if there is one; only the end
      marker unregisters the stream. Nobody else's stream is touched. */
  ghost predicate TurnEffect(st: Streams, st': Streams, id: RequestId)
  {
    && (forall x :: x != id ==> (x in st'.open <==> x in st.open) && TakenBy(st', x) == TakenBy(st, x))
    && (forall x :: x != id && x in st.open ==> st'.open[x] == st.open[x])
    && st'.sent == st.sent
    && if id in st.open && st.open[id].queue != [] then
         var item := st.open[id].queue[0];
         && TakenBy(st', id) == TakenBy(st, id) + [item]
         && (id in st'.open <==> item != End)
         && (item != End ==> st'.open[id] == Stream(st.open[id].queue[1..], st.open[id].cancelled))
       else TakenBy(st', id) == TakenBy(st, id) && (id in st'.open <==> id in st.open)
            && (id in st.open ==> st'.open[id] == st.open[id])
  }

  lemma EveryTurnDelivers(cfg: Config, states: seq<State>, events: seq<Event>, n: nat, id: RequestId)
    requires IsRun(cfg, states, events) && n < |events| && events[n] == Consume(id)
    ensures TurnEffect(states[n].streams, states[n + 1].streams, id)
    ensures states[n + 1] == states[n].(streams := states[n + 1].streams)
  {
    StepInRun(cfg, states, events, n);
    TakeTurns(states[n].streams, id);
  }

  lemma TakeTurns(st: Streams, id: RequestId)
    ensures TurnEffect(st, AfterTake(st, id), id)
  {
  }

  /** A stream is unregistered only by its client going away, or by taking the end marker. */
  lemma UnregisteredOnlyBy(cfg: Config, states: seq<State>, events: seq<Event>, n: nat, id: RequestId)
    requires IsRun(cfg, states, events) && n < |events| && id in states[n].streams.open
             && id !in states[n + 1].streams.open
    ensures events[n] == Disconnect(id)
            || (events[n] == Consume(id) && states[n].streams.open[id].queue != []
                && states[n].streams.open[id].queue[0] == End)
  {
    StepInRun(cfg, states, events, n);
    var e := events[n];
    if e.TickStart? || e.TickEnd? || e.TickFail? { LoopKeepsLook(cfg, states[n], e); }
  }

  // ---------------------------------------------------------------- the client that stays

  /** The client has taken everything, the end marker last. */
  ghost predicate GotAll(st: Streams, id: RequestId)
  {
    && id in st.taken && id in st.sent && st.taken[id] == st.sent[id]
    && st.taken[id] != [] && st.taken[id][|st.taken[id]| - 1] == End
  }

  ghost predicate HungUp(events: seq<Event>, i: nat, id: RequestId)
    requires i <= |events|
  {
    exists n :: 0 <= n < i && events[n] == Disconnect(id)
  }

  lemma LastTaken(cfg: Config, states: seq<State>, events: seq<Event>, n: nat, id: RequestId)
    requires IsRun(cfg, states, events) && n < |events| && events[n] == Consume(id) && id in states[n].accepted
    requires id in states[n].streams.open && states[n].streams.open[id].queue != []
             && states[n].streams.open[id].queue[0] == End
    ensures GotAll(states[n + 1].streams, id)
  {
    StepInRun(cfg, states, events, n);
    DeliveredInRun(cfg, states, events, n, id);
    StreamsEndOnce(cfg, states, events, n, id);
    var st := states[n].streams;
    var taken, queue, sent := st.taken[id], st.open[id].queue, st.sent[id];
    assert sent[|taken|] == queue[0] == End;
    assert |taken| == |sent| - 1;
    assert queue == [End];
  }

  /** Once unregistered nothing is sent to a stream and nothing taken from it. */
  lemma UnregisteredStays(cfg: Config, s: State, e: Event, id: RequestId)
    requires Good(cfg, s) && Enabled(cfg, s, e) && id in s.accepted && id !in s.streams.open
    ensures var st := Apply(cfg, s, e).streams;
            id !in st.open && SentTo(st, id) == SentTo(s.streams, id) && TakenBy(st, id) == TakenBy(s.streams, id)
  {
    if e.TickStart? || e.TickEnd? || e.TickFail? {
      LoopKeepsLook(cfg, s, e);
      LoopSendsToOpen(cfg, s, e, id);
    } else {
      ClientsSendNothing(cfg, s, e, id);
    }
  }

  lemma ClientsSendNothing(cfg: Config, s: State, e: Event, id: RequestId)
    requires Enabled(cfg, s, e) && (e.Arrive? || e.Cancel? || e.Consume? || e.Disconnect?)
    requires id in s.accepted && id !in s.streams.open
    ensures StillClosed(s.streams, Apply(cfg, s, e).streams, id)
  {
    match e {
      case Arrive(r) => ClosedForOthers(s.streams, r.id, id);
      case Cancel(x) => ClosedForConsumers(s.streams, x, id);
      case Consume(x) => ClosedForConsumers(s.streams, x, id);
      case Disconnect(x) => ClosedForConsumers(s.streams, x, id);
    }
  }

  ghost predicate StillClosed(st: Streams, st': Streams, id: RequestId)
  {
    id !in st'.open && SentTo(st', id) == SentTo(st, id) && TakenBy(st', id) == TakenBy(st, id)
  }

  lemma ClosedForOthers(st: Streams, x: RequestId, id: RequestId)
    requires id !in st.open && x != id
    ensures StillClosed(st, AfterCreate(st, x), id)
  {
  }

  lemma ClosedForConsumers(st: Streams, x: RequestId, id: RequestId)
    requires id !in st.open
    ensures StillClosed(st, AfterCancel(st, x), id) && StillClosed(st, AfterTake(st, x), id)
            && StillClosed(st, AfterDrop(st, x), id)
  {
  }

  lemma {:induction false} ExpireSends(s: State, pool: seq<Request>, expired: set<RequestId>, id: RequestId)
    requires id !in s.streams.open
    ensures var t := ExpireAll(s, pool, expired);
            id !in t.streams.open && SentTo(t.streams, id) == SentTo(s.streams, id)
  {
    if pool != [] { ExpireSends(s, pool[..|pool| - 1], expired, id); }
  }

  lemma {:induction false} SamplesSend(cfg: Config, s: State, order: seq<RequestId>, sampled: map<nat, Token>,
                                       timedOut: set<RequestId>, id: RequestId)
    requires id !in s.streams.open
    ensures var t := SampleAll(cfg, s, order, sampled, timedOut);
            id !in t.streams.open && SentTo(t.streams, id) == SentTo(s.streams, id)
  {
    if order != [] {
      var n := |order| - 1;
      SamplesSend(cfg, s, order[..n], sampled, timedOut, id);
      var t, x := SampleAll(cfg, s, order[..n], sampled, timedOut), order[n];
      if x in t.requests && x in t.active && t.requests[x].seqId in sampled {
        OneSends(cfg, t, x, sampled[t.requests[x].seqId], timedOut, id);
      }
    }
  }

  lemma OneSends(cfg: Config, t: State, x: RequestId, token: Token, timedOut: set<RequestId>, id: RequestId)
    requires x in t.requests && x in t.active && id !in t.streams.open
    ensures var u := SampleOne(cfg, t, x, token, timedOut);
            id !in u.streams.open && SentTo(u.streams, id) == SentTo(t.streams, id)
  {
  }

  lemma {:induction false} FinishesSend(cfg: Config, s: State, ids: seq<RequestId>, id: RequestId)
    requires id !in s.streams.open
    ensures var t := FinishAll(cfg, s, ids); id !in t.streams.open && SentTo(t.streams, id) == SentTo(s.streams, id)
  {
    if ids != [] { FinishesSend(cfg, s, ids[..|ids| - 1], id); }
  }

  lemma LoopSendsToOpen(cfg: Config, s: State, e: Event, id: RequestId)
    requires Good(cfg, s) && Enabled(cfg, s, e) && (e.TickStart? || e.TickEnd? || e.TickFail?) && id !in s.streams.open
    ensures SentTo(Apply(cfg, s, e).streams, id) == SentTo(s.streams, id)
  {
    match e {
      case TickStart(expired, chosen, order) =>
        ExpireSends(s, s.waiting, expired, id);
        var t := ExpireAll(s, s.waiting, expired);
        if !Idle(t) { ServingAdmit.AdmitAllQuiet(cfg, t, chosen); }
      case TickEnd(timedOut, order) =>
        var t := AdvanceAll(s, s.phase.rows);
        SamplesSend(cfg, t, order, Runtime.Sampled(cfg.next, t.store, s.phase.rows), timedOut, id);
      case TickFail(garbage, ids) =>
        FinishesSend(cfg, s.(store := Runtime.Scrambled(s.store, s.phase.rows, garbage)), ids, id);
    }
  }

  /** A client that never hangs up and whose stream is no longer registered has taken everything that
      was ever sent to it, up to and including the end marker. */
  lemma {:induction false} WhoStaysGetsAll(cfg: Config, states: seq<State>, events: seq<Event>, i: nat, id: RequestId)
    requires IsRun(cfg, states, events) && i < |states| && id in states[i].accepted
    requires id !in states[i].streams.open && !HungUp(events, i, id)
    ensures GotAll(states[i].streams, id)
  {
    if i > 0 {
      var k := i - 1;
      var s, e := states[k], events[k];
      StepInRun(cfg, states, events, k);
      if id !in s.accepted {
        NewlyAccepted(cfg, s, e, id);
      } else {
        DeliveredInRun(cfg, states, events, i, id);
        DeliveredInRun(cfg, states, events, k, id);
        if id in s.streams.open {
          UnregisteredOnlyBy(cfg, states, events, k, id);
          StillThere(events, k, i, id);
          LastTaken(cfg, states, events, k, id);
        } else {
          StillThere(events, k, i, id);
          WhoStaysGetsAll(cfg, states, events, k, id);
          UnregisteredStays(cfg, s, e, id);
        }
      }
    }
  }

  lemma StillThere(events: seq<Event>, k: nat, i: nat, id: RequestId)
    requires k < i <= |events| && !HungUp(events, i, id)
    ensures !HungUp(events, k, id) && events[k] != Disconnect(id)
  {
  }

  /** The result at the client's end: who never hangs up and has taken until its stream ended, of a
      request that completed, has received exactly what the one-request decoder sends. */
  lemma ClientReceivesReference(cfg: Config, states: seq<State>, events: seq<Event>, i: nat, id: RequestId)
    requires IsRun(cfg, states, events) && i < |states| && id in states[i].accepted
    requires id !in states[i].streams.open && !HungUp(events, i, id)
    requires id in states[i].outcome && states[i].outcome[id] == Completed
    ensures var r := states[i].accepted[id];
            Tokens(TakenBy(states[i].streams, id)) == Reference(cfg, r.prompt, r.maxTokens)
  {
    WhoStaysGetsAll(cfg, states, events, i, id);
    OutputRefinesReference(cfg, states, events, i, id);
  }

  /** A stream ends no sooner than its request. */
  lemma EndedStreamHasOutcome(cfg: Config, states: seq<State>, events: seq<Event>, i: nat, id: RequestId)
    requires IsRun(cfg, states, events) && i < |states| && id in states[i].accepted
    requires id !in states[i].streams.open && !HungUp(events, i, id)
    ensures id in states[i].outcome
  {
    WhoStaysGetsAll(cfg, states, events, i, id);
    StreamsEndOnce(cfg, states, events, i, id);
    if id !in states[i].outcome {
      LastIsEnd(SentTo(states[i].streams, id));
    }
  }

  lemma LastIsEnd(items: seq<Item>)
    ensures items != [] && items[|items| - 1] == End ==> EndMarkers(items) > 0
  {
  }
}
