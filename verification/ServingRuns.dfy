/** Whole runs of the server: what holds in every reachable state, for every interleaving of
    requests, consumers, timeouts and failures. */
module ServingRuns {
  import opened Requests
  import opened Streaming
  import opened Runtime
  import opened Serving
  import opened ServingInvariant
  import opened ServingQueue
  import opened ServingAdmit
  import opened ServingTick
  import opened ServingSample

  /** A run: states linked by enabled events, from the initial state. */
  ghost predicate IsRun(cfg: Config, states: seq<State>, events: seq<Event>)
  {
    && Sane(cfg)
    && |states| == |events| + 1 && states[0] == Init(cfg)
    && forall i {:trigger StepAt(cfg, states, events, i)} :: 0 <= i < |events| ==> StepAt(cfg, states, events, i)
  }

  ghost predicate StepAt(cfg: Config, states: seq<State>, events: seq<Event>, i: int)
    requires 0 <= i < |events| == |states| - 1
  {
    Step(cfg, states[i], events[i], states[i + 1])
  }

  ghost predicate Step(cfg: Config, s: State, e: Event, s': State)
  {
    Enabled(cfg, s, e) && s' == Apply(cfg, s, e)
  }

  // ---------------------------------------------------------------- every step keeps it

  lemma InitIsGood(cfg: Config)
    requires Sane(cfg)
    ensures Good(cfg, Init(cfg))
  {
    var s := Init(cfg);
    var seats := SeatsOf(s.active);
    assert seats == map[];
    forall slot: nat | slot < cfg.nSeqMax ensures slot in s.freeSlots {
      assert s.freeSlots[slot] == slot;
    }
    forall id ensures PlacedAt(s.waiting, seats, s.accepted, s.outcome, id) {}
    forall id ensures StreamedAt(cfg, s.streams, s.waiting, s.accepted, s.outcome, id) {}
    forall id ensures SeqAt(cfg, s, {}, false, id) {}
    if cfg.prefixEnabled {
      forall id ensures HasClaim(cfg, s.claims, seats, s.accepted, id) {}
    }
  }

  lemma PhaseIrrelevant(cfg: Config, s: State, owed: set<RequestId>, dirty: bool, p: Phase)
    requires Inv(cfg, s, owed, dirty)
    ensures Inv(cfg, s.(phase := p), owed, dirty)
  {
    var s' := s.(phase := p);
    forall x ensures SeqAt(cfg, s', owed, dirty, x) {
      assert SeqAt(cfg, s, owed, dirty, x);
    }
  }

  lemma TickStartKeeps(cfg: Config, s: State, e: Event)
    requires Good(cfg, s) && e.TickStart? && Enabled(cfg, s, e)
    ensures Good(cfg, Apply(cfg, s, e))
  {
    var t := ExpireAll(s, s.waiting, e.expired);
    ExpireAllKeeps(cfg, s, s.waiting, e.expired, {}, false);
    if Idle(t) {
      PhaseIrrelevant(cfg, t, {}, false, Parked);
    } else {
      AdmitAllKeeps(cfg, t, e.chosen);
      var u := AdmitAll(cfg, t, e.chosen);
      BuildIsBatched(cfg, u, e.order);
      EmptyBatchMeansIdle(cfg, u, e.order);
      PhaseIrrelevant(cfg, u, {}, false, AfterSchedule(cfg, t, e.chosen, e.order).phase);
    }
  }

  /** Every sequence that is owed a sample gets it in the same tick. */
  lemma NobodyIsLeftOwed(cfg: Config, s: State, order: seq<RequestId>)
    requires Inv(cfg, s, {}, false) && s.phase.Decoding? && Batched(cfg, s, s.phase.rows)
    requires ListsSampled(order, s, Sampled(cfg.next, Written(s.store, s.phase.rows), s.phase.rows))
    ensures forall id :: id in order ==> id in Owed(cfg, s)
    ensures Minus(Owed(cfg, s), order) == {}
  {
    forall id ensures id in order <==> id in Owed(cfg, s) {
      if id in s.active {
        SampledTells(cfg, s, s.phase.rows, id);
      }
    }
  }

  lemma TickEndKeeps(cfg: Config, s: State, e: Event)
    requires Good(cfg, s) && e.TickEnd? && Enabled(cfg, s, e)
    ensures Good(cfg, Apply(cfg, s, e))
  {
    var rows := s.phase.rows;
    var t := AdvanceAll(s, rows);
    var sampled := Sampled(cfg.next, t.store, rows);
    AdvanceKeeps(cfg, s, rows);
    NobodyIsLeftOwed(cfg, s, e.order);
    forall id | id in e.order ensures id in Owed(cfg, s) && Tells(cfg, t, sampled, id) {
      SampledTells(cfg, s, rows, id);
    }
    SampleAllKeeps(cfg, t, Owed(cfg, s), e.order, sampled, e.timedOut);
    PhaseIrrelevant(cfg, SampleAll(cfg, t, e.order, sampled, e.timedOut), {}, false, Ready);
  }

  lemma TickFailKeeps(cfg: Config, s: State, e: Event)
    requires Good(cfg, s) && e.TickFail? && Enabled(cfg, s, e)
    ensures Good(cfg, Apply(cfg, s, e)) && Apply(cfg, s, e).active == map[]
  {
    var t := s.(store := Scrambled(s.store, s.phase.rows, e.garbage));
    ScrambleKeeps(cfg, s, s.phase.rows, e.garbage);
    FinishAllKeeps(cfg, t, e.ids);
    FinishAllKeys(cfg, t, e.ids);
    var u := FinishAll(cfg, t, e.ids);
    NoneLeft(u, s.requests.Keys, e.ids);
    CleanWhenEmpty(cfg, u);
    PhaseIrrelevant(cfg, u, {}, false, Ready);
  }

  lemma NoneLeft(u: State, keys: set<RequestId>, ids: seq<RequestId>)
    requires u.active.Keys == Minus(keys, ids) && forall id :: id in keys ==> id in ids
    ensures u.active == map[]
  {
    forall x ensures x !in u.active {
      assert x in u.active.Keys ==> x in Minus(keys, ids);
    }
  }

  lemma EnvironmentKeeps(cfg: Config, s: State, e: Event)
    requires Good(cfg, s) && Enabled(cfg, s, e) && (e.Arrive? || e.Cancel? || e.Consume? || e.Disconnect?)
    ensures Good(cfg, Apply(cfg, s, e))
  {
    match e {
      case Arrive(r) => ArriveKeeps(cfg, s, {}, false, r);
      case Cancel(id) =>
        ConsumerSteps(s.streams, id);
        ConsumeKeeps(cfg, s, {}, false, AfterCancel(s.streams, id));
      case Consume(id) =>
        ConsumerSteps(s.streams, id);
        ConsumeKeeps(cfg, s, {}, false, AfterTake(s.streams, id));
      case Disconnect(id) =>
        ConsumerSteps(s.streams, id);
        ConsumeKeeps(cfg, s, {}, false, AfterDrop(s.streams, id));
    }
  }

  lemma StepKeeps(cfg: Config, s: State, e: Event)
    requires Good(cfg, s) && Enabled(cfg, s, e)
    ensures Good(cfg, Apply(cfg, s, e))
  {
    match e {
      case TickStart(_, _, _) => TickStartKeeps(cfg, s, e);
      case TickEnd(_, _) => TickEndKeeps(cfg, s, e);
      case TickFail(_, _) => TickFailKeeps(cfg, s, e);
      case _ => EnvironmentKeeps(cfg, s, e);
    }
  }

  /** The invariant holds throughout every run. */
  lemma {:induction false} RunIsGood(cfg: Config, states: seq<State>, events: seq<Event>, i: nat)
    requires IsRun(cfg, states, events) && i < |states|
    ensures Good(cfg, states[i])
  {
    if i == 0 {
      InitIsGood(cfg);
    } else {
      RunIsGood(cfg, states, events, i - 1);
      assert StepAt(cfg, states, events, i - 1);
      StepKeeps(cfg, states[i - 1], events[i - 1]);
    }
  }
}
