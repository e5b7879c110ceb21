/** Why requests end, over whole runs: each ending has its cause, a request without one of the
    other causes completes, and a client that leaves is noticed at the next sample. */
module ServingEndings {
  import opened Requests
  import opened KvCache
  import opened Waiting
  import opened Streaming
  import opened Runtime
  import opened Serving
  import opened Greedy
  import opened ServingInvariant
  import opened ServingQueue
  import opened ServingAdmit
  import opened ServingRuns
  import opened ServingTheorems
  import opened ServingEffects

  // ---------------------------------------------------------------- one step

  lemma StepInRun(cfg: Config, states: seq<State>, events: seq<Event>, n: nat)
    requires IsRun(cfg, states, events) && n < |events|
    ensures Good(cfg, states[n]) && Enabled(cfg, states[n], events[n])
            && states[n + 1] == Apply(cfg, states[n], events[n])
    ensures Good(cfg, states[n + 1])
  {
    RunIsGood(cfg, states, events, n);
    RunIsGood(cfg, states, events, n + 1);
    assert StepAt(cfg, states, events, n);
  }

  /** What makes a request end in this step, for each way to end. */
  ghost predicate Cause(cfg: Config, s: State, e: Event, id: RequestId, how: Outcome)
  {
    match how
    case QueueTimeout => e.TickStart? && id in e.expired && Waits(s.waiting, id)
    case DecodeError => e.TickFail? && id in s.active
    case GenerationTimeout => e.TickEnd? && id in s.active && id in e.timedOut
    case Disconnected => e.TickEnd? && id in s.active && Left(s.streams, id)
    case Completed =>
      && e.TickEnd? && id in s.active && id in s.accepted
      && (cfg.next(ContextOf(s.accepted[id].prompt + Output(s, id))) == cfg.eos
          || |Output(s, id)| + 1 >= s.accepted[id].maxTokens)
  }

  lemma EndsForACause(cfg: Config, s: State, e: Event, id: RequestId)
    requires Good(cfg, s) && Enabled(cfg, s, e)
    ensures var s' := Apply(cfg, s, e);
            if id in s.outcome then id in s'.outcome && s'.outcome[id] == s.outcome[id]
            else id in s'.outcome ==> Cause(cfg, s, e, id, s'.outcome[id])
  {
    WhereItIs(cfg, s, id);
    match e {
      case TickStart(_, _, _) => TickStartEffect(cfg, s, e, id);
      case TickFail(_, _) => TickFailEffect(cfg, s, e, id);
      case TickEnd(_, _) =>
        if id in s.active { TickEndEffect(cfg, s, e, id); } else { TickEndElsewhere(cfg, s, e, id); }
      case _ =>
    }
  }

  // ---------------------------------------------------------------- clients that leave

  /** The client hangs up or cancels. */
  ghost predicate Leaves(e: Event, id: RequestId)
  {
    e == Cancel(id) || e == Disconnect(id)
  }

  ghost predicate LeftBefore(events: seq<Event>, i: nat, id: RequestId)
    requires i <= |events|
  {
    exists n :: 0 <= n < i && Leaves(events[n], id)
  }

  /** A stream is unregistered only by its client going away or taking the end marker, and
      cancelled only by its client. */
  lemma LeavesByItself(cfg: Config, s: State, e: Event, id: RequestId)
    requires Good(cfg, s) && Enabled(cfg, s, e) && id in s.accepted && !Left(s.streams, id)
    ensures Left(Apply(cfg, s, e).streams, id) ==>
              Leaves(e, id) || (e == Consume(id) && s.streams.open[id].queue != []
                                && s.streams.open[id].queue[0] == End)
  {
    if e.TickStart? || e.TickEnd? || e.TickFail? { LoopKeepsLook(cfg, s, e); }
  }

  lemma NoEndYet(cfg: Config, s: State, id: RequestId)
    requires Good(cfg, s) && id in s.accepted && id !in s.outcome && id in s.streams.open
    ensures OnlyChunks(s.streams.open[id].queue)
  {
    assert StreamedAt(cfg, s.streams, s.waiting, s.accepted, s.outcome, id);
    WhereItIs(cfg, s, id);
    assert SeqAt(cfg, s, {}, false, id);
    assert s.streams.taken[id] + s.streams.open[id].queue == s.streams.sent[id];
    var taken, queue, sent := s.streams.taken[id], s.streams.open[id].queue, s.streams.sent[id];
    assert OnlyChunks(sent);
    forall k | 0 <= k < |queue| ensures queue[k].Chunk? {
      assert sent[|taken| + k] == queue[k];
    }
  }

  /** A request that has not ended and whose client has left: it did so itself. */
  lemma {:induction false} LeftForACause(cfg: Config, states: seq<State>, events: seq<Event>, i: nat, id: RequestId)
    requires IsRun(cfg, states, events) && i < |states|
    requires id in states[i].accepted && id !in states[i].outcome && Left(states[i].streams, id)
    ensures LeftBefore(events, i, id)
  {
    if i > 0 {
      var k := i - 1;
      var s, e := states[k], events[k];
      StepInRun(cfg, states, events, k);
      if id !in s.accepted {
        NewlyAccepted(cfg, s, e, id);
      } else {
        EndsForACause(cfg, s, e, id);
        if Left(s.streams, id) {
          LeftForACause(cfg, states, events, k, id);
        } else {
          LeavesByItself(cfg, s, e, id);
          NoEndYet(cfg, s, id);
          assert Leaves(events[k], id);
        }
      }
    }
  }

  lemma NewlyAccepted(cfg: Config, s: State, e: Event, id: RequestId)
    requires Good(cfg, s) && Enabled(cfg, s, e) && id !in s.accepted && id in Apply(cfg, s, e).accepted
    ensures e.Arrive? && !Left(Apply(cfg, s, e).streams, id)
  {
    AcceptedStays(cfg, s, e);
  }

  lemma AcceptedStays(cfg: Config, s: State, e: Event)
    requires Good(cfg, s) && Enabled(cfg, s, e)
    ensures e.Arrive? || Apply(cfg, s, e).accepted == s.accepted
    ensures forall id :: id in s.accepted ==>
              id in Apply(cfg, s, e).accepted && Apply(cfg, s, e).accepted[id] == s.accepted[id]
  {
    match e {
      case TickStart(_, _, _) => StartOutcome(cfg, s, e, 0);
      case TickEnd(timedOut, order) =>
        var t := AdvanceAll(s, s.phase.rows);
        SampleAllPool(cfg, t, order, Sampled(cfg.next, t.store, s.phase.rows), timedOut);
      case TickFail(garbage, ids) =>
        FinishAllPool(cfg, s.(store := Scrambled(s.store, s.phase.rows, garbage)), ids);
      case _ =>
    }
  }

  // ---------------------------------------------------------------- every ending has its cause

  ghost predicate EndsAt(cfg: Config, states: seq<State>, events: seq<Event>, n: nat, id: RequestId, how: Outcome)
    requires n < |events| < |states|
  {
    && id !in states[n].outcome && id in states[n + 1].outcome && states[n + 1].outcome[id] == how
    && Cause(cfg, states[n], events[n], id, how)
    && (how == Disconnected ==> LeftBefore(events, n, id))
  }

  /** A request timed out in the queue only if a tick named it while it waited; failed only at a
      failed decode call while it was active; timed out in generation only if a tick named it
      while it was active; was disconnected only if its client had cancelled or gone away; and
      completed only at the model's end token or the end of its budget. */
  lemma {:induction false} EveryEndingHasItsCause(cfg: Config, states: seq<State>, events: seq<Event>, i: nat,
                                                  id: RequestId)
    returns (n: nat)
    requires IsRun(cfg, states, events) && i < |states| && id in states[i].outcome
    ensures n < i && EndsAt(cfg, states, events, n, id, states[i].outcome[id])
  {
    n := 0;
    if i > 0 {
      var k := i - 1;
      StepInRun(cfg, states, events, k);
      EndsForACause(cfg, states[k], events[k], id);
      if id in states[k].outcome {
        n := EveryEndingHasItsCause(cfg, states, events, k, id);
      } else {
        n := k;
        if states[i].outcome[id] == Disconnected {
          WhereItIs(cfg, states[k], id);
          LeftForACause(cfg, states, events, k, id);
        }
      }
    }
  }

  lemma {:induction false} NotEndedBefore(cfg: Config, states: seq<State>, events: seq<Event>, i: nat, j: nat,
                                          id: RequestId)
    requires IsRun(cfg, states, events) && i <= j < |states| && id !in states[j].outcome
    ensures id !in states[i].outcome
    decreases j
  {
    if i < j {
      StepInRun(cfg, states, events, j - 1);
      EndsForACause(cfg, states[j - 1], events[j - 1], id);
      NotEndedBefore(cfg, states, events, i, j - 1, id);
    }
  }

  lemma {:induction false} NeverWaitsAgain(cfg: Config, states: seq<State>, events: seq<Event>, i: nat, j: nat,
                                           id: RequestId)
    requires IsRun(cfg, states, events) && i <= j < |states| && id in states[i].accepted
             && !Waits(states[i].waiting, id)
    ensures id in states[j].accepted && states[j].accepted[id] == states[i].accepted[id]
            && !Waits(states[j].waiting, id)
    decreases j
  {
    if i < j {
      NeverWaitsAgain(cfg, states, events, i, j - 1, id);
      StepInRun(cfg, states, events, j - 1);
      AcceptedStays(cfg, states[j - 1], events[j - 1]);
      PoolOnlyGrowsByArrival(cfg, states[j - 1], events[j - 1], id);
    }
  }

  // ---------------------------------------------------------------- undisturbed requests complete

  /** Nothing but the model's answer ends this request between its admission in step i and state j:
      its client has not left, no decode call fails and no tick times it out. */
  ghost predicate Undisturbed(events: seq<Event>, i: nat, j: nat, id: RequestId)
    requires i < j <= |events|
  {
    && !LeftBefore(events, j, id)
    && forall n :: i < n < j ==> !events[n].TickFail? && (events[n].TickEnd? ==> id !in events[n].timedOut)
  }

  /** An admitted request that nobody disturbs completes: after at most ceil((prompt - reused) /
      chunk) + max_tokens - 1 successful ticks it is done and has been sent the whole reference. */
  lemma UndisturbedCompletes(cfg: Config, states: seq<State>, events: seq<Event>, i: nat, j: nat, r: Request)
    requires IsRun(cfg, states, events) && i < j < |states| && events[i].TickStart? && states[i + 1].phase != Parked
    requires r in events[i].chosen && Undisturbed(events, i, j, r.id)
    ensures var s := states[i + 1];
            && r.id in s.active && s.active[r.id].nPast < |r.prompt|
            && (Ticks(events[i + 1..j]) >=
                  BlocksNeeded(|r.prompt| - s.active[r.id].nPast, cfg.chunkSize) + r.maxTokens - 1 ==>
                  && EndedAs(states[j], r.id, Completed)
                  && Output(states[j], r.id) == Reference(cfg, r.prompt, r.maxTokens))
  {
    var s, id := states[i + 1], r.id;
    AdmittedFinishesInTime(cfg, states, events, i, j, r);
    if Ticks(events[i + 1..j]) >= BlocksNeeded(|r.prompt| - s.active[id].nPast, cfg.chunkSize) + r.maxTokens - 1 {
      StepInRun(cfg, states, events, i);
      ChosenAreAdmitted(cfg, states[i], events[i], r);
      WhereItIs(cfg, s, id);
      NeverWaitsAgain(cfg, states, events, i + 1, j, id);
      RunIsGood(cfg, states, events, j);
      WhereItIs(cfg, states[j], id);
      OnlyCompleted(cfg, states, events, i, j, id);
      OutputRefinesReference(cfg, states, events, j, id);
    }
  }

  lemma OnlyCompleted(cfg: Config, states: seq<State>, events: seq<Event>, i: nat, j: nat, id: RequestId)
    requires IsRun(cfg, states, events) && i < j < |states| && Undisturbed(events, i, j, id)
    requires id in states[i + 1].active && id in states[j].outcome
    ensures states[j].outcome[id] == Completed
  {
    RunIsGood(cfg, states, events, i + 1);
    WhereItIs(cfg, states[i + 1], id);
    var n := EveryEndingHasItsCause(cfg, states, events, j, id);
    if n <= i {
      NotEndedBefore(cfg, states, events, n + 1, i + 1, id);
    } else {
      NeverWaitsAgain(cfg, states, events, i + 1, n, id);
      LeftEarlier(events, n, j, id);
    }
  }

  lemma LeftEarlier(events: seq<Event>, n: nat, j: nat, id: RequestId)
    requires n <= j <= |events|
    ensures LeftBefore(events, n, id) ==> LeftBefore(events, j, id)
  {
  }

  // ---------------------------------------------------------------- leaving is noticed

  lemma LeftStaysLeft(cfg: Config, s: State, e: Event, id: RequestId)
    requires Good(cfg, s) && Enabled(cfg, s, e) && id in s.accepted && Left(s.streams, id)
    ensures Left(Apply(cfg, s, e).streams, id)
  {
    if e.TickStart? || e.TickEnd? || e.TickFail? { LoopKeepsLook(cfg, s, e); }
  }

  lemma {:induction false} LeftForGood(cfg: Config, states: seq<State>, events: seq<Event>, n: nat, m: nat,
                                       id: RequestId)
    requires IsRun(cfg, states, events) && n < m < |states| && id in states[n].accepted && Leaves(events[n], id)
    ensures id in states[m].accepted && Left(states[m].streams, id)
    decreases m
  {
    var k := m - 1;
    StepInRun(cfg, states, events, k);
    AcceptedStays(cfg, states[k], events[k]);
    if n < k {
      LeftForGood(cfg, states, events, n, k, id);
      LeftStaysLeft(cfg, states[k], events[k], id);
    }
  }

  /** A client that cancels or hangs up, before or while its request runs, is noticed at the
      request's next sample: it does not get past that tick. Nor does one the tick times out. */
  lemma LeavingIsNoticed(cfg: Config, states: seq<State>, events: seq<Event>, m: nat, id: RequestId)
    requires IsRun(cfg, states, events) && m < |events| && events[m].TickEnd? && id in states[m].active
    requires |states[m].active[id].pending| <= cfg.chunkSize
    requires id in events[m].timedOut || exists n :: 0 <= n < m && id in states[n].accepted && Leaves(events[n], id)
    ensures id !in states[m + 1].active && id in states[m + 1].outcome
    ensures states[m + 1].outcome[id] in {Completed, Disconnected, GenerationTimeout}
    ensures id !in events[m].timedOut ==> states[m + 1].outcome[id] != GenerationTimeout
  {
    StepInRun(cfg, states, events, m);
    if n :| 0 <= n < m && id in states[n].accepted && Leaves(events[n], id) {
      LeftForGood(cfg, states, events, n, m, id);
    }
    TickEndEffect(cfg, states[m], events[m], id);
  }

  /** The whole effect of a tick, in every run. */
  lemma EveryTickHasItsEffect(cfg: Config, states: seq<State>, events: seq<Event>, n: nat, id: RequestId)
    requires IsRun(cfg, states, events) && n < |events| && events[n].TickEnd? && id in states[n].active
    ensures id in states[n].accepted && TickEffect(cfg, states[n], states[n + 1], events[n].timedOut, id)
  {
    StepInRun(cfg, states, events, n);
    TickEndEffect(cfg, states[n], events[n], id);
  }

  /** The loop goes to sleep only when nothing is active and nothing waits. */
  lemma ParksOnlyWhenIdle(cfg: Config, states: seq<State>, events: seq<Event>, n: nat)
    requires IsRun(cfg, states, events) && n < |events| && events[n].TickStart?
    ensures states[n + 1].phase == Parked ==> states[n + 1].active == map[] && states[n + 1].waiting == []
    ensures states[n + 1].freeSlots == [] || states[n + 1].waiting == []
    ensures states[n + 1].phase.Decoding? <==> states[n + 1].active != map[]
  {
    StepInRun(cfg, states, events, n);
    var s, e := states[n], events[n];
    if Idle(ExpireAll(s, s.waiting, e.expired)) {
    } else {
      NotParked(cfg, s, e);
      SchedulingUsesEverySlot(cfg, states, events, n);
    }
  }

  lemma NotParked(cfg: Config, s: State, e: Event)
    requires e.TickStart? && Enabled(cfg, s, e) && !Idle(ExpireAll(s, s.waiting, e.expired))
    ensures Apply(cfg, s, e).phase != Parked
  {
  }

  /** The effect of a scheduling tick on who waits and who is active, in every run: the expired
      leave, the chosen sit, the others wait on, and who was active stays. */
  lemma EveryStartHasItsEffect(cfg: Config, states: seq<State>, events: seq<Event>, n: nat, id: RequestId)
    requires IsRun(cfg, states, events) && n < |events| && events[n].TickStart?
    ensures var s, s', e := states[n], states[n + 1], events[n];
            && StartEffect(s, s', e.expired, id)
            && (id in s.active ==> id in s'.active && s'.active[id] == s.active[id])
            && (s'.phase != Parked ==> (id in s'.active <==> id in s.active || Waits(e.chosen, id)))
  {
    StepInRun(cfg, states, events, n);
    var s, e := states[n], events[n];
    TickStartEffect(cfg, s, e, id);
    StartTable(cfg, s, e, id);
  }

  lemma StartTable(cfg: Config, s: State, e: Event, id: RequestId)
    requires Good(cfg, s) && e.TickStart? && Enabled(cfg, s, e)
    ensures var s' := Apply(cfg, s, e);
            && (id in s.active ==> id in s'.active && s'.active[id] == s.active[id])
            && (s'.phase != Parked ==> (id in s'.active <==> id in s.active || Waits(e.chosen, id)))
  {
    var t := ExpireAll(s, s.waiting, e.expired);
    ExpireAllKeeps(cfg, s, s.waiting, e.expired, {}, false);
    if !Idle(t) {
      AdmitAllFrame(cfg, t, e.chosen);
      ChosenWait(cfg, t, e.chosen, id);
    }
  }

  lemma ChosenWait(cfg: Config, t: State, chosen: seq<Request>, id: RequestId)
    requires Inv(cfg, t, {}, false) && forall r :: r in chosen ==> r in t.waiting
    ensures Waits(chosen, id) ==> id !in t.active
  {
    if Waits(chosen, id) {
      var i :| 0 <= i < |chosen| && chosen[i].id == id;
      assert chosen[i] in t.waiting;
      assert Waits(t.waiting, id);
      assert PlacedAt(t.waiting, SeatsOf(t.active), t.accepted, t.outcome, id);
      assert id in t.active <==> id in SeatsOf(t.active);
    }
  }

  /** A failed decode call ends every active request, and no other. */
  lemma EveryFailureHasItsEffect(cfg: Config, states: seq<State>, events: seq<Event>, n: nat, id: RequestId)
    requires IsRun(cfg, states, events) && n < |events| && events[n].TickFail?
    ensures if id in states[n].active then EndedAs(states[n + 1], id, DecodeError)
            else SameOutcome(states[n], states[n + 1], id)
    ensures states[n + 1].waiting == states[n].waiting && states[n + 1].active == map[]
  {
    StepInRun(cfg, states, events, n);
    var s, e := states[n], events[n];
    TickFailEffect(cfg, s, e, id);
    TickFailKeeps(cfg, s, e);
    FinishAllPool(cfg, s.(store := Scrambled(s.store, s.phase.rows, e.garbage)), e.ids);
  }
}
