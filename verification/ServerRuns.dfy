/** The running server against the theorems: what it does on a script of stimuli is a run of the
    state machine with one event per stimulus, so what it sends is what the one-request decoder
    would send. */
module ServerRuns {
  import opened Requests
  import opened KvCache
  import opened Streaming
  import opened Runtime
  import opened WfqPolicy
  import opened Policies
  import opened Serving
  import opened Greedy
  import opened ServingInvariant
  import opened ServingQueue
  import opened ServingAdmit
  import opened ServingRuns
  import opened ServingTheorems
  import opened BatchLoop

  /** What happens to a server: a handler runs, or the loop does the next part of its turn. */
  datatype Stimulus =
    | Submit(r: Request)
    | CancelIt(id: RequestId)
    | TakeOne(id: RequestId)
    | HangUp(id: RequestId)
    | SwitchPolicy(name: string)
    | GoOn(expired: set<RequestId>, fails: bool, garbage: Store, timedOut: set<RequestId>)

  ghost predicate Acceptable(x: Stimulus, accepted: map<RequestId, Request>)
  {
    x.Submit? ==> x.r.id !in accepted && Worthy(x.r)
  }

  /** Which event a stimulus is. Only a policy switch, and the loop while it is parked on an
      empty queue, are none. */
  ghost predicate Means(x: Stimulus, s: State, events: seq<Event>)
  {
    match x
    case Submit(r) => events == [Arrive(r)]
    case CancelIt(id) => events == [Cancel(id)]
    case TakeOne(id) => events == [Event.Consume(id)]
    case HangUp(id) => events == [Disconnect(id)]
    case SwitchPolicy(_) => events == []
    case GoOn(expired, fails, garbage, timedOut) =>
      if s.phase.Decoding? then
        |events| == 1 && if fails then events[0].TickFail? && events[0].garbage == garbage
                         else events[0].TickEnd? && events[0].timedOut == timedOut
      else if s.phase == Ready || s.waiting != [] then
        |events| == 1 && events[0].TickStart? && events[0].expired == expired
      else events == []
  }

  /** The state makes exactly the steps of the events. */
  ghost predicate Makes(cfg: Config, s: State, events: seq<Event>, s': State)
  {
    if events == [] then s' == s else |events| == 1 && Step(cfg, s, events[0], s')
  }

  ghost predicate Reacts(cfg: Config, x: Stimulus, s: State, events: seq<Event>, s': State)
  {
    Means(x, s, events) && Makes(cfg, s, events, s')
  }

  /** The requests a stimulus gives slots to. */
  function ChosenIn(events: seq<Event>): (chosen: seq<Request>)
  {
    if events != [] && events[0].TickStart? then events[0].chosen else []
  }

  /** The pool a stimulus chooses from, and the slots it has for it. */
  ghost function PoolIn(s: State, events: seq<Event>): (t: State)
  {
    if events != [] && events[0].TickStart? then ExpireAll(s, s.waiting, events[0].expired) else s
  }

  /** What a stimulus means for the policy: a switch replaces it, and a scheduling tick gives the
      slots to whom the policy in force chooses. */
  ghost predicate Schedules(p: Policy, x: Stimulus, s: State, events: seq<Event>, grants: seq<Grant>, p': Policy)
  {
    if x.SwitchPolicy? then grants == [] && p' == Switched(p, x.name)
    else if events != [] && events[0].TickStart? then
      Chose(p, PoolIn(s, events).waiting, |PoolIn(s, events).freeSlots|, events[0].chosen, grants, p')
    else grants == [] && p' == p
  }

  lemma HandlersStep(cfg: Config, s: State, x: Stimulus)
    requires Sane(cfg) && Acceptable(x, s.accepted)
    ensures x.Submit? ==> Step(cfg, s, Arrive(x.r), AfterArrive(cfg, s, x.r))
    ensures x.CancelIt? ==> Step(cfg, s, Cancel(x.id), s.(streams := AfterCancel(s.streams, x.id)))
    ensures x.TakeOne? ==> Step(cfg, s, Event.Consume(x.id), s.(streams := AfterTake(s.streams, x.id)))
    ensures x.HangUp? ==> Step(cfg, s, Disconnect(x.id), s.(streams := AfterDrop(s.streams, x.id)))
  {
  }

  /** The handlers. */
  method Handle(server: Server, x: Stimulus) returns (ghost events: seq<Event>)
    requires server.Valid() && Acceptable(x, server.accepted) && !x.GoOn?
    modifies server`accepted, server.queue, server.kvCache, server.streams, server.policy
    ensures server.Valid() && server.CacheNodes() == old(server.CacheNodes())
    ensures Reacts(server.cfg, x, old(server.View()), events, server.View())
    ensures Schedules(old(server.policy.View()), x, old(server.View()), events, [], server.policy.View())
    ensures server.policy.wfq.fairness == old(server.policy.wfq.fairness) || fresh(server.policy.wfq.fairness)
  {
    HandlersStep(server.cfg, server.View(), x);
    events := [];
    match x {
      case Submit(r) =>
        var verdict := server.Generate(r);
        events := [Arrive(r)];
      case CancelIt(id) =>
        server.CancelStream(id);
        events := [Cancel(id)];
      case TakeOne(id) =>
        var got := server.TakeChunk(id);
        events := [Event.Consume(id)];
      case HangUp(id) =>
        server.DropStream(id);
        events := [Disconnect(id)];
      case SwitchPolicy(name) =>
        var known := server.SetPolicy(name);
    }
  }

  /** The loop does the next part of its turn; with an empty queue it stays parked. */
  method RunLoop(server: Server, x: Stimulus) returns (ghost events: seq<Event>, ghost grants: seq<Grant>)
    requires server.Valid() && Good(server.cfg, server.View()) && x.GoOn?
    modifies server.Footprint()
    ensures server.Valid() && server.OnlyNew(old(server.CacheNodes()))
    ensures Reacts(server.cfg, x, old(server.View()), events, server.View())
    ensures Schedules(old(server.policy.View()), x, old(server.View()), events, grants, server.policy.View())
    ensures server.policy.wfq.fairness == old(server.policy.wfq.fairness)
  {
    events, grants := [], [];
    if server.phase.Decoding? {
      events := EndDecode(server, x);
    } else if server.phase == Ready || server.queue.waiting != [] {
      events, grants := StartTick(server, x);
    }
  }

  method EndDecode(server: Server, x: Stimulus) returns (ghost events: seq<Event>)
    requires server.Valid() && Good(server.cfg, server.View()) && x.GoOn? && server.phase.Decoding?
    modifies server.Footprint()
    ensures server.Valid() && server.CacheNodes() == old(server.CacheNodes())
    ensures Reacts(server.cfg, x, old(server.View()), events, server.View()) && !events[0].TickStart?
    ensures server.policy.View() == old(server.policy.View())
            && server.policy.wfq.fairness == old(server.policy.wfq.fairness)
  {
    ghost var e := server.DecodeReturns(x.fails, x.garbage, x.timedOut);
    events := [e];
  }

  method StartTick(server: Server, x: Stimulus) returns (ghost events: seq<Event>, ghost grants: seq<Grant>)
    requires server.Valid() && Good(server.cfg, server.View()) && x.GoOn? && !server.phase.Decoding?
    requires server.phase == Ready || server.queue.waiting != []
    modifies server.Footprint()
    ensures server.Valid() && server.OnlyNew(old(server.CacheNodes()))
    ensures Reacts(server.cfg, x, old(server.View()), events, server.View())
    ensures Schedules(old(server.policy.View()), x, old(server.View()), events, grants, server.policy.View())
    ensures server.policy.wfq.fairness == old(server.policy.wfq.fairness)
  {
    var chosen, order;
    chosen, order, grants := server.TickStart(x.expired);
    events := [TickStart(x.expired, chosen, order)];
  }

  /** One stimulus, whichever it is. */
  method React(server: Server, x: Stimulus) returns (ghost events: seq<Event>, ghost grants: seq<Grant>)
    requires server.Valid() && Good(server.cfg, server.View()) && Acceptable(x, server.accepted)
    modifies server.Footprint()
    ensures server.Valid() && server.OnlyNew(old(server.CacheNodes()))
    ensures Reacts(server.cfg, x, old(server.View()), events, server.View())
    ensures Schedules(old(server.policy.View()), x, old(server.View()), events, grants, server.policy.View())
    ensures server.policy.wfq.fairness == old(server.policy.wfq.fairness) || fresh(server.policy.wfq.fairness)
  {
    if x.GoOn? {
      events, grants := RunLoop(server, x);
    } else {
      events := Handle(server, x);
      grants := [];
    }
  }

  // ---------------------------------------------------------------- following a script

  /** trail[i] is the state before the i-th stimulus, steps[i] what that stimulus was. */
  ghost predicate ReactsAt(cfg: Config, script: seq<Stimulus>, trail: seq<State>, steps: seq<seq<Event>>, i: int)
    requires 0 <= i < |steps| <= |script| && |trail| == |steps| + 1
  {
    Reacts(cfg, script[i], trail[i], steps[i], trail[i + 1])
  }

  /** The server has done everything the script asked of it so far, and nothing else. */
  ghost predicate Follows(cfg: Config, script: seq<Stimulus>, trail: seq<State>, steps: seq<seq<Event>>)
  {
    && Sane(cfg)
    && |steps| <= |script| && |trail| == |steps| + 1 && trail[0] == Init(cfg)
    && forall i {:trigger ReactsAt(cfg, script, trail, steps, i)} :: 0 <= i < |steps| ==>
      ReactsAt(cfg, script, trail, steps, i)
  }

  lemma FollowsOn(cfg: Config, script: seq<Stimulus>, trail: seq<State>, steps: seq<seq<Event>>, more: seq<Event>,
                  s': State)
    requires Follows(cfg, script, trail, steps) && |steps| < |script|
    requires Reacts(cfg, script[|steps|], trail[|steps|], more, s')
    ensures Follows(cfg, script, trail + [s'], steps + [more])
  {
    var trail', steps' := trail + [s'], steps + [more];
    forall i {:trigger ReactsAt(cfg, script, trail', steps', i)} | 0 <= i < |steps'|
      ensures ReactsAt(cfg, script, trail', steps', i) {
      if i < |steps| {
        assert ReactsAt(cfg, script, trail, steps, i);
      }
    }
  }

  lemma {:induction false} FollowedIsGood(cfg: Config, script: seq<Stimulus>, trail: seq<State>,
                                          steps: seq<seq<Event>>, n: nat)
    requires Follows(cfg, script, trail, steps) && n <= |steps|
    ensures Good(cfg, trail[n])
  {
    if n == 0 {
      InitIsGood(cfg);
    } else {
      FollowedIsGood(cfg, script, trail, steps, n - 1);
      assert ReactsAt(cfg, script, trail, steps, n - 1);
      if steps[n - 1] != [] { StepKeeps(cfg, trail[n - 1], steps[n - 1][0]); }
    }
  }

  // ---------------------------------------------------------------- admissions

  /** Request ids are never used twice, and a request has a prompt and a budget. */
  ghost predicate WellFormed(script: seq<Stimulus>)
  {
    && (forall i :: 0 <= i < |script| && script[i].Submit? ==> Worthy(script[i].r))
    && (forall i, j :: 0 <= i < j < |script| && script[i].Submit? && script[j].Submit? ==>
        script[i].r.id != script[j].r.id)
  }

  lemma AcceptedGrows(cfg: Config, s: State, e: Event)
    requires Good(cfg, s) && Enabled(cfg, s, e) && !e.Arrive?
    ensures Apply(cfg, s, e).accepted == s.accepted
  {
    match e {
      case TickStart(expired, chosen, order) =>
        ExpireAllKeeps(cfg, s, s.waiting, expired, {}, false);
        var t := ExpireAll(s, s.waiting, expired);
        if !Idle(t) { AdmitAllFrame(cfg, t, chosen); }
      case TickEnd(timedOut, order) =>
        var t := AdvanceAll(s, s.phase.rows);
        SampleAllPool(cfg, t, order, Sampled(cfg.next, t.store, s.phase.rows), timedOut);
      case TickFail(garbage, ids) =>
        FinishAllPool(cfg, s.(store := Scrambled(s.store, s.phase.rows, garbage)), ids);
      case _ =>
    }
  }

  /** What the admission rules say about a request in a given state. */
  ghost predicate IsAdmitted(cfg: Config, s: State, r: Request)
    requires cfg.blockSize >= 1
  {
    && r.maxTokens >= 0
    && Decide(s.kv, r.id, |r.prompt| + r.maxTokens, cfg.blockSize, |s.waiting|, cfg.maxQueueDepth) == Accepted
  }

  /** A stimulus lets in the request it submits, if the rules admit it, and no other. */
  lemma AcceptedBy(cfg: Config, x: Stimulus, s: State, events: seq<Event>, s': State)
    requires Good(cfg, s) && Reacts(cfg, x, s, events, s')
    ensures s'.accepted == if x.Submit? && IsAdmitted(cfg, s, x.r) then s.accepted[x.r.id := x.r] else s.accepted
  {
    if events != [] && !x.Submit? { AcceptedGrows(cfg, s, events[0]); }
  }

  /** The requests the script has submitted and the rules have let in, before stimulus n. */
  ghost function Admitted(cfg: Config, script: seq<Stimulus>, trail: seq<State>,
                          n: nat): (accepted: map<RequestId, Request>)
    requires cfg.blockSize >= 1 && n <= |script| && n < |trail|
  {
    if n == 0 then map[]
    else
      var before, x := Admitted(cfg, script, trail, n - 1), script[n - 1];
      if x.Submit? && IsAdmitted(cfg, trail[n - 1], x.r) then before[x.r.id := x.r] else before
  }

  lemma {:induction false} AcceptedIsAdmitted(cfg: Config, script: seq<Stimulus>, trail: seq<State>,
                                              steps: seq<seq<Event>>, n: nat)
    requires Follows(cfg, script, trail, steps) && n <= |steps|
    ensures trail[n].accepted == Admitted(cfg, script, trail, n)
  {
    if n > 0 {
      AcceptedIsAdmitted(cfg, script, trail, steps, n - 1);
      FollowedIsGood(cfg, script, trail, steps, n - 1);
      assert ReactsAt(cfg, script, trail, steps, n - 1);
      AcceptedBy(cfg, script[n - 1], trail[n - 1], steps[n - 1], trail[n]);
    }
  }

  lemma {:induction false} AdmittedWereSubmitted(cfg: Config, script: seq<Stimulus>, trail: seq<State>, n: nat,
                                                 id: RequestId)
    requires cfg.blockSize >= 1 && n <= |script| && n < |trail| && id in Admitted(cfg, script, trail, n)
    ensures exists i :: 0 <= i < n && script[i].Submit? && script[i].r.id == id
  {
    var x := script[n - 1];
    if x.Submit? && x.r.id == id {
      assert 0 <= n - 1 < n;
    } else {
      AdmittedWereSubmitted(cfg, script, trail, n - 1, id);
    }
  }

  lemma NextIsAcceptable(cfg: Config, script: seq<Stimulus>, trail: seq<State>, steps: seq<seq<Event>>)
    requires WellFormed(script) && Follows(cfg, script, trail, steps) && |steps| < |script|
    ensures Good(cfg, trail[|steps|]) && Acceptable(script[|steps|], trail[|steps|].accepted)
  {
    var n := |steps|;
    FollowedIsGood(cfg, script, trail, steps, n);
    AcceptedIsAdmitted(cfg, script, trail, steps, n);
    if script[n].Submit? && script[n].r.id in trail[n].accepted {
      AdmittedWereSubmitted(cfg, script, trail, n, script[n].r.id);
    }
  }

  /** Every submission is decided by the admission rules on the state it met, for good. */
  lemma {:induction false} SubmissionsAreDecided(cfg: Config, script: seq<Stimulus>, trail: seq<State>, n: nat, i: nat)
    requires cfg.blockSize >= 1 && WellFormed(script) && i < n <= |script| && n < |trail| && script[i].Submit?
    ensures script[i].r.id in Admitted(cfg, script, trail, n) <==> IsAdmitted(cfg, trail[i], script[i].r)
    ensures IsAdmitted(cfg, trail[i], script[i].r) ==> Admitted(cfg, script, trail, n)[script[i].r.id] == script[i].r
    decreases n
  {
    if i < n - 1 {
      SubmissionsAreDecided(cfg, script, trail, n - 1, i);
    } else if script[i].r.id in Admitted(cfg, script, trail, i) {
      AdmittedWereSubmitted(cfg, script, trail, i, script[i].r.id);
    }
  }

  // ---------------------------------------------------------------- the run

  ghost function Flat(steps: seq<seq<Event>>): (events: seq<Event>)
  {
    if steps == [] then [] else Flat(steps[..|steps| - 1]) + steps[|steps| - 1]
  }

  /** The trail without the stimuli that are no event. */
  ghost function Moving(trail: seq<State>, steps: seq<seq<Event>>): (states: seq<State>)
    requires |trail| == |steps| + 1
    decreases |steps|
  {
    if steps == [] then trail
    else
      var n := |steps| - 1;
      Moving(trail[..n + 1], steps[..n]) + if steps[n] == [] then [] else [trail[n + 1]]
  }

  lemma RunGoesOn(cfg: Config, states: seq<State>, events: seq<Event>, more: seq<Event>, s': State)
    requires IsRun(cfg, states, events) && Makes(cfg, states[|states| - 1], more, s')
    ensures var states' := states + if more == [] then [] else [s'];
            IsRun(cfg, states', events + more) && states'[|events + more|] == s'
  {
    if more != [] {
      var states', events' := states + [s'], events + more;
      forall i | 0 <= i < |events'| ensures StepAt(cfg, states', events', i) {
        assert i < |events| ==> StepAt(cfg, states, events, i);
      }
    } else {
      assert events + more == events && states + [] == states;
    }
  }

  lemma FollowedBefore(cfg: Config, script: seq<Stimulus>, trail: seq<State>, steps: seq<seq<Event>>)
    requires Follows(cfg, script, trail, steps) && steps != []
    ensures Follows(cfg, script, trail[..|steps|], steps[..|steps| - 1])
  {
    var trail', steps' := trail[..|steps|], steps[..|steps| - 1];
    forall i {:trigger ReactsAt(cfg, script, trail', steps', i)} | 0 <= i < |steps'|
      ensures ReactsAt(cfg, script, trail', steps', i) {
      assert ReactsAt(cfg, script, trail, steps, i);
    }
  }

  /** Following a script is a run of the machine with the script's events. */
  lemma {:induction false} FollowedIsRun(cfg: Config, script: seq<Stimulus>, trail: seq<State>, steps: seq<seq<Event>>)
    requires Follows(cfg, script, trail, steps)
    ensures IsRun(cfg, Moving(trail, steps), Flat(steps))
    ensures Moving(trail, steps)[|Flat(steps)|] == trail[|steps|]
    decreases |steps|
  {
    if steps != [] {
      var n := |steps| - 1;
      FollowedBefore(cfg, script, trail, steps);
      FollowedIsRun(cfg, script, trail[..n + 1], steps[..n]);
      assert ReactsAt(cfg, script, trail, steps, n);
      RunGoesOn(cfg, Moving(trail[..n + 1], steps[..n]), Flat(steps[..n]), steps[n], trail[n + 1]);
    }
  }

  // ---------------------------------------------------------------- the policy

  /** policies[i] is the policy before the i-th stimulus, grants[i] what it granted then. */
  ghost predicate SchedulesAt(script: seq<Stimulus>, trail: seq<State>, steps: seq<seq<Event>>,
                              policies: seq<Policy>, grants: seq<seq<Grant>>, i: int)
    requires 0 <= i < |steps| <= |script| && |trail| == |policies| == |steps| + 1 && |grants| == |steps|
  {
    Schedules(policies[i], script[i], trail[i], steps[i], grants[i], policies[i + 1])
  }

  /** Every slot given away so far went to whom the policy in force at the time chose. */
  ghost predicate Scheduled(script: seq<Stimulus>, trail: seq<State>, steps: seq<seq<Event>>,
                            policies: seq<Policy>, grants: seq<seq<Grant>>)
  {
    && |steps| <= |script| && |trail| == |policies| == |steps| + 1 && |grants| == |steps|
    && forall i {:trigger SchedulesAt(script, trail, steps, policies, grants, i)} :: 0 <= i < |steps| ==>
         SchedulesAt(script, trail, steps, policies, grants, i)
  }

  lemma ScheduledOn(script: seq<Stimulus>, trail: seq<State>, steps: seq<seq<Event>>, policies: seq<Policy>,
                    grants: seq<seq<Grant>>,
                    more: seq<Event>, s': State, part: seq<Grant>, p': Policy)
    requires Scheduled(script, trail, steps, policies, grants) && |steps| < |script|
    requires Schedules(policies[|steps|], script[|steps|], trail[|steps|], more, part, p')
    ensures Scheduled(script, trail + [s'], steps + [more], policies + [p'], grants + [part])
  {
    var trail', steps', policies', grants' := trail + [s'], steps + [more], policies + [p'], grants + [part];
    forall i {:trigger SchedulesAt(script, trail', steps', policies', grants', i)} | 0 <= i < |steps'|
      ensures SchedulesAt(script, trail', steps', policies', grants', i)
    {
      if i < |steps| {
        assert SchedulesAt(script, trail, steps, policies, grants, i);
      }
    }
  }

  // ---------------------------------------------------------------- what is sent

  /** What a client has been sent, against what the one-request decoder sends. */
  ghost predicate Faithful(cfg: Config, s: State, id: RequestId)
    requires id in s.accepted
  {
    var reference := Reference(cfg, s.accepted[id].prompt, s.accepted[id].maxTokens);
    Output(s, id) <= reference && (id in s.outcome && s.outcome[id] == Completed ==> Output(s, id) == reference)
  }

  lemma AllFaithful(cfg: Config, script: seq<Stimulus>, trail: seq<State>, steps: seq<seq<Event>>)
    requires Follows(cfg, script, trail, steps)
    ensures forall id :: id in trail[|steps|].accepted ==> Faithful(cfg, trail[|steps|], id)
  {
    var states, events := Moving(trail, steps), Flat(steps);
    FollowedIsRun(cfg, script, trail, steps);
    forall id | id in trail[|steps|].accepted ensures Faithful(cfg, trail[|steps|], id) {
      OutputRefinesReference(cfg, states, events, |events|, id);
    }
  }

  lemma Conclusion(cfg: Config, script: seq<Stimulus>, trail: seq<State>, steps: seq<seq<Event>>)
    requires Follows(cfg, script, trail, steps)
    ensures IsRun(cfg, Moving(trail, steps), Flat(steps)) && Moving(trail, steps)[|Flat(steps)|] == trail[|steps|]
    ensures trail[|steps|].accepted == Admitted(cfg, script, trail, |steps|)
    ensures forall id :: id in trail[|steps|].accepted ==> Faithful(cfg, trail[|steps|], id)
  {
    FollowedIsRun(cfg, script, trail, steps);
    AcceptedIsAdmitted(cfg, script, trail, steps, |steps|);
    AllFaithful(cfg, script, trail, steps);
  }

  // ---------------------------------------------------------------- the server

  /** The record of the first n stimuli: the server has done what they ask, under the policies in
      force, and this is where it stands. */
  ghost predicate Recorded(cfg: Config, script: seq<Stimulus>, n: nat, trail: seq<State>, steps: seq<seq<Event>>,
                           policies: seq<Policy>, grants: seq<seq<Grant>>, first: Policy, s: State, p: Policy)
  {
    && |steps| == n && Follows(cfg, script, trail, steps) && trail[n] == s
    && Scheduled(script, trail, steps, policies, grants) && policies[0] == first && policies[n] == p
  }

  lemma NothingRecorded(cfg: Config, script: seq<Stimulus>, s: State, p: Policy)
    requires Sane(cfg) && s == Init(cfg)
    ensures Recorded(cfg, script, 0, [s], [], [p], [], p, s, p)
  {
  }

  lemma OneMoreRecorded(cfg: Config, script: seq<Stimulus>, n: nat, trail: seq<State>, steps: seq<seq<Event>>,
                        policies: seq<Policy>, grants: seq<seq<Grant>>, first: Policy, s: State, p: Policy,
                        more: seq<Event>, part: seq<Grant>, s': State, p': Policy)
    requires Recorded(cfg, script, n, trail, steps, policies, grants, first, s, p) && n < |script|
    requires Reacts(cfg, script[n], s, more, s') && Schedules(p, script[n], s, more, part, p')
    ensures Recorded(cfg, script, n + 1, trail + [s'], steps + [more], policies + [p'], grants + [part], first, s', p')
  {
    FollowsOn(cfg, script, trail, steps, more, s');
    ScheduledOn(script, trail, steps, policies, grants, more, s', part, p');
  }

  lemma RecordedIsAcceptable(cfg: Config, script: seq<Stimulus>, n: nat, trail: seq<State>, steps: seq<seq<Event>>,
                             policies: seq<Policy>, grants: seq<seq<Grant>>, first: Policy, s: State, p: Policy)
    requires WellFormed(script) && n < |script|
    requires Recorded(cfg, script, n, trail, steps, policies, grants, first, s, p)
    ensures Good(cfg, s) && Acceptable(script[n], s.accepted)
  {
    NextIsAcceptable(cfg, script, trail, steps);
  }

  /** The next stimulus of the script, and the record of it. */
  method Proceed(server: Server, script: seq<Stimulus>, n: nat, ghost trail: seq<State>, ghost steps: seq<seq<Event>>,
                 ghost policies: seq<Policy>, ghost grants: seq<seq<Grant>>, ghost first: Policy)
    returns (ghost trail': seq<State>, ghost steps': seq<seq<Event>>, ghost policies': seq<Policy>,
             ghost grants': seq<seq<Grant>>)
    requires server.Valid() && WellFormed(script) && n < |script|
    requires Recorded(server.cfg, script, n, trail, steps, policies, grants, first, server.View(), server.policy.View())
    modifies server.Footprint()
    ensures server.Valid() && server.OnlyNew(old(server.CacheNodes()))
    ensures Recorded(server.cfg, script, n + 1, trail', steps', policies', grants', first, server.View(),
                     server.policy.View())
    ensures server.policy.wfq.fairness == old(server.policy.wfq.fairness) || fresh(server.policy.wfq.fairness)
  {
    ghost var s, p := server.View(), server.policy.View();
    RecordedIsAcceptable(server.cfg, script, n, trail, steps, policies, grants, first, s, p);
    ghost var more, part := React(server, script[n]);
    OneMoreRecorded(server.cfg, script, n, trail, steps, policies, grants, first, s, p, more, part, server.View(),
                    server.policy.View());
    trail', steps' := trail + [server.View()], steps + [more];
    policies', grants' := policies + [server.policy.View()], grants + [part];
  }

  /** The whole script, on a server in its initial state. */
  method Play(server: Server, script: seq<Stimulus>)
    returns (ghost trail: seq<State>, ghost steps: seq<seq<Event>>, ghost policies: seq<Policy>,
             ghost grants: seq<seq<Grant>>)
    requires server.Valid() && server.View() == Init(server.cfg) && WellFormed(script)
    modifies server.Footprint()
    ensures server.Valid()
    ensures Recorded(server.cfg, script, |script|, trail, steps, policies, grants, old(server.policy.View()),
                     server.View(), server.policy.View())
  {
    ghost var first := server.policy.View();
    trail, steps, policies, grants := [server.View()], [], [first], [];
    NothingRecorded(server.cfg, script, server.View(), first);
    for i := 0 to |script|
      invariant server.Valid() && server.OnlyNew(old(server.CacheNodes()))
      invariant server.policy.wfq.fairness == old(server.policy.wfq.fairness) || fresh(server.policy.wfq.fairness)
      invariant Recorded(server.cfg, script, i, trail, steps, policies, grants, first, server.View(),
                         server.policy.View())
    {
      trail, steps, policies, grants := Proceed(server, script, i, trail, steps, policies, grants, first);
    }
  }

  method Start(cfg: Config, kind: Kind) returns (server: Server)
    requires Sane(cfg)
    ensures server.Valid() && server.cfg == cfg && server.View() == Init(cfg)
            && server.policy.View() == Policy(kind, map[])
    ensures forall o :: o in server.Footprint() ==> fresh(o)
  {
    server := new Server(cfg, kind);
  }

  /** A server started fresh and put through any script, under any policy. It does exactly
      what the script asks, stimulus by stimulus; its history is a run of the machine; every
      submission is decided by the admission rules on the state it met; every slot goes to whom
      the policy in force chooses; and every client has been sent a prefix of what the
      one-request decoder sends, all of it if the request completed. */
  method Serve(cfg: Config, kind: Kind, script: seq<Stimulus>)
    returns (server: Server, ghost trail: seq<State>, ghost steps: seq<seq<Event>>, ghost policies: seq<Policy>,
             ghost grants: seq<seq<Grant>>)
    requires Sane(cfg) && WellFormed(script)
    ensures server.Valid() && server.cfg == cfg
    ensures |steps| == |script| && Follows(cfg, script, trail, steps) && trail[|script|] == server.View()
    ensures IsRun(cfg, Moving(trail, steps), Flat(steps)) && Moving(trail, steps)[|Flat(steps)|] == server.View()
    ensures server.accepted == Admitted(cfg, script, trail, |script|)
    ensures Scheduled(script, trail, steps, policies, grants)
    ensures policies[0] == Policy(kind, map[]) && policies[|script|] == server.policy.View()
    ensures forall id :: id in server.accepted ==> Faithful(cfg, server.View(), id)
  {
    server := Start(cfg, kind);
    trail, steps, policies, grants := Play(server, script);
    Conclusion(cfg, script, trail, steps);
  }
}
