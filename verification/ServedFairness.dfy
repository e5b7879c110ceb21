/** Weighted fair queuing as the clients of a running server see it: what the bounds on grants say
    about the requests that are given slots between two policy switches. */
module ServedFairness {
  import opened Requests
  import opened Fairness
  import opened WfqPolicy
  import opened WfqBounds
  import opened WfqRuns
  import opened Policies
  import opened Serving
  import opened ServerRuns

  /** No known policy is named between two points of the script. */
  ghost predicate NoSwitch(script: seq<Stimulus>, a: nat, b: nat)
    requires b <= |script|
  {
    forall i :: a <= i < b && script[i].SwitchPolicy? ==> !Known(script[i].name)
  }

  lemma StimulusGrants(script: seq<Stimulus>, trail: seq<State>, steps: seq<seq<Event>>,
                       policies: seq<Policy>, grants: seq<seq<Grant>>, i: nat)
    requires Scheduled(script, trail, steps, policies, grants) && i < |steps|
    requires script[i].SwitchPolicy? ==> !Known(script[i].name)
    ensures policies[i + 1].kind == policies[i].kind
    ensures Run(policies[i].times, grants[i]) && policies[i + 1].times == End(policies[i].times, grants[i])
  {
    assert SchedulesAt(script, trail, steps, policies, grants, i);
  }

  lemma OneMorePart(grants: seq<seq<Grant>>, a: nat, b: nat)
    requires a < b <= |grants|
    ensures grants[a..b] == grants[a..b - 1] + [grants[b - 1]]
  {
  }

  /** Between two switches all selections of the server are one run of grants. */
  lemma {:induction false} SelectionsAreOneRun(script: seq<Stimulus>, trail: seq<State>, steps: seq<seq<Event>>,
                                               policies: seq<Policy>, grants: seq<seq<Grant>>, a: nat, b: nat)
    requires Scheduled(script, trail, steps, policies, grants) && a <= b <= |steps| && NoSwitch(script, a, b)
    ensures policies[b].kind == policies[a].kind
    ensures Run(policies[a].times, Joined(grants[a..b]))
    ensures policies[b].times == End(policies[a].times, Joined(grants[a..b]))
    decreases b
  {
    if a == b {
      assert grants[a..b] == [];
    } else {
      SelectionsAreOneRun(script, trail, steps, policies, grants, a, b - 1);
      StimulusGrants(script, trail, steps, policies, grants, b - 1);
      OneMorePart(grants, a, b);
      RunOn(policies[a].times, grants[a..b - 1], grants[b - 1]);
    }
  }

  // ---------------------------------------------------------------- counting slots

  /** How many of these requests are of class c. */
  ghost function OfClass(rs: seq<Request>, c: int): (n: nat)
  {
    if rs == [] then 0 else OfClass(rs[..|rs| - 1], c) + if rs[|rs| - 1].priority == c then 1 else 0
  }

  /** How many requests of class c the stimuli from a to b gave a slot. */
  ghost function Served(steps: seq<seq<Event>>, a: nat, b: nat, c: int): (n: nat)
    requires b <= |steps|
  {
    if b <= a then 0 else Served(steps, a, b - 1, c) + OfClass(ChosenIn(steps[b - 1]), c)
  }

  /** How many requests they gave a slot in all. */
  ghost function ServedInAll(steps: seq<seq<Event>>, a: nat, b: nat): (n: nat)
    requires b <= |steps|
  {
    if b <= a then 0 else ServedInAll(steps, a, b - 1) + |ChosenIn(steps[b - 1])|
  }

  lemma {:induction false} CountOfBoth(x: seq<Grant>, y: seq<Grant>, c: int)
    ensures Count(x + y, c) == Count(x, c) + Count(y, c)
    decreases |x|
  {
    if x == [] {
      assert x + y == y;
    } else {
      assert (x + y)[1..] == x[1..] + y;
      CountOfBoth(x[1..], y, c);
    }
  }

  /** A list of grants that names the classes of these requests, in order. */
  ghost predicate Names(rs: seq<Request>, part: seq<Grant>)
  {
    |part| == |rs| && forall m :: 0 <= m < |rs| ==> part[m].cls == rs[m].priority
  }

  lemma {:induction false} CountIsOfClass(rs: seq<Request>, part: seq<Grant>, c: int)
    requires Names(rs, part)
    ensures Count(part, c) == OfClass(rs, c)
  {
    if rs != [] {
      var n := |rs| - 1;
      CountIsOfClass(rs[..n], part[..n], c);
      CountOfBoth(part[..n], [part[n]], c);
      assert part == part[..n] + [part[n]] && [part[n]][1..] == [];
    }
  }

  /** Under weighted fair queuing the grants of a stimulus are the slots it gives away. */
  lemma GrantsAreSlots(script: seq<Stimulus>, trail: seq<State>, steps: seq<seq<Event>>,
                       policies: seq<Policy>, grants: seq<seq<Grant>>, i: nat)
    requires Scheduled(script, trail, steps, policies, grants) && i < |steps| && policies[i].kind == Wfq
    requires steps[i] != [] ==> !script[i].SwitchPolicy?
    ensures Names(ChosenIn(steps[i]), grants[i])
  {
    assert SchedulesAt(script, trail, steps, policies, grants, i);
    var chosen, part := ChosenIn(steps[i]), grants[i];
    if chosen != [] {
      var waiting := PoolIn(trail[i], steps[i]).waiting;
      forall m | 0 <= m < |chosen| ensures part[m].cls == chosen[m].priority {
        assert ExplainsNth(policies[i].times, waiting, chosen, part, m);
      }
    }
  }

  /** A policy switch is no event. */
  ghost predicate SwitchesAreQuiet(script: seq<Stimulus>, steps: seq<seq<Event>>)
    requires |steps| <= |script|
  {
    forall i :: 0 <= i < |steps| && script[i].SwitchPolicy? ==> steps[i] == []
  }

  lemma FollowedIsQuiet(cfg: Config, script: seq<Stimulus>, trail: seq<State>, steps: seq<seq<Event>>)
    requires Follows(cfg, script, trail, steps)
    ensures SwitchesAreQuiet(script, steps)
  {
    forall i | 0 <= i < |steps| && script[i].SwitchPolicy? ensures steps[i] == [] {
      assert ReactsAt(cfg, script, trail, steps, i);
    }
  }

  ghost predicate NamesAt(steps: seq<seq<Event>>, grants: seq<seq<Grant>>, i: int)
    requires 0 <= i < |steps| == |grants|
  {
    Names(ChosenIn(steps[i]), grants[i])
  }

  lemma ServedIsGranted(script: seq<Stimulus>, trail: seq<State>, steps: seq<seq<Event>>,
                        policies: seq<Policy>, grants: seq<seq<Grant>>, a: nat, b: nat, c: int)
    requires Scheduled(script, trail, steps, policies, grants) && SwitchesAreQuiet(script, steps)
    requires a <= b <= |steps| && NoSwitch(script, a, b) && policies[a].kind == Wfq
    ensures Count(Joined(grants[a..b]), c) == Served(steps, a, b, c)
    ensures |Joined(grants[a..b])| == ServedInAll(steps, a, b)
  {
    forall i {:trigger NamesAt(steps, grants, i)} | a <= i < b ensures NamesAt(steps, grants, i) {
      SelectionsAreOneRun(script, trail, steps, policies, grants, a, i);
      GrantsAreSlots(script, trail, steps, policies, grants, i);
    }
    NamedIsServed(steps, grants, a, b, c);
  }

  lemma {:induction false} NamedIsServed(steps: seq<seq<Event>>, grants: seq<seq<Grant>>, a: nat, b: nat, c: int)
    requires a <= b <= |steps| == |grants|
    requires forall i {:trigger NamesAt(steps, grants, i)} :: a <= i < b ==> NamesAt(steps, grants, i)
    ensures Count(Joined(grants[a..b]), c) == Served(steps, a, b, c)
    ensures |Joined(grants[a..b])| == ServedInAll(steps, a, b)
    decreases b
  {
    if a == b {
      assert grants[a..b] == [];
    } else {
      var n := b - 1;
      NamedIsServed(steps, grants, a, n, c);
      assert NamesAt(steps, grants, n);
      OneMorePart(grants, a, b);
      OneMoreServed(grants[a..n], grants[n], ChosenIn(steps[n]), c);
    }
  }

  lemma OneMoreServed(parts: seq<seq<Grant>>, part: seq<Grant>, chosen: seq<Request>, c: int)
    requires Names(chosen, part)
    ensures Count(Joined(parts + [part]), c) == Count(Joined(parts), c) + OfClass(chosen, c)
    ensures |Joined(parts + [part])| == |Joined(parts)| + |chosen|
  {
    JoinedOn(parts, part);
    CountOfBoth(Joined(parts), part, c);
    CountIsOfClass(chosen, part, c);
  }

  lemma JoinedOn(parts: seq<seq<Grant>>, part: seq<Grant>)
    ensures Joined(parts + [part]) == Joined(parts) + part
  {
    assert (parts + [part])[..|parts|] == parts;
  }

  // ---------------------------------------------------------------- who waits

  /** At every choice of the stimulus, a request of class c is still waiting. */
  ghost predicate WaitsAt(s: State, events: seq<Event>, c: int)
  {
    forall m :: 0 <= m < |ChosenIn(events)| ==> LeftOfClass(PoolIn(s, events).waiting, ChosenIn(events)[..m], c)
  }

  ghost predicate LeftOfClass(waiting: seq<Request>, taken: seq<Request>, c: int)
  {
    exists r :: r in waiting && r !in taken && r.priority == c
  }

  ghost predicate WaitsThroughout(trail: seq<State>, steps: seq<seq<Event>>, a: nat, b: nat, c: int)
    requires b <= |steps| < |trail|
  {
    forall i {:trigger WaitsAt(trail[i], steps[i], c)} :: a <= i < b ==> WaitsAt(trail[i], steps[i], c)
  }

  /** Nobody of another class than these waits. */
  ghost predicate OnlyClasses(trail: seq<State>, steps: seq<seq<Event>>, a: nat, b: nat, universe: set<int>)
    requires b <= |steps| < |trail|
  {
    forall i, r :: a <= i < b && r in PoolIn(trail[i], steps[i]).waiting ==> r.priority in universe
  }

  lemma BackloggedPart(script: seq<Stimulus>, trail: seq<State>, steps: seq<seq<Event>>,
                       policies: seq<Policy>, grants: seq<seq<Grant>>, i: nat, c: int)
    requires Scheduled(script, trail, steps, policies, grants) && i < |steps| && policies[i].kind == Wfq
    requires (steps[i] != [] ==> !script[i].SwitchPolicy?) && WaitsAt(trail[i], steps[i], c)
    ensures Backlogged(grants[i], c)
  {
    assert SchedulesAt(script, trail, steps, policies, grants, i);
    GrantsAreSlots(script, trail, steps, policies, grants, i);
    var chosen, part, waiting := ChosenIn(steps[i]), grants[i], PoolIn(trail[i], steps[i]).waiting;
    forall m | 0 <= m < |part| ensures c in part[m].backlog {
      assert ExplainsNth(policies[i].times, waiting, chosen, part, m);
      assert LeftOfClass(waiting, chosen[..m], c);
    }
  }

  lemma DrawnPart(script: seq<Stimulus>, trail: seq<State>, steps: seq<seq<Event>>,
                  policies: seq<Policy>, grants: seq<seq<Grant>>, i: nat, universe: set<int>)
    requires Scheduled(script, trail, steps, policies, grants) && i < |steps| && policies[i].kind == Wfq
    requires steps[i] != [] ==> !script[i].SwitchPolicy?
    requires forall r :: r in PoolIn(trail[i], steps[i]).waiting ==> r.priority in universe
    ensures Drawn(grants[i], universe)
  {
    assert SchedulesAt(script, trail, steps, policies, grants, i);
    GrantsAreSlots(script, trail, steps, policies, grants, i);
    var chosen, part, waiting := ChosenIn(steps[i]), grants[i], PoolIn(trail[i], steps[i]).waiting;
    forall m | 0 <= m < |part| ensures part[m].backlog <= universe {
      assert ExplainsNth(policies[i].times, waiting, chosen, part, m);
      BacklogIsWaiting(TimesAt(policies[i].times, part, m), waiting, chosen[..m], chosen[m], part[m], universe);
    }
  }

  lemma BacklogIsWaiting(times: Times, waiting: seq<Request>, taken: seq<Request>, choice: Request, g: Grant,
                         universe: set<int>)
    requires ExplainsAt(times, waiting, taken, choice, g) && forall r :: r in waiting ==> r.priority in universe
    ensures g.backlog <= universe
  {
    forall c | c in g.backlog ensures c in universe {
      var r :| r in waiting && r !in taken && r.priority == c;
    }
  }

  lemma {:induction false} BackloggedThroughout(script: seq<Stimulus>, trail: seq<State>, steps: seq<seq<Event>>,
                                                policies: seq<Policy>, grants: seq<seq<Grant>>, a: nat, b: nat, c: int)
    requires Scheduled(script, trail, steps, policies, grants) && SwitchesAreQuiet(script, steps)
    requires a <= b <= |steps| && NoSwitch(script, a, b) && policies[a].kind == Wfq
             && WaitsThroughout(trail, steps, a, b, c)
    ensures Backlogged(Joined(grants[a..b]), c)
    decreases b
  {
    if a == b {
      assert grants[a..b] == [];
    } else {
      var n := b - 1;
      BackloggedThroughout(script, trail, steps, policies, grants, a, n, c);
      SelectionsAreOneRun(script, trail, steps, policies, grants, a, n);
      assert WaitsAt(trail[n], steps[n], c);
      BackloggedPart(script, trail, steps, policies, grants, n, c);
      OneMorePart(grants, a, b);
      JoinedOn(grants[a..n], grants[n]);
    }
  }

  lemma {:induction false} DrawnThroughout(script: seq<Stimulus>, trail: seq<State>, steps: seq<seq<Event>>,
                                           policies: seq<Policy>, grants: seq<seq<Grant>>, a: nat, b: nat,
                                             universe: set<int>)
    requires Scheduled(script, trail, steps, policies, grants) && SwitchesAreQuiet(script, steps)
    requires a <= b <= |steps| && NoSwitch(script, a, b) && policies[a].kind == Wfq
             && OnlyClasses(trail, steps, a, b, universe)
    ensures Drawn(Joined(grants[a..b]), universe)
    decreases b
  {
    if a == b {
      assert grants[a..b] == [];
    } else {
      var n := b - 1;
      DrawnThroughout(script, trail, steps, policies, grants, a, n, universe);
      SelectionsAreOneRun(script, trail, steps, policies, grants, a, n);
      DrawnPart(script, trail, steps, policies, grants, n, universe);
      OneMorePart(grants, a, b);
      JoinedOn(grants[a..n], grants[n]);
    }
  }

  // ---------------------------------------------------------------- fairness of a running server

  /** The finish times at the first choice between a and b. */
  ghost function FirstTimes(policies: seq<Policy>, grants: seq<seq<Grant>>, a: nat, b: nat): (times: Times)
    requires a <= b <= |grants| < |policies| && Joined(grants[a..b]) != []
  {
    Adopt(policies[a].times, Joined(grants[a..b])[0].backlog)
  }

  /** Two classes that both have a request waiting at every choice between two policy switches are
      given slots in proportion to their weights, up to one slot and up to the gap between their
      finish times at the first choice, whatever else happens to the server. */
  lemma ServedInProportion(cfg: Config, script: seq<Stimulus>, trail: seq<State>, steps: seq<seq<Event>>,
                           policies: seq<Policy>, grants: seq<seq<Grant>>, a: nat, b: nat, i: int, j: int)
    requires Follows(cfg, script, trail, steps) && Scheduled(script, trail, steps, policies, grants)
    requires a <= b <= |steps| && NoSwitch(script, a, b) && policies[a].kind == Wfq && ServedInAll(steps, a, b) > 0
    requires WaitsThroughout(trail, steps, a, b, i) && WaitsThroughout(trail, steps, a, b, j)
    ensures Joined(grants[a..b]) != []
    ensures var first := FirstTimes(policies, grants, a, b);
            && i in first && j in first
            && Served(steps, a, b, i) as real / Weight(i) - Served(steps, a, b, j) as real / Weight(j)
               <= Larger(0.0, 1.0 / Weight(i) - (first[i] - first[j]))
            && (i >= 1 && j >= 1 ==>
                  InProportion(Served(steps, a, b, i), Served(steps, a, b, j), i, j, first[i] - first[j]))
  {
    FollowedIsQuiet(cfg, script, trail, steps);
    SelectionsAreOneRun(script, trail, steps, policies, grants, a, b);
    ServedIsGranted(script, trail, steps, policies, grants, a, b, i);
    ServedIsGranted(script, trail, steps, policies, grants, a, b, j);
    BackloggedThroughout(script, trail, steps, policies, grants, a, b, i);
    BackloggedThroughout(script, trail, steps, policies, grants, a, b, j);
    PairwiseBound(policies[a].times, Joined(grants[a..b]), i, j);
  }

  /** A class that has a request waiting at every choice and is not served: each competitor is
      served within its gap, and all of them together within the sum of their allowances. So a
      class is served before more slots than that are given away. */
  lemma ServedBeforeLong(cfg: Config, script: seq<Stimulus>, trail: seq<State>, steps: seq<seq<Event>>,
                         policies: seq<Policy>, grants: seq<seq<Grant>>, a: nat, b: nat, universe: set<int>, c: int,
                           k: int)
    requires Follows(cfg, script, trail, steps) && Scheduled(script, trail, steps, policies, grants)
    requires a <= b <= |steps| && NoSwitch(script, a, b) && policies[a].kind == Wfq && ServedInAll(steps, a, b) > 0
    requires WaitsThroughout(trail, steps, a, b, c) && OnlyClasses(trail, steps, a, b, universe)
    ensures Joined(grants[a..b]) != []
    ensures var first := FirstTimes(policies, grants, a, b);
            && c in first
            && (Served(steps, a, b, c) == 0 && k in first ==> WithinGap(k, first[k], first[c], Served(steps, a, b, k)))
            && (ServedInAll(steps, a, b) > Allowances(first, universe, c) ==> Served(steps, a, b, c) > 0)
  {
    var all := Joined(grants[a..b]);
    FollowedIsQuiet(cfg, script, trail, steps);
    SelectionsAreOneRun(script, trail, steps, policies, grants, a, b);
    ServedIsGranted(script, trail, steps, policies, grants, a, b, c);
    ServedIsGranted(script, trail, steps, policies, grants, a, b, k);
    BackloggedThroughout(script, trail, steps, policies, grants, a, b, c);
    DrawnThroughout(script, trail, steps, policies, grants, a, b, universe);
    EventuallyGranted(policies[a].times, all, universe, c);
    if Count(all, c) == 0 { StarvationBound(policies[a].times, all, universe, c, k); }
  }

  // ---------------------------------------------------------------- order and switches

  /** Under every policy: whoever is left waiting when a request of its own class is given a slot did
      not arrive before that request, and within a class slots are given in order of arrival. */
  lemma NobodyIsOvertaken(script: seq<Stimulus>, trail: seq<State>, steps: seq<seq<Event>>,
                          policies: seq<Policy>, grants: seq<seq<Grant>>, i: nat)
    requires Scheduled(script, trail, steps, policies, grants) && i < |steps| && !script[i].SwitchPolicy?
    ensures var waiting, chosen := PoolIn(trail[i], steps[i]).waiting, ChosenIn(steps[i]);
            && (forall r, c :: r in waiting && r !in chosen && c in chosen && r.priority == c.priority ==>
                  c.arrival <= r.arrival)
            && (forall k, m :: 0 <= k < m < |chosen| && chosen[k].priority == chosen[m].priority ==>
                  chosen[k].arrival <= chosen[m].arrival)
            && TieOrder(waiting, chosen)
  {
    assert SchedulesAt(script, trail, steps, policies, grants, i);
  }

  /** First come, first served, under that policy; highest priority first, under that one. */
  lemma SortedPoliciesSort(script: seq<Stimulus>, trail: seq<State>, steps: seq<seq<Event>>,
                           policies: seq<Policy>, grants: seq<seq<Grant>>, i: nat, r: Request, c: Request)
    requires Scheduled(script, trail, steps, policies, grants) && i < |steps| && !script[i].SwitchPolicy?
    requires r in PoolIn(trail[i], steps[i]).waiting && r !in ChosenIn(steps[i]) && c in ChosenIn(steps[i])
    ensures policies[i].kind == Fifo ==> c.arrival <= r.arrival
    ensures policies[i].kind == Priority ==>
              c.priority > r.priority || (c.priority == r.priority && c.arrival <= r.arrival)
  {
    assert SchedulesAt(script, trail, steps, policies, grants, i);
  }

  /** Which policy each name puts in force, without history; any other name changes nothing. */
  lemma NamesOfPolicies(script: seq<Stimulus>, trail: seq<State>, steps: seq<seq<Event>>,
                        policies: seq<Policy>, grants: seq<seq<Grant>>, i: nat)
    requires Scheduled(script, trail, steps, policies, grants) && i < |steps| && script[i].SwitchPolicy?
    ensures script[i].name == "fifo" ==> policies[i + 1] == Policy(Fifo, map[])
    ensures script[i].name == "priority" ==> policies[i + 1] == Policy(Priority, map[])
    ensures script[i].name == "wfq" ==> policies[i + 1] == Policy(Wfq, map[])
    ensures script[i].name !in {"fifo", "priority", "wfq"} ==> policies[i + 1] == policies[i]
  {
    assert SchedulesAt(script, trail, steps, policies, grants, i);
  }
}
