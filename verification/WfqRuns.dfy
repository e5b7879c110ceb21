/** One policy object over a whole sequence of calls: the grants of all its selections are one run,
    so the bounds hold across calls. */
module WfqRuns {
  import opened Requests
  import opened Fairness
  import opened WfqPolicy
  import opened WfqBounds

  ghost function Joined(parts: seq<seq<Grant>>): (grants: seq<Grant>)
  {
    if parts == [] then [] else Joined(parts[..|parts| - 1]) + parts[|parts| - 1]
  }

  /** The i-th call: as many of its pool as it may, chosen from the finish times the earlier
      calls left. */
  ghost predicate CallAt(start: Times, pools: seq<seq<Request>>, capacities: seq<nat>, chosen: seq<seq<Request>>,
                         parts: seq<seq<Grant>>, i: int)
    requires 0 <= i < |chosen| == |parts| && |parts| <= |pools| == |capacities|
  {
    && IsSelection(pools[i], capacities[i], chosen[i])
    && Run(start, Joined(parts[..i]))
    && Explains(End(start, Joined(parts[..i])), pools[i], chosen[i], parts[i])
  }

  ghost predicate Calls(start: Times, pools: seq<seq<Request>>, capacities: seq<nat>, chosen: seq<seq<Request>>,
                        parts: seq<seq<Grant>>)
    requires |pools| == |capacities|
  {
    && |chosen| == |parts| <= |pools|
    && forall i {:trigger CallAt(start, pools, capacities, chosen, parts, i)} :: 0 <= i < |parts| ==>
      CallAt(start, pools, capacities, chosen, parts, i)
  }

  lemma CallsOn(start: Times, pools: seq<seq<Request>>, capacities: seq<nat>, chosen: seq<seq<Request>>,
                parts: seq<seq<Grant>>,
                more: seq<Request>, part: seq<Grant>)
    requires |pools| == |capacities| && Calls(start, pools, capacities, chosen, parts) && |parts| < |pools|
    requires IsSelection(pools[|parts|], capacities[|parts|], more) && Run(start, Joined(parts))
    requires Explains(End(start, Joined(parts)), pools[|parts|], more, part)
    ensures Calls(start, pools, capacities, chosen + [more], parts + [part])
  {
    var chosen', parts' := chosen + [more], parts + [part];
    forall i {:trigger CallAt(start, pools, capacities, chosen', parts', i)} | 0 <= i < |parts'|
      ensures CallAt(start, pools, capacities, chosen', parts', i) {
      assert parts'[..i] == parts[..i];
      if i < |parts| {
        assert CallAt(start, pools, capacities, chosen, parts, i);
      } else {
        assert parts[..i] == parts;
      }
    }
  }

  lemma RunOn(start: Times, parts: seq<seq<Grant>>, part: seq<Grant>)
    requires Run(start, Joined(parts)) && Run(End(start, Joined(parts)), part)
    ensures Run(start, Joined(parts + [part])) && End(start, Joined(parts + [part])) ==
            End(End(start, Joined(parts)), part)
  {
    assert (parts + [part])[..|parts|] == parts;
    RunsCompose(start, Joined(parts), part);
  }

  /** Two classes that both wait at every one of these selections. */
  ghost predicate Share(start: Times, grants: seq<Grant>, i: int, j: int)
    requires grants != []
  {
    var first := Adopt(start, grants[0].backlog);
    Backlogged(grants, i) && Backlogged(grants, j) ==>
      && i in first && j in first
      && Count(grants, i) as real / Weight(i) - Count(grants, j) as real / Weight(j) <=
        Larger(0.0, 1.0 / Weight(i) - (first[i] - first[j]))
      && (i >= 1 && j >= 1 ==> InProportion(Count(grants, i), Count(grants, j), i, j, first[i] - first[j]))
  }

  lemma AllShare(start: Times, grants: seq<Grant>)
    requires Run(start, grants) && grants != []
    ensures forall i, j :: Share(start, grants, i, j)
  {
    forall i, j ensures Share(start, grants, i, j) {
      if Backlogged(grants, i) && Backlogged(grants, j) { PairwiseBound(start, grants, i, j); }
    }
  }

  /** Any sequence of calls on one policy object. */
  method SelectEach(policy: WFQPolicy, pools: seq<seq<Request>>, capacities: seq<nat>)
    returns (chosen: seq<seq<Request>>, ghost parts: seq<seq<Grant>>)
    requires |pools| == |capacities| && forall i :: 0 <= i < |pools| ==> DistinctIds(pools[i])
    modifies policy.fairness
    ensures |chosen| == |parts| == |pools| && Calls(old(policy.fairness.virtualFinish), pools, capacities, chosen,
                                                    parts)
    ensures Run(old(policy.fairness.virtualFinish), Joined(parts))
    ensures policy.fairness.virtualFinish == End(old(policy.fairness.virtualFinish), Joined(parts))
    ensures Joined(parts) != [] ==> forall i, j :: Share(old(policy.fairness.virtualFinish), Joined(parts), i, j)
  {
    ghost var start := policy.fairness.virtualFinish;
    chosen, parts := [], [];
    for n := 0 to |pools|
      invariant |chosen| == |parts| == n && Calls(start, pools, capacities, chosen, parts)
      invariant Run(start, Joined(parts)) && policy.fairness.virtualFinish == End(start, Joined(parts))
    {
      var more;
      ghost var part;
      more, part := policy.Select(pools[n], capacities[n]);
      CallsOn(start, pools, capacities, chosen, parts, more, part);
      RunOn(start, parts, part);
      chosen, parts := chosen + [more], parts + [part];
    }
    if Joined(parts) != [] { AllShare(start, Joined(parts)); }
  }
}
