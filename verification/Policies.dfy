/** The scheduling policies behind one switch (tinyserve/scheduler/base.py, fifo.py,
    priority.py and ActivePolicy in tinyserve/api/app.py). */
module Policies {
  import opened Requests
  import opened Fairness
  import opened WfqPolicy

  datatype Kind = Fifo | Priority | Wfq

  /** The sort keys: arrival, or higher priority first and then arrival. */
  predicate Precedes(kind: Kind, a: Request, b: Request)
  {
    if kind.Fifo? then a.arrival < b.arrival
    else a.priority > b.priority || (a.priority == b.priority && a.arrival < b.arrival)
  }

  /** A stable sort by key. */
  function Ordered(kind: Kind, pool: seq<Request>): (ordered: seq<Request>)
  {
    if pool == [] then [] else Place(kind, Ordered(kind, pool[..|pool| - 1]), pool[|pool| - 1])
  }

  function Place(kind: Kind, ordered: seq<Request>, r: Request): (more: seq<Request>)
  {
    if ordered == [] || !Precedes(kind, r, ordered[|ordered| - 1]) then ordered + [r]
    else Place(kind, ordered[..|ordered| - 1], r) + [ordered[|ordered| - 1]]
  }

  ghost predicate InOrder(kind: Kind, s: seq<Request>)
  {
    forall i, j :: 0 <= i < j < |s| ==> !Precedes(kind, s[j], s[i])
  }

  lemma {:induction false} PlaceMembers(kind: Kind, ordered: seq<Request>, r: Request, x: Request)
    ensures x in Place(kind, ordered, r) <==> x in ordered || x == r
  {
    if !(ordered == [] || !Precedes(kind, r, ordered[|ordered| - 1])) {
      var init, last := ordered[..|ordered| - 1], ordered[|ordered| - 1];
      PlaceMembers(kind, init, r, x);
      InSnoc(init, last, x);
      assert ordered == init + [last];
      InSnoc(Place(kind, init, r), last, x);
    }
  }

  lemma InSnoc(s: seq<Request>, last: Request, x: Request)
    ensures x in s + [last] <==> x in s || x == last
  {
  }

  lemma {:induction false} PlaceLength(kind: Kind, ordered: seq<Request>, r: Request)
    ensures |Place(kind, ordered, r)| == |ordered| + 1
  {
    if !(ordered == [] || !Precedes(kind, r, ordered[|ordered| - 1])) {
      PlaceLength(kind, ordered[..|ordered| - 1], r);
    }
  }

  ghost predicate Bounds(kind: Kind, front: seq<Request>, last: Request)
  {
    forall i :: 0 <= i < |front| ==> !Precedes(kind, last, front[i])
  }

  lemma OneBehind(kind: Kind, front: seq<Request>, last: Request)
    requires InOrder(kind, front) && Bounds(kind, front, last)
    ensures InOrder(kind, front + [last])
  {
  }

  lemma {:induction false} PlaceInOrder(kind: Kind, ordered: seq<Request>, r: Request)
    requires InOrder(kind, ordered)
    ensures InOrder(kind, Place(kind, ordered, r))
  {
    if ordered == [] {
    } else if Precedes(kind, r, ordered[|ordered| - 1]) {
      var n := |ordered| - 1;
      PlaceInOrder(kind, ordered[..n], r);
      var front, last := Place(kind, ordered[..n], r), ordered[n];
      forall i | 0 <= i < |front| ensures !Precedes(kind, last, front[i]) {
        PlaceMembers(kind, ordered[..n], r, front[i]);
      }
      OneBehind(kind, front, last);
    } else {
      BehindLast(kind, ordered, r);
      OneBehind(kind, ordered, r);
    }
  }

  lemma BehindLast(kind: Kind, ordered: seq<Request>, r: Request)
    requires ordered != [] && InOrder(kind, ordered) && !Precedes(kind, r, ordered[|ordered| - 1])
    ensures Bounds(kind, ordered, r)
  {
    forall i | 0 <= i < |ordered| ensures !Precedes(kind, r, ordered[i]) {
      assert i < |ordered| - 1 ==> !Precedes(kind, ordered[|ordered| - 1], ordered[i]);
    }
  }

  lemma {:induction false} PlaceDistinct(kind: Kind, ordered: seq<Request>, r: Request)
    requires DistinctIds(ordered) && forall i :: 0 <= i < |ordered| ==> ordered[i].id != r.id
    ensures DistinctIds(Place(kind, ordered, r))
  {
    if !(ordered == [] || !Precedes(kind, r, ordered[|ordered| - 1])) {
      var n := |ordered| - 1;
      PlaceDistinct(kind, ordered[..n], r);
      var front := Place(kind, ordered[..n], r);
      forall i | 0 <= i < |front| ensures front[i].id != ordered[n].id {
        PlaceMembers(kind, ordered[..n], r, front[i]);
      }
    }
  }

  lemma {:induction false} OrderedMembers(kind: Kind, pool: seq<Request>, x: Request)
    ensures x in Ordered(kind, pool) <==> x in pool
  {
    if pool != [] {
      var init, last := pool[..|pool| - 1], pool[|pool| - 1];
      OrderedMembers(kind, init, x);
      PlaceMembers(kind, Ordered(kind, init), last, x);
      assert pool == init + [last];
      InSnoc(init, last, x);
    }
  }

  lemma {:induction false} OrderedLength(kind: Kind, pool: seq<Request>)
    ensures |Ordered(kind, pool)| == |pool|
  {
    if pool != [] {
      OrderedLength(kind, pool[..|pool| - 1]);
      PlaceLength(kind, Ordered(kind, pool[..|pool| - 1]), pool[|pool| - 1]);
    }
  }

  /** Ordering keeps the ids apart and puts nobody behind somebody he precedes. */
  lemma {:induction false} OrderedSorts(kind: Kind, pool: seq<Request>)
    requires DistinctIds(pool)
    ensures DistinctIds(Ordered(kind, pool)) && InOrder(kind, Ordered(kind, pool))
  {
    if pool != [] {
      var n := |pool| - 1;
      OrderedSorts(kind, pool[..n]);
      var front := Ordered(kind, pool[..n]);
      forall i | 0 <= i < |front| ensures front[i].id != pool[n].id {
        OrderedMembers(kind, pool[..n], front[i]);
      }
      PlaceDistinct(kind, front, pool[n]);
      PlaceInOrder(kind, front, pool[n]);
    }
  }

  /** The first of the sorted pool: a selection, in order, that passes nobody over. */
  lemma SlicedSelection(kind: Kind, pool: seq<Request>, capacity: nat)
    requires DistinctIds(pool)
    ensures var n := if capacity < |pool| then capacity else |pool|;
            && |Ordered(kind, pool)| == |pool|
            && IsSelection(pool, capacity, Ordered(kind, pool)[..n]) && InOrder(kind, Ordered(kind, pool)[..n])
            && PassesNobody(kind, pool, Ordered(kind, pool)[..n])
  {
    var n := if capacity < |pool| then capacity else |pool|;
    var ordered := Ordered(kind, pool);
    OrderedSorts(kind, pool);
    forall r ensures r in ordered <==> r in pool {
      OrderedMembers(kind, pool, r);
    }
    OrderedLength(kind, pool);
    var chosen := ordered[..n];
    forall r, c | r in pool && r !in chosen && c in chosen ensures !Precedes(kind, r, c) {
      Passed(kind, ordered, n, r, c);
    }
  }

  // ---------------------------------------------------------------- stability

  lemma {:induction false} PlaceKeepsAhead(kind: Kind, ordered: seq<Request>, r: Request, x: Request, y: Request)
    requires Ahead(ordered, x, y)
    ensures Ahead(Place(kind, ordered, r), x, y)
  {
    if ordered == [] || !Precedes(kind, r, ordered[|ordered| - 1]) {
      AheadMore(ordered, r, x, y);
    } else {
      var n := |ordered| - 1;
      var i, j :| 0 <= i < j < |ordered| && ordered[i] == x && ordered[j] == y;
      var init := ordered[..n];
      assert init[i] == x;
      if j < n {
        assert init[j] == y;
        PlaceKeepsAhead(kind, init, r, x, y);
        AheadMore(Place(kind, init, r), ordered[n], x, y);
      } else {
        PlaceMembers(kind, init, r, x);
        AheadOfLast(Place(kind, init, r), ordered[n], x);
      }
    }
  }

  /** A request is placed behind everybody it does not precede. */
  lemma {:induction false} PlaceBehind(kind: Kind, ordered: seq<Request>, r: Request, x: Request)
    requires x in ordered && !Precedes(kind, r, x)
    ensures Ahead(Place(kind, ordered, r), x, r)
  {
    if !Precedes(kind, r, ordered[|ordered| - 1]) {
      AheadOfLast(ordered, r, x);
    } else {
      var n := |ordered| - 1;
      assert ordered == ordered[..n] + [ordered[n]];
      InSnoc(ordered[..n], ordered[n], x);
      PlaceBehind(kind, ordered[..n], r, x);
      AheadMore(Place(kind, ordered[..n], r), ordered[n], x, r);
    }
  }

  /** The sort is stable. */
  lemma {:induction false} OrderedIsStable(kind: Kind, pool: seq<Request>, x: Request, y: Request)
    requires Ahead(pool, x, y) && !Precedes(kind, y, x)
    ensures Ahead(Ordered(kind, pool), x, y)
  {
    var init, last := pool[..|pool| - 1], pool[|pool| - 1];
    AheadInSnoc(pool, x, y);
    if Ahead(init, x, y) {
      OrderedIsStable(kind, init, x, y);
      PlaceKeepsAhead(kind, Ordered(kind, init), last, x, y);
    } else {
      OrderedMembers(kind, init, x);
      PlaceBehind(kind, Ordered(kind, init), last, x);
    }
  }

  lemma AheadInSnoc(pool: seq<Request>, x: Request, y: Request)
    requires Ahead(pool, x, y)
    ensures var init := pool[..|pool| - 1]; Ahead(init, x, y) || (x in init && y == pool[|pool| - 1])
  {
    var init := pool[..|pool| - 1];
    var i, j :| 0 <= i < j < |pool| && pool[i] == x && pool[j] == y;
    assert init[i] == x;
    assert j < |pool| - 1 ==> init[j] == y;
  }

  lemma SlicedTies(kind: Kind, pool: seq<Request>, n: nat)
    requires DistinctIds(pool) && n <= |Ordered(kind, pool)|
    ensures TieOrder(pool, Ordered(kind, pool)[..n])
  {
    var ordered := Ordered(kind, pool);
    OrderedSorts(kind, pool);
    forall r, c {:trigger Ahead(pool, r, c)} |
      Ahead(pool, r, c) && r.priority == c.priority && r.arrival == c.arrival && c in ordered[..n]
      ensures Ahead(ordered[..n], r, c)
    {
      OrderedIsStable(kind, pool, r, c);
      AheadInSlice(ordered, n, r, c);
    }
  }

  lemma AheadInSlice(ordered: seq<Request>, n: nat, r: Request, c: Request)
    requires DistinctIds(ordered) && n <= |ordered| && Ahead(ordered, r, c) && c in ordered[..n]
    ensures Ahead(ordered[..n], r, c)
  {
    var i, j :| 0 <= i < j < |ordered| && ordered[i] == r && ordered[j] == c;
    var k :| 0 <= k < n && ordered[..n][k] == c;
    assert ordered[k] == c && k == j;
    assert ordered[..n][i] == r;
  }

  lemma Passed(kind: Kind, ordered: seq<Request>, n: nat, r: Request, c: Request)
    requires InOrder(kind, ordered) && n <= |ordered|
    requires r in ordered && r !in ordered[..n] && c in ordered[..n]
    ensures !Precedes(kind, r, c)
  {
    assert ordered == ordered[..n] + ordered[n..];
    var j :| 0 <= j < |ordered[n..]| && ordered[n..][j] == r;
    var i :| 0 <= i < n && ordered[..n][i] == c;
    assert ordered[n + j] == r && ordered[i] == c;
  }

  /** The policy in force as a value: which one, and the finish times it has kept so far. */
  datatype Policy = Policy(kind: Kind, times: Times)

  predicate Known(name: string) { name in {"fifo", "priority", "wfq"} }

  /** A known name starts its policy afresh; an unknown one leaves the policy in force. */
  function Switched(p: Policy, name: string): (p': Policy)
  {
    if name == "fifo" then Policy(Fifo, map[])
    else if name == "priority" then Policy(Priority, map[])
    else if name == "wfq" then Policy(Wfq, map[])
    else p
  }

  /** What a policy may choose, and what that makes of it: for the sorting policies the first in
      key order, passing nobody over, and no trace; for weighted fair queuing a run of fair
      grants that explains every choice, and the finish times at its end. */
  ghost predicate Chose(p: Policy, waiting: seq<Request>, capacity: nat, chosen: seq<Request>, grants: seq<Grant>,
                        p': Policy)
  {
    && IsSelection(waiting, capacity, chosen)
    && (p.kind == Wfq ==>
          && Explains(p.times, waiting, chosen, grants) && Run(p.times, grants)
          && p' == Policy(Wfq, End(p.times, grants)))
    && (p.kind != Wfq ==> grants == [] && p' == p)
    && (p.kind == Fifo ==> FirstCome(waiting, chosen))
    && (p.kind == Priority ==> HighestFirst(waiting, chosen))
    && ArrivalOrder(waiting, chosen) && TieOrder(waiting, chosen)
  }

  /** Earlier arrivals first, among the chosen and before whoever is left waiting. */
  ghost predicate FirstCome(waiting: seq<Request>, chosen: seq<Request>)
  {
    && (forall i, j :: 0 <= i < j < |chosen| ==> chosen[i].arrival <= chosen[j].arrival)
    && (forall r, c :: r in waiting && r !in chosen && c in chosen ==> c.arrival <= r.arrival)
  }

  /** Higher priorities first, and earlier arrivals within a priority. */
  ghost predicate HighestFirst(waiting: seq<Request>, chosen: seq<Request>)
  {
    && (forall i, j :: 0 <= i < j < |chosen| ==>
          && chosen[i].priority >= chosen[j].priority
          && (chosen[i].priority == chosen[j].priority ==> chosen[i].arrival <= chosen[j].arrival))
    && (forall r, c :: r in waiting && r !in chosen && c in chosen ==>
          && c.priority >= r.priority
          && (c.priority == r.priority ==> c.arrival <= r.arrival))
  }

  lemma SortedOrder(kind: Kind, waiting: seq<Request>, chosen: seq<Request>)
    requires InOrder(kind, chosen) && PassesNobody(kind, waiting, chosen) && kind != Wfq
    ensures kind == Fifo ==> FirstCome(waiting, chosen)
    ensures kind == Priority ==> HighestFirst(waiting, chosen)
    ensures ArrivalOrder(waiting, chosen)
  {
    assert forall i, j :: 0 <= i < j < |chosen| ==> !Precedes(kind, chosen[j], chosen[i]);
    assert forall r, c :: r in waiting && r !in chosen && c in chosen ==> !Precedes(kind, r, c);
  }

  ghost predicate PassesNobody(kind: Kind, waiting: seq<Request>, chosen: seq<Request>)
  {
    forall r, c :: r in waiting && r !in chosen && c in chosen ==> !Precedes(kind, r, c)
  }

  /** Choosing nobody, because no slot is free or nobody waits. */
  lemma ChoseNobody(p: Policy, waiting: seq<Request>, capacity: nat)
    requires capacity == 0 || waiting == []
    ensures Chose(p, waiting, capacity, [], [], p)
  {
  }

  class ActivePolicy {
    var kind: Kind
    var wfq: WFQPolicy

    ghost function View(): (p: Policy)
      reads this, wfq.fairness
    {
      Policy(kind, wfq.fairness.virtualFinish)
    }

    constructor (kind: Kind)
      ensures View() == Policy(kind, map[]) && fresh(wfq) && fresh(wfq.fairness)
    {
      this.kind := kind;
      wfq := new WFQPolicy();
    }

    method Set(name: string) returns (known: bool)
      modifies this
      ensures known == Known(name) && View() == Switched(old(View()), name)
      ensures name == "fifo" ==> View() == Policy(Fifo, map[])
      ensures name == "priority" ==> View() == Policy(Priority, map[])
      ensures name == "wfq" ==> View() == Policy(Wfq, map[])
      ensures name !in {"fifo", "priority", "wfq"} ==> !known && View() == old(View())
      ensures if known then fresh(wfq) && fresh(wfq.fairness) else wfq == old(wfq)
    {
      if name !in {"fifo", "priority", "wfq"} {
        return false;
      }
      kind := if name == "fifo" then Fifo else if name == "priority" then Priority else Wfq;
      wfq := new WFQPolicy();
      known := true;
    }

    method Select(waiting: seq<Request>, capacity: nat) returns (chosen: seq<Request>, ghost grants: seq<Grant>)
      requires DistinctIds(waiting)
      modifies wfq.fairness
      ensures Chose(old(View()), waiting, capacity, chosen, grants, View())
    {
      grants := [];
      if kind == Wfq {
        chosen, grants := wfq.Select(waiting, capacity);
      } else {
        SlicedSelection(kind, waiting, capacity);
        chosen := Ordered(kind, waiting)[..if capacity < |waiting| then capacity else |waiting|];
        SortedOrder(kind, waiting, chosen);
        SlicedTies(kind, waiting, |chosen|);
      }
    }
  }
}
