/** tinyserve/scheduler/wfq.py: selection by least virtual finish time. */
module WfqPolicy {
  import opened Requests
  import opened Fairness

  function Classes(pool: seq<Request>): (classes: set<int>)
    ensures forall c :: c in classes <==> exists i :: 0 <= i < |pool| && pool[i].priority == c
  {
    set i | 0 <= i < |pool| :: pool[i].priority
  }

  lemma FewerClasses(pool: seq<Request>, i: nat)
    requires i < |pool|
    ensures Classes(pool[..i]) <= Classes(pool) && pool[i].priority in Classes(pool)
  {
    forall c | c in Classes(pool[..i]) ensures c in Classes(pool) {
      var j :| 0 <= j < i && pool[..i][j].priority == c;
      assert pool[j].priority == c;
    }
  }

  lemma OneMoreClass(pool: seq<Request>, i: nat)
    requires i < |pool|
    ensures Classes(pool[..i + 1]) == Classes(pool[..i]) + {pool[i].priority}
  {
    var more := pool[..i + 1];
    assert more == pool[..i] + [pool[i]];
    forall c ensures c in Classes(more) <==> c in Classes(pool[..i]) || c == pool[i].priority {
      if c in Classes(pool[..i]) {
        var j :| 0 <= j < i && pool[..i][j].priority == c;
        assert more[j].priority == c;
      }
      if c in Classes(more) {
        var j :| 0 <= j < |more| && more[j].priority == c;
        assert j < i ==> pool[..i][j].priority == c;
      }
      assert more[i].priority == pool[i].priority;
    }
  }

  /** Among the first n requests of the pool, the first one of least finish time and, among those,
      of earliest arrival. */
  ghost predicate IsBest(times: Times, pool: seq<Request>, n: nat, b: nat)
    requires n <= |pool| && forall i :: 0 <= i < |pool| ==> pool[i].priority in times
  {
    && b < n
    && (forall i :: 0 <= i < n ==> times[pool[b].priority] <= times[pool[i].priority])
    && (forall i :: 0 <= i < n && times[pool[i].priority] == times[pool[b].priority] ==>
          pool[b].arrival <= pool[i].arrival)
    && (forall i :: 0 <= i < b && times[pool[i].priority] == times[pool[b].priority] ==>
          pool[b].arrival < pool[i].arrival)
  }

  lemma NextBest(times: Times, pool: seq<Request>, n: nat, b: nat)
    requires n < |pool| && forall i :: 0 <= i < |pool| ==> pool[i].priority in times
    requires n > 0 ==> IsBest(times, pool, n, b)
    ensures var better := n == 0 || times[pool[n].priority] < times[pool[b].priority]
                          || (times[pool[n].priority] == times[pool[b].priority] && pool[n].arrival < pool[b].arrival);
            IsBest(times, pool, n + 1, if better then n else b)
  {
  }

  // ---------------------------------------------------------------- grants

  /** One selection: which classes were waiting and which of them got the slot. */
  datatype Grant = Grant(backlog: set<int>, cls: int)

  /** A class may be granted when no backlogged class has a smaller finish time. */
  ghost predicate Fair(times: Times, g: Grant)
  {
    g.cls in g.backlog && forall d :: d in g.backlog ==> Adopt(times, g.backlog)[g.cls] <= Adopt(times, g.backlog)[d]
  }

  ghost function Granted(times: Times, g: Grant): (r: Times)
    requires g.cls in g.backlog
    ensures r.Keys == times.Keys + g.backlog
  {
    var a := Adopt(times, g.backlog);
    a[g.cls := a[g.cls] + Cost(g.cls)]
  }

  /** A run of selections, each made on whatever was waiting at the time. */
  ghost predicate Run(times: Times, grants: seq<Grant>)
    decreases |grants|
  {
    grants == [] || (Fair(times, grants[0]) && Run(Granted(times, grants[0]), grants[1..]))
  }

  ghost function End(times: Times, grants: seq<Grant>): (r: Times)
    requires Run(times, grants)
    decreases |grants|
  {
    if grants == [] then times else End(Granted(times, grants[0]), grants[1..])
  }

  lemma {:induction false} RunsCompose(times: Times, a: seq<Grant>, b: seq<Grant>)
    requires Run(times, a)
    ensures Run(times, a + b) <==> Run(End(times, a), b)
    ensures Run(times, a + b) ==> End(times, a + b) == End(End(times, a), b)
    decreases |a|
  {
    if a == [] {
      assert a + b == b;
    } else {
      assert (a + b)[1..] == a[1..] + b;
      RunsCompose(Granted(times, a[0]), a[1..], b);
    }
  }

  /** The finish times before the i-th selection. */
  ghost function TimesAt(times: Times, grants: seq<Grant>, i: nat): (r: Times)
    requires i <= |grants|
  {
    if i == 0 then times
    else
      var before, g := TimesAt(times, grants, i - 1), grants[i - 1];
      if g.cls in g.backlog then Granted(before, g) else before
  }

  lemma {:induction false} TimesAtLater(times: Times, grants: seq<Grant>, i: nat)
    requires 1 <= i <= |grants| && grants[0].cls in grants[0].backlog
    ensures TimesAt(times, grants, i) == TimesAt(Granted(times, grants[0]), grants[1..], i - 1)
  {
    if i > 1 { TimesAtLater(times, grants, i - 1); }
  }

  lemma {:induction false} TimesAtEnd(times: Times, grants: seq<Grant>)
    requires Run(times, grants)
    ensures TimesAt(times, grants, |grants|) == End(times, grants)
    decreases |grants|
  {
    if grants != [] {
      TimesAtLater(times, grants, |grants|);
      TimesAtEnd(Granted(times, grants[0]), grants[1..]);
    }
  }

  lemma {:induction false} TimesAtPrefix(times: Times, a: seq<Grant>, b: seq<Grant>, i: nat)
    requires i <= |a|
    ensures TimesAt(times, a + b, i) == TimesAt(times, a, i)
  {
    if i > 0 { TimesAtPrefix(times, a, b, i - 1); }
  }

  // ---------------------------------------------------------------- the policy

  class WFQPolicy {
    const fairness: WeightedFairQueue

    constructor ()
      ensures fresh(fairness) && fairness.virtualFinish == map[]
    {
      fairness := new WeightedFairQueue();
    }

    /** Looking at a class registers it if it is new. */
    method FinishOf(c: int, backlog: set<int>, ghost start: Times, ghost seen: set<int>) returns (time: real)
      requires seen <= backlog && c in backlog && fairness.virtualFinish == AdoptSome(start, backlog, seen)
      modifies fairness
      ensures fairness.virtualFinish == AdoptSome(start, backlog, seen + {c}) && time == Adopt(start, backlog)[c]
    {
      OneMore(start, backlog, seen, c);
      time := fairness.VirtualFinishTime(c, backlog);
    }

    /** min(pool, key = (virtual finish time, arrival)): looks at every request in turn,
        registering newcomer classes on the way. */
    method Best(pool: seq<Request>, backlog: set<int>) returns (b: nat)
      requires pool != [] && backlog == Classes(pool)
      modifies fairness
      ensures fairness.virtualFinish == Adopt(old(fairness.virtualFinish), backlog)
      ensures forall i :: 0 <= i < |pool| ==> pool[i].priority in fairness.virtualFinish
      ensures IsBest(fairness.virtualFinish, pool, |pool|, b)
    {
      ghost var start, seen := fairness.virtualFinish, {};
      ghost var times := Adopt(start, backlog);
      assert start == AdoptSome(start, backlog, {});
      var bestTime, bestArrival := 0.0, 0.0;
      b := 0;
      for i := 0 to |pool|
        invariant seen == Classes(pool[..i])
        invariant fairness.virtualFinish == AdoptSome(start, backlog, seen)
        invariant i > 0 ==> IsBest(times, pool, i, b)
        invariant i > 0 ==> bestTime == times[pool[b].priority] && bestArrival == pool[b].arrival
      {
        var r := pool[i];
        FewerClasses(pool, i);
        var time := FinishOf(r.priority, backlog, start, seen);
        OneMoreClass(pool, i);
        seen := seen + {r.priority};
        NextBest(times, pool, i, b);
        if i == 0 || time < bestTime || (time == bestTime && r.arrival < bestArrival) {
          b, bestTime, bestArrival := i, time, r.arrival;
        }
      }
      assert pool[..|pool|] == pool;
    }

    /** One selection: the best request, and the charge to its class. */
    method SelectOne(pool: seq<Request>) returns (b: nat, ghost g: Grant)
      requires pool != []
      modifies fairness
      ensures b < |pool| && g == Grant(Classes(pool), pool[b].priority)
      ensures (forall i :: 0 <= i < |pool| ==> pool[i].priority in Adopt(old(fairness.virtualFinish), g.backlog))
      ensures IsBest(Adopt(old(fairness.virtualFinish), g.backlog), pool, |pool|, b)
      ensures Fair(old(fairness.virtualFinish), g)
      ensures fairness.virtualFinish == Granted(old(fairness.virtualFinish), g)
    {
      var backlogged := Classes(pool);
      b := Best(pool, backlogged);
      g := Grant(backlogged, pool[b].priority);
      BestIsFair(old(fairness.virtualFinish), pool, b);
      fairness.Charge(pool[b].priority, backlogged);
    }

    /** Up to `capacity` requests, each from the backlogged class that is furthest behind. */
    method Select(waiting: seq<Request>, capacity: nat) returns (chosen: seq<Request>, ghost grants: seq<Grant>)
      requires DistinctIds(waiting)
      modifies fairness
      ensures IsSelection(waiting, capacity, chosen)
      ensures Explains(old(fairness.virtualFinish), waiting, chosen, grants)
      ensures ArrivalOrder(waiting, chosen) && TieOrder(waiting, chosen)
      ensures Run(old(fairness.virtualFinish), grants)
      ensures fairness.virtualFinish == End(old(fairness.virtualFinish), grants)
    {
      ghost var start := fairness.virtualFinish;
      var pool := waiting;
      chosen, grants := [], [];
      var n := if capacity < |pool| then capacity else |pool|;
      for k := 0 to n
        invariant |chosen| == k && Split(waiting, chosen, pool)
        invariant TieOrder(waiting, chosen) && KeepsOrder(waiting, pool)
        invariant Explains(start, waiting, chosen, grants)
        invariant Run(start, grants) && fairness.virtualFinish == End(start, grants)
      {
        var b;
        ghost var g;
        b, g := SelectOne(pool);
        OneMoreGrant(start, grants, g);
        TieTaken(waiting, chosen, pool, b, Adopt(End(start, grants), Classes(pool)));
        TakeOut(waiting, chosen, pool, b);
        ExplainMore(start, waiting, chosen, pool, grants, b);
        chosen, pool, grants := chosen + [pool[b]], pool[..b] + pool[b + 1..], grants + [g];
      }
      ExplainedInOrder(start, waiting, capacity, chosen, grants);
    }
  }

  /** The pool is what is waiting and has not been chosen. */
  ghost predicate Split(waiting: seq<Request>, chosen: seq<Request>, pool: seq<Request>)
  {
    && |chosen| + |pool| == |waiting|
    && DistinctIds(chosen) && DistinctIds(pool)
    && (forall r :: r in chosen ==> r in waiting && r !in pool)
    && (forall r :: r in pool ==> r in waiting)
    && (forall r, q :: r in chosen && q in pool ==> r.id != q.id)
    && (forall r :: r in waiting ==> r in chosen || r in pool)
  }

  /** The choice was made among what the earlier ones, `taken`, left: its grant names the
      classes of those requests, and of all the requests whose class has the same finish time
      it is the earliest arrival. */
  ghost predicate ExplainsAt(times: Times, waiting: seq<Request>, taken: seq<Request>, choice: Request, g: Grant)
  {
    && g.cls == choice.priority && g.cls in g.backlog
    && (forall c :: c in g.backlog <==> exists r :: r in waiting && r !in taken && r.priority == c)
    && (forall r :: r in waiting && r !in taken && r.priority in g.backlog ==>
          var finish := Adopt(times, g.backlog);
          && finish[g.cls] <= finish[r.priority]
          && (finish[r.priority] == finish[g.cls] ==> choice.arrival <= r.arrival))
  }

  /** Within a class the earlier arrival goes first, both among the chosen and before whoever is
      left waiting. */
  ghost predicate ArrivalOrder(waiting: seq<Request>, chosen: seq<Request>)
  {
    && (forall i, j :: 0 <= i < j < |chosen| && chosen[i].priority == chosen[j].priority ==>
          chosen[i].arrival <= chosen[j].arrival)
    && (forall r, c :: r in waiting && r !in chosen && c in chosen && r.priority == c.priority ==>
          c.arrival <= r.arrival)
  }

  lemma EarlierGoesFirst(start: Times, waiting: seq<Request>, chosen: seq<Request>, grants: seq<Grant>, i: nat,
                         r: Request)
    requires Explains(start, waiting, chosen, grants) && i < |chosen|
    requires r in waiting && r !in chosen[..i] && r.priority == chosen[i].priority
    ensures chosen[i].arrival <= r.arrival
  {
    assert ExplainsNth(start, waiting, chosen, grants, i);
  }

  lemma ExplainedInOrder(start: Times, waiting: seq<Request>, capacity: nat, chosen: seq<Request>, grants: seq<Grant>)
    requires Explains(start, waiting, chosen, grants) && IsSelection(waiting, capacity, chosen)
    ensures ArrivalOrder(waiting, chosen)
  {
    forall i, j | 0 <= i < j < |chosen| && chosen[i].priority == chosen[j].priority
      ensures chosen[i].arrival <= chosen[j].arrival
    {
      forall k | 0 <= k < i ensures chosen[..i][k] != chosen[j] {
        assert chosen[k].id != chosen[j].id;
      }
      EarlierGoesFirst(start, waiting, chosen, grants, i, chosen[j]);
    }
    forall r, c | r in waiting && r !in chosen && c in chosen && r.priority == c.priority
      ensures c.arrival <= r.arrival {
      var i :| 0 <= i < |chosen| && chosen[i] == c;
      assert r !in chosen[..i];
      EarlierGoesFirst(start, waiting, chosen, grants, i, r);
    }
  }

  ghost predicate Explains(start: Times, waiting: seq<Request>, chosen: seq<Request>, grants: seq<Grant>)
  {
    |grants| == |chosen| && forall i {:trigger ExplainsNth(start, waiting, chosen, grants, i)} ::
      0 <= i < |chosen| ==> ExplainsNth(start, waiting, chosen, grants, i)
  }

  ghost predicate ExplainsNth(start: Times, waiting: seq<Request>, chosen: seq<Request>, grants: seq<Grant>, i: int)
    requires 0 <= i < |chosen| == |grants|
  {
    ExplainsAt(TimesAt(start, grants, i), waiting, chosen[..i], chosen[i], grants[i])
  }

  lemma BestIsFair(times: Times, pool: seq<Request>, b: nat)
    requires forall i :: 0 <= i < |pool| ==> pool[i].priority in Adopt(times, Classes(pool))
    requires IsBest(Adopt(times, Classes(pool)), pool, |pool|, b)
    ensures Fair(times, Grant(Classes(pool), pool[b].priority))
  {
    var a := Adopt(times, Classes(pool));
    forall d | d in Classes(pool) ensures a[pool[b].priority] <= a[d] {
      var i :| 0 <= i < |pool| && pool[i].priority == d;
      assert a[pool[b].priority] <= a[pool[i].priority];
    }
  }

  lemma OneMoreGrant(start: Times, grants: seq<Grant>, g: Grant)
    requires Run(start, grants) && Fair(End(start, grants), g)
    ensures Run(start, grants + [g]) && End(start, grants + [g]) == Granted(End(start, grants), g)
  {
    RunsCompose(start, grants, [g]);
    assert [g][1..] == [];
  }

  lemma TakeOut(waiting: seq<Request>, chosen: seq<Request>, pool: seq<Request>, b: nat)
    requires Split(waiting, chosen, pool) && b < |pool|
    ensures Split(waiting, chosen + [pool[b]], pool[..b] + pool[b + 1..])
  {
    var pool', chosen' := pool[..b] + pool[b + 1..], chosen + [pool[b]];
    forall r ensures r in pool' <==> r in pool && r != pool[b] {
      InWithout(pool, b, r);
    }
    assert forall r :: r in chosen' <==> r in chosen || r == pool[b];
  }

  /** What is left of the pool is still in its order. */
  ghost predicate KeepsOrder(waiting: seq<Request>, pool: seq<Request>)
  {
    forall r, c {:trigger Ahead(pool, r, c)} :: Ahead(waiting, r, c) && r in pool && c in pool ==> Ahead(pool, r, c)
  }

  lemma TieTaken(waiting: seq<Request>, chosen: seq<Request>, pool: seq<Request>, b: nat, times: Times)
    requires Split(waiting, chosen, pool) && TieOrder(waiting, chosen) && KeepsOrder(waiting, pool)
    requires forall i :: 0 <= i < |pool| ==> pool[i].priority in times
    requires IsBest(times, pool, |pool|, b)
    ensures TieOrder(waiting, chosen + [pool[b]]) && KeepsOrder(waiting, pool[..b] + pool[b + 1..])
  {
    var c', chosen', pool' := pool[b], chosen + [pool[b]], pool[..b] + pool[b + 1..];
    forall r, c {:trigger Ahead(waiting, r, c)} |
      Ahead(waiting, r, c) && r.priority == c.priority && r.arrival == c.arrival && c in chosen'
      ensures Ahead(chosen', r, c)
    {
      if c in chosen {
        AheadMore(chosen, c', r, c);
      } else {
        TieNotLeft(waiting, pool, b, times, r);
        AheadOfLast(chosen, c', r);
      }
    }
    forall r, c {:trigger Ahead(pool', r, c)} | Ahead(waiting, r, c) && r in pool' && c in pool'
      ensures Ahead(pool', r, c) {
      InWithout(pool, b, r);
      InWithout(pool, b, c);
      AheadWithout(pool, b, r, c);
    }
  }

  lemma AheadMore(s: seq<Request>, x: Request, r: Request, c: Request)
    requires Ahead(s, r, c)
    ensures Ahead(s + [x], r, c)
  {
    var i, j :| 0 <= i < j < |s| && s[i] == r && s[j] == c;
    assert (s + [x])[i] == r && (s + [x])[j] == c;
  }

  lemma AheadOfLast(s: seq<Request>, x: Request, r: Request)
    requires r in s
    ensures Ahead(s + [x], r, x)
  {
    var i :| 0 <= i < |s| && s[i] == r;
    assert (s + [x])[i] == r && (s + [x])[|s|] == x;
  }

  lemma AheadWithout(pool: seq<Request>, b: nat, r: Request, c: Request)
    requires b < |pool| && Ahead(pool, r, c) && r != pool[b] && c != pool[b]
    ensures Ahead(pool[..b] + pool[b + 1..], r, c)
  {
    var pool' := pool[..b] + pool[b + 1..];
    var i, j :| 0 <= i < j < |pool| && pool[i] == r && pool[j] == c;
    var i', j' := if i < b then i else i - 1, if j < b then j else j - 1;
    assert pool'[i'] == r && pool'[j'] == c;
  }

  /** Whoever is ahead of the best with the same key has been taken already. */
  lemma TieNotLeft(waiting: seq<Request>, pool: seq<Request>, b: nat, times: Times, r: Request)
    requires DistinctIds(pool) && KeepsOrder(waiting, pool)
    requires forall i :: 0 <= i < |pool| ==> pool[i].priority in times
    requires IsBest(times, pool, |pool|, b)
    requires Ahead(waiting, r, pool[b]) && r.priority == pool[b].priority && r.arrival == pool[b].arrival
    ensures r !in pool
  {
    assert r in pool ==> Ahead(pool, r, pool[b]);
  }

  lemma InWithout(pool: seq<Request>, b: nat, r: Request)
    requires b < |pool| && DistinctIds(pool)
    ensures r in pool[..b] + pool[b + 1..] <==> r in pool && r != pool[b]
  {
    var pool' := pool[..b] + pool[b + 1..];
    if r in pool' {
      var i :| 0 <= i < |pool'| && pool'[i] == r;
      assert r == pool[if i < b then i else i + 1];
    }
    if r in pool && r != pool[b] {
      var i :| 0 <= i < |pool| && pool[i] == r;
      assert r == pool'[if i < b then i else i - 1];
    }
  }

  lemma ExplainMore(start: Times, waiting: seq<Request>, chosen: seq<Request>, pool: seq<Request>, grants: seq<Grant>,
                    b: nat)
    requires Split(waiting, chosen, pool) && Explains(start, waiting, chosen, grants) && Run(start, grants)
    requires forall i :: 0 <= i < |pool| ==> pool[i].priority in Adopt(End(start, grants), Classes(pool))
    requires IsBest(Adopt(End(start, grants), Classes(pool)), pool, |pool|, b)
    ensures Explains(start, waiting, chosen + [pool[b]], grants + [Grant(Classes(pool), pool[b].priority)])
  {
    TimesAtEnd(start, grants);
    LastExplained(End(start, grants), waiting, chosen, pool, b);
    ExplainsOn(start, waiting, chosen, grants, pool[b], Grant(Classes(pool), pool[b].priority));
  }

  lemma ExplainsOn(start: Times, waiting: seq<Request>, chosen: seq<Request>, grants: seq<Grant>, choice: Request,
                   g: Grant)
    requires Explains(start, waiting, chosen, grants)
             && ExplainsAt(TimesAt(start, grants, |grants|), waiting, chosen, choice, g)
    ensures Explains(start, waiting, chosen + [choice], grants + [g])
  {
    var chosen', grants' := chosen + [choice], grants + [g];
    forall i {:trigger ExplainsNth(start, waiting, chosen', grants', i)} | 0 <= i < |chosen'|
      ensures ExplainsNth(start, waiting, chosen', grants', i) {
      TimesAtPrefix(start, grants, [g], i);
      assert chosen'[..i] == chosen[..i];
      if i < |chosen| {
        assert ExplainsNth(start, waiting, chosen, grants, i);
      } else {
        assert chosen[..i] == chosen;
      }
    }
  }

  lemma LastExplained(times: Times, waiting: seq<Request>, chosen: seq<Request>, pool: seq<Request>, b: nat)
    requires Split(waiting, chosen, pool)
    requires forall i :: 0 <= i < |pool| ==> pool[i].priority in Adopt(times, Classes(pool))
    requires IsBest(Adopt(times, Classes(pool)), pool, |pool|, b)
    ensures ExplainsAt(times, waiting, chosen, pool[b], Grant(Classes(pool), pool[b].priority))
  {
    var g, a := Grant(Classes(pool), pool[b].priority), Adopt(times, Classes(pool));
    forall c ensures c in g.backlog <==> exists r :: r in waiting && r !in chosen && r.priority == c {
      if c in g.backlog {
        var i :| 0 <= i < |pool| && pool[i].priority == c;
        assert pool[i] in waiting && pool[i] !in chosen;
      }
      if r :| r in waiting && r !in chosen && r.priority == c {
        var i :| 0 <= i < |pool| && pool[i] == r;
      }
    }
    forall r | r in waiting && r !in chosen && r.priority in g.backlog
      ensures a[g.cls] <= a[r.priority] && (a[r.priority] == a[g.cls] ==> pool[b].arrival <= r.arrival)
    {
      var i :| 0 <= i < |pool| && pool[i] == r;
    }
  }

  lemma OneMore(start: Times, backlog: set<int>, seen: set<int>, c: int)
    requires seen <= backlog && c in backlog
    ensures Touch(AdoptSome(start, backlog, seen), c, backlog) == AdoptSome(start, backlog, seen + {c})
    ensures AdoptSome(start, backlog, seen + {c})[c] == Adopt(start, backlog)[c]
  {
    TouchAdopts(start, backlog, seen, c);
  }
}
