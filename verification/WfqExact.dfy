/** How far the bounds of weighted fair queuing are exact, and what a class that comes back after
    a while gains from its old finish time. */
module WfqExact {
  import opened FiniteSets
  import opened Fairness
  import opened WfqPolicy
  import opened WfqBounds

  /** The same classes wait at every selection. */
  ghost predicate AllWait(grants: seq<Grant>, universe: set<int>)
  {
    forall n :: 0 <= n < |grants| ==> grants[n].backlog == universe
  }

  /** n selections in which class c waits with the others and is not granted. */
  ghost predicate Watches(times: Times, grants: seq<Grant>, universe: set<int>, c: int, n: nat)
  {
    |grants| == n && Run(times, grants) && AllWait(grants, universe) && Count(grants, c) == 0
  }

  lemma {:induction false} LeastOf(times: Times, s: set<int>) returns (m: int)
    requires s != {} && s <= times.Keys
    ensures m in s && forall d :: d in s ==> times[m] <= times[d]
    decreases s
  {
    m := AnyOf(s);
    if s != {m} {
      var rest := s - {m};
      assert s == rest + {m};
      var r := LeastOf(times, rest);
      assert forall d :: d in s ==> d == m || d in rest;
      m := if times[m] <= times[r] then m else r;
    }
  }

  lemma {:induction false} SumPositive(s: set<int>, f: int -> int) returns (k: int)
    requires Sum(s, f) > 0
    ensures k in s && f(k) > 0
    decreases s
  {
    k := AnyOf(s);
    if f(k) <= 0 {
      SumRemove(s, f, k);
      k := SumPositive(s - {k}, f);
    }
  }

  /** With everybody known, granting class m moves only its own allowance, by one. */
  lemma OneAllowanceLess(times: Times, universe: set<int>, c: int, m: int)
    requires universe <= times.Keys && c in universe && m in universe && m != c && times[m] <= times[c]
    ensures Fair(times, Grant(universe, m)) ==>
              var times' := Granted(times, Grant(universe, m));
              && times'[c] == times[c] && universe <= times'.Keys
              && Allowances(times', universe, c) == Allowances(times, universe, c) - 1
  {
    if Fair(times, Grant(universe, m)) {
      var times' := Granted(times, Grant(universe, m));
      var f, f' := k => Allowance(times, universe, times[c], k), k => Allowance(times', universe, times[c], k);
      var others := universe - {c};
      assert Adopt(times, universe) == times;
      forall k | k in others ensures f'(k) == f(k) - if k == m then 1 else 0 {}
      SumRemove(others, f, m);
      SumRemove(others, f', m);
      SumSame(others - {m}, f, f');
      SumSame(others, f, k => Allowance(times, universe, times[c], k));
      SumSame(others, f', k => Allowance(times', universe, times'[c], k));
    }
  }

  /** The bound is met: as long as allowances are left there is a fair selection that does not
      grant c. */
  lemma {:induction false} LongestWait(times: Times, universe: set<int>, c: int, n: nat) returns (grants: seq<Grant>)
    requires universe <= times.Keys && c in universe && n <= Allowances(times, universe, c)
    ensures Watches(times, grants, universe, c, n)
    decreases n
  {
    grants := [];
    if n > 0 {
      var others := universe - {c};
      var f := k => Allowance(times, universe, times[c], k);
      SumSame(others, f, k => Allowance(times, universe, times[c], k));
      var k := SumPositive(others, f);
      var m := LeastOf(times, others);
      var g := Grant(universe, m);
      assert Adopt(times, universe) == times;
      assert Fair(times, g);
      OneAllowanceLess(times, universe, c, m);
      var rest := LongestWait(Granted(times, g), universe, c, n - 1);
      grants := [g] + rest;
      assert grants[1..] == rest;
    }
  }

  /** A selection from which the newcomers have taken their finish times is the same selection. */
  lemma AdoptedRun(times: Times, grants: seq<Grant>, universe: set<int>)
    requires grants != [] && grants[0].backlog == universe
    ensures Run(times, grants) <==> Run(Adopt(times, universe), grants)
  {
    var g, start := grants[0], Adopt(times, universe);
    AdoptTwice(times, universe);
    assert Fair(times, g) <==> Fair(start, g);
    if g.cls in g.backlog {
      assert Granted(times, g) == Granted(start, g);
    }
  }

  lemma AllowancesNotNegative(times: Times, universe: set<int>, c: int)
    requires c in times
    ensures Allowances(times, universe, c) >= 0
  {
    var f := k => Allowance(times, universe, times[c], k);
    SumSame(universe - {c}, f, k => Allowance(times, universe, times[c], k));
    SumSubset({}, universe - {c}, f);
  }

  /** Exactly how long a waiting class can be passed over when the same classes wait all the
      time, newcomers or not: as many selections as its competitors have allowances, counted
      from the finish times of the first selection. */
  lemma StarvationIsExact(times: Times, universe: set<int>, c: int, n: nat)
    requires c in universe
    ensures (exists grants :: Watches(times, grants, universe, c, n)) <==>
              n <= Allowances(Adopt(times, universe), universe, c)
  {
    var start := Adopt(times, universe);
    if n == 0 {
      AllowancesNotNegative(start, universe, c);
      assert Watches(times, [], universe, c, 0);
    } else {
      if grants :| Watches(times, grants, universe, c, n) {
        AdoptedRun(times, grants, universe);
        WaitIsBounded(start, grants, universe, c);
      }
      if n <= Allowances(start, universe, c) {
        var grants := LongestWait(start, universe, c, n);
        AdoptedRun(times, grants, universe);
        assert Watches(times, grants, universe, c, n);
      }
    }
  }

  /** n selections in which class c waits and is not granted, while the others come and go. */
  ghost predicate WatchesAny(times: Times, grants: seq<Grant>, universe: set<int>, c: int, n: nat)
  {
    && |grants| == n && Run(times, grants) && Backlogged(grants, c) && Drawn(grants, universe)
    && Count(grants, c) == 0
  }

  /** Once all classes have a finish time, coming and going makes no difference. */
  lemma StarvationIsExactOnceKnown(times: Times, universe: set<int>, c: int, n: nat)
    requires universe <= times.Keys && c in universe
    ensures (exists grants :: WatchesAny(times, grants, universe, c, n)) <==> n <= Allowances(times, universe, c)
  {
    if grants :| WatchesAny(times, grants, universe, c, n) {
      WaitIsBounded(times, grants, universe, c);
    }
    if n <= Allowances(times, universe, c) {
      var grants := LongestWait(times, universe, c, n);
      assert WatchesAny(times, grants, universe, c, n);
    }
  }

  // ---------------------------------------------------------------- in a row

  /** n selections in a row for class i while class j waits at each of them; whoever else waits
      may change from one to the next. */
  ghost predicate TakesRow(times: Times, grants: seq<Grant>, i: int, j: int, n: nat)
  {
    && |grants| == n && Run(times, grants) && Backlogged(grants, j)
    && forall m :: 0 <= m < n ==> grants[m].cls == i
  }

  /** With both known: before the last of the row, i has not passed j. */
  lemma {:induction false} RowIsBehind(times: Times, grants: seq<Grant>, i: int, j: int, n: nat)
    requires TakesRow(times, grants, i, j, n) && n > 0 && i in times && j in times && i != j
    ensures times[i] + Scaled(n - 1, Cost(i)) <= times[j]
    decreases n
  {
    var g, rest := grants[0], grants[1..];
    assert g.cls == i && j in g.backlog;
    if n > 1 {
      assert forall m :: 0 <= m < n - 1 ==> rest[m] == grants[m + 1];
      RowIsBehind(Granted(times, g), rest, i, j, n - 1);
    }
  }

  /** With both known: as long as i has not passed j, the two of them alone make such a row. */
  lemma {:induction false} RowOfTwo(times: Times, i: int, j: int, n: nat) returns (grants: seq<Grant>)
    requires i in times && j in times && i != j && (n > 0 ==> times[i] + Scaled(n - 1, Cost(i)) <= times[j])
    ensures TakesRow(times, grants, i, j, n) && AllWait(grants, {i, j})
    decreases n
  {
    grants := [];
    if n > 0 {
      var g := Grant({i, j}, i);
      ScaledSign(n - 1, Cost(i));
      assert Adopt(times, {i, j}) == times;
      var rest := RowOfTwo(Granted(times, g), i, j, n - 1);
      grants := [g] + rest;
      assert grants[1..] == rest;
    }
  }

  /** Where class i can start from: its own finish time, or that of any known class if it is a
      newcomer and comes while that class waits. */
  ghost predicate StartsAt(times: Times, i: int, k: int)
  {
    k in times && (i in times ==> k == i)
  }

  /** Class i can take n selections in a row from a waiting class j: none is always possible; one
      if j is a newcomer too or i starts no later than j; more exactly if some start of i leaves
      room for all but the last before j. */
  ghost predicate CanTakeRow(times: Times, i: int, j: int, n: nat)
  {
    || n == 0
    || (n == 1 && j !in times)
    || (j in times && exists k :: StartsAt(times, i, k) && times[k] + (n - 1) as real / Weight(i) <= times[j])
  }

  lemma RowNeedsRoom(times: Times, grants: seq<Grant>, i: int, j: int, n: nat)
    requires TakesRow(times, grants, i, j, n) && i != j
    ensures CanTakeRow(times, i, j, n)
  {
    if n > 0 {
      var backlog := grants[0].backlog;
      var start := Adopt(times, backlog);
      assert grants[0].cls == i && i in backlog && j in backlog;
      AdoptFirst(times, grants);
      RowIsBehind(start, grants, i, j, n);
      ScaledPerWeight(n - 1, i);
      assert IsFloor(times, backlog, Floor(times, backlog));
      if j !in times {
        if n > 1 { ScaledGrows(n - 1, Cost(i)); }
      } else if i in times {
        assert StartsAt(times, i, i);
      } else {
        var k :| k in backlog && k in times && times[k] == Floor(times, backlog);
        assert StartsAt(times, i, k);
      }
    }
  }

  lemma ScaledGrows(n: nat, x: real)
    requires n > 0 && x > 0.0
    ensures Scaled(n, x) > 0.0
  {
    ScaledSign(n - 1, x);
  }

  /** The first selection of a row: with k waiting too, class i starts level with k. */
  lemma FirstOfRow(times: Times, i: int, j: int, k: int)
    requires j in times && StartsAt(times, i, k) && i != j && times[k] <= times[j]
    ensures var g := Grant({i, j, k}, i);
            && Fair(times, g) && Adopt(times, g.backlog)[i] == times[k]
            && Granted(times, g)[i] == times[k] + Cost(i) && Granted(times, g)[j] == times[j]
  {
    var backlog := {i, j, k};
    assert IsFloor(times, backlog, Floor(times, backlog));
    assert k in backlog;
    if i !in times {
      assert Floor(times, backlog) == times[k];
    }
  }

  lemma RoomMakesRow(times: Times, i: int, j: int, n: nat) returns (grants: seq<Grant>)
    requires CanTakeRow(times, i, j, n) && i != j
    ensures TakesRow(times, grants, i, j, n)
  {
    grants := [];
    if n > 0 {
      if j !in times {
        var g := Grant({i, j}, i);
        assert IsFloor(times, {i, j}, Floor(times, {i, j}));
        grants := [g];
        assert Fair(times, g) && grants[1..] == [];
      } else {
        var k :| StartsAt(times, i, k) && times[k] + (n - 1) as real / Weight(i) <= times[j];
        grants := RowFrom(times, i, j, k, n);
      }
    }
  }

  lemma RowFrom(times: Times, i: int, j: int, k: int, n: nat) returns (grants: seq<Grant>)
    requires n > 0 && j in times && i != j && StartsAt(times, i, k)
    requires times[k] + (n - 1) as real / Weight(i) <= times[j]
    ensures TakesRow(times, grants, i, j, n)
    ensures grants[0].backlog == {i, j, k} && forall m :: 1 <= m < n ==> grants[m].backlog == {i, j}
  {
    var g := Grant({i, j, k}, i);
    ScaledPerWeight(n - 1, i);
    ScaledSign(n - 1, Cost(i));
    FirstOfRow(times, i, j, k);
    var rest := RowOfTwo(Granted(times, g), i, j, n - 1);
    grants := [g] + rest;
    assert grants[1..] == rest;
  }

  /** What an old finish time is worth, to a class that has one and to a newcomer: exactly how
      many selections in a row class i can take from a waiting class j, whoever else waits. */
  lemma InARowIff(times: Times, i: int, j: int, n: nat)
    requires i != j
    ensures (exists grants :: TakesRow(times, grants, i, j, n)) <==> CanTakeRow(times, i, j, n)
  {
    if grants :| TakesRow(times, grants, i, j, n) {
      RowNeedsRoom(times, grants, i, j, n);
    }
    if CanTakeRow(times, i, j, n) {
      var grants := RoomMakesRow(times, i, j, n);
    }
  }

  /** No head start would mean that class i never takes two selections in a row from a waiting
      class j. That holds exactly if j is a newcomer, or one grant takes i past j from wherever it
      can start. A newcomer can start at the finish time of any known class that waits with it. */
  lemma NoHeadStartIff(times: Times, i: int, j: int)
    requires i != j
    ensures (forall grants :: !TakesRow(times, grants, i, j, 2)) <==>
              (j in times ==> forall k :: StartsAt(times, i, k) ==> times[k] + 1.0 / Weight(i) > times[j])
  {
    InARowIff(times, i, j, 2);
    assert CanTakeRow(times, i, j, 2) <==>
             j in times && exists k :: StartsAt(times, i, k) && times[k] + 1.0 / Weight(i) <= times[j];
  }

  /** As long as class i is strictly behind all the others there is no choice: every selection
      goes to i. */
  lemma {:induction false} HeadStartIsTaken(times: Times, grants: seq<Grant>, universe: set<int>, i: int, n: nat)
    requires Run(times, grants) && i in times && universe <= times.Keys && n <= |grants|
    requires Backlogged(grants, i) && Drawn(grants, universe)
    requires forall d :: d in universe && d != i && n > 0 ==> times[i] + Scaled(n - 1, Cost(i)) < times[d]
    ensures forall m :: 0 <= m < n ==> grants[m].cls == i
    decreases n
  {
    if n > 0 {
      var g, rest := grants[0], grants[1..];
      ScaledSign(n - 1, Cost(i));
      assert i in g.backlog && g.backlog <= universe;
      assert Adopt(times, g.backlog) == times;
      assert g.cls == i;
      HeadStartIsTaken(Granted(times, g), rest, universe, i, n - 1);
      forall m | 0 <= m < n ensures grants[m].cls == i {
        if m > 0 {
          var k := m - 1;
          assert rest[k] == grants[m];
        }
      }
    }
  }

  // ---------------------------------------------------------------- an instance

  /** Class 2 is granted while class 1 waits once and then gives up; five more selections find
      class 2 alone. */
  ghost function WhileAway(): (grants: seq<Grant>)
  {
    [Grant({1, 2}, 2)] + seq(5, _ => Grant({2}, 2))
  }

  lemma {:induction false} Alone(t: real, n: nat)
    ensures var grants := seq(n, _ => Grant({2}, 2));
            && Run(map[1 := 0.0, 2 := t], grants)
            && End(map[1 := 0.0, 2 := t], grants) == map[1 := 0.0, 2 := t + Scaled(n, Cost(2))]
    decreases n
  {
    var times: Times := map[1 := 0.0, 2 := t];
    var grants := seq(n, _ => Grant({2}, 2));
    if n > 0 {
      assert Adopt(times, {2}) == times;
      assert Granted(times, grants[0]) == map[1 := 0.0, 2 := t + Cost(2)];
      Alone(t + Cost(2), n - 1);
      assert grants[1..] == seq(n - 1, _ => Grant({2}, 2));
      ScaledIsProduct(n, Cost(2));
      ScaledIsProduct(n - 1, Cost(2));
    }
  }

  lemma FirstOfAll(start: Times)
    requires start == map[]
    ensures Fair(start, Grant({1, 2}, 2)) && Granted(start, Grant({1, 2}, 2)) == map[1 := 0.0, 2 := 0.5]
  {
    assert IsFloor(start, {1, 2}, Floor(start, {1, 2}));
    var adopted: Times := map[1 := 0.0, 2 := 0.0];
    assert Adopt(start, {1, 2}) == adopted;
  }

  /** The finish times that leaves. */
  ghost function LeftBehind(): (times: Times)
  {
    map[1 := 0.0, 2 := 3.0]
  }

  lemma AwayFromFresh()
    ensures Run(map[], WhileAway()) && End(map[], WhileAway()) == LeftBehind()
  {
    var grants := WhileAway();
    FirstOfAll(map[]);
    Alone(0.5, 5);
    ScaledIsProduct(5, Cost(2));
    assert grants[1..] == seq(5, _ => Grant({2}, 2));
  }

  /** From a fresh policy: class 1 waits once, gives up and comes back after class 2, of twice
      its weight, has been granted six times. It then takes the next three slots in a row. */
  lemma ReturningClassTakesThree(grants: seq<Grant>)
    requires Run(map[], WhileAway() + grants) && |grants| >= 3 && AllWait(grants, {1, 2})
    ensures Weight(2) == 2.0 * Weight(1) && grants[0].cls == grants[1].cls == grants[2].cls == 1
  {
    AwayFromFresh();
    RunsCompose(map[], WhileAway(), grants);
    TakesThree(LeftBehind(), grants);
  }

  lemma TakesThree(times: Times, grants: seq<Grant>)
    requires times == LeftBehind() && Run(times, grants) && |grants| >= 3 && AllWait(grants, {1, 2})
    ensures grants[0].cls == grants[1].cls == grants[2].cls == 1
  {
    ScaledIsProduct(2, Cost(1));
    HeadStartIsTaken(times, grants, {1, 2}, 1, 3);
  }

  lemma AfterAway(grants: seq<Grant>)
    requires Run(LeftBehind(), grants)
    ensures Run(map[], WhileAway() + grants)
  {
    AwayFromFresh();
    RunsCompose(map[], WhileAway(), grants);
  }

  /** And there is such a run. */
  lemma ReturningClassCanTakeThree() returns (grants: seq<Grant>)
    ensures TakesRow(LeftBehind(), grants, 1, 2, 3) && AllWait(grants, {1, 2}) && Run(map[], WhileAway() + grants)
  {
    ScaledIsProduct(2, Cost(1));
    grants := RowOfTwo(LeftBehind(), 1, 2, 3);
    AfterAway(grants);
  }

  /** A newcomer can profit from somebody else's old finish time: class 3 has none, arrives while
      class 1 is back and waits, starts level with it, and takes three slots in a row from class 2,
      the last two after class 1 has given up again. */
  lemma NewcomerCanTakeThree() returns (grants: seq<Grant>)
    ensures 3 !in LeftBehind() && TakesRow(LeftBehind(), grants, 3, 2, 3) && Run(map[], WhileAway() + grants)
    ensures grants[0].backlog == {1, 2, 3} && grants[1].backlog == grants[2].backlog == {2, 3}
  {
    grants := NewcomerRow(LeftBehind());
    AfterAway(grants);
  }

  lemma NewcomerRow(times: Times) returns (grants: seq<Grant>)
    requires times == LeftBehind()
    ensures TakesRow(times, grants, 3, 2, 3)
    ensures grants[0].backlog == {1, 2, 3} && grants[1].backlog == grants[2].backlog == {2, 3}
  {
    assert StartsAt(times, 3, 1);
    grants := RowFrom(times, 3, 2, 1, 3);
    assert {3, 2, 1} == {1, 2, 3} && {3, 2} == {2, 3};
  }
}
