/** What weighted fair queuing guarantees over whole runs of selections. The classes that
    are waiting may change from one selection to the next in any way. */
module WfqBounds {
  import opened Fairness
  import opened WfqPolicy
  import opened FiniteSets

  /** How often a class was granted. */
  ghost function Count(grants: seq<Grant>, c: int): (n: nat)
  {
    if grants == [] then 0 else (if grants[0].cls == c then 1 else 0) + Count(grants[1..], c)
  }

  /** A class waits at every selection of the run. */
  ghost predicate Backlogged(grants: seq<Grant>, c: int)
  {
    forall n :: 0 <= n < |grants| ==> c in grants[n].backlog
  }

  ghost predicate Drawn(grants: seq<Grant>, universe: set<int>)
  {
    forall n :: 0 <= n < |grants| ==> grants[n].backlog <= universe
  }

  function Larger(a: real, b: real): real { if a < b then b else a }

  /** n times x, as a sum. */
  ghost function Scaled(n: nat, x: real): (r: real)
  {
    if n == 0 then 0.0 else Scaled(n - 1, x) + x
  }

  lemma {:induction false} ScaledIsProduct(n: nat, x: real)
    ensures Scaled(n, x) == n as real * x
  {
    if n > 0 {
      ScaledIsProduct(n - 1, x);
      assert n as real * x == (n - 1) as real * x + x;
    }
  }

  lemma ScaledPerWeight(n: nat, c: int)
    ensures Scaled(n, Cost(c)) == n as real / Weight(c)
  {
    ScaledIsProduct(n, Cost(c));
  }

  /** The finish time of a known class moves by exactly the cost of its grants. */
  lemma {:induction false} FinishTime(times: Times, grants: seq<Grant>, c: int)
    requires Run(times, grants) && c in times
    ensures c in End(times, grants)
    ensures End(times, grants)[c] == times[c] + Scaled(Count(grants, c), Cost(c))
    decreases |grants|
  {
    if grants != [] {
      FinishTime(Granted(times, grants[0]), grants[1..], c);
    }
  }

  /** While both wait, one class gets ahead of another by at most one grant's cost, or
      keeps the lead it had. */
  lemma {:induction false} Lead(times: Times, grants: seq<Grant>, i: int, j: int)
    requires Run(times, grants) && i in times && j in times
    requires Backlogged(grants, i) && Backlogged(grants, j)
    ensures i in End(times, grants) && j in End(times, grants)
    ensures End(times, grants)[i] - End(times, grants)[j] <= Larger(times[i] - times[j], Cost(i))
    decreases |grants|
  {
    if grants != [] {
      var g := grants[0];
      assert i in g.backlog && j in g.backlog;
      Lead(Granted(times, g), grants[1..], i, j);
    }
  }

  /** The pairwise bound, for classes that already have a finish time. */
  lemma PairwiseKnown(times: Times, grants: seq<Grant>, i: int, j: int)
    requires Run(times, grants) && i in times && j in times
    requires Backlogged(grants, i) && Backlogged(grants, j)
    ensures Count(grants, i) as real / Weight(i) - Count(grants, j) as real / Weight(j)
            <= Larger(0.0, 1.0 / Weight(i) - (times[i] - times[j]))
  {
    Lead(times, grants, i, j);
    FinishTime(times, grants, i);
    FinishTime(times, grants, j);
    ScaledPerWeight(Count(grants, i), i);
    ScaledPerWeight(Count(grants, j), j);
  }

  /** Starting a run from where the newcomers of its first selection have adopted their
      finish times is the same run. */
  lemma AdoptFirst(times: Times, grants: seq<Grant>)
    requires Run(times, grants) && grants != []
    ensures Run(Adopt(times, grants[0].backlog), grants)
  {
    SameGrant(times, grants[0]);
  }

  lemma SameGrant(times: Times, g: Grant)
    requires Fair(times, g)
    ensures Fair(Adopt(times, g.backlog), g) && Granted(Adopt(times, g.backlog), g) == Granted(times, g)
  {
    AdoptTwice(times, g.backlog);
  }

  /** n / i - m / j is at most max(0, 1 / i - gap), for priorities i and j. */
  ghost predicate InProportion(n: int, m: int, i: int, j: int, gap: real)
    requires i >= 1 && j >= 1
  {
    var lead := n as real / i as real - m as real / j as real;
    lead <= 0.0 || lead <= 1.0 / i as real - gap
  }

  /** What the weights mean: p grants to a class of priority p >= 1 move its finish time by exactly
      1, and a single grant does for a class below. */
  lemma PriorityMovesByOne(times: Times, grants: seq<Grant>, p: int)
    requires Run(times, grants) && p in times && Count(grants, p) == if p < 1 then 1 else p
    ensures p in End(times, grants) && End(times, grants)[p] == times[p] + 1.0
  {
    FinishTime(times, grants, p);
    ScaledPerWeight(Count(grants, p), p);
  }

  /** The allowances of known classes, in their priorities. */
  lemma AllowancesInPriorities(times: Times, universe: set<int>, c: int, room: int -> int)
    requires c in times && universe <= times.Keys
    requires forall k :: k in universe && k != c ==>
               room(k) == if times[k] > times[c] then 0
                          else ((if k < 1 then 1 else k) as real * (times[c] - times[k])).Floor + 1
    ensures Allowances(times, universe, c) == Sum(universe - {c}, room)
  {
    forall k | k in universe - {c} ensures room(k) == Allowance(times, universe, times[c], k) {
      AllowanceIsFloor(times, universe, times[c], k);
    }
    SumSame(universe - {c}, room, k => Allowance(times, universe, times[c], k));
  }

  /** The pairwise bound: two classes that both wait at every selection of a run share the
      grants in proportion to their weights, up to one grant and up to the gap between
      their finish times at the first selection. */
  lemma PairwiseBound(times: Times, grants: seq<Grant>, i: int, j: int)
    requires Run(times, grants) && grants != []
    requires Backlogged(grants, i) && Backlogged(grants, j)
    ensures var start := Adopt(times, grants[0].backlog);
            && i in start && j in start
            && Count(grants, i) as real / Weight(i) - Count(grants, j) as real / Weight(j)
               <= Larger(0.0, 1.0 / Weight(i) - (start[i] - start[j]))
            && (i >= 1 && j >= 1 ==> InProportion(Count(grants, i), Count(grants, j), i, j, start[i] - start[j]))
  {
    assert i in grants[0].backlog && j in grants[0].backlog;
    AdoptFirst(times, grants);
    PairwiseKnown(Adopt(times, grants[0].backlog), grants, i, j);
  }

  // ---------------------------------------------------------------- starvation

  /** The least finish time a class can have when it is first granted. */
  ghost function Base(times: Times, universe: set<int>, k: int): (t: real)
  {
    if k in times then times[k] else Floor(times, universe)
  }

  /** Finish times never go down, and a newcomer starts at or above the floor. */
  lemma BaseGrows(times: Times, universe: set<int>, g: Grant, c: int, k: int)
    requires Fair(times, g) && g.backlog <= universe && c in g.backlog && c in times
    ensures Base(Granted(times, g), universe, k) >= Base(times, universe, k) + if k == g.cls then Cost(k) else 0.0
  {
    var after, m := Granted(times, g), Floor(times, universe);
    assert IsFloor(times, universe, m) && IsFloor(times, g.backlog, Floor(times, g.backlog));
    assert Floor(times, g.backlog) >= m;
    if k !in times && k !in g.backlog {
      assert IsFloor(after, universe, Floor(after, universe));
      assert c in universe && c in after;
    }
  }

  /** Before the last of its n grants the finish time of class k has not passed f. */
  ghost predicate Fits(times: Times, universe: set<int>, f: real, k: int, n: nat)
  {
    n > 0 ==> Base(times, universe, k) + Scaled(n - 1, Cost(k)) <= f
  }

  /** While class c waits ungranted, class k is granted only as long as its finish time
      has not passed that of c. */
  lemma {:induction false} GrantsWhileWaiting(times: Times, grants: seq<Grant>, universe: set<int>, c: int, k: int)
    requires Run(times, grants) && c in times && Backlogged(grants, c) && Drawn(grants, universe)
    requires Count(grants, c) == 0
    ensures Fits(times, universe, times[c], k, Count(grants, k))
    decreases |grants|
  {
    if grants != [] {
      var g, rest := grants[0], grants[1..];
      assert c in g.backlog && g.backlog <= universe;
      GrantsWhileWaiting(Granted(times, g), rest, universe, c, k);
      BaseGrows(times, universe, g, c, k);
      if g.cls == k && Count(rest, k) == 0 {
        BaseIsLow(times, universe, g, c, k);
      }
    }
  }

  lemma BaseIsLow(times: Times, universe: set<int>, g: Grant, c: int, k: int)
    requires g.backlog <= universe && c in g.backlog && c in times && k in g.backlog
    ensures Base(times, universe, k) <= Adopt(times, g.backlog)[k]
  {
    assert IsFloor(times, universe, Floor(times, universe)) && IsFloor(times, g.backlog, Floor(times, g.backlog));
  }

  /** How many grants fit into a gap: one if it is not negative, and then as many as fit into
      what that grant leaves. */
  ghost function Room(k: int, gap: real): (n: nat)
    decreases if gap < 0.0 then 0 else WholeGrants(k, gap) + 1
  {
    if gap < 0.0 then 0 else OneGrantLess(k, gap); 1 + Room(k, gap - Cost(k))
  }

  ghost function WholeGrants(k: int, gap: real): (n: int)
    ensures gap >= 0.0 ==> n >= 0
  {
    MulSign(Weight(k), gap);
    (Weight(k) * gap).Floor
  }

  lemma MulSign(w: real, x: real)
    requires w >= 1.0
    ensures x >= 0.0 ==> w * x >= 0.0
  {
  }

  lemma OneGrantLess(k: int, gap: real)
    ensures WholeGrants(k, gap - Cost(k)) == WholeGrants(k, gap) - 1
  {
    var w, c := Weight(k), Cost(k);
    assert w * c == 1.0;
    assert w * (gap - c) == w * gap - w * c;
  }

  /** In closed form: floor(w * gap) + 1. */
  lemma {:induction false} RoomIsFloor(k: int, gap: real)
    requires gap >= 0.0
    ensures Room(k, gap) == (Weight(k) * gap).Floor + 1
    decreases WholeGrants(k, gap)
  {
    OneGrantLess(k, gap);
    if gap >= Cost(k) {
      RoomIsFloor(k, gap - Cost(k));
    } else {
      LessThanOne(k, gap);
    }
  }

  lemma LessThanOne(k: int, gap: real)
    requires 0.0 <= gap < Cost(k)
    ensures WholeGrants(k, gap) == 0
  {
    var w, c := Weight(k), Cost(k);
    assert w * c == 1.0;
    assert w * c - w * gap == w * (c - gap);
    assert w * (c - gap) > 0.0;
  }

  lemma {:induction false} RoomFor(n: nat, k: int, gap: real)
    requires n > 0 ==> Scaled(n - 1, Cost(k)) <= gap
    ensures n <= Room(k, gap)
    decreases n
  {
    if n > 0 {
      ScaledSign(n - 1, Cost(k));
      RoomFor(n - 1, k, gap - Cost(k));
    }
  }

  /** How many grants class k can get ahead of a waiting class whose finish time is f. */
  ghost function Allowance(times: Times, universe: set<int>, f: real, k: int): (n: nat)
  {
    Room(k, f - Base(times, universe, k))
  }

  /** The starvation bound for one competitor of a class that has a finish time. */
  lemma StarvationKnown(times: Times, grants: seq<Grant>, universe: set<int>, c: int, k: int)
    requires Run(times, grants) && c in times && Backlogged(grants, c) && Drawn(grants, universe)
    requires Count(grants, c) == 0
    ensures Count(grants, k) <= Allowance(times, universe, times[c], k)
  {
    GrantsWhileWaiting(times, grants, universe, c, k);
    AllowanceCovers(times, universe, times[c], k, Count(grants, k));
  }

  /** The allowance of a class with a finish time, in closed form. */
  lemma AllowanceIsFloor(times: Times, universe: set<int>, f: real, k: int)
    requires k in times
    ensures Allowance(times, universe, f, k) ==
            if times[k] > f then 0 else ((if k < 1 then 1 else k) as real * (f - times[k])).Floor + 1
  {
    if times[k] <= f {
      RoomIsFloor(k, f - times[k]);
      WeightIsPriority(k, f - times[k]);
    }
  }

  lemma WeightIsPriority(k: int, x: real)
    ensures Weight(k) == (if k < 1 then 1 else k) as real
    ensures (Weight(k) * x).Floor == ((if k < 1 then 1 else k) as real * x).Floor
  {
    var w, p := Weight(k), (if k < 1 then 1 else k) as real;
    assert w == p;
    SameProduct(w, p, x);
  }

  lemma SameProduct(a: real, b: real, x: real)
    requires a == b
    ensures a * x == b * x
  {
  }

  /** At most floor(k * (f - t)) + 1 grants for a class of priority k (1 if it is less) at finish
      time t, none if it is past f. */
  ghost predicate WithinGap(k: int, t: real, f: real, n: int)
  {
    n <= if t > f then 0 else ((if k < 1 then 1 else k) as real * (f - t)).Floor + 1
  }

  lemma AllowanceWithinGap(times: Times, universe: set<int>, f: real, k: int, n: int)
    requires k in times && n <= Allowance(times, universe, f, k)
    ensures WithinGap(k, times[k], f, n)
  {
    AllowanceIsFloor(times, universe, f, k);
  }

  /** The starvation bound for one competitor k of any waiting class c, newcomer or not. With
      F the finish times at the first selection: none if F_k > F_c, and at most
      floor(w_k * (F_c - F_k)) + 1 grants otherwise. A competitor that comes later counts from
      the least finish time there is. */
  lemma StarvationBound(times: Times, grants: seq<Grant>, universe: set<int>, c: int, k: int)
    requires Run(times, grants) && grants != [] && Backlogged(grants, c) && Drawn(grants, universe)
    requires Count(grants, c) == 0
    ensures var start := Adopt(times, grants[0].backlog);
            && c in start
            && (k in start ==> WithinGap(k, start[k], start[c], Count(grants, k)))
            && Count(grants, k) <= Allowance(start, universe, start[c], k)
  {
    var start := Adopt(times, grants[0].backlog);
    assert c in grants[0].backlog;
    AdoptFirst(times, grants);
    StarvationKnown(start, grants, universe, c, k);
    if k in start { AllowanceWithinGap(start, universe, start[c], k, Count(grants, k)); }
  }

  lemma AllowanceCovers(times: Times, universe: set<int>, f: real, k: int, n: nat)
    requires Fits(times, universe, f, k, n)
    ensures n <= Allowance(times, universe, f, k)
  {
    RoomFor(n, k, f - Base(times, universe, k));
  }

  lemma {:induction false} ScaledSign(n: nat, x: real)
    requires x > 0.0
    ensures Scaled(n, x) >= 0.0
  {
    if n > 0 { ScaledSign(n - 1, x); }
  }

  /** Every selection grants somebody. */
  lemma {:induction false} GrantsAddUp(grants: seq<Grant>, universe: set<int>)
    requires forall n :: 0 <= n < |grants| ==> grants[n].cls in universe
    ensures Sum(universe, k => Count(grants, k)) == |grants|
  {
    if grants == [] {
      SumSame(universe, k => Count(grants, k), k => 0);
      SumZero(universe);
    } else {
      GrantsAddUp(grants[1..], universe);
      SumBump(universe, k => Count(grants[1..], k), k => Count(grants, k), grants[0].cls);
    }
  }

  lemma {:induction false} SumZero(s: set<int>)
    ensures Sum(s, (k: int) => 0) == 0
  {
    if s != {} {
      var x := AnyOf(s);
      SumRemove(s, (k: int) => 0, x);
      SumZero(s - {x});
    }
  }

  lemma AnyOf<T>(s: set<T>) returns (x: T)
    requires s != {}
    ensures x in s
  {
    x :| x in s;
  }

  lemma {:induction false} RunClasses(times: Times, grants: seq<Grant>, universe: set<int>)
    requires Run(times, grants) && Drawn(grants, universe)
    ensures forall n :: 0 <= n < |grants| ==> grants[n].cls in universe
    decreases |grants|
  {
    if grants != [] {
      assert grants[0].backlog <= universe;
      RunClasses(Granted(times, grants[0]), grants[1..], universe);
    }
  }

  /** How many selections a waiting class may have to watch. */
  ghost function Allowances(times: Times, universe: set<int>, c: int): (n: int)
    requires c in times
  {
    Sum(universe - {c}, k => Allowance(times, universe, times[c], k))
  }

  lemma WaitIsBounded(times: Times, grants: seq<Grant>, universe: set<int>, c: int)
    requires Run(times, grants) && c in times && Backlogged(grants, c) && Drawn(grants, universe) && c in universe
    requires Count(grants, c) == 0
    ensures |grants| <= Allowances(times, universe, c)
  {
    RunClasses(times, grants, universe);
    GrantsAddUp(grants, universe);
    SumRemove(universe, k => Count(grants, k), c);
    forall k | k in universe - {c} ensures Count(grants, k) <= Allowance(times, universe, times[c], k) {
      StarvationKnown(times, grants, universe, c, k);
    }
    SumMono(universe - {c}, k => Count(grants, k), k => Allowance(times, universe, times[c], k));
  }

  /** No starvation: over a fixed set of classes, every waiting class, newcomer or not, is
      granted before the allowances of all its competitors are used up. */
  lemma EventuallyGranted(times: Times, grants: seq<Grant>, universe: set<int>, c: int)
    requires Run(times, grants) && grants != [] && Backlogged(grants, c) && Drawn(grants, universe)
    ensures var start := Adopt(times, grants[0].backlog);
            && c in start
            && (|grants| > Allowances(start, universe, c) ==> Count(grants, c) > 0)
  {
    var start := Adopt(times, grants[0].backlog);
    assert c in grants[0].backlog && grants[0].backlog <= universe;
    AdoptFirst(times, grants);
    if Count(grants, c) == 0 { WaitIsBounded(start, grants, universe, c); }
  }
}
