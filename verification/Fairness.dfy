/** tinyserve/queue/fairness.py: weighted fair queuing in virtual time. */
module Fairness {
  import opened FiniteSets

  type Times = map<int, real>

  function Weight(priority: int): (w: real)
    ensures w >= 1.0
  {
    if priority < 1 then 1.0 else priority as real
  }

  /** What one grant costs a class. */
  function Cost(priority: int): (c: real)
    ensures 0.0 < c <= 1.0
  {
    1.0 / Weight(priority)
  }

  /** The system virtual time: the least finish time of the backlogged classes that have
      one, zero if none has. */
  ghost predicate IsFloor(times: Times, backlog: set<int>, m: real)
  {
    && (forall c :: c in backlog && c in times ==> m <= times[c])
    && (m == 0.0 || exists c :: c in backlog && c in times && times[c] == m)
    && ((exists c :: c in backlog && c in times) ==> exists c :: c in backlog && c in times && times[c] == m)
  }

  ghost function Floor(times: Times, backlog: set<int>): (m: real)
    ensures IsFloor(times, backlog, m)
  {
    if c :| c in backlog && c in times then
      var rest := Floor(times, backlog - {c});
      if (forall d :: d in backlog - {c} ==> d !in times) || times[c] <= rest then times[c] else rest
    else 0.0
  }

  lemma FloorUnique(times: Times, backlog: set<int>, m: real)
    requires IsFloor(times, backlog, m)
    ensures m == Floor(times, backlog)
  {
  }

  /** The finish times once the classes in `seen` have been looked at. */
  ghost function AdoptSome(times: Times, backlog: set<int>, seen: set<int>): (r: Times)
    ensures r.Keys == times.Keys + seen
  {
    times + map c | c in seen - times.Keys :: Floor(times, backlog)
  }

  /** Newcomers among the backlogged classes adopt the system virtual time. */
  ghost function Adopt(times: Times, backlog: set<int>): (r: Times)
    ensures r.Keys == times.Keys + backlog
  {
    AdoptSome(times, backlog, backlog)
  }

  ghost function Touch(times: Times, c: int, backlog: set<int>): (r: Times)
  {
    if c in times then times else times[c := Floor(times, backlog)]
  }

  /** Adopting does not move the system virtual time, so the order of looking is immaterial. */
  lemma TouchAdopts(times: Times, backlog: set<int>, seen: set<int>, c: int)
    requires seen <= backlog && c in backlog
    ensures Touch(AdoptSome(times, backlog, seen), c, backlog) == AdoptSome(times, backlog, seen + {c})
  {
    var some, m := AdoptSome(times, backlog, seen), Floor(times, backlog);
    if c !in some {
      assert IsFloor(some, backlog, m);
      FloorUnique(some, backlog, m);
    }
  }

  lemma AdoptTwice(times: Times, backlog: set<int>)
    ensures Adopt(Adopt(times, backlog), backlog) == Adopt(times, backlog)
  {
  }

  class WeightedFairQueue {
    var virtualFinish: Times

    constructor ()
      ensures virtualFinish == map[]
    {
      virtualFinish := map[];
    }

    method VirtualFinishTime(c: int, backlog: set<int>) returns (time: real)
      modifies this
      ensures virtualFinish == Touch(old(virtualFinish), c, backlog)
      ensures c in virtualFinish && time == virtualFinish[c]
      ensures virtualFinish.Keys == old(virtualFinish).Keys + {c}
      ensures forall d :: d in old(virtualFinish) ==> virtualFinish[d] == old(virtualFinish)[d]
      ensures c !in old(virtualFinish) ==>
                if exists d :: d in backlog && d in old(virtualFinish) then
                  && (exists d :: d in backlog && d in old(virtualFinish) && time == old(virtualFinish)[d])
                  && (forall d :: d in backlog && d in old(virtualFinish) ==> time <= old(virtualFinish)[d])
                else time == 0.0
    {
      if c !in virtualFinish {
        var m := MinKnown(backlog);
        virtualFinish := virtualFinish[c := m];
      }
      time := virtualFinish[c];
    }

    /** The minimum over the known backlogged classes, zero when there is none. */
    method MinKnown(backlog: set<int>) returns (m: real)
      ensures m == Floor(virtualFinish, backlog)
    {
      m := 0.0;
      var left, found := backlog, false;
      while left != {}
        invariant left <= backlog
        invariant found <==> exists c :: c in backlog - left && c in virtualFinish
        invariant IsFloor(virtualFinish, backlog - left, m)
        decreases left
      {
        var c := Pick(left);
        left := left - {c};
        if c in virtualFinish && (!found || virtualFinish[c] < m) {
          m := virtualFinish[c];
        }
        found := found || c in virtualFinish;
      }
      assert backlog - left == backlog;
      FloorUnique(virtualFinish, backlog, m);
    }

    method Charge(c: int, backlog: set<int>)
      modifies this
      ensures var t := Touch(old(virtualFinish), c, backlog);
              && c in t && virtualFinish == t[c := t[c] + Cost(c)]
              && virtualFinish[c] == t[c] + 1.0 / (if c < 1 then 1 else c) as real
    {
      var current := VirtualFinishTime(c, backlog);
      virtualFinish := virtualFinish[c := current + 1.0 / Weight(c)];
    }
  }
}
