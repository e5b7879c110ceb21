/** tinyserve/queue/request_queue.py: the waiting pool, a dictionary in insertion order. */
module Waiting {
  import opened Requests

  /** The pool without one request. */
  function Removed(pool: seq<Request>, id: RequestId): (rest: seq<Request>)
  {
    if pool == [] then []
    else if pool[|pool| - 1].id == id then Removed(pool[..|pool| - 1], id)
    else Removed(pool[..|pool| - 1], id) + [pool[|pool| - 1]]
  }

  /** Store under the request's id: in place if the id is there already, else at the end. */
  function Pushed(pool: seq<Request>, r: Request): (pool': seq<Request>)
  {
    if exists i :: 0 <= i < |pool| && pool[i].id == r.id
    then seq(|pool|, i requires 0 <= i < |pool| => if pool[i].id == r.id then r else pool[i])
    else pool + [r]
  }

  ghost predicate Waits(pool: seq<Request>, id: RequestId)
  {
    exists i :: 0 <= i < |pool| && pool[i].id == id
  }

  lemma {:induction false} RemovedMembers(pool: seq<Request>, id: RequestId, r: Request)
    ensures r in Removed(pool, id) <==> r in pool && r.id != id
  {
    if pool != [] {
      var n := |pool| - 1;
      RemovedMembers(pool[..n], id, r);
      assert pool == pool[..n] + [pool[n]];
    }
  }

  lemma {:induction false} RemovedDistinct(pool: seq<Request>, id: RequestId)
    requires DistinctIds(pool)
    ensures DistinctIds(Removed(pool, id))
    ensures |Removed(pool, id)| == if Waits(pool, id) then |pool| - 1 else |pool|
  {
    if pool != [] {
      var n := |pool| - 1;
      RemovedDistinct(pool[..n], id);
      var rest := Removed(pool[..n], id);
      forall i | 0 <= i < |rest| ensures rest[i].id != pool[n].id {
        RemovedMembers(pool[..n], id, rest[i]);
        var j :| 0 <= j < n && pool[..n][j] == rest[i];
        assert pool[j] == rest[i];
      }
      if Waits(pool, id) {
        var i :| 0 <= i < |pool| && pool[i].id == id;
        assert i < n ==> pool[..n][i].id == id;
      }
      if Waits(pool[..n], id) {
        var i :| 0 <= i < n && pool[..n][i].id == id;
        assert pool[i].id == id;
      }
    }
  }

  class RequestQueue {
    var waiting: seq<Request>

    constructor ()
      ensures waiting == []
    {
      waiting := [];
    }

    method Push(r: Request)
      modifies this
      ensures waiting == Pushed(old(waiting), r)
      ensures !Waits(old(waiting), r.id) ==> waiting == old(waiting) + [r]
      ensures Waits(old(waiting), r.id) ==>
                && |waiting| == |old(waiting)|
                && forall i :: 0 <= i < |waiting| ==>
                     waiting[i] == if old(waiting)[i].id == r.id then r else old(waiting)[i]
    {
      waiting := Pushed(waiting, r);
    }

    /** Popping an id that is not there is a KeyError: the caller must know it waits. */
    method Remove(id: RequestId) returns (r: Request)
      requires DistinctIds(waiting) && Waits(waiting, id)
      modifies this
      ensures waiting == Removed(old(waiting), id)
      ensures r.id == id && r in old(waiting)
    {
      var i := 0;
      while waiting[i].id != id
        invariant 0 <= i < |waiting| && forall j :: 0 <= j < i ==> waiting[j].id != id
        decreases |waiting| - i
      {
        i := i + 1;
      }
      r := waiting[i];
      CutOut(waiting, i);
      waiting := waiting[..i] + waiting[i + 1..];
    }

    method Depth() returns (n: nat)
      ensures n == |waiting|
    {
      n := |waiting|;
    }
  }

  /** With distinct ids, removing by id is cutting out one position. */
  lemma {:induction false} CutOut(pool: seq<Request>, i: nat)
    requires DistinctIds(pool) && i < |pool|
    ensures pool[..i] + pool[i + 1..] == Removed(pool, pool[i].id)
  {
    var n, id := |pool| - 1, pool[i].id;
    var init := pool[..n];
    if i == n {
      RemovedAbsent(init, id);
      assert pool[..i] + pool[i + 1..] == init;
    } else {
      CutOut(init, i);
      assert pool[..i] + pool[i + 1..] == (init[..i] + init[i + 1..]) + [pool[n]];
    }
  }

  lemma {:induction false} RemovedAbsent(pool: seq<Request>, id: RequestId)
    requires forall i :: 0 <= i < |pool| ==> pool[i].id != id
    ensures Removed(pool, id) == pool
  {
    if pool != [] {
      RemovedAbsent(pool[..|pool| - 1], id);
      assert pool == pool[..|pool| - 1] + [pool[|pool| - 1]];
    }
  }
}
