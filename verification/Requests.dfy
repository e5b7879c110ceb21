/** The request as the waiting pool holds it (tinyserve/queue/request_queue.py). */
module Requests {
  type Token = int
  type RequestId = int

  datatype Request = Request(id: RequestId, prompt: seq<Token>, maxTokens: int, priority: int, arrival: real)

  ghost predicate DistinctIds(rs: seq<Request>)
  {
    forall i, j :: 0 <= i < j < |rs| ==> rs[i].id != rs[j].id
  }

  /** What every scheduling policy promises the loop: as many members of the pool as there
      are both requests and free slots, none of them twice. */
  ghost predicate IsSelection(waiting: seq<Request>, capacity: nat, chosen: seq<Request>)
  {
    && |chosen| == (if capacity < |waiting| then capacity else |waiting|)
    && DistinctIds(chosen)
    && forall r :: r in chosen ==> r in waiting
  }

  /** r comes before c in the list. */
  ghost predicate Ahead(s: seq<Request>, r: Request, c: Request)
  {
    exists i, j :: 0 <= i < j < |s| && s[i] == r && s[j] == c
  }

  /** Requests that no key tells apart are taken in the order of the pool. */
  ghost predicate TieOrder(waiting: seq<Request>, chosen: seq<Request>)
  {
    forall r, c {:trigger Ahead(waiting, r, c)} ::
      Ahead(waiting, r, c) && r.priority == c.priority && r.arrival == c.arrival && c in chosen ==> Ahead(chosen, r, c)
  }
}
