/** Arrivals, consumers and queue timeouts keep the invariant. */
module ServingQueue {
  import opened Requests
  import opened KvCache
  import opened Waiting
  import opened Streaming
  import opened Serving
  import opened ServingInvariant
  import opened ServingFinish
  import PrefixClaims

  // ---------------------------------------------------------------- consumers

  /** A step that only touches what the consumers see: no stream appears, nothing is sent,
      and what was sent stays what was taken and what is left to take. */
  ghost predicate OnlyConsumed(st: Streams, st': Streams)
  {
    && st'.sent == st.sent
    && (forall id :: id in st'.open ==> id in st.open)
    && forall id {:trigger DeliveredAt(st', id)} :: DeliveredAt(st, id) ==> DeliveredAt(st', id)
  }

  lemma ConsumerSteps(st: Streams, id: RequestId)
    ensures OnlyConsumed(st, AfterCancel(st, id)) && OnlyConsumed(st, AfterTake(st, id))
            && OnlyConsumed(st, AfterDrop(st, id))
  {
    TakeConsumes(st, id);
    assert OnlyConsumed(st, AfterCancel(st, id));
    assert OnlyConsumed(st, AfterDrop(st, id));
  }

  lemma TakeConsumes(st: Streams, id: RequestId)
    ensures OnlyConsumed(st, AfterTake(st, id))
  {
    var st' := AfterTake(st, id);
    forall x {:trigger DeliveredAt(st', x)} | DeliveredAt(st, x) ensures DeliveredAt(st', x) {
      if x == id && id in st.open && st.open[id].queue != [] {
        OneMoreTaken(st.taken[id], st.open[id].queue, st.sent[id]);
      }
    }
  }

  lemma OneMoreTaken(taken: seq<Item>, queue: seq<Item>, sent: seq<Item>)
    requires taken + queue == sent && queue != []
    ensures (taken + [queue[0]]) + queue[1..] == sent && taken + [queue[0]] <= sent
  {
    assert queue == [queue[0]] + queue[1..];
  }

  lemma ConsumeKeeps(cfg: Config, s: State, owed: set<RequestId>, dirty: bool, st': Streams)
    requires Inv(cfg, s, owed, dirty) && OnlyConsumed(s.streams, st')
    ensures Inv(cfg, s.(streams := st'), owed, dirty)
  {
    var s' := s.(streams := st');
    forall x ensures StreamedAt(cfg, st', s.waiting, s.accepted, s.outcome, x) {
      assert StreamedAt(cfg, s.streams, s.waiting, s.accepted, s.outcome, x);
    }
    forall x ensures SeqAt(cfg, s', owed, dirty, x) {
      assert SeqAt(cfg, s, owed, dirty, x);
    }
  }

  // ---------------------------------------------------------------- arrivals

  lemma WaitsOneMore(pool: seq<Request>, r: Request, id: RequestId)
    ensures Waits(pool + [r], id) <==> Waits(pool, id) || id == r.id
  {
    var pool' := pool + [r];
    if Waits(pool, id) {
      var i :| 0 <= i < |pool| && pool[i].id == id;
      assert pool'[i].id == id;
    }
    if Waits(pool', id) && id != r.id {
      var i :| 0 <= i < |pool'| && pool'[i].id == id;
      assert pool[i].id == id;
    }
    assert pool'[|pool|].id == r.id;
  }

  lemma PlacedArrive(waiting: seq<Request>, seats: Seats, accepted: map<RequestId, Request>,
                     outcome: map<RequestId, Outcome>, r: Request)
    requires Placed(waiting, seats, accepted, outcome) && r.id !in accepted && Worthy(r)
    ensures !Waits(waiting, r.id)
    ensures Placed(waiting + [r], seats, accepted[r.id := r], outcome)
  {
    var waiting', accepted' := waiting + [r], accepted[r.id := r];
    assert PlacedAt(waiting, seats, accepted, outcome, r.id);
    forall x ensures PlacedAt(waiting', seats, accepted', outcome, x) {
      assert PlacedAt(waiting, seats, accepted, outcome, x);
      WaitsOneMore(waiting, r, x);
    }
  }

  lemma AccountedArrive(cfg: Config, waiting: seq<Request>, seats: Seats, accepted: map<RequestId, Request>, kv: Kv,
                        r: Request)
    requires Accounted(cfg, waiting, seats, accepted, kv) && Worthy(r) && r.id !in kv.table
    requires BlocksNeeded(|r.prompt| + r.maxTokens, cfg.blockSize) <= kv.free
    ensures Accounted(cfg, waiting + [r], seats, accepted[r.id := r],
                      AfterReserve(kv, r.id, |r.prompt| + r.maxTokens, cfg.blockSize))
  {
    var kv' := AfterReserve(kv, r.id, |r.prompt| + r.maxTokens, cfg.blockSize);
    ReserveBalanced(kv, TotalBlocks(cfg), r.id, |r.prompt| + r.maxTokens, cfg.blockSize);
    forall x ensures x in kv'.table <==> x in seats || Waits(waiting + [r], x) {
      WaitsOneMore(waiting, r, x);
    }
  }

  lemma PublishedArrive(cfg: Config, claims: seq<PrefixClaims.Claim>, seats: Seats, accepted: map<RequestId, Request>,
                        r: Request)
    requires Published(cfg, claims, seats, accepted) && r.id !in seats
    ensures Published(cfg, claims, seats, accepted[r.id := r])
  {
    var accepted' := accepted[r.id := r];
    forall i {:trigger claims[i]} | 0 <= i < |claims| ensures ClaimOk(cfg, claims[i], seats, accepted') {
      var x :| IsClaimOf(cfg, claims[i], seats, accepted, x);
      assert IsClaimOf(cfg, claims[i], seats, accepted', x);
    }
    if cfg.prefixEnabled {
      forall x ensures HasClaim(cfg, claims, seats, accepted', x) {
        assert HasClaim(cfg, claims, seats, accepted, x);
      }
    }
  }

  lemma StreamedArrive(cfg: Config, st: Streams, waiting: seq<Request>, accepted: map<RequestId, Request>,
                       outcome: map<RequestId, Outcome>, r: Request)
    requires Streamed(cfg, st, waiting, accepted, outcome) && r.id !in accepted && r.id !in outcome
    ensures Streamed(cfg, AfterCreate(st, r.id), waiting + [r], accepted[r.id := r], outcome)
  {
    var st', waiting', accepted' := AfterCreate(st, r.id), waiting + [r], accepted[r.id := r];
    forall x ensures StreamedAt(cfg, st', waiting', accepted', outcome, x) {
      assert StreamedAt(cfg, st, waiting, accepted, outcome, x);
      WaitsOneMore(waiting, r, x);
    }
  }

  lemma SequencesArrive(cfg: Config, s: State, s': State, owed: set<RequestId>, dirty: bool, r: Request)
    requires Sequences(cfg, s, owed, dirty) && r.id !in s.active
    requires s'.active == s.active && s'.requests == s.requests && s'.store == s.store
    requires s'.accepted == s.accepted[r.id := r] && s'.streams.sent == s.streams.sent[r.id := []]
    ensures Sequences(cfg, s', owed, dirty)
  {
    forall x ensures SeqAt(cfg, s', owed, dirty, x) {
      assert SeqAt(cfg, s, owed, dirty, x);
    }
  }

  lemma ArriveKeeps(cfg: Config, s: State, owed: set<RequestId>, dirty: bool, r: Request)
    requires Inv(cfg, s, owed, dirty) && r.id !in s.accepted && Worthy(r)
    ensures Inv(cfg, AfterArrive(cfg, s, r), owed, dirty)
  {
    var seats := SeatsOf(s.active);
    if Decide(s.kv, r.id, |r.prompt| + r.maxTokens, cfg.blockSize, |s.waiting|, cfg.maxQueueDepth) == Accepted {
      assert PlacedAt(s.waiting, seats, s.accepted, s.outcome, r.id);
      PlacedArrive(s.waiting, seats, s.accepted, s.outcome, r);
      assert Pushed(s.waiting, r) == s.waiting + [r];
      AccountedArrive(cfg, s.waiting, seats, s.accepted, s.kv, r);
      PublishedArrive(cfg, s.claims, seats, s.accepted, r);
      StreamedArrive(cfg, s.streams, s.waiting, s.accepted, s.outcome, r);
      SequencesArrive(cfg, s, AfterArrive(cfg, s, r), owed, dirty, r);
    }
  }

  // ---------------------------------------------------------------- queue timeouts

  lemma WaitsWithout(pool: seq<Request>, id: RequestId, x: RequestId)
    ensures Waits(Removed(pool, id), x) <==> Waits(pool, x) && x != id
  {
    var pool' := Removed(pool, id);
    if Waits(pool', x) {
      var i :| 0 <= i < |pool'| && pool'[i].id == x;
      RemovedMembers(pool, id, pool'[i]);
      var j :| 0 <= j < |pool| && pool[j] == pool'[i];
    }
    if Waits(pool, x) && x != id {
      var i :| 0 <= i < |pool| && pool[i].id == x;
      RemovedMembers(pool, id, pool[i]);
      var j :| 0 <= j < |pool'| && pool'[j] == pool[i];
    }
  }

  lemma PlacedExpire(waiting: seq<Request>, seats: Seats, accepted: map<RequestId, Request>,
                     outcome: map<RequestId, Outcome>, id: RequestId)
    requires Placed(waiting, seats, accepted, outcome) && Waits(waiting, id)
    ensures Placed(Removed(waiting, id), seats, accepted, outcome[id := QueueTimeout])
  {
    var waiting', outcome' := Removed(waiting, id), outcome[id := QueueTimeout];
    RemovedDistinct(waiting, id);
    assert PlacedAt(waiting, seats, accepted, outcome, id);
    forall r | r in waiting' ensures r.id in accepted && accepted[r.id] == r {
      RemovedMembers(waiting, id, r);
    }
    forall x ensures PlacedAt(waiting', seats, accepted, outcome', x) {
      assert PlacedAt(waiting, seats, accepted, outcome, x);
      WaitsWithout(waiting, id, x);
    }
  }

  lemma AccountedExpire(cfg: Config, waiting: seq<Request>, seats: Seats, accepted: map<RequestId, Request>, kv: Kv,
                        id: RequestId)
    requires Accounted(cfg, waiting, seats, accepted, kv) && id !in seats
    ensures Accounted(cfg, Removed(waiting, id), seats, accepted, AfterRelease(kv, id))
  {
    ReleaseBalanced(kv, TotalBlocks(cfg), id);
    forall x ensures x in AfterRelease(kv, id).table <==> x in seats || Waits(Removed(waiting, id), x) {
      WaitsWithout(waiting, id, x);
    }
  }

  lemma StreamedExpire(cfg: Config, st: Streams, waiting: seq<Request>, accepted: map<RequestId, Request>,
                       outcome: map<RequestId, Outcome>, id: RequestId)
    requires Streamed(cfg, st, waiting, accepted, outcome) && Waits(waiting, id) && id in accepted
    ensures Streamed(cfg, AfterPut(st, id, End), Removed(waiting, id), accepted, outcome[id := QueueTimeout])
  {
    var st', waiting', outcome' := AfterPut(st, id, End), Removed(waiting, id), outcome[id := QueueTimeout];
    assert StreamedAt(cfg, st, waiting, accepted, outcome, id);
    CloseIsDone(cfg, accepted[id], st, id, QueueTimeout);
    forall x ensures StreamedAt(cfg, st', waiting', accepted, outcome', x) {
      assert StreamedAt(cfg, st, waiting, accepted, outcome, x);
      WaitsWithout(waiting, id, x);
    }
  }

  lemma ExpireOneKeeps(cfg: Config, s: State, owed: set<RequestId>, dirty: bool, id: RequestId)
    requires Inv(cfg, s, owed, dirty) && Waits(s.waiting, id)
    ensures Inv(cfg, ExpireOne(s, id), owed, dirty)
  {
    var seats, s' := SeatsOf(s.active), ExpireOne(s, id);
    assert PlacedAt(s.waiting, seats, s.accepted, s.outcome, id);
    RemovedDistinct(s.waiting, id);
    PlacedExpire(s.waiting, seats, s.accepted, s.outcome, id);
    AccountedExpire(cfg, s.waiting, seats, s.accepted, s.kv, id);
    StreamedExpire(cfg, s.streams, s.waiting, s.accepted, s.outcome, id);
    forall x ensures SeqAt(cfg, s', owed, dirty, x) {
      assert SeqAt(cfg, s, owed, dirty, x);
    }
  }

  lemma LastIsNew(waiting: seq<Request>, pool: seq<Request>)
    requires DistinctIds(waiting) && pool <= waiting && pool != []
    ensures !Waits(pool[..|pool| - 1], pool[|pool| - 1].id)
  {
    assert pool[|pool| - 1] == waiting[|pool| - 1];
    assert forall i :: 0 <= i < |pool| - 1 ==> pool[..|pool| - 1][i] == waiting[i];
  }

  /** Expiring walks a snapshot; whoever it has not reached yet still waits. */
  lemma {:induction false} ExpireAllWaits(s: State, pool: seq<Request>, expired: set<RequestId>, x: RequestId)
    requires DistinctIds(s.waiting) && pool <= s.waiting
    ensures Waits(ExpireAll(s, pool, expired).waiting, x) <==> Waits(s.waiting, x) && !(Waits(pool, x) && x in expired)
  {
    if pool != [] {
      var n := |pool| - 1;
      ExpireAllWaits(s, pool[..n], expired, x);
      assert pool == pool[..n] + [pool[n]];
      WaitsOneMore(pool[..n], pool[n], x);
      WaitsWithout(ExpireAll(s, pool[..n], expired).waiting, pool[n].id, x);
    }
  }

  lemma {:induction false} ExpireAllKeeps(cfg: Config, s: State, pool: seq<Request>, expired: set<RequestId>,
                                          owed: set<RequestId>, dirty: bool)
    requires Inv(cfg, s, owed, dirty) && pool <= s.waiting
    ensures var t := ExpireAll(s, pool, expired);
            && Inv(cfg, t, owed, dirty)
            && t.phase == s.phase && t.active == s.active && t.freeSlots == s.freeSlots && t.accepted == s.accepted
  {
    if pool != [] {
      var n := |pool| - 1;
      ExpireAllKeeps(cfg, s, pool[..n], expired, owed, dirty);
      var before, id := ExpireAll(s, pool[..n], expired), pool[n].id;
      if id in expired {
        assert s.waiting[n].id == id;
        LastIsNew(s.waiting, pool);
        ExpireAllWaits(s, pool[..n], expired, id);
        ExpireOneKeeps(cfg, before, owed, dirty, id);
      }
    }
  }
}
