/** Finishing a request keeps the invariant and gives everything back. */
module ServingFinish {
  import opened Requests
  import opened KvCache
  import opened Waiting
  import opened Streaming
  import opened Batch
  import opened Runtime
  import opened Serving
  import opened Greedy
  import opened ServingInvariant
  import PrefixClaims

  lemma SeatsWithout(active: map<RequestId, ActiveSeq>, id: RequestId)
    ensures SeatsOf(active - {id}) == SeatsOf(active) - {id}
  {
  }

  lemma PartitionFinish(n: nat, seats: Seats, freeSlots: seq<nat>, id: RequestId)
    requires Partition(n, seats, freeSlots) && id in seats
    ensures Partition(n, seats - {id}, freeSlots + [seats[id]])
  {
    var seats', free' := seats - {id}, freeSlots + [seats[id]];
    forall slot: nat | slot < n ensures slot in free' || exists x :: x in seats' && seats'[x] == slot {
      if slot !in freeSlots && slot != seats[id] {
        var x :| x in seats && seats[x] == slot;
        assert x in seats' && seats'[x] == slot;
      }
    }
  }

  lemma CellsFitFinish(n: nat, freeSlots: seq<nat>, store: Store, slot: nat)
    requires CellsFit(n, freeSlots, store) && slot < n
    ensures CellsFit(n, freeSlots + [slot], AfterFree(store, slot))
  {
  }

  lemma PlacedFinish(waiting: seq<Request>, seats: Seats, accepted: map<RequestId, Request>,
                     outcome: map<RequestId, Outcome>, id: RequestId, how: Outcome)
    requires Placed(waiting, seats, accepted, outcome) && id in seats
    ensures Placed(waiting, seats - {id}, accepted, outcome[id := how])
  {
    var seats', outcome' := seats - {id}, outcome[id := how];
    assert PlacedAt(waiting, seats, accepted, outcome, id);
    forall x ensures PlacedAt(waiting, seats', accepted, outcome', x) {
      assert PlacedAt(waiting, seats, accepted, outcome, x);
    }
  }

  lemma AccountedFinish(cfg: Config, waiting: seq<Request>, seats: Seats, accepted: map<RequestId, Request>, kv: Kv,
                        id: RequestId)
    requires Accounted(cfg, waiting, seats, accepted, kv) && id in seats && !Waits(waiting, id)
    ensures Accounted(cfg, waiting, seats - {id}, accepted, AfterRelease(kv, id))
  {
    ReleaseBalanced(kv, TotalBlocks(cfg), id);
  }

  lemma PublishedFinish(cfg: Config, claims: seq<PrefixClaims.Claim>, seats: Seats, accepted: map<RequestId, Request>,
                        id: RequestId)
    requires Published(cfg, claims, seats, accepted) && id in seats
    requires forall x :: x in seats && x != id ==> seats[x] != seats[id]
    ensures Published(cfg, if cfg.prefixEnabled then PrefixClaims.Evict(claims, seats[id]) else claims, seats - {id},
                      accepted)
  {
    if cfg.prefixEnabled {
      var slot, seats' := seats[id], seats - {id};
      var rest := PrefixClaims.Evict(claims, slot);
      PrefixClaims.EvictDistinct(claims, slot);
      forall i | 0 <= i < |rest| ensures ClaimOk(cfg, rest[i], seats', accepted) {
        PrefixClaims.EvictMembers(claims, slot, rest[i]);
        var j :| 0 <= j < |claims| && claims[j] == rest[i];
        var x :| IsClaimOf(cfg, claims[j], seats, accepted, x);
        assert IsClaimOf(cfg, rest[i], seats', accepted, x);
      }
      forall x ensures HasClaim(cfg, rest, seats', accepted, x) {
        assert HasClaim(cfg, claims, seats, accepted, x);
        if x in seats' && x in accepted {
          var blocks := PrefixClaims.Blocks(accepted[x].prompt, cfg.blockSize);
          PrefixClaims.EvictMembers(claims, slot, PrefixClaims.Claim(seats[x], blocks));
        }
      }
    }
  }

  /** Closing a stream that has only carried chunks. */
  lemma CloseIsDone(cfg: Config, r: Request, st: Streams, id: RequestId, how: Outcome)
    requires id in st.sent && OnlyChunks(st.sent[id])
    requires Tokens(st.sent[id]) <= Reference(cfg, r.prompt, r.maxTokens)
    requires how == Completed ==> Tokens(st.sent[id]) == Reference(cfg, r.prompt, r.maxTokens)
    requires how == QueueTimeout ==> st.sent[id] == []
    ensures var st' := AfterPut(st, id, End);
            && st'.sent.Keys == st.sent.Keys && st'.open.Keys == st.open.Keys
            && DoneOk(cfg, r, st'.sent[id], how, id in st'.open)
  {
    TokensPut(st.sent[id], End);
  }

  lemma StreamedFinish(cfg: Config, st: Streams, waiting: seq<Request>, accepted: map<RequestId, Request>,
                       outcome: map<RequestId, Outcome>, id: RequestId, how: Outcome)
    requires Streamed(cfg, st, waiting, accepted, outcome) && id in accepted && !Waits(waiting, id)
    requires id in st.sent && OnlyChunks(st.sent[id])
    requires Tokens(st.sent[id]) <= Reference(cfg, accepted[id].prompt, accepted[id].maxTokens)
    requires how == Completed ==> Tokens(st.sent[id]) == Reference(cfg, accepted[id].prompt, accepted[id].maxTokens)
    requires how != QueueTimeout
    ensures Streamed(cfg, AfterPut(st, id, End), waiting, accepted, outcome[id := how])
  {
    var st', outcome' := AfterPut(st, id, End), outcome[id := how];
    CloseIsDone(cfg, accepted[id], st, id, how);
    assert StreamedAt(cfg, st, waiting, accepted, outcome, id);
    assert StreamedAt(cfg, st', waiting, accepted, outcome', id);
    forall x ensures StreamedAt(cfg, st', waiting, accepted, outcome', x) {
      assert StreamedAt(cfg, st, waiting, accepted, outcome, x);
    }
  }

  lemma SequencesFinish(cfg: Config, s: State, owed: set<RequestId>, dirty: bool, id: RequestId, how: Outcome)
    requires Sequences(cfg, s, owed, dirty) && id in s.requests
    requires forall x :: x in s.active && x != id ==> s.active[x].seqId != s.requests[id].seqId
    ensures Sequences(cfg, Finish(cfg, s, id, how), owed - {id}, dirty)
  {
    var s', owed' := Finish(cfg, s, id, how), owed - {id};
    forall x ensures SeqAt(cfg, s', owed', dirty, x) {
      assert SeqAt(cfg, s, owed, dirty, x);
    }
  }

  /** The whole step. */
  lemma FinishKeeps(cfg: Config, s: State, owed: set<RequestId>, dirty: bool, id: RequestId, how: Outcome)
    requires Inv(cfg, s, owed, dirty) && id in s.active && how != QueueTimeout
    requires how == Completed && id in s.accepted && id in s.streams.sent ==>
               Tokens(s.streams.sent[id]) == Reference(cfg, s.accepted[id].prompt, s.accepted[id].maxTokens)
    ensures id in s.requests && Inv(cfg, Finish(cfg, s, id, how), owed - {id}, dirty)
  {
    var seats := SeatsOf(s.active);
    assert SeqAt(cfg, s, owed, dirty, id);
    assert PlacedAt(s.waiting, seats, s.accepted, s.outcome, id);
    SeatsWithout(s.active, id);
    PartitionFinish(cfg.nSeqMax, seats, s.freeSlots, id);
    CellsFitFinish(cfg.nSeqMax, s.freeSlots, s.store, seats[id]);
    PlacedFinish(s.waiting, seats, s.accepted, s.outcome, id, how);
    AccountedFinish(cfg, s.waiting, seats, s.accepted, s.kv, id);
    PublishedFinish(cfg, s.claims, seats, s.accepted, id);
    StreamedFinish(cfg, s.streams, s.waiting, s.accepted, s.outcome, id, how);
    OthersSitElsewhere(cfg.nSeqMax, s.active, s.freeSlots, id);
    SequencesFinish(cfg, s, owed, dirty, id, how);
  }

  lemma OthersSitElsewhere(n: nat, active: map<RequestId, ActiveSeq>, freeSlots: seq<nat>, id: RequestId)
    requires Partition(n, SeatsOf(active), freeSlots) && id in active
    ensures forall x :: x in active && x != id ==> active[x].seqId != active[id].seqId
  {
    var seats := SeatsOf(active);
    forall x | x in active && x != id ensures active[x].seqId != active[id].seqId {
      assert seats[x] != seats[id];
    }
  }

  /** What a finished request gives back: its slot, its cells, its blocks and its claim. */
  lemma FinishReturnsEverything(cfg: Config, s: State, owed: set<RequestId>, dirty: bool, id: RequestId, how: Outcome)
    requires Inv(cfg, s, owed, dirty) && id in s.active
    ensures id in s.requests
    ensures var s' := Finish(cfg, s, id, how);
            var slot := s.requests[id].seqId;
            && id !in s'.active && id !in s'.requests && id !in s'.kv.table
            && s'.kv.free == s.kv.free + Budget(cfg, s.accepted[id])
            && slot in s'.freeSlots && CellsOf(s'.store, slot) == map[]
            && (forall i :: 0 <= i < |s'.claims| ==> s'.claims[i].owner != slot)
  {
    assert SeqAt(cfg, s, owed, dirty, id);
    assert SeatsOf(s.active)[id] == s.requests[id].seqId;
    PrefixClaims.EvictedIsAbsent(s.claims, s.requests[id].seqId);
  }
}
