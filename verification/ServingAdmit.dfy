/** Giving a waiting request a slot, with prefix reuse, keeps the invariant. */
module ServingAdmit {
  import opened Requests
  import opened KvCache
  import opened Waiting
  import opened Streaming
  import opened Batch
  import opened Runtime
  import opened Serving
  import opened Greedy
  import opened ServingInvariant
  import opened ServingQueue
  import PrefixClaims

  function TopSlot(s: State): (slot: nat)
    requires s.freeSlots != []
  {
    s.freeSlots[|s.freeSlots| - 1]
  }

  // ---------------------------------------------------------------- the donor

  /** The donor of a hit is an active request in another slot whose prompt starts with the
      same tokens. */
  lemma DonorIsActive(cfg: Config, s: State, owed: set<RequestId>, prompt: seq<Token>) returns (donor: RequestId)
    requires Inv(cfg, s, owed, false) && s.freeSlots != [] && prompt != []
    requires PrefixClaims.MatchForReuse(s.claims, prompt, cfg.blockSize).nTokens > 0
    ensures var hit := PrefixClaims.MatchForReuse(s.claims, prompt, cfg.blockSize);
            && donor in s.active && donor in s.accepted && s.active[donor].seqId == hit.seqId != TopSlot(s)
            && hit.nTokens < |prompt| && hit.nTokens <= |s.accepted[donor].prompt|
            && prompt[..hit.nTokens] == s.accepted[donor].prompt[..hit.nTokens]
  {
    var seats, bs := SeatsOf(s.active), cfg.blockSize;
    var hit, k := PrefixClaims.MatchForReuse(s.claims, prompt, bs), PrefixClaims.ReuseLen(s.claims, prompt, bs);
    var path := PrefixClaims.Blocks(prompt, bs);
    PrefixClaims.ReuseIsClamped(s.claims, prompt, bs);
    PrefixClaims.OwnersMembers(s.claims, path[..k], hit.seqId);
    var i :| 0 <= i < |s.claims| && s.claims[i].owner == hit.seqId && path[..k] <= s.claims[i].blocks;
    donor :| IsClaimOf(cfg, s.claims[i], seats, s.accepted, donor);
    var other := s.accepted[donor].prompt;
    assert path[..k] == PrefixClaims.Blocks(other, bs)[..k];
    PrefixClaims.BlocksAgree(prompt, other, bs, k);
  }

  /** Donor soundness: the copy is refused exactly when the donor, which is still active, has
      prefilled fewer tokens than were matched; never because it has gone. */
  lemma ReuseRefusedOnlyByProgress(cfg: Config, s: State, owed: set<RequestId>, prompt: seq<Token>)
    returns (donor: RequestId)
    requires Inv(cfg, s, owed, false) && s.freeSlots != [] && prompt != []
    requires PrefixClaims.MatchForReuse(s.claims, prompt, cfg.blockSize).nTokens > 0
    ensures var hit := PrefixClaims.MatchForReuse(s.claims, prompt, cfg.blockSize);
            && donor in s.active && donor in s.accepted && s.active[donor].seqId == hit.seqId != TopSlot(s)
            && hit.nTokens < |prompt|
            && prompt[..hit.nTokens] <= s.accepted[donor].prompt
            && (CanReuse(s.store, hit.seqId, TopSlot(s), hit.nTokens) <==> hit.nTokens <= s.active[donor].nPast)
            && (hit.nTokens <= s.active[donor].nPast ==>
                  Below(CellsOf(s.store, hit.seqId), hit.nTokens) == ContextOf(prompt[..hit.nTokens]))
  {
    var hit := PrefixClaims.MatchForReuse(s.claims, prompt, cfg.blockSize);
    donor := DonorIsActive(cfg, s, owed, prompt);
    assert SeqAt(cfg, s, owed, false, donor);
    var p := s.accepted[donor].prompt;
    var h, n := p + Tokens(s.streams.sent[donor]), s.active[donor].nPast;
    assert p[..hit.nTokens] <= p;
    ReuseOfContext(h[..n], hit.nTokens);
    if hit.nTokens <= n {
      assert h[..n][..hit.nTokens] == p[..hit.nTokens];
    }
  }

  /** After admission the slot holds exactly the reused tokens, fewer than the prompt has. */
  lemma AdmittedCells(cfg: Config, s: State, owed: set<RequestId>, r: Request)
    requires Inv(cfg, s, owed, false) && s.freeSlots != [] && r.prompt != []
    ensures var slot, n := TopSlot(s), Reused(cfg, s, r.prompt, TopSlot(s));
            var store' := AdmitOne(cfg, s, r).store;
            && n < |r.prompt|
            && CellsOf(store', slot) == ContextOf(r.prompt[..n])
            && (forall other: nat :: other != slot ==> CellsOf(store', other) == CellsOf(s.store, other))
            && (forall other: nat :: other in store' <==> other in s.store)
  {
    var slot := TopSlot(s);
    var hit := PrefixClaims.MatchForReuse(s.claims, r.prompt, cfg.blockSize);
    assert slot in s.freeSlots;
    if cfg.prefixEnabled && CanReuse(s.store, hit.seqId, slot, hit.nTokens) {
      var _ := ReuseRefusedOnlyByProgress(cfg, s, owed, r.prompt);
      CopiedStore(s.store, hit.seqId, slot, hit.nTokens, ContextOf(r.prompt[..hit.nTokens]));
    } else {
      assert ContextOf(r.prompt[..0]) == map[];
    }
  }

  lemma CopiedStore(store: Store, src: int, dst: nat, n: int, ctx: Context)
    requires CanReuse(store, src, dst, n) && dst in store && store[dst] == map[]
    requires Below(CellsOf(store, src), n) == ctx
    ensures var store' := AfterReuse(store, src, dst, n);
            && CellsOf(store', dst) == ctx
            && (forall other: nat :: other != dst ==> CellsOf(store', other) == CellsOf(store, other))
            && (forall other: nat :: other in store' <==> other in store)
  {
    assert map[] + ctx == ctx;
  }

  // ---------------------------------------------------------------- slots and books

  lemma SeatsWith(active: map<RequestId, ActiveSeq>, id: RequestId, a: ActiveSeq)
    ensures SeatsOf(active[id := a]) == SeatsOf(active)[id := a.seqId]
  {
  }

  lemma PartitionAdmit(n: nat, seats: Seats, freeSlots: seq<nat>, id: RequestId)
    requires Partition(n, seats, freeSlots) && freeSlots != [] && id !in seats
    ensures Partition(n, seats[id := freeSlots[|freeSlots| - 1]], freeSlots[..|freeSlots| - 1])
  {
    var k := |freeSlots| - 1;
    var slot, free' := freeSlots[k], freeSlots[..k];
    var seats' := seats[id := slot];
    assert forall x :: x in freeSlots <==> x in free' || x == slot by {
      assert freeSlots == free' + [slot];
    }
    assert slot !in free';
    forall y | y in seats' ensures seats'[y] < n && seats'[y] !in free' {
      assert y != id ==> seats[y] !in freeSlots;
    }
    forall y, z | y in seats' && z in seats' && y != z ensures seats'[y] != seats'[z] {
      assert slot in freeSlots;
      assert (y != id ==> seats[y] != slot) && (z != id ==> seats[z] != slot);
    }
    forall x: nat | x < n ensures x in free' || exists y :: y in seats' && seats'[y] == x {
      if x == slot {
        assert id in seats' && seats'[id] == x;
      } else if x !in free' {
        var y :| y in seats && seats[y] == x;
        assert y in seats' && seats'[y] == x;
      }
    }
  }

  lemma PlacedAdmit(waiting: seq<Request>, seats: Seats, accepted: map<RequestId, Request>,
                    outcome: map<RequestId, Outcome>, id: RequestId, slot: nat)
    requires Placed(waiting, seats, accepted, outcome) && Waits(waiting, id)
    ensures Placed(Removed(waiting, id), seats[id := slot], accepted, outcome)
  {
    var waiting', seats' := Removed(waiting, id), seats[id := slot];
    RemovedDistinct(waiting, id);
    assert PlacedAt(waiting, seats, accepted, outcome, id);
    forall r | r in waiting' ensures r.id in accepted && accepted[r.id] == r {
      RemovedMembers(waiting, id, r);
    }
    forall x ensures PlacedAt(waiting', seats', accepted, outcome, x) {
      assert PlacedAt(waiting, seats, accepted, outcome, x);
      WaitsWithout(waiting, id, x);
    }
  }

  lemma AccountedAdmit(cfg: Config, waiting: seq<Request>, seats: Seats, accepted: map<RequestId, Request>, kv: Kv,
                       id: RequestId, slot: nat)
    requires Accounted(cfg, waiting, seats, accepted, kv) && Waits(waiting, id)
    ensures Accounted(cfg, Removed(waiting, id), seats[id := slot], accepted, kv)
  {
    forall x ensures x in kv.table <==> x in seats[id := slot] || Waits(Removed(waiting, id), x) {
      WaitsWithout(waiting, id, x);
    }
  }

  lemma PublishedAdmit(cfg: Config, claims: seq<PrefixClaims.Claim>, seats: Seats, accepted: map<RequestId, Request>,
                       id: RequestId, slot: nat)
    requires Published(cfg, claims, seats, accepted) && id !in seats && id in accepted
    requires forall x :: x in seats ==> seats[x] != slot
    ensures Published(cfg,
                      if cfg.prefixEnabled
                      then PrefixClaims.Insert(claims, slot, PrefixClaims.Blocks(accepted[id].prompt, cfg.blockSize))
                      else claims,
                      seats[id := slot], accepted)
  {
    var blocks, seats' := PrefixClaims.Blocks(accepted[id].prompt, cfg.blockSize), seats[id := slot];
    if cfg.prefixEnabled {
      var claims' := PrefixClaims.Insert(claims, slot, blocks);
      NoClaimYet(cfg, claims, seats, accepted, slot);
      PrefixClaims.EvictAbsent(claims, slot);
      PrefixClaims.InsertDistinct(claims, slot, blocks);
      forall i {:trigger claims'[i]} | 0 <= i < |claims'| ensures ClaimOk(cfg, claims'[i], seats', accepted) {
        if i < |claims| {
          assert claims'[i] == claims[i];
          var x :| IsClaimOf(cfg, claims[i], seats, accepted, x);
          assert IsClaimOf(cfg, claims'[i], seats', accepted, x);
        } else {
          assert IsClaimOf(cfg, claims'[i], seats', accepted, id);
        }
      }
      forall x ensures HasClaim(cfg, claims', seats', accepted, x) {
        assert HasClaim(cfg, claims, seats, accepted, x);
      }
    }
  }

  lemma NoClaimYet(cfg: Config, claims: seq<PrefixClaims.Claim>, seats: Seats, accepted: map<RequestId, Request>,
                   slot: nat)
    requires Published(cfg, claims, seats, accepted) && forall x :: x in seats ==> seats[x] != slot
    ensures forall i :: 0 <= i < |claims| ==> claims[i].owner != slot
  {
    forall i | 0 <= i < |claims| ensures claims[i].owner != slot {
      var x :| IsClaimOf(cfg, claims[i], seats, accepted, x);
    }
  }

  lemma StreamedAdmit(cfg: Config, st: Streams, waiting: seq<Request>, accepted: map<RequestId, Request>,
                      outcome: map<RequestId, Outcome>, id: RequestId)
    requires Streamed(cfg, st, waiting, accepted, outcome)
    ensures Streamed(cfg, st, Removed(waiting, id), accepted, outcome)
  {
    var waiting' := Removed(waiting, id);
    forall x ensures StreamedAt(cfg, st, waiting', accepted, outcome, x) {
      assert StreamedAt(cfg, st, waiting, accepted, outcome, x);
      WaitsWithout(waiting, id, x);
    }
  }

  /** A fresh sequence: the reused tokens are resident, the rest of the prompt is pending. */
  lemma FreshSeqOk(cfg: Config, r: Request, slot: nat, n: nat, ctx: Context)
    requires Worthy(r) && n < |r.prompt| && ctx == ContextOf(r.prompt[..n])
    ensures SeqOk(cfg, r, ActiveSeq(slot, r.prompt[n..], n), ReqState(slot, r.maxTokens, 0), [], ctx, false, false)
  {
    var none: seq<Token> := [];
    assert r.prompt + none == r.prompt;
    assert none + Reference(cfg, r.prompt, r.maxTokens) == Reference(cfg, r.prompt, r.maxTokens);
  }

  lemma SequencesAdmit(cfg: Config, s: State, owed: set<RequestId>, r: Request)
    requires Inv(cfg, s, owed, false) && s.freeSlots != [] && r in s.waiting && r.id !in owed
    ensures Sequences(cfg, AdmitOne(cfg, s, r), owed, false)
  {
    var s', slot, seats := AdmitOne(cfg, s, r), TopSlot(s), SeatsOf(s.active);
    assert Waits(s.waiting, r.id);
    assert PlacedAt(s.waiting, seats, s.accepted, s.outcome, r.id);
    assert StreamedAt(cfg, s.streams, s.waiting, s.accepted, s.outcome, r.id);
    AdmittedCells(cfg, s, owed, r);
    FreshSeqOk(cfg, r, slot, Reused(cfg, s, r.prompt, slot), CellsOf(s'.store, slot));
    assert slot in s.freeSlots;
    forall x ensures SeqAt(cfg, s', owed, false, x) {
      assert SeqAt(cfg, s, owed, false, x);
      if x in s.active && x != r.id {
        assert seats[x] == s.active[x].seqId != slot;
      }
    }
  }

  lemma BooksAdmit(cfg: Config, s: State, owed: set<RequestId>, r: Request)
    requires Inv(cfg, s, owed, false) && s.freeSlots != [] && r in s.waiting
    ensures var slot, seats', waiting' := TopSlot(s), SeatsOf(s.active)[r.id := TopSlot(s)], Removed(s.waiting, r.id);
            && Partition(cfg.nSeqMax, seats', s.freeSlots[..|s.freeSlots| - 1])
            && Placed(waiting', seats', s.accepted, s.outcome)
            && Accounted(cfg, waiting', seats', s.accepted, s.kv)
            && |waiting'| < |s.waiting|
            && Published(cfg,
                         if cfg.prefixEnabled
                         then PrefixClaims.Insert(s.claims, slot, PrefixClaims.Blocks(r.prompt, cfg.blockSize))
                         else s.claims,
                         seats', s.accepted)
  {
    var slot, seats := TopSlot(s), SeatsOf(s.active);
    assert slot in s.freeSlots;
    assert Waits(s.waiting, r.id);
    assert PlacedAt(s.waiting, seats, s.accepted, s.outcome, r.id);
    RemovedDistinct(s.waiting, r.id);
    PartitionAdmit(cfg.nSeqMax, seats, s.freeSlots, r.id);
    PlacedAdmit(s.waiting, seats, s.accepted, s.outcome, r.id, slot);
    AccountedAdmit(cfg, s.waiting, seats, s.accepted, s.kv, r.id, slot);
    PublishedAdmit(cfg, s.claims, seats, s.accepted, r.id, slot);
  }

  lemma SeatsAdmit(cfg: Config, s: State, r: Request)
    requires cfg.blockSize >= 1 && s.freeSlots != []
    ensures SeatsOf(AdmitOne(cfg, s, r).active) == SeatsOf(s.active)[r.id := TopSlot(s)]
  {
    var s' := AdmitOne(cfg, s, r);
    SeatsWith(s.active, r.id, s'.active[r.id]);
  }

  lemma BooksAfter(cfg: Config, s: State, owed: set<RequestId>, r: Request)
    requires Inv(cfg, s, owed, false) && s.freeSlots != [] && r in s.waiting
    ensures var s' := AdmitOne(cfg, s, r);
            var seats' := SeatsOf(s'.active);
            && Partition(cfg.nSeqMax, seats', s'.freeSlots)
            && Placed(s'.waiting, seats', s'.accepted, s'.outcome)
            && Accounted(cfg, s'.waiting, seats', s'.accepted, s'.kv)
            && |s'.waiting| < |s.waiting|
            && Published(cfg, s'.claims, seats', s'.accepted)
  {
    BooksAdmit(cfg, s, owed, r);
    SeatsAdmit(cfg, s, r);
  }

  lemma CellsAfter(cfg: Config, s: State, owed: set<RequestId>, r: Request)
    requires Inv(cfg, s, owed, false) && s.freeSlots != [] && r in s.waiting
    ensures CellsFit(cfg.nSeqMax, AdmitOne(cfg, s, r).freeSlots, AdmitOne(cfg, s, r).store)
  {
    assert Worthy(r) by { assert PlacedAt(s.waiting, SeatsOf(s.active), s.accepted, s.outcome, r.id); }
    AdmittedCells(cfg, s, owed, r);
    CellsFitAdmit(cfg.nSeqMax, s.freeSlots, s.store, AdmitOne(cfg, s, r).store);
  }

  lemma AdmitOneKeeps(cfg: Config, s: State, owed: set<RequestId>, r: Request)
    requires Inv(cfg, s, owed, false) && s.freeSlots != [] && r in s.waiting && r.id !in owed
    ensures Inv(cfg, AdmitOne(cfg, s, r), owed, false)
  {
    BooksAfter(cfg, s, owed, r);
    CellsAfter(cfg, s, owed, r);
    StreamedAdmit(cfg, s.streams, s.waiting, s.accepted, s.outcome, r.id);
    SequencesAdmit(cfg, s, owed, r);
  }

  lemma CellsFitAdmit(n: nat, freeSlots: seq<nat>, store: Store, store': Store)
    requires CellsFit(n, freeSlots, store) && freeSlots != []
    requires forall i, j :: 0 <= i < j < |freeSlots| ==> freeSlots[i] != freeSlots[j]
    requires forall other: nat :: other != freeSlots[|freeSlots| - 1] ==>
             CellsOf(store', other) == CellsOf(store, other)
    requires forall other: nat :: other in store' <==> other in store
    ensures CellsFit(n, freeSlots[..|freeSlots| - 1], store')
  {
    var free' := freeSlots[..|freeSlots| - 1];
    forall slot | slot in free' ensures CellsOf(store', slot) == map[] {
      var i :| 0 <= i < |free'| && free'[i] == slot;
      assert freeSlots[i] == slot;
    }
  }

  /** Admitting takes exactly the chosen ones out of the pool. */
  lemma {:induction false} AdmitAllWaiting(cfg: Config, s: State, chosen: seq<Request>, r: Request)
    requires cfg.blockSize >= 1 && |chosen| <= |s.freeSlots|
    ensures r in AdmitAll(cfg, s, chosen).waiting <==> r in s.waiting && !Waits(chosen, r.id)
  {
    if chosen != [] {
      var n := |chosen| - 1;
      AdmitAllWaiting(cfg, s, chosen[..n], r);
      RemovedMembers(AdmitAll(cfg, s, chosen[..n]).waiting, chosen[n].id, r);
      assert chosen == chosen[..n] + [chosen[n]];
      WaitsOneMore(chosen[..n], chosen[n], r.id);
    }
  }

  lemma StillWaits(cfg: Config, s: State, chosen: seq<Request>)
    requires cfg.blockSize >= 1 && |chosen| <= |s.freeSlots| && chosen != []
    requires DistinctIds(chosen) && forall r :: r in chosen ==> r in s.waiting
    ensures chosen[|chosen| - 1] in AdmitAll(cfg, s, chosen[..|chosen| - 1]).waiting
  {
    var n := |chosen| - 1;
    LastIsNew(chosen, chosen);
    AdmitAllWaiting(cfg, s, chosen[..n], chosen[n]);
  }

  /** Admitting a whole selection: each one is still waiting when its turn comes. */
  lemma {:induction false} AdmitAllKeeps(cfg: Config, s: State, chosen: seq<Request>)
    requires Inv(cfg, s, {}, false) && |chosen| <= |s.freeSlots|
    requires DistinctIds(chosen) && forall r :: r in chosen ==> r in s.waiting
    ensures Inv(cfg, AdmitAll(cfg, s, chosen), {}, false)
  {
    if chosen != [] {
      var n := |chosen| - 1;
      assert forall c :: c in chosen[..n] ==> c in chosen;
      AdmitAllKeeps(cfg, s, chosen[..n]);
      StillWaits(cfg, s, chosen);
      AdmitOneKeeps(cfg, AdmitAll(cfg, s, chosen[..n]), {}, chosen[n]);
    }
  }

  /** Admission touches neither streams nor blocks nor history. */
  lemma {:induction false} AdmitAllQuiet(cfg: Config, s: State, chosen: seq<Request>)
    requires cfg.blockSize >= 1 && |chosen| <= |s.freeSlots|
    ensures var t := AdmitAll(cfg, s, chosen);
            t.phase == s.phase && t.accepted == s.accepted && t.outcome == s.outcome && t.streams == s.streams
              && t.kv == s.kv
  {
    if chosen != [] { AdmitAllQuiet(cfg, s, chosen[..|chosen| - 1]); }
  }

  lemma {:induction false} AdmitAllTable(cfg: Config, s: State, chosen: seq<Request>, id: RequestId)
    requires cfg.blockSize >= 1 && |chosen| <= |s.freeSlots|
    ensures var t := AdmitAll(cfg, s, chosen);
            && (id in t.active <==> id in s.active || Waits(chosen, id))
            && (id in s.active && !Waits(chosen, id) ==> t.active[id] == s.active[id])
  {
    if chosen != [] {
      var n := |chosen| - 1;
      AdmitAllTable(cfg, s, chosen[..n], id);
      assert chosen == chosen[..n] + [chosen[n]];
      WaitsOneMore(chosen[..n], chosen[n], id);
    }
  }

  lemma {:induction false} AdmitAllDepth(cfg: Config, s: State, chosen: seq<Request>)
    requires cfg.blockSize >= 1 && |chosen| <= |s.freeSlots|
    requires DistinctIds(s.waiting) && DistinctIds(chosen) && forall r :: r in chosen ==> r in s.waiting
    ensures DistinctIds(AdmitAll(cfg, s, chosen).waiting)
            && |AdmitAll(cfg, s, chosen).waiting| == |s.waiting| - |chosen|
  {
    if chosen != [] {
      var n := |chosen| - 1;
      assert forall c :: c in chosen[..n] ==> c in chosen;
      AdmitAllDepth(cfg, s, chosen[..n]);
      var t, r := AdmitAll(cfg, s, chosen[..n]), chosen[n];
      StillWaits(cfg, s, chosen);
      assert Waits(t.waiting, r.id);
      RemovedDistinct(t.waiting, r.id);
    }
  }

  /** What admitting a whole selection changes. */
  lemma AdmitAllFrame(cfg: Config, s: State, chosen: seq<Request>)
    requires cfg.blockSize >= 1 && |chosen| <= |s.freeSlots|
    requires DistinctIds(s.waiting) && DistinctIds(chosen) && forall r :: r in chosen ==> r in s.waiting
    ensures var t := AdmitAll(cfg, s, chosen);
            && t.phase == s.phase && t.accepted == s.accepted && t.outcome == s.outcome && t.streams == s.streams
            && t.kv == s.kv
            && DistinctIds(t.waiting) && |t.waiting| == |s.waiting| - |chosen|
            && (forall id :: id in t.active <==> id in s.active || Waits(chosen, id))
            && (forall id :: id in s.active && !Waits(chosen, id) ==> t.active[id] == s.active[id])
  {
    var t := AdmitAll(cfg, s, chosen);
    AdmitAllQuiet(cfg, s, chosen);
    AdmitAllDepth(cfg, s, chosen);
    forall id ensures (id in t.active <==> id in s.active || Waits(chosen, id))
      && (id in s.active && !Waits(chosen, id) ==> t.active[id] == s.active[id]) {
      AdmitAllTable(cfg, s, chosen, id);
    }
  }
}
