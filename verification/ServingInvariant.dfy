/** What every reachable state of the server satisfies. */
module ServingInvariant {
  import opened Requests
  import opened KvCache
  import opened Waiting
  import opened Streaming
  import opened Batch
  import opened Runtime
  import opened Serving
  import opened Greedy
  import PrefixClaims

  /** Which slot each active request sits in. */
  type Seats = map<RequestId, nat>

  function SeatsOf(active: map<RequestId, ActiveSeq>): (seats: Seats)
  {
    map id | id in active :: active[id].seqId
  }

  // ---------------------------------------------------------------- slots

  /** Free slots and taken slots partition 0 .. n - 1, and nobody shares one. */
  ghost predicate Partition(n: nat, seats: Seats, freeSlots: seq<nat>)
  {
    && (forall i, j :: 0 <= i < j < |freeSlots| ==> freeSlots[i] != freeSlots[j])
    && (forall slot :: slot in freeSlots ==> slot < n)
    && (forall id :: id in seats ==> seats[id] < n && seats[id] !in freeSlots)
    && (forall id, other :: id in seats && other in seats && id != other ==> seats[id] != seats[other])
    && (forall slot: nat :: slot < n ==> slot in freeSlots || exists id :: id in seats && seats[id] == slot)
  }

  /** Every slot has cells, and the cells of a free slot are empty. */
  ghost predicate CellsFit(n: nat, freeSlots: seq<nat>, store: Store)
  {
    && (forall slot: nat :: slot in store <==> slot < n)
    && (forall slot :: slot in freeSlots ==> CellsOf(store, slot) == map[])
  }

  // ---------------------------------------------------------------- custody

  ghost predicate Worthy(r: Request) { |r.prompt| >= 1 && r.maxTokens >= 1 }

  function Budget(cfg: Config, r: Request): (blocks: nat)
    requires cfg.blockSize >= 1
  {
    BlocksNeeded(|r.prompt| + if r.maxTokens < 0 then 0 else r.maxTokens, cfg.blockSize)
  }

  /** A request that was let in is waiting, active or done, and exactly one of these. */
  ghost predicate PlacedAt(waiting: seq<Request>, seats: Seats, accepted: map<RequestId, Request>,
                           outcome: map<RequestId, Outcome>, id: RequestId)
  {
    && (id in seats ==> id in accepted && !Waits(waiting, id) && id !in outcome)
    && (Waits(waiting, id) ==> id in accepted && id !in outcome)
    && (id in outcome ==> id in accepted)
    && (id in accepted ==>
          && accepted[id].id == id && Worthy(accepted[id])
          && (id in seats || Waits(waiting, id) || id in outcome))
  }

  ghost predicate Placed(waiting: seq<Request>, seats: Seats, accepted: map<RequestId, Request>,
                         outcome: map<RequestId, Outcome>)
  {
    && DistinctIds(waiting)
    && (forall r :: r in waiting ==> r.id in accepted && accepted[r.id] == r)
    && forall id {:trigger PlacedAt(waiting, seats, accepted, outcome, id)} ::
      PlacedAt(waiting, seats, accepted, outcome, id)
  }

  /** Blocks are held by exactly the waiting and the active requests, each by its worst case. */
  ghost predicate Accounted(cfg: Config, waiting: seq<Request>, seats: Seats, accepted: map<RequestId, Request>, kv: Kv)
  {
    && cfg.blockSize >= 1
    && Balanced(kv, TotalBlocks(cfg))
    && (forall id :: id in kv.table <==> id in seats || Waits(waiting, id))
    && (forall id :: id in kv.table ==> id in accepted && kv.table[id] == Budget(cfg, accepted[id]))
  }

  // ---------------------------------------------------------------- the prefix cache

  ghost predicate IsClaimOf(cfg: Config, c: PrefixClaims.Claim, seats: Seats, accepted: map<RequestId, Request>,
                            id: RequestId)
    requires cfg.blockSize >= 1
  {
    id in seats && id in accepted && c.owner == seats[id]
      && c.blocks == PrefixClaims.Blocks(accepted[id].prompt, cfg.blockSize)
  }

  ghost predicate ClaimOk(cfg: Config, c: PrefixClaims.Claim, seats: Seats, accepted: map<RequestId, Request>)
    requires cfg.blockSize >= 1
  {
    c.blocks != [] && exists id :: IsClaimOf(cfg, c, seats, accepted, id)
  }

  ghost predicate HasClaim(cfg: Config, claims: seq<PrefixClaims.Claim>, seats: Seats,
                           accepted: map<RequestId, Request>, id: RequestId)
    requires cfg.blockSize >= 1
  {
    id in seats && id in accepted ==>
      var blocks := PrefixClaims.Blocks(accepted[id].prompt, cfg.blockSize);
      blocks != [] ==> PrefixClaims.Claim(seats[id], blocks) in claims
  }

  /** The claims are exactly the prompts of the active slots that fill a block. */
  ghost predicate Published(cfg: Config, claims: seq<PrefixClaims.Claim>, seats: Seats,
                            accepted: map<RequestId, Request>)
  {
    && cfg.blockSize >= 1
    && (!cfg.prefixEnabled ==> claims == [])
    && PrefixClaims.DistinctOwners(claims)
    && (forall i {:trigger claims[i]} :: 0 <= i < |claims| ==> ClaimOk(cfg, claims[i], seats, accepted))
    && (cfg.prefixEnabled ==>
          forall id {:trigger HasClaim(cfg, claims, seats, accepted, id)} :: HasClaim(cfg, claims, seats, accepted, id))
  }

  // ---------------------------------------------------------------- streams

  ghost predicate OnlyChunks(items: seq<Item>)
  {
    forall i :: 0 <= i < |items| ==> items[i].Chunk?
  }

  /** A finished request: chunks, then the end marker at most once and only at the end, there
      for sure if the stream is still registered. What was pushed is a prefix of the reference
      and all of it if the request completed. */
  ghost predicate DoneOk(cfg: Config, r: Request, items: seq<Item>, how: Outcome, open: bool)
  {
    && (forall i :: 0 <= i < |items| - 1 ==> items[i].Chunk?)
    && (open ==> items != [] && items[|items| - 1] == End)
    && Tokens(items) <= Reference(cfg, r.prompt, r.maxTokens)
    && (how == Completed ==> Tokens(items) == Reference(cfg, r.prompt, r.maxTokens))
    && (how == QueueTimeout ==> Tokens(items) == [])
  }

  /** What was sent is what the consumer has taken and what it has yet to take. Once the stream is
      unregistered the consumer has taken all of it, or went away. */
  ghost predicate DeliveredAt(st: Streams, id: RequestId)
  {
    && id in st.sent && id in st.taken
    && (id in st.open ==> st.taken[id] + st.open[id].queue == st.sent[id] && OnlyChunks(st.taken[id]))
    && st.taken[id] <= st.sent[id]
  }

  ghost predicate StreamedAt(cfg: Config, streams: Streams, waiting: seq<Request>, accepted: map<RequestId, Request>,
                             outcome: map<RequestId, Outcome>, id: RequestId)
  {
    && (id in accepted <==> id in streams.sent)
    && (id in accepted ==> DeliveredAt(streams, id))
    && (id in streams.open ==> id in accepted)
    && (Waits(waiting, id) && id in accepted ==> streams.sent[id] == [])
    && (id in outcome && id in accepted ==> DoneOk(cfg, accepted[id], streams.sent[id], outcome[id],
                                                   id in streams.open))
  }

  ghost predicate Streamed(cfg: Config, streams: Streams, waiting: seq<Request>, accepted: map<RequestId, Request>,
                           outcome: map<RequestId, Outcome>)
  {
    forall id {:trigger StreamedAt(cfg, streams, waiting, accepted, outcome, id)} ::
      StreamedAt(cfg, streams, waiting, accepted, outcome, id)
  }

  // ---------------------------------------------------------------- sequences

  /** One active request: its cells are the tokens before n_past, its pending list is the
      rest, its budget fits, and what it has pushed is on the reference's track. A sequence
      that is owed a sample has nothing pending. After a failed decode call nothing is known
      about its cells. */
  ghost predicate SeqOk(cfg: Config, r: Request, a: ActiveSeq, q: ReqState, items: seq<Item>, ctx: Context,
                        owed: bool, dirty: bool)
  {
    var out := Tokens(items);
    var h := r.prompt + out;
    && OnlyChunks(items)
    && a.seqId == q.seqId
    && a.nPast <= |h| && a.pending == h[a.nPast..] && (a.nPast == |h| <==> owed)
    && q.remaining + |out| == r.maxTokens && q.remaining >= 1 && q.emitted == |out|
    && (!dirty ==> ctx == ContextOf(h[..a.nPast]))
    && OnTrack(cfg, r.prompt, r.maxTokens, out, q.remaining)
    && (out != [] ==> a.nPast >= |h| - 1)
  }

  ghost predicate SeqAt(cfg: Config, s: State, owed: set<RequestId>, dirty: bool, id: RequestId)
  {
    id in s.active ==>
      && id in s.requests && id in s.accepted && id in s.streams.sent
      && SeqOk(cfg, s.accepted[id], s.active[id], s.requests[id], s.streams.sent[id],
               CellsOf(s.store, s.active[id].seqId), id in owed, dirty)
  }

  ghost predicate Sequences(cfg: Config, s: State, owed: set<RequestId>, dirty: bool)
  {
    && s.active.Keys == s.requests.Keys
    && forall id {:trigger SeqAt(cfg, s, owed, dirty, id)} :: SeqAt(cfg, s, owed, dirty, id)
  }

  // ---------------------------------------------------------------- all of it

  ghost predicate Inv(cfg: Config, s: State, owed: set<RequestId>, dirty: bool)
  {
    var seats := SeatsOf(s.active);
    && Sane(cfg)
    && Partition(cfg.nSeqMax, seats, s.freeSlots)
    && CellsFit(cfg.nSeqMax, s.freeSlots, s.store)
    && Placed(s.waiting, seats, s.accepted, s.outcome)
    && Accounted(cfg, s.waiting, seats, s.accepted, s.kv)
    && |s.waiting| <= cfg.maxQueueDepth
    && Published(cfg, s.claims, seats, s.accepted)
    && Streamed(cfg, s.streams, s.waiting, s.accepted, s.outcome)
    && Sequences(cfg, s, owed, dirty)
  }

  /** While a decode call runs, its rows are every active sequence's full share. */
  ghost predicate Batched(cfg: Config, s: State, rows: seq<Row>)
  {
    && |rows| <= cfg.nCtx
    && (forall id :: id in s.active ==>
          RowsOf(rows, s.active[id].seqId) == Slice(s.active[id], Share(s.active[id], cfg.chunkSize)))
    && (forall slot: nat :: RowsOf(rows, slot) != [] ==> exists id :: id in s.active && s.active[id].seqId == slot)
  }

  ghost predicate PhaseOk(cfg: Config, s: State)
  {
    match s.phase
    case Ready => true
    case Parked => s.active == map[]
    case Decoding(rows) => s.active != map[] && Batched(cfg, s, rows)
  }

  ghost predicate Good(cfg: Config, s: State)
  {
    Inv(cfg, s, {}, false) && PhaseOk(cfg, s)
  }
}
