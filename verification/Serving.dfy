/** The serving loop as a state machine on values (tinyserve/api/app.py).

    The batch loop and the HTTP handlers interleave only where the code awaits, so the run
    of the server is a sequence of these atomic events. A turn of the loop is two of them: up
    to the decode call, and after it. Between the second and the next first there is no await
    in the code; letting handlers run there too only adds behaviours. Clock readings are not modelled:
    which waiters have waited too long and which generations have run too long is part of
    the event, and so is the order in which a dictionary is walked. */
module Serving {
  import opened Requests
  import opened KvCache
  import opened Waiting
  import opened Streaming
  import opened Batch
  import opened Runtime
  import PrefixClaims

  datatype Config = Config(nCtx: nat, nSeqMax: nat, blockSize: nat, chunkSize: nat, maxQueueDepth: nat,
                           prefixEnabled: bool, eos: Token, next: Model)

  ghost predicate Sane(cfg: Config)
  {
    cfg.blockSize >= 1 && cfg.chunkSize >= 1
  }

  function TotalBlocks(cfg: Config): (n: nat)
    requires cfg.blockSize >= 1
  {
    cfg.nCtx / cfg.blockSize
  }

  datatype ReqState = ReqState(seqId: nat, remaining: int, emitted: nat)

  /** How a request left the server. */
  datatype Outcome = Completed | Disconnected | GenerationTimeout | DecodeError | QueueTimeout

  /** Where the loop awaits: nowhere yet, for a request to arrive, or for a decode call. */
  datatype Phase = Ready | Parked | Decoding(rows: seq<Row>)

  /** `accepted` and `outcome` are history: every request ever let in, and how it ended. */
  datatype State = State(
    waiting: seq<Request>,
    kv: Kv,
    active: map<RequestId, ActiveSeq>,
    requests: map<RequestId, ReqState>,
    freeSlots: seq<nat>,
    claims: seq<PrefixClaims.Claim>,
    store: Store,
    streams: Streams,
    phase: Phase,
    accepted: map<RequestId, Request>,
    outcome: map<RequestId, Outcome>)

  datatype Event =
    | Arrive(r: Request)
    | Cancel(id: RequestId)
    | Consume(id: RequestId)
    | Disconnect(id: RequestId)
    | TickStart(expired: set<RequestId>, chosen: seq<Request>, order: seq<RequestId>)
    | TickEnd(timedOut: set<RequestId>, order: seq<RequestId>)
    | TickFail(garbage: Store, ids: seq<RequestId>)

  function Init(cfg: Config): (s: State)
    requires cfg.blockSize >= 1
  {
    State([], Kv(TotalBlocks(cfg), map[]), map[], map[], seq(cfg.nSeqMax, i => i), [],
          EmptyStore(cfg.nSeqMax), Streams(map[], map[], map[]), Ready, map[], map[])
  }

  // ---------------------------------------------------------------- the handlers

  /** Admission, reservation, stream and queue entry: no await in between. */
  function AfterArrive(cfg: Config, s: State, r: Request): (s': State)
    requires cfg.blockSize >= 1 && r.maxTokens >= 0
  {
    var worst := |r.prompt| + r.maxTokens;
    if Decide(s.kv, r.id, worst, cfg.blockSize, |s.waiting|, cfg.maxQueueDepth) != Accepted then s
    else s.(kv := AfterReserve(s.kv, r.id, worst, cfg.blockSize),
            streams := AfterCreate(s.streams, r.id),
            waiting := Pushed(s.waiting, r),
            accepted := s.accepted[r.id := r])
  }

  // ---------------------------------------------------------------- the loop

  function ExpireOne(s: State, id: RequestId): (s': State)
  {
    s.(waiting := Removed(s.waiting, id), kv := AfterRelease(s.kv, id),
       streams := AfterPut(s.streams, id, End), outcome := s.outcome[id := QueueTimeout])
  }

  /** Walk a snapshot of the pool and drop who has waited too long. */
  function ExpireAll(s: State, pool: seq<Request>, expired: set<RequestId>): (s': State)
  {
    if pool == [] then s
    else
      var before, id := ExpireAll(s, pool[..|pool| - 1], expired), pool[|pool| - 1].id;
      if id in expired then ExpireOne(before, id) else before
  }

  /** The lookup and the copy: how many leading tokens the new slot starts with. */
  function Reused(cfg: Config, s: State, prompt: seq<Token>, slot: nat): (n: nat)
    requires cfg.blockSize >= 1
  {
    var hit := PrefixClaims.MatchForReuse(s.claims, prompt, cfg.blockSize);
    if cfg.prefixEnabled && CanReuse(s.store, hit.seqId, slot, hit.nTokens) then hit.nTokens else 0
  }

  function AdmitOne(cfg: Config, s: State, r: Request): (s': State)
    requires cfg.blockSize >= 1 && s.freeSlots != []
  {
    var slot := s.freeSlots[|s.freeSlots| - 1];
    var hit := PrefixClaims.MatchForReuse(s.claims, r.prompt, cfg.blockSize);
    var reused := Reused(cfg, s, r.prompt, slot);
    s.(waiting := Removed(s.waiting, r.id),
       freeSlots := s.freeSlots[..|s.freeSlots| - 1],
       store := if cfg.prefixEnabled then AfterReuse(s.store, hit.seqId, slot, hit.nTokens) else s.store,
       claims := if cfg.prefixEnabled
                 then PrefixClaims.Insert(s.claims, slot, PrefixClaims.Blocks(r.prompt, cfg.blockSize))
                 else s.claims,
       active := s.active[r.id := ActiveSeq(slot, if reused <= |r.prompt| then r.prompt[reused..] else [], reused)],
       requests := s.requests[r.id := ReqState(slot, r.maxTokens, 0)])
  }

  function AdmitAll(cfg: Config, s: State, chosen: seq<Request>): (s': State)
    requires cfg.blockSize >= 1 && |chosen| <= |s.freeSlots|
    ensures |s'.freeSlots| == |s.freeSlots| - |chosen|
  {
    if chosen == [] then s
    else AdmitOne(cfg, AdmitAll(cfg, s, chosen[..|chosen| - 1]), chosen[|chosen| - 1])
  }

  function Finish(cfg: Config, s: State, id: RequestId, how: Outcome): (s': State)
    requires id in s.requests
  {
    var slot := s.requests[id].seqId;
    s.(requests := s.requests - {id},
       claims := if cfg.prefixEnabled then PrefixClaims.Evict(s.claims, slot) else s.claims,
       store := AfterFree(s.store, slot),
       freeSlots := s.freeSlots + [slot],
       active := s.active - {id},
       kv := AfterRelease(s.kv, id),
       streams := AfterPut(s.streams, id, End),
       outcome := s.outcome[id := how])
  }

  ghost predicate ListsAll(order: seq<RequestId>, active: map<RequestId, ActiveSeq>)
  {
    && (forall i, j :: 0 <= i < j < |order| ==> order[i] != order[j])
    && (forall i :: 0 <= i < |order| ==> order[i] in active)
    && (forall id :: id in active ==> id in order)
  }

  /** The active sequences in the order the dictionary is walked. */
  function Listed(active: map<RequestId, ActiveSeq>, order: seq<RequestId>): (list: seq<ActiveSeq>)
    requires forall i :: 0 <= i < |order| ==> order[i] in active
    ensures |list| == |order|
  {
    seq(|order|, i requires 0 <= i < |order| => active[order[i]])
  }

  ghost function AfterSchedule(cfg: Config, s: State, chosen: seq<Request>, order: seq<RequestId>): (s': State)
    requires cfg.blockSize >= 1 && |chosen| <= |s.freeSlots|
    requires ListsAll(order, AdmitAll(cfg, s, chosen).active)
  {
    var t := AdmitAll(cfg, s, chosen);
    var rows := Build(Listed(t.active, order), cfg.nCtx, cfg.chunkSize);
    t.(phase := if rows == [] then Ready else Decoding(rows))
  }

  /** n_past and pending_tokens after the rows of this batch. */
  function Advanced(a: ActiveSeq, rows: seq<Row>): (a': ActiveSeq)
  {
    var n := RowCount(rows, a.seqId);
    ActiveSeq(a.seqId, if n <= |a.pending| then a.pending[n..] else [], a.nPast + n)
  }

  function AdvanceAll(s: State, rows: seq<Row>): (s': State)
  {
    s.(store := Written(s.store, rows), active := map id | id in s.active :: Advanced(s.active[id], rows))
  }

  /** A sample costs one token of the budget, whatever becomes of it. */
  function CountedDown(s: State, id: RequestId): (s': State)
    requires id in s.requests
  {
    s.(requests := s.requests[id := s.requests[id].(remaining := s.requests[id].remaining - 1)])
  }

  /** The token goes to the client and is the next to be decoded. */
  function FedBack(s: State, id: RequestId, token: Token): (s': State)
    requires id in s.requests && id in s.active
  {
    s.(requests := s.requests[id := s.requests[id].(emitted := s.requests[id].emitted + 1)],
       streams := AfterPut(s.streams, id, Chunk(token)),
       active := s.active[id := s.active[id].(pending := [token])])
  }

  /** One sampled token: finish, or push it and feed it back. */
  function SampleOne(cfg: Config, s: State, id: RequestId, token: Token, timedOut: set<RequestId>): (s': State)
    requires id in s.requests && id in s.active
  {
    var t := CountedDown(s, id);
    if token == cfg.eos || t.requests[id].remaining <= 0 then Finish(cfg, t, id, Completed)
    else if IsCancelled(t.streams, id) then Finish(cfg, t, id, Disconnected)
    else if id in timedOut then Finish(cfg, t, id, GenerationTimeout)
    else FedBack(t, id, token)
  }

  /** The sampled tokens are handled one request after the other, each against the state
      the earlier ones left. */
  function SampleAll(cfg: Config, s: State, order: seq<RequestId>, sampled: map<nat, Token>,
                     timedOut: set<RequestId>): (s': State)
  {
    if order == [] then s
    else
      var before, id := SampleAll(cfg, s, order[..|order| - 1], sampled, timedOut), order[|order| - 1];
      if id in before.requests && id in before.active && before.requests[id].seqId in sampled
      then SampleOne(cfg, before, id, sampled[before.requests[id].seqId], timedOut)
      else before
  }

  function FinishAll(cfg: Config, s: State, ids: seq<RequestId>): (s': State)
  {
    if ids == [] then s
    else
      var before, id := FinishAll(cfg, s, ids[..|ids| - 1]), ids[|ids| - 1];
      if id in before.requests then Finish(cfg, before, id, DecodeError) else before
  }

  // ---------------------------------------------------------------- the machine

  /** Each request whose slot was sampled, once. */
  ghost predicate ListsSampled(order: seq<RequestId>, s: State, sampled: map<nat, Token>)
  {
    && (forall i, j :: 0 <= i < j < |order| ==> order[i] != order[j])
    && (forall id :: id in order <==> id in s.active && s.active[id].seqId in sampled)
  }

  /** The loop goes back to waiting when nothing is active and nothing waits. */
  predicate Idle(s: State) { s.phase == Ready && s.active == map[] && s.waiting == [] }

  ghost predicate Enabled(cfg: Config, s: State, e: Event)
  {
    cfg.blockSize >= 1 &&
    match e
    case Arrive(r) => r.id !in s.accepted && |r.prompt| >= 1 && r.maxTokens >= 1
    case Cancel(_) => true
    case Consume(_) => true
    case Disconnect(_) => true
    case TickStart(expired, chosen, order) =>
      var t := ExpireAll(s, s.waiting, expired);
      && (s.phase == Ready || (s.phase == Parked && s.waiting != []))
      && (!Idle(t) ==>
            && IsSelection(t.waiting, |t.freeSlots|, chosen)
            && ListsAll(order, AdmitAll(cfg, t, chosen).active))
    case TickEnd(timedOut, order) =>
      s.phase.Decoding? && ListsSampled(order, s, Sampled(cfg.next, Written(s.store, s.phase.rows), s.phase.rows))
    case TickFail(garbage, ids) =>
      && s.phase.Decoding?
      && (forall i, j :: 0 <= i < j < |ids| ==> ids[i] != ids[j])
      && (forall id :: id in s.requests <==> id in ids)
  }

  ghost function Apply(cfg: Config, s: State, e: Event): (s': State)
    requires Enabled(cfg, s, e)
  {
    match e
    case Arrive(r) => AfterArrive(cfg, s, r)
    case Cancel(id) => s.(streams := AfterCancel(s.streams, id))
    case Consume(id) => s.(streams := AfterTake(s.streams, id))
    case Disconnect(id) => s.(streams := AfterDrop(s.streams, id))
    case TickStart(expired, chosen, order) =>
      var t := ExpireAll(s, s.waiting, expired);
      if Idle(t) then t.(phase := Parked) else AfterSchedule(cfg, t, chosen, order)
    case TickEnd(timedOut, order) =>
      var rows := s.phase.rows;
      var t := AdvanceAll(s, rows);
      SampleAll(cfg, t, order, Sampled(cfg.next, t.store, rows), timedOut).(phase := Ready)
    case TickFail(garbage, ids) =>
      FinishAll(cfg, s.(store := Scrambled(s.store, s.phase.rows, garbage)), ids).(phase := Ready)
  }
}
