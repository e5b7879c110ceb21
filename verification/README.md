# TinyServe, verified model

TinyServe serves one language model to many clients at once. Requests wait in a pool, a
scheduling policy gives them sequence slots, and a batch loop feeds a slice of every active
sequence to one `llama_decode` call per tick. Prompts that share a prefix share key/value cells
through a radix tree with two implementations, one in Python and one in C++.

This project models that server in Dafny and proves what it is for: **whatever else the server is
doing, a client is sent what the model would have produced for its prompt alone.** Around that
sit the results that make it true: the cells of every slot, the custody of slots and blocks, the
prefix tree as a heap structure, the fairness of the scheduler, and the time to finish.

## How it is built

The components are classes with the source's own fields, each proved against functions on
values:

| files | part of the system |
|---|---|
| `PrefixClaims`, `RadixTree` | what a prefix cache must answer (claims in publishing order), and the heap of nodes |
| `PythonPrefixCache`, `NativePrefixCache`, `NativeTeardown`, `CacheDifferential` | the two caches, the C++ teardown, and their agreement |
| `Fairness`, `WfqPolicy`, `WfqBounds`, `WfqExact`, `WfqRuns`, `Policies` | weighted fair queuing, its bounds over whole runs, how far they are exact, sequences of calls, and the policy switch |
| `KvCache`, `Waiting`, `Streaming`, `Batch`, `Runtime`, `Requests`, `FiniteSets` | block accounting and admission, the waiting pool, the streams, the batch builder, the runtime over an abstract cell store |
| `Serving`, `Greedy` | the server as a state machine whose events are the handlers and the two parts of the loop's turn, before and after the decode call, and the one-request decoder it must agree with |
| `ServingInvariant`, `ServingFinish`, `ServingQueue`, `ServingAdmit`, `ServingTick`, `ServingSample`, `ServingRuns`, `ServingTheorems`, `ServingBursts`, `ServingInstance`, `ServingEffects`, `ServingEndings`, `ServingDelivery`, `ServingAdmission` | the invariant, that every event keeps it, and the theorems over every run: outputs, cells, resources, donors, who is let in, why requests end, what reaches the clients |
| `BatchLoop`, `ServerRuns`, `ServedFairness` | the loop and the handlers as a class that updates the real components in place, each part proved to be one event; the fairness of a running server; and the end-to-end result for any script of requests, cancellations, policy switches, timeouts and decode failures |

The code awaits for a request when idle and for every decode call, and a handler runs to its first
await. After the samples of a tick, or after a failed decode, the loop goes straight on without an
await (`tinyserve/api/app.py:209-213`, `tinyserve/api/app.py:226-247`); the machine lets handlers run
there as well, which only adds behaviours, so the results hold of the code.

llama.cpp appears as a store of cells by slot and position and a function `next` from the cells a
row can see to the sampled token. A decode call may fail at any time and then leaves anything in
the slots of its batch. Clock readings appear as free choices (which waiters have waited too
long, which generations have run too long), and so does the order in which a dictionary is
walked. Request ids are fresh, prompts have at least one token (`tokenize` adds a beginning
token), and `max_tokens`, the block size and the chunk size are at least 1.

## Where the code and its comments disagree

The model follows the code.

* A refused reuse is explained in `tinyserve/api/app.py:112-115` and
  `tinyserve/runtime/llama_runtime.py:107-109` by a donor that was freed between the lookup and the
  copy. That never happens: `DonorsAreSound` proves that the donor is always an active request,
  and that the copy is refused exactly when the donor has prefilled fewer tokens than were
  matched.
* `tinyserve/api/app.py:120-124` publishes at admission so that a burst can share. Nothing
  prefilled in a tick is shared in that tick: whatever a new request starts with was prefilled by
  a request active before the tick (`ReuseComesFromEarlierTicks`), so a burst on an empty server
  shares nothing (`BurstOnEmptyServerSharesNothing`). `BurstCopiesIff` says exactly when a member
  of a burst copies; it may copy from another member, but only what that one has itself copied
  (`SharingRun`).
* `tinyserve/queue/fairness.py:9-14` says that neither an idle class nor a newcomer gets a head
  start. `NoHeadStartIff` gives the exact condition, whoever else waits: class i never takes two
  slots in a row from a waiting class j exactly if j is a newcomer or one grant takes i past j from
  wherever it can start, which is its own old finish time or, for a newcomer, that of any known
  class it waits with. `InARowIff` says exactly how many slots in a row it can take.
  `ReturningClassTakesThree` and `NewcomerCanTakeThree` give runs from a fresh policy.
* `tinyserve/api/app.py:200-201` expects ticks in which nobody's slice fits. There are none:
  `SchedulingUsesEverySlot` proves that the empty batch means nothing is active.
* `max_tokens = M` yields at most M - 1 pushed tokens, because the sample that ends a request is
  never pushed (`tinyserve/api/app.py:231-246`); `Greedy.IsCut` says so.

## Model

| member | source | states |
|---|---|---|
| `ServerRuns.Serve` | tinyserve/api/app.py:76-247 | End to end: a fresh server put through any script does exactly what the script asks, stimulus by stimulus; its history is a run of the machine with those events; the requests let in are exactly the submitted ones the admission rules accept on the state they meet; every slot goes to whom the policy in force at the time chooses, and a policy switch takes effect as named; and every client has been sent a prefix of what the one-request decoder sends, all of it if the request completed |
| `ServerRuns.SubmissionsAreDecided` | tinyserve/api/app.py:385-413 | Whether a submission of the script is among the requests let in at the end is decided by the admission rules on the state it met |
| `ServerRuns.FollowedIsRun` | tinyserve/api/app.py:183-247 | Following a script is a run of the machine whose events are the script's, in order |
| `ServerRuns.Handle` | tinyserve/api/app.py:374-413 | A submission is its arrival event, a cancellation, a taken chunk and a disconnect are theirs, a policy switch is none but changes the policy as named; no handler touches the cells or the prefix tree |
| `ServerRuns.RunLoop` | tinyserve/api/app.py:183-247 | The next part of the loop's turn is exactly one event: the end or the failure of the decode call if one is running, with the given timeouts or remains, else a scheduling tick with the given expiries and the choice of the policy in force; nothing only while it is parked on an empty queue |
| `ServedFairness.SelectionsAreOneRun` | tinyserve/api/app.py:193-196 | Between two policy switches all selections of a running server are one run of grants |
| `ServedFairness.ServedInProportion` | tinyserve/scheduler/wfq.py:18-35 | Two classes that have a request waiting at every choice between two switches are given slots in proportion to their priorities: S_i / i - S_j / j is at most max(0, 1 / i - gap), with the gap between their finish times at the first choice |
| `ServedFairness.ServedBeforeLong` | tinyserve/scheduler/wfq.py:22-33 | While a class has a request waiting at every choice and is not served, each competitor k is served at most floor(k (F_c - F_k)) + 1 times, and the class is served before more slots are given away than its competitors have allowances |
| `ServedFairness.NobodyIsOvertaken` | tinyserve/scheduler/wfq.py:24-32 | Under every policy slots go within a class in order of arrival, also before whoever is left waiting, and ties are broken by the order of the pool |
| `ServedFairness.SortedPoliciesSort` | tinyserve/scheduler/priority.py:12-14 | Under FIFO no request is passed over by a later arrival; under priority none by a lower priority or a later arrival of its own |
| `ServedFairness.NamesOfPolicies` | tinyserve/scheduler/base.py:26-37 | Which policy each name puts in force, with no history; any other name changes nothing |
| `ServingTheorems.OutputRefinesReference` | tinyserve/api/app.py:94-247 | In every state of every run, the tokens pushed for a request are a prefix of the one-request greedy output for its prompt, and equal to it once the request completed |
| `ServingTheorems.CompletedOutputIsCut` | tinyserve/api/app.py:226-247 | The output of a completed request is the greedy continuation of its prompt, cut before the end of sequence or at max_tokens - 1 tokens |
| `ServingTheorems.CompletedRunsAgree` | tests/integration/test_prefix_reuse.py:64-107 | Two servers with the same model answer a completed request alike, whatever their cache setting, chunk size, slots, policy and load |
| `ServingDelivery.ClientReceivesReference` | tinyserve/streaming/stream_manager.py:66-75 | At the client's end: who never hangs up and takes until its stream ends, of a request that completed, has received exactly what the one-request decoder sends |
| `ServingDelivery.ReceivedIsPrefix` | tinyserve/streaming/stream_manager.py:66-75 | What a client has received is at all times a prefix of what the one-request decoder sends |
| `ServingDelivery.WhoStaysGetsAll` | tinyserve/streaming/stream_manager.py:66-75 | A client that never hangs up and whose stream is no longer registered has taken everything sent to it, the end marker last |
| `ServingDelivery.EveryTurnDelivers` | tinyserve/streaming/stream_manager.py:66-75 | Each turn of a consumer brings the oldest item it has not taken, and touches nobody else's stream |
| `ServingDelivery.UnregisteredOnlyBy` | tinyserve/streaming/stream_manager.py:66-75 | A stream is unregistered only by its client going away or taking the end marker |
| `ServingEndings.UndisturbedCompletes` | tinyserve/api/app.py:129-247 | An admitted request whose client does not leave, which no tick times out and no decode failure hits, completes within ceil((prompt - reused) / chunk) + max_tokens - 1 ticks with the whole reference sent |
| `ServingEndings.EveryEndingHasItsCause` | tinyserve/api/app.py:150-247 | Queue timeouts, decode errors, generation timeouts and disconnects happen only to requests that a tick named while they waited, that were active at a failed decode, that a tick named while active, or whose client had cancelled or hung up; completion only at the end token or the end of the budget |
| `ServingEndings.LeavingIsNoticed` | tinyserve/api/app.py:235-238 | A request whose client has cancelled or hung up, or which the tick times out, does not get past the next tick that samples it |
| `ServingEndings.EveryTickHasItsEffect` | tinyserve/api/app.py:219-247 | The whole effect of a tick on a request, in terms of its prompt, its output and the model's next token: goes on with the rest of its prompt, completes, ends as disconnected, ends as timed out, or is sent the token |
| `ServingEndings.EveryStartHasItsEffect` | tinyserve/api/app.py:172-196 | The waiting requests a tick names as expired end so, the chosen ones become active, the others wait on, and who was active stays as it was |
| `ServingEndings.EveryFailureHasItsEffect` | tinyserve/api/app.py:207-213 | A failed decode call ends every active request and nobody else |
| `ServingEndings.ParksOnlyWhenIdle` | tinyserve/api/app.py:183-203 | The loop goes to sleep only when nothing is active and nothing waits; every other scheduling tick fills the slots, and decodes if anything is active |
| `ServingAdmission.LetInIff` | tinyserve/api/app.py:385-413 | A request is let in exactly if the queue is below its limit and prompt plus max_tokens fit into the free blocks, in tokens; then it waits last, holds just enough blocks and has an empty stream, and otherwise it leaves no trace |
| `ServingAdmission.FreeBlocksAre` | tinyserve/kv_cache/manager.py:14-36 | The free blocks are at all times n_ctx / block_size less what the waiting and active requests hold, each of them just enough |
| `Greedy.ReferenceIsCut` | tinyserve/api/app.py:231-247 | The reference decoder yields a list in which each token is the model's answer to everything before it, none ends the sequence, and it stops exactly at the budget or before the end token |
| `Greedy.CutIsUnique` | tinyserve/api/app.py:231-247 | There is exactly one such list, so the reference is determined without the decoder |
| `ServingTheorems.CellsAreExact` | tinyserve/api/app.py:219-224 | In every state the cells of an active slot are exactly the first n_past tokens of its own prompt and output, its pending list is the rest and not empty, and a free slot has no cells, also after reuse and after a failed decode |
| `ServingTheorems.RowsHitUnusedPositions` | tinyserve/batch/builder.py:66-80 | Every row of a running batch is for the slot of an active request; each of a sequence's rows goes to its next unused position, with no gap and no overwrite; and only the last pending token asks for logits |
| `ServingTheorems.EveryTickServesEverybody` | tinyserve/batch/builder.py:62-80 | In every tick each active sequence has exactly min(chunk, pending) rows, at least one, and the batch fits the context |
| `ServingTheorems.SchedulingUsesEverySlot` | tinyserve/api/app.py:193-203 | After a scheduling tick either no slot is free or nothing waits, and the batch is empty only if nothing is active |
| `ServingTheorems.RoomToFinish` | tinyserve/admission/controller.py:42-44 | n_past, pending and the remaining budget of an active request always add up to prompt plus max_tokens, which fit the blocks it holds |
| `ServingTheorems.CellsNeverExceedContext` | tinyserve/kv_cache/manager.py:14-36 | The cells of all active sequences together never exceed n_ctx, even if every shared prefix were copied |
| `ServingTheorems.ResourcesArePartitioned` | tinyserve/api/app.py:90-170 | In every state free and used slots partition 0 .. n_seq_max - 1, both tables of active requests agree, blocks are held by exactly the waiting and the active, free plus held is the total, and the queue respects its limit |
| `ServingTheorems.ClaimsAreActivePrompts` | tinyserve/api/app.py:120-127 | Every claim in the tree is the whole blocks of the prompt of a request that is active in that very slot, and every active prompt that fills a block is claimed |
| `ServingTheorems.DonorsAreSound` | tinyserve/api/app.py:105-127 | At every admission of every run a donor is another active request whose prompt starts with the matched tokens; the copy is refused exactly when the donor has prefilled fewer; and what is copied is exactly those tokens |
| `ServingBursts.ReuseComesFromEarlierTicks` | tinyserve/api/app.py:120-125 | Whatever a newly admitted request starts with, a request that was active before the tick had prefilled those very tokens of its own prompt |
| `ServingBursts.BurstCopiesIff` | tinyserve/api/app.py:105-127 | A member of a burst that finds a match starts with it exactly if it is no longer than what the donor had prefilled before the tick, or had itself copied in it, and else with nothing |
| `ServingInstance.SharingRun` | tinyserve/api/app.py:105-127 | A run from the initial state to a tick in which one request copies from another that is admitted in the same tick |
| `ServingBursts.BurstOnEmptyServerSharesNothing` | tinyserve/api/app.py:120-125 | Requests admitted together on an empty server all prefill in full |
| `ServingTheorems.StreamsEndOnce` | tinyserve/streaming/stream_manager.py:34-75 | A stream gets the end marker at most once and nothing after it, exactly once if the finished request's stream is still registered, never before the request is finished; what was taken and what is left to take are what was sent |
| `ServingTheorems.TickCountsDown` | tinyserve/api/app.py:205-247 | Every successful tick brings every active request that stays exactly one tick closer to its end |
| `ServingTheorems.FinishesInTime` | tinyserve/api/app.py:150-170 | An active request is gone, with its slot and blocks, after as many successful ticks as it had left, whatever else happens |
| `ServingTheorems.TicksAtAdmission` | tinyserve/api/app.py:129-141 | A newly admitted request needs ceil((prompt - reused) / chunk) + max_tokens - 1 ticks |
| `ServingTheorems.AdmittedFinishesInTime` | tinyserve/api/app.py:129-170 | At most ceil((prompt - reused) / chunk) + max_tokens - 1 successful ticks after its admission a request is gone, whatever arrives, fails or is cancelled meanwhile: it holds no blocks, its slot is free or somebody else's, and so is every claim made in that slot |
| `ServingRuns.StepKeeps` | tinyserve/api/app.py:183-247 | Every event keeps the invariant |
| `ServingRuns.RunIsGood` | tinyserve/api/app.py:183-247 | Every state of every run satisfies the invariant |
| `ServingAdmit.ReuseRefusedOnlyByProgress` | tinyserve/runtime/llama_runtime.py:111-121 | In any good state: the position check of the copy succeeds exactly when the donor's n_past covers the match |
| `ServingAdmit.AdmitOneKeeps` | tinyserve/api/app.py:129-148 | Admission keeps the invariant: the new slot holds exactly the reused tokens, its claim is its own prompt, nobody else changes |
| `ServingFinish.FinishKeeps` | tinyserve/api/app.py:150-170 | Finishing keeps the invariant for everybody else, also with unknown cells after a failed decode |
| `ServingFinish.FinishReturnsEverything` | tinyserve/api/app.py:150-170 | Afterwards the slot is free and empty, no claim names it and no block is held for the request |
| `ServingSample.SampledTells` | tinyserve/runtime/llama_runtime.py:164-168 | A tick samples exactly the sequences whose pending list it exhausts, and each sample is the model's answer to that request's own prompt and output |
| `ServingTick.BuildIsBatched` | tinyserve/api/app.py:198-205 | The reservations guarantee that one batch holds everybody's full share |
| `ServingTick.EmptyBatchMeansIdle` | tinyserve/api/app.py:199-203 | The empty batch arises exactly when nothing is active |
| `BatchLoop.Server.constructor` | tinyserve/api/app.py:250-293 | A new server is in the machine's initial state, under the configured policy |
| `BatchLoop.Server.Generate` | tinyserve/api/app.py:385-413 | Admission, reservation, stream and queue entry are one arrival event, with the verdict of the admission rules; a rejected request leaves no trace |
| `BatchLoop.Server.ClaimPrefix` | tinyserve/api/app.py:94-127 | Lookup, copy and publication on the real tree and store give the machine's claims, cells and reuse count |
| `BatchLoop.Server.Admit` | tinyserve/api/app.py:129-148 | One admission of the machine; the pop of the free slot and the removal from the queue cannot fail |
| `BatchLoop.Server.FinishRequest` | tinyserve/api/app.py:150-170 | One finish of the machine, for every component |
| `BatchLoop.Server.ExpireStaleWaiters` | tinyserve/api/app.py:172-181 | Walking a snapshot of the pool while removing from it expires exactly the chosen waiters, and no removal fails |
| `BatchLoop.Server.TickStart` | tinyserve/api/app.py:183-205 | The first part of the loop's turn is an enabled scheduling event, with the choice of the policy in force among who is left after the expiries |
| `BatchLoop.Server.Advance` | tinyserve/api/app.py:219-224 | Walking the distinct slots of the batch advances every sequence by its own rows, and the lookup by slot always succeeds |
| `BatchLoop.Server.SampleToken` | tinyserve/api/app.py:226-247 | Finish in the source's order of reasons, or count down, push and feed back |
| `BatchLoop.Server.HandleSamples` | tinyserve/api/app.py:226-247 | Handling the samples one by one while requests finish is the machine's handling of exactly the sampled requests, each once; no lookup fails |
| `BatchLoop.Server.FinishEverybody` | tinyserve/api/app.py:209-213 | A failed decode finishes every active request once |
| `BatchLoop.Server.DecodeReturns` | tinyserve/api/app.py:205-247 | The second part of the loop's turn is exactly one enabled event, a success with the given timeouts or a failure with the given remains |
| `BatchLoop.IndexBySlot` | tinyserve/api/app.py:219-219 | The map from slots to requests is total on the slots in use and names the one request in each |
| `BatchLoop.Server.SetPolicy` | tinyserve/api/app.py:328-341 | A known name puts that policy in force, an unknown one leaves the old; nothing else the machine sees changes |
| `PythonCache.PythonPrefixCache.Match` | tinyserve/prefix/cache.py:132-147 | The walk finds the longest claimed block prefix and its most recent claimant |
| `PythonCache.PythonPrefixCache.MatchForReuse` | tinyserve/prefix/cache.py:83-102 | The same, clamped below the prompt length |
| `PythonCache.PythonPrefixCache.Insert` | tinyserve/prefix/cache.py:149-166 | The tree afterwards is that of the claims with this one renewed at the end; a sub-block prompt changes nothing and publishes 0 |
| `PythonCache.PythonPrefixCache.Evict` | tinyserve/prefix/cache.py:168-184 | The tree afterwards is exactly that of the other claims |
| `PythonCache.PythonPrefixCache.NodeCount` | tinyserve/prefix/cache.py:186-187 | The counter is the number of distinct claimed block prefixes |
| `PythonCache.PythonPrefixCache.SeqCount` | tinyserve/prefix/cache.py:189-190 | The number of live claims |
| `PythonCache.PythonPrefixCache.Close` | tinyserve/prefix/cache.py:192-195 | Back to the empty tree |
| `NativeCache.NativePrefixCache.Match` | native/src/prefix_cache.cpp:113-148 | As for Python, and only live nodes are read |
| `NativeCache.NativePrefixCache.Insert` | native/src/prefix_cache.cpp:150-186 | As for Python, with the nodes in memory exactly the nodes of the tree |
| `NativeCache.NativePrefixCache.Evict` | native/src/prefix_cache.cpp:188-220 | As for Python: deletes exactly the nodes nobody else claims, and touches none after its deletion |
| `NativeCache.NativePrefixCache.NodeCount` | native/src/prefix_cache.cpp:222-224 | The number of distinct claimed block prefixes |
| `NativeCache.NativePrefixCache.SeqCount` | native/src/prefix_cache.cpp:226-228 | The number of live claims |
| `NativeTeardown.Destroy` | native/src/prefix_cache.cpp:88-111 | The explicit stack deletes every node below the root exactly once and terminates |
| `NativeTeardown.Pop` | native/src/prefix_cache.cpp:101-109 | The node taken from the stack has not been deleted yet, and what is on the stack and what is deleted stay apart |
| `CacheDifferential.Differential` | tests/unit/test_prefix_cache_differential.py:96-136 | On every finite list of operations from empty both caches give the same answers, those of the list of claims |
| `RadixTree.NodesAreClaimedPrefixes` | native/src/prefix_cache.cpp:17-31 | The nodes below the root are exactly the distinct non-empty block prefixes of the claims |
| `RadixTree.VisitedNode` | tinyserve/prefix/cache.py:172-184 | At its turn in an eviction a node has the evicted owner, and if that is the last one it has no child left: no upward cascade is needed |
| `RadixTree.PathSorts` | tinyserve/prefix/cache.py:175-175 | Sorting the owned nodes deepest first is walking the claimed path backwards, each node once |
| `RadixTree.LongestWalk` | tinyserve/prefix/cache.py:135-142 | Where the walk stops is the longest claimed prefix, and the node there lists its claimants in publishing order |
| `RadixTree.EvictionEnds` | tinyserve/prefix/cache.py:168-184 | Nodes, owner lists, per-sequence lists and the counter are those of the remaining claims |
| `RadixTree.InsertionEnds` | tinyserve/prefix/cache.py:149-166 | Nodes, owner lists, per-sequence lists and the counter are those of the extended claims |
| `PrefixClaims.MatchIsLongest` | tinyserve/prefix/cache.py:132-147 | A block prefix of the query is claimed exactly when it is no longer than the match |
| `PrefixClaims.DonorIsNewestClaimant` | tinyserve/prefix/cache.py:145-147 | A match names the last claimant of the matched prefix in publishing order |
| `PrefixClaims.OwnersClosed` | native/src/prefix_cache.cpp:19-31 | Whoever owns a prefix owns every shorter one |
| `PrefixClaims.InsertThenEvict` | tinyserve/prefix/cache.py:149-184 | Round trip: evicting a fresh claim restores the earlier claims |
| `PrefixClaims.EvictKeepsOtherAnswers` | native/src/prefix_cache.cpp:201-206 | After an eviction a prefix is matched exactly if somebody else claims it, and a lookup whose donor is somebody else is answered as before |
| `PrefixClaims.EvictOwners` | tinyserve/prefix/cache.py:175-178 | Eviction takes one owner out of every list and keeps the order of the others |
| `PrefixClaims.ReuseIsClamped` | tinyserve/prefix/cache.py:83-102 | A whole number of blocks, strictly below the prompt length, and the named donor claims the shortened prefix too |
| `PrefixClaims.ReuseIsLongest` | tinyserve/prefix/cache.py:83-102 | Of the whole blocks that leave a token to prefill, exactly those are reused whose prefix somebody claims |
| `PrefixClaims.InsertMembers` | tinyserve/prefix/cache.py:149-166 | Publishing leaves the new claim, last, and the claims of the other sequences |
| `PrefixClaims.BlocksAgree` | tinyserve/prefix/cache.py:127-130 | Prompts share their first m blocks exactly when they share their first m * block_size tokens |
| `WfqPolicy.WFQPolicy.Select` | tinyserve/scheduler/wfq.py:18-35 | min(capacity, waiting) distinct requests; each is, among what the earlier choices had left, of a class no waiting class was behind, and the earliest arrival of all classes with that finish time; within a class earlier arrivals go first and ties in the order of the pool; the finish times afterwards are those of that run of grants |
| `WfqPolicy.WFQPolicy.SelectOne` | tinyserve/scheduler/wfq.py:23-33 | The first request of least finish time and, among those, of earliest arrival, as one fair grant with its charge |
| `WfqRuns.SelectEach` | tinyserve/scheduler/wfq.py:18-35 | Any sequence of calls on one policy object is one run of grants, and the pairwise bound holds across all of them |
| `Fairness.WeightedFairQueue.VirtualFinishTime` | tinyserve/queue/fairness.py:25-31 | A newcomer adopts the least finish time of the backlogged classes that have one; a known class keeps its own |
| `Fairness.WeightedFairQueue.Charge` | tinyserve/queue/fairness.py:33-35 | The class moves by one over its priority (over 1 below that), nobody else moves |
| `Fairness.TouchAdopts` | tinyserve/queue/fairness.py:25-31 | In which order newcomers are looked at makes no difference |
| `WfqBounds.PairwiseBound` | tinyserve/scheduler/wfq.py:18-35 | Over any run of selections with both classes waiting, N_i/w_i - N_j/w_j is at most max(0, 1/w_i - (F_i - F_j at the start)), whoever else comes and goes |
| `WfqBounds.PriorityMovesByOne` | tinyserve/queue/fairness.py:22-35 | p grants to a class of priority p move its finish time by exactly 1, and a single grant does for a class below 1 |
| `WfqBounds.AllowancesInPriorities` | tinyserve/queue/fairness.py:22-35 | The allowances of known classes are the sum of floor(k (F_c - F_k)) + 1 over those not past F_c |
| `WfqBounds.StarvationBound` | tinyserve/scheduler/wfq.py:22-33 | While any class c, newcomer or not, waits ungranted, a competitor k gets no grant if F_k > F_c at the first selection and at most floor(w_k (F_c - F_k)) + 1 otherwise |
| `WfqBounds.RoomIsFloor` | tinyserve/queue/fairness.py:22-35 | floor(w * gap) + 1 grants fit into a gap that is not negative |
| `WfqBounds.EventuallyGranted` | tinyserve/scheduler/wfq.py:22-33 | Over a fixed set of classes every waiting class, newcomer or not, is granted within the sum of its competitors' allowances plus one |
| `WfqExact.StarvationIsExact` | tinyserve/scheduler/wfq.py:22-33 | With the same classes waiting all the time, newcomers or not, there is a fair run of n selections that passes a class over if and only if n is at most the sum of its competitors' allowances at the first selection |
| `WfqExact.StarvationIsExactOnceKnown` | tinyserve/scheduler/wfq.py:22-33 | The same with the others coming and going, once all classes have a finish time |
| `WfqExact.InARowIff` | tinyserve/scheduler/wfq.py:22-33 | Whoever else waits, class i can take n > 0 selections in a row from a waiting class j if and only if F + (n - 1)/w_i <= F_j for its own finish time F, or for that of some known class if it is a newcomer; a newcomer j loses at most one |
| `WfqExact.NoHeadStartIff` | tinyserve/queue/fairness.py:25-31 | Whoever else waits, class i never takes two selections in a row from a waiting class j if and only if j is a newcomer or F + 1/w_i > F_j for every finish time F at which i can start |
| `WfqExact.HeadStartIsTaken` | tinyserve/scheduler/wfq.py:22-33 | Whatever known classes wait, as long as F_i + (n - 1)/w_i is below all their finish times the next n selections all go to i |
| `WfqExact.ReturningClassTakesThree` | tinyserve/queue/fairness.py:9-14 | From a fresh policy: after a run in which class 1 waits once and gives up, it returns and takes the next three slots in a row from a class of twice its weight |
| `WfqExact.ReturningClassCanTakeThree` | tinyserve/queue/fairness.py:9-14 | There is such a run |
| `WfqExact.NewcomerCanTakeThree` | tinyserve/queue/fairness.py:9-14 | A run from a fresh policy in which a newcomer starts level with a returning class and takes three slots in a row |
| `Policies.ActivePolicy.Select` | tinyserve/scheduler/base.py:19-23 | Every policy selects min(capacity, waiting) distinct waiting requests: FIFO by arrival, priority by priority and then arrival, both without a trace, weighted fair queuing by a run of fair grants that explains every choice; all of them by arrival within a class and in the order of the pool for ties |
| `Policies.ActivePolicy.Set` | tinyserve/scheduler/base.py:26-37 | An unknown name is refused and changes nothing; a known one starts with no history |
| `Policies.SlicedSelection` | tinyserve/scheduler/priority.py:12-14 | The first of the sorted pool is a selection in key order that passes nobody over |
| `KvCache.KVCacheManager.Reserve` | tinyserve/kv_cache/manager.py:23-31 | All or nothing, refused exactly when too few blocks are free, an error for an id that holds blocks; free plus held stays the total |
| `KvCache.KVCacheManager.Release` | tinyserve/kv_cache/manager.py:33-36 | Gives back exactly what the request held; free plus held stays the total |
| `KvCache.ReserveThenRelease` | tinyserve/kv_cache/manager.py:23-36 | Round trip: releasing a fresh reservation restores the accounts, whether or not it was granted |
| `KvCache.BlocksSuffice` | tinyserve/kv_cache/manager.py:20-21 | Enough blocks, and not one too many |
| `KvCache.AdmissionController.Admit` | tinyserve/admission/controller.py:37-45 | Accepted exactly if the queue is below its limit, the id holds nothing and the tokens fit into the free blocks; each refusal for exactly its reason, the queue first; only an accepted request holds anything |
| `Waiting.RequestQueue.Push` | tinyserve/queue/request_queue.py:27-29 | A new request goes to the end of the pool; a repeated id is replaced in place |
| `Waiting.RequestQueue.Remove` | tinyserve/queue/request_queue.py:35-36 | The request with this id leaves and the order of the others stays |
| `Streaming.StreamManager.PushToken` | tinyserve/streaming/stream_manager.py:37-46 | One more chunk, or nothing if the consumer has gone |
| `Streaming.StreamManager.Close` | tinyserve/streaming/stream_manager.py:48-55 | The end marker, or nothing if the consumer has gone |
| `Streaming.StreamManager.Cancel` | tinyserve/streaming/stream_manager.py:57-60 | Marks the stream and nothing else |
| `Streaming.StreamManager.IsStreamCancelled` | tinyserve/streaming/stream_manager.py:62-64 | An unregistered stream counts as cancelled |
| `Streaming.StreamManager.Take` | tinyserve/streaming/stream_manager.py:66-75 | The oldest item not yet taken, if there is one; the end marker and nothing else unregisters the stream |
| `Batch.BuildBatch` | tinyserve/batch/builder.py:50-82 | The loop computes the rows of the sorted sequences |
| `Batch.BuildPacks` | tinyserve/batch/builder.py:62-80 | The number of rows is min(capacity, sum of min(chunk, pending)) |
| `Batch.RowsAreSlices` | tinyserve/batch/builder.py:66-80 | A sequence's rows are one slice of its pending tokens from n_past on, with logits exactly on the last pending token |
| `Batch.ShortestFirst` | tinyserve/batch/builder.py:62-69 | If a sequence gets fewer rows than its share, no sequence with more pending tokens gets any |
| `Batch.CutShortFirst` | tinyserve/batch/builder.py:66-69 | In packing order, behind a sequence that is cut short nobody gets a row |
| `Batch.BuildGivesFullShares` | tinyserve/batch/builder.py:66-80 | With room for the whole demand everybody's rows are exactly its full share |
| `Runtime.LlamaRuntime.Decode` | tinyserve/runtime/llama_runtime.py:150-168 | Every row is written at its position and every row with logits is sampled from its own sequence up to its own position, or the call fails |
| `Runtime.LlamaRuntime.Fill` | tinyserve/runtime/llama_runtime.py:151-158 | The batch buffer holds the rows, within its bounds |
| `Runtime.LlamaRuntime.ReusePrefix` | tinyserve/runtime/llama_runtime.py:97-121 | Copies the first n positions exactly if the donor reaches that far and is another slot |
| `Runtime.LlamaRuntime.FreeSequence` | tinyserve/runtime/llama_runtime.py:93-95 | The slot has no cells afterwards and the others keep theirs |
| `Runtime.WriteSlice` | tinyserve/runtime/llama_runtime.py:153-160 | Writing a slice behind the cells extends the context by exactly its tokens |
| `Runtime.ReuseOfContext` | tinyserve/runtime/llama_runtime.py:111-121 | On gapless cells the position check counts tokens, and what is copied is the prefix |

## Left out

- llama.cpp itself: tokenizer, logits, argmax and the order of finalisation in `close`; only the cell store and `next` stand for it.
- The incremental UTF-8 decoder and the SSE framing: every pushed token is one chunk.
- Clocks, metrics, tracing and logging: timeouts are free choices of the environment.
- ctypes loading, the ABI version check and NULL arguments of the C++ functions.
- Rounding in `1.0 / weight` and in `math.ceil(n / block_size)`, and 32-bit overflow in the C++: reals and unbounded integers are used.
- The order of dictionaries and sets in the loop: any order is allowed, so the results hold for the actual one.
- HTTP routes other than the admission step of `/generate` and the policy switch, schemas, the demo page, benchmarks and deployment files.
- BatchLoop.Server: it holds the Python cache; that the C++ cache answers alike is `CacheDifferential.Differential`.
- Streaming.StreamManager.Take: one turn of the consumer's loop; the generator around it is not modelled.
- Waiting.RequestQueue.Remove: requires that the id waits, because the source raises KeyError otherwise; the loop is proved to keep to that.
