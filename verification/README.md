# A verified model of thinroute's stateful core

thinroute is an LLM gateway. Most of it moves HTTP and SQL around; this project models the parts that keep state or
promise something over many calls, and proves those promises for all inputs, all runs and all interleavings.

| Files | Part of the gateway |
|---|---|
| `AuditLog.dfy`, `AuditWrites.dfy` | audit logger: writers, closers and the flush loop around a bounded channel, as an interleaving step system, and which writes it accepts |
| `CircuitBreaker.dfy`, `BreakerProtocol.dfy`, `Client.dfy`, `ClientBackoff.dfy`, `ClientRetries.dfy` | circuit breaker, the many requests that share it, the client's three request loops, how long they wait, and what they try, return and report |
| `StreamConverter.dfy`, `StreamReading.dfy`, `StreamAgreement.dfy`, `StreamChoices.dfy`, `StreamFrame.dfy`, `StreamResponses.dfy`, `StreamAnswers.dfy` | chat chunks to Anthropic events, a reader for those events, what it reads told by the chunks' fields, and agreement with the non-streaming translation |
| `ConversationState.dfy`, `ConversationRuns.dfy`, `ConversationExpiry.dfy`, `ConversationJournal.dfy`, `ConversationStore.dfy` | bounded conversation store: its state and steps, whole runs, runs against a store that expires eagerly and against a plain map, and the class that implements the steps |
| `Registry.dfy`, `GlobalModels.dfy` | copy-on-write model metadata in two maps that share objects, and how those maps are built |
| `Failover.dfy`, `FailoverRecords.dfy` | failover sweeps of non-streaming and streaming requests, whom they call, and the attempts they record |
| `BatchPaging.dfy`, `BatchStores.dfy` | batch pages of the in-memory and the SQL store, walking through them, and both stores over a run of calls |
| `AliasIndex.dfy` | index of model aliases and the choice among an alias's targets |
| `Cooldown.dfy`, `Keyring.dfy` | cooldown of failing credentials, and rotation of API keys |
| `Strings.dfy`, `Wrappers.dfy` | string order and trimming, and the option type |

Where the code changes things step by step, the model is a class or a loop whose contract is a function of the old state,
and the properties are lemmas about that function. What the gateway gets from outside is a parameter: clock readings,
random draws, serialized sizes, upstream outcomes, cancellation, the resolution and the merging of metadata, the moment an
authorizer or a rate limiter is asked. Events stand for the byte frames of section 9.2 (Server-sent events) of the WHATWG
HTML Living Standard.

## What the proofs found

These are places where the code does less than its comments or neighbouring code suggest. Each has a concrete input, and
the exact condition under which the promise does hold.

- A second `Close` of the audit logger returns at once, possibly before accepted entries are flushed
  (`AuditLog.LaterCloseDoesNotWait`). A call returns with everything flushed in every schedule if and only if it is the
  first, or nothing is buffered when it swaps the flag (`AuditLog.CloseWaitsIff`).
- The half-open circuit's "one probe" is lost to a verdict of a request admitted before the circuit opened that arrives
  while a probe is out: it frees the probe's slot, and a second probe can follow
  (`BreakerProtocol.StaleSuccessAdmitsASecondProbe`). No other step opens that way (`BreakerProtocol.SecondProbeFollowsIff`),
  and the slot is never lost.
- A negative configured backoff with jitter above 1 sleeps longer than the maximum (`Client.NegativeDelayBreaksTheBound`).
  `Client.WaitIsBoundedIff` and `ClientBackoff.TotalBackoffIsBoundedIff` say which settings keep the bounds.
- Streamed blocks differ from the non-streaming ones when the pieces are not in phase (`StreamAnswers.LateReasoningDiffers`),
  when another choice carries something (`StreamAnswers.SecondChoiceDiffers`), when a tool call's id or name comes after
  its first fragment (`StreamAnswers.LateMetadataDiffers`; the converter keeps the first fragment's, as
  internal/providers/responses_converter.go:149-154 does not), or when the calls begin in another order than the response
  has them (`StreamAnswers.OutOfTurnDiffers`). Stop reasons differ when the finish reason precedes every tool call
  (`StreamAnswers.EarlyFinishDiffers`). `StreamAnswers.StreamingAgreesIff` is the condition. Interleaved tool calls send
  JSON deltas to blocks that have already stopped (`StreamAnswers.InterleavedDeltasMissOpenBlock`,
  `StreamAgreement.JsonDeltasTargetOpenBlocksIff`).
- Lazy expiry can be seen when a conversation with a short expiry of its own, expired but not yet removed, outlasts an
  older live one under a cap (`ConversationExpiry.MixedExpiryIsSeen`). It cannot be seen by any Get exactly if every write
  spares the entries the eager store would keep (`ConversationExpiry.LazyExpiryRefinesEager`). The gateway stores new
  snapshots with the current time and no expiry of their own, and its updates keep both as they were loaded
  (internal/server/native_conversation_service.go:58-64, 112-117); then it never can be seen, whatever the caps
  (`ConversationExpiry.AgedRunsRefineEager`).
- The reverse index of provider model IDs depends on map iteration order if two entries claim the same key
  (`AliasIndex.ModelList.TwoReverseIndexes`, `AliasIndex.ModelList.ReverseIndexIsForcedIff`); the alias index does not.
- The batch listing trims its cursor, so a walk over IDs with surrounding white space stops or repeats
  (`BatchPaging.PaddedIdBreaksTheWalk`, `BatchPaging.WalkListsEverythingIff`). The gateway makes every ID itself, as "batch_"
  and a UUID (internal/gateway/batch_orchestrator.go:177), so through it `BatchPaging.TrimmedIdsWalk` always applies; only
  stores filled in another way are affected.
- The SQL store sorts by a creation-time column that Update never writes, the in-memory store by the batch's present time,
  so an update that moves a batch is listed differently (`BatchStores.MovedBatchListsApart`,
  `BatchStores.StoresListAlikeIff`).
- The comment on `RecordFailure` promises `baseCooldown * backoffFactor^failures`, capped. The base cooldown is never read.
  The cap applies only to a counted failure that grows: not to the first one (`Cooldown.FirstFailureIsNotCapped`), and not to
  one in the anti-herd window that meets a cooldown already run out, however many were counted before
  (`Cooldown.LateHerdFailureIsNotCapped`). `Cooldown.CooldownIsCappedIff` is the condition for a call and
  `Cooldown.CapBreaksIff` for the first call of a run that breaks the cap. That failure in the window does extend a cooldown
  (`Cooldown.HerdFailureExtends`, `Cooldown.HerdFailureMovesIff`), and at the exact instant of expiry `RecordFailure` reports
  a key as cooling that `Check` reports as free (`Cooldown.CheckDisagreesAtExpiry`, `Cooldown.CheckAgreesIff`). The model
  follows the code.
- Key rotation is fair until its 64-bit counter wraps (`Keyrings.ThreeKeysAtTheWrap`), and beyond only if the number of keys
  divides 2^64 (`Keyrings.FairAcrossTheWrapIff`).

## Model

| member | source | states |
|---|---|---|
| AuditLog.BufferSize | internal/auditlog/logger.go:25-28 | the channel always has room for at least one entry, whatever is configured |
| AuditLog.StepKeepsInvariant | internal/auditlog/logger.go:49-151 | every atomic step of any writer, closer or the flush loop keeps the ledger, the sending order, the shutdown phases and the batch sizes |
| AuditLog.AcceptedIsAccountedFor | internal/auditlog/logger.go:49-151 | in every interleaving the accepted entries are those handed to flushBatch, then the local batch, then the channel, in order |
| AuditLog.ShutdownIsLossless | internal/auditlog/logger.go:86-151 | when the first Close has returned, the batches joined are the accepted entries, one for each Write that sent, in sending order, and nothing is buffered or being sent |
| AuditLog.DoneClosesAtMostOnce | internal/auditlog/logger.go:86-102 | done is closed at most once, however many Close calls race |
| AuditLog.BatchesAreBounded | internal/auditlog/logger.go:105-151 | batches are nonempty and hold at most 100 entries, the last one of a finished loop at most 99 plus the buffer |
| AuditLog.NothingAcceptedAfterDone | internal/auditlog/logger.go:49-102 | no write, running or later, is accepted once done is closed |
| AuditWrites.DropsHaveACause | internal/auditlog/logger.go:49-77 | in every interleaving, a call that did not send its entry met a closed logger after it began, or a full channel at its turn to send |
| AuditWrites.RoomMeansAccepted | internal/auditlog/logger.go:68-75 | a call whose turn to send finds room has its entry accepted next, for good, whatever follows |
| AuditWrites.UndisturbedWrite | internal/auditlog/logger.go:49-77 | a call that runs alone on an open logger changes nothing but to put its entry at the end of the channel if that has room |
| AuditWrites.NilWriteDoesNothing | internal/auditlog/logger.go:50-52 | a nil entry leaves the logger as it is |
| AuditWrites.LateCallNeverRegisters | internal/auditlog/logger.go:54-57 | a call that begins when the logger is closed is never waited for |
| AuditWrites.TickFlushesAll | internal/auditlog/logger.go:123-128 | after a tick all that the loop received is flushed |
| AuditWrites.BatchesFillWithoutTicks | internal/auditlog/logger.go:113-122 | without ticks every batch handed over before the drain has exactly 100 entries |
| AuditLog.ShutdownCanFinish | internal/auditlog/logger.go:49-151 | from every reachable state with a shutdown under way, the calls already made and the loop can bring the first Close to its return with everything flushed |
| AuditLog.EveryScheduleFinishes | internal/auditlog/logger.go:49-151 | in every schedule from there, the steps that are neither ticks nor new calls are at most the work at hand plus six for each new call, one can always be taken until the first Close has returned, and then everything is flushed |
| AuditLog.CloseWaitsIff | internal/auditlog/logger.go:86-102 | in every reachable state, a Close about to swap the flag returns with everything accepted flushed in every schedule if and only if it is the first to swap, or channel and batch are empty |
| AuditLog.LaterCloseDoesNotWait | internal/auditlog/logger.go:86-102 | a concrete interleaving in which a second Close returns while an accepted entry is unflushed |
| CircuitBreaker.Breaker.Acquire | internal/llmclient/circuit_breaker.go:41-75 | the new fields and the admission are those of the specification |
| CircuitBreaker.Breaker.ReleaseProbe | internal/llmclient/circuit_breaker.go:77-84 | frees the probe slot of a half-open circuit and changes nothing else |
| CircuitBreaker.Breaker.RecordSuccess | internal/llmclient/circuit_breaker.go:86-102 | the new fields are those of the specification |
| CircuitBreaker.Breaker.RecordFailure | internal/llmclient/circuit_breaker.go:104-121 | the new fields are those of the specification |
| CircuitBreaker.CountersAreHistory | internal/llmclient/circuit_breaker.go:41-121 | after any calls, a closed circuit's failures are those since its last success, a half-open one's successes those since it half-opened, each below its threshold |
| CircuitBreaker.OpenAdmitsOnlyAfterTimeout | internal/llmclient/circuit_breaker.go:41-75 | an open circuit admits a request if and only if more than the timeout has passed since the latest failure of the history, and then as the probe |
| CircuitBreaker.OpensOnThresholdFailures | internal/llmclient/circuit_breaker.go:104-121 | a closed circuit opens exactly on the failure that completes a run of failureThreshold failures without a success |
| CircuitBreaker.ClosesOnThresholdSuccesses | internal/llmclient/circuit_breaker.go:86-102 | a half-open circuit closes exactly on its successThreshold-th success, and on its first where the threshold is below one |
| CircuitBreaker.StateChangesIff | internal/llmclient/circuit_breaker.go:41-121 | from each state, after any history, which call opens, half-opens or closes the circuit, and that no other does |
| CircuitBreaker.SlotIsHistory | internal/llmclient/circuit_breaker.go:41-121 | the probe slot is taken exactly in a half-open circuit whose latest call was an acquire |
| CircuitBreaker.AdmissionIsHistory | internal/llmclient/circuit_breaker.go:41-75 | what any history makes of the next acquire: closed admits, open after the timeout since the latest failure, half-open unless the latest call was an acquire |
| CircuitBreaker.FailedProbeReopens | internal/llmclient/circuit_breaker.go:116-119 | a failure of a half-open circuit opens it, and the next acquire is admitted if and only if more than the timeout has passed since |
| BreakerProtocol.ProbeSlotIsNeverLost | internal/llmclient/client.go:257-317 | over any schedule of shared requests, with late completions, a taken slot means half-open with an unfinished probe |
| BreakerProtocol.RefusalHasACause | internal/llmclient/circuit_breaker.go:41-75 | a refused request means the timeout still runs or a probe is in flight, so the breaker cannot stick |
| BreakerProtocol.ExclusiveUntilStaleVerdict | internal/llmclient/circuit_breaker.go:41-121 | a probe in flight goes on holding the half-open slot over a step if and only if the step is not a stale verdict, one of a non-probe while the slot is taken |
| BreakerProtocol.SecondProbeFollowsIff | internal/llmclient/circuit_breaker.go:41-121 | after a step from a properly held slot, schedules without further stale verdicts can put two probes in flight if and only if that step was a stale verdict |
| BreakerProtocol.OneProbeAtATime | internal/llmclient/circuit_breaker.go:41-121 | over any schedule without stale verdicts at most one probe is in flight |
| BreakerProtocol.StaleSuccessAdmitsASecondProbe | internal/llmclient/circuit_breaker.go:86-102 | a concrete schedule with two probes in flight |
| Client.DoRaw | internal/llmclient/client.go:385-466 | every path through the retry loop has the trace, outcome and verdict of a request life with MaxAttempts attempts, one when a body is streamed |
| Client.DoStream | internal/llmclient/client.go:469-512 | the same with one attempt |
| Client.DoPassthrough | internal/llmclient/client.go:545-597 | the same, retrying only replayable requests and relaying every response |
| Client.HooksMatchAndOneVerdict | internal/llmclient/client.go:193-317 | one start hook first, one end hook last, at most one breaker verdict |
| Client.SendsAreBounded | internal/llmclient/client.go:326-332 | sends never exceed the allowed attempts, and a probing request sends at most once |
| Client.TotalBackoffIsBounded | internal/llmclient/client.go:334-345 | the waits of a request add up to at most MaxRetries * MaxBackoff * (1 + JitterFactor) |
| ClientBackoff.TotalBackoffIsBoundedIff | internal/llmclient/client.go:334-345 | all requests keep their waits within MaxRetries * MaxBackoff * (1 + JitterFactor), for all draws in [0, 1) and all upstreams, if and only if the longer of the draw-0 and draw-1 waits, added over the retries, is within it; no setting is excluded |
| Client.WaitIsBoundedIff | internal/llmclient/client.go:771-785 | one wait is within MaxBackoff * (1 + JitterFactor) for all draws if and only if the capped delay is not negative, or jitter is at most 1, or draw 0 stays within it |
| Client.NegativeDelayBreaksTheBound | internal/llmclient/client.go:771-785 | a configuration whose wait exceeds that bound |
| Client.SensibleWaitIsBounded | internal/llmclient/client.go:771-785 | with nonnegative settings every wait is within the bound |
| ClientRetries.TriesAgainIff | internal/llmclient/client.go:385-466 | a request makes its n-th attempt if and only if attempts are left, it is no probe, every answer so far was a 429, 502, 503, 504 or a transport error short of the client's deadline, and no wait was cancelled |
| ClientRetries.AllRetriesAreMade | internal/llmclient/client.go:326-332 | if no answer is conclusive, one attempt and all configured retries are made |
| ClientRetries.RawDeliversOnlyOk | internal/llmclient/client.go:385-466 | a request is delivered if and only if it is admitted and ends with a 200, and refused if and only if the breaker refuses it |
| ClientRetries.PassthroughRelays | internal/llmclient/client.go:545-597 | a proxied request delivers every response it ends with, under its status |
| ClientRetries.EndHookTellsOutcome | internal/llmclient/client.go:193-317 | the end hook reports a failure if and only if the caller gets one |
| ClientRetries.VerdictIsFair | internal/llmclient/client.go:290-323 | success is recorded exactly for an answer below 500 other than 429, failure exactly for a transport error not of the caller's doing, a status from 500 on, or a 429 that meets a half-open circuit; a probe gives its slot back exactly if it was not built or was cancelled |
| ClientRetries.WaitsGrowByTheFactor | internal/llmclient/client.go:771-785 | without jitter the first wait is the initial backoff and each next one the factor times the last, up to the maximum |
| ClientRetries.JitterIsEven | internal/llmclient/client.go:771-785 | jitter spreads a delay evenly around the one without it |
| Client.RecordCompletion | internal/llmclient/client.go:290-317 | on the breaker object, every status and error leaves the fields that the protocol's steps for the completion leave, a 429 by its check and then its verdict |
| Client.LifeFollowsProtocol | internal/llmclient/client.go:290-317 | what a request tells the breaker is a step the shared protocol allows, the 429 path as check and then verdict |
| StreamConverter.Converter.HandleChunk | internal/anthropicapi/stream.go:156-184 | the fields and events after a chunk are those of the specification |
| StreamConverter.Converter.HandleToolCall | internal/anthropicapi/stream.go:187-208 | the fields and events after a tool call fragment are those of the specification |
| StreamConverter.Converter.Finalize | internal/anthropicapi/stream.go:277-295 | closes the open block and ends the message once; a second call adds nothing |
| StreamConverter.Converter.Read | internal/anthropicapi/stream.go:91-126 | hands out buffered events in order before anything else, reports the end only when finalized and empty, and always makes progress |
| StreamConverter.Drain | internal/anthropicapi/stream.go:91-152 | reading to the end yields the conversion of the chunks before the sentinel, cut short exactly when the upstream fails before it |
| StreamReading.BlocksBalance | internal/anthropicapi/stream.go:212-247 | in a message that reads to its end every block starts once and stops once |
| StreamReading.MessageFrame | internal/anthropicapi/stream.go:249-295 | exactly one message_start, first; exactly one message_delta and message_stop, last |
| StreamReading.ConversionIsWellFormed | internal/anthropicapi/stream.go:156-295 | every conversion obeys the output grammar (numbered blocks, one open, deltas to blocks of their type) and reads as the blocks of its chunks' pieces |
| StreamChoices.StopReasonOfChunks | internal/anthropicapi/stream.go:181-183 | the stop reason is that of the last nonempty finish_reason in the chunks, told as a tool call if a tool fragment came no later |
| StreamFrame.ChunksAreConserved | internal/anthropicapi/stream.go:156-208 | told by the fields of the chunks: text and reasoning read back are those of all choices joined, and each tool index has one block with the arguments of all its fragments, under the id and name of the first |
| StreamFrame.MessageIsNamed | internal/anthropicapi/stream.go:249-275 | the message starts under the first chunk's trimmed id, with msg_ in front, and its model or else the default |
| StreamFrame.MessageEnds | internal/anthropicapi/stream.go:277-310 | the message ends with the stop reason of the chunks and the last chunk's usage, each positive count told and no other |
| StreamFrame.LineCounts | internal/anthropicapi/stream.go:137-154 | every chunk before the first sentinel counts, in order, and no other line |
| StreamAgreement.FromChatResponse | internal/anthropicapi/response.go:14-51 | content and stop reason of the first choice; a nil response or one without choices gives the defaults |
| StreamAgreement.ContentIsConserved | internal/anthropicapi/stream.go:161-208 | text and reasoning read back equal what the chunks carried, each tool index has its own block with its fragments in order, under the id and name of the first, and indices never share a block |
| StreamAnswers.StreamingAgreesIff | internal/anthropicapi/response.go:14-51 | against the non-streaming translation of the same response, which reads choices[0] only, has each call's last nonempty id and name, and its calls in any order of its own: the streamed blocks are the same if and only if the pieces are in phase, the other choices carry no text, reasoning or arguments, the fragments that begin calls carry the ids and names of the response's calls in turn, and a call begun out of its turn has the arguments of the one whose turn it is; the stop reasons are the same if and only if the last finish reason of the stream is told like the response's |
| StreamAnswers.SingleChoiceAgreesIff | internal/anthropicapi/stream.go:156-295 | with one choice and the calls in the order they began: the blocks if and only if the pieces are in phase and every first fragment carries its call's id and name; with those and distinct ids: if and only if the pieces are in phase and the calls began in the response's order; the stop reasons if and only if there is no tool call, or the last finish follows one, or it means tool_use itself |
| StreamAnswers.OthersAddNothingIff | internal/anthropicapi/stream.go:156-208 | other choices leave what the stream tells alone if and only if they carry no text, reasoning or arguments, and the fragments that begin calls carry, in turn, the ids and names they would without them, each call with the same arguments |
| StreamAnswers.LateReasoningDiffers | internal/anthropicapi/stream.go:156-184 | chunks out of phase whose blocks differ |
| StreamAnswers.LateMetadataDiffers | internal/anthropicapi/stream.go:187-208 | a stream with the arguments before the id and name of their call, whose blocks differ |
| StreamAnswers.OutOfTurnDiffers | internal/anthropicapi/stream.go:187-208 | a stream that begins the second call first, whose blocks differ from a response in index order |
| StreamAnswers.SecondChoiceDiffers | internal/anthropicapi/stream.go:161 | a chunk with two choices whose blocks differ |
| StreamAnswers.EarlyFinishDiffers | internal/anthropicapi/stream.go:156-184 | chunks whose finish precedes the tool call, and whose stop reasons differ |
| StreamAnswers.InterleavedDeltasMissOpenBlock | internal/anthropicapi/stream.go:187-208 | interleaved tool calls with a delta to a block that has stopped |
| StreamAgreement.JsonDeltasTargetOpenBlocksIff | internal/anthropicapi/stream.go:187-208 | JSON deltas go to the open block only if and only if no call's arguments resume after another block began |
| ConversationStore.MemoryStore.Create | internal/conversationstore/store_memory.go:88-119 | reply and new content are those of the step specification, rejections included |
| ConversationStore.MemoryStore.Get | internal/conversationstore/store_memory.go:122-138 | an expired entry is removed and not found |
| ConversationStore.MemoryStore.Update | internal/conversationstore/store_memory.go:141-179 | reply and new content are those of the step specification |
| ConversationStore.MemoryStore.AppendItems | internal/conversationstore/store_memory.go:182-216 | reply and new content are those of the step specification |
| ConversationStore.MemoryStore.Delete | internal/conversationstore/store_memory.go:219-236 | reply and new content are those of the step specification |
| ConversationStore.MemoryStore.CleanupExpiredLocked | internal/conversationstore/store_memory.go:277-290 | removes exactly the expired entries, at most once per interval |
| ConversationStore.MemoryStore.EnforceBoundsLocked | internal/conversationstore/store_memory.go:296-331 | the sorted eviction loop leaves the state that ConversationState.WriteEvictsShortestPrefix describes |
| ConversationStore.MemoryStore.Serve | internal/conversationstore/store_memory.go:88-236 | every call keeps the class invariant: equal key sets, totals, sizes and caps |
| ConversationState.WriteEvictsShortestPrefix | internal/conversationstore/store_memory.go:296-331 | a write evicts exactly the shortest prefix, in (StoredAt, id) order, of the other entries that restores both caps, and never the entry written |
| ConversationState.EvictionIsOldestFirst | internal/conversationstore/store_memory.go:296-331 | what a write evicts was stored before all that stays, or at the same time under a smaller id |
| ConversationState.SweepIsThrottled | internal/conversationstore/store_memory.go:277-290 | a sweep comes when the interval has passed, leaves exactly what is unexpired, and otherwise nothing changes |
| ConversationRuns.StepIsBounded | internal/conversationstore/store_memory.go:88-326 | every call keeps equal keys, the byte total, the size limit and both caps |
| ConversationRuns.StoreStaysBounded | internal/conversationstore/store_memory.go:88-326 | so does every run |
| ConversationRuns.EvictsOnlyOverCaps | internal/conversationstore/store_memory.go:296-331 | nothing is evicted unless a positive cap is exceeded |
| ConversationJournal.StepFollowsJournal | internal/conversationstore/store_memory.go:88-236 | with any bounds, TTL and clock, every call is answered as a journal of the calls and replies says, given whether the store still has the conversation, and what the store has is in that journal |
| ConversationJournal.GetFindsTheJournal | internal/conversationstore/store_memory.go:88-236 | over any run, a Get finds nothing but the snapshot last written under the id, with the items appended since, unexpired |
| ConversationJournal.DeletedIsGone | internal/conversationstore/store_memory.go:219-236 | over any run, once a Delete was done no Get finds the conversation until a Create of it is done |
| ConversationJournal.WrittenIsFound | internal/conversationstore/store_memory.go:88-216 | over any run, a Get right after a write that was done finds the conversation |
| ConversationJournal.UnboundedStoreIsAPlainMap | internal/conversationstore/store_memory.go:88-236 | with both caps off, every reply of every run is that of a plain map with expiry, if the clock does not go back, or if nothing expires |
| ConversationExpiry.SurvivesIff | internal/conversationstore/store_memory.go:296-331 | an entry survives a write if and only if it, all that follows it in eviction order and the written entry fit both caps |
| ConversationExpiry.WriteMirrorsIff | internal/conversationstore/store_memory.go:296-331 | a write leaves the store holding exactly the eager store's entries among the unexpired if and only if it had room, expired entries included, for everything from the first entry the eager store keeps on |
| ConversationExpiry.StepMirrorsIff | internal/conversationstore/store_memory.go:88-236 | every call gets equal replies from mirroring stores, and they mirror on if and only if its write has that room |
| ConversationExpiry.LazyExpiryRefinesEager | internal/conversationstore/store_memory.go:101-290 | over every run, with any caps and any cleanup interval, no Get at any point tells the store from one that purges all expired entries on each call if and only if every write has that room; then all replies are equal |
| ConversationExpiry.AgedRunsRefineEager | internal/conversationstore/store_memory.go:101-331 | if snapshots leave the expiry to the store, or set it to StoredAt plus TTL, every reply of every run equals the eager store's, whatever the caps |
| ConversationExpiry.UncappedLazyExpiryRefinesEager | internal/conversationstore/store_memory.go:101-290 | so it does for any expiries with both caps off |
| ConversationExpiry.MixedExpiryIsSeen | internal/conversationstore/store_memory.go:296-331 | a run from the empty store that ends in a Get with different replies |
| Registry.ModelRegistry.SetMetadata | internal/providers/registry_metadata.go:423-435 | the slot gets a new object with the metadata, all other slots and every published object stay as they are |
| Registry.ModelRegistry.Enrich | internal/modeldata/enricher.go:27-48 | each model of a provider that the list resolves gets its metadata in a new object, the others keep theirs |
| Registry.ModelRegistry.EnrichProviderModelMaps | internal/providers/registry_metadata.go:367-393 | the same for every provider, in any order, with the replacements tracked |
| Registry.ModelRegistry.ApplyOverride | internal/providers/registry_metadata.go:326-360 | an override replaces what may itself be a replacement, and original and newest object stay linked both ways; an override that changes nothing keeps the object |
| Registry.ModelRegistry.ApplyConfigMetadataOverrides | internal/providers/registry_metadata.go:295-365 | exactly the configured slots get their merged metadata |
| Registry.ModelRegistry.EnrichModels | internal/providers/registry_metadata.go:39-63 | every slot ends with the layered metadata, each global entry is the object its slot now holds even after two replacements, and no published object changes |
| Registry.RedirectingMovesWithSlots | internal/providers/registry_metadata.go:56-60 | sending the global map through the replacements keeps it coherent with the slots |
| Registry.ModelRegistry.LayeredMetadataIs | internal/providers/registry_metadata.go:295-393 | a slot ends with the metadata the list resolves it to under its own or its provider's type, or else its old one, merged with its configured override if that is not empty |
| GlobalModels.ModelInfoMapFromResponse | internal/providers/configured_models.go:152-171 | one new object for each trimmed nonempty ID, the last entry of an ID winning |
| GlobalModels.AddProviderModels | internal/providers/configured_models.go:195-212 | a model that is already there stays |
| GlobalModels.FirstWithIsFirst | internal/providers/configured_models.go:173-212 | the first provider with a model is the one before which none has it |
| GlobalModels.RebuildGlobalModelMap | internal/providers/configured_models.go:173-193 | every model maps to the object of the first provider that has it, in the given order and then by name, so the maps start coherent |
| GlobalModels.AscendingIsUnique | internal/providers/configured_models.go:181-189 | the order of the remaining providers does not depend on map iteration |
| Failover.AttemptRecorder.Record | internal/gateway/attempts.go:111-142 | an unnumbered attempt gets the next number |
| Failover.TryFailoverResponse | internal/gateway/failover.go:41-110 | the non-streaming sweep makes and records the specified calls and ends with the specified outcome |
| Failover.TryFailoverStream | internal/gateway/failover.go:166-231 | the same for the streaming sweep |
| Failover.ExecuteTranslatedWithFailover | internal/gateway/failover.go:127-164 | the same with the primary call, which a saturated route skips |
| Failover.StreamTranslatedProviderRequest | internal/gateway/inference_execute.go:388-431 | the same for streams, where an empty stream is a failure |
| Failover.CallsAreExactlyTheWantedOnes | internal/gateway/failover.go:41-231 | a saturated primary is never called; a target is called, once and in order, if and only if the primary is saturated or fails with a gateway error of 429, from 500 on or on the model, or returns nothing, the context is live, the target is authorised and available, and no such target before it answered |
| FailoverRecords.OnlyAuthorisedTargetsAreCalled | internal/gateway/failover.go:72-80 | in both forms, every target called is authorised and available |
| FailoverRecords.ServedIsTold | internal/gateway/failover.go:41-231 | provider, model and usage model told of a served request are those of the one that answered |
| FailoverRecords.EndsWithLastError | internal/gateway/failover.go:41-231 | a failed request ends with the error of its last call, a bad gateway for an empty one, or of its saturation |
| FailoverRecords.RecordsTellTheCalls | internal/gateway/attempts.go:111-142 | one record for the primary and one for each target called, in order and numbered without gaps, each with its provider, model, status and error |
| FailoverRecords.RecordedIsCalled | internal/gateway/attempts.go:111-142 | the calls are the primary, unless saturated, and the targets recorded, in that order |
| Failover.ServedByFirstAnswer | internal/gateway/failover.go:41-231 | the request is served by the first target called that answers, else fails with the last call's error |
| Failover.FormsAgree | internal/gateway/inference_execute.go:388-431 | faced with the same answers both forms make the same calls, record the same attempts numbered in order, and end alike |
| Failover.ProviderTypesAgreeIff | internal/gateway/failover.go:88-90 | they record the same provider type for a target if and only if its answer names no other |
| BatchPaging.MemoryStore.Create | internal/batch/store_memory.go:25-42 | rejects empty and existing IDs, else stores |
| BatchPaging.MemoryStore.Update | internal/batch/store_memory.go:101-117 | rejects empty and unknown IDs, else replaces |
| BatchPaging.MemoryStore.List | internal/batch/store_memory.go:56-98 | the page after the cursor in listing order, the same page the SQL statement selects, and none exactly for an unknown cursor |
| BatchPaging.MemoryPageIsSqlPage | internal/batch/store_sqlite.go:82-111 | the slice after the cursor's index is what the keyset condition, order and limit select |
| BatchPaging.StoresAgree | internal/batch/store_sqlite.go:82-111 | the keyset page is unique, so two stores with the same rows answer alike |
| BatchStores.StoresListAlikeIff | internal/batch/store_sqlite.go:46-147 | after any calls made to both stores, all their listings are alike if and only if the creation-time columns, written by Create alone, order the batches as their present times do |
| BatchStores.KeptTimesListAlike | internal/batch/store_sqlite.go:135-147 | so they are when no update changes a creation time |
| BatchStores.MovedBatchListsApart | internal/batch/store_sqlite.go:135-147 | an update after which the two stores list differently |
| BatchPaging.ListingIsUnique | internal/batch/store_memory.go:71-76 | the order is total, so the listing does not depend on map iteration or on the sort |
| BatchPaging.ListingIsNewestFirst | internal/batch/store_memory.go:71-76 | newest first, and of those created together the greatest ID first |
| BatchPaging.StorePageIsTheNextStretch | internal/batch/store.go:50-59 | a store's page has 20 batches by default and at most 101 |
| BatchPaging.ListedIsTheNextStretch | internal/gateway/batch_orchestrator.go:320-365 | the public page is the next 20 batches by default and at most 100, from the front or behind the batch that the trimmed cursor names; more if and only if any are left; an error if and only if it names none |
| BatchPaging.List | internal/gateway/batch_orchestrator.go:320-365 | the clamped page, and more exactly if there are batches beyond it |
| BatchPaging.WalkListsEverythingIff | internal/gateway/batch_orchestrator.go:320-365 | for any limit, walking by last ID yields every batch once in order, with more on every page but the last, if and only if no page-ending ID has surrounding white space |
| BatchPaging.WalkIsUnique | internal/gateway/batch_orchestrator.go:320-365 | there is only one walk |
| BatchPaging.TrimmedIdsWalk | internal/gateway/batch_orchestrator.go:320-365 | with trimmed IDs the walk lists everything whatever the limit |
| BatchPaging.PaddedIdBreaksTheWalk | internal/gateway/batch_orchestrator.go:332-338 | a store on which the walk ends in an unknown cursor |
| AliasIndex.ModelList.AddAliasTarget | internal/modeldata/types.go:73-84 | adds the target once; an empty alias adds nothing |
| AliasIndex.ModelList.SplitProviderQualifiedAlias | internal/modeldata/types.go:86-95 | splits at the first slash if and only if both parts are nonempty and the first is a known provider |
| AliasIndex.ModelList.BuildReverseIndex | internal/modeldata/types.go:39-71 | the alias index holds exactly the declared targets without duplicates, in any iteration order |
| AliasIndex.ModelList.ReverseIndexIsForcedIff | internal/modeldata/types.go:55-70 | the reverse index is determined by the list if and only if no two entries claim the same key |
| AliasIndex.ModelList.TwoReverseIndexes | internal/modeldata/types.go:55-70 | a list with two possible reverse indexes |
| AliasIndex.ModelList.SelectAliasModelRef | internal/modeldata/merger.go:122-169 | selects a model if and only if it is the only best-scoring one, or the only best one with a provider override, as a function of the set of targets |
| AliasIndex.WinnerIsUnique | internal/modeldata/merger.go:122-169 | at most one model can win |
| AliasIndex.BestRefsAre | internal/modeldata/merger.go:122-169 | targets qualified by the requested provider type beat unqualified ones, and all others are out |
| AliasIndex.ModelList.ReverseKeyIs | internal/modeldata/types.go:55-70 | a reverse key is the provider's part of the model's key and the first nonblank of its own IDs, trimmed |
| AliasIndex.ModelList.ResolveAliasRef | internal/modeldata/merger.go:107-120 | the selection depends only on the targets the list declares for the alias |
| Cooldown.CooldownTracker.Check | internal/providers/cooldown.go:82-99 | cooling if and only if terminal or not yet run out; a dead entry is dropped |
| Cooldown.CooldownTracker.RecordFailure | internal/providers/cooldown.go:105-146 | the new entry and the status are those of the specification |
| Cooldown.CooldownTracker.Grow | internal/providers/cooldown.go:133-142 | the multiplication loop computes the capped power |
| Cooldown.CooldownTracker.MarkTerminal | internal/providers/cooldown.go:150-157 | overwrites the entry with a terminal one |
| Cooldown.CooldownTracker.Reset | internal/providers/cooldown.go:160-164 | removes the entry, terminal or not |
| Cooldown.CooldownTracker.ActiveCount | internal/providers/cooldown.go:167-180 | counts the live entries and drops the others |
| Cooldown.CooldownTracker.TakeSnapshot | internal/providers/cooldown.go:276-299 | lists exactly the live entries, each once, and changes nothing |
| Cooldown.EntryIsHistory | internal/providers/cooldown.go:105-146 | over any run, a cooling entry's counters are the number and last time of its counted failures, which lie a window apart |
| Cooldown.FailuresAreOnePerWindow | internal/providers/cooldown.go:119-131 | failures are at most 1 plus the elapsed time divided by the window, rounded down |
| Cooldown.CountedFailureBacksOff | internal/providers/cooldown.go:133-145 | from the second counted failure on the cooldown is the duration times the factor for every earlier one, capped |
| Cooldown.TerminalIffBanned | internal/providers/cooldown.go:82-180 | over any run, an entry is terminal if and only if it was marked and not reset since |
| Cooldown.CooldownIsCappedIff | internal/providers/cooldown.go:105-146 | what RecordFailure leaves of a cooldown is within the cap if and only if an entry it does not touch had no more left, or the duration is within the cap, or the failure is counted and grows |
| Cooldown.CapHoldsOverRuns | internal/providers/cooldown.go:82-180 | over any run whose failures ask for no more than the cap, no cooling key ever has more than the cap left |
| Cooldown.CapBreaksIff | internal/providers/cooldown.go:105-146 | after such a run the next failure breaks the cap if and only if it asks for more and either restarts a cooldown in the anti-herd window or is counted without growth |
| Cooldown.LateHerdFailureIsNotCapped | internal/providers/cooldown.go:119-125 | a run in which a failure after two counted ones cools for twice the cap |
| Cooldown.FirstFailureIsNotCapped | internal/providers/cooldown.go:133-145 | a first failure that cools for twice the cap |
| Cooldown.HerdFailureMovesIff | internal/providers/cooldown.go:119-131 | a failure in the anti-herd window moves the end of a cooldown if and only if that has passed and the new end is another |
| Cooldown.HerdFailureExtends | internal/providers/cooldown.go:119-131 | a run in which it does |
| Cooldown.BackoffGrows | internal/providers/cooldown.go:133-142 | with a factor of at least 1, more failures never cool for less once the cap applies |
| Cooldown.CheckAgreesIff | internal/providers/cooldown.go:82-146 | Check confirms what RecordFailure has just reported if and only if the key is terminal, or a herd failure meets a running cooldown or restarts a past one for a positive time, or a counted one's grown duration and the cap leave at least one unit of time |
| Cooldown.CheckDisagreesAtExpiry | internal/providers/cooldown.go:82-131 | a run in which it does not |
| Keyrings.NewKeyring | internal/providers/keyring.go:27-45 | nil if and only if all keys are empty, else a ring of the distinct nonempty keys |
| Keyrings.UniqueKeepsEachKeyOnce | internal/providers/keyring.go:27-45 | the ring has every nonempty key exactly once |
| Keyrings.UniqueKeepsOrder | internal/providers/keyring.go:27-45 | in the order of first occurrence |
| Keyrings.Next | internal/providers/keyring.go:54-63 | the counter picks the key and moves on, wrapping; a single key leaves it alone |
| Keyrings.CallNext | internal/providers/keyring.go:54-63 | m calls of Next return the draws that the fairness results speak of |
| Keyrings.RotationIsFair | internal/providers/keyring.go:47-63 | any m calls in a row hand out each of n keys m / n times, rounded down or up, while the counter does not wrap |
| Keyrings.NewRingDrawsInOrder | internal/providers/keyring.go:27-63 | a new ring hands out its keys in their order, again and again |
| Keyrings.ThreeKeysAtTheWrap | internal/providers/keyring.go:54-63 | with three keys the calls around the wrap return the same one |
| Keyrings.FairAcrossTheWrapIff | internal/providers/keyring.go:47-63 | rotation is fair for all runs if and only if n divides 2^64 |

## Left out

- HTTP transport, JSON, SQL execution, Echo handlers, the command line, metrics, file caches and configuration loading: I/O and libraries.
- The audit logger and the shared breaker are values moved by steps, not objects: their point is interleaving. Atomics, mutex sections and channel operations are single steps; WaitGroup misuse panics and the memory model are not part of this model.
- The logger's flush interval (a tick may come at any time) and what a log store does with a batch.
- Client.DoRaw: does not model nil hooks, closing of raw body readers, or the text of errors; an outcome is the class the code sorts it into.
- Client.TotalBackoffIsBounded: asks for nonnegative settings; ClientBackoff.TotalBackoffIsBoundedIff says exactly which settings keep the total without them.
- Client backoff and cooldown growth use reals and integer times; floating-point rounding and 64-bit overflow of durations are not modelled.
- StreamConverter.Converter.Read: does not model byte frames, partial lines, `Close` or marshalling errors; a line is a chunk, the sentinel or noise. In the source an error that arrives together with an unfinished last line is returned before the events of that line.
- StreamConverter.Drain: likewise a sentinel in a last line cut off by an error ends the stream here, while the source returns the error.
- StreamAgreement.FromChatResponse: keeps raw argument strings, where the source compacts JSON arguments and replaces invalid ones, and leaves out usage.
- StreamAnswers.StreamingAgreesIff: compares raw argument strings; the replacement of invalid JSON arguments by the non-streaming translation is not part of this model. A fragment without an index counts as one of call 0, as the converter reads it, in the response too.
- ConversationStore.MemoryStore.Create: conversations are values, so the clones made on the way in and out and aliasing are not modelled; sizes are unbounded, without 64-bit overflow, and the serialized size is a parameter.
- Registry.ModelRegistry.EnrichModels: does not state its counters, and leaves out nil entries in the maps. It asks that slots hold distinct objects, which GlobalModels.ModelInfoMapFromResponse gives within a provider.
- Registry.ModelRegistry.ApplyConfigMetadataOverrides: the variant without a replacement map, which changes unpublished objects in place, is not modelled; how metadata and pricing merge is a parameter.
- GlobalModels.AddProviderModels: nil entries, which the source skips, cannot be expressed; every entry of a map is an object.
- The rest of the model registry (refresh loop, routing, lookups): only the two maps matter here.
- Failover.AttemptRecorder.Record: does not model a context without a recorder, attempt observers, timings, or kinds other than primary and failover.
- Failover.ExecuteTranslatedWithFailover: whether an error's text speaks of a missing or unavailable model is a flag of the error; what the authorizer, the rate limiter and the provider say is fixed by target.
- Embeddings (their failover is disabled) and usage logging.
- BatchPaging.MemoryStore.List: batches are an ID and a creation time; the sort is any sort by that order, and the SQL form is what its statement selects.
- BatchStores.StoresListAlikeIff: SQL errors are left out; a call is accepted or rejected by both stores alike.
- The other operations on batches: upstream calls with little state of their own.
- Resolution of a model before and after the alias step (exact match, provider model IDs, release-date suffixes): map lookups and regular expressions.
- Cooldown: the mapping from HTTP status codes and error texts to calls, a chain of comparisons.
- Keyring getters.
