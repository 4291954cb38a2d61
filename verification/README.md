# Verification of the adaptive rate limiter

A Dafny 4.11 model of the rate limiter's stateful parts, with proofs about whole runs of them.
`dafny verify dfyconfig.toml` checks everything.

## What is modelled

| module | models |
|---|---|
| `SlidingWindow` | the sorted-set limiter script, one atomic step per call, with pruning, key expiry and evictions |
| `CountdownBucket` | the countdown script that the engine runs, with its refreshed time to live, expiry and evictions |
| `LimiterSimulation` | both limiters on one request stream: which admits more, and exactly when they agree |
| `Scoring`, `Engine` | model scores, their combination, and `Evaluate` over one bucket per address |
| `VerdictProtocol` | proxy requests, pooled connections and server handlers, interleaved in any order, either side failing at any step |
| `Failures` | what failures lead to: connections never reused, lines never answered, requests that fail open after an answer |
| `Endpoints` | the two ends as the programs run them: the server's loop over lines, the proxy's query and its fail-open paths |
| `Accounting` | the protocol composed with the decision logic and the buckets |
| `Subnets`, `SequenceStore` | the per-subnet sequence store, the model input, incremental and batch scoring |
| `ConcurrentPushes` | the same store under a thread pool with no lock between read and write |
| `RateCounters` | the proxy's three expiring counters per address |
| `Blocklist` | the management API's expiring map and the packet filter that reads it, with 64-bit wrap-around |
| `Retrain` | consuming, grouping, refitting and flattening of the retraining job |
| `Runs`, `RedisKeys`, `Sequences` | runs as event lists, what both Redis limiters share, sequence facts |

Objects whose methods change them in place are classes; each method is proved against a function on
values (`Next`, `Evaluated`, `Replies`, `Pushed`, ...), and the lemmas about runs are about those
functions. Systems of several concurrent parties are transition systems: a step function, every
state reachable by any list of steps, and an invariant.

Conventions:

- Time is real-valued. Whether a Redis key read exactly at its deadline is still there is decided by
  each access, so the results about both limiters hold under either convention. A counter cell of
  the proxy is gone from the instant of its expiry on.
- A clock that never goes back is a hypothesis of the lemmas that need it (`MonotoneClock`, `Monotone`
  and `ApiClock`, the first two as uses of `Runs.NonDecreasing`).
- Clocks, model outputs, faults and evictions are parameters of a step; nothing is assumed about them
  beyond what a lemma states.
- The request identifiers in reply lines, log entries and stored items record provenance for the
  statements; no step reads them.

## Where the code differs from its documentation

- `token_bucket.lua:47-50` promises a unique member per call. The member is the server's `TIME`
  reading, so two calls in one microsecond share it and the second overwrites the first entry:
  `SharedTimeReadingIsNeverDenied` shows that such calls are never denied. What the set counts is
  distinct readings (`SlidesOnDistinctTimes`); `DecidesAsHistoryIff` says exactly when a decision is
  still the right one, and `ExactRecordIffNothingLost` exactly when the set records its window.
- `counter.lua:4` calls the counters sliding windows. They are fixed windows: `CountersAreNotSliding`
  is a concrete run, `SlidingIffClosedIsOld` the exact condition, `FixedWindowBoundsSlidingRate` the
  error bound.
- `redis/REDIS.md:110` gives the engine's bucket as the sliding-window set. The engine runs the countdown
  script instead, which is never more generous (`CountdownAdmitsNoMore`) and for every limit sometimes
  stricter (`SlidingWindowAdmitsMore`). `AlikeIffSettled` gives the exact condition under which the two
  decide a whole stream alike.
- `lstm_model.py:63` speaks of six groups of an IPv6 address; the code takes three.
- `score` and `score_sequence` agree on every list but the empty one (`IncrementalEqualsBatch`).
- When `now + ttl` overflows, the stored expiry is still the true sum and the listing's subtraction
  overflows back, so the listing agrees with the filter on every reachable map, overflow or not.

## Model

| member | source | states |
|---|---|---|
| SlidingWindow.SortedSetKey.TokenBucket | redis/lua-scripts/token_bucket.lua:35-67 | the commands of the script, run in place, take the key to `Next` and admit exactly when fewer than the limit remain after expiry and pruning |
| SlidingWindow.SortedSetKey.Expire | redis/lua-scripts/token_bucket.lua:59-64 | refreshes an existing key, does nothing to a missing one, and deletes the key on a time to live that is not positive |
| SlidingWindow.SkewedWindowBound | redis/lua-scripts/token_bucket.lua:35-67 | in any run with every caller within e of the server clock, a half-open interval of length window - 2e holds at most max_tokens admitted timestamps, plus max_tokens per eviction and one per overwritten entry at clocks within e of it |
| SlidingWindow.SkewBoundIsTight | redis/lua-scripts/token_bucket.lua:35-67 | for every limit of at least one, window and skew, every longer interval can hold more than the limit with nothing evicted or overwritten |
| SlidingWindow.SkewBoundIsTightWhileKept | redis/lua-scripts/token_bucket.lua:35-36 | for a limit of two or more the same although the key is never gone, because one caller ahead of the clock prunes early |
| SlidingWindow.IncreasingTimesAreFresh | redis/lua-scripts/token_bucket.lua:47-53 | strictly increasing TIME readings give every admitted call a new member |
| SlidingWindow.EvictionsCostOneWindowEach | redis/REDIS.md:167-173 | where every TIME reading is new to the set, each eviction lets through at most one more window's worth, and without one the limit holds exactly |
| SlidingWindow.CountsDistinctTimes | redis/lua-scripts/token_bucket.lua:30-44 | on one clock, in any run, the members a call counts are exactly the TIME readings of the admissions in (now - window, now] since the last eviction |
| SlidingWindow.SlidesOnDistinctTimes | redis/lua-scripts/token_bucket.lua:30-44 | on one clock, in any run, a call is admitted exactly when those admissions carry fewer than max_tokens distinct TIME readings |
| SlidingWindow.ExpiredKeyHeldNothing | redis/lua-scripts/token_bucket.lua:59-64 | the time to live of one window never drops an admission that would still count |
| SlidingWindow.DecidesAsHistoryIff | redis/lua-scripts/token_bucket.lua:38-67 | a decision is the one the full history asks for unless the distinct readings are fewer than max_tokens and the admissions are not, and only then is it wrong |
| SlidingWindow.SlidesExactly | redis/lua-scripts/token_bucket.lua:30-44 | as long as nothing has been overwritten or evicted while it counted, a call is admitted exactly when fewer than max_tokens earlier admissions lie in (now - window, now] |
| SlidingWindow.ExactRecordIffNothingLost | redis/lua-scripts/token_bucket.lua:47-56 | the set holds one entry per admission in its window throughout a run if and only if no admitted TIME reading was already in it and no eviction took an admission that still counted |
| SlidingWindow.SharedTimeReadingIsNeverDenied | redis/lua-scripts/token_bucket.lua:47-56 | calls sharing one TIME reading are all admitted, however many, for any limit of two or more |
| CountdownBucket.CounterKey.TokenBucket | decision-engine/internal/redis/client.go:20-41 | the commands of the embedded script take the key to `Next` and give the script's reply, or its error |
| CountdownBucket.CounterKey.Access | decision-engine/internal/redis/client.go:25-26 | an expired or evicted key is missing when the script looks |
| CountdownBucket.CounterKey.SetEx | decision-engine/internal/redis/client.go:27 | SET with EX stores value and deadline, or fails and stores nothing on an expiry that is not positive |
| CountdownBucket.CounterKey.Expire | decision-engine/internal/redis/client.go:34-39 | refreshes the deadline, or deletes the key on a time to live that is not positive |
| CountdownBucket.IntervalBound | decision-engine/internal/redis/client.go:25-40 | any interval of length L holds at most capacity x (floor(L / ttl) + 1) issued tokens, and one more capacity per eviction |
| CountdownBucket.IntervalBoundIsTight | decision-engine/internal/redis/client.go:25-40 | for every k some run issues capacity x (k + 1) tokens in an interval of length k x ttl |
| CountdownBucket.SessionConserves | decision-engine/internal/redis/client.go:25-40 | between two expiries and for every capacity the n-th call returns capacity - n, then -1 for ever; tokens issued are the calls up to the capacity, and the stored value is what is left |
| CountdownBucket.LockedOutIffNeverDropped | decision-engine/internal/redis/client.go:31-36 | a client that has run dry is never readmitted if and only if no pause lasts a whole ttl and its key is not evicted |
| CountdownBucket.NonPositiveTtlAlwaysErrs | decision-engine/internal/redis/client.go:26-27 | with a ttl that is not positive every call is an error and no key is ever created |
| LimiterSimulation.CountdownAdmitsNoMore | redis/lua-scripts/token_bucket.lua:35-67 | on any common request stream, with equal settings or a smaller capacity or a longer ttl, every request the countdown bucket admits is admitted by the sliding window, even if its set is evicted |
| LimiterSimulation.RelatedStep | decision-engine/internal/redis/client.go:20-41 | the simulation relation between counter and set is kept by every request |
| LimiterSimulation.AlikeIffSettled | redis/REDIS.md:110 | with one limit n and one window for both, every request of a stream is decided alike if and only if each is among the first n calls of its countdown session or comes less than a window after that session began |
| LimiterSimulation.InStepWhileAlike | decision-engine/internal/redis/client.go:20-41 | as long as the two agree, counter and set stay in step: one entry per token spent until a window after the session began, and always at least one token spent more than there are entries scored after it |
| LimiterSimulation.SlidingWindowAdmitsMore | decision-engine/internal/redis/client.go:31-36 | for every limit and window a client that spends its tokens and keeps calling is readmitted by one and locked out by the other, after a run on which both agree |
| Engine.DecisionEngine.Decrement | decision-engine/internal/redis/client.go:79-95 | the script runs on this address's key alone; the result is an error exactly if it did not run, its reply was lost (its token with it) or it failed, and otherwise its own reply, -1 included |
| Engine.DecisionEngine.Evaluate | decision-engine/internal/engine/engine.go:65-112 | blocks exactly on a score above its threshold or a reply that says the bucket is empty, throttles exactly on a score above the other threshold otherwise, for twice the score in minutes; adds a blocked address to the blocklist if that works; other addresses' buckets are untouched |
| Engine.VerdictCases | decision-engine/internal/engine/engine.go:70-108 | the same for every state and input: a Redis failure never blocks, and a scoring call that fails counts as a score of 0 |
| Scoring.ScoresAreNearest | ml-sidecar/models/isolation_forest.py:113-137 | each model's score is the point of [0, 1] nearest to its output, or to 0.5 minus it; no model scores as neutrally as a vector on the forest's boundary |
| Engine.SeverityMonotone | decision-engine/internal/engine/engine.go:91-112 | raising either model's score or exhausting the bucket never makes the action milder or the back-off shorter, for any thresholds |
| Engine.SeverityMonotoneInRawOutputs | ml-sidecar/models/isolation_forest.py:130-137 | the same in the models' raw outputs, through clamping and the weighted sum |
| Engine.BlockingNeedsSequenceScore | decision-engine/internal/config/config.go:50-51 | with default thresholds the score alone can block exactly when the sequence score is above 0.625, so never while it is neutral |
| Engine.DefaultBackOffRange | decision-engine/internal/engine/engine.go:102-108 | with default thresholds a throttled client waits 72 to 102 seconds, and only a throttled one is told to wait |
| VerdictProtocol.ReachableInv | nginx/lua/fingerprint.lua:92-168 | every interleaving of all steps keeps the invariant: at most one line or reply per connection, on the connection and for the request that sent it |
| VerdictProtocol.IdleCarriesNothing | nginx/lua/fingerprint.lua:109-117 | an idle pooled connection has no line, no reply and no evaluation outstanding |
| VerdictProtocol.VerdictIsOwn | nginx/lua/fingerprint.lua:143-167 | every verdict a request acts on was computed by the engine from that request's own line and address, and is acted on as it says |
| VerdictProtocol.EvaluatedAtMostOnce | decision-engine/cmd/server/main.go:137-149 | each request's line is answered, and so decremented for, at most once, and only after it was written |
| VerdictProtocol.EntryIsOfItsLine | decision-engine/cmd/server/main.go:137-147 | the engine is asked exactly about the lines that parse, for their own address, and the record names line, address and clock |
| VerdictProtocol.LoopTurnResult | decision-engine/cmd/server/main.go:137-149 | one turn of the handler takes the first line and appends one reply, changing nothing else but the engine |
| VerdictProtocol.RoundTripDelivers | nginx/lua/fingerprint.lua:92-168 | from any reachable state an undisturbed request ends on the engine's verdict for it and leaves the connection idle |
| Failures.ClosedIsNeverReused | nginx/lua/fingerprint.lua:101-117 | once the proxy has closed a connection, for whatever reason, no later step of any run pools it or gives it to a request |
| Failures.GoneHandlerNeverAnswers | decision-engine/cmd/server/main.go:131-150 | if a handler exits before it has answered a line, its request is never evaluated in any continuation and can only fail open |
| Failures.FailedOpenMaySpend | nginx/lua/fingerprint.lua:101-112 | a request whose send fails late, whose reply is lost or whose reply comes too late fails open although the engine has answered it |
| Endpoints.Handler.HandleConn | decision-engine/cmd/server/main.go:131-150 | the loop writes one reply per line, each from the engine left by the lines before it |
| Endpoints.OneReplyPerLine | decision-engine/cmd/server/main.go:137-149 | as many replies as lines, in their order, and an allow for every line that cannot be parsed |
| Endpoints.LoopIsHandlerSteps | decision-engine/cmd/server/main.go:131-156 | the loop and the handler's steps in the transition system produce the same replies and the same engine |
| Endpoints.QueryEngine | nginx/lua/fingerprint.lua:92-118 | a socket returns to the pool only after its reply has been read; every other connected exchange closes it |
| Endpoints.EvaluateRequest | nginx/lua/fingerprint.lua:124-168 | a request is turned away only on a reply that was read, decoded and says so; every failure lets it pass |
| Endpoints.ExchangeEndsAsEvaluated | nginx/lua/fingerprint.lua:92-168 | the transition system ends every exchange, whatever fails in it, with the outcome EvaluateRequest promises and the connection pooled, closed or unused as QueryEngine leaves its socket |
| Accounting.EveryVerdictIsAccountedFor | nginx/lua/fingerprint.lua:143-167 | per address and for any span of the server clock, requests passed on a verdict given in the span are at most the tokens issued + Redis errors + bad lines of that span, in any run |
| Accounting.EveryPassIsAccountedFor | nginx/lua/fingerprint.lua:124-168 | per address, requests passed upstream are at most tokens issued + Redis errors + bad lines + the proxy's own failures, in any run |
| Accounting.BucketFollowsItsCalls | decision-engine/internal/redis/client.go:79-95 | an address's bucket in the running system is the countdown run of that address's calls alone |
| Accounting.EveryLineIsDecided | decision-engine/internal/engine/engine.go:68-112 | every line answered in any run is blocked exactly if its score is above the threshold or it was served without a fault after its session had spent the capacity; it saw a Redis error exactly on a fault or a rejected time to live |
| Accounting.TokensComeFromTheBucket | decision-engine/internal/redis/client.go:79-95 | the tokens an address is handed in any interval plus those in lost replies are exactly the ones its bucket's script issued |
| Accounting.BlocklistIsHistory | decision-engine/internal/engine/engine.go:92-98 | the engine's blocklist is exactly the addresses that some line has blocked and whose addition worked |
| Accounting.TokensPerInterval | decision-engine/internal/engine/engine.go:68-76 | whatever the interleaving, tokens issued to an address in any interval obey the countdown bound |
| Accounting.EndToEndBound | decision-engine/internal/engine/engine.go:68-112 | for any interval of the server clock, requests of an address passed on a verdict given in it are at most the bucket's allowance for the interval plus its Redis errors and bad lines |
| Accounting.WholeRunBound | decision-engine/internal/engine/engine.go:68-112 | all requests passed upstream for an address whose bucket calls span an interval are at most the allowance for it plus the three kinds of failure |
| Subnets.SplitJoin | ml-sidecar/models/lstm_model.py:60-65 | splitting undoes joining for parts without the separator |
| Subnets.SplitIffJoin | ml-sidecar/models/lstm_model.py:60-64 | the parts are the only ones free of the separator that join to the string |
| Subnets.SubnetIsWhatRemains | ml-sidecar/models/lstm_model.py:58-65 | a dotted quad is its subnet and its last part; three or more colon groups leave the first three; any other address is its own subnet |
| Subnets.SameSubnetIffSamePrefix | ml-sidecar/models/lstm_model.py:58-62 | dotted-quad addresses share a subnet exactly when their first three parts agree |
| Subnets.SameColonSubnetIffSamePrefix | ml-sidecar/models/lstm_model.py:63-65 | addresses with colons share one exactly when their first three groups agree |
| SequenceStore.EncodersAgree | ml-sidecar/models/isolation_forest.py:50-66 | both models encode a feature vector alike, feature by feature and in one order |
| SequenceStore.KeysAreSubnets | ml-sidecar/models/lstm_model.py:84-85 | two addresses share a sequence exactly when they are in one subnet |
| SequenceStore.PrepareInput | ml-sidecar/models/lstm_model.py:150-157 | row i of the 20 x 9 array is the i-th of the last 20 rows, oldest first, cut or zero-padded to 9 columns; the rows below are zero |
| SequenceStore.InputIsPadded | ml-sidecar/models/lstm_model.py:150-157 | the input the scores are defined by is the only one of that form |
| SequenceStore.LSTMModel.PushFeatureVector | ml-sidecar/models/lstm_model.py:79-90 | appends to the sequence of the address's subnet and keeps its last 20; other subnets' sequences stay as they were |
| SequenceStore.LSTMModel.Score | ml-sidecar/models/lstm_model.py:92-126 | 0.5 without a model or data for the subnet, otherwise the clamped output on the subnet's padded rows; in [0, 1] |
| SequenceStore.LSTMModel.ScoreSequence | ml-sidecar/models/lstm_model.py:128-144 | 0.5 without a model, otherwise the clamped output on the whole list's padded encodings; in [0, 1] |
| SequenceStore.Scorer.Score | ml-sidecar/scorer.py:58-75 | the request's own vector is stored before its score is taken; the weighted sum is in [0, 1] |
| SequenceStore.StoreHoldsLastOfEachSubnet | ml-sidecar/models/lstm_model.py:79-90 | after any pushes of any addresses and any expiries an address's key holds exactly the last 20 of the vectors pushed in its subnet since the last expiry there, in order |
| SequenceStore.IncrementalBuildsBatchInput | ml-sidecar/models/lstm_model.py:104-113 | pushing one at a time and scoring builds the input that score_sequence builds from the subnet's whole list since the last expiry, row by row the encodings of its last 20 |
| SequenceStore.IncrementalEqualsBatch | ml-sidecar/models/lstm_model.py:92-144 | the two scores agree if and only if the list is not empty, no model is loaded, or the model is neutral on zeros |
| ConcurrentPushes.PushesAreNeverCorrupted | ml-sidecar/server.py:91-93 | under any interleaving and expiry a stored sequence has at most 20 entries, is a subsequence of its subnet's writes ending with the newest, and every entry is one finished call's own vector |
| ConcurrentPushes.StoredWasPushed | ml-sidecar/models/lstm_model.py:84-90 | every vector stored for a subnet in any reachable state is the encoding of the feature vector that exactly one call was given, for an address of that subnet |
| ConcurrentPushes.FinishedIsWritten | ml-sidecar/models/lstm_model.py:88-90 | every finished call has written its vector to its own key, once |
| ConcurrentPushes.LosesNothingIffNoOverlap | ml-sidecar/models/lstm_model.py:86-90 | in any run the last 20 writes since the last expiry are always held if and only if no call is overtaken between its read and its write by another write or by the expiry of what it read |
| ConcurrentPushes.RaceLosesAPush | ml-sidecar/models/lstm_model.py:86-90 | two calls for one subnet that both read before either writes lose the first one's vector, whatever the addresses and vectors |
| RateCounters.Counters.Incr | nginx/lua/counter.lua:34-39 | creates a cell with its time to live or bumps a live one without refreshing it; a failing incr changes nothing |
| RateCounters.Counters.Increment | nginx/lua/counter.lua:27-52 | bumps the three cells of this address, returns their new values, and leaves every other address's rates as they were |
| RateCounters.Counters.GetRates | nginx/lua/counter.lua:57-72 | the three current values, zero for a missing or expired cell |
| RateCounters.KeysAreInjective | nginx/lua/counter.lua:16-32 | different addresses or windows never share a key |
| RateCounters.KeysNameTheirTtl | nginx/lua/counter.lua:16-31 | every key ends in its own time to live in seconds |
| RateCounters.CellsAreLastSpans | nginx/lua/counter.lua:27-52 | a cell holds the last fixed window of its own address's requests, whatever other addresses do |
| RateCounters.SpansPartition | nginx/lua/counter.lua:34-45 | windows start at least ttl apart, each counts exactly the requests in the ttl from its start, and the counts add up |
| RateCounters.FixedWindowBoundsSlidingRate | nginx/lua/counter.lua:57-72 | the reported rate is at most the trailing count and falls short by at most the preceding window's final count |
| RateCounters.SlidingIffClosedIsOld | nginx/lua/counter.lua:57-72 | the shortfall is exactly the closed windows' requests in the trailing ttl, and the rate is sliding if and only if the last request of the closed windows is a ttl or more ago |
| RateCounters.CountersAreNotSliding | nginx/lua/counter.lua:4-9 | a run for every window in which the reported rate is 1 and the trailing count 2 |
| Blocklist.ManagementApi.HandleAddBlock | ebpf/loader/main.go:334-371 | the status of every outcome, and the stored expiry with its wrap-around |
| Blocklist.ManagementApi.HandleRemoveBlock | ebpf/loader/main.go:374-390 | removes exactly a present key, and says so |
| Blocklist.ManagementApi.HandleListBlocks | ebpf/loader/main.go:397-437 | one entry per key, with the remaining time as listed |
| Blocklist.DroppedIffInForce | ebpf/tc_blocker.c:56-144 | over any run with evictions at any time and an API clock that may step back, a packet is dropped exactly when it is readable and its source's latest event is an add that is for ever or not past its ttl |
| Blocklist.NeverLiftedEarly | ebpf/tc_blocker.c:118-143 | while the filter's clock is not ahead of the API's last reading, a block whose ttl the API's clock has not reached still drops, even on overflow |
| Blocklist.ExpiryIsExact | ebpf/loader/main.go:352-359 | the stored unsigned expiry is now + ttl even when the signed sum overflows |
| Blocklist.ListingAgreesIff | ebpf/loader/main.go:410-421 | for any stored value, listing and filter agree exactly when it is less than 2^63 seconds ahead |
| Blocklist.ListingAgreesWithFilter | ebpf/loader/main.go:405-423 | on every reachable map the listed time is the true remaining time, nonzero exactly when the filter drops the source |
| Retrain.ConsumeFeatureVectors | ml-sidecar/training/retrain.py:77-119 | each client's list is its in-order share of the messages accepted before the first error |
| Retrain.ConsumedUpToError | ml-sidecar/training/retrain.py:103-114 | a log in which nothing raises is consumed whole and in order; after the first message that raises nothing is, whatever follows |
| Retrain.OneMessageConsumed | ml-sidecar/training/retrain.py:105-112 | a message counts exactly if it decodes, is no older than the cutoff and names a client |
| Retrain.RetrainPerClient | ml-sidecar/training/retrain.py:122-135 | exactly the clients with at least 20 vectors are fitted, each once and on exactly its own list; refitted + skipped is the number of clients |
| Retrain.FlattenIsPermutation | ml-sidecar/training/retrain.py:189 | the flattened list is a permutation of all accepted vectors |
| Retrain.RetrainJob | ml-sidecar/training/retrain.py:174-190 | for any log, each client with enough accepted vectors is fitted once, on exactly those in log order, and the baseline on a permutation of all accepted vectors when there are enough |

## Left out

- CountdownAdmitsNoMore: the counter is not evicted, because an evicted counter is refilled while the set may still be full.
- AlikeIffSettled: neither key is evicted and every admitted TIME reading is new to the set; an eviction or an overwritten entry can make the two differ on streams that are settled.
- CellsAreLastSpans: runs without incr failures or dictionary evictions; a single call's failures are in Counters.Increment.
- DroppedIffInForce: adds at an API clock before the epoch, where now + ttl can be 0 and is then stored as for ever.
- QueryEngine: one exchange by itself; its interleaving with other requests and the handlers is in VerdictProtocol.
- Floating point: scores, thresholds and vectors are reals; Lua numbers beyond 2^53 and a fractional window in EXPIRE are not represented.
- go-redis retries and cluster redirects: a Decrement is one script execution that succeeds, does not run, or loses its reply.
- Sizes of the keepalive pool, the 60 s idle limit, the 50 ms and 200 ms timeouts: any close or failure may happen at any step.
- Building the feature vector, JSON encoding and event publishing: no state to reason about.
- Address parsing and the byte layout of map keys in the blocklist: one abstract key per address.
- The relation between the filter's monotonic clock and Unix time: two clocks, related only where a lemma says so.
- The order of LRU evictions in the kernel map: an eviction may hit any key at any time.
- The engine's own blocklist as a writer of the filter's map: it is a set of addresses in Engine.
- A missing scoring client, on which the engine's call would panic.
- Internals of the isolation forest and of ONNX inference: arbitrary outputs.
- get_set_model.lua, metrics.lua, the placeholder XDP program, SQL, dashboards and deployment files.
