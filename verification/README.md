# Gateyes gateway: verified core

A Dafny model of the stateful cores of the Gateyes AI gateway, with proofs of what they promise over whole runs.
`dafny verify dfyconfig.toml` checks everything.

| file | what it models |
|---|---|
| `Options.dfy` | a value that may be missing |
| `LedgerScripts.dfy` | the four Lua scripts of the Redis budget and quota ledger, the SQL transactions they stand in for, and exactly where the two differ |
| `LedgerProtocol.dfy` | the write-behind protocol: charges, the multi-step flush under its lock, lazy creation of hashes under a second lock, invalidation; its invariant, step by step |
| `LedgerTheorems.dfy` | what every run of that protocol guarantees, up to refinement of the SQL implementation |
| `LedgerEffects.dfy` | what its processes get done: flushes, creations and invalidations |
| `TokenBuckets.dfy` | the token-bucket limiter scripts, the admission bound, and what clients can observe of write-back and key expiry |
| `BatchJobs.dfy` | batch jobs with at-least-once delivery, duplicate claims, crashes, recovery and cancellation |
| `AuthCache.dfy` | the identity cache of several gateway processes over shared Redis entries, revision counters and the store |
| `GuardrailPolicy.dfy` | the merging of tenant, project and service guardrails |
| `StreamFilter.dfy` | enforcing a policy on a request, a response and a response stream |
| `ResponseCache.dfy`, `ResponseCacheTheorems.dfy` | the LRU memory cache, the Redis cache and the layered cache; the layered cache as one map, and what the LRU keeps |
| `ResponseCacheFleet.dfy` | several gateways with memory layers of their own over one Redis |
| `CanonicalJson.dfy` | canonical JSON and cache-key construction |
| `ServiceVersions.dfy` | creating, staging, publishing, promoting and rolling back service versions, with concurrent requests |
| `ResponsesSse.dfy` | the event stream of the Responses surface |

Each Lua script, SQL transaction, Redis command and mutex section is one atomic step. Where the source changes state in
place the model is a class whose methods are proved against functions on values (`Script`, `SqlTx`, `Written`,
`Finished`, `Touch`, `Put`, `Transitioned`, ...), and the theorems are about every run of those functions. Bookkeeping
that only the theorems need (`asOf`, `cachedAt`, lock owners, `Charged`) influences no step.

Where the code does not do what one would expect, the model follows the code and the exact condition is proved:

- The Redis and SQL budget checks differ on some calls: SQL consume ignores reservations, guards costs that are not
  positive and needs a row, and an empty policy column is treated as `hard_reject` by Redis only. `Disputed` and
  `Undisputed` name these keys, `GuardsAgreeExactly` shows there are no others, and `ReservedBudgetIsDisputed` is the
  plainest case.
- A bucket that 120 s do not refill is reset to full by key expiry, so it admits more than its bound: `BoundHoldsExactly`,
  `ExpiryHiddenExactly`.
- A batch whose first items finish before its last item row is inserted closes early and strands the rest:
  `StatusLawExactly`, `EarlyFinishStrandsLaterItem`.
- An identity whose revisions are read only after a change that took it away was bumped is cached as current. No other
  step leads to a stale answer: `FreshExactlyWithoutLateReads`; `StraddledLoadServesStaleData` is such a run.
  `CachedAnswersAreYoung` still bounds its life, and `AgeBoundIsAttained` shows that the bound cannot be lowered.
- The model name `__gateyes_deny_all__` passes when the allowlists of the levels have no name in common; this is the only
  name that does: `EffectiveIsConjunction`, `SentinelModelSlipsThrough`. The merge enforces a level's rules even when that
  level's own `Enabled` flag is false.
- A call that Redis misses can be noticed unless it is a Get the memory layer answers, a Set of no entry or a Delete of a
  key Redis does not hold fresh: `LikeOneMapExactly`. `MissedDeleteComesBack` is such a run.
- A cache key is an input's own iff tenant, model, surface and prompt are NUL-free and the flag and bucket cannot be read
  as the end of the prompt followed by a flag and bucket again, as a bucket that begins with byte 1 can: `KeyIsOwnExactly`,
  `NulAlwaysCollides`, `BucketReadsAsFlag`.
- Staging writes back the published pointer it read before its transaction, so it undoes a publish that commits in
  between: `ServesLastPublishedExactly`, `StagingCanUnpublish`. A promote publishes the version that was staged when it
  began, and drops one staged since: `PromotesStagedExactly`, `PromoteDropsLaterStaging`. A new version may hold an older
  service record than the current one: `VersionHoldsRecordRead`, `EditOvertakesDraft`.
- A cancelling job with a running item whose worker is gone can never finish: `CancellingFinishesExactly`.
- A redact term split over two chunks is sent unredacted: `ChunksRedactAlikeExactly`, `StreamRedactsWholeExactly`,
  `SplitTermGoesOut`.
- A write or Delete at one gateway leaves the memory of another as it is: `FleetLikeOneMapExactly`,
  `OverwriteElsewhereIsStale`.
- A rule set without rules cancels another one out, so a level can be enforced exactly as it was written, blanks and white
  space included: `NoneExactly`, `CleanOrVerbatim`.
- The handler sends on an event that carries one of its own bracketing types, and the end of an upstream message item,
  which the OpenAI provider reports as a finished tool call; either breaks the bracketing and nothing else does:
  `OutputWellBracketedExactly`, `UpstreamMessageClosesTwice`.

## Model

| member | source | states |
|---|---|---|
| `LedgerScripts.ActiveScopes` | internal/repository/sqlstore/budget_ledger.go:236-245 | the keys of a call are exactly the nonblank scopes, without repeats |
| `LedgerScripts.RedisLedger.Consume` | internal/repository/sqlstore/budget_ledger.go:24-61 | the consume script, loops and all, returns the verdict and leaves the hashes of `Script`: quota first, then every budget, all increments or none; a rejected call changes no scope at all |
| `LedgerScripts.RedisLedger.Reserve` | internal/repository/sqlstore/budget_ledger.go:63-86 | the reserve script equals `Script` with `Hold`, does nothing for an amount that is not positive, and changes no scope when it rejects |
| `LedgerScripts.RedisLedger.Commit` | internal/repository/sqlstore/budget_ledger.go:88-100 | the commit script moves the amount from reserved to spent on every key, deltas included |
| `LedgerScripts.RedisLedger.Release` | internal/repository/sqlstore/budget_ledger.go:102-112 | the release script gives the amount back on every key, deltas included |
| `LedgerScripts.SqlLedger.GuardedTx` | internal/repository/sqlstore/identity.go:222-409 | guarded updates scope by scope with rollback on the first miss equal the all-or-nothing `SqlTx`, including which limit is reported |
| `LedgerScripts.SqlLedger.AdjustTx` | internal/repository/sqlstore/identity.go:411-476 | the commit and release transactions equal `SqlTx` |
| `LedgerScripts.ConsumeExactly` | internal/repository/sqlstore/budget_ledger.go:24-61 | in plain figures: which quota or budget refuses a Redis consume, and what an allowed one adds to each total and delta |
| `LedgerScripts.ReserveExactly` | internal/repository/sqlstore/budget_ledger.go:63-86 | the same of a reserve: refused iff some hard_reject budget has no room beside spent and reserved |
| `LedgerScripts.SettleExactly` | internal/repository/sqlstore/budget_ledger.go:88-112 | commit moves a positive amount from reserved to spent on every key, release takes it off reserved, and nothing else changes |
| `LedgerScripts.SqlConsumeExactly` | internal/repository/sqlstore/identity.go:222-349 | the same in SQL, where a consume needs every row and ignores reservations |
| `LedgerScripts.SqlReserveExactly` | internal/repository/sqlstore/identity.go:368-409 | a SQL reserve is refused iff some row is missing or has no room beside spent and reserved |
| `LedgerScripts.SqlSettleExactly` | internal/repository/sqlstore/identity.go:411-476 | commit and release on the rows that exist |
| `LedgerScripts.GuardsAgreeExactly` | internal/repository/sqlstore/identity.go:222-409 | the Lua test and the SQL guard of one key agree iff the key is not disputed |
| `LedgerScripts.AgreeExactly` | internal/repository/sqlstore/identity.go:222-476 | the corollary for whole calls: on equal figures the verdicts are equal iff no key is disputed, or the quota is exceeded, or each path refuses some key |
| `LedgerScripts.UndisputedStaysMirrored` | internal/repository/sqlstore/identity.go:222-476 | an undisputed call that moves nothing backwards leaves both paths with the same verdict and the same figures |
| `LedgerScripts.ReservedBudgetIsDisputed` | internal/repository/sqlstore/identity.go:222-349 | half the budget spent, half reserved, the same amount again: Redis refuses, SQL allows |
| `LedgerProtocol.EventKeepsInv` | internal/repository/sqlstore/budget_ledger.go:519-603 | every step of every process keeps balance, lock ownership and per-program-point assertions, and only calls show on the abstract rows: flush, creation and invalidation are stutter steps |
| `LedgerTheorems.NothingLostOrChargedTwice` | internal/repository/sqlstore/budget_ledger.go:519-587 | in every interleaving, on every scope and quota, Redis equals SQL plus the unflushed delta corrected by a flush in flight, and both equal the opening figure plus exactly what accepted calls moved |
| `LedgerTheorems.ClampNeverFires` | internal/repository/sqlstore/budget_ledger.go:544-552 | with commits and releases matched to reserves the flush never meets a negative reserved value |
| `LedgerTheorems.NeverOverspent` | internal/repository/sqlstore/budget_ledger.go:24-112 | in every interleaving a positive hard_reject scope keeps spent + reserved within its budget and a positive quota keeps used within the quota |
| `LedgerTheorems.InitNeverErases` | internal/repository/sqlstore/budget_ledger.go:264-303 | whenever a creation is about to write, the hash is still missing and the row it loaded is still the row in SQL |
| `LedgerTheorems.OneInitWritePerDeletion` | internal/repository/sqlstore/budget_ledger.go:349-392 | between two deletions of a hash at most one creation writes it |
| `LedgerTheorems.CallRefinesSql` | internal/repository/sqlstore/budget_ledger.go:137-234 | a Redis call on undisputed scopes, with or without hashes on scopes it does not move, is one SQL transaction on the abstract rows: same verdict, same next state |
| `LedgerTheorems.RunRefinesSql` | internal/repository/sqlstore/budget_ledger.go:137-234 | a whole interleaved run is a sequential run of the SQL transactions with the same verdicts and final figures |
| `LedgerTheorems.WriteBehindRefinesSql` | internal/repository/sqlstore/identity.go:222-476 | the same, from SQL rows alone and no hash |
| `LedgerEffects.FlushSettles` | internal/repository/sqlstore/budget_ledger.go:519-587 | a flush that nothing disturbs ends by itself: the row has the hash's figures, both deltas are 0, the lock is free and nothing else changed |
| `LedgerEffects.FlushCarriesCharges` | internal/repository/sqlstore/budget_ledger.go:519-587 | in every interleaving, when a flush is over the SQL row holds the opening figure and every charge accepted before it read its first delta |
| `LedgerEffects.FlushCarriesReservations` | internal/repository/sqlstore/budget_ledger.go:519-561 | and what is reserved there is what was owed when it read its second delta |
| `LedgerEffects.FlushClampsReserved` | internal/repository/sqlstore/budget_ledger.go:543-561 | whatever the rows hold, the one SQL write of a flush adds the deltas read and stops at a reservation of zero |
| `LedgerEffects.InitCreates` | internal/repository/sqlstore/budget_ledger.go:264-303 | a creation that nothing disturbs stores the row's figures, hard_reject for an empty policy and nothing to flush, and frees its lock |
| `LedgerEffects.InvalidateSettles` | internal/repository/sqlstore/budget_ledger.go:589-603 | an invalidation moves the hash's figures to the row and removes the hash |
| `TokenBuckets.RedisBuckets.TryConsume` | internal/service/limiter/redis.go:15-99 | the single-bucket script grants iff the refilled level suffices and writes the refilled level back even when it denies |
| `TokenBuckets.RedisBuckets.Check` | internal/service/limiter/redis.go:48-132 | all buckets pay or none is written; a denial names the first bucket that is short |
| `TokenBuckets.EveryWindowIsBounded` | internal/service/limiter/redis.go:15-87 | in every window of every run 1000 times what a bucket admits is at most 1000 times burst plus rate times elapsed ms, and stored tokens stay within 0 and burst |
| `TokenBuckets.TwoCallsExactly` | internal/service/limiter/redis.go:15-87 | of two calls on a new bucket the first gets m iff m is within burst, the second gets n iff n is within burst and 1000 n within 1000 times what the first left plus rate times the ms in between |
| `TokenBuckets.RunPays` | internal/service/limiter/redis.go:15-87 | what a run admits plus the level it ends with is at most the level it began with plus the refill |
| `TokenBuckets.RunKeepsStoreOk` | internal/service/limiter/redis.go:15-87 | stored levels stay within 0 and burst and never lie in the future |
| `TokenBuckets.HiddenChoices` | internal/service/limiter/redis.go:28-84 | writing or not writing the refilled level on denial gives the same answers for ever, whichever calls do it, and so does expiry of buckets that 120 s refill |
| `TokenBuckets.ExpiryHiddenExactly` | internal/service/limiter/redis.go:28-84 | the 120 s expiry changes no answer of any run iff rate times 120 reaches burst for every bucket |
| `TokenBuckets.BoundHoldsExactly` | internal/service/limiter/redis.go:15-87 | with expiry, the admission bound holds in every run iff 120 s refill the bucket |
| `TokenBuckets.EarlyExpiryShows` | internal/service/limiter/redis.go:28-38 | otherwise burst, wait, burst again breaks the bound and shows the expiry |
| `BatchJobs.BatchStore.MarkItemRunning` | internal/repository/sqlstore/batches.go:231-286 | a claim succeeds on any item that is not terminal in a job that is not closed, running items included |
| `BatchJobs.BatchStore.UpdateTerminal` | internal/repository/sqlstore/batches.go:363-422 | a terminal update takes effect once, bills completed items only and recounts the job |
| `BatchJobs.BatchStore.CancelJob` | internal/repository/sqlstore/batches.go:300-361 | cancelling cancels pending items row by row, leaves running ones and refuses finished jobs |
| `BatchJobs.BatchStore.Refresh` | internal/repository/sqlstore/batches.go:424-503 | one pass over the rows gives the counters and the derived status, unless the caller prefers one |
| `BatchJobs.CountersAlwaysExact` | internal/service/batch/service.go:196-293 | under any redelivery, duplicate claim, crash or recovery the counters equal the items in each terminal status and the token totals the sum over completed items, each once |
| `BatchJobs.TokensAreReported` | internal/repository/sqlstore/batches.go:398-412 | in every run the job's tokens are the usage reported by the completions that met an item without an end, each in full and once, and nothing else |
| `BatchJobs.EndingEffect` | internal/repository/sqlstore/batches.go:363-422 | a worker's last event gives its item the status and usage it reports, unless the item already has an end |
| `BatchJobs.DeliveryEffect` | internal/repository/sqlstore/batches.go:231-286 | a delivery claims an item without an end in an open job and starts the job |
| `BatchJobs.CancelEffect` | internal/repository/sqlstore/batches.go:300-361 | cancelling an open job ends the pending items and leaves all others; the job waits iff one is running |
| `BatchJobs.DerivedStatusExactly` | internal/repository/sqlstore/batches.go:424-467 | for any rows and any current status, which derived status means what about the rows, each as an iff |
| `BatchJobs.DerivedStatusLaw` | internal/repository/sqlstore/batches.go:424-503 | the status derived from the counts is exactly what the item rows call for |
| `BatchJobs.StatusLawExactly` | internal/repository/sqlstore/batches.go:424-503 | at the end of a run the job is terminal iff all items are, completed only if all completed, cancelling only with no item pending and one running, iff no item row was inserted after its job had closed |
| `BatchJobs.EarlyFinishStrandsLaterItem` | internal/service/batch/service.go:135-147 | the creation loop can violate that: item 0 may finish before item 1 exists |
| `BatchJobs.TerminalAbsorbs` | internal/repository/sqlstore/batches.go:231-361 | in every run, late inserts included, nothing after a terminal state changes the job row or an item row that was there |
| `BatchJobs.CancellingFinishesExactly` | internal/repository/sqlstore/batches.go:231-361 | in every run a cancelling job can still reach a terminal state iff each of its open items is held by a live worker; recovery and redelivery do not help |
| `BatchJobs.EffectiveStepsSpendWork` | internal/repository/sqlstore/batches.go:231-422 | 2 x pending + running strictly falls on every event that changes an item row |
| `AuthCache.EventKeepsInv` | internal/service/auth/auth.go:69-116 | every step but a late read keeps each cache entry tied to a store version and to revisions that show every bumped change that took it away |
| `AuthCache.MismatchIsDropped` | internal/service/auth/auth.go:69-116 | a cached entry whose revisions differ from the current counters leaves its own cache, and the next level is asked |
| `AuthCache.LoadedIsStored` | internal/service/auth/auth.go:174-204 | a verified identity read from the store is cached for ttl at the gateway and, unless its key is blank, in Redis, under the revisions read |
| `AuthCache.FailedVerificationCachesNothing` | internal/service/auth/auth.go:174-204 | a key that fails verification ends the call and leaves both caches as they are |
| `AuthCache.AnswersSeeBumpedChanges` | internal/service/auth/auth.go:174-204 | without a late read, every answer is the store's own at a version after each change, to an id of the answered identity, that was bumped before the call began |
| `AuthCache.AnswersFromPostChangeData` | internal/service/auth/auth.go:222-303 | when the first n changes were bumped before the call, the answer is the store's own at a version that includes all n, whichever cache served it |
| `AuthCache.FreshExactlyWithoutLateReads` | internal/service/auth/auth.go:174-303 | no moment of a run leads to a stale answer iff no revisions are read for an identity that a bumped change had taken away |
| `AuthCache.LateReadIsUnsafe` | internal/service/auth/auth.go:190-204 | after any such read, caching the identity and calling again gives a stale answer |
| `AuthCache.StraddledLoadServesStaleData` | internal/service/auth/auth.go:174-204 | a run from an empty cache in which this happens |
| `AuthCache.CachedAnswersAreYoung` | internal/service/auth/auth.go:90-103 | with no invalidation at all, a cached answer had been cached from the store at most 2 x ttl, plus the time between a Redis read and its local copy, before the lookup |
| `AuthCache.AgeBoundIsAttained` | internal/service/auth/auth.go:174-252 | for every ttl and every such delay some run attains exactly that age |
| `GuardrailPolicy.NormalizeStringList` | internal/service/catalog/helpers.go:244-265 | trims, drops blanks and repeats, keeps first occurrences in order |
| `GuardrailPolicy.CleanIsNormal` | internal/service/catalog/helpers.go:244-265 | trimmed, nonblank, duplicate-free lists are left as they are |
| `GuardrailPolicy.NormalizedKeeps` | internal/service/catalog/helpers.go:244-265 | a name is kept iff it is not blank and is the trimmed form of some entry |
| `GuardrailPolicy.TrimSpaceKeepsInner` | internal/service/catalog/helpers.go:244-265 | trimming takes off white space on both sides and nothing else |
| `GuardrailPolicy.MergeAllowModels` | internal/service/catalog/helpers.go:196-219 | the loop computes the intersection, the other list when one is empty, or the deny-all sentinel |
| `GuardrailPolicy.MergeUniqueStrings` | internal/service/catalog/helpers.go:221-242 | the loop computes the ordered union |
| `GuardrailPolicy.NormalizedClean` | internal/service/catalog/helpers.go:244-265 | normalising any list gives a trimmed, nonblank, duplicate-free one |
| `GuardrailPolicy.MergedAllowExactly` | internal/service/catalog/helpers.go:196-219 | what the merge of any two lists admits, for every model name |
| `GuardrailPolicy.MergedAllowlists` | internal/service/catalog/helpers.go:196-219 | for any number of lists: the names on every nonempty one, or the sentinel when there is no such name |
| `GuardrailPolicy.MergedMeaning` | internal/service/catalog/helpers.go:157-179 | any number of merged rule sets, any lists, every model name: accepts a request iff all sets do, or it names the sentinel, no name is on all allowlists and all other rules accept it; accepts a response iff all sets do |
| `GuardrailPolicy.NoneExactly` | internal/service/catalog/helpers.go:157-179 | nothing is left of merged rule sets iff none has rules and they are even in number |
| `GuardrailPolicy.CleanOrVerbatim` | internal/service/catalog/helpers.go:157-194 | merging removes blanks, white space and repeats, unless one rule set is enforced as written: nothing follows it, and an even number of sets without rules precedes it |
| `GuardrailPolicy.EffectiveIsConjunction` | internal/service/catalog/runtime.go:293-314 | for any number of levels, any lists and every model name: unless an unclean rule set is enforced as written, a request is admitted iff the rules of every level accept it, or it names the sentinel, the allowlists have no name in common and every other rule accepts it, and a response passes iff every level accepts it; a set enforced as written admits iff the policy is off or the set as it stands accepts |
| `GuardrailPolicy.BlockedModelIsRefused` | internal/service/catalog/policy.go:22-24 | a model some level blocks is refused, whatever the policies say otherwise |
| `GuardrailPolicy.BlockedTermIsRefused` | internal/service/catalog/helpers.go:76-95 | a text in which a blocked term of some level occurs, in whatever case, is refused |
| `GuardrailPolicy.BlockedPatternIsRefused` | internal/service/catalog/helpers.go:76-95 | a text a pattern of some level matches is refused |
| `GuardrailPolicy.LongTextIsRefused` | internal/service/catalog/policy.go:25-28 | a text longer than a positive limit of some level is refused |
| `GuardrailPolicy.UnlistedModelIsRefused` | internal/service/catalog/policy.go:19-21 | a model other than the sentinel that some nonempty allowlist lacks is refused |
| `GuardrailPolicy.UnobjectionableIsAdmitted` | internal/service/catalog/policy.go:14-43 | a request every level lists, does not block and finds short and clean is admitted |
| `GuardrailPolicy.EffectiveRedactsUnion` | internal/service/catalog/helpers.go:157-179 | the effective policy redacts a term iff some level asks for it |
| `GuardrailPolicy.SentinelModelSlipsThrough` | internal/service/catalog/helpers.go:196-219 | two levels with disjoint allowlists refuse the sentinel as a model name, and their merge admits it |
| `StreamFilter.RedactText` | internal/service/catalog/helpers.go:97-106 | the loop replaces each nonempty term in turn, leftmost first |
| `StreamFilter.RedactsExactlyOccurrences` | internal/service/catalog/helpers.go:97-106 | replacing a term leaves a text alone iff the text does not contain it, or the term is the marker itself |
| `StreamFilter.ChunksRedactAlikeExactly` | internal/service/catalog/policy.go:102-106 | for a term that does not begin with the marker, redacting two chunks one by one is redacting them joined iff the border cuts no occurrence that is replaced |
| `StreamFilter.UncutStreamRedactsWhole` | internal/service/catalog/policy.go:87-134 | for any terms and any stream: when no border cuts such an occurrence, the text sent is the whole text redacted |
| `StreamFilter.StreamRedactsWholeExactly` | internal/service/catalog/policy.go:87-134 | for one such term: at every moment what went out is the text so far redacted as a whole iff no border cuts a replaced occurrence |
| `StreamFilter.SplitTermGoesOut` | internal/service/catalog/policy.go:102-106 | a term sent in two parts goes out as it is |
| `StreamFilter.MarkerHidesCut` | internal/service/catalog/helpers.go:97-106 | a term that begins with the marker may be cut without a trace |
| `StreamFilter.CheckBlockedContent` | internal/service/catalog/helpers.go:76-95 | finds nothing iff no nonempty term occurs, ignoring case, and no nonempty pattern matches |
| `StreamFilter.ApplyRequestPolicy` | internal/service/catalog/policy.go:14-43 | refuses exactly what the policy refuses, without touching the messages, and otherwise redacts every one in place |
| `StreamFilter.ApplyResponsePolicy` | internal/service/catalog/policy.go:45-85 | the error for a finished response, and its redacted parts |
| `StreamFilter.FilterResponseStream` | internal/service/catalog/policy.go:87-134 | forwards, redacted and in order, the longest prefix the policy lets through, then nothing; reports why it stopped |
| `StreamFilter.SentEventsExactly` | internal/service/catalog/policy.go:100-123 | deltas and the texts of a finished response go out redacted, refusals and all other events as they came |
| `StreamFilter.EndExactly` | internal/service/catalog/policy.go:94-133 | why a stream ends early, each reason as an iff on the input at which it ends and the whole text checked there |
| `StreamFilter.OutputTextJoins` | internal/service/provider/estimate.go:130-146 | the text checked of a finished response joins, part by part, its text or else its refusal |
| `StreamFilter.OutcomeIsUnique` | internal/service/catalog/policy.go:87-134 | that description leaves one outcome only |
| `StreamFilter.SentTextIsAlwaysClean` | internal/service/catalog/policy.go:87-134 | at every point the text sent so far, across chunk borders, has no blocked term or pattern and is within the length limit |
| `StreamFilter.SentTextIsRedactedPrefix` | internal/service/catalog/policy.go:87-134 | it is an in-order prefix of the chunkwise redacted input, and a stream without error was sent whole or up to the closing of the error channel |
| `StreamFilter.CutAtFirstRefusal` | internal/service/catalog/policy.go:87-134 | for every policy and every input the stream is cut at the first input that fails a check of the whole redacted text up to it, and nowhere else |
| `StreamFilter.StreamRefusedExactlyWhenTextIs` | internal/service/catalog/policy.go:87-134 | for chunks at whose borders lower-casing the text so far begins what lower-casing the whole gives, and a pattern that matches the text so far matches the whole, filtering as it streams refuses iff checking the whole redacted text would |
| `ResponseCache.MemoryCache.constructor` | internal/service/cache/memory_cache.go:44-55 | an empty cache; a capacity below 1 becomes 1024 |
| `ResponseCache.MemoryCache.Get` | internal/service/cache/memory_cache.go:59-89 | answers iff present and not expired, drops an expired entry, moves a hit to the front, counts it; list and index stay in bijection |
| `ResponseCache.MemoryCache.Set` | internal/service/cache/memory_cache.go:92-128 | puts the entry first with its expiry and evicts from the back down to capacity; a nil entry changes nothing |
| `ResponseCache.MemoryCache.Delete` | internal/service/cache/memory_cache.go:131-141 | removes exactly that key |
| `ResponseCache.MemoryCache.RemoveLocked` | internal/service/cache/memory_cache.go:198-202 | removing an element keeps list and index in bijection |
| `ResponseCache.RedisCache.Get` | internal/service/cache/redis_cache.go:52-76 | a hit, a miss or a failure; expired keys are gone |
| `ResponseCache.LayeredCache.Get` | internal/service/cache/layered_cache.go:23-39 | memory first, then Redis, with no promotion; the answer and both layers afterwards, nil layers and failures included |
| `ResponseCache.LayeredCache.Set` | internal/service/cache/layered_cache.go:41-54 | writes both layers and fails if either does |
| `ResponseCache.LayeredCache.Delete` | internal/service/cache/layered_cache.go:56-64 | deletes from both and never reports a failure |
| `ResponseCacheTheorems.LayeredAnswersLikeOneMap` | internal/service/cache/layered_cache.go:23-64 | every sequence of calls of which Redis misses harmless ones only gets the answers of one unbounded map with expiry, at any capacity and with or without a memory layer |
| `ResponseCacheTheorems.ServedUntilDeadline` | internal/service/cache/memory_cache.go:92-128 | whatever was called before, and as long as nothing writes or deletes the key, a Get hits the value set iff the time to live given has not passed, or without one the default time, or always when there is neither |
| `ResponseCacheTheorems.LikeOneMapExactly` | internal/service/cache/layered_cache.go:23-64 | every prefix of a run, whatever answered calls follow it, gets the answers of the map iff Redis misses harmless calls only |
| `ResponseCacheTheorems.HarmfulIsNoticed` | internal/service/cache/layered_cache.go:23-64 | any other missed call is answered differently itself, or the next Get of its key is |
| `ResponseCacheTheorems.MissedDeleteComesBack` | internal/service/cache/layered_cache.go:56-64 | the plainest such run: a missed Delete reports success and the entry is served again |
| `ResponseCacheFleet.FleetLikeOneMapExactly` | internal/service/cache/layered_cache.go:23-64 | for any gateways with memory layers of their own over one Redis: no questions at any point of a run tell it from one map iff Redis misses harmless calls only and no write or Delete leaves, in another gateway's memory, a fresh entry with another value or a later expiry |
| `ResponseCacheFleet.ShadowIsNoticed` | internal/service/cache/layered_cache.go:41-64 | any such entry is noticed by a question to that gateway, at once or when the newer entry has expired |
| `ResponseCacheFleet.OverwriteElsewhereIsStale` | internal/service/cache/layered_cache.go:41-54 | the plainest such run |
| `ResponseCacheTheorems.HitsWereWritten` | internal/service/cache/layered_cache.go:23-64 | whatever Redis misses, a hit is the value of an earlier Set of that key whose time has not passed |
| `ResponseCacheTheorems.RecentKeysAreKept` | internal/service/cache/memory_cache.go:59-141 | a key written, or read before it expires, is kept with its slot while it is not deleted, overwritten or expired and fewer than capacity distinct other keys are touched |
| `ResponseCacheTheorems.KeptExactlyWhileRoom` | internal/service/cache/memory_cache.go:92-128 | after any run of writes to other keys such a key is still held iff fewer than capacity distinct keys were written |
| `CanonicalJson.SortedKeys` | internal/service/cache/cache.go:130-135 | whatever order the map is ranged in, the result is the one sorted list of its keys |
| `CanonicalJson.MarshalCanonical` | internal/service/cache/cache.go:128-174 | the loops write the canonical bytes |
| `CanonicalJson.LeqExactly` | internal/service/cache/cache.go:130-135 | keys are ordered by the first byte in which they differ, a beginning before the whole |
| `CanonicalJson.EmptyWritten` | internal/service/cache/cache.go:130-170 | the bytes of an empty array and of an empty object |
| `CanonicalJson.ArrayWritten` | internal/service/cache/cache.go:156-170 | the bytes of an array of two |
| `CanonicalJson.ObjectWritten` | internal/service/cache/cache.go:130-155 | the bytes of an object of two members, the smaller key first |
| `CanonicalJson.CanonReadsBack` | internal/service/cache/cache.go:128-174 | a value can be read back from the front of any text it was written to |
| `CanonicalJson.CanonicalExactly` | internal/service/cache/cache.go:128-174 | two JSON values have equal canonical bytes iff they are equal |
| `CanonicalJson.BuildKey` | internal/service/cache/cache.go:88-108 | the digest is taken of the four fields, the flag and the bucket, each field ended by NUL |
| `CanonicalJson.KeysNeverCollide` | internal/service/cache/cache.go:88-108 | with NUL-free tenant, model, surface and prompt, equal bytes are hashed iff the inputs are equal, bucket and flag included |
| `CanonicalJson.NulAlwaysCollides` | internal/service/cache/cache.go:88-108 | an input with a NUL in one of the four always shares its bytes with a different one |
| `CanonicalJson.KeyIsOwnExactly` | internal/service/cache/cache.go:88-108 | the bytes of an input belong to no other iff the four fields are NUL-free and its flag and bucket, cut at a NUL, nowhere leave a flag and bucket again |
| `CanonicalJson.BucketReadsAsFlag` | internal/service/cache/cache.go:96-103 | a NUL-free input that does not stream, with a bucket of byte 1 and more, shares its bytes |
| `ServiceVersions.Store.LoadBody` | internal/repository/sqlstore/service_catalog.go:238-246 | before the transaction: the snapshot given, or by default the service record as read |
| `ServiceVersions.Store.InsertVersion` | internal/repository/sqlstore/service_catalog.go:255-297 | the transaction appends a draft numbered one above the largest, with the snapshot settled before |
| `ServiceVersions.VersionHoldsRecordRead` | internal/repository/sqlstore/service_catalog.go:237-299 | in every interleaving version n+1 holds the snapshot given if it has a prefix, or else the record read by the request, which is the current one iff it has not changed since |
| `ServiceVersions.EditOvertakesDraft` | internal/repository/sqlstore/service_catalog.go:238-297 | a run in which the record is edited between the read and the insert |
| `ServiceVersions.Store.TransitionTx` | internal/repository/sqlstore/service_catalog.go:541-582 | marks the version, archives every other live one and moves the pointers; an unknown mode rolls back |
| `ServiceVersions.CommitSetsStatus` | internal/repository/sqlstore/service_catalog.go:532-571 | the status and pointers each accepted mode ends with; any other mode changes nothing |
| `ServiceVersions.CommitLeavesOthers` | internal/repository/sqlstore/service_catalog.go:541-571 | of the other versions the live ones are archived and the rest keep their status |
| `ServiceVersions.LoadFinds` | internal/repository/sqlstore/service_catalog.go:523-531 | a request goes on with the id of the version its reference names, and with the published pointer it read |
| `ServiceVersions.Store.Transition` | internal/repository/sqlstore/service_catalog.go:523-594 | publish and rollback by id or number, with the error cases |
| `ServiceVersions.Store.PromoteStaged` | internal/repository/sqlstore/service_catalog.go:347-356 | publishes the staged version, fails when there is none |
| `ServiceVersions.VersionsAlwaysConsistent` | internal/repository/sqlstore/service_catalog.go:237-360 | in every interleaving numbers are 1..n, at most one version is published or staged, it is the one the record names for its publish status, and a published pointer always finds a version |
| `ServiceVersions.ServedChangesOnlyOnPublish` | internal/service/catalog/runtime.go:265-291 | only a publish, promote or rollback changes the served snapshot, save for a staging whose pointer went stale |
| `ServiceVersions.PublishIsServed` | internal/service/catalog/runtime.go:265-291 | a committed publish, promote or rollback serves the snapshot of its own version |
| `ServiceVersions.PromotePublishesStaged` | internal/repository/sqlstore/service_catalog.go:347-356 | an undisturbed promote publishes exactly the staged version and leaves nothing staged |
| `ServiceVersions.PromotePublishesWhatItRead` | internal/repository/sqlstore/service_catalog.go:347-356 | in every interleaving a promote publishes the version whose id it read, archives every other live one and leaves nothing staged |
| `ServiceVersions.PromotesStagedExactly` | internal/repository/sqlstore/service_catalog.go:347-356 | every promote of a run publishes what is staged when it commits iff none commits after its pointer was overtaken |
| `ServiceVersions.PromoteDropsLaterStaging` | internal/repository/sqlstore/service_catalog.go:347-356 | a run from a new service in which a promote publishes the version staged first and drops the one staged since |
| `ServiceVersions.SnapshotsNeverChange` | internal/repository/sqlstore/service_catalog.go:523-594 | no step changes the snapshot of a version |
| `ServiceVersions.ServesLastPublishedExactly` | internal/repository/sqlstore/service_catalog.go:523-582 | the served version is at every moment the last one published iff no staging commits with an overtaken pointer |
| `ServiceVersions.StagingUndoesPublish` | internal/repository/sqlstore/service_catalog.go:558-577 | a publish that commits between a staging's read and its transaction is undone |
| `ServiceVersions.StagingCanUnpublish` | internal/repository/sqlstore/service_catalog.go:558-577 | a run from a new service in which this leaves nothing published |
| `ResponsesSse.NormalizeEvent` | internal/handler/responses.go:214-261 | the frames one provider event becomes |
| `ResponsesSse.NormalizedBecomes` | internal/handler/responses.go:214-261 | what each kind of provider event becomes, field by field: text and then tool calls of a content delta, starts, completions and finished items renamed, thinking dropped, anything else as it is |
| `ResponsesSse.StreamResponses` | internal/handler/responses.go:107-191 | the two nested loops write the rendering of all normalised events; between the handler's frames a client gets what each provider event becomes, in order, and exactly the function calls the provider made |
| `ResponsesSse.ToolCallsAllSent` | internal/handler/responses.go:230-243 | a client receives exactly the function calls the provider made, each once, complete and in order, with id, name and arguments |
| `ResponsesSse.RenderAccepted` | internal/handler/responses.go:107-300 | a rendering obeys the bracketing rules iff no event carries a bracketing type or ends an output item that is not a function call |
| `ResponsesSse.AcceptedIsRendered` | internal/handler/responses.go:107-300 | the rules leave no choice: a stream that obeys them is the rendering of the events it sends on |
| `ResponsesSse.StreamedTextIsProviderText` | internal/handler/responses.go:214-261 | the deltas together carry exactly the text the provider streamed |
| `ResponsesSse.OutputWellBracketedExactly` | internal/handler/responses.go:107-300 | text lies inside one open item, never two open, response.completed never inside one, all closed at the end, closing frames repeat all text so far, iff no provider event carries a bracketing type or ends an output item that is not a function call; nothing is lost or reordered, and no other well-bracketed stream sends on the same events |
| `ResponsesSse.UpstreamMessageClosesTwice` | internal/service/provider/openai.go:462-470 | text, the end of the upstream message item, completion: the exact frames, in which the message item ends twice |

## Left out

- Procedures that interleave (flush, creation of a hash, authentication, batch workers, version requests) are modelled as
  steps on one shared value rather than as methods on objects, so that every interleaving is a run; each program point is
  a constructor, and in-process aliasing of identities and records is not captured.
- Amounts are integers (micro-dollars, tokens) and limiter levels are reals: floating-point rounding, and the string form
  of numbers in Redis, are not modelled.
- Ledger: locks do not expire inside a critical section, Redis does not fail, a run stays on the Redis path, rows are not
  edited or removed by administrators, every commit or release belongs to an open reservation, and invalidation is one
  step that does not meet a held flush lock and does not fall between the moment a call has made sure of its hashes and its
  script. Under those events the deltas are not protected by the code.
- Ledger scans, flush events on the bus, waiting for a hash another process creates, and the cached budget checks are not
  modelled; they only add flushes or reads.
- LedgerTheorems.CallRefinesSql: assumes a cost that is not negative; on disputed scopes the two paths differ, as
  `AgreeExactly` states.
- Limiter: `now` does not go backwards, the keys of one call are distinct, consumption is not negative; limits whose rate
  or burst is not positive never reach a script and are left out of runs;
  the in-process fallback buckets are not modelled.
- Batches: request bodies, error texts, timestamps and tenants are not modelled; recovery appears as further deliveries,
  without its staleness test.
- Auth cache: virtual keys, which always read the store, secrets, activity checks (one Boolean per call) and role, model
  and provider checks; the sampled clean-up of the local map is an eviction that may happen at any time; Redis does not fail.
- AuthCache.AnswersFromPostChangeData: assumes no late read, which `FreshExactlyWithoutLateReads` shows to be the exact
  condition.
- AuthCache.CachedAnswersAreYoung: allows for the time between reading a Redis entry and copying it, which the source
  does not bound.
- Guardrails and stream filter: strings stand for byte sequences, so lengths are in bytes as in the source; white space is
  ASCII only; lower-casing and regular expressions are parameters; an invalid pattern matches
  nothing, as in the source; the joined input text of a request is a parameter.
- StreamFilter.StreamRedactsWholeExactly: is about one term; for several terms `UncutStreamRedactsWhole` gives the sufficient
  direction only, since a later term may hide what an earlier one left, and terms that begin with the marker are outside
  both iffs, by `MarkerHidesCut`.
- Stream filter: the order in which channels become ready is the input sequence; response records written to the store
  and the WASM guardrails are not modelled.
- Response cache: cancelled contexts, deep copies of entries, JSON encoding of Redis values, sub-millisecond times to live
  and go-redis's KEEPTTL for a negative default are not modelled; both layers share one clock; `FallbackCache`, the
  semantic cache and statistics of the Redis layer are not modelled.
- ResponseCacheTheorems.LayeredAnswersLikeOneMap: assumes equal default times to live and a clock that does not go
  backwards, and so does ResponseCacheFleet.FleetLikeOneMapExactly; the condition on missed calls is exact, by
  `LikeOneMapExactly`.
- Canonical JSON: the encoding of scalars and of keys is a parameter assumed injective and self-delimiting; SHA-256 and
  the hexadecimal prefix of the key are one parameter.
- Service versions: a mode arrives trimmed and in lower case; each transaction is atomic, version ids are fresh, services
  are not deleted, subscriptions and the enabled flag are not modelled.
- Responses stream: write errors, upstream errors, cancelled requests, metrics and the JSON of the frames are not modelled.
- HTTP handlers, administration, roles, OIDC, metrics, tracing, the web UI, the operator and vLLM commands, the event bus,
  alerts, configuration and migrations are not modelled: they copy fields or do I/O.
